/**
 The contact form's status text: the three messages the submit handler writes
 and the substring test (`String.prototype.includes`) the page uses to colour
 the status line.
 */
module ContactForm {

  /** The status before any submission: the empty string. */
  const IdleText: string := ""
  const SubmittingText: string := "Submitting..."
  // The two long messages are written as two literals joined, which lets the
  // verifier index into them; the strings are the ones the page shows.
  const SuccessText: string := "Message sent successfully!" + " (This is a simulation, no actual email was sent.)"
  const FailureText: string := "Failed to send message." + " Please try again later."

  /** Every value the status cell can hold. */
  const StatusTexts: set<string> := {IdleText, SubmittingText, SuccessText, FailureText}

  /** How the awaited step of a submission settles: the promise resolves or it throws. */
  datatype Outcome = Resolved | Rejected

  /** The status written once the awaited step has settled. */
  function StatusAfter(outcome: Outcome): (s: string)
    ensures s in StatusTexts && s != IdleText && s != SubmittingText
  {
    match outcome
    case Resolved => SuccessText
    case Rejected => FailureText
  }

  /** `sub` occurs in `s` starting at index `i`. */
  predicate OccursAt(s: string, sub: string, i: int)
  {
    0 <= i && i + |sub| <= |s| && s[i..i + |sub|] == sub
  }

  /** An occurrence in the tail of `s` is an occurrence in `s`, one index later. */
  lemma OccursInTail(s: string, sub: string, i: int)
    requires |s| > 0
    ensures OccursAt(s[1..], sub, i) <==> i >= 0 && OccursAt(s, sub, i + 1)
  {
  }

  /** `s.includes(sub)`: some index of `s` starts an occurrence of `sub`. */
  function Includes(s: string, sub: string): (r: bool)
    ensures r <==> exists i :: OccursAt(s, sub, i)
    decreases |s|
  {
    if |sub| > |s| then false
    else if s[..|sub|] == sub then (assert OccursAt(s, sub, 0); true)
    else
      var r := Includes(s[1..], sub);
      if r then
        var i :| OccursAt(s[1..], sub, i);
        OccursInTail(s, sub, i);
        r
      else
        assert forall i :: !OccursAt(s, sub, i) by {
          forall i ensures !OccursAt(s, sub, i) {
            if i > 0 {
              OccursInTail(s, sub, i - 1);
            }
          }
        }
        r
  }

  /** A text lacking some character of `sub` does not include `sub`. */
  lemma MissingCharExcludes(s: string, sub: string, c: char)
    requires c in sub && c !in s
    ensures !Includes(s, sub)
  {
  }

  /** Of the four status texts only the success message contains "successfully". */
  lemma OnlySuccessSaysSuccessfully()
    ensures Includes(SuccessText, "successfully")
    ensures !Includes(IdleText, "successfully")
    ensures !Includes(SubmittingText, "successfully")
    ensures !Includes(FailureText, "successfully")
  {
    assert OccursAt(SuccessText, "successfully", 13);
    MissingCharExcludes(SubmittingText, "successfully", 'y');
    MissingCharExcludes(FailureText, "successfully", 'u');
  }
}
