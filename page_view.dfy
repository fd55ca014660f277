/**
 What the page derives from its two state cells when it renders: the class of
 each navigation button, and the status paragraph under the contact form.
 */
module PageView {
  import opened SectionTracker
  import opened ContactForm

  /** Classes every navigation button carries; the template adds one space before the variable part. */
  const NavBaseClass: string := "text-gray-600 hover:text-indigo-600 transition-colors duration-300 capitalize "
  /** Classes added to the button of the active section. */
  const NavActiveClass: string := "font-bold text-indigo-600"

  /** The class string of the navigation button for `section`. */
  function NavButtonClass(active: string, section: string): (r: string)
    ensures NavBaseClass <= r
    ensures |r| > |NavBaseClass| <==> active == section
  {
    NavBaseClass + (if active == section then NavActiveClass else "")
  }

  /** The class strings of the six navigation buttons, in the order they are rendered. */
  function NavBar(active: string): (bar: seq<string>)
    ensures |bar| == |SectionIds|
  {
    seq(|SectionIds|, k requires 0 <= k < |SectionIds| => NavButtonClass(active, SectionIds[k]))
  }

  predicate IsHighlighted(cls: string)
  {
    cls == NavBaseClass + NavActiveClass
  }

  /** The indices of the highlighted buttons in the navigation bar. */
  function HighlightedButtons(active: string): set<nat>
  {
    set k: nat | k < |SectionIds| && IsHighlighted(NavBar(active)[k])
  }

  /** A button is highlighted exactly when its section is the active one. */
  lemma HighlightedIffActive(active: string, k: nat)
    requires k < |SectionIds|
    ensures IsHighlighted(NavBar(active)[k]) <==> SectionIds[k] == active
  {
  }

  /** While the active section is one of the six ids, exactly one button is highlighted: its own. */
  lemma ExactlyOneHighlighted(active: string, k: nat)
    requires k < |SectionIds| && SectionIds[k] == active
    ensures HighlightedButtons(active) == {k}
  {
  }

  /** In every state whose active section is one of the six ids, exactly one button is highlighted. */
  lemma OneButtonPerReachableState(active: string)
    requires active in SectionIds
    ensures |HighlightedButtons(active)| == 1
  {
    var k :| 0 <= k < |SectionIds| && SectionIds[k] == active;
    ExactlyOneHighlighted(active, k);
  }

  /** An active value outside the six ids highlights no button. */
  lemma NoneHighlightedOutsideSections(active: string)
    requires active !in SectionIds
    ensures HighlightedButtons(active) == {}
  {
  }

  /** The classes of the status paragraph, before its colour. */
  const StatusBaseClass: string := "mt-4 text-center text-sm "
  const SuccessColour: string := "text-green-600"
  const FailureColour: string := "text-red-600"

  /** A rendered status paragraph: its class string and its text. */
  datatype Paragraph = Paragraph(className: string, text: string)

  /** The two status colours give different class strings. */
  lemma StatusColoursDiffer()
    ensures StatusBaseClass + SuccessColour != StatusBaseClass + FailureColour
  {
  }

  /**
   The status paragraph for `status`; `None` when the paragraph is not
   rendered. A shown paragraph carries the status verbatim and is green exactly
   when the text contains "successfully".
   */
  function StatusLine(status: string): (r: Option<Paragraph>)
    ensures r.Some? <==> status != ""
    ensures r.Some? ==> r.value.text == status
    ensures r.Some? ==>
      (r.value.className == StatusBaseClass + SuccessColour <==> Includes(status, "successfully"))
    ensures r.Some? ==>
      (r.value.className == StatusBaseClass + FailureColour <==> !Includes(status, "successfully"))
  {
    StatusColoursDiffer();
    if status == "" then None
    else
      var colour := if Includes(status, "successfully") then SuccessColour else FailureColour;
      Some(Paragraph(StatusBaseClass + colour, status))
  }

  /** The paragraph each status value produces: none while idle, red while submitting and on failure, green on success. */
  lemma StatusLineOfEachState()
    ensures StatusLine(IdleText) == None
    ensures StatusLine(SubmittingText) == Some(Paragraph(StatusBaseClass + FailureColour, SubmittingText))
    ensures StatusLine(SuccessText) == Some(Paragraph(StatusBaseClass + SuccessColour, SuccessText))
    ensures StatusLine(FailureText) == Some(Paragraph(StatusBaseClass + FailureColour, FailureText))
  {
    OnlySuccessSaysSuccessfully();
  }

  /** Among the values the status cell can hold, the paragraph is green exactly for the success message. */
  lemma GreenExactlyOnSuccess(status: string)
    requires status in StatusTexts
    ensures StatusLine(status).Some? <==> status != IdleText
    ensures StatusLine(status).Some? ==>
      (StatusLine(status).value.className == StatusBaseClass + SuccessColour <==> status == SuccessText)
  {
    StatusLineOfEachState();
    StatusColoursDiffer();
    if status == IdleText {
    } else if status == SubmittingText {
    } else if status == SuccessText {
    } else {
      assert status == FailureText;
    }
  }

  /** Once a submission settles, the paragraph shows its outcome: green when it resolved, red when it threw. */
  lemma SettledStatusShowsOutcome(outcome: Outcome)
    ensures StatusLine(StatusAfter(outcome)) ==
      Some(Paragraph(StatusBaseClass + (if outcome == Resolved then SuccessColour else FailureColour), StatusAfter(outcome)))
  {
    StatusLineOfEachState();
  }
}
