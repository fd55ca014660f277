/**
 The page component itself: its two state cells (`activeSection`,
 `formStatus`), the three inputs of the contact form, and the handlers that
 update them. The document layout, the scroll offset and the viewport height
 are read from the browser by the page; here they are parameters.
 */
module Portfolio {
  import opened SectionTracker
  import opened ContactForm
  import opened PageView

  class App {
    /** The id of the highlighted section. */
    var activeSection: string
    /** The text of the status line under the contact form. */
    var formStatus: string
    /** The current values of the contact form's three inputs. */
    var name: string
    var email: string
    var message: string

    /** Every reachable state: a section id is active and the status is one of its four texts. */
    ghost predicate Valid()
      reads this
    {
      activeSection in SectionIds && formStatus in StatusTexts
    }

    /** The first render: `home` is active, no status, empty inputs. */
    constructor ()
      ensures Valid()
      ensures activeSection == InitialSection && formStatus == IdleText
      ensures name == "" && email == "" && message == ""
    {
      activeSection := InitialSection;
      formStatus := IdleText;
      name, email, message := "", "", "";
    }

    /** One evaluation of the scroll listener. */
    method HandleScroll(layout: Layout, scrollY: real, innerHeight: int)
      requires Valid()
      modifies this`activeSection
      ensures Valid()
      ensures activeSection == NextActive(layout, Probe(scrollY, innerHeight), old(activeSection))
    {
      var probe := scrollY + innerHeight as real / 2.0;
      for i := 0 to |SectionIds|
        invariant activeSection == old(activeSection)
        invariant forall j :: 0 <= j < i ==> !Hit(layout, SectionIds[j], probe)
      {
        var id := SectionIds[i];
        if id in layout {
          var section := layout[id];
          if probe >= section.top as real && probe < (section.top + section.height) as real {
            activeSection := id;
            break;
          }
        }
      }
    }

    /**
     A navigation click: when the section is rendered, `scrollIntoView` is
     asked to bring its top to the top of the viewport, and `target` is that
     scroll offset; otherwise nothing happens. Nothing of the page's state
     changes here.
     */
    method ScrollToSection(layout: Layout, id: string) returns (target: Option<int>)
      ensures target.Some? <==> id in layout
      ensures target.Some? ==> target.value == layout[id].top
    {
      if id in layout {
        var section := layout[id];
        target := Some(section.top);
      } else {
        target := None;
      }
    }

    /** The synchronous part of the submit handler, up to the awaited delay. */
    method BeginSubmit()
      requires Valid()
      modifies this`formStatus
      ensures Valid()
      ensures formStatus == SubmittingText
    {
      formStatus := SubmittingText;
    }

    /** The part of the submit handler after the awaited delay settles. */
    method FinishSubmit(outcome: Outcome)
      requires Valid()
      modifies this`formStatus, this`name, this`email, this`message
      ensures Valid()
      ensures formStatus == StatusAfter(outcome)
      ensures outcome == Resolved ==> name == "" && email == "" && message == ""
      ensures outcome == Rejected ==>
        name == old(name) && email == old(email) && message == old(message)
    {
      match outcome {
        case Resolved =>
          formStatus := SuccessText;
          name, email, message := "", "", "";
        case Rejected =>
          formStatus := FailureText;
      }
    }

    /** A whole submission whose delay is not interleaved with another submission. */
    method HandleSubmit(outcome: Outcome)
      requires Valid()
      modifies this`formStatus, this`name, this`email, this`message
      ensures Valid()
      ensures formStatus == StatusAfter(outcome)
      ensures outcome == Resolved ==> name == "" && email == "" && message == ""
      ensures outcome == Rejected ==>
        name == old(name) && email == old(email) && message == old(message)
    {
      BeginSubmit();
      FinishSubmit(outcome);
    }
  }

  /**
   After a navigation click on a rendered section whose height exceeds half the
   viewport, and once the scroll has settled at its top, the next scroll
   evaluation highlights it, provided no earlier section also holds the probe.
   */
  lemma SettledNavigationHighlights(layout: Layout, k: nat, innerHeight: int, current: string)
    requires k < |SectionIds| && SectionIds[k] in layout
    requires innerHeight >= 0 && 2 * layout[SectionIds[k]].height > innerHeight
    requires forall j :: 0 <= j < k ==>
      !Hit(layout, SectionIds[j], Probe(layout[SectionIds[k]].top as real, innerHeight))
    ensures NextActive(layout, Probe(layout[SectionIds[k]].top as real, innerHeight), current) == SectionIds[k]
  {
  }

  /**
   A section no taller than half the viewport is not highlighted by scrolling
   to its top: the probe lies at or below its bottom edge.
   */
  lemma ShortSectionNotHighlighted(layout: Layout, id: string, innerHeight: int, current: string)
    requires id in layout && id != current
    requires 2 * layout[id].height <= innerHeight
    ensures NextActive(layout, Probe(layout[id].top as real, innerHeight), current) != id
  {
  }

  /** The scenario of a visitor who sends a message and the delay resolves. */
  method SubmitScenario()
  {
    var app := new App();
    app.name, app.email, app.message := "Jane Doe", "jane@example.com", "Hello";
    app.BeginSubmit();
    assert StatusLine(app.formStatus).Some? by { StatusLineOfEachState(); }
    app.FinishSubmit(Resolved);
    assert app.name == "" && app.email == "" && app.message == "";
    SettledStatusShowsOutcome(Resolved);
    assert StatusLine(app.formStatus).value.className == StatusBaseClass + SuccessColour;
  }
}
