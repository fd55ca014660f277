# Portfolio page: section tracker and contact form

This project models the interactive logic of a single-page React portfolio
(`src/App.js`). The page keeps two state cells. `activeSection` names the
navigation entry to highlight. `formStatus` is the text of the status line
under the contact form. Four pieces of logic drive them:

- **Section tracker.** On every scroll the page probes the point
  `scrollY + innerHeight / 2`. It then scans the six sections `home, about,
  experience, skills, projects, contact` in that order and skips any id that
  has no element. The first section whose half-open extent
  `[offsetTop, offsetTop + offsetHeight)` holds the probe becomes active.
  If none holds it, the active section stays as it was.
- **Navigation.** A navigation click scrolls a rendered section into view.
  For an id with no element it does nothing. It never sets the active
  section itself.
- **Contact form.** A submission sets the status to `Submitting...` and then
  awaits a delay. When the delay resolves, the status becomes the success
  message and the form is cleared. When it throws, the status becomes the
  failure message and the inputs keep their values.
- **View.** Exactly the button of the active section gets the highlight
  classes. The status paragraph is rendered only for a non-empty status. It is
  green when the text contains `successfully` and red otherwise.

The modules:

- `SectionTracker` (tracker.dfy): the document layout as a map from element
  id to `(offsetTop, offsetHeight)`. A missing key means the element is not
  rendered. It also holds the probe, the containment test, the pure
  first-match search `FirstMatch` and the resulting `NextActive`, with lemmas
  on first-match, tie-breaking, absent sections and the unchanged case.
- `ContactForm` (contact_form.dfy): the three status texts, the outcome of
  the awaited delay (`Resolved` or `Rejected`), and `Includes`, the
  substring test the page uses for the colour. `Includes` is proved equal to
  "some index starts an occurrence".
- `PageView` (page_view.dfy): the nav-button class strings and the status
  paragraph, as functions of the two state cells.
- `Portfolio` (app.dfy): the page as a class `App` whose fields are the two
  state cells and the three form inputs. Its methods are the scroll handler
  (a `for` loop with `break`, proved equal to `NextActive`), the navigation
  handler, and the submit handler, split at its `await`. The invariant
  `Valid()` says the active section is one of the six ids and the status is one
  of its four texts. The constructor establishes it and every method keeps it,
  so it holds in every reachable state. `SubmitScenario` is a client that
  sends a message whose delay resolves.

Inputs from the browser are parameters: the layout, `scrollY` (a `real`),
`innerHeight` (an `int`) and the outcome of the delay. `offsetTop` and
`offsetHeight` are whole pixels, so they are `int`. The probe divides
`innerHeight` by two exactly, as JavaScript's `/` does, so it is a `real`.

The two long status messages are each written in the Dafny source as two
string literals joined by `+`. The resulting strings are exactly those of
the page.

A navigation click is sometimes taken to highlight the clicked section once
the scroll settles. The code does not guarantee this, and the model follows
the code. `SettledNavigationHighlights` proves the highlight under its
conditions: the section is taller than half the viewport and no earlier
section holds the probe. `ShortSectionNotHighlighted` shows that a section no
taller than half the viewport is not highlighted by scrolling to its top.
Likewise, nothing in the code stops a second submission while one is pending,
so the model has no such guard. `BeginSubmit` and `FinishSubmit` may
interleave freely.

## Model

| member | source | states |
|---|---|---|
| SectionTracker.Probe | src/App.js:10 | For a non-negative viewport height, the probe lies within the viewport, between `scrollY` and `scrollY + innerHeight`. |
| SectionTracker.Contains | src/App.js:15 | A section whose extent holds a probe has positive height, so an empty section never matches. |
| SectionTracker.FirstMatch | src/App.js:12-20 | The result is the lowest index whose id is rendered and whose extent holds the probe, with no earlier id doing so. `None` means no id in the list is rendered with an extent holding the probe. |
| SectionTracker.NextActive | src/App.js:12-20 | The section after a scroll is either the previous one or a section id whose rendered extent holds the probe. |
| SectionTracker.FirstMatchIsLowest | src/App.js:12-17 | The search picks index k if and only if k holds the probe and no earlier index does. |
| SectionTracker.NextActiveIsFirstHit | src/App.js:9-17 | A scroll activates the lowest-indexed section, in the order home to contact, that holds the probe. |
| SectionTracker.EarlierSectionWins | src/App.js:12-17 | When two sections both hold the probe, the later one is not the result, whatever section was active before (even the later one itself), because the loop breaks at the first match. |
| SectionTracker.AbsentSectionSkipped | src/App.js:13-14 | An id without an element never becomes active through a scroll. |
| SectionTracker.NoHitKeepsActive | src/App.js:12-20 | When no rendered section holds the probe, the active section is unchanged. |
| SectionTracker.HalfOpenExtent | src/App.js:15 | Containment is half-open: a probe at `offsetTop` is inside a non-empty section and a probe at `offsetTop + offsetHeight` is not. |
| SectionTracker.NextActiveStaysInSections | src/App.js:9-16 | Starting from a section id, a scroll only ever yields a section id. |
| SectionTracker.SectionIdsDistinct | src/App.js:9 | The six section ids are pairwise distinct. |
| ContactForm.StatusAfter | src/App.js:49-53 | A settled submission leaves one of the status texts, neither the empty status nor `Submitting...`. |
| ContactForm.Includes | src/App.js:331 | `includes` holds exactly when some index of the text starts an occurrence of the searched string. |
| ContactForm.OnlySuccessSaysSuccessfully | src/App.js:331 | Of the four status texts, only the success message contains `successfully`. |
| PageView.NavButtonClass | src/App.js:75-77 | Every button keeps the base classes, and it carries extra classes exactly when its section is the active one. |
| PageView.NavBar | src/App.js:71-81 | The navigation bar has one button per section id. |
| PageView.HighlightedIffActive | src/App.js:76 | A nav button carries the highlight classes exactly when its section is the active one. |
| PageView.ExactlyOneHighlighted | src/App.js:71-76 | While the active section is one of the six ids, exactly one button is highlighted: the button of that section. |
| PageView.OneButtonPerReachableState | src/App.js:71-76 | Whenever the active section is one of the six ids, which `App.Valid` guarantees in every reachable state, exactly one nav button is highlighted. |
| PageView.NoneHighlightedOutsideSections | src/App.js:71-76 | An active value outside the six ids highlights no button. |
| PageView.StatusLine | src/App.js:330-334 | The paragraph is rendered exactly when the status is non-empty, shows the status verbatim, and is green exactly when the text contains `successfully`, red otherwise. |
| PageView.StatusLineOfEachState | src/App.js:330-331 | The idle status renders no paragraph. `Submitting...` and the failure message render red. The success message renders green. |
| PageView.GreenExactlyOnSuccess | src/App.js:330-331 | For every value the status cell can hold, the paragraph is shown exactly when the status is non-empty, and it is green exactly for the success message. |
| PageView.SettledStatusShowsOutcome | src/App.js:46-54 | After the delay settles, the paragraph shows the message in green when the delay resolved and in red when it threw. |
| Portfolio.App.constructor | src/App.js:4-5 | The page starts with `home` active, an empty status and empty inputs, and the invariant holds. |
| Portfolio.App.HandleScroll | src/App.js:8-21 | The new active section is `NextActive` of the probe `scrollY + innerHeight / 2` and the old active section, and the invariant is kept. Only `activeSection` may change. |
| Portfolio.App.ScrollToSection | src/App.js:27-32 | `scrollIntoView` is asked for exactly when the id has an element, and its target is the section's top. No state changes. |
| Portfolio.App.BeginSubmit | src/App.js:35-37 | Before the await, the status becomes `Submitting...`. Only the status may change. |
| Portfolio.App.FinishSubmit | src/App.js:43-54 | When the delay resolves, the status becomes the success message and all three inputs are cleared. When it throws, the status becomes the failure message and the inputs are unchanged. |
| Portfolio.App.HandleSubmit | src/App.js:35-55 | Composes `BeginSubmit` and `FinishSubmit`: a submission not interleaved with another ends in the state `FinishSubmit` gives, and the invariant is kept. |
| Portfolio.SettledNavigationHighlights | src/App.js:8-31 | Once the scroll settles at the top of a rendered section taller than half the viewport, the next scroll activates it, unless an earlier section also holds the probe. |
| Portfolio.ShortSectionNotHighlighted | src/App.js:10-15 | A section no taller than half the viewport is not activated by scrolling to its top. |

## Left out

- Registering and removing the scroll listener (`addEventListener` / `removeEventListener`) is browser event plumbing. Each call of `HandleScroll` stands for one scroll event.
- The smooth animation of `scrollIntoView` is a browser behaviour with no statable result.
- Portfolio.App.ScrollToSection: returns the section's top as the scroll target. It does not model the browser clamping the scroll at the end of the document.
- The real 1.5-second `setTimeout` and the async scheduling are not modelled. Only the outcome of the awaited step is kept. Any interleaving of other handlers during the await is left to the caller of `BeginSubmit` and `FinishSubmit`.
- `FormData` / `Object.fromEntries` build data that is only logged, so they are not modelled. `console.log` and `console.error` are output only.
- The native `required` and `type="email"` checks are performed by the browser before the handler runs. The model's submit handler accepts any inputs, as the code's does.
- `event.preventDefault()` suppresses the browser's own form navigation. This is not modelled.
- `form.reset()` is modelled as setting the three inputs to the empty string, which is their default value. The inputs are fields the browser writes. Typing into them is not modelled.
- React renders and batches state updates asynchronously. Each assignment to a state cell is modelled as immediate.
- The static page content (biography, experience, skills, project text), the footer year from `new Date()`, the stylesheet and script tags, the animation CSS and the mobile-menu `alert` are presentation, not logic.
