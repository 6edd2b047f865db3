# Portfolio site navigation and form logic, in Dafny

This project models the sequential logic of a personal portfolio site (a
single-page web application) and proves properties about it. Four parts are
modelled, one Dafny module each:

- `Ruler` (`ruler_navigation.dfy`): the drag-to-navigate ruler. A drag session
  records where it started and how far the pointer moved. On release, a drag
  of more than 150 px moves one page, clamped to pages 0..2. The ruler then
  snaps to that page's fixed offset (250, -300 or -850) and tells the listener.
  Next/previous controls and an external resync complete it.
- `Typewriter` (`typing_effect.dfy`): the typewriter line. Each step shows a
  prefix of the current role, types or deletes one character, cycles through
  five roles and picks the delay before the next step.
- `Contact` (`contact_form.dfy`): the contact form's checks (name, email,
  message), the per-field check run on blur, and the `isSubmitting` flag around
  the simulated submission.
- `Pages` (`page_manager.dfy`): the page manager on the path where no
  animation library is loaded. It covers the navigation guard, the shown
  section and title, the background and blur mask, the About page's detailed
  view flag and the page-change notification.

`Wrappers` (`wrappers.dfy`) holds the `Option` type used for JavaScript's `null`.

Each JavaScript class whose methods update fields in place is a Dafny class with
the fields that carry its state. Its methods state the whole new state, often through a pure
function (`ReleasePage`, `Step`, `ValidateForm`, `BackgroundFor`, `MaskFor`). The
lemmas about those functions carry the properties. A listener callback is
modelled as a log (`notified`) of the page indices it was called with, kept
while the callback slot is set (`hasListener`). Timers become values: the
typewriter's pending `setTimeout` is the delay of the one scheduled step. The
awaited submission is split at its `await` into `HandleSubmit` and
`CompleteSubmission(failed)`; whether the simulated submission throws is a
parameter.

Two behaviours of the ruler's code worth noting:

- On drag release the listener is called even when the page did not change.
- The threshold is strict: a delta of exactly ±150 px does not move the page.

## Model

| member | source | states |
|---|---|---|
| `Ruler.ReleasePage` | scripts/navigation/ruler-navigation.js:122-129 | the released page is a valid page. It is page+1 exactly when the delta is below -150 and the page is not the last. It is page-1 exactly when the delta is above 150 and the page is not the first. Otherwise the page is unchanged |
| `Ruler.ShortDragKeepsPage` | scripts/navigation/ruler-navigation.js:122-129 | a drag of at most 150 px either way, ±150 included, keeps the page |
| `Ruler.ReleaseMonotone` | scripts/navigation/ruler-navigation.js:125-129 | dragging further left never gives an earlier page |
| `Ruler.NextTimes` | scripts/navigation/ruler-navigation.js:135-142 | repeated next-page steps stay within the pages and never go back |
| `Ruler.NextTimesReachesLast` | scripts/navigation/ruler-navigation.js:135-142 | n next-page steps from p end on min(p+n, 2) |
| `Ruler.RulerNavigation.constructor` | scripts/navigation/ruler-navigation.js:11-25 | starts idle on page 0 with snap target 250, no listener, nothing notified, and the page/snap invariant holding. The labels' initial state comes from the markup; the model assumes none active until `Init` |
| `Ruler.RulerNavigation.Init` | scripts/navigation/ruler-navigation.js:28-35 | starts the frame loop and leaves exactly the current page's label active, changing no page or drag state |
| `Ruler.RulerNavigation.HandleDragStart` | scripts/navigation/ruler-navigation.js:103-109 | a drag starts at clientX with a zero delta. Page, snap target and notifications are unchanged |
| `Ruler.RulerNavigation.HandleDragMove` | scripts/navigation/ruler-navigation.js:111-114 | inside a drag the delta becomes clientX - startX; outside one nothing changes |
| `Ruler.RulerNavigation.HandleDragEnd` | scripts/navigation/ruler-navigation.js:116-133 | with no drag, nothing changes and nobody is notified. Otherwise the drag ends and the page becomes ReleasePage(page, delta). The snap target follows the page and the listener is told the page exactly once, even if it did not change |
| `Ruler.RulerNavigation.NavigateNext` | scripts/navigation/ruler-navigation.js:135-142 | moves one page forward and notifies once. On the last page it changes nothing and notifies no one. The snap target always matches the page |
| `Ruler.RulerNavigation.NavigatePrev` | scripts/navigation/ruler-navigation.js:144-150 | moves one page back and notifies once. On the first page it changes nothing and notifies no one |
| `Ruler.RulerNavigation.UpdateLabels` | scripts/navigation/ruler-navigation.js:175-185 | afterwards exactly one label is active: the current page's |
| `Ruler.RulerNavigation.Frame` | scripts/navigation/ruler-navigation.js:155-170 | one frame of the running loop leaves exactly the current page's label active, so the labels catch up with a release or a next/previous step. With the loop stopped the labels are untouched |
| `Ruler.RulerNavigation.UpdateCurrentPage` | scripts/navigation/ruler-navigation.js:187-193 | an index in 0..2 becomes the page, with its snap target and active label. Any other index changes nothing. The listener is never called |
| `Ruler.RulerNavigation.NotifyPageChange` | scripts/navigation/ruler-navigation.js:195-199 | the listener, when set, gets the current page once; nothing else changes |
| `Ruler.RulerNavigation.Destroy` | scripts/navigation/ruler-navigation.js:201-206 | the frame loop is stopped; repeating the call changes nothing more |
| `Typewriter.Substring0` | scripts/effects/typing-effect.js:55-57 | `substring(0, end)` is a prefix of the role, of length end clamped to 0..length |
| `Typewriter.Step` | scripts/effects/typing-effect.js:49-69 | one step shows the prefix of the current role whose length is charIndex before the step, clamped to 0..length, and moves charIndex by one. Deleting down to 0 starts typing the next role (mod 5) with delay 500. Typing past the end starts deleting with delay 1000. Otherwise the delay is 100 while typing and 50 while deleting. The step keeps the role index in 0..4 and charIndex within the role's bounds |
| `Typewriter.ShownGrowsWhileTyping` | scripts/effects/typing-effect.js:57 | while typing inside the role, each step shows the previous text plus the role's next character |
| `Typewriter.ShownShrinksWhileDeleting` | scripts/effects/typing-effect.js:55 | while deleting inside the role, each step shows the previous text minus its last character |
| `Typewriter.Run` | scripts/effects/typing-effect.js:49-71 | any number of successive steps keeps the state within those bounds |
| `Typewriter.TypingPhase` | scripts/effects/typing-effect.js:57-68 | typing k characters from c reaches c+k without switching role or direction |
| `Typewriter.DeletingPhase` | scripts/effects/typing-effect.js:55-65 | deleting k characters from c, leaving at least one, reaches c-k, still deleting |
| `Typewriter.FullCycle` | scripts/effects/typing-effect.js:52-71 | starting to type role r, after 2*(len+1) steps the effect starts typing role (r+1) mod 5 |
| `Typewriter.TypingEffect.constructor` | scripts/effects/typing-effect.js:2-16 | starts at role 0, character 0, typing, not paused, no pending step |
| `Typewriter.TypingEffect.Start` | scripts/effects/typing-effect.js:23-32 | resets to role 0, character 0, typing and unpaused, then takes the first step. Without the element, nothing changes |
| `Typewriter.TypingEffect.Init` | scripts/effects/typing-effect.js:18-21 | starts the effect when its element exists |
| `Typewriter.TypingEffect.Pause` | scripts/effects/typing-effect.js:34-40 | pauses and cancels the pending step, keeping the text and position |
| `Typewriter.TypingEffect.Resume` | scripts/effects/typing-effect.js:42-47 | acts only when paused: it unpauses and takes one step |
| `Typewriter.TypingEffect.Type` | scripts/effects/typing-effect.js:49-72 | while paused or without the element it has no effect. Otherwise the state, text and pending delay are exactly those of Step |
| `Typewriter.TypingEffect.Destroy` | scripts/effects/typing-effect.js:74-80 | no step is pending and the effect is left paused |
| `Contact.IsWhitespace` | scripts/components/contact-form.js:74 | the ECMAScript white-space and line-terminator set shared by `trim` and `\s`. Each member is a single UTF-16 code unit and is neither '@' nor '.' |
| `Contact.Trim` | scripts/components/contact-form.js:90 | trim is the slice of the input with only white space around it. It starts and ends with non-white space and is empty exactly when the input is all white space |
| `Contact.TrimNoWhitespace` | scripts/components/contact-form.js:90 | a string without white space trims to itself |
| `Contact.TrimIdempotent` | scripts/components/contact-form.js:90 | trimming twice equals trimming once |
| `Contact.MatchesEmailPattern` | scripts/components/contact-form.js:74 | the regular expression ^[^\s@]+@[^\s@]+\.[^\s@]+$ read as a split local@host.tld; a match has at least five characters |
| `Contact.IsEmail` | scripts/components/contact-form.js:74 | the same pattern in plain words: no white space, one '@' with text before it, and a '.' after it with text on both sides; a match has at least five characters |
| `Contact.EmailMatchesPattern` | scripts/components/contact-form.js:74-75 | a string with no white space and exactly one '@' matches ^[^\s@]+@[^\s@]+\.[^\s@]+$ if it also has text before the '@' and a '.' after it with text on both sides |
| `Contact.PatternIsEmail` | scripts/components/contact-form.js:74-75 | a string split as local@host.tld, each part of [^\s@]+, has no white space and exactly one '@'. Its domain has an inner '.' |
| `Contact.EmailPatternIff` | scripts/components/contact-form.js:74-75 | the regular expression and the plain-words reading accept exactly the same strings |
| `Contact.Utf16Length` | scripts/components/contact-form.js:68 | `length` counts UTF-16 code units: between one and two per character |
| `Contact.NameOk` | scripts/components/contact-form.js:68 | the name check: a missing or blank name is refused, and two characters of trimmed text always pass (one astral character counts as two) |
| `Contact.EmailOk` | scripts/components/contact-form.js:74-75 | the form's email check holds exactly when the untrimmed value is present and matches the regular expression |
| `Contact.MessageOk` | scripts/components/contact-form.js:81 | the message check: a missing or blank message is refused, and ten characters of trimmed text always pass |
| `Contact.Report` | scripts/components/contact-form.js:64-87 | one error per failed check and none otherwise, in form order (name, email, message) |
| `Contact.ValidateForm` | scripts/components/contact-form.js:64-87 | the form is valid iff name, email and message all are. Name: present, trimmed length >= 2 in UTF-16 code units. Email: untrimmed value matches the pattern. Message: present, trimmed length >= 10 in UTF-16 code units. Every field is checked, and exactly the invalid fields are reported, once each, in form order |
| `Contact.ValidateField` | scripts/components/contact-form.js:89-119 | a value that trims to nothing is accepted, and so is any unknown field name. A rejection needs a known field with text in it. Lengths are UTF-16 code units |
| `Contact.AstralNameAccepted` | scripts/components/contact-form.js:68-95 | a name of one emoji (U+1F600) has length 2 and passes both the form check and the blur check |
| `Contact.FieldAgreesWithForm` | scripts/components/contact-form.js:89-115 | for a value with text in it, the blur check agrees with the form check for name and message. For email it agrees with the form check applied to the trimmed value |
| `Contact.FormEmailPassesField` | scripts/components/contact-form.js:74-103 | every email the form accepts also passes the blur check |
| `Contact.PaddedEmailDisagrees` | scripts/components/contact-form.js:74-103 | " a@b.c " passes the blur check (trimmed) and fails the form check (untrimmed) |
| `Contact.ContactForm.constructor` | scripts/components/contact-form.js:2-5 | not submitting, nothing in flight, no banners |
| `Contact.ContactForm.HandleSubmit` | scripts/components/contact-form.js:26-41 | while submitting, a submit is ignored. Invalid data is rejected with its errors and never sets isSubmitting. Valid data sets isSubmitting and starts a submission of exactly that data |
| `Contact.ContactForm.CompleteSubmission` | scripts/components/contact-form.js:43-62 | after the awaited submission settles, isSubmitting is false either way. Success shows a success banner and resets the form. Failure shows a failure banner and keeps the entries |
| `Pages.Navigates` | scripts/navigation/page-manager.js:57 | navigation is skipped exactly when the target is current and is not the About page. The About page always re-runs |
| `Pages.MaskFor` | scripts/navigation/page-manager.js:201-214 | the blur mask is none exactly on the About page, and the spotlight everywhere else |
| `Pages.BackgroundFor` | scripts/navigation/page-manager.js:195-199 | a page in the table gets its own background. Any other index leaves the previous background |
| `Pages.BackgroundsDistinct` | scripts/navigation/page-manager.js:28-32 | the three pages have three different backgrounds |
| `Pages.BackgroundIdentifiesPage` | scripts/navigation/page-manager.js:28-32 | for pages in the table, two pages get the same background exactly when they are the same page |
| `Pages.PageManager.constructor` | scripts/navigation/page-manager.js:2-33 | starts on page 0, not in the detailed view, nothing notified. The initial display comes from the page's markup; the model assumes no section or title shown and no background or mask written |
| `Pages.PageManager.Init` | scripts/navigation/page-manager.js:35-38 | on a manager already on page 0 (a new one) it changes nothing and notifies no one. On any other page it navigates home: home section, title and typing line shown, home background, spotlight mask, detailed-view flag unchanged, one notification when a listener is set |
| `Pages.PageManager.NavigateToPage` | scripts/navigation/page-manager.js:56-76 | a skipped navigation changes nothing. Otherwise the index is stored unchecked and exactly its section and title are shown (none for an index outside 0..2). The background and mask follow, the About page leaves the detailed view, and the listener gets the index once |
| `Pages.PageManager.UpdatePageContent` | scripts/navigation/page-manager.js:78-91 | without the animation library the current page is shown at once |
| `Pages.PageManager.ShowCurrentPage` | scripts/navigation/page-manager.js:93-138 | every section, title and the typing line are hidden first. Then only the current page's section and title are shown, with its content, background and mask. An index with no section shows nothing and leaves the background and mask alone |
| `Pages.PageManager.HideAll` | scripts/navigation/page-manager.js:95-104 | every element of the group is hidden |
| `Pages.PageManager.SetPageSpecificContent` | scripts/navigation/page-manager.js:140-170 | home shows the typing line; about leaves the detailed view |
| `Pages.PageManager.UpdateBackground` | scripts/navigation/page-manager.js:195-199 | the background becomes BackgroundFor(current page, previous) |
| `Pages.PageManager.UpdateBlurLayer` | scripts/navigation/page-manager.js:201-214 | the mask becomes MaskFor(current page) |
| `Pages.PageManager.ScrollToAboutDetail` | scripts/navigation/page-manager.js:216-258 | a scroll to the detail is requested exactly on the About page. Without the animation library the state does not change |
| `Pages.PageManager.NotifyPageChanged` | scripts/navigation/page-manager.js:260-264 | the listener, when set, gets the current page once |

## Left out

- The ruler's per-frame interpolation of `currentDeltaX` (ruler-navigation.js:152-173): floating point in an endless animation-frame loop. The model keeps the frame loop's on/off state (`animating`) and, as `Frame`, the label refresh each frame does (ruler-navigation.js:167); frames run only where a caller invokes `Frame`, so between a page change and the next `Frame` the labels show the previous page. `startAnimation`'s re-entry guard is folded into `Init`.
- The ruler's tick construction (`setupRuler`) and event wiring (`setupEventListeners`): DOM construction. The touch, mouse and keyboard handlers only call the modelled methods.
- Missing DOM elements: the model assumes these exist: the ruler's container, ruler and labels; the page manager's sections, titles, typing line (`typingElement`), background and blur layer, and the `aboutDetailContent` and `contentArea` elements that `scrollToAboutDetail` also checks (page-manager.js:217), which `ScrollToAboutDetail` reduces to the page test; and the contact form's submit button. Without that button, `submitButton.textContent` (contact-form.js:43) throws after `isSubmitting` is set (line 41) and outside the `try`, so the flag would stay set and every later submit would be ignored; `CompleteSubmission` does not model that. The typewriter's element and the contact form's awaited submission keep their presence and outcome as explicit values.
- Strings holding an unpaired UTF-16 surrogate: Dafny characters are Unicode scalar values, so such strings cannot be written in the model; every other string is, and `Utf16Length` gives its JavaScript `length`.
- Styling writes (cursor, transitions, colours, opacity, title texts, the submit button's text and `disabled`), field error insertion and removal (`showFieldError`, `clearFieldError`) and the 5-second banner timers. `ValidateForm` returns the errors shown instead of inserting them.
- `simulateSubmission`: its 1.5 s timer and random failure become the `failed` parameter of `CompleteSubmission`.
- Real timers in the typewriter. `start()` does not cancel an already pending timeout, so two timer chains can interleave; the model keeps a single pending step, which `Start` replaces.
- All animation-library paths of the page manager: the fades, `animatePageIn`'s tweens, the About-page scroll reset in `navigateToPage`, and the scroll tween of `scrollToAboutDetail` with its callbacks. Because the model follows the path where the library is absent, `isAboutDetailedView` is never set to true in it.
- The blur cursor effect, the particle canvas, the spotlight handler and loading counter, and the application wiring (scripts/effects/blur-effect.js, scripts.js, script.js, scripts/portfolio.js, scripts/main.js): animation, randomness and bootstrap code. The composed system is not modelled: scripts/portfolio.js:60 replaces the handler set at scripts/portfolio.js:53.
