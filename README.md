# A verified model of the atozpackers page script

`app.js` drives a single-page removal-company website. Under its DOM wiring sits a small
state coordinator. This project models that coordinator in Dafny and proves properties of the
model. It covers:

- the `app` object: the current page, the testimonial index, the modal flag and the autoplay
  interval handle;
- the `active` classes the script puts on pages, navigation links, testimonial slides and FAQ
  items, kept as sequences of booleans;
- the form validator (`isValidEmail`, `isValidPhone`, `validateForm`) and the two phases of
  `handleFormSubmission`;
- the phone auto-formatter that `enhanceFormUX` attaches to every `tel` input.

Modules, one per component:

| module | file | what it holds |
|---|---|---|
| `Text` | text.dfy | JavaScript whitespace (`\s` and `trim` share one set), `trim`, `replace(/[^…]/g, '')` as a filter, clamped `substring` |
| `Validation` | validation.dfy | the e-mail and phone checks, written by hand and proved equal to the regular expressions; the per-field verdict and the mark it leaves |
| `PhoneFormat` | phone_format.dfy | the formatter as written, what it computes, and the layout its comment asks for |
| `Carousel` | carousel.dfy | the testimonial index arithmetic |
| `Router` | router.dfy | fragment and link target to page id |
| `Faq` | faq.dfy | the accordion toggle |
| `Forms` | forms.dfy | class `Form`: values, validation marks, consent group, submit button, pending completions |
| `Site` | site.dfy | class `App`: the `app` object, the active flags, one method per event |

Each event handler is a method of `App` or `Form`. Its `ensures` clauses give the whole new
state in terms of the old one and of the pure functions in the other modules; the properties
are proved as lemmas about those functions. The timers become explicit methods:

- `App.AutoplayTick(h)` is one firing of a live interval;
- `App.CompleteSubmission(form)` is the 2000 ms callback of a submission.

Some behaviours of the code look unintended or differ from what its names suggest. The model keeps them as written:

- `isValidPhone` requires the `+44` or `0` prefix; it is not optional.
- `showPage` with an id that names no element is not ignored: every page has already lost
  `active`, so no page is shown. Only `currentPage`, the fragment, the navigation links and
  autoplay stay as they were.
- Autoplay is not always armed: `showPage` stops it on every page other than `home`. Its
  page check on each tick therefore never fails (`Site.App.AutoplayTick`).
- `removeValidationClasses` clears only `.form-control` elements. The consent `.form-group`
  keeps its `error` class after completion, although its message goes. `validateForm` never
  clears that class while the box is ticked, either.

## Model

| member | source | states |
|---|---|---|
| Text.TrimEnd | app.js:201 | the result is a prefix of the input, ends in a non-space character or is empty, and everything removed is whitespace |
| Text.TrimStart | app.js:201 | the result is a suffix of the input, starts with a non-space character or is empty, and everything removed is whitespace |
| Text.Trim | app.js:201 | `String.prototype.trim`: `TrimStart` of `TrimEnd`, so the contracts of both apply; the lemmas below give its behaviour |
| Text.TrimEmptyIffAllSpace | app.js:201 | `!value.trim()` holds exactly when every character of the value is whitespace |
| Text.TrimNoEdgeSpace | app.js:698 | `trim` leaves alone a string that neither starts nor ends with whitespace |
| Text.TrimDropsTrailingSpace | app.js:698 | a trailing whitespace character makes no difference to `trim` |
| Text.Filter | app.js:278 | `replace(/[^class]/g, '')` keeps only characters of the class, and never lengthens the string |
| Text.RemoveSpaces | app.js:278 | `replace(/\s/g, '')`: `Filter` with the ECMAScript whitespace test, so only non-whitespace characters remain, in order |
| Text.DigitsOf | app.js:683 | `replace(/\D/g, '')`: `Filter` with `[0-9]`, so only the digits remain, in order |
| Text.FilterConcat | app.js:278 | removing characters distributes over concatenation |
| Text.FilterKeepsAll | app.js:683 | a string made only of kept characters comes back unchanged |
| Text.FilterDropsAll | app.js:278 | a string with no kept character comes back empty |
| Text.Substring | app.js:694 | `substring(a, b)` clamps both ends to the length: its length and characters |
| Text.IndexOf | app.js:271 | the index of the first occurrence, or the length when there is none; it also serves the page lookup |
| Validation.IsValidEmail | app.js:270-273 | the hand-written e-mail check: no whitespace, a first `@` with something before it, no second `@`, and a dot strictly inside the domain; `EmailCheckMatchesPattern` proves it equal to the regular expression |
| Validation.EmailCheckSound | app.js:270-273 | every value the hand-written e-mail check accepts splits as `^[^\s@]+@[^\s@]+\.[^\s@]+$` reads it |
| Validation.EmailCheckComplete | app.js:270-273 | every value that splits that way passes the hand-written check |
| Validation.EmailCheckMatchesPattern | app.js:270-273 | the hand-written check accepts exactly the values the regular expression matches |
| Validation.EmailExampleAccepted | app.js:270-273 | `user@example.com` is accepted |
| Validation.EmailExampleRejected | app.js:270-273 | `user@` is rejected |
| Validation.IsValidPhone | app.js:276-279 | the hand-written phone check on the whitespace-free value: `+44` or else `0`, then 9 to 13 digits, whitespace or hyphens; `PhoneCheckMatchesPattern` proves it equal to the regular expression |
| Validation.PhoneCheckMatchesPattern | app.js:276-279 | the hand-written phone check accepts exactly the values whose whitespace-free form matches `^(\+44\|0)[0-9\s-]{9,13}$` |
| Validation.PhoneIgnoresWhitespace | app.js:278 | inserting a whitespace character anywhere does not change the phone verdict |
| Validation.NationalNumberAccepted | app.js:276-279 | `0` followed by 9 to 13 digits is accepted |
| Validation.ShortValueRejected | app.js:276-279 | fewer than ten non-whitespace characters is rejected |
| Validation.PhoneExamples | app.js:276-279 | `07123456789` is accepted and `123` is rejected |
| Validation.Blank | app.js:201 | `!field.value.trim()`; `TrimEmptyIffAllSpace` shows it holds exactly on all-whitespace values |
| Validation.Check | app.js:200-215 | a required field is `Missing` exactly when its value is all whitespace, so empty values never reach the shape checks; an e-mail or phone verdict only on a field of that type; `Valid` exactly when the field is accepted |
| Validation.MarkFor | app.js:202-212 | every failing verdict leaves an error mark with a non-empty message, and only a valid field is marked `success` |
| PhoneFormat.Normalize | app.js:684-688 | a leading `44` or else `0` becomes `+44 `; any other digit string is kept (`NormalizePrefixed`, `UnprefixedUnchanged`) |
| PhoneFormat.Regroup | app.js:694 | `'+44 '` and the clamped substrings 0-4, 4-7 and 7-10 of `numbers`, joined by single spaces |
| PhoneFormat.Layout | app.js:691-698 | a value starting `+44` whose rest is longer than four characters is regrouped, and every value is trimmed; `LayoutOfPrefixed` gives the result after `+44 ` |
| PhoneFormat.FormatPhone | app.js:682-698 | digits only, then `Normalize`, then `Layout`; `FormatPhoneAsWritten` gives its closed form and `FormatPhoneIdempotent` its fixed point |
| PhoneFormat.FormatPhoneAsWritten | app.js:683-698 | digit strings without a `44` or `0` prefix come back unchanged; others become `AsWrittenLayout` of the digits after the prefix |
| PhoneFormat.LayoutOfPrefixed | app.js:691-698 | after `+44 `, the cut at index 3 yields a double space and groups of 3, 3 and 3 digits |
| PhoneFormat.DigitsOfFormatted | app.js:683-698 | the output's digits are `44` and at most nine subscriber digits, or the input's digits unchanged when there is no prefix |
| PhoneFormat.FilterAsWrittenLayout | app.js:694 | filtering the layout keeps the filtered `+44` and the first nine subscriber digits |
| PhoneFormat.DigitsOfAsWrittenLayout | app.js:694 | the layout's digits are `44` followed by at most nine subscriber digits |
| PhoneFormat.SpacesOfAsWrittenLayout | app.js:694 | without its spaces the layout is `+44` followed by at most nine subscriber digits |
| PhoneFormat.AsWrittenLayoutTakesNine | app.js:694 | the layout only depends on the first nine subscriber digits |
| PhoneFormat.FormatPhoneIdempotent | app.js:682-699 | formatting the formatter's own output changes nothing, as the handler runs on every input event |
| PhoneFormat.UnprefixedDigitsRejected | app.js:276-279 | a digit string with neither prefix never passes `isValidPhone` |
| PhoneFormat.AsWrittenLayoutValid | app.js:276-279 | the layout passes `isValidPhone` exactly when there are at least nine subscriber digits |
| PhoneFormat.FormattedIsValidPhone | app.js:682-699 | the output passes `isValidPhone` exactly when the digits had a prefix and at least nine digits after it |
| PhoneFormat.NationalNumberLosesLastDigit | app.js:692-694 | a `0` and ten digits come out as `+44  ` and three groups of three; the tenth digit is lost |
| PhoneFormat.MobileNumberLosesLastDigit | app.js:692-694 | `07123456789` comes out as `+44  712 345 678` |
| PhoneFormat.IntendedLayoutOfPrefixed | app.js:690 | with the cut after `+44 `, the groups are 4, 3 and 3 subscriber digits |
| PhoneFormat.FormatPhoneIntendedResult | app.js:690 | the intended formatter's output, case by case |
| PhoneFormat.IntendedKeepsTenDigits | app.js:690 | the intended formatter keeps every digit of a subscriber number of up to ten digits, and lays ten digits out as `+44 XXXX XXX XXX` |
| PhoneFormat.DigitsOfIntendedGroups | app.js:690 | the intended layout's digits are `44` and at most ten subscriber digits |
| PhoneFormat.IntendedGroupsTake | app.js:690 | the intended layout depends only on the first ten subscriber digits |
| PhoneFormat.FormatPhoneIntendedIdempotent | app.js:690 | the intended formatter is also a fixed point on its own output |
| PhoneFormat.MobileNumberKeptByIntendedLayout | app.js:690 | the intended formatter writes `07123456789` as `+44 7123 456 789` with all its digits |
| Carousel.NextIndex | app.js:322 | the next index stays below the slide count, is one more except after the last slide, and is 0 after it |
| Carousel.PrevIndex | app.js:337 | the previous index stays below the slide count, is one less except at the first slide, and is the last slide there |
| Carousel.PrevUndoesNext | app.js:315-343 | a step back undoes a step forward, and a step forward undoes a step back |
| Carousel.AdvanceWithinRange | app.js:322 | before the end is reached, `k` steps from slide `i` land on `i + k` |
| Carousel.AdvanceCompose | app.js:322 | `a + b` steps are `a` steps followed by `b` steps |
| Carousel.FullCycle | app.js:322 | as many steps as there are slides lead back to the same slide |
| Carousel.AdvancePeriodic | app.js:322 | stepping is periodic in the number of slides |
| Carousel.RetreatUndoesAdvance | app.js:322-337 | `k` steps back undo `k` steps forward |
| Carousel.RetreatAfterNext | app.js:322-337 | `k + 1` steps back from the slide after `j` are `k` steps back from `j` |
| Router.LinkTarget | app.js:43 | `substring(1)` drops the first character, and an empty string stays empty |
| Router.PageFromHash | app.js:43-48 | the resolved page is always one of home, services, about or contact; it is the fragment's target when that is a known page, and `home` otherwise |
| Router.HashRoundTrip | app.js:43-48 | the fragment `#p` that `showPage` pushes resolves back to `p` |
| Router.UnknownHashShowsHome | app.js:44-47 | a fragment naming no known page, the empty one included, resolves to `home` |
| Router.ResolveTwice | app.js:559-566 | resolving the fragment of a resolved page gives the same page |
| Faq.Toggled | app.js:374-386 | the clicked item flips, every other item is closed, and at most one item is open |
| Faq.ToggleTwice | app.js:374-386 | clicking the same question twice restores the accordion exactly when no other item was open |
| Faq.ToggleOpenClosesAll | app.js:383 | clicking the open item closes every item |
| Faq.ToggleClosedOpensIt | app.js:383-385 | clicking a closed item leaves only that item open |
| Forms.MarksAfter | app.js:200-216 | after validation each required field carries the mark of its verdict and the other fields keep theirs |
| Forms.FailuresMarkedAsErrors | app.js:200-216 | a required field ends with an error mark exactly when it is not accepted, and with `success` when it is |
| Forms.NoRequiredErrorUpToAll | app.js:197-216 | the running `isValid` flag, read off the marks, means that no required field so far carries an error mark |
| Forms.NoRequiredErrorMeansAccepted | app.js:197-216 | no required field ending with an error mark is the same as every required field being accepted |
| Forms.CheckField | app.js:201-214 | one iteration of the loop: the mark is the verdict's mark, and the field counts as accepted exactly when it is accepted |
| Forms.CheckStep | app.js:200-215 | one pass of the `forEach`: a required field takes the mark validation gives it and the flag drops on an error; any other field is left alone |
| Forms.CheckRequired | app.js:197-216 | the loop over the required fields: the marks it leaves, and true exactly when every required field is accepted |
| Forms.Form.Validate | app.js:196-226 | true exactly when every required field is accepted and a present consent box is ticked; the new marks; an unticked box marks its group with an error |
| Forms.Form.Submit | app.js:156-172 | without a submit button nothing happens; a rejected form leaves the button and the pending completions alone; an accepted one disables the button, marks it loading and schedules one completion |
| Forms.Form.Reset | app.js:176 | values and the consent box return to their initial state |
| Forms.Form.ClearValidation | app.js:259-267 | every control is unmarked and every error message goes; the consent group keeps its class |
| Forms.Form.Complete | app.js:174-181 | the form is reset and unmarked, the button re-enabled, and one pending completion is used up |
| Forms.Form.SetValue | app.js:201 | the user's edit changes the value of that control only |
| Forms.Form.SetConsent | app.js:220 | the user ticks or unticks the consent box, which `validateForm` reads |
| Forms.Form.constructor | app.js:137-153 | a fresh form holds its initial values, no marks and an enabled button |
| Site.App.constructor | app.js:29-49 | after start-up: the carousel shows slide 0, the page the fragment names is shown, the body is not scroll-locked and no modal is open, and autoplay runs exactly when that page is home, or when no such element exists and there are slides |
| Site.App.InitializeTestimonials | app.js:282-313 | with slides, only the first is shown, the index is 0 and autoplay starts; without slides nothing changes |
| Site.App.ShowPage | app.js:90-124 | every page loses `active`; an existing id becomes the current page, is pushed as `#id`, makes its nav link the only active one, and starts autoplay on home or stops it elsewhere; an unknown id changes nothing else (all of it is the twostate predicate `PageShown(id)`) |
| Site.App.ActivatePage | app.js:97-122 | once every page is inactive, the page with that id alone becomes active and current, is pushed as `#id`, makes its nav link the only active one, and autoplay starts on home and stops elsewhere |
| Site.Deactivated | app.js:92-94 | the `forEach` that removes `active` from every page leaves every flag false and the same number of flags |
| Site.App.IndexOfPage | app.js:97 | the position of the page with that id, or the page count when no page has it |
| Site.App.UpdateActiveNavLink | app.js:127-134 | exactly the links whose `href` is `#id` are active |
| Site.App.FollowLink | app.js:54-62 | the navigation and footer listener leaves the state `PageShown` gives for the page its `href` names (pages, current page, history, nav links and autoplay); a bare `#` names no element, so every page is left inactive and the current page stays |
| Site.App.ShowContact | app.js:449-456 | the `#contact` listener leaves the state `PageShown("contact")` gives: when the element exists it is the only active page, `#contact` is pushed once, only `#contact` links are active and autoplay is stopped |
| Site.App.ClickLink | app.js:52-62 | a click on a navigation or footer link runs its listeners in order: any other link leaves the state `PageShown` gives for the page it names; a `#contact` link, when the element exists, makes contact the only active page and the `#contact` links the only active links, pushes `#contact` twice and stops autoplay without taking a new timer id |
| Site.App.PopState | app.js:559-566 | back and forward leave the state `PageShown` gives for the page the fragment names, or home |
| Site.App.ShowNextTestimonial | app.js:315-328 | without slides nothing happens; otherwise the index becomes `NextIndex` and only that slide is shown |
| Site.App.ShowPreviousTestimonial | app.js:330-343 | without slides nothing happens; otherwise the index becomes `PrevIndex` and only that slide is shown |
| Site.App.StartAutoplay | app.js:345-353 | any running interval is cleared before a fresh one is armed, so exactly one interval is live |
| Site.App.StopAutoplay | app.js:355-360 | no interval is live and the handle is null afterwards; with none running nothing changes |
| Site.App.AutoplayTick | app.js:348-352 | a tick advances the carousel only on the home page; since autoplay runs only there, a live interval always advances it |
| Site.App.ToggleFaqItem | app.js:374-386 | the accordion becomes `Faq.Toggled` of its old state, so at most one item is open |
| Site.App.ShowModal | app.js:411-417 | with a modal present it is shown, flagged open and scrolling is locked; without one nothing changes |
| Site.App.HideModal | app.js:419-425 | with a modal present it is hidden, flagged closed and scrolling is restored; without one nothing changes |
| Site.App.KeyDown | app.js:404-408 | Escape closes an open modal; any other key, or Escape with the modal closed, changes nothing |
| Site.App.CompleteSubmission | app.js:174-192 | the form is reset, unmarked and its button re-enabled, and its consent-group error is left as it was; the success modal opens when there is one, and without one the modal and scroll-lock state are unchanged |

## Left out

- DOM querying and manipulation are abstracted to boolean `active` flags and validation marks. So are the creation and removal of error-message spans.
- `history.pushState` and `body.style.overflow` are ghost fields (`history`, `bodyScrollLocked`). `scrollTo`, `scrollIntoView` and `focus` are not modelled: they change no script state.
- Timer durations (600, 2000, 5000 and 300 ms) are not modelled. A firing is a method call (`AutoplayTick`, `CompleteSubmission`). The 600 ms `fade-in-up` class is not modelled.
- `debounce`, `throttle`, `trackEvent`, `gtag`/`fbq` and the phone/WhatsApp click tracking are not modelled: they are closures over timers or calls to foreign globals.
- A service call-to-action click (`initializeServiceCtas`) is `ShowContact`; its 300 ms scroll to the form and its `trackEvent` call are not modelled.
- The form data snapshot for analytics is not modelled, because it only feeds `trackEvent`.
- IntersectionObserver animations, lazy loading, the resize handler, the service worker and the error listeners are out of scope. They are browser peripherals, and the resize handler uses floating point.
- The sticky header is out of scope: it is scroll-position plumbing and CSS transforms.
- The mobile menu toggle and click-outside close are not modelled. On a nav link click only the `showPage` part is (`FollowLink`).
- The scrolling part of smooth-scroll wiring (`scrollIntoView` for other internal links), the skip link and keyboard shortcuts (including arrow keys on the carousel) are not modelled; they are UI wiring outside the core. The `a[href="#contact"]` listener of `initializeSmoothScroll` is modelled (`ShowContact`, and through `ClickLink` for navigation and footer links).
- The `blur` and `input` listeners of `enhanceFormUX` (inline validation and error clearing) are not modelled. `Form.SetValue` takes the value a control holds once its input handlers have run.
- The `input` listener that writes the formatter's result back into a `tel` field is not modelled. The formatter is modelled as the function `FormatPhone`.
- Forms.Form.ClearValidation: every control is assumed to carry the `form-control` class, which `removeValidationClasses` selects.
- Forms.Form.Validate: each control's parent is assumed to hold only that control's error message. `showFieldError` removes the first `.error-message` under `parentNode`; for the consent group that is the group's parent, which may also hold other groups. Then the first failing field can lose its message, and consent messages can pile up on later submits. The model keeps every error message and one consent-message flag.
- Forms.Form.Validate: a consent checkbox that also carries `required` is not treated as a control.
- Site.App.ShowPage: the `active` class on an element that is not a `.page` section is not modelled.
- Site.App.ShowPage: page ids are assumed unique, as `getElementById` needs. Element ids in general are a set.
- Site.App.ToggleFaqItem: an FAQ item without a `.faq-question` has no listener; the model lets every item be toggled.
- Site.App.constructor: the classes the markup gives testimonial slides before start-up are not modelled; with slides, start-up replaces them.

## Findings

| source | as written | input that shows it | evidently intended | confidence | as-written member | corrected member |
|---|---|---|---|---|---|---|
| app.js:690-694 | `numbers = value.substring(3)` cuts `+44 ` after the `+44`, so `numbers` starts with the prefix's space. The groups become a double space, then 3, 3 and 3 digits, and the tenth subscriber digit is dropped. | `07123456789` becomes `+44  712 345 678` | `+44 7123 456 789`, as the comment `Format as +44 XXXX XXX XXX` says: cut after `+44 ` (`substring(4)`) | not executed; high | PhoneFormat.NationalNumberLosesLastDigit | PhoneFormat.IntendedKeepsTenDigits |
