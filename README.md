# A model of the site script's behaviour

`script.js` is the one script of a company web site. Under its DOM wiring it
holds a small amount of logic with statable behaviour. This project models
that logic in Dafny and proves what the script promises about it:

- **Contact form** (`form.dfy`, `patterns.dfy`, `text.dfy`):
  - the submit-time checks of `validateForm`, which evaluate every field and do
    not stop at the first failure;
  - the per-field checks of `validateInput`;
  - the two regular expressions, written out as character predicates. The
    email predicate is proved equal to the regular expression it replaces;
  - the inline error bookkeeping of `showInputError` and `clearInputError` on a
    form group, which holds its input's `error` class and its `.error-message`
    children;
  - the submit, blur and input handlers.
- **Mobile menu** (`menu.dfy`): one open state mirrored into five attributes
  by `setMenuState`, and the four transitions (toggle, nav-link click, outside
  click, Escape).
- **Scroll-driven controllers**:
  - the header's `scrolled` class behind its single-flight `ticking` flag
    (`header.dfy`, `gate.dfy`);
  - reveal-on-scroll, where the latest frame request wins and nothing
    un-reveals (`reveal.dfy`);
  - the one-shot stats counter and each counter's frame-by-frame climb
    (`stats.dfy`);
  - the back-to-top button behind `throttle` (`backtotop.dfy`, `ratelimit.dfy`);
  - `debounce` (`ratelimit.dfy`);
  - the smooth-scroll destination (`smoothscroll.dfy`).

Browser measurements are plain integer inputs: the scroll offset, element tops
and the viewport height. Timers and animation frames are abstract events. A
frame handle or timer handle is a number the model hands out (1, 2, …), with 0
standing for "undefined". Each controller whose closure the script mutates is
a `class` with those variables as fields. Its methods are specified by pure
functions (`MenuStep`, `RevealFrame`, `MarkErrors`, `CounterTrace`, …), and
the properties are proved about those functions.

The model follows the code on which value each check reads:

- The submit-time phone rule measures the length of the value *as typed*: an
  untrimmed value of at least 8 characters passes.
- The submit-time email rule tests the untrimmed value.
- The blur-time rules test the trimmed value.

Every length the form compares is a JavaScript `length`, which counts UTF-16
code units (`Text.Utf16Length`). A character outside the Basic Multilingual
Plane, an emoji for instance, counts twice.

`ContactForm.EmailSubmitVersusBlur` and `ContactForm.PhoneBlurVersusSubmit`
prove how the two checks relate, each with an input on which they differ.

## Model

| member | source | states |
|---|---|---|
| Text.Trim | script.js:354 | `trim` removes a whitespace prefix and a whitespace suffix; the result is a slice that starts and ends with non-whitespace, and it is empty exactly when the string is all whitespace |
| Text.TrimIdempotent | script.js:354 | trimming a trimmed value changes nothing |
| Text.Utf16Length | script.js:322 | `length` counts UTF-16 code units: exactly one per character when none lies outside the Basic Multilingual Plane, and more than the number of characters otherwise |
| Text.Utf16LengthChar | script.js:322 | one character is one code unit, or two outside the Basic Multilingual Plane |
| Text.Utf16LengthConcat | script.js:322 | the `length` of a concatenation is the sum of the `length`s |
| Patterns.EmailPatternIff | script.js:328-329 | the email regular expression (some `@` and `.` split the string into three non-empty runs without whitespace or `@`) holds exactly when the string has no whitespace, one `@` with something before it, and a `.` in the domain that is neither its first nor its last character |
| Patterns.EmailExamples | script.js:328-329 | `a@b.c` matches; `a@b` and `a b@c.d` do not |
| Patterns.PhonePatternTrim | script.js:368-369 | the phone character class accepts a value exactly when it accepts its trimmed form, unless trimming empties it |
| Patterns.PhonePatternUtf16 | script.js:335-336 | a value the phone pattern accepts has one code unit per character, so its `length` is its number of characters |
| Patterns.PhoneExamples | script.js:335-336 | `+971 50 123 4567` and `--------` pass the pattern and the length bound; `12345` is too short; `12-34-AB` fails the pattern |
| ContactForm.RuleErrors | script.js:319-350 | the four `if`s record exactly the failing rules, each under its field id with its own message, and never `project` |
| ContactForm.FormErrors | script.js:318-351 | every failing field, and only those, is reported with its message (name: trimmed length at least 2; email: the pattern; phone: the pattern and an untrimmed length of at least 8; message: trimmed length at least 10; lengths in UTF-16 code units); `project` is never checked; the map is empty exactly when all four rules hold |
| ContactForm.Flag | script.js:322-325 | one `if` of validateForm adds its field, with its message, exactly when its rule fails, and keeps every other entry |
| ContactForm.ShowError | script.js:384-404 | the group gets the `error` class and ends with the new message; from at most one message it holds exactly `[m]`; nothing else in the group changes |
| ContactForm.ClearError | script.js:406-416 | the class is removed; from at most one message no message is left; nothing else changes |
| ContactForm.ShowErrorNeedsInvariant | script.js:391-403 | only the first existing message is removed: a group holding two stale messages keeps one of them |
| ContactForm.MarkErrors | script.js:318-351 | groups named in the error map receive showInputError with their message; every other group is unchanged |
| ContactForm.MarkErrorsStep | script.js:322-325 | one more failing rule is one more showInputError on the groups |
| ContactForm.MarkedRules | script.js:319-350 | the four `if`s applied in order to the groups mark exactly the groups of the failing rules |
| ContactForm.ValidatedGroupsMarkErrors | script.js:318-351 | validateForm's in-order marking equals marking every field FormErrors reports |
| ContactForm.ResetValues | script.js:296 | `form.reset()` sets every value to the empty default and changes no class or message |
| ContactForm.CheckInput | script.js:353-373 | a required field with an empty trimmed value gets "This field is required" whatever its type; otherwise only `email` and `tel` inputs are checked, on the trimmed value, each with its message |
| ContactForm.Revalidate | script.js:375-379 | an invalid verdict gives the group the class and exactly that message; a valid verdict gives no class and no message |
| ContactForm.CheckInputIgnoresSurroundingWhitespace | script.js:354 | surrounding whitespace never changes a blur verdict |
| ContactForm.EmailSubmitVersusBlur | script.js:328-366 | an email the submit check accepts is accepted on blur; `a@b.c` behind a no-break space (U+00A0) passes on blur but fails on submit |
| ContactForm.PaddedEmail | script.js:354-363 | `a@b.c` behind a no-break space trims to `a@b.c`, which matches the email pattern |
| ContactForm.PhoneBlurVersusSubmit | script.js:335-372 | a phone the blur check accepts is accepted on submit; `  1234  ` passes on submit but fails on blur |
| ContactForm.PaddedPhone | script.js:368-369 | `  1234  ` is in the phone class and trims to four characters |
| ContactForm.SuccessMessage | script.js:290-293 | the success toast text contains the submitted name and the submitted email |
| ContactForm.Form.Data | script.js:276-282 | the submit handler reads each field's current value |
| ContactForm.Form.constructor | script.js:268-271 | the form starts with the page's groups and no toast |
| ContactForm.Form.ShowInputError | script.js:384-404 | the group of the input becomes ShowError of it; the other groups and the toasts are unchanged; one message per group is kept |
| ContactForm.Form.ClearInputError | script.js:406-416 | the group of the input becomes ClearError of it; the other groups are unchanged |
| ContactForm.Form.ValidateForm | script.js:318-351 | returns true exactly when FormErrors is empty, and leaves the groups marked as MarkErrors says |
| ContactForm.Form.ValidateInput | script.js:353-382 | returns the CheckInput verdict of the trimmed value and updates only that input's group, to Revalidate of it; this is also the whole blur handler (script.js:305-307) |
| ContactForm.Form.OnInput | script.js:309-313 | the keystroke sets the value; the field is re-validated only if it had the `error` class, otherwise nothing else changes |
| ContactForm.Form.Submit | script.js:272-300 | accepted exactly when FormErrors of the read values is empty; rejected: groups marked, no toast, no reset; accepted: one toast with the name and email, then every value reset |
| ContactForm.RejectedSubmitKeepsValues | script.js:284-287 | a rejected submit changes no field's value |
| ContactForm.RejectedSubmitMarksEveryFailure | script.js:318-351 | after a rejected submit every failing field holds the class and exactly its own message |
| ContactForm.AstralNameAccepted | script.js:322-325 | a name of one emoji is two code units long and raises no name error |
| ContactForm.ShortNameRejected | script.js:322-325 | a one-character name is reported with the name message |
| MobileMenu.SetMenuState | script.js:86-92 | the two `active` classes, the body overflow, `aria-expanded` and `aria-hidden` all mirror the requested state |
| MobileMenu.MenuStep | script.js:94-127 | the toggle flips the state; a nav-link click closes; a click outside both the nav and the toggle closes an open menu and otherwise changes nothing; Escape closes an open menu and focuses the toggle, and changes nothing on a closed one; no other event moves the focus; mirrored attributes stay mirrored |
| MobileMenu.MenuRunMirrored | script.js:86-127 | a mirrored menu stays mirrored over any run of events; a run ending in a toggle or nav-link click is mirrored, whatever the markup set first |
| MobileMenu.ToggleTwice | script.js:94-98 | two toggle clicks restore a mirrored menu |
| MobileMenu.Menu.constructor | script.js:80-82 | the panel is marked hidden and the menu starts closed; with the markup's `aria-expanded="false"` every attribute is mirrored |
| MobileMenu.Menu.SetState | script.js:86-92 | the fields become SetMenuState of the old ones |
| MobileMenu.Menu.OnToggleClick | script.js:94-98 | the fields follow MenuStep for a toggle click |
| MobileMenu.Menu.OnNavLinkClick | script.js:101-105 | the fields follow MenuStep for a nav-link click |
| MobileMenu.Menu.OnDocumentClick | script.js:108-119 | the fields follow MenuStep for a document click |
| MobileMenu.Menu.OnKeyDown | script.js:122-127 | the fields follow MenuStep for a key press |
| Gate.Passed | script.js:59-62 | the triggers that get through number at most the releases, plus one when the gate starts open |
| Gate.BurstPassesOnce | script.js:521-525 | a burst of triggers with no release gets through once on an open gate, and not at all on a closed one |
| HeaderScroll.IsScrolled | script.js:48-52 | `scrolled` when the offset exceeds 50, and not otherwise: 50 itself is not scrolled |
| HeaderScroll.Header.constructor | script.js:42 | no frame is pending and `ticking` is clear |
| HeaderScroll.Header.OnScroll | script.js:56-65 | a scroll requests a frame only while `ticking` is clear, then sets it; at most one frame is ever pending |
| HeaderScroll.Header.OnFrame | script.js:44-54 | the frame sets `scrolled` from the offset and clears `ticking` |
| ScrollReveal.RevealFrame | script.js:186-197 | no element loses `active`; an element gains it only when its top is above the viewport height less 100; every such element has it afterwards |
| ScrollReveal.RevealRunMonotone | script.js:186-209 | over any run of frames an element ends revealed exactly when it started revealed or some frame saw it in view |
| ScrollReveal.Reveal.constructor | script.js:183-200 | the start-up check is one RevealFrame from no element revealed, with no frame requested |
| ScrollReveal.Reveal.RevealOnScroll | script.js:186-197 | the `forEach` over the element array leaves it as RevealFrame of its old contents |
| ScrollReveal.Reveal.OnScroll | script.js:203-209 | the frame stored last is cancelled and a new one requested: only the latest request can run |
| ScrollReveal.Reveal.OnFrame | script.js:186-208 | the requested frame runs RevealFrame on the array with that moment's measurements |
| StatsCounter.NatToString | script.js:244-248 | the decimal text of a number is non-empty, all digits, and has no leading zero |
| StatsCounter.NatToStringRoundTrip | script.js:244-248 | the digits written for a number read back as that number |
| StatsCounter.FinalTexts | script.js:248 | the final text is `100%` for 100 and `42+` for 42 |
| StatsCounter.ClimbStep | script.js:241-245 | frame k shows no less than frame k-1, and less than the target |
| StatsCounter.Climb | script.js:240-246 | frame k (from 1) shows floor(k * target / 125) with the target's suffix; all frames are below the target and non-decreasing |
| StatsCounter.CounterTrace | script.js:233-253 | the last display is the exact target with `%` for 100 and `+` otherwise; the earlier ones show floor(k * target / 125) for frame k, are below the target, and the trace never decreases; 125 frames for a positive target, one otherwise |
| StatsCounter.AnimateCounter | script.js:238-252 | the `current += increment` loop produces exactly CounterTrace |
| StatsCounter.Starts | script.js:220-231 | over any run of checks, with the flag carried from check to check, the counters start at most once, never once `hasAnimated` is set, and exactly when some check finds the section top above the viewport height less 100 |
| StatsCounter.Stats.constructor | script.js:216-258 | the start-up check starts the counters exactly when the section is in view |
| StatsCounter.Stats.AnimateCounters | script.js:220-255 | `hasAnimated` goes from false to true only on an in-view check, and every counter then runs its CounterTrace; otherwise nothing changes |
| RateLimit.Throttle.constructor | script.js:517 | the gate starts open |
| RateLimit.Throttle.Call | script.js:518-526 | the function runs exactly when the gate is open, and the gate closes; a dropped call sets no timer |
| RateLimit.Throttle.TimerExpires | script.js:524 | the timer reopens the gate and runs nothing |
| RateLimit.Debouncer.constructor | script.js:504 | no timer is pending |
| RateLimit.Debouncer.Call | script.js:505-512 | the pending timer is cleared and replaced by a new one carrying the latest arguments: at most one timer is pending |
| RateLimit.Debouncer.TimerExpires | script.js:506-509 | only the timer stored last can expire; it runs the function once with its arguments |
| RateLimit.LatestWins | script.js:503-513 | two calls and the expiry run the function once, with the second call's arguments |
| BackToTop.IsVisible | script.js:481-485 | `visible` when the offset exceeds 300, and not otherwise |
| BackToTop.Button.constructor | script.js:474-480 | the button starts hidden behind an open throttle |
| BackToTop.Button.OnScroll | script.js:478-487 | a scroll that gets through the throttle sets `visible` from that offset; a dropped one leaves it |
| BackToTop.Button.OnTimer | script.js:486 | the throttle's timer reopens it and leaves the button alone |
| SmoothScroll.AnchorDestination | script.js:137-154 | a bare `#` or a missing target scrolls nowhere; otherwise the destination is the target's document top less the 80-pixel header room |
| SmoothScroll.ButtonDestination | script.js:160-174 | the same destination for a `data-scroll-to` button, with no `#` check |

## Left out

- DOM querying, `addEventListener` wiring and `preventDefault` are not modelled. Focus is modelled only as the toggle's "focused" flag.
- Each form group is assumed to hold exactly one input. `closest(".form-group")` is not modelled, and a missing group (which would throw) is not modelled either.
- Blur and input handlers are attached only to `input` and `textarea` elements; the model lets any group receive them.
- `requestAnimationFrame`, `cancelAnimationFrame`, `setTimeout` and `clearTimeout` have no timing in the model. Frames and timers are events the caller reports, except for the counters (next line), and the 150 ms limit, the debounce wait and the 16 ms frame interval are not modelled as durations.
- StatsCounter.Stats.AnimateCounters: on the start it computes each counter's whole sequence of displays at once; which display a counter shows between frames, and how the counters' frames interleave with other events, is not modelled.
- StatsCounter.AnimateCounter: the increment `target / (2000 / 16)` and `current` are exact rationals in the model; IEEE doubles can round `current` just below or above the target and add or drop a frame, and a running sum that lands just below an integer can show an intermediate display one less than floor(k * target / 125). For a positive target the model always produces 125 displays.
- `parseInt` of a missing or non-numeric `data-target` (NaN) is not modelled; targets are integers.
- A missing `.stat-number` element, which would throw, is not modelled.
- `window.pageYOffset || document.documentElement.scrollTop` is one integer offset input.
- MobileMenu.Menu.constructor: the starting state is assumed, not read from the markup: neither the toggle nor the panel carries `active` and the body overflow is empty; only `aria-expanded` is taken from the markup.
- ScrollReveal.Reveal.constructor: assumes no `.reveal` element starts with `active`.
- HeaderScroll.Header.constructor: assumes the header does not start with `scrolled`; the script sets nothing at start-up, so the class comes from the markup until the first frame.
- BackToTop.Button.constructor: assumes the button does not start with `visible`; as with the header, the script sets nothing at start-up.
- ContactForm.Form.constructor: requires every group to start consistent, that is with at most one `.error-message`, and with the `error` class exactly when it has one; a page rendered with other error markup is not modelled.
- A field's value is the string the checks read. The browser's value sanitization is not modelled: for an email input it strips leading and trailing ASCII whitespace before either check sees the value, which is why the email counterexample uses a no-break space.
- `form.reset()` is modelled as setting every value to the empty string, which assumes the markup gives no default values.
- The email and phone patterns use the Unicode whitespace set of `\s` and `trim` as listed in `Text.IsWhitespace`; the model does not follow changes to that set in later Unicode versions.
- `document.querySelector` of an `href` that is not a valid selector throws; the anchor model takes only "found" or "not found".
- `window.scrollTo` and its smooth animation, `initLogoHome`, the back-to-top click handler, `initLazyLoading` (never called) and the console output are not modelled.
- Toast styling, the `<style>` injection and the 5000 ms + 300 ms removal are not modelled; the model keeps only the toast text. The removal callback calls `style.remove()` (script.js:465) on a `const` declared inside the `if` block at script.js:441, so it throws a ReferenceError after the toast is removed.
