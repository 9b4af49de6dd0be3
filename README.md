# Contact form and page behaviour of a marketing site, in Dafny

This project models the decision logic of a small marketing-site front end.
It covers two scripts.

- `js/form.js` is the contact-form controller:
  - the two field patterns, the error messages and the ordered checks of `validateField`;
  - the error flag and message slot that `showError` and `hideError` set on a field;
  - the blur and input listeners;
  - the submit handler `handleFormSubmit`, which runs all five checks;
  - the submission state machine `submitForm`, which ends in a `finally` that restores the button;
  - the "send another" reset;
  - the auto-saved draft: saved on every input, restored at load, removed on every submit event.
- `js/script.js` is the page script:
  - the testimonial slider: index arithmetic modulo the number of slides, the previous and next buttons, the dots, the 50-pixel swipe, and the active-dot loop;
  - the typing-effect state machine;
  - the theme toggle and its icon;
  - the scroll thresholds of the navbar and the back-to-top button;
  - the active-section test;
  - the second submit listener, which posts to the Web3Forms service, and its "send another" listener.

Modules, one per concern:

- `Js` (`js.dfy`): the JavaScript built-ins the scripts rely on, written out.
  - `String.prototype.trim` and the regex class `\s`, over a fixed whitespace set.
  - The truncating `%` operator.
  - `substring(0, end)`, which clamps `end`.
- `Validation` (`validation.dfy`): field ids, the patterns, the message table and `validateField`'s verdict (`FieldError`), as pure functions.
- `Form` (`form.dfy`): the form page as a class, `ContactForm`.
  - The fields are a record of per-field views: value, error flag, and an optional message slot.
  - It also holds the visibility flags, the button state, the failure notices, and the request bodies sent so far.
  - The draft in storage is a `map<string, string>`.
  - The selection invariant (`SelectionFlagsCurrent`): a selection carries the error class only while it is empty, and its error slot never shows text (`handleFormSubmit` passes no slot, and `hideError` on input only empties and hides it). The page starts with it, every handler keeps it, and it is why a delivered submission leaves no error showing.
- `OneHot` (`onehot.dfy`): rows of flags with at most one set. Both the slider dots and the navigation links are such rows.
- `Slider` (`slider.dfy`): the slider as a class over an `array<bool>` of dots.
- `Typing` (`typing.dfy`): the typing step as a pure function, its invariant, a cycle proof, and the class whose `Type` method is the handler.
- `Theme` (`theme.dfy`): the theme choice and the toggle class.
- `Navigation` (`navigation.dfy`): the scroll handler and `updateActiveSection` over an `array<bool>` of link flags.

Each asynchronous operation takes its outcome as a parameter, because the model does not run the network:

- `Outcome` is how the awaited submission call ended;
- `Reply` is the Web3Forms reply.

Where the code and its own comment disagree, the model follows the code. The draft-clearing listener at `js/form.js:341-344` is commented "Clear draft on successful submission". In fact it removes the draft on every submit event, including one whose checks fail. `Form.ContactForm.ClearDraftOnSubmit` models that.

## Model

| member | source | states |
|---|---|---|
| Js.TrimEmpty | js/form.js:38 | `trim` never lengthens its input; the trimmed value is empty exactly when every character is whitespace |
| Js.TrimSlice | js/form.js:38 | every input splits into a whitespace prefix, then the trimmed value, then a whitespace suffix; with `TrimEnds` for input that is not all whitespace, and `TrimEmpty` for input that is, this pins down what `trim` returns |
| Js.TrimEnds | js/form.js:38 | when the input is not all whitespace, the trimmed value is non-empty and neither starts nor ends with whitespace |
| Js.TrimIdempotent | js/form.js:38 | a property of `trim` alone: trimming an already trimmed value changes nothing |
| Js.LeadingSpacesRun | js/form.js:38 | every character of the leading run that `trim` removes is whitespace |
| Js.LeadingSpacesStop | js/form.js:38 | the leading run stops at the first non-whitespace character |
| Js.TrailingSpacesRun | js/form.js:38 | every character of the trailing run that `trim` removes is whitespace |
| Js.TrailingSpacesStop | js/form.js:38 | the trailing run stops at the last non-whitespace character |
| Js.RunsApart | js/form.js:38 | unless the input is all whitespace, the leading and trailing runs leave at least one character |
| Js.JsRem | js/script.js:164 | JavaScript's `%`: the dividend minus the result is a multiple of the divisor, the result is smaller in magnitude than the divisor, and it takes the sign of the dividend; together these fix the result for every sign |
| Js.JsRemNonNegative | js/script.js:209 | on non-negative operands JavaScript's `%` agrees with the mathematical remainder |
| Js.JsRemOnce | js/script.js:214 | a dividend in `[0, 2n)` is reduced by at most one subtraction of `n` |
| Js.Prefix | js/script.js:150-153 | `substring(0, end)` is a prefix of the word whose length is `end` clamped into `[0, length]` |
| Validation.FieldOfKey | js/form.js:334-338 | a draft key names a form field exactly when it is one of the five field keys, and that field's key is the draft key |
| Validation.KeyRoundTrip | js/form.js:317 | different fields have different keys, and each key leads back to its field |
| Js.IndexOf | js/form.js:24 | the position of the first occurrence: the element there is the one sought, no earlier element is, and the result is the length when there is none. It finds both the email's `@` and the link that `querySelector` returns for a section (js/script.js:90) |
| Validation.EmailShapeIsRegex | js/form.js:24 | the part-by-part email shape accepts exactly the strings that match `^[^\s@]+@[^\s@]+\.[^\s@]+$` |
| Validation.ErrorMessage | js/form.js:28-34 | each field's own message is non-empty and differs from "This field is required" |
| Validation.FieldError | js/form.js:37-58 | every error verdict carries a non-empty message, so a shown error always shows text |
| Validation.OwnMessage | js/form.js:46-53 | a value that is not blank and fails its rule, by length or by pattern, gets its field's own message, whatever the field and rule |
| Validation.RequiredComesFirst | js/form.js:38-44 | a value that is all whitespace gets "This field is required", and only such a value does, whatever the field's rule |
| Validation.MessageVerdict | js/form.js:46-49 | the message passes exactly when its trimmed length is at least 10; any other failure gets the message field's own text |
| Validation.NameVerdict | js/form.js:23 | the name passes exactly when its trimmed value is 2 to 50 ASCII letters or whitespace characters |
| Validation.EmailVerdict | js/form.js:51-54 | the email passes exactly when its trimmed value matches the email regular expression |
| Validation.NameBoundsAccepted | js/form.js:23 | two letters and fifty letters pass the name rule |
| Validation.NameBoundsRejected | js/form.js:23 | the examples `A` (one letter), fifty-one letters and `R2 D2` fail the name rule |
| Validation.NameWithForeignChar | js/form.js:23 | any value holding a character outside `[a-zA-Z\s]`, such as a digit, fails the name rule |
| Validation.EmailAccepted | js/form.js:24 | ` a@b.co `, surrounding whitespace trimmed, passes the email rule |
| Validation.EmailWithoutAt | js/form.js:24 | every value without `@` fails the email rule |
| Validation.EmailWithoutDot | js/form.js:24 | every value whose trimmed form has no `.` after its first `@` fails the email rule |
| Validation.EmailRejectedExamples | js/form.js:24 | the examples `ab.co` (no `@`) and `a@bco` (no dot in the domain) fail the email rule |
| Form.PerField.Set | js/form.js:9-19 | replacing one field's entry leaves the other four unchanged |
| Form.DisplayedShows | js/form.js:41-74 | after `validateField` the field shows its verdict; its value and slot presence are unchanged; with a slot, the flag is set exactly when the slot holds text |
| Form.ChecksMatchRequest | js/form.js:110-156 | the five checks pass exactly when the trimmed body `submitForm` collects is acceptable field by field |
| Form.DraftOf | js/form.js:319-326 | the saved draft has exactly the keys name, email, service, budget and message, each holding that field's raw value |
| Form.Blank | js/form.js:166 | after `form.reset()` every field value is empty |
| Form.DraftRoundTrip | js/form.js:317-338 | restoring a saved draft brings back exactly the saved values and changes nothing else on any field |
| Form.RestoreIgnoresUnknownKeys | js/form.js:334-338 | a draft key that names no form field changes nothing on restore |
| Form.RestoreOneMore | js/form.js:334-338 | each field key in the draft writes that one field and no other |
| Form.LoadedFields | js/form.js:330-339 | after load each field holds the draft's value for its key, or stays blank, and shows no error |
| Form.CheckedKeepsValues | js/form.js:110-123 | the five checks change no field value |
| Form.BlurRule | js/form.js:78-91 | the name, email and message fields each have a blur rule; the two selections have none |
| Form.DeliveredThenBlank | js/form.js:110-123 | if the selection invariant holds and all five checks pass, the fields after the checks and a reset are all empty, show no error, and still satisfy the invariant |
| Form.CheckedShows | js/form.js:110-123 | after the checks, name, email and message each show their own verdict; an empty selection gets its error flag; a filled selection keeps its earlier flag; neither selection's slot is touched |
| Form.ContactForm.constructor | js/form.js:330-339 | at load the form is shown, the success panel hidden, the button ready, and the fields are the restored draft; no error is shown and the selection invariant holds |
| Form.ContactForm.RestoreDraft | js/form.js:330-339 | the restore loop, in any key order, leaves the fields as `Restore` of the stored draft |
| Form.ContactForm.ShowError | js/form.js:60-66 | sets the field's flag and, when a slot is passed and exists, writes and shows the message; nothing else changes |
| Form.ContactForm.HideError | js/form.js:68-74 | clears the field's flag and empties and hides its slot; nothing else changes |
| Form.ContactForm.ValidateField | js/form.js:37-58 | returns true exactly when the trimmed value passes the rule; the field then shows that verdict and nothing else changes |
| Form.ContactForm.OnBlur | js/form.js:78-91 | a blur on name, email or message leaves the form exactly as `validateField` with that field's rule would; a blur on a selection changes nothing; no value changes; the selection invariant is kept |
| Form.ContactForm.OnInput | js/form.js:93-103 | the typed value lands in the field, an error shown on it is cleared, other fields are untouched, and the draft is saved from all five values; the selection invariant is kept |
| Form.ContactForm.ClearDraftOnSubmit | js/form.js:341-344 | the draft is removed on every submit event |
| Form.ContactForm.ResetValues | js/form.js:166 | every field value becomes empty; error flags and slots stay, so a form showing no error still shows none; the selection invariant is kept |
| Form.ContactForm.SubmitForm | js/form.js:139-180 | records exactly one request with the trimmed values. On success: form hidden, success shown, fields reset. On failure: one notice added, form unchanged. On both paths the button ends enabled with its label and without the loading indicator. The selection invariant is kept |
| Form.ContactForm.CheckAll | js/form.js:110-123 | all five checks run with no short circuit; the result is true exactly when all pass; the fields become `Checked` of the old fields; the selection invariant is kept |
| Form.ContactForm.HandleSubmit | js/form.js:107-136 | submits exactly when all five checks pass; a sent request is acceptable field by field; otherwise only the error display changes. After a delivered submission no field shows an error. The selection invariant is kept |
| Form.ContactForm.PostToService | js/script.js:244-303 | posts the raw values with no check. A successful reply hides the form, shows success and resets the fields; anything else adds the alert and leaves the form. The button is restored on every path. The selection invariant is kept |
| Form.ContactForm.ShowFormAgain | js/script.js:305-310 | shows the form and hides the success panel, with no reset |
| Form.ContactForm.SendAnother | js/form.js:245-249 | shows the form, hides the success panel and resets every field value. A form that showed no error still shows none, so "send another" after a delivered submission gives an empty form with no error |
| OneHot.OnlyAt | js/script.js:198-200 | exactly the flag at the current index is set |
| OneHot.ExactlyOneActive | js/script.js:198-200 | exactly one flag is set when the index is in range, and none otherwise |
| OneHot.CountPrefix | js/script.js:198-200 | among the first `m` flags, one is set exactly when the index is below `m` |
| Slider.StepsWrap | js/script.js:208-216 | from a valid index, next adds one and wraps from the last slide to the first; previous subtracts one and wraps from the first to the last; both stay in `[0, n)` |
| Slider.PrevUndoesNext | js/script.js:208-216 | previous after next, and next after previous, return the original index |
| Slider.Swiped | js/script.js:231-240 | start−end > 50 advances one slide, end−start > 50 goes back one, and any shorter swipe leaves the index; the index stays valid |
| Slider.Slider.constructor | js/script.js:179-187 | the dot-creation loop makes one dot per card with only the first active, and the first slide current |
| Slider.Slider.UpdateSlider | js/script.js:191-201 | the toggle loop leaves exactly the current slide's dot active |
| Slider.Slider.GoToSlide | js/script.js:203-206 | a dot click makes its slide current and its dot the only active one |
| Slider.Slider.Prev | js/script.js:208-211 | the index becomes `(i - 1 + n) % n` and exactly its dot is active |
| Slider.Slider.Next | js/script.js:213-216 | the index becomes `(i + 1) % n` and exactly its dot is active |
| Slider.Slider.TouchStart | js/script.js:222-224 | records the touch start position |
| Slider.Slider.TouchEnd | js/script.js:226-240 | records the end position; runs the two swipe tests in sequence, giving `Swiped`; exactly the current dot ends active |
| Typing.WordsNonEmpty | js/script.js:141 | every word has at least one character |
| Typing.StepKeepsInv | js/script.js:146-169 | one step keeps the character count within the current word, with at least one character while deleting and fewer than all while typing |
| Typing.StepSpec | js/script.js:149-166 | the text written is the first `charIndex` characters of the current word. Completing a word switches to deleting with delay 2000. Emptying a word moves to the next word, modulo 4, typing, with delay 500. Otherwise the delay is 100 while typing and 50 while deleting |
| Typing.Run | js/script.js:168 | repeated steps keep the word index valid |
| Typing.RunKeepsInv | js/script.js:146-169 | every state reached from a valid state is valid |
| Typing.TypesToEnd | js/script.js:153-161 | typing from `c` characters reaches the full word, now deleting, after `length − c` steps |
| Typing.DeletesToStart | js/script.js:149-166 | deleting from `c` characters reaches the next word's start after `c` steps |
| Typing.WordCycle | js/script.js:146-169 | a word is typed out and erased in twice its length in steps, then the next word begins |
| Typing.FullCycle | js/script.js:164 | after all four words the machine is back in its initial state, so the words repeat in order forever |
| Typing.Typewriter.constructor | js/script.js:140-171 | the effect starts on the first word with nothing typed and runs one step at once |
| Typing.Typewriter.Type | js/script.js:146-169 | the handler performs exactly one `Step`: next state, text written and timer delay, and it keeps the invariant |
| Theme.InitialTheme | js/script.js:119 | a missing or empty stored theme gives light; any other stored text is used as it is |
| Theme.Toggled | js/script.js:124-125 | dark becomes light and every other value becomes dark |
| Theme.ToggleTwice | js/script.js:124-125 | toggling twice restores the theme exactly when it is dark or light; any other value settles on light |
| Theme.IconFor | js/script.js:132-137 | the icon is the sun exactly for the dark theme and the moon otherwise |
| Theme.ThemeSwitch.constructor | js/script.js:119-121 | at load the theme comes from storage and the icon, when present, follows it |
| Theme.ThemeSwitch.UpdateIcon | js/script.js:132-137 | a present icon is set from the theme; an absent one is left alone |
| Theme.ThemeSwitch.Toggle | js/script.js:123-130 | the theme flips, the new theme is stored, and the icon follows it |
| Navigation.LastHit | js/script.js:86-96 | the last section whose `top − 100 < y ≤ top − 100 + height` test passes, and no later one passes; none when no section passes |
| Navigation.StackedHitIsUnique | js/script.js:92 | on a page whose sections do not overlap, the offset lies in at most one section, and that section wins |
| Navigation.AtMostOneLinkActive | js/script.js:93-94 | once a section is reached at most one link is active, and it points at that section |
| Navigation.Page.constructor | js/script.js:40 | the page starts unscrolled with its sections and links |
| Navigation.Page.Highlight | js/script.js:93-94 | every link is cleared and only the target link, if any, is marked |
| Navigation.Page.UpdateActiveSection | js/script.js:82-97 | all links unchanged when no section is reached; otherwise only the first link to the last section reached is active |
| Navigation.Page.OnScroll | js/script.js:42-63 | `scrolled` exactly past 50, back-to-top exactly past 500 (so back-to-top implies scrolled), active link updated, offset remembered |

## Left out

- The network is not modelled.
  - The `fetch` to the form service and its JSON decoding are reduced to a `Reply`.
  - `simulateAPICall` and its 2-second timer are reduced to an `Outcome`.
  - `simulateAPICall` as written always resolves; the model also allows the failure path that `submitForm` handles.
- Timers are left out. This covers the typing-effect timer (only its delay is recorded), the preloader timers, the five-second removal of the failure notice, and the staggered form animations.
- Awaits are collapsed. `submitForm`'s loading state exists only within one call of `SubmitForm`, and no other event interleaves with it.
- The two submit listeners on the same form are modelled separately, as `HandleSubmit` plus `ClearDraftOnSubmit` for js/form.js and `PostToService` for js/script.js. Their interleaving on one submit event is not modelled.
- Local storage is modelled as plain values: a `map<string, string>` for the draft and an `Option<string>` for the theme. JSON encoding, parse failures and non-string draft values are not modelled.
- Restore only considers the five field keys. A stored key naming another entry of the form's element table (`form`, `submitBtn`, `formSuccess`, `sendAnother`) would write a `value` property on that element. That is not modelled.
- `form.reset()` is modelled as setting every value to the empty string. The page's markup, which could give other defaults, is not part of this model.
- `FormData` is assumed to carry exactly the five fields.
- Presentation and side effects are not modelled:
  - the confetti, which uses random numbers and styles;
  - analytics calls;
  - `scrollIntoView` and `focus`, including the scroll to the first error;
  - the slider's pixel scroll offset, which is floating point;
  - CSS animations;
  - the hamburger menu, smooth scrolling, lazy images and the preloader;
  - console logging.
- Message text that is set but never displayed is kept in the model but not examined. `handleFormSubmit` passes no slot for the selections, so their messages ("Please select a service", "Please select a budget") are never shown.
- Scroll offsets, element positions and the touch positions `changedTouches[0].screenX` (js/script.js:223, 227) are integers in the model; the browser may report fractional pixels.
- The request body's `timestamp` (js/form.js:155) is not modelled, because it reads the clock. `Payload` holds only the five field values.
- Strings are sequences of characters. `trim` and `\s` use a fixed set: space, tab, line feed, vertical tab, form feed, carriage return, no-break space and the byte-order mark. Other Unicode spaces and line separators are not in that set. String lengths are counted in characters rather than UTF-16 code units.
