# Portfolio page scripts: contact form and debounce, modelled in Dafny

The portfolio page's script wires DOM events. Three pieces of it carry behaviour that can be stated:

- **Contact-form validation.** `validateEmail` and the second `submit` listener trim the `name`, `email` and `message` fields. A blank field raises "Todos los campos son obligatorios". Otherwise an address that fails `^[^\s@]+@[^\s@]+\.[^\s@]+$` (tested after lower-casing) raises "Por favor, introduce un correo electrónico válido". Otherwise nothing is shown.
- **`debounce(func, wait)`.** Each call of the returned function clears the pending timeout and schedules `func(...args)` `wait` milliseconds later.
- **The asynchronous `submit` listener.** It posts the form data to `/api/contact` with the `X-CSRF-Token` header from `getCsrfToken()`. An `ok` response gives the thank-you alert and `reset()`s the form. A non-ok response, a rejected `fetch`, or a missing CSRF meta tag gives the failure alert and leaves the form as it was.

`script.js` and `js/script.js` are identical in lines 1–166; `js/script.js` only appends animation code. The model is written once. The table below cites both files, each row naming the lines in one of them.

Modules, one per component:

- `Wrappers`: `Option` and `Result`.
- `JsText`: the ECMAScript `\s` class, `trim`, and the letter-case conversions.
- `EmailPattern`: the regular expression as written (`EmailRegex`), an explicit description of the accepted shape (`IsEmailShape`), and `ValidateEmail`, proved equal to the shape.
- `FieldValidation`: the validation listener's verdict (`MissingField | BadEmail | Ok`) and its alerts.
- `Debounce`: the delay `setTimeout` applies (32-bit conversion, negative as zero), and a `Debouncer` class holding the closure's one pending slot, with a logical clock and a ghost log of `func`'s invocations. It also has a pure `Replay` of a sequence of calls and a reference description (`Survivors`) of which calls end up running; `RunCalls` drives the class through a sequence of calls and ends in `Replay`'s state.
- `ContactSubmit`: `getCsrfToken` and the asynchronous listener's outcome. A `ContactForm` class resets its fields in place and runs both listeners of one `submit` event.

Two behaviours of the code a reader might not expect:

- The validation listener (script.js:144) and the `fetch` listener (script.js:26) are two independent listeners on the same form. The validation listener's `return` ends only that listener, so an invalid form is posted anyway (`ContactSubmit.ValidationDoesNotGateRequest`).
- `getCsrfToken()` (script.js:100-102) runs inside the `try` of the `fetch` listener. Without the CSRF meta tag it throws a `TypeError`, which that `try` catches. The user sees the failure alert and no request is sent.

## Model

| member | source | states |
|---|---|---|
| JsText.Trim | script.js:146-148 | the trimmed value is empty exactly when the raw value is white space only; otherwise it neither starts nor ends with white space |
| JsText.TrimIsInfix | js/script.js:146-148 | `trim` removes white space only at the two ends: the result is an infix of the raw value, framed by white space |
| JsText.TrimIdempotent | script.js:146 | trimming a trimmed value changes nothing |
| JsText.TrimKeepsFramed | js/script.js:147 | a value that neither starts nor ends with white space is its own trim |
| JsText.LowerChar | script.js:165 | lower-casing keeps white space as white space, and keeps '@' and '.' as they are, with no other character turning into either |
| EmailPattern.ValidateEmail | script.js:163-166 | `validateEmail(s)` is true exactly when `s` has no white space and exactly one '@', a non-empty part before it, and a part after it with a '.' that is neither its first nor its last character |
| EmailPattern.RegexIffShape | script.js:164 | the regular expression `^[^\s@]+@[^\s@]+\.[^\s@]+$` accepts exactly the strings of that shape, in both directions |
| EmailPattern.LowerKeepsMatch | js/script.js:164-165 | lower-casing before the test never changes whether the expression matches |
| EmailPattern.CaseInsensitive | js/script.js:165 | an address and its upper-cased variant get the same answer, because upper-casing keeps every character's class |
| EmailPattern.AcceptsCapitals | script.js:164-165 | `A@B.COM` is accepted |
| EmailPattern.AcceptsShortest | js/script.js:164-165 | `a@b.c` is accepted |
| EmailPattern.AcceptsOrdinary | js/script.js:163-166 | `a@b.com` is accepted |
| EmailPattern.RejectedExamples | script.js:163-166 | `a@b`, `a @b.com` and `not-an-email` are rejected |
| FieldValidation.Validate | script.js:145-160 | the verdict is MissingField exactly when one of the three values is white space only; BadEmail exactly when all are present and the trimmed address lacks the accepted shape; Ok exactly when all are present and it has it |
| FieldValidation.Alerts | js/script.js:150-158 | at most one alert is shown, and none exactly when the verdict is Ok |
| FieldValidation.AlertsShown | js/script.js:150-160 | a blank field shows exactly the "all fields required" alert; otherwise a rejected address shows exactly the "valid email" alert; otherwise no alert |
| FieldValidation.MissingFieldIgnoresAddress | script.js:150-153 | with a blank name or message the verdict is MissingField whatever the address, so `validateEmail` has no say |
| FieldValidation.TrimmedValuesSameVerdict | js/script.js:146-148 | surrounding white space on any field never changes the verdict |
| FieldValidation.BlankNameExamples | script.js:146-152 | an empty name, or a name of spaces only, gives MissingField |
| FieldValidation.MalformedAddressExample | script.js:155-157 | name "A", address `not-an-email`, message "hi" gives BadEmail |
| FieldValidation.WellFormedExample | js/script.js:155-160 | name "A", address `a@b.com`, message "hi" gives Ok |
| Debounce.Delay | script.js:120 | the delay `setTimeout` uses: `wait` itself for a `wait` in 0 .. 2^31-1, zero for a negative 32-bit `wait`, and otherwise `wait` wrapped modulo 2^32 or zero, always below 2^31 |
| Debounce.DelayWraps | js/script.js:120 | `wait` 250 gives 250, -5 gives 0, 2^31 wraps to a negative value and gives 0, and 2^32 + 250 gives 250 |
| Debounce.AfterCall | script.js:119-120 | a call leaves exactly one invocation pending: this call's arguments, due exactly `Delay(wait)` after the call, which is `wait` for any ordinary delay |
| Debounce.TickStep | script.js:115-117 | the event loop runs at most one invocation; it runs the pending one, and empties the slot, exactly when its time has come |
| Debounce.Debouncer.constructor | script.js:112-113 | a new debounced function has nothing pending and `func` has not run |
| Debounce.Debouncer.Call | script.js:114-121 | each call cancels whatever was pending and schedules this call's arguments at `now` plus the delay |
| Debounce.Debouncer.Tick | js/script.js:115-118 | a tick runs `func` with the pending arguments exactly when they are due, appends them to the log of invocations, and empties the slot; otherwise nothing changes |
| Debounce.ReplayRunsSurvivors | script.js:112-121 | after any sequence of calls, `func` has run exactly with the arguments of the calls that were followed by a gap of at least the delay, in order, and the last call is pending |
| Debounce.RunCalls | script.js:112-121 | a fresh `Debouncer` driven through any sequence of calls ends in the state `Replay` gives: `func` has run with the arguments of exactly the calls followed by a gap of at least the delay, in order |
| Debounce.SurvivorsEmptyIff | js/script.js:112-121 | nothing runs during a sequence of calls exactly when every gap between consecutive calls is shorter than the delay |
| Debounce.BurstRunsOnce | js/script.js:114-121 | a burst of calls each less than `wait` apart runs `func` exactly once, with the last call's arguments, and not before `wait` has passed since that call |
| Debounce.EarlyTickIsIdle | script.js:115-120 | a tick before the pending time changes nothing, so extra event-loop turns inside a burst do not matter |
| ContactSubmit.GetCsrfToken | script.js:100-102 | the token is the meta tag's `content`; without the tag the call throws; a tag without the attribute gives the text "null" |
| ContactSubmit.SubmitOutcome | script.js:29-46 | exactly one alert in every case; a request to `/api/contact` carrying the form data and the token exactly when the meta tag exists; thanks and a reset exactly when that request got an `ok` response, and the failure alert otherwise |
| ContactSubmit.OnSubmitEvent | script.js:26-161 | one submit event: the request is sent exactly when the meta tag exists, whatever the validation verdict; the alerts are the validation alerts followed by the one alert of the asynchronous listener |
| ContactSubmit.ValidationDoesNotGateRequest | js/script.js:144-161 | a form with a blank field or a malformed address is still posted, and the user sees two alerts: first the "all fields required" or "valid email" alert, then exactly the one alert of the asynchronous listener |
| ContactSubmit.ContactForm.constructor | js/script.js:24 | the form holds what was entered and remembers its defaults |
| ContactSubmit.ContactForm.Reset | script.js:39 | `reset()` returns every field to its default |
| ContactSubmit.ContactForm.ValidateFields | js/script.js:144-161 | the listener's alerts on the form's current values are those of `Validate`, at most one |
| ContactSubmit.ContactForm.SubmitToServer | js/script.js:26-47 | the listener sends the request and shows the alert of `SubmitOutcome`; the form is reset to its defaults exactly on an `ok` response and otherwise left untouched |
| ContactSubmit.ContactForm.Submit | js/script.js:26-161 | both listeners run on one event, validation first; the result is `OnSubmitEvent`, so validation never stops the request |

## Left out

- Smooth scrolling, the navbar colour change on `scrollY`, the fade-in and lazy-loading intersection observers, and the `fade-in-section` class (script.js:2-21, 50-61, 67-96, 139-142): DOM and style side effects with nothing to state.
- The copyright year (script.js:63-65): it reads the system clock.
- The GSAP and ScrollMagic animations (script.js:124-137; js/script.js:168-239): third-party library calls with floating-point timing.
- `debouncedResize` and its `resize` registration (script.js:104-110): the wrapped action only logs to the console. `Debouncer` models `debounce` for any action.
- `e.preventDefault()` (script.js:27, 145): both listeners call it unconditionally on the event object, which is not modelled.
- `console.error` (script.js:44): diagnostic output only.
- The real `fetch`, `FormData`, `alert` and the HTTP exchange: the request is a value, its settlement is an input, and alerts are values.
- `setTimeout`'s real clock: time is a logical integer. Browser clamping beyond the 32-bit conversion and "negative means zero" (nested-timer minimums, throttling of background tabs) is not modelled.
- Debounce.Delay: `wait` is an integer. A fractional or non-numeric `wait`, which the `long` conversion truncates or turns into 0, is not modelled; the page passes 250.
- Debounce.Replay: the event loop is consulted once just before each call. A tick at any other moment inside a burst fires nothing (`EarlyTickIsIdle`). After a gap, an intermediate tick fires the same invocation earlier, which changes when `func` runs but not which arguments run or in what order. In a browser a due timer may still be queued when the next call arrives, and `clearTimeout` then cancels it; so "a gap of at least the delay means a run" (`ReplayRunsSurvivors`, `RunCalls`, and the "if" half of `SurvivorsEmptyIff`) holds only under this prompt-tick assumption.
- Re-entrant submission while a request is in flight: the page has no guard, and the interleaving of two in-flight listeners is event-loop concurrency that is not modelled.
- JsText.LowerChar: maps only the ASCII letters, and so does JsText.UpperChar. The full Unicode case tables are not modelled. Every case mapping keeps the white-space, '@' and '.' classes the expression looks at, so acceptance is unaffected.
- JsText: strings are sequences of Unicode scalar values. UTF-16 lone surrogates, which a JavaScript string can hold, are not representable.
- ContactSubmit.ContactForm.ValidateFields: requires the `name`, `email` and `message` inputs to exist. The page provides them; if one were missing, `querySelector` would return null and the listener would throw a `TypeError`, which is not modelled.
- The registration at script.js:144 itself: if the form were missing, the script would throw at load time. The model assumes the form is present.
