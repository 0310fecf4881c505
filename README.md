# Credential validation and submission gating of the authentication pages

This project models the client-side checks of the login and registration
pages in `js/auth.js`, and proves properties of that model:

- **Password requirement gate** (`validatePassword`). A password may be
  submitted when it has at least eight characters, an ASCII capital and a
  digit.
- **Password strength scorer** (`validatePasswordStrength`). It awards one
  point for each of five criteria and rates the total as weak, medium or
  strong.
- **Live confirmation check** (`validatePasswordMatch`).
- **Single-field validator** (`validateField`). It trims the value, then
  applies the first rule that applies to the field: required, the e-mail
  pattern `^[^\s@]+@[^\s@]+\.[^\s@]+$`, the password gate, or equality with
  the page's password input.
- **Form validators** (`validateLoginForm`, `validateRegisterForm`). They
  check every field without stopping early. The registration form also
  checks the terms box.
- **Submission workflow** (`handleLogin`, `handleRegister`). Each handler:
  - validates the form;
  - disables the submit button;
  - awaits the remote call;
  - on success, `handleLogin` stores `userEmail` (and `rememberLogin` when
    asked) and schedules index.html, while `handleRegister` schedules
    login.html without touching the store; each shows a success
    notification;
  - on failure, only shows an error notification;
  - re-enables the button whatever the outcome.
- **`formatEmail`**, the address normaliser.

The modules follow the structure of the script:

- `Text` covers characters, `trim` and `formatEmail`.
- `Email` covers the address pattern.
- `Passwords` covers the gate, the scorer and the confirmation check.
- `Auth` covers the field and form validators and the `AuthManager` class.

`Wrappers` holds the `Option` type.

The pure tests are functions and predicates. The code that works step by
step is imperative:

- The scorer is a method that increments its counter.
- The validators are methods that assign `isValid` and `errorMessage`.
- The handlers are methods of a class whose fields are the things the page
  changes:
  - the submit button (disabled flag and label);
  - `localStorage` (a map);
  - the notifications shown (a log whose last entry is the one visible);
  - the scheduled navigation target;
  - the remote call in flight.

Each handler is split at its `await`:

- `SubmitLogin` runs the part before it.
- `SettleLogin` runs the continuation, given the call's outcome.
- `HandleLogin` runs both in sequence.

`SubmitRegister`, `SettleRegister` and `HandleRegister` follow the same
pattern.

`IsWhitespace` fixes the characters that `trim` removes and `\s` matches.
It is the ECMAScript WhiteSpace and LineTerminator set. `[a-z]`, `[A-Z]`
and `\d` are ASCII classes.

### Behaviours worth knowing

- **The gate and the scorer disagree.** The gate ignores lowercase letters
  and symbols. A gate-approved password therefore always scores at least 3,
  and "password1!" scores 4 yet is rejected (`GateAndScorerDisagree`).
- **The confirmation field compares asymmetrically.** It trims its own value
  but compares it with the password input's value as typed. So a password
  that ends in a space is accepted by the password field, but the same text
  typed into the confirmation field is rejected (`TrailingSpaceAsymmetry`).
- **The two confirmation checks differ on empty input.** The live
  confirmation check treats an empty confirmation as a match. The field
  validator reports it as required (`EmptyConfirmDisagreement`).

## Model

| member | source | states |
|---|---|---|
| Text.IsWhitespace | js/auth.js:135 | the characters `trim` removes and `\s` matches: the ECMAScript WhiteSpace and LineTerminator set |
| Text.Trim | js/auth.js:135 | the trimmed value has no whitespace at either end |
| Text.TrimIsInfix | js/auth.js:135 | the trimmed value is an infix of the input, and everything removed on either side is whitespace |
| Text.TrimStartSuffix | js/auth.js:135 | removing leading whitespace keeps a suffix and drops only whitespace |
| Text.TrimEndPrefix | js/auth.js:135 | removing trailing whitespace keeps a prefix and drops only whitespace |
| Text.TrimEmptyIffBlank | js/auth.js:135-144 | the trimmed value is empty exactly when every character is whitespace, so a blank value of any length is "required" |
| Text.TrimIdempotent | js/auth.js:135 | trimming a trimmed value changes nothing |
| Text.TrimOfTrimmed | js/auth.js:135 | a value without surrounding whitespace is left unchanged by trim |
| Text.FormatEmail | js/auth.js:470-472 | the normalised address has no surrounding whitespace and no ASCII capital |
| Text.FormatEmailIsLoweredInfix | js/auth.js:471 | the normalised address is the lower-cased infix `email[i..j]` of the input, and everything cut off on either side is whitespace |
| Text.LowerChar | js/auth.js:471 | an ASCII capital becomes the lowercase letter 32 code points above it; every other character is kept |
| Text.ToLowerAscii | js/auth.js:471 | every ASCII capital becomes its lowercase letter and every other character is kept, position by position |
| Text.FormatEmailIdempotent | js/auth.js:470-472 | normalising an already normalised address changes nothing |
| Text.NoCapitalSurvivesTrim | js/auth.js:471 | trimming a string without ASCII capitals leaves none |
| Text.LowerOfLower | js/auth.js:471 | lower-casing a string without ASCII capitals leaves it unchanged |
| Email.MatchesEmailPattern | js/auth.js:147 | the pattern read literally: a token, `@`, a token, `.`, a token, where a token is a non-empty run without whitespace and without `@` |
| Email.IsEmail | js/auth.js:147-148 | the linear test (first `@`, token before it, token with an inner `.` after it) accepts exactly the strings matching the pattern read literally |
| Email.MatchHasSingleAt | js/auth.js:147 | a matching address has no whitespace and exactly one `@`, which is neither first nor last |
| Email.PatternCharacterisation | js/auth.js:147 | a string matches if and only if it has no whitespace, a single `@` that is not first, and a `.` after the `@` with a character on each side |
| Email.SampleAddressMatches | js/auth.js:147 | "user@example.com" matches |
| Email.RejectedAddresses | js/auth.js:147-151 | addresses without `@`, with nothing before `@`, with two `@`, without a dot, ending in a dot or containing a space are rejected |
| Email.SecondAtRejected | js/auth.js:147 | any string with two `@` signs does not match |
| Email.WhitespaceRejected | js/auth.js:147 | any string with whitespace at any position, the last included, does not match |
| Passwords.HasUpper | js/auth.js:72 | `/[A-Z]/.test`: some character is an ASCII capital |
| Passwords.HasDigit | js/auth.js:73 | `/\d/.test`: some character is an ASCII digit |
| Passwords.HasLower | js/auth.js:482 | `/[a-z]/.test`: some character is an ASCII lowercase letter |
| Passwords.HasSymbol | js/auth.js:485 | `/[^a-zA-Z\d]/.test`: some character is neither an ASCII letter nor a digit |
| Passwords.ValidatePassword | js/auth.js:69-96 | the gate holds exactly when the length is at least 8 and there is an ASCII capital and a digit |
| Passwords.GateIgnoresOtherCharacters | js/auth.js:70-74 | replacing a character that is neither a capital nor a digit by another such character never changes the gate's verdict |
| Passwords.ValidatePasswordStrength | js/auth.js:478-491 | the score is the number of criteria met (length, lowercase, capital, digit, symbol), at most 5; the level is weak iff score < 2, medium iff 2 <= score < 4, strong iff score >= 4 |
| Passwords.Met | js/auth.js:479-486 | the criteria a password meets: a criterion is listed exactly when the password meets it, and there are at most five |
| Passwords.MetSize | js/auth.js:479-486 | the number of criteria met is the sum of one point per satisfied condition |
| Passwords.Filter | js/auth.js:479-486 | a criterion is counted exactly when it is one of the criteria listed and the password meets it |
| Passwords.GateImpliesAtLeastMedium | js/auth.js:70-74 | a password the gate accepts meets at least three criteria, so it is never rated weak |
| Passwords.GateAndScorerDisagree | js/auth.js:70-74 | "password1!" meets four criteria but fails the gate; "PASSWORD1" meets three and passes it |
| Passwords.SampleScores | js/auth.js:478-491 | "" scores 0, "pass" scores 1, "Password1" scores 4 without the symbol criterion |
| Passwords.ValidatePasswordMatch | js/auth.js:99-111 | the live check passes exactly when the confirmation is empty or equals the password |
| Auth.ValidateField | js/auth.js:134-180 | the field is valid exactly when its trimmed value is non-empty and passes the one rule its type or id selects; valid iff the message is empty; each failure carries that rule's message, and a blank value is "required" whatever the field |
| Auth.PresenceImpliedByAcceptance | js/auth.js:309-315 | an accepted field is never empty, so the `!value` test rejects nothing the field check accepts |
| Auth.CheckPresentField | js/auth.js:309 | the per-field test of the form validators fails exactly when the value is empty or the field check rejects it |
| Auth.ValidateLoginForm | js/auth.js:303-318 | the login form is valid exactly when both e-mail and password are present and accepted |
| Auth.MatchAgreesWithConfirmField | js/auth.js:161-166 | for a non-empty confirmation without surrounding whitespace, the live check and the field check agree |
| Auth.EmptyConfirmDisagreement | js/auth.js:103 | an empty confirmation passes the live check but fails the field check |
| Auth.TrailingSpaceAsymmetry | js/auth.js:161-166 | "Passw0rd " passes as the password field but fails as a confirmation of itself |
| Auth.MismatchBlocksRegistration | js/auth.js:341-343 | a confirmation whose trimmed value differs from the password blocks registration |
| Auth.SampleLoginAccepted | js/auth.js:303-318 | the login "user@example.com" / "Passw0rd" passes validation |
| Auth.StoreLogin | js/auth.js:247-251 | after a successful login `userEmail` holds the submitted address, `rememberLogin` is "true" when requested and untouched otherwise, and no other key changes |
| Auth.IdleLabel | js/auth.js:367-372 | the label restored on the submit button: "Sign In" on the login form, "Create Account" on the registration form |
| Auth.AuthManager.constructor | js/auth.js:3-6 | a fresh page has an enabled button, no notification, no redirect and no call in flight |
| Auth.AuthManager.Visible | js/auth.js:406-408 | the notification on screen is the latest one shown, since each new one removes those before it |
| Auth.AuthManager.ShowNotification | js/auth.js:405-454 | the new notification is the one visible; earlier ones are kept in the log |
| Auth.AuthManager.SetButtonLoading | js/auth.js:353-374 | loading disables the button with the busy label; idle re-enables it with the form's own label |
| Auth.AuthManager.ValidateRegisterForm | js/auth.js:320-351 | valid exactly when all four fields are present and accepted and terms are ticked; an unticked box adds exactly one error notification, whatever the fields hold |
| Auth.AuthManager.SubmitLogin | js/auth.js:229-241 | the call is issued exactly when the form is valid; a rejected form leaves the button, the store and the notifications unchanged |
| Auth.AuthManager.SettleLogin | js/auth.js:243-265 | success stores the session, notifies and schedules index.html; failure only notifies; the button is enabled again either way |
| Auth.AuthManager.HandleLogin | js/auth.js:229-266 | a rejected form changes nothing; an accepted one issues one call, shows one notification, ends with the button enabled, and writes the store and the redirect only on success |
| Auth.AuthManager.SubmitRegister | js/auth.js:268-282 | the call is issued exactly when the form and terms are valid; otherwise only the terms notification may be added |
| Auth.AuthManager.SettleRegister | js/auth.js:284-300 | success notifies and schedules login.html, failure only notifies; the store is untouched and the button is enabled again |
| Auth.AuthManager.HandleRegister | js/auth.js:268-301 | a rejected form changes nothing but the terms notification; an accepted one issues one call, shows one notification, never touches the store and ends with the button enabled |

## Left out

- Passwords.ValidatePassword, Passwords.ValidatePasswordStrength: `length` counts Unicode scalar values, whereas JavaScript counts UTF-16 code units. A character outside the Basic Multilingual Plane counts once here and twice in the browser.
- Text.FormatEmail: lower-cases ASCII capitals only. The full Unicode case mapping of `toLowerCase` is not modelled.
- Auth.AuthManager.ShowNotification: models only which notification is visible. Not modelled: the DOM element, its colour classes, the slide-in and the 5-second auto-removal timers, and the close button.
- Auth.AuthManager.SubmitLogin, Auth.AuthManager.SubmitRegister: require an enabled button. The browser does not fire `submit` through a disabled submit button. A second submission while a call is in flight is not modelled.
- Auth.ValidateField: the field's error styling and message element are not modelled (`showFieldError`, `hideFieldError`, the `input-error`/`input-success` classes). Neither are the requirement check-marks that `validatePassword` updates. Only the verdict and the message are modelled.
- Passwords.ValidatePasswordMatch: models only the decision. Its early return when the page has no confirmation input is not modelled, and neither is the error it displays.
- Auth.AuthManager.SettleLogin, Auth.AuthManager.SettleRegister:
  - The outcome of the remote call (`simulateApiCall`, random with a 2-second timer) is a parameter.
  - The 1500 ms delay before navigation is not modelled; only the target page is recorded.
  - An exception thrown by `localStorage` or by `showNotification` inside the `try` is not modelled.
- Auth.Present: form values are strings. `formData.get` returns `null` for a name the form lacks; that case is not modelled.
- `generateUserId` is not modelled: it is random and unused by the workflow.
- The redirect on page load for a stored `userEmail` is not modelled: it depends on the page URL.
- Social login, password visibility toggles, icon creation and event-listener setup are not modelled: they are DOM wiring.
- `js/main.js` is not part of this model.
