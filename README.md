# Edge Websites accounts and forms, in Dafny

This project models the logic of the Edge Websites site that holds state or makes
decisions:

- **The in-memory user store** (`api/users.js`). It is a class `UserStore.Users` whose
  map of accounts is updated in place by `Set`. A second map holds the reset tokens
  that the password handlers call on the same module.
- **The account handlers** for signup, login, forgot-password and reset-password.
  - Each one is an ordered chain of guards ending in a reply with a status and a JSON
    body.
  - Signup, forgot-password and reset-password are methods over the store. Login is
    a function, because it only reads the store.
  - SHA-256, the random token bytes, the clock, Stripe's customer lookup and creation,
    and the email API's answers are all parameters.
- **The React sign-up form** (`src/App.js`): the phone formatter, the completeness
  test, and the state updates.
- **The booking form script** (`script.js`):
  - the rule table and `validateField`
  - the blur decision
  - the phone re-formatter
  - the submit loop
  - the time-slot label
- **The `/api/claude` endpoint** (`server.js`): the request checks, the history built
  from an untrusted conversation, the first-message filter, the `system` parameter and
  the reply text. The model also covers the `.html` no-cache rule.

Shared modules supply the JavaScript built-ins the code relies on:

- `JsText` covers `trim`, `replace(/\D/g, '')`, string `<`, `parseInt` and number-to-string.
- `Patterns` covers the three regular expressions.
- `Http` covers the replies and the outcomes of the foreign calls.

`api/forgot-password.js` and `api/reset-password.js` call reset-token functions on the
store, but `api/users.js` defines none of them and no expiry check either. The model
gives the handlers both readings: as written, and with the token functions they call.

## Model

| member | source | states |
|---|---|---|
| UserStore.Users.constructor | api/users.js:6 | a fresh store is empty: `get` is undefined and `exists` false for every email, no tokens |
| UserStore.Users.Get | api/users.js:9 | `get(email)` is the stored value when the email has been set, undefined otherwise |
| UserStore.Users.Exists | api/users.js:14 | `exists(email)` holds iff a truthy value (an account record) is stored under the email |
| UserStore.Users.All | api/users.js:15 | the keys of `all()` are exactly the emails passed to `set` so far, and each maps to what `get` returns |
| UserStore.Users.Set | api/users.js:10-13 | after `set(e, d)`, `get(e)` is `d` and `d` is returned; every other email's entry is unchanged; at most one key is added; the set of written emails gains `e` |
| UserStore.SetTwice | api/users.js:11 | setting one email twice leaves one entry holding the second value, and the store grows by at most one key |
| UserStore.Users.SetResetToken | api/forgot-password.js:47 | the token then maps to `{email, expiresAt}`; accounts and other tokens are untouched |
| UserStore.Users.GetResetToken | api/reset-password.js:31 | lookup gives the stored record for a known token and undefined otherwise |
| UserStore.Users.DeleteResetToken | api/reset-password.js:53 | the token is gone afterwards, deleting an absent token changes nothing, and accounts are untouched |
| ResetPassword.CheckInput | api/reset-password.js:21-28 | passes iff token and password are both present and the password has at least 8 characters; otherwise the first failing guard's 400 |
| ResetPassword.Handle | api/reset-password.js:19-58 | a failed input guard gives its 400, and neither store changes; an unknown token gives 400 "Invalid or expired reset token…" and nothing changes; a token whose email has no account gives 404 and nothing changes; on success only that account's `passwordHash` becomes hash(new password), its other fields and all other accounts are kept, the token is deleted, and the reply is 200 |
| ResetPassword.ResetTwice | api/reset-password.js:31-53 | after a successful reset, a second reset with the same token and an acceptable password fails at the token lookup with 400 |
| ResetPassword.HandleAsWritten | api/reset-password.js:21-61 | with the store as `api/users.js` defines it, every request past the input guards ends in the 500 branch with "users.getResetToken is not a function", so no reset ever succeeds |
| Login.Handle | api/login.js:31-97 | a missing email gives 400 before the password is examined; a missing password then gives 400. An unknown or falsy account gives 401 "no password set" iff Stripe lists a customer, and 404 when Stripe is absent, throws or lists none. A hash mismatch gives 401 "Invalid email or password". A match gives 200 with the email and the account's own customer id when it has one, else Stripe's first customer, else the account's falsy value. For a request that has a body, the status is one of 200, 400, 401 and 404 |
| Login.DependsOnlyOnGet | api/login.js:40 | login reads the store only through `get(email)`: two stores agreeing on that entry give the same reply (and, being a function, login writes nothing) |
| Signup.CheckInput | api/signup.js:22-35 | passes iff email and password are present, the email matches `^[^\s@]+@[^\s@]+\.[^\s@]+$` and the password has at least 8 characters; otherwise the first failing guard's 400 |
| Signup.ResolveCustomer | api/signup.js:38-57 | the customer id is the first listed Stripe customer's, otherwise the newly created customer's; a Stripe error carries its message |
| Signup.SendWelcomeEmails | api/signup.js:95-214 | with no API key nothing is sent; with a key both emails are reported sent iff both deliveries are accepted, a failed login email is reported as such and the password email is not attempted after it, and an accepted login email followed by a refused password email is reported as the password email failing |
| Signup.Handle | api/signup.js:19-91 | a failed guard gives its 400 and nothing is stored; a Stripe error gives 500 with its message; an email that already has an account gives 400 and the store is unchanged. Otherwise the store gains exactly the entry `{email, passwordHash: hash(password), customerId, createdAt}`, never the password. The reply is 200 with the customer id whatever the welcome emails did. The status is one of 200, 400 and 500, and mail is attempted iff the status is 200 |
| Signup.AcceptedEmailShape | api/signup.js:27-30 | an accepted email has no white space and exactly one `@`, which is not its first character |
| Patterns.EmailPattern | api/signup.js:27 | no contract of its own; described by `EmailPatternIsRegex`, `EmailPatternSingleAt` and `Signup.AcceptedEmailShape` |
| Patterns.NamePattern | script.js:17 | no contract of its own; described by `BookingForm.NameFieldAccepts` |
| Patterns.PhonePattern | script.js:33 | no contract of its own; described by `BookingForm.FormattedPhoneRejected` and `BookingForm.FormattedPhoneAccepted` |
| Patterns.EmailPatternIsRegex | api/signup.js:27 | the email predicate holds iff the string is `a@b.c` with `a`, `b` and `c` non-empty runs of characters other than white space and `@` |
| ForgotPassword.CheckInput | api/forgot-password.js:22-30 | passes iff the email is present and matches the email pattern; a missing email gives 400 "Email is required" and a malformed one gives 400 "Invalid email format" |
| ForgotPassword.Hex | api/forgot-password.js:43 | two hexadecimal digits per byte, so the text is twice as long as the bytes; `UnhexHex` shows it loses nothing |
| ForgotPassword.UnhexHex | api/forgot-password.js:43 | the hex text of the random bytes reads back to those bytes, so the token determines them |
| ForgotPassword.ResetTokenShape | api/forgot-password.js:43 | a token made from 32 random bytes is 64 lower-case hex digits |
| ForgotPassword.BaseUrl | api/forgot-password.js:50 | the base is the request's origin when present, else `https://edgelandings.com` |
| ForgotPassword.ResetUrl | api/forgot-password.js:50-51 | the link is the base, then `/reset-password.html?token=`, then the token, and its length is the sum of the three |
| ForgotPassword.SendResetEmail | api/forgot-password.js:72-129 | with no API key it only logs and returns without error; with a key it succeeds iff the email API accepted the message, and throws otherwise |
| ForgotPassword.Handle | api/forgot-password.js:19-68 | a missing or malformed email gives its 400. Every valid request gets the same 200 body, whether or not the account exists and when Stripe or the email send throws. A token is stored iff the email exists locally or as a Stripe customer and the Stripe lookup did not throw. The stored expiry is exactly now + 3 600 000 ms. Accounts never change. The link is mailed iff a token was stored and the send went through |
| ForgotPassword.HandleAsWritten | api/forgot-password.js:41-68 | with the store as `api/users.js` defines it, the reply is the same as the corrected handler's, but exactly where a token would be stored the call throws, so no token and no email ever exist |
| SignUpForm.FormatKeepsDigits | src/App.js:22-30 | the formatted phone holds exactly the first min(n, 10) digits of the input, in order (n is the input's digit count) |
| SignUpForm.FormatPhoneNumber | src/App.js:20-32 | fewer than 3 digits give the bare digits. From 3 digits on, the output starts with `(` and has `) ` after the first three digits. From 6 digits on it has `-` at index 9. The length is n, then n + 3, then 4 + min(n, 10) |
| SignUpForm.FormatFitsMaxLength | src/App.js:161 | the formatted phone never exceeds the field's `maxLength` of 14 |
| SignUpForm.FormatIdempotent | src/App.js:20-36 | formatting an already formatted phone changes nothing, so the formatter can safely run again on every keystroke |
| SignUpForm.IsFormComplete | src/App.js:39-41 | the form is complete iff neither name is blank and the phone has at least 14 characters |
| SignUpForm.FormattedPhoneComplete | src/App.js:39-41 | a formatted phone has at least 14 characters iff the input had at least 10 digits, and then exactly 14 |
| SignUpForm.HandleInputChange | src/App.js:13-18 | the named field takes the value and the other fields keep theirs |
| SignUpForm.HandlePhoneChange | src/App.js:34-37 | the names are untouched and the phone becomes exactly the formatted input (at most 14 characters, holding the first ten digits) |
| SignUpForm.HandleSubmit | src/App.js:43-47 | an incomplete form leaves the state unchanged; a complete one starts loading with the data unchanged |
| BookingForm.Rules | script.js:13-52 | exactly the eight fields have rules, every rule is required with a non-empty message, and only the name rules set a minimum length |
| BookingForm.ValidateField | script.js:55-75 | a field without rules gives `true`; a blank value of a required field gives the rule's message; the verdict is pass iff the value meets the required, minimum-length and pattern checks; any failure gives the rule's message |
| BookingForm.RequiredMessage | script.js:61 | the message is the rule's own when it has one, and is never empty |
| BookingForm.NameFieldAccepts | script.js:14-25 | a name passes iff it has at least 2 characters, only letters and white space, and is not all white space |
| BookingForm.EmailFieldAccepts | script.js:26-30 | an email passes iff it matches the email pattern |
| BookingForm.SelectFieldAccepts | script.js:36-47 | service, date and time pass iff they are not blank |
| BookingForm.BlurError | script.js:100-118 | `terms` shows its message iff unchecked; another field with rules shows an error iff it fails its rule, and the error is that rule's message; a field without rules shows the text `true` |
| BookingForm.PhoneInputLayout | script.js:130-138 | the digits survive formatting unchanged; fewer than 3 digits and 6 to 9 digits stay bare; 3 to 5 digits become `(ddd) rest`; 10 or more become `(ddd) ddd-dddd` followed by the remaining digits |
| BookingForm.FormatPhoneInput | script.js:130-138 | the handler's step-by-step rewriting leaves exactly the layout above in the field |
| BookingForm.PhoneInputIdempotent | script.js:130-138 | re-formatting a formatted value changes nothing |
| BookingForm.FormattedPhoneRejected | script.js:31-35 | any value the phone handler formats with parentheses fails the phone rule |
| BookingForm.TenDigitPhoneRejected | script.js:33 | example of `FormattedPhoneRejected`: `(555) 123-4567` fails the phone rule |
| BookingForm.ValidateFieldIntended | script.js:55-75 | the phone is judged by its digits and every other field as before |
| BookingForm.FormattedPhoneAccepted | script.js:33 | under the intended check, a formatted phone of 10 to 16 digits not starting with 0 passes |
| BookingForm.FailingFields | script.js:173-184 | a field is listed iff it is among the given fields and fails, where failing is judged with both corrections: the terms box by `checked`, the phone by its digits (`ValidateFieldIntended`), every other field by `validateField` |
| BookingForm.ValidateOnSubmit | script.js:166-196 | the loop collects exactly the failing rule fields in table order, and submission is valid iff every rule field passes, with the terms box judged by `checked` and the phone by its digits (`ValidateFieldIntended`) |
| BookingForm.SubmitAsWritten | script.js:166-196 | as written, a checked terms box makes submit throw and an unchecked one blocks it, so the form is never submitted |
| BookingForm.BeforeNoon | script.js:267 | on `HH:MM` values the string comparison with `12:00` holds iff the hour is below 12 |
| BookingForm.SplitColon | script.js:269 | `split(':')` always gives at least one part; its parts on `HH:MM` text are stated by `SplitColonAt` and `ClockSplit` |
| BookingForm.TimeLabel | script.js:267-269 | no contract of its own; described by `BeforeNoon`, `TimeLabelOfClock` and `NoonHourLabel` |
| BookingForm.TimeLabelFixed | script.js:267-269 | no contract of its own; described by `TimeLabelFixedOfClock` and `NoonHourLabelFixed` |
| BookingForm.ClockSplit | script.js:269 | `HH:MM` splits at its colon into hour and minutes |
| BookingForm.ClockHour | script.js:269 | `parseInt` reads the hour of `HH:MM` |
| BookingForm.TimeLabelOfClock | script.js:266-270 | a time before noon is labelled value + ` AM`; `12:00` is labelled `12:00 PM`; any other time is labelled (hour − 12) + `:` + minutes + ` PM` |
| BookingForm.NoonHourLabel | script.js:269 | every time in the hour after noon, such as `12:30`, is labelled with hour 0 (`0:30 PM`) |
| BookingForm.TimeLabelFixedOfClock | script.js:269 | with the fix, afternoon times keep their minutes and get an hour from 1 to 12 |
| BookingForm.NoonHourLabelFixed | script.js:269 | with the fix, `12:MM` is labelled `12:MM PM` |
| ClaudeProxy.EntryMessage | server.js:172-179 | an entry is kept iff it is an object whose `content` is a non-blank string; its text is the trimmed content; its role is assistant iff `role` is exactly `"assistant"`, else user |
| ClaudeProxy.ConversationMessages | server.js:170 | no contract of its own; a non-array `conversation` contributes nothing, and an array is kept entry by entry as `Kept` states |
| ClaudeProxy.Kept | server.js:170-181 | at most one message per entry, each with clean (trimmed, non-empty) text |
| ClaudeProxy.KeptAppend | server.js:171 | each entry is judged on its own: the kept messages of two runs are those of each, in order |
| ClaudeProxy.KeptOne | server.js:172-175 | a single entry contributes exactly its own message or nothing |
| ClaudeProxy.CleanTextTrimmed | server.js:174 | a kept text is its own trim |
| ClaudeProxy.BuildHistory | server.js:168-186 | the loop yields the kept conversation messages in order, then a user message carrying the trimmed prompt |
| ClaudeProxy.FilterLeading | server.js:188-193 | the filter removes index 0 iff it is not the user's, and keeps every other message in order |
| ClaudeProxy.FilterKeepsLast | server.js:188-193 | at most one message is dropped, and never the last |
| ClaudeProxy.FilterDropsOnlyOne | server.js:188-193 | two leading assistant turns leave the second one first |
| ClaudeProxy.HistoryClean | server.js:168-193 | the filtered list is non-empty, ends with the user's trimmed prompt, and every text is clean |
| ClaudeProxy.PromptOk | server.js:164 | no contract of its own; with a client configured, `PrepareRequest` answers 400 exactly when it fails |
| ClaudeProxy.SystemParam | server.js:199 | `system` is passed, trimmed, iff it is a non-blank string |
| ClaudeProxy.ModelName | server.js:8 | the model is the configured name when present, else `claude-3-5-sonnet-20241022` |
| ClaudeProxy.PrepareRequest | server.js:157-201 | no client gives 503, and this is checked before the prompt. A prompt that is absent, not a string or blank gives 400. Otherwise the API is called with the model, 1024 max tokens, the system parameter and the filtered history; that history ends with the trimmed prompt and has only clean texts |
| ClaudeProxy.JoinText | server.js:203-205 | no contract of its own; described by `JoinTextSkips`, `NonTextPartIgnored` and `ReplyOfTextParts` |
| ClaudeProxy.ReplyText | server.js:203-206 | the reply neither starts nor ends with white space, and is empty when the answer has no content |
| ClaudeProxy.NonTextPartIgnored | server.js:204 | a part whose type is not `text`, wherever it stands, does not change the reply |
| ClaudeProxy.ReplyOfTextParts | server.js:203-206 | the reply is the trimmed concatenation of the text parts' texts |
| ClaudeProxy.ErrorStatus | server.js:216 | the status is the error's truthy `status`, else its truthy `statusCode`, else 500, and is never 0 |
| ClaudeProxy.Respond | server.js:203-221 | an answer gives 200 with the reply text and the answer's model, or the configured one; an error gives its status, with the API's error message, else the error's own message, else "Failed to reach Claude assistant." |
| ClaudeProxy.NoCacheHeaders | server.js:21-28 | headers are added iff the path ends with `.html`, and then exactly `Cache-Control: no-cache, no-store, must-revalidate`, `Pragma: no-cache` and `Expires: 0`, in that order |
| ClaudeProxy.NoCacheBySuffix | server.js:22 | two paths with the same last five characters get the same headers |
| JsText.Trim | script.js:60 | `trim` leaves no white space at either end, and gives the empty string iff the input is all white space |
| JsText.TrimInfix | script.js:60 | the trimmed text is the infix of the input between a blank prefix and a blank suffix |
| JsText.TrimIdempotent | server.js:199 | trimming twice is trimming once |
| JsText.Digits | src/App.js:22 | `replace(/\D/g, '')` leaves digits only, and no more characters than the input had |
| JsText.DigitsOne | src/App.js:22 | one character is kept exactly when it is a decimal digit, which with `DigitsAppend` fixes the result on every string |
| JsText.DigitsAppend | script.js:131 | stripping non-digits distributes over concatenation |
| JsText.DigitsFixedIff | script.js:131 | stripping changes nothing iff the string is all digits |
| JsText.StrLess | script.js:267 | no contract of its own; described by `StrLessTrichotomy`, `StrLessFirstDiff` and `StrLessProperPrefix` |
| JsText.StrLessProperPrefix | script.js:267 | a proper prefix comes before the longer string |
| JsText.StrLessTrichotomy | script.js:267 | string `<` is irreflexive, asymmetric and total on distinct strings |
| JsText.StrLessFirstDiff | script.js:267 | string `<` is decided by the first differing character |
| JsText.ParseInt | script.js:269 | no number exactly when no digit follows the leading white space and sign; described by `ParseIntOfIntToString` |
| JsText.IntToString | script.js:269 | a non-negative number prints as decimal digits with no leading zero, a negative one as `-` followed by such digits; `ParseIntOfIntToString` shows `parseInt` reads it back |
| JsText.ParseIntOfIntToString | script.js:269 | `parseInt` reads back the decimal text of any integer |

## Left out

- Lengths are counted in characters, not in UTF-16 code units. The 8-character password
  minimum, `maxLength` and the length tests therefore differ from JavaScript's for
  characters outside the Basic Multilingual Plane.
- JsText.StrLess compares code points, whereas JavaScript's `<` compares UTF-16 code
  units, so the two orders differ when a character outside the Basic Multilingual Plane
  meets one from U+E000 to U+FFFF. The only strings compared are the `HH:MM` time slots.
- `parseInt` is modelled for decimal text only. Its `0x` prefix is not read, because
  the time values never carry one.
- Login.Handle, Signup.Handle, ResetPassword.Handle, ForgotPassword.Handle: a request
  with no body (`req.body` undefined or null) is not modelled. Its destructuring throws
  inside the `try`. In login, signup and reset-password the catch then answers 500 with
  the error's message (login.js:98-100, signup.js:88-90, reset-password.js:59-61). In
  forgot-password it answers the generic 200 (forgot-password.js:62-68). The model
  starts from the body's fields, and its nearest input, an absent field, gets 400.
- Request bodies are modelled as strings. A non-string `email`, `password` or `token`
  (a number, an array) is not modelled; `password.length` on such values is
  JavaScript-specific.
- `expiresAt` is kept as a number of milliseconds. Its ISO-8601 text form
  (`toISOString`) is not modelled.
- Nothing in the handlers or api/users.js checks a token's expiry, so the model does
  not check it either.
- ResetPassword.Handle replaces the fetched account with a copy whose hash changed. The
  source mutates the fetched object in place before `users.set`, which aliases the
  stored object. The resulting store contents are the same.
- Stripe, the Resend email API, the Anthropic API, SHA-256, `crypto.randomBytes` and
  the clock are parameters or oracle values, not implementations. The model does not
  capture the network, retries or timing.
- Concurrency between requests is not modelled. Each handler runs to completion
  against the store.
- The CORS headers, the OPTIONS and 405 preambles, and Express's static serving are
  HTTP plumbing and are not modelled.
- The DOM work in script.js is not modelled: showing and clearing errors, scrolling,
  keyboard navigation, the date and weekend checks, price display and the simulated
  submission. Neither are the `setTimeout` completion of the React form and its
  rendering.
- UserStore.Users.constructor, Get, Exists: keys inherited from `Object.prototype`
  (`constructor`, `toString`, `__proto__` and the rest) are not modelled. In
  JavaScript `users[email]` returns a truthy built-in for them even on a fresh store, so
  `exists` is true. The model says no value and false. Of the handlers, only login
  reads such a key. Signup and forgot-password reject these names with the email
  pattern. Reset-password only reads emails that forgot-password stored. With email
  `constructor`, login answers 401 "Invalid email or password", where Login.Handle
  answers 404 "No account found". Writes under `__proto__` replace the object's
  prototype instead of adding a key, and are not modelled either.
- `validationRules[fieldName]` for an inherited key such as `toString` is not
  modelled. Only the table's own keys have rules.
- The dashboard, check-db, test endpoints and the lawyer template's main.js are not
  part of this model: they are display, environment reporting or UI toggling.
- ClaudeProxy.Respond does not model the `usage` and `stop_reason` fields of the
  reply, which are copied through unchanged.

## Findings

| source | as written | input that shows it | evidently intended | confidence | as-written member | corrected member |
|---|---|---|---|---|---|---|
| api/reset-password.js:31 | `users.getResetToken` is called, but api/users.js defines no such function, so every reset that passes the input guards throws and answers 500 | token `abc`, password `password1` | look the token up, replace the account's hash and delete the token | not executed | ResetPassword.HandleAsWritten | ResetPassword.Handle |
| api/forgot-password.js:47 | `users.setResetToken` is not defined, so for every known email the handler throws before building the link; the catch still answers success, so no token is stored and no email is sent | a valid email that has an account | store the token and mail the reset link | not executed | ForgotPassword.HandleAsWritten | ForgotPassword.Handle |
| script.js:175 | at submit the terms checkbox passes a boolean to `validateField`, and a checked box reaches `true.trim()` (line 60), which throws, so the form can never be submitted | every field valid and terms checked | judge the checkbox by `checked`, as the blur handler does; the corrected member also judges the phone by its digits, the correction of script.js:33 | not executed | BookingForm.SubmitAsWritten | BookingForm.ValidateOnSubmit |
| script.js:33 | the phone pattern wants a digit or `+` first, but the input handler (lines 130-138) formats a 10-digit number as `(ddd) ddd-dddd`, which always fails | typing `5551234567` | validate the phone's digits | not executed | BookingForm.FormattedPhoneRejected | BookingForm.FormattedPhoneAccepted |
| script.js:269 | the label subtracts 12 from every hour after `12:00`, so the half-hour slot after noon reads with hour 0 | `12:30` gives `0:30 PM` | keep hour 12 for `12:MM` | not executed | BookingForm.NoonHourLabel | BookingForm.NoonHourLabelFixed |
