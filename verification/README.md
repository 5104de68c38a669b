# SecureBank front end — a Dafny model of its session and screen logic

This project models the logic of the SecureBank React front end. The
model is sequential and deterministic. Network responses, random bytes,
random codes and timer ticks are treated as inputs.

- **Session and request gateway** (`src/api.js`). The browser key-value
  store holds `jwt_token`, `refresh_token` and `user_info`. It is a `map`
  field of the class `Gateway.Session`.
  - Its methods model storing tokens, logout, login, registration, token
    refresh, and the authenticated request.
  - `refreshToken` is split at its first await: `StartRefresh` reads the
    refresh token and issues the request, `FinishRefresh` handles the
    answer.
  - The authenticated request is split into steps:
    - `Send`: the arrival of the first response. The 401 test uses the
      token read when the request was issued. The `isRefreshing` flag is
      checked and set, and a refresh that starts runs `StartRefresh` in
      the same step, recording the refresh token it carries.
    - `SettleRefresh`: the shared refresh settles. `FinishRefresh` runs on
      the recorded refresh token; a failure logs out; the flag is cleared.
    - `Resume`: a request awaiting that settlement is retried once, or
      fails as a session expiry. `ResumeWaiters` resumes every request
      that awaited the same settlement.
  - `ApiRequest` composes these steps for one request.
  - The de-duplication of refreshes is also stated over event histories
    (`Replay`). The session records its own history, and `Send` and
    `SettleRefresh` keep its flag and count equal to `Replay` of it.
  - The classifier that rewrites error messages is in `ErrorText`.
  - `JSON.stringify` of the stored profile and its reading back are in
    `Profile`.
  - The query of `getTransactions` is in `TransactionQuery`.
- **PIN screen** (`src/TwoFactorPage.jsx`). The masked address, and the
  class `TwoFactor.TwoFactorScreen`. It models attempts, lockout, the
  resend cooldown and the digit-only input.
- **Sign-in screen** (`src/LoginPage.jsx`).
  - `base64UrlEncode` is a loop over the bytes, checked against a Base64
    specification in `Base64`:
    - section 4 of RFC 4648, the standard alphabet with padding;
    - section 5 of RFC 4648, the URL and filename safe alphabet.
  - The submit handler is a method of `Login.LoginScreen`.
- **Dashboard** (`src/DashboardPage.jsx`). The account search and
  selection, the inclusive date filter, "Load more" paging and the tab
  switch.
- **Screen stages** (`src/App.js`). The `stage`/`email` state machine.
  - `ScreenFlow.Step` says which callback is on offer on which screen.
  - `ScreenFlow.App` is the component's own state.

Shared helpers model the JavaScript built-ins the code relies on:

- `Text`:
  - `includes`;
  - ASCII `toLowerCase`;
  - `trim` over the ECMAScript white-space and line-terminator set;
  - `replace(/\D/g, "")`;
  - `join`;
  - decimal `toString`.
- `Lists`: `filter` and `find`.

## Model

| member | source | states |
|---|---|---|
| Gateway.Session.constructor | src/api.js:41-43 | a fresh session holds the given store, with no refresh outstanding, none requested and an empty refresh history |
| Gateway.Session.IsAuthenticated | src/api.js:285-287 | true exactly when `jwt_token` is stored with a non-empty value |
| Gateway.Session.StoreTokens | src/api.js:24-31 | each token is written only when non-empty, otherwise the stored value stays; no other key changes |
| Gateway.Session.Logout | src/api.js:276-280 | the store loses exactly the three session keys; afterwards not authenticated, no refresh token, `getUser` is null; on a store without those keys nothing changes (idempotent) |
| Gateway.Session.SaveSession | src/api.js:187-194 | with a truthy token: the access token stored, the refresh token stored only if truthy, and `user_info` read back as `{username, role}`; keys other than the three unchanged; without a token the store is untouched |
| Gateway.Session.Login | src/api.js:169-197 | a non-ok response leaves the store unchanged and fails with `message`, else `error`, else "Invalid username or password" ("Login failed" for an unreadable body); an ok response without JSON fails; otherwise returns the body and saves the session as above |
| Gateway.Session.Register | src/api.js:202-237 | as Login, with the registration message chain and "Registration failed" |
| Gateway.RegisterErrorsAggregated | src/api.js:215-219 | every field error of the `errors` object appears in the thrown message, and "Validation failed" appears exactly when the joined text is empty (or is literally that text) |
| Gateway.Session.StartRefresh | src/api.js:242-249 | the refresh token is read, and one refresh request is issued exactly when it is non-empty |
| Gateway.Session.FinishRefresh | src/api.js:245-270 | started without a refresh token: fails with "No refresh token available" and leaves the store; a non-ok answer clears the three keys; an ok readable answer succeeds, storing the tokens only when a token is returned; success exactly when the refresh token was non-empty and the answer ok and readable |
| Gateway.Session.RefreshToken | src/api.js:242-271 | no stored refresh token: fails with "No refresh token available" and issues no request; otherwise one request; a non-ok answer clears the three keys; an ok answer with a token overwrites the tokens, without one changes nothing |
| Gateway.Session.Send | src/api.js:98-128 | a refresh is needed exactly when the status is 401, the token read when the request was issued is non-empty and the endpoint lacks "/auth/"; then the flag is set and the request starts the refresh only if none was outstanding (reading the refresh token and issuing its request in that step), otherwise it joins it; else the request ends with the response's outcome; the 401 is recorded in the session's history, and refreshes started never exceed settlements plus one |
| Gateway.Session.SettleRefresh | src/api.js:118-128 | the refresh succeeds exactly when it started with a refresh token and the answer is ok and readable; a failure leaves the store without the session keys; the flag is cleared in every case; the outcome is recorded for the requests awaiting it, and the settlement in the session's history |
| Gateway.Session.Resume | src/api.js:130-145 | only after the awaited refresh has settled, with its outcome: a failed refresh fails the request with the session-expired text; otherwise one retry, issued only when a token is stored, whose outcome is final; with no token left the session is cleared and the request fails as expired |
| Gateway.Session.ResumeWaiters | src/api.js:130-145 | the requests awaiting one settled refresh all retry, each ending with its own retry's outcome, exactly when the refresh succeeded and a token is stored; otherwise all fail as a session expiry, the session cleared once when the refresh succeeded without a token |
| Gateway.Session.ApiRequest | src/api.js:98-164 | for one request: refreshes exactly under the three conditions, issues at most one refresh and one retry, and ends with the first response's outcome, the retry's outcome, or a session expiry with the session cleared |
| Gateway.EmptyErrorBody | src/api.js:147-160 | an error response naming no message or error falls back to "HTTP status: text", which a 5xx status turns into the server-error text |
| Gateway.UnrefreshedUnauthorized | src/api.js:147-160 | a 401 that is not refreshed (such as the retry's) is reported as "Your session has expired. Please login again." unless a message rule takes precedence |
| Gateway.ReplaySnoc | src/api.js:118-128 | replaying a history one event longer continues from the flag the history left, which is how `Send` and `SettleRefresh` keep the session's flag and count equal to `Replay` of its history |
| Gateway.OneRefreshPerWindow | src/api.js:118-128 | 401s arriving without a settlement in between start at most one refresh, none while one is outstanding, and leave the flag set |
| Gateway.ConcurrentUnauthorized | src/api.js:118-131 | any number of concurrent 401s on an idle session start exactly one refresh |
| Gateway.AtMostOneOutstanding | src/api.js:41-43 | over any history, refreshes started never exceed settlements plus one: at most one refresh is outstanding |
| Profile.ParseSerialize | src/api.js:36-39 | the `user_info` text written by login reads back as the same username and role, with absent fields absent |
| Profile.ReadEscaped | src/api.js:190-193 | an escaped string value followed by its closing quote reads back as the original text, leaving the rest |
| ErrorText.FindFrom | src/api.js:63 | the index found is the leftmost case-insensitive occurrence at or after the start; none means there is no such occurrence |
| ErrorText.MessageRulesIgnoreStatus | src/api.js:49-69 | when the insufficient-funds, validation or missing-account rule applies, the status code does not change the result |
| ErrorText.StatusRules | src/api.js:71-92 | without those rules and keywords: 401 gives the session-expired text, 403 the permission text, 404 the missing-resource text, 500 and above the server-error text, any other status the message unchanged |
| ErrorText.UnauthorizedIsSessionExpired | src/api.js:72-74 | status 401 gives the session-expired text unless a message rule applies first |
| ErrorText.ReplaceFirstFound | src/api.js:63 | a case-insensitive replacement keeps the text before the first match and puts the replacement at its index |
| ErrorText.ValidationRewriteReplaces | src/api.js:62-64 | the validation rule keeps the text before the first "validation" (any case) and the result contains "Please check your input" |
| TransactionQuery.AppendIf | src/api.js:307-310 | a conditional append keeps the keys ordered and the earlier pairs unchanged; the key looks up to its value exactly when given |
| TransactionQuery.GetTransactionsQuery | src/api.js:299-313 | `page` then `size` first (defaults 0 and 20); `startDate`, `endDate`, `type`, `accountId` present exactly when truthy, with their values; no other or repeated key; keys in that order |
| TwoFactor.PlaceholderOnlyWithoutEmail | src/TwoFactorPage.jsx:13-18 | the mask is "your email" exactly when the address is empty |
| TwoFactor.MaskKeepsDomain | src/TwoFactorPage.jsx:15-17 | for an address with one "@": the first two characters of the local part (one if it has at most two, none if empty), four glyphs, then "@" and the domain unchanged |
| TwoFactor.MaskWithoutAt | src/TwoFactorPage.jsx:15-17 | an address without "@" ends in "@undefined" |
| TwoFactor.BulletsShown | src/TwoFactorPage.jsx:17 | with the intended glyph, exactly four bullets follow the visible start and the length is as computed |
| TwoFactor.MisencodedMask | src/TwoFactorPage.jsx:17 | with the glyph as the file spells it, any address with one "@" shows four three-character groups after the visible start: the first character there is not a bullet and the text is eight characters longer than intended |
| TwoFactor.MisencodedMaskShown | src/TwoFactorPage.jsx:17 | for "alice@bank.com" the character right after "al" is not a bullet, and the text is eight characters longer than with bullets |
| TwoFactor.GeneratedIsCode | src/TwoFactorPage.jsx:20-23 | any draw from 100000 to 999999 gives a six-digit code without a leading zero |
| TwoFactor.TwoFactorScreen.constructor | src/TwoFactorPage.jsx:5-30 | empty PIN, three attempts, cooldown 30, no error, the first code generated and announced with the masked address |
| TwoFactor.TwoFactorScreen.EnterPin | src/TwoFactorPage.jsx:81 | the PIN becomes the digits of the typed text |
| Text.DigitsOnlyIdempotent | src/TwoFactorPage.jsx:81 | filtering digits twice is filtering once |
| TwoFactor.TwoFactorScreen.HandleVerify | src/TwoFactorPage.jsx:39-53 | empty PIN: its error only, attempts unchanged; wrong PIN: exactly one attempt fewer, PIN cleared, "Incorrect PIN. Attempts left: n" or "No attempts left.", cancel exactly when none are left; right PIN: verified message and signal, attempts unchanged |
| TwoFactor.TwoFactorScreen.HandleResend | src/TwoFactorPage.jsx:55-60 | while the cooldown is positive nothing changes; otherwise a new code, cooldown 30 and the resend message |
| TwoFactor.TwoFactorScreen.Tick | src/TwoFactorPage.jsx:33-37 | the cooldown drops by one only while positive, so it stays within 0 to 30 |
| Base64.DecodeEncode | src/LoginPage.jsx:17 | standard Base64 with padding decodes back to the bytes encoded |
| Base64.UnpaddedShape | src/LoginPage.jsx:17-18 | the encoding without padding has (4n+2)/3 characters, all from the RFC 4648 section 4 alphabet |
| Base64.StripPaddingOf | src/LoginPage.jsx:18 | removing the trailing run of "=" removes exactly the padding |
| Base64.UrlEncodeAlphabet | src/LoginPage.jsx:18 | the URL-safe form uses only A-Z, a-z, 0-9, "-" and "_" (no "+", "/" or "=") |
| Base64.UrlEncodeLength | src/LoginPage.jsx:18 | the URL-safe form of n bytes has ⌈4n/3⌉ characters |
| Base64.UrlRoundTrip | src/LoginPage.jsx:14-19 | mapping back to the standard alphabet, re-padding and decoding gives the original bytes |
| Login.Base64UrlEncode | src/LoginPage.jsx:14-19 | the loop-built result is the URL-safe unpadded encoding: URL-safe characters only, ⌈4n/3⌉ long, decoding back to the bytes |
| Login.GenerateToken | src/LoginPage.jsx:21-25 | 32 random bytes give a 43-character token that decodes back to them |
| Login.LoginScreen.constructor | src/LoginPage.jsx:6-12 | empty fields, not loading, no error or message |
| Login.LoginScreen.SetEmail | src/LoginPage.jsx:79 | the email field takes the typed value |
| Login.LoginScreen.SetPassword | src/LoginPage.jsx:93 | the password field takes the typed value |
| Login.LoginScreen.HandleSubmit | src/LoginPage.jsx:27-60 | an empty field: "Please fill in both fields.", nothing stored, parent not told; otherwise a 43-character token stored under `sb_token` before `onSuccess(email)`, only that key changed, and `loading` false at the end |
| Dashboard.FilterAccounts | src/DashboardPage.jsx:81-90 | a blank search (after lower-casing and trimming) returns the accounts unchanged; otherwise exactly the accounts whose type, nickname or last four digits contain the search, in order |
| Dashboard.SelectedAccount | src/DashboardPage.jsx:92 | the first account of the full list with the selected id, even if hidden by the search; else the first shown account; else none |
| Dashboard.DateFilter | src/DashboardPage.jsx:160-166 | exactly the transactions with no date before `from` (if set) and none after `to` (if set), in order |
| Dashboard.NoRangeKeepsAll | src/DashboardPage.jsx:160-166 | with both bounds empty every transaction is kept |
| Dashboard.OneDayRange | src/DashboardPage.jsx:162-163 | both bounds are inclusive: the range from a day to the same day keeps exactly that day's transactions |
| Dashboard.LexLessTrichotomy | src/DashboardPage.jsx:162-163 | string `<` is a total order: two dates neither less than the other are equal |
| Dashboard.Visible | src/DashboardPage.jsx:168 | the visible rows are the prefix of length min(count, number filtered) |
| Dashboard.LoadMoreShown | src/DashboardPage.jsx:220 | the button shows exactly when some filtered transaction is not visible |
| Dashboard.TransactionsPage.constructor | src/DashboardPage.jsx:155-158 | three rows visible, no date bounds |
| Dashboard.TransactionsPage.SetFrom | src/DashboardPage.jsx:180 | the lower bound takes the picked date |
| Dashboard.TransactionsPage.SetTo | src/DashboardPage.jsx:189 | the upper bound takes the picked date |
| Dashboard.TransactionsPage.LoadMore | src/DashboardPage.jsx:220-224 | the count grows by exactly 3, and the visible rows strictly grow and extend the previous ones |
| Dashboard.DashboardHome.constructor | src/DashboardPage.jsx:77-90 | empty search, so every account is listed, and the first account (if any) is selected |
| Dashboard.DashboardHome.Select | src/DashboardPage.jsx:110 | a clicked account becomes the selection, by its id |
| Dashboard.TabName | src/DashboardPage.jsx:17 | `activeTab` is always one of "dashboard", "transactions", "fraud" and "settings" |
| Dashboard.TabNamesDistinct | src/DashboardPage.jsx:26-49 | the four values name four different tabs |
| Dashboard.DashboardPage.constructor | src/DashboardPage.jsx:17 | the dashboard tab is shown first |
| Dashboard.DashboardPage.SelectTab | src/DashboardPage.jsx:26-49 | a side-bar click shows its tab |
| Dashboard.DashboardPage.GoTransactions | src/DashboardPage.jsx:63 | `goTransactions` shows the "transactions" tab |
| ScreenFlow.Step | src/App.js:10-40 | only the PIN screen's verification enters the dashboard, apart from staying on it |
| ScreenFlow.DashboardOnlyAfterVerified | src/App.js:10-33 | every history that reaches the dashboard from another screen contains `onVerified` at a point where the PIN screen is shown |
| ScreenFlow.EmailKeptUntilSignIn | src/App.js:13-38 | without a sign-in, a history ending on the PIN screen or the dashboard starts on one of them and keeps its email |
| ScreenFlow.App.constructor | src/App.js:7-8 | stage "login" with an empty email |
| ScreenFlow.App.OnSuccess | src/App.js:13-16 | the email is recorded and the PIN screen shown |
| ScreenFlow.App.OnCancel | src/App.js:25 | back to sign-in, keeping the email |
| ScreenFlow.App.OnVerified | src/App.js:26 | on to the dashboard, keeping the email |
| ScreenFlow.App.OnLogout | src/App.js:35-38 | back to sign-in with the email cleared |

## Left out

- Transport is not modelled: `fetch`, HTTP, and JSON parsing of response bodies.
  - Each response is a `Response` value.
  - Its readable body is a `Body` record with the fields the code reads.
  - A rejected `fetch` (network failure) is not modelled.
- The base URL from `process.env` (src/api.js:5) and request headers are not modelled.
- Promise scheduling of `refreshPromise` is not modelled. De-duplication is modelled as discrete steps on the `refreshing` flag, recorded in the session's ghost history. True interleaving is out of scope.
- Gateway.Session.ApiRequest: requires that no other request's refresh is outstanding. It models one isolated request. A request that joins another's refresh is covered by `Send`, `SettleRefresh` and `ResumeWaiters`.
- ErrorText.FormatErrorMessage: the insufficient-funds branch returns only its fallback text.
  - Parsing the two amounts with `parseFloat` and formatting them with `toFixed` is floating point, and is not modelled.
  - The model only selects the branch.
- The stored profile is written with only `"` and `\` escaped.
  - Reading it back recognises only texts of the form written at login.
  - Other JSON escapes are not modelled: control characters and `\uXXXX`.
  - Other JSON layouts are not modelled either.
- A response body that is JSON but not an object is not modelled, for every response (`apiRequest`, login, registration and refresh alike).
- A JSON `null` field is treated as absent: `Body` and `Profile` fields are `Option<string>`. A server `role: null` is written by `JSON.stringify` as `"role":null`, but the model leaves the member out.
- `toLowerCase` is ASCII only, and string comparison is by Unicode scalar value, not UTF-16 code unit. The dates compared are ASCII.
- String length and indexing count Unicode scalar values, not UTF-16 code units. For the masked address this concerns `user.length`, `user[0]` and `slice(0, 2)` at src/TwoFactorPage.jsx:16, which differ only for characters outside the Basic Multilingual Plane.
- Randomness and timers are inputs, not modelled:
  - `crypto.getRandomValues` is the 32-byte `random` argument.
  - `Math.random` is the `generated` argument, from 100000 to 999999.
  - `setInterval` is `Tick`.
  - The half-second `setTimeout` in the sign-in handler is not modelled.
- The `catch` branch of the sign-in handler is not modelled. The model has no operation in its `try` block that can throw: storage quota or crypto failure are not modelled.
- The `maxLength={6}` limit of the PIN field is applied by the browser, and is not modelled.
- URL percent-encoding of the transaction query is not modelled. The query is the ordered list of key/value pairs.
- Not modelled on the dashboard: amounts, balances, `toLocaleString` formatting, JSX rendering and the demo data.
- Tab switching remounts the tab's component, resetting its state. The model keeps each tab's state in its own object; `DashboardPage` does not re-create those objects.
- The code has no input that calls `setQuery`, so the search text of `DashboardHome` stays empty. The model therefore has no operation that changes it. `FilterAccounts` still states what the filter does for any search text.
- `DashboardHome` takes `goTransactions` (src/DashboardPage.jsx:77) but nothing in it calls it. `DashboardPage.GoTransactions` models the callback itself.
- The `App` callbacks require the screen that offers them to be shown. `ScreenFlow.Step` states the same for histories.
- Login.LoginScreen.HandleSubmit: always notifies the parent. The `typeof onSuccess === "function"` guard of src/LoginPage.jsx:46 is not modelled, because `App` always passes the callback.
- The code calls `onCancel`/`onVerified` via optional chaining. `App` always passes both callbacks, so the model does not cover their absence.
- TwoFactor.TwoFactorScreen.constructor: announces the address with the corrected `MaskedEmail` (four U+2022 bullets). The code as written interpolates the misencoded glyph of src/TwoFactorPage.jsx:17 into this message (line 29); see "## Findings".
- TwoFactor.TwoFactorScreen.HandleResend: the resend message uses the corrected `MaskedEmail` as well, where the code as written (line 59) shows the misencoded glyph.

## Findings

| source | as written | input that shows it | evidently intended | confidence | as-written member | corrected member |
|---|---|---|---|---|---|---|
| src/TwoFactorPage.jsx:17 | The mask glyph literal is the three characters U+00E2 U+20AC U+00A2. These are the UTF-8 bytes of U+2022 read as Windows-1252. The literal is repeated four times. | "alice@bank.com" is shown as "al" followed by twelve stray characters ("â€¢" four times) and "@bank.com" | four U+2022 bullets, "al••••@bank.com", as `src/DashboardPage.jsx:113` writes them | not executed; high, since other files of the app spell it correctly (src/DashboardPage.jsx:113, src/LoginPage.jsx:95) | TwoFactor.MisencodedMask | TwoFactor.BulletsShown |

The screen model uses the corrected `TwoFactor.MaskedEmail` in its messages.
