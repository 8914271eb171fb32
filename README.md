# Login form and session client, modelled in Dafny

This project models the two pieces of logic of a single-page login application:

- the **login form controller** (`src/App.jsx`): the form's state cells
  `formData`, `errors`, `loading` and `showError`, the validator `validateForm`
  with its email shape test `/\S+@\S+\.\S+/`, and the two event handlers
  `handleChange` and `handleSubmit`;
- the **auth client** (`src/services/api.js`): the request interceptor that
  adds `Authorization: Bearer <token>`, and `authService.login`, `register`,
  `getProfile`, `logout`, `isAuthenticated` and `getCurrentUser` over the
  browser's storage.

Files:

- `email_shape.dfy` (module `EmailShape`): JavaScript's `\s` class, the shape
  test stated as "some substring matches" (`MatchesShape`), an executable
  left-to-right automaton deciding it (`HasEmailShape`), and the proof that
  the two agree on every string.
- `login_form.dfy` (module `LoginForm`): the `FormData` value, `Validate`, and
  the class `Form` whose four fields are the component's state cells. Each
  handler runs as one atomic step. Under that abstraction, the invariant
  `Valid()` holds between handler calls. It says that `loading` is false,
  every error message is one the validator or a keystroke can leave behind,
  and the banner is up only for data that passes validation. The program does
  not guarantee the last part (see "Left out").
- `js_value.dfy` (module `JsValue`): JSON-shaped values, JavaScript
  truthiness and `String(v)`, which `localStorage.setItem` applies to what it
  stores.
- `auth_service.dfy` (module `AuthService`): the class `AuthClient`, whose
  `storage` field is the browser's storage as a `map<string, string>`. The
  server's answer to a request is an input `HttpOutcome`. `JSON.stringify` and
  `JSON.parse` are a `JsonCodec` given to the client, assumed to round-trip and
  to reject `""` and `"undefined"`.

Two behaviours of the code that the model keeps as written:

- The form in `src/App.jsx` never calls the auth client: after validation it
  waits, logs and always throws, and `HandleSubmit` does the same.
- `isAuthenticated` is `!!localStorage.getItem('token')`, so an empty stored
  token counts as absent (`Authenticated`).

Behaviour the code has that the model makes explicit:

- A successful response whose body is `null` makes `response.data.token` throw
  a `TypeError`. That error has no `response`, so `login` and `register` throw
  the fallback message, and storage is untouched.
- A response with a truthy token but no `user` stores the string
  `"undefined"` under `user`. `getCurrentUser` then throws the `SyntaxError`
  of `JSON.parse`.
- `setItem` stores `String(token)`. For a truthy empty array that string is
  `""`, so `isAuthenticated()` is false even though a token was stored.

## Model

| member | source | states |
|---|---|---|
| `EmailShape.HasEmailShape` | src/App.jsx:70 | the executable test is true exactly when some substring of the input is non-blanks, '@', non-blanks, '.', non-blanks |
| `EmailShape.ScanDecidesShape` | src/App.jsx:70 | the left-to-right scan ends in its accepting state iff `/\S+@\S+\.\S+/` matches somewhere in the string (both directions) |
| `LoginForm.Validate` | src/App.jsx:65-81 | an email entry exists iff the email is empty or fails the shape test, and it is 'Email requis' when empty and 'Email invalide' otherwise; a password entry exists iff the length is below 6, and it is 'Mot de passe requis' when empty and the length message otherwise; each entry depends only on its own field; every message is one of the four |
| `LoginForm.ValidateEmptyIff` | src/App.jsx:65-81 | the validator returns no error iff the email is non-empty and has the shape and the password has at least 6 characters |
| `LoginForm.AcceptsWellFormedInput` | src/App.jsx:65-81 | `user@test.com` with `secret1` yields no errors |
| `LoginForm.ReportsBothFields` | src/App.jsx:65-81 | an empty email with password `abc` yields both 'Email requis' and the length message at once |
| `LoginForm.RejectsAddressWithoutDot` | src/App.jsx:68-72 | `user@test` is rejected with 'Email invalide' and nothing else |
| `LoginForm.FormData.With` | src/App.jsx:50-53 | updating one field sets it to the new value and leaves the other field as it was |
| `LoginForm.Form.constructor` | src/App.jsx:40-46 | the form starts with empty fields, no errors, not loading, no banner, and its invariant holds |
| `LoginForm.Form.HandleChange` | src/App.jsx:48-63 | sets only `formData[name]`; blanks `errors[name]` to '' only if it was a non-empty message and leaves every other entry as it was; always drops the banner; keeps the invariant |
| `LoginForm.Form.HandleSubmit` | src/App.jsx:83-111 | with validation errors: stores exactly the validator's map, makes no attempt, leaves `loading` and `showError` as they were; otherwise makes the attempt, which always throws, and ends with `loading` false and the banner up, errors unchanged; keeps the invariant |
| `JsValue.NatToString` | src/services/api.js:40 | `String(n)` for a non-negative integer: a non-empty string of decimal digits that denotes `n` (`DecimalValue(r) == n`), without leading zeros |
| `JsValue.TruthyToNonEmpty` | src/services/api.js:39-40 | a truthy token other than an array is stored as a non-empty string |
| `JsValue.EmptyArrayTruthyButBlank` | src/services/api.js:39-40 | an empty array passes the truthiness test yet is stored as the empty string |
| `AuthService.Rejection` | src/services/api.js:45-47 | the thrown value is the server's body when a response arrived with a truthy body, otherwise `{message: fallback}`; it is always truthy |
| `AuthService.SessionToken` | src/services/api.js:39 | a session token is found exactly when the body is an object whose `token` is truthy |
| `AuthService.AuthClient.Intercept` | src/services/api.js:15-22 | with a non-empty stored token the request gets `Authorization` = "Bearer " + token and every other header, the verb, path and body are unchanged; without one the request is unchanged |
| `AuthService.Authenticated` | src/services/api.js:84-86 | true exactly when a non-empty `token` entry is stored (`!!getItem('token')`) |
| `AuthService.AuthenticatedReadsOnlyToken` | src/services/api.js:84-86 | `isAuthenticated` depends only on the `token` entry: any two storages that agree on `token` give the same answer |
| `AuthService.AuthenticatedIgnoresUser` | src/services/api.js:84-86 | writing or removing the `user` entry never changes whether the client is authenticated |
| `AuthService.AuthClient.GetCurrentUser` | src/services/api.js:89-92 | null when no non-empty `user` entry is stored; the user itself when the entry is that user's serialization; a `SyntaxError` when the entry is "undefined" |
| `AuthService.AuthClient.StoredUser` | src/services/api.js:41 | parsing the stored `user` string gives back the response's user, and fails exactly when the response had none |
| `AuthService.AuthClient.Authenticate` | src/services/api.js:38-47 | `SessionUpdate`: on a response with a truthy token, storage gains exactly `token` := String(token) and `user` := serialized user; otherwise, and on every failure, storage is unchanged; the body is returned unchanged, or the rejection is thrown; no key other than `token` and `user` changes; the stored session reads back |
| `AuthService.AuthClient.Login` | src/services/api.js:31-48 | sends the signed login request; persistence as above with fallback 'Erreur de connexion'; no key other than `token` and `user` changes; afterwards the client is authenticated iff `String(token)` is non-empty, so any non-array token authenticates it, and `getCurrentUser` gives the response's user or throws when it had none |
| `AuthService.AuthClient.Register` | src/services/api.js:51-65 | the same persistence rule as login, for the registration request, with fallback "Erreur d'inscription" |
| `AuthService.AuthClient.SessionKept` | src/services/api.js:38-44 | once a session is stored, the client is authenticated exactly when `String(token)` is non-empty, so every truthy token other than an array authenticates it; the stored user reads back as the response's user, or throws when the response had none |
| `AuthService.AuthClient.GetProfile` | src/services/api.js:68-75 | sends the signed profile request (`Intercept` of a GET to `/auth/profile` with the default headers and no body), which carries the bearer header iff the client is authenticated; never changes storage, and returns the body or throws the server's body or the profile fallback |
| `AuthService.AuthClient.Logout` | src/services/api.js:78-81 | removes exactly `token` and `user`; is idempotent; afterwards the client is not authenticated and the current user is null |

## Left out

- Rendering, theming and layout of the form, and `handleForgotPassword`, which only logs.
- The 1.5-second `setTimeout` and the async scheduling: the attempt in `HandleSubmit` is one atomic step that throws.
- React's batching of `setState`: the handlers assign the fields in the order the source calls the setters.
- `console.log` and `console.error`.
- The axios instance: the base URL and the transport. A request is the verb, path, headers and body the client sets. The server's answer is an input.
- `LoginForm.Form.HandleChange`, `LoginForm.Form.HandleSubmit`: keystrokes during the 1.5-second wait of a submission are not modelled. In the program the text fields stay enabled while `loading` is true; only the submit button is disabled. An edit during the wait runs `handleChange`, and the `catch` that follows can then leave the banner up over invalid data, such as an email cleared during the wait. `Valid()` holds only under the model's atomic handlers.
- `Intercept`: the source mutates the request configuration object in place and returns it. The model returns the updated configuration as a value, since nothing else holds that object. Header names are compared exactly, not case-insensitively as axios does.
- `JSON.stringify` and `JSON.parse` are parameters (`JsonCodec`), assumed to round-trip and to reject `""` and `"undefined"`. Their text format is not modelled.
- Numbers are integers; `String(n)` is plain decimal, without exponent notation, `NaN` or `-0`.
- `setItem` throwing (a full storage) is not modelled.
- Password length counts Unicode characters, where JavaScript's `length` counts UTF-16 code units. The two differ for characters outside the Basic Multilingual Plane.
