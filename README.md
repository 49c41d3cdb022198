# EmailCraft: request rules and login handling in Dafny

This project models the two parts of EmailCraft that carry checkable logic.

- **Backend** (`emailcraft-backend/main.py`):
  - the `/register` endpoint, which inserts one row into the `users` table (`emailcraft-backend/models.py`) after two checks;
  - the parts of `/generate-email` that are not network calls: the 500-character subject guard, the two prompt strings, the status check on each model reply, and the cut of the generated text at its first `"Subject:"`.
- **Front end** (`front-end/src/components/Login.js`): `handleSubmit` of the login form, as state changes over the loading flag, the shown response, `localStorage` and the `onLogin` callback.

Files:

- `results.dfy`: `Option` and `Result`.
- `http.dfy`: status codes, `HttpError` (an `HTTPException`) and the `{"message": ...}` reply.
- `email_generation.dfy`: module `EmailGeneration`.
  - Pure functions and lemmas.
  - The two hosted models are parameters of type `string -> ModelReply`: for each prompt they give a status, a text and a generated text.
- `registration.dfy`: module `Registration`.
  - The table is a class `UserTable` holding rows `(id, username, hashed_password)`.
  - Its map view `Table()` sends each username to its hash.
  - The password hasher is an arbitrary function fixed when the table is created.
  - `Register` is a method that changes the table.
- `login.dfy`: module `Login`.
  - A class `LoginForm` holds the component state and `localStorage`.
  - It also keeps a log of side effects (storage writes and `onLogin` calls) in the order they happen.
  - The callbacks of the promise chain are methods that run one after another.
  - Their effects are specified by the pure functions `SettleBody` and `Settle`.
  - `LoginScenario` runs a successful login end to end: the token is stored and the success text is shown.

Behaviour of the code that the model keeps:

- Registration takes `username`, `password` and `verify_password`.
- The login form posts `{email, password}`.
- The login form shows `data.message` only when it is truthy. An empty message falls back to `'Login failed. Please try again.'`.

## Model

| member | source | states |
|---|---|---|
| EmailGeneration.ParseRequest | emailcraft-backend/main.py:40-42 | the subject is kept as sent; the tone is the one sent, or "neutral" when omitted |
| EmailGeneration.CheckSubject | emailcraft-backend/main.py:107-109 | the guard passes exactly when the subject has at most 500 characters; otherwise status 400 with the "too long" detail |
| EmailGeneration.TranslationPromptRoundTrip | emailcraft-backend/main.py:56 | the translation prompt is the fixed lead followed by the text, and the text can be recovered from it exactly (both directions) |
| EmailGeneration.TranslationPrompt | emailcraft-backend/main.py:56 | the prompt starts with "convert this into English: " and the rest is the text unchanged |
| EmailGeneration.ReformatPrompt | emailcraft-backend/main.py:74 | the prompt is the fixed lead, then the tone, then " tone English email: ", then the text |
| EmailGeneration.ReformatPromptInjective | emailcraft-backend/main.py:74 | for tones of equal length, two reformat prompts are equal iff their tones and texts are equal |
| EmailGeneration.CallModel | emailcraft-backend/main.py:60-69 | a model reply with status 200 yields its generated text; any other status is re-raised with that status and "Hugging Face API error: " plus the reply text |
| EmailGeneration.IndexOf | emailcraft-backend/main.py:113 | the result is an occurrence of the pattern with no occurrence before it; None only when the pattern occurs nowhere |
| EmailGeneration.TrimToSubject | emailcraft-backend/main.py:113-115 | fails (as `str.index` does) iff "Subject:" does not occur; otherwise the result is the suffix of the text that starts with "Subject:", with no earlier occurrence skipped |
| EmailGeneration.TrimIdempotent | emailcraft-backend/main.py:113-115 | cutting an already cut body again leaves it unchanged |
| EmailGeneration.TrimDropsMarkerFreePrefix | emailcraft-backend/main.py:113-115 | whatever marker-free text precedes the first "Subject:", the body is "Subject:" followed by everything after it |
| EmailGeneration.GenerateEmail | emailcraft-backend/main.py:104-116 | a subject over 500 characters gives status 400. A model's non-200 reply is re-raised. With two 200 replies and a marker in the generated text, the request succeeds. A success echoes subject and tone and carries exactly the trimmed generated text |
| EmailGeneration.LongSubjectIgnoresModels | emailcraft-backend/main.py:107-111 | a too-long subject gets the same answer whatever the two models would reply: no model is consulted |
| EmailGeneration.MissingMarkerFails | emailcraft-backend/main.py:113 | after two successful model calls, the request fails with the substring error iff the generated text has no "Subject:" |
| Registration.FindUser | emailcraft-backend/main.py:122 | finds a row with the username iff one exists, and the row it returns has that username |
| Registration.AccountsKeys | emailcraft-backend/models.py:6-11 | the username-to-hash view has exactly the registered usernames as keys |
| Registration.AccountsSize | emailcraft-backend/models.py:10 | with unique usernames, the view has as many entries as the table has rows |
| Registration.CheckRegistration | emailcraft-backend/main.py:122-134 | "Username already registered" iff the username exists, even when the passwords also differ. "Passwords do not match" iff it does not exist and the passwords differ. Otherwise it passes |
| Registration.AppendKeepsInvariant | emailcraft-backend/main.py:136-140 | inserting a row with a new username and the next id keeps usernames unique and ids increasing |
| Registration.UserTable.Register | emailcraft-backend/main.py:119-141 | on either error the table is unchanged and the error is the first failing check. On success the reply is 201 "User registered successfully", with exactly one row `(next id, username, hash(password))` appended and the next id advanced by one. The map view then gains exactly `username := hash(password)` and grows by one |
| Login.Get | front-end/src/components/Login.js:35 | reading a property throws iff the body is null. On an object it gives the field's value, or undefined when the field is absent. On any other value it gives undefined |
| Login.StorageString | front-end/src/components/Login.js:37 | the text `setItem` stores; a string token is stored as it is |
| Login.DecimalRoundTrip | front-end/src/components/Login.js:37 | a numeric token's decimal text reads back as the same number |
| Login.SettleBody | front-end/src/components/Login.js:32-47 | a token is stored iff the body has a truthy `access_token`. The response is then "Login successful!". Otherwise it is the truthy `message` or the fallback text. A null body takes the error path. The shown response is always truthy |
| Login.Settle | front-end/src/components/Login.js:26-52 | a failed request or an unparsable body shows "An error occurred. Please try again." and stores nothing. A parsed body settles exactly as `SettleBody` says |
| Login.StatusNeverInspected | front-end/src/components/Login.js:31-35 | two replies with the same body and different statuses settle the same way |
| Login.WellOrderedLogin | front-end/src/components/Login.js:37-40 | a successful login keeps the effect log well ordered: only `accessToken` is written, and `onLogin` follows a write |
| Login.LoginForm.constructor | front-end/src/components/Login.js:7-11 | the form starts with empty fields, no response, not loading and no side effects |
| Login.LoginForm.SetEmail | front-end/src/components/Login.js:70 | the email field takes the typed value |
| Login.LoginForm.SetPassword | front-end/src/components/Login.js:83 | the password field takes the typed value |
| Login.LoginForm.Submit | front-end/src/components/Login.js:14-23 | loading is set and the response cleared before the request `{email, password}` is issued; storage and effects are untouched |
| Login.LoginForm.ReceiveBody | front-end/src/components/Login.js:32-47 | on a token: storage gains `accessToken := token` and nothing else. The log gains the write, then exactly one `onLogin`. Without a token, storage and log are unchanged. The response is as `SettleBody` says and loading is off |
| Login.LoginForm.RequestFailed | front-end/src/components/Login.js:48-51 | the response is "An error occurred. Please try again.", loading is off, storage and log are unchanged |
| Login.LoginForm.Complete | front-end/src/components/Login.js:26-52 | every completion path leaves loading off and a truthy response. Storage and the log change only on a stored token, and then as `ReceiveBody` says |

## Left out

- The Hugging Face HTTP requests: headers, URLs and the `max_new_tokens` parameter. A model is an arbitrary function from prompt to reply. Reading `[0]["generated_text"]` out of the reply JSON is not modelled, and the generated text is given directly.
- bcrypt hashing through `CryptContext`: a foreign library. The table's hasher is an arbitrary function.
- Registration.UserTable.Register: the stored hash is `hash(password)` for a fixed function. bcrypt draws a fresh random salt on every call, so the real hash is not a function of the password alone.
- Registration.UserTable.Register: each call is atomic. Two concurrent registrations of the same new username can both pass the lookup. The second insert then breaks the unique constraint and fails with a server error, not "Username already registered". Concurrency is not modelled.
- EmailGeneration.GenerateEmail: a model is a total function from prompt to reply. `requests.post` can also raise a connection or time-out error, which the endpoint does not catch and which fails the request with a server error. That path is not modelled.
- The SQLAlchemy session lifecycle (`get_db`, commit, refresh), CORS, `.env` loading and the server startup: infrastructure.
- How the web framework turns the uncaught `ValueError` from `str.index` into an HTTP reply: it is modelled only as the distinct error `SubstringNotFound`.
- Database ids: a new row gets an id above every existing one. The database's actual id allocation is not modelled.
- The `/login` and `/email-history` endpoints used by the backend tests: they are not part of the backend source. The register assertions of those tests appear as `Registration.RegisterScenario`.
- The other front-end files (sign-up form, email forms, protected component, API helpers, routing): UI forms and fetch wrappers with no state logic. The routing file only renders views.
- React rendering, CSS and asynchronous scheduling: each `.then`/`.catch` callback is a separate step run in sequence. Late or overlapping replies are not modelled.
- Login.Json: JSON numbers are integers only. Floating point and the precision limit of JavaScript numbers are not modelled.
- Login.Get: properties inherited from prototypes (such as `length` of a string) are not modelled. Only `access_token` and `message` are ever read.
- Exceptions thrown by `localStorage.setItem` (quota, disabled storage) or by the `onLogin` callback are not modelled.
- `console.log`/`console.error` calls: logging only.
- String lengths are counted in Unicode scalar values. Python counts code points, which differs only for strings holding lone surrogates.
