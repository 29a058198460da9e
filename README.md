# Sign-up and login backend: a verified model

This project models the decision logic of a small NestJS sign-up and login
backend:

- the **user table** and its data-access service (`UserService`): lookup by
  email, insert with a store-assigned id, list all (`users_service.dfy`);
- the **authentication service** (`AuthService`): credential validation,
  login, and signup over that table, with bcrypt and the JSON Web Token signer
  (RFC 7519) as abstract parameters (`auth_service.dfy`, `crypto.dfy`);
- the **controllers**: the `{statusCode, message, data}` envelope and error
  remapping of the login and signup routes (`auth_controller.dfy`), and the
  profile route with its 404 and its status/message fallbacks
  (`users_controller.dfy`);
- the **validation rules** on the request bodies, above all the three
  password policies, as string predicates (`signup_dto.dfy`,
  `create_user_dto.dfy`, `login_dto.dfy`, with JavaScript regular-expression
  semantics in `patterns.dfy`).

Shared pieces: `wrappers.dfy` (Option, Result), `js.dfy` (JavaScript
truthiness), `errors.dfy` (exceptions as `{kind, status, message}` and the HTTP
status codes).

How things are represented:

- The user table is a `seq<User>` in insertion order, held by the
  `Users.UserService` class; `findOne({email})` is the first record with exactly
  that email. Ids come from a counter (`nextId`) standing for the store's
  object-id generator; the class invariant says every id is below it and all
  ids differ.
- `bcrypt.hash`, `bcrypt.compare` and `JwtService.sign` are function-valued
  parameters (`Crypto.Bcrypt`, `Crypto.Signer`). The only thing assumed of them
  is `Crypto.HashRoundTrip` — a password verifies against a hash made from it —
  and only by the lemmas that need it, as a precondition. The per-call random
  salt is a parameter; the cost factor 10 is `Crypto.SaltRounds`.
- Each service operation is specified by a function of the table's value
  (`Auth.Validated`, `Auth.LoginOutcome`, `Auth.SignupOutcome`); the
  `Auth.AuthService` methods are proved equal to them, and the lemmas state
  what the operations promise.
- The controllers are pure functions of the service's outcome (a `Result`
  holding either the returned body or the thrown error).
- A regular expression's `.` does not match a line terminator (`\n`, `\r`,
  U+2028, U+2029). So the user-creation pattern, which is not anchored, matches a
  single-line string exactly when it contains a letter, a digit and one of
  `@$!%*?&` (`CreateUserValidation.PatternIffContains`). A multi-line string can
  hold all three and still fail (`CreateUserValidation.MultiLineRejected`). The
  signup pattern is anchored and allows only letters, digits and `@$!%*#?&`, so
  no line terminator can occur and it is exactly the conjunction of its rules
  (`SignupValidation.PasswordRules`).
- `login` is modelled as written: it reads `_id` from the principal
  `validateUser` returns, which only has `id`, so the returned `id` and the
  token's `sub` are undefined (`None`). The unit test of `login`
  (src/auth/auth.service.spec.ts:85-86) stubs `validateUser` with an `_id` field
  and so does not see this; see Findings.

## Model

| member | source | states |
|---|---|---|
| `Users.FindByEmail` | src/users/users.service.ts:12-19 | nothing is found exactly when no record has the email; a found record has exactly that email and is the first such record |
| `Users.FindAfterAppend` | src/users/users.service.ts:14-24 | appending a record keeps an earlier match for an email, and makes the new record the match for an email that had none |
| `Users.DuplicateEmailKept` | src/users/users.service.ts:21-27 | insertion does not check uniqueness: a second record with a known email is appended, and lookup still returns the older one |
| `Users.UserService.FindOneByEmail` | src/users/users.service.ts:12-19 | the lookup returns the first record with the email, or nothing, and changes nothing |
| `Users.UserService.Create` | src/users/users.service.ts:21-27 | appends exactly one record built from the given fields under an id no earlier record has, returns it, and keeps ids unique |
| `Users.UserService.FindAll` | src/users/users.service.ts:29-34 | returns every stored record in order (empty for an empty table) and changes nothing |
| `Auth.Validated` | src/auth/auth.service.ts:22-35 | the principal of the record found by email (its id, name and email, never the password) is returned exactly when that record exists and the password verifies against its hash; an unknown email, or a failed compare on the found record, gives nothing |
| `Auth.LoginOutcome` | src/auth/auth.service.ts:37-53 | login fails exactly when validation fails, always with Unauthorized "Invalid credentials"; on success the email is the caller's, the id is undefined and the token is signed over the email with no subject |
| `Auth.LoginDoesNotRevealWhichCheckFailed` | src/auth/auth.service.ts:39-42 | an unknown email and a wrong password produce the identical error |
| `Auth.SignupOutcome` | src/auth/auth.service.ts:55-79 | signup fails exactly when a record already has the email, then with Conflict "User already exists" and the table unchanged; otherwise the table grows by one record, with the given email, at the end |
| `Auth.SignupRefusesKnownEmail` | src/auth/auth.service.ts:57-61 | a known email yields Conflict "User already exists" and the table is unchanged |
| `Auth.SignupStoresHashedRecord` | src/auth/auth.service.ts:63-78 | on a new email exactly one record is appended, carrying the name and email and the hash of the password under the fresh id; the result is that record's email, name, id and the token signed over `{email, sub: id}` |
| `Auth.SignupKeepsEmailsUnique` | src/auth/auth.service.ts:55-67 | signup preserves "at most one record per email" |
| `Auth.SignupThenValidates` | src/auth/auth.service.ts:22-67 | given the hash round trip, the credentials just signed up with validate, yielding the new record's principal |
| `Auth.SignupThenLoginLosesId` | src/auth/auth.service.ts:44-50 | as written, login right after signup succeeds, but returns no id and signs a token without a subject, while signup returned the id |
| `Auth.IntendedLoginOutcome` | src/auth/auth.service.ts:37-53 | the corrected login fails exactly when the written one does, with the same Unauthorized error |
| `Auth.IntendedLoginAfterSignup` | src/auth/auth.service.ts:44-51 | with the corrected login, logging in right after signup returns exactly the body signup returned (same id and token) |
| `Auth.AuthService.ValidateUser` | src/auth/auth.service.ts:22-35 | the method computes `Auth.Validated` on the current table and changes nothing |
| `Auth.AuthService.Login` | src/auth/auth.service.ts:37-53 | the method computes `Auth.LoginOutcome` on the current table and changes nothing |
| `Auth.AuthService.Signup` | src/auth/auth.service.ts:55-79 | the result and the new table are `Auth.SignupOutcome` of the old table and the store's next id; the store invariant is kept |
| `AuthController.Login` | src/auth/auth.controller.ts:22-42 | success is wrapped with the route's declared code 200 and "Login successful!" and the service result unchanged; a failure is the very same error |
| `AuthController.Signup` | src/auth/auth.controller.ts:44-67 | success is wrapped with the route's declared code 201 and "Account created successfully!"; a Conflict is rethrown as is, any other error becomes Conflict "User already exists", so signup only fails with Conflict |
| `AuthController.RepeatedSignupConflicts` | src/auth/auth.controller.ts:50-66 | signing up twice with one email: 201 with that email, then Conflict 409 "User already exists" with the table left as after the first |
| `AuthController.WrongPasswordAfterSignupIsUnauthorized` | src/auth/auth.service.ts:37-42 | after signup, a login whose password does not verify against the stored hash fails with 401 "Invalid credentials" |
| `UserController.Rewrap` | src/users/users.controller.ts:23-29 | the rethrown error is an HttpException keeping a non-empty message and a non-zero status, otherwise "An unexpected error occurred" and 500 |
| `UserController.GetProfile` | src/users/users.controller.ts:16-30 | a truthy user is returned verbatim; a falsy one gives 404 "User not found"; a failure while logging is rewrapped; every failure has a non-empty message and a non-zero status |
| `SignupValidation.ValidPassword` | src/auth/dto/signup.dto.ts:24-26 | an accepted password has at least 8 characters, all from `A-Za-z0-9@$!%*#?&` |
| `SignupValidation.Valid` | src/auth/dto/signup.dto.ts:9-30 | an accepted body has a string name, a string email passing the email check, and a string password of at least 8 characters |
| `SignupValidation.PasswordRules` | src/auth/dto/signup.dto.ts:24-26 | a password is accepted exactly when it has at least 8 characters, a letter, a digit, one of `@$!%*#?&`, and only characters from `A-Za-z0-9@$!%*#?&` |
| `SignupValidation.SpaceOrUnderscoreRejected` | src/auth/dto/signup.dto.ts:26 | a space or `_` anywhere rejects the password |
| `SignupValidation.PatternImpliesMinLength` | src/auth/dto/signup.dto.ts:25-26 | the anchored pattern alone already requires 8 characters |
| `SignupValidation.ExampleAccepted` | src/auth/dto/signup.dto.ts:19-30 | the documented example "P@ssw0rd!" is accepted |
| `LoginValidation.ValidPassword` | src/auth/dto/login.dto.ts:17-19 | a password is accepted exactly when it has at least 8 characters, with no character-class rule |
| `LoginValidation.Valid` | src/auth/dto/login.dto.ts:9-19 | an accepted body has a string email passing the email check and a string password of at least 8 characters |
| `LoginValidation.SignupPasswordAccepted` | src/auth/dto/login.dto.ts:17-19 | every password the signup rule accepts is accepted at login |
| `LoginValidation.LoginRuleIsWeaker` | src/auth/dto/login.dto.ts:17-19 | "password" is accepted at login and rejected at signup |
| `CreateUserValidation.ValidPassword` | src/users/dto/create-user.dto.ts:21-23 | an accepted password has at least 8 characters and contains a letter, a digit and one of `@$!%*?&` |
| `CreateUserValidation.Valid` | src/users/dto/create-user.dto.ts:4-27 | an accepted body has string name, username and password, and a password of at least 8 characters |
| `CreateUserValidation.MatchImpliesContains` | src/users/dto/create-user.dto.ts:23 | whenever the unanchored pattern matches, the string contains a letter, a digit and one of `@$!%*?&` |
| `CreateUserValidation.PatternIffContains` | src/users/dto/create-user.dto.ts:23 | on a single-line string the pattern matches exactly when it contains a letter, a digit and one of `@$!%*?&` |
| `CreateUserValidation.MultiLineRejected` | src/users/dto/create-user.dto.ts:21-23 | "aaaa\n1\n@" has 8 characters and all three classes but is rejected |
| `CreateUserValidation.OutsideCharactersAccepted` | src/users/dto/create-user.dto.ts:23 | "ab c1@xyz" is accepted although it holds a space, which the signup rule rejects |
| `CreateUserValidation.HashIsNotSpecial` | src/users/dto/create-user.dto.ts:23 | "Passw0rd#" is rejected here and accepted by the signup rule |
| `CreateUserValidation.ExampleAccepted` | src/users/dto/create-user.dto.ts:17-23 | the documented example "P@ssw0rd" is accepted |

## Left out

- Network, HTTP routing, Swagger, CORS, the global prefix and bootstrap (src/main.ts), the module wiring (src/app.module.ts, src/users/users.module.ts) and environment configuration (src/config/app.config.ts): framework wiring and I/O.
- The custom validation pipe, the JWT guard and strategy, the logging interceptor, the exception filter and the user schema are not part of this model; the schema's fields are taken to be `_id`, name, email, an optional username and password.
- bcrypt's salt generation, cost and constant-time comparison, and token encoding, secret and expiry: hash, compare and sign are abstract parameters.
- Failures of the store, the hasher or the signer (a rejected `save()`, say) are not modelled, so the service's signup fails only with Conflict; the signup route's remapping of any other error is modelled on arbitrary errors.
- The email-syntax check (`@IsEmail`) is an abstract predicate parameter.
- Auth.SignupStoresHashedRecord: states that the stored password is the hasher's output, not that it differs from the plaintext, because the hash is abstract.
- AuthController.WrongPasswordAfterSignupIsUnauthorized: takes the failed compare as a precondition; bcrypt is not assumed to reject every other plaintext, since it reads only the first 72 bytes of a password.
- Logging (every Logger call) is a side effect with no bearing on results, except that `JSON.stringify(req.user)` in the profile route may throw: that is the `stringifyError` parameter of `UserController.GetProfile`.
- Concurrency: each call is atomic and sequential, so the race between signup's existence check and its insert is not modelled.
- Password length is the number of Unicode characters. `@MinLength` measures with validator.js `isLength`, which also counts a surrogate pair as one character but, in validator 13.x, does not count the variation selectors U+FE0E and U+FE0F; the model counts them, so "abcdefg" followed by U+FE0F has 8 characters here and 7 for the validator.
- JavaScript truthiness omits NaN; numbers are integers.
- Object ids are natural numbers from a counter rather than the store's 12-byte ids; only their freshness matters here.

## Findings

| source | as written | input that shows it | evidently intended | confidence | as-written member | corrected member |
|---|---|---|---|---|---|---|
| src/auth/auth.service.ts:44-50 | `login` reads `user._id`, but `validateUser` returns `{id, name, email}` (line 28), so the token's `sub` and the returned `id` are undefined | signup `{name:"Test User", email:"test@example.com", password:"P@ssw0rd1"}` then login with the same email and password | the token's `sub` and the returned `id` are the user's id, as signup returns them | high; not executed | `Auth.SignupThenLoginLosesId` | `Auth.IntendedLoginAfterSignup` |
