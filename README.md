# golang-gin core, modelled in Dafny

This project models the request-handling core of a Gin CRUD demo for videos.
The demo is written in Go and issues JSON Web Tokens. The model covers:

- **Validation-error formatting** (`ValidationErrors`). A validator's multi-line
  message of `Key: '<field>' Error:<text>` lines becomes an ordered list of
  key/error records. The Go loop fills a pre-allocated slice, and here it is a
  method filling an `array`. It is proved equal to a per-line specification
  function. Round trips show that formatting a validator message gives its
  records back.
- **Credential check** (`LoginServices`). This is a fixed user map with
  lookup-and-compare.
- **Token service** (`JwtServices`). It covers:
  - choosing the configuration from the environment;
  - the claims an issued token carries;
  - validation with an HMAC-only key callback.

  Signing and parsing by the golang-jwt library form an abstract `Signer`.
  Its properties (`SoundSigner`, `Unforgeable`, `KeyBound`) are hypotheses
  of the lemmas that need them, and `SignerModelsExist` shows them
  satisfiable. The order of the checks follows version 5 of that library:
  1. A token that does not parse is malformed.
  2. An unknown `alg` makes it unverifiable.
  3. The key callback refuses non-HMAC methods.
  4. The signature is checked.
  5. `exp` and `nbf` are checked against `now` (sections 4.1.4 and 4.1.5 of RFC 7519).

  `iat` is not checked.
- **Bearer gate** (`JwtAuth`). The accept/reject decision is a function,
  `Decide`. The handler is a method over a `Context` class. The class holds
  the request headers, the keys set with `c.Set`, the response written by an
  abort, and whether the chain was aborted or continued.
- **Login handler** (`LoginController`). It produces a 400, a 401 or a token,
  and the route closure then writes the 200.
- **In-memory video service** (`VideoServices`). This is a class with a
  `seq<Video>` field.
- **Entities** (`Entities`). This covers the Person/Video records, the bounds
  their binding tags declare, and the `BeforeCreate` ID hooks. The hooks
  update a record through a `Ref` (Go's pointer receiver).
- **Log colours** (`Logger`). `colorizeMethod` and `colorizeStatus` wrap text
  in ECMA-48 SGR escapes. `Uncolor` reads a wrapped string back.
- **The `is-idx` validator** (`Validators`).

`GoStrings` models the parts of Go's `strings` and `strconv` packages the core
uses:

- `Split`, `SplitN` with limit 2;
- `TrimPrefix`, `TrimSuffix`;
- `TrimSpace`, with Unicode white space;
- `HasPrefix`, `Itoa`.

Strings are sequences of Unicode code points. A Go rune count is therefore a
sequence length here.

Inputs the program takes from its environment are parameters:

- the clock (`now`, in nanoseconds since the Unix epoch);
- the environment variables (a map: an unset variable reads as "");
- `time.ParseDuration` (a function that gives `None` on a parse error);
- `uuid.New` (the `generated` argument of the hooks);
- the result of Gin's JSON binding;
- the library's URL and e-mail validators.

Where the comments or the documentation of the repository disagree with the
code, the model follows the code:

- The gate never checks the `Bearer ` prefix. It drops the first seven
  characters of any non-empty header, whatever they are (`SchemeIgnored`). A
  shorter header makes the slice panic (`ShortHeaderPanics`), and
  `gin.Recovery` turns the panic into a 500.
- Every failed validation gets the same 401 "Invalid or expired token" body.
  There is no separate reply for an expired token and for a malformed one.
- The gate validates with a service built afresh from the environment. It
  does not use the service injected into it.
- `service/login_service_test.go:27` expects `Login("admin", "password")` to be
  false, but the user map at `service/login-service.go:13-16` makes it true.
  `BuiltInAccounts` states the code's behaviour.
- The sample message in the comment at the top of
  `utils/validation-error.go` starts its first line with a space. Such a line
  keeps its `Key: '` prefix, because `TrimPrefix` runs before `TrimSpace`.
  `LineKeyAndError` states that order. The round trips speak of lines that
  start with `Key: '`.

## Model

| member | source | states |
|---|---|---|
| `ValidationErrors.FormatLine` | utils/validation-error.go:27-35 | a line without " Error:" becomes the zero record; the key and error of a line with it are stated by `LineKeyAndError` |
| `ValidationErrors.Formatted` | utils/validation-error.go:24-35 | one record per newline-separated line (newline count + 1), record i being `FormatLine` of line i |
| `ValidationErrors.FormatValidationError` | utils/validation-error.go:23-37 | the returned list is `Formatted(message)`: entry i is the record for line i of the message, in order |
| `ValidationErrors.FillEntry` | utils/validation-error.go:27-35 | entry i becomes the record for its line; the zero record stays if the line has no separator; no other entry changes |
| `ValidationErrors.FormattedLength` | utils/validation-error.go:24-26 | there is one record per newline-separated line (newline count + 1); an empty message gives exactly one zero record |
| `ValidationErrors.FirstSeparator` | utils/validation-error.go:27-27 | SplitN with limit 2 splits at the first " Error:" only: the text before it and everything after it |
| `ValidationErrors.LineKeyAndError` | utils/validation-error.go:27-33 | the key is the text before the first separator with one `Key: '` prefix and one trailing `'` cut, then trimmed; the error is the rest, trimmed, with later separators kept |
| `ValidationErrors.ErrorLine` | utils/validation-error.go:6-7 | the validator's line for a record begins with `Key: '`, ends with the error text, and its length is the sum of the prefix, the key, the quote, the separator and the error |
| `ValidationErrors.LineRoundTrip` | utils/validation-error.go:23-37 | the line `Key: '<k>' Error:<e>` for a trimmed k and e, with k free of separators and newlines and e free of newlines, formats to exactly `{k, e}` |
| `ValidationErrors.MessageRoundTrip` | utils/validation-error.go:23-37 | a newline-joined message of such lines formats to exactly its records, in order |
| `GoStrings.Split` | utils/validation-error.go:24-24 | `strings.Split` on one character gives at least one piece; its count, content and inverse are `SplitCount`, `JoinSplit`, `SplitJoin` |
| `GoStrings.SplitN2` | utils/validation-error.go:27-27 | `strings.SplitN(s, sep, 2)` gives one or two parts; which, and what they hold, is `SplitN2Parts` |
| `GoStrings.TrimPrefix` | utils/validation-error.go:28-28 | with the prefix present, prefix + result is the input; otherwise the input is returned unchanged |
| `GoStrings.TrimSuffix` | utils/validation-error.go:29-29 | with the suffix present, result + suffix is the input; otherwise the input is returned unchanged |
| `GoStrings.TrimSpace` | utils/validation-error.go:32-33 | the result is no longer than the input; what is cut and what is left are `TrimSpaceCuts` |
| `GoStrings.Itoa` | middleware/logger.go:42-42 | `strconv.Itoa` gives non-empty text; that it reads back as the number is `ItoaRoundTrip` |
| `GoStrings.HasPrefix` | validators/is-idx.go:10-10 | `strings.HasPrefix`: true exactly when the prefix fits and matches the string character by character |
| `GoStrings.IsSpace` | utils/validation-error.go:32-33 | `unicode.IsSpace` as `TrimSpace` uses it; among ASCII characters exactly tab, newline, vertical tab, form feed, carriage return and space |
| `GoStrings.Index` | utils/validation-error.go:27-27 | `strings.Index` inside `SplitN`: `Some` exactly when the pattern occurs, at its first occurrence |
| `GoStrings.SplitN2Parts` | utils/validation-error.go:27-27 | `SplitN(s, sep, 2)` gives one part (s itself) exactly when sep does not occur; otherwise two parts around the first occurrence |
| `GoStrings.SplitCount` | utils/validation-error.go:24-24 | `Split` on a character gives one more piece than there are separators |
| `GoStrings.JoinSplit` | utils/validation-error.go:24-24 | joining the pieces of `Split` with the separator gives the input back |
| `GoStrings.SplitJoin` | utils/validation-error.go:24-24 | splitting a join of separator-free pieces gives the pieces back |
| `GoStrings.TrimSpaceCuts` | utils/validation-error.go:32-33 | `TrimSpace` removes only white space at the two ends, and its result has none at either end |
| `GoStrings.TrimSpaceIdempotent` | utils/validation-error.go:32-33 | trimming twice is trimming once |
| `GoStrings.ItoaRoundTrip` | middleware/logger.go:42-42 | `Atoi(Itoa(n)) == n` for every integer, negative ones included |
| `LoginServices.LoginService.Login` | service/login-service.go:22-27 | success implies the username is in the map with exactly that password; an unknown username always fails |
| `LoginServices.NewLoginService` | service/login-service.go:11-20 | the map holds exactly the users "admin" and "user", and their passwords "password" and "userpass" succeed |
| `LoginServices.LoginIsMembership` | service/login-service.go:22-27 | Login is true exactly when (username, password) is an entry of the user map; the map is never changed |
| `LoginServices.BuiltInAccounts` | service/login-service.go:13-27 | with the built-in map, exactly ("admin", "password") and ("user", "userpass") succeed |
| `JwtServices.Getenv` | service/jwt-service.go:29-31 | `os.Getenv`: the variable's value, or "" when it is unset |
| `JwtServices.ExpiryFrom` | service/jwt-service.go:33-44 | a non-empty JWT_EXPIRY_MINS whose value + "m" parses gives that duration; an empty or unparsable one gives 15 minutes |
| `JwtServices.IssuedClaims` | service/jwt-service.go:62-69 | the claims carry the username, the role flag and the service's issuer; exp is now + expiry in whole seconds, rounded down; no nbf and no iat |
| `JwtServices.GenerateToken` | service/jwt-service.go:61-77 | the result is the HS256 signing of `IssuedClaims` under the secret key, or "" when signing fails |
| `JwtServices.NewJwtService` | service/jwt-service.go:27-59 | the chosen key and issuer are never empty |
| `JwtServices.ConfiguredService` | service/jwt-service.go:46-52 | if JWT_SECRET_KEY and JWT_ISSUER are both non-empty, the service uses them with the expiry parsed from JWT_EXPIRY_MINS |
| `JwtServices.DefaultsIgnoreExpiry` | service/jwt-service.go:54-58 | otherwise the key, issuer and expiry are "your-secret-key", "your-app-name" and 15 minutes, whatever JWT_EXPIRY_MINS holds |
| `JwtServices.GenerateEmptyIffSigningFails` | service/jwt-service.go:71-76 | GenerateToken returns "" exactly when signing the HS256 claims fails |
| `JwtServices.NumericDate` | service/jwt-service.go:67-67 | `jwt.NewNumericDate`: the whole second containing the instant (rounded down) |
| `JwtServices.Expired` | service/jwt-service.go:80-80 | the library's exp check inside `jwt.Parse`: never without exp; with it, expired exactly when the current whole second has reached exp |
| `JwtServices.NotYetValid` | service/jwt-service.go:80-80 | the library's nbf check: never without nbf; with it, not yet valid exactly when the current whole second is before nbf |
| `JwtServices.ValidateToken` | service/jwt-service.go:79-92 | a token is accepted exactly when it parses, names an HMAC method, verifies under the service key, and is neither expired nor not yet valid; the claims returned are the decoded ones |
| `JwtServices.ValidateGenerated` | service/jwt-service.go:61-91 | a token the service issued validates under it before expiry, giving HS256, the same username and role flag, the service's issuer, an expiry of now + expiry in NumericDate seconds, and no iat |
| `JwtServices.ExpiredGeneratedRejected` | service/jwt-service.go:61-89 | the same token at or after its expiry instant is refused as expired |
| `JwtServices.OtherKeyRejected` | service/jwt-service.go:79-89 | a token issued under a different secret key fails with an invalid signature |
| `JwtServices.NonHmacRejected` | service/jwt-service.go:80-83 | a token whose header names a registered non-HMAC method is refused by the key callback |
| `JwtServices.AcceptedTokensWereSigned` | service/jwt-service.go:79-91 | every accepted token was produced by signing its claims under the service key |
| `JwtServices.SignerModelsExist` | service/jwt-service.go:71-72 | the signer hypotheses are satisfiable together with a successful HS256 signing of admin claims |
| `JwtAuth.Context.GetHeader` | middleware/jwt-auth.go:14-14 | `c.GetHeader`: the header's value, or "" when the request has none |
| `JwtAuth.Context.Set` | middleware/jwt-auth.go:29-33 | `c.Set`: stores one key and changes nothing else in the context |
| `JwtAuth.Context.AbortWithStatusJson` | middleware/jwt-auth.go:16-24 | `c.AbortWithStatusJSON`: records the status and message and aborts the chain; keys, headers and the Next flag are unchanged |
| `JwtAuth.Context.Next` | middleware/jwt-auth.go:35-35 | `c.Next`: marks the rest of the chain as run and changes nothing else |
| `JwtAuth.Decide` | middleware/jwt-auth.go:13-26 | "Authorization header is missing" exactly for an empty header; a panic exactly for a non-empty header shorter than seven characters; "Invalid or expired token" exactly when validating the rest fails; a header of seven or more characters whose rest validates is accepted with exactly the validated claims, and acceptance happens only then |
| `JwtAuth.WithIdentity` | middleware/jwt-auth.go:28-33 | the keys afterwards are the old keys plus username, is_admin, issuer, expires_at and issued_at |
| `JwtAuth.JwtAuthMiddleware` | middleware/jwt-auth.go:11-38 | the new context follows `Decide`: a refusal writes 401 with its message and aborts without setting keys; acceptance sets the five claim keys and calls Next; a short header panics and leaves the context unchanged; headers never change |
| `JwtAuth.SetIdentity` | middleware/jwt-auth.go:28-33 | the five writes leave the keys as `WithIdentity` of the old keys and change nothing else |
| `JwtAuth.IdentityKeys` | middleware/jwt-auth.go:28-33 | exactly the keys username, is_admin, issuer, expires_at and issued_at are added, each holding its claim: the issuer as a string when set and nil when empty, expires_at and issued_at as numbers or nil; other keys keep their values |
| `JwtAuth.MissingHeaderRejected` | middleware/jwt-auth.go:14-18 | an empty Authorization header is refused with "Authorization header is missing" |
| `JwtAuth.ShortHeaderPanics` | middleware/jwt-auth.go:13-20 | a non-empty header shorter than seven characters panics on the slice |
| `JwtAuth.SchemeIgnored` | middleware/jwt-auth.go:20-20 | any seven leading characters give the same decision as "Bearer " |
| `JwtAuth.InvalidTokenRejected` | middleware/jwt-auth.go:21-26 | every validation error gives the single refusal "Invalid or expired token" |
| `JwtAuth.FreshTokenAccepted` | middleware/jwt-auth.go:20-35 | "Bearer " + a freshly issued token is accepted before expiry; the context gets its username, role flag and issuer, and nil for issued_at |
| `JwtAuth.ExpiredTokenRejected` | middleware/jwt-auth.go:21-26 | the same header at or after the expiry instant is refused |
| `LoginController.Login` | controller/login-controller.go:42-57 | a 400 with the formatted errors exactly for a bind error; the 401 exactly for bound credentials the service refuses; for bound credentials it accepts, `Issued` with the token generated for the username, with the admin flag set exactly for "admin" |
| `LoginController.Respond` | main.go:79-84 | only statuses 200, 400 and 401 are written; a 200 exactly for a non-empty token; nothing exactly when the returned token is "" after a successful login |
| `LoginController.BindErrorGivesBadRequest` | controller/login-controller.go:44-47 | a body that does not bind gives 400 with the formatted errors, and returns "" |
| `LoginController.BadCredentialsRejected` | controller/login-controller.go:49-53 | refused credentials give 401 "Invalid username or password", and return "" |
| `LoginController.TokenOnlyAfterLogin` | controller/login-controller.go:49-56 | a non-empty token is returned only for bound credentials that the login service accepts, and it is the token generated for that username |
| `LoginController.RoleFlag` | controller/login-controller.go:55-55 | the issued token's is_admin claim is true exactly when the username is "admin" |
| `LoginController.OkIffToken` | main.go:79-84 | a non-empty returned token is answered with a 200 whose body `{token}` carries that token |
| `LoginController.AdminScenario` | controller/login-controller.go:42-57 | with the built-in accounts, admin/password yields an admin token (or "" if signing fails), and a wrong password a 401 |
| `VideoServices.VideoService.constructor` | service/video-service.go:14-16 | a new service holds no videos |
| `VideoServices.VideoService.Save` | service/video-service.go:18-21 | the list becomes the old list with the video appended, and the video is returned unchanged |
| `VideoServices.VideoService.GetAll` | service/video-service.go:23-25 | returns the stored list and changes nothing |
| `VideoServices.SaveOrder` | service/video-service.go:14-25 | saving a, b and a again on a new service lists [a, b, a]: order kept, duplicates allowed |
| `Entities.AssignedId` | entity/video.go:38-40 | a nil ID becomes the generated one; any other ID is kept |
| `Entities.PersonBeforeCreate` | entity/video.go:18-23 | only the Person's ID changes, to `AssignedId`; the hook returns nil |
| `Entities.VideoBeforeCreate` | entity/video.go:37-42 | only the Video's ID changes, to `AssignedId`; the hook returns nil |
| `Entities.AssignedIdNonNil` | entity/video.go:37-42 | with a generator that never yields nil, the ID is non-nil afterwards |
| `Entities.AssignedIdIdempotent` | entity/video.go:38-41 | a second hook call changes nothing |
| `Entities.HookTouchesOnlyNilId` | entity/video.go:38-41 | no field but the ID changes, and a non-nil ID is left as it is |
| `Entities.PersonValid` | entity/video.go:11-13 | a person is valid exactly when its name has 2..50 runes, its age is 0..120 and its e-mail is non-empty and accepted by the validator |
| `Entities.VideoValid` | entity/video.go:28-31 | a video is valid exactly when its title has 3..100 runes, its description at most 500, its URL is non-empty and accepted by the validator, and its author is a valid person |
| `Entities.EdgesAccepted` | entity/video.go:11-31 | the bounds themselves are accepted: titles of 3 and 100 runes, a 500-rune description, names of 2 and 50 runes, ages 0 and 120 |
| `Entities.TitleBounds` | entity/video.go:28-29 | the title bounds are exact: cutting a valid title to 2 runes, or extending a 100-rune title, makes the video invalid |
| `Entities.PersonBounds` | entity/video.go:11-12 | the name and age bounds are exact: a 1-rune name, or an age of -1 or 121, makes a valid person invalid |
| `Entities.HookKeepsValidity` | entity/video.go:27-42 | assigning the ID does not change whether a video passes its binding tags |
| `Logger.ColorizeMethod` | middleware/logger.go:23-38 | the result is the colour the method table gives (cyan for names outside it) + the method + reset |
| `Logger.ColorizeStatus` | middleware/logger.go:41-55 | the result is the colour of the status's range + the decimal status + reset |
| `Logger.UncolorWrapped` | middleware/logger.go:26-37 | colour + text + reset reads back as that colour and that text, so the prefix and suffix strip off |
| `Logger.MethodColorsAgree` | middleware/logger.go:23-38 | GET is green, POST blue, PUT yellow, DELETE red and PATCH magenta; every other string is cyan; the method text is kept |
| `Logger.LowerCaseIsCyan` | middleware/logger.go:36-37 | lower-case "get" and "post" are not recognised and come out cyan |
| `Logger.StatusColor` | middleware/logger.go:43-54 | exactly one colour applies to every status: white below 200, green for 200..299, yellow for 300..399, red from 400 on |
| `Logger.StatusRoundTrip` | middleware/logger.go:41-55 | colorizeStatus reads back as the colour of the status's range and the decimal status itself |
| `Validators.FieldValue.String` | validators/is-idx.go:10-10 | `reflect.Value.String`: a string field's contents; for another kind a text 8 runes longer than the type name, starting with "<" (Go's "<T Value>") |
| `Validators.IsIdx` | validators/is-idx.go:9-11 | only string fields can pass; a string field passes exactly when its first four characters are "idx_" |
| `Validators.IdxIffPrefix` | validators/is-idx.go:9-11 | a string field is accepted exactly when its first four characters are "idx_" |
| `Validators.IdxWithAnySuffix` | validators/is-idx.go:10-10 | "idx_" followed by any suffix, the empty one included, is accepted |
| `Validators.ShortRejected` | validators/is-idx.go:10-10 | any string shorter than four characters is refused |
| `Validators.UpperCaseRejected` | validators/is-idx.go:10-10 | the match is case-sensitive: "IDX_" + anything is refused |
| `Validators.OtherKindsRejected` | validators/is-idx.go:10-10 | a field of another kind is refused, since its text starts with "<" |

## Left out

- The HMAC-SHA256 computation, the base64url encoding and the JSON encoding
  of claims inside golang-jwt: the abstract `Signer` replaces them.
- Claim values of other JSON types: tokens whose `username` is not a string,
  for example, or whose JSON numbers are not whole seconds. Decoded claims
  are well-typed here. `MapClaims` holds `exp` as a float64, and here it is
  an integer number of seconds.
- The joined error values golang-jwt returns, such as an unverifiable token
  wrapped together with `ErrSignatureInvalid`. `JwtError` names which check
  failed, and the gate maps every one of them to the same 401.
- Time arithmetic overflow in `time.Now().Add`: instants and durations are
  unbounded integers.
- `time.ParseDuration` is a parameter. Its grammar of decimals, signs and
  unit suffixes is not modelled.
- The panic on a short Authorization header is reported as `panicked`
  rather than unwinding. The 500 that `gin.Recovery` then writes is not
  modelled.
- A header value is a sequence of code points here, but a Go string slice
  counts bytes. A header whose first seven bytes cut a multi-byte character
  is sliced differently. A header of fewer than seven code points but at
  least seven bytes, such as four "é", does not panic in Go, yet `Decide`
  gives `Panicked` for it.
- JwtServices.ValidateToken: `nbf`/`exp` leeway and the optional `iat`,
  audience and issuer checks are off by default in the library and are not
  modelled.
- VideoServices.VideoService.GetAll: Go returns the backing slice, so a
  caller could write through it into the service. The model returns a value
  copy, so this aliasing is not captured.
- The gorm timestamps and the soft-delete column of `entity/model.go`, the
  repository layer, and database persistence: they belong to gorm and
  SQLite.
- The URL and e-mail syntax of the binding tags: the abstract predicates
  `isUrl` and `isEmail` stand for them. A `required` tag on the nested
  `Author` struct adds nothing beyond validating that struct.
- When signing fails after a successful login, no handler writes anything.
  Gin then sends its default 200 with an empty body, and that implicit
  response is not modelled: `Respond` gives `None`.
- JwtServices.Claims: an empty `issuer` stands for both an absent `iss` and
  an explicit `"iss": ""`. For the second, Go's `claims["iss"]` is "", but
  `WithIdentity` stores nil. Also, golang-jwt's `MapClaims` treats a numeric
  `exp` or `nbf` of 0 as absent, so such a token never expires in Go, while
  `Expired` calls `exp` 0 expired.
- JwtServices.KeyBound: distinct keys are promised distinct only when
  neither contains NUL. HMAC pads a short key with zero bytes, so "k" and
  "k" + NUL sign alike. Environment values cannot contain NUL. The model's
  environment is an arbitrary map, and this is not enforced on it. Go's
  crypto/hmac also hashes a key longer than the hash's block (64 bytes for
  HS256, 128 for HS384 and HS512), so such a key and its digest sign alike
  even when both are NUL-free; that is not modelled either.
- JwtAuth.Context.GetHeader: the `headers` map stands for the request's
  header already keyed by canonical name and holding only its first value
  (Gin's `GetHeader` is `http.Header.Get`). Name canonicalisation and
  repeated header lines are not modelled.
- ShouldBindJSON's decoding of the request body: its result is an input
  (`BindResult`).
- `uuid.New` is the `generated` argument. Its reading of random bytes, and
  its panic if that read fails, are not modelled.
- `Logger()` itself (time formatting, padding, latency), `middleware/basic-auth.go`
  and `utils/parse-uuid.go`: these are formatting or thin wrappers over
  library calls.
- The remaining routing and I/O: `main.go` beyond the login route closure,
  `tester.go`, the GraphQL resolver, Swagger and the SQLite setup.
- `controller/video-controller.go`: this is request plumbing around the
  video service. Its registration of `is-idx` is the only part used here.
