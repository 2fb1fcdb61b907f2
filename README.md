# Habit tracker backend: a verified model

This project models the core of a small REST backend for tracking habits. Users register and log in, and each login returns a JSON Web Token (JWT) valid for one hour. An authentication gate (a middleware) admits requests that carry a valid token. Each user can then create, list, read, replace (PUT), partly update (PATCH) and delete their own habits, and nobody else's.

The model covers these parts of the source:

- **Text** (`text.dfy`): the JavaScript string operations the core relies on: `length` in UTF-16 code units, `trim`, `toLowerCase`, containment, `split`.
- **Hasher** and **Tokens** (`hasher.dfy`, `tokens.dfy`): bcrypt and HS256 JWTs, modelled symbolically. A digest can be checked only by comparing against it. A signature can be made only with its key. Verification checks the signature first and the expiry second.
- **HabitModel** and **UserModel** (`habit_model.dfy`, `user_model.dfy`): the two document schemas. They cover:
  - field bounds and defaults, and the per-path validators with their messages
  - the email setters and the email pattern
  - the user document class, whose pre-save hook hashes the password only when it was modified
  - the JSON views, which drop `__v` and `password`
- **HabitService** (`habit_service.dfy`): the habit table as a class over a map. The six operations are its methods. Every access is scoped to the caller, and "not found" is reported before "forbidden". Listings are filtered and ordered newest first.
- **UserService** (`user_service.dfy`): registration and login over the document collection. This collection normalises emails.
- **UserServicePrisma** (`user_service_prisma.dfy`): the compiled relational variant. Its table keys accounts by the raw email.
- **AuthMiddleware** (`auth_middleware.dfy`): from the `Authorization` header to either the claims stored on the request or a 401, 403 or 500 rejection.
- **HabitController** and **UserController** (`habit_controller.dfy`, `user_controller.dfy`): each handler's 401 guard, which runs before the service is called, and its mapping from error name to status.

Ids, bcrypt salts and the clock are parameters of the operations that need them. A failing database driver is the parameter `fault`. With `Some(detail)` the driver throws at the operation's first database call, and the store is left unchanged. The signing secret is a parameter. The gate receives the token library's decoding as the function `verify`.

Where the code and its documentation disagree, the model follows the code:

- The relational registration does not lowercase or trim the email, so two spellings of one address become two accounts (`UserServicePrisma.TableAcceptsRespelling`). The document collection refuses the second spelling (`UserServicePrisma.CollectionRefusesRespelling`).
- PUT keeps the stored description, frequency and active flag when the body omits them. Only the name is required and always replaced.
- The gate ignores the word before the space in the header. Any `<word> <token>` is accepted as `Bearer <token>`.
- In the document registration's catch block, the branch that would rebuild a schema error from its first failed path is unreachable. The test before it already rethrows every error named `ValidationError`. So the schema's aggregated message, "User validation failed: path: message, ...", reaches the client.

## Model

| member | source | states |
|---|---|---|
| Text.Utf16Length | src/services/habit.service.ts:46 | a string's JavaScript length lies between its code-point count and twice that |
| Text.Utf16LengthAppend | src/models/user.model.ts:9-10 | the length of a concatenation is the sum of the lengths |
| Text.TrimShortens | src/services/user.service.ts:42 | trimming never makes a string longer in UTF-16 code units |
| Text.Trim | src/models/user.model.ts:11 | the trim is empty exactly when the string is all whitespace; otherwise neither end of it is whitespace |
| Text.TrimShape | src/models/habit.model.ts:9 | the string is whitespace, then its trim, then whitespace |
| Text.TrimOfPadded | src/models/user.model.ts:19 | a string without whitespace at either end, surrounded by whitespace, trims to itself |
| Text.TrimIgnoresPadding | src/models/user.model.ts:19 | whitespace added around a string does not change its trim |
| Text.TrimIdempotent | src/models/user.model.ts:11 | trimming twice is trimming once |
| Text.LowerLowers | src/models/user.model.ts:18 | the lowered string has no capital letter left; each capital becomes its small letter, and every other character stays where it was |
| Text.LowerIdempotent | src/models/user.model.ts:18 | lowercasing twice is lowercasing once |
| Text.LowerTrimCommute | src/models/user.model.ts:18-19 | the `lowercase` and `trim` setters give the same result in either order |
| Text.ContainsIsInsensitive | src/services/habit.service.ts:97 | a name containing the filter text verbatim also matches it case-insensitively |
| Text.Split | src/middlewares/auth.middleware.ts:29 | `split` on one character yields at least one piece, and no piece contains the separator |
| Text.JoinSplit | src/middlewares/auth.middleware.ts:29 | joining the split pieces gives back the string |
| Text.SplitJoin | src/middlewares/auth.middleware.ts:29 | splitting a join of separator-free pieces gives back those pieces |
| Hasher.Utf8Injective | src/models/user.model.ts:44 | two strings with the same UTF-8 bytes are equal, so the bytes bcrypt receives determine the password |
| Hasher.Key | src/models/user.model.ts:44 | bcrypt's key is the first 72 bytes of the password's UTF-8 encoding, or all of them when there are fewer |
| Hasher.Hash | src/models/user.model.ts:42-44 | the digest records the cost factor; it accepts a candidate exactly when the candidate's 72-byte key is the hashed password's |
| Hasher.ShortPasswordsAreExact | src/models/user.model.ts:52-54 | among passwords of at most 72 bytes, a hash accepts its own password and no other |
| Hasher.LongPasswordsShareHash | src/models/user.model.ts:52-54 | a hash of a password whose first 72 bytes are a given prefix accepts every other password with that prefix |
| Hasher.HashesOfOnePasswordAgree | src/models/user.model.ts:52-54 | hashes of one password under different salts accept the same candidates |
| Tokens.Sign | src/services/user.service.ts:101-105 | the token carries `id`, `email`, `iat = now`, `exp = now + 3600`, and verifies at issuance |
| Tokens.Verify | src/middlewares/auth.middleware.ts:39 | decodes exactly when the signature is the key's and `now < exp`; expired exactly when it is genuine and `exp <= now`; invalid exactly when the signature is wrong |
| Tokens.IssuedTokenVerifies | src/services/user.service.ts:101-105 | during its first hour an issued token decodes to the claims it was issued with |
| Tokens.IssuedTokenExpires | src/services/user.service.ts:104 | from one hour after issuance the token is reported expired |
| Tokens.ForeignKeyRejected | src/middlewares/auth.middleware.ts:39 | a token signed with another key is invalid |
| Tokens.ForgedSignatureRejected | src/middlewares/auth.middleware.ts:39 | a genuine token with its signature replaced is invalid |
| Tokens.AlteredClaimsRejected | src/middlewares/auth.middleware.ts:39 | a genuine signature over altered claims is invalid |
| HabitModel.FrequencyName | src/models/habit.model.ts:17-25 | each frequency's stored name is read back as that frequency |
| HabitModel.FrequencyNameRoundTrip | src/models/habit.model.ts:19-21 | a string read as a frequency is that frequency's name |
| HabitModel.ValidateHabit | src/models/habit.model.ts:3-35 | a habit document validates exactly when the trimmed name is 2 to 100 long, the trimmed description at most 500, the frequency (default "Diário") is in the enumeration, and an owner is given; the document then holds the trimmed values and defaults |
| HabitModel.PaddedNameValidatesTrimmed | src/models/habit.model.ts:4-10 | surrounding whitespace in the name does not change the validation outcome |
| HabitModel.HabitToJson | src/models/habit.model.ts:38-43 | the JSON view drops `__v` and keeps every other field |
| UserModel.NormaliseEmail | src/models/user.model.ts:18-19 | the stored email is no longer than the input and has no whitespace at either end |
| UserModel.NormalFormIsLoweredTrim | src/models/user.model.ts:18-19 | the stored email is the trimmed input in lower case: as long as the trim, empty exactly for an all-whitespace input, with no capital left, each capital replaced by its small letter and every other character kept |
| UserModel.CaseVariantsNormaliseAlike | src/models/user.model.ts:18 | two addresses that differ only in the case of their letters are stored alike |
| UserModel.PaddingNormalisesAway | src/models/user.model.ts:19 | whitespace around an address does not change how it is stored |
| UserModel.SpellingsOfOneAddress | src/models/user.model.ts:18-19 | any case variant of an address, with any whitespace around it, is stored as the address itself |
| UserModel.NormaliseEmailExample | src/models/user.model.ts:18-19 | "Alice@X.com", with any whitespace around it, is stored as "alice@x.com" |
| UserModel.NormaliseEmailIdempotent | src/models/user.model.ts:18-19 | a normalised email is its own normal form |
| UserModel.MatchingEmailShape | src/models/user.model.ts:17 | an address matching the pattern has no whitespace and exactly one `@`, which is neither first nor last |
| UserModel.EmailPatternExamples | src/models/user.model.ts:17 | "alice@x.com" matches, while an address without a dot in the domain or with a space does not |
| UserModel.ValidateUser | src/models/user.model.ts:5-26 | a user document validates exactly when the trimmed name is 3 to 50 long, the normalised email matches the pattern, and the password is at least 6 long; the document then holds the trimmed name and the normalised email |
| UserModel.UserDocument.constructor | src/models/user.model.ts:39-40 | a new document holds the plain password, marked as modified |
| UserModel.UserDocument.Loaded | src/models/user.model.ts:57-59 | a loaded document holds the stored hash, and nothing is marked modified; the document login, being a function, compares through `UserModel.CompareSecret`, the predicate `ComparePassword` is defined by, rather than through this constructor |
| UserModel.UserDocument.SetPassword | src/models/user.model.ts:40 | assigning the password marks it modified, and nothing else changes |
| UserModel.UserDocument.SetName | src/models/user.model.ts:40 | assigning the name leaves the password and its modified flag alone |
| UserModel.UserDocument.Save | src/models/user.model.ts:39-49 | saving hashes the password if and only if it was modified, then clears the flag |
| UserModel.UserDocument.ComparePassword | src/models/user.model.ts:52-54 | a candidate matches only a hashed password, and then exactly when bcrypt accepts it |
| UserModel.HashOnlyWhenModified | src/models/user.model.ts:39-49 | a second save without a password change keeps the hash; setting a new password makes the next save hash the new one |
| UserModel.Select | src/models/user.model.ts:25 | a query result carries the password exactly when it is selected explicitly |
| UserModel.UserToJson | src/models/user.model.ts:29-35 | the JSON view drops `password` and `__v` and keeps every other field |
| HabitService.Rethrow | src/services/habit.service.ts:74-82 | a catch block rethrows an error whose name it lists and replaces any other error with its generic one |
| HabitService.DriverDetailNeverEscapes | src/services/habit.service.ts:114-117 | whatever a failing driver reports, each operation throws only its generic message |
| HabitService.MapFrequency | src/services/habit.service.ts:323-336 | a known frequency name maps to itself, and anything else maps to "Diário" |
| HabitService.UnmapFrequency | src/services/habit.service.ts:338-340 | mapping the returned string gives back the stored frequency |
| HabitService.MapUnmapOnNames | src/services/habit.service.ts:322-340 | on the four names the two maps are inverse; any other input reads back as "Diário" |
| HabitService.View | src/services/habit.service.ts:104-113 | the returned object keeps the id, name, description, active flag, owner and both timestamps, with the frequency as its API string |
| HabitService.PatchGuardAgreesOnSuppliedNames | src/services/habit.service.ts:236-238 | a supplied name is judged the same by the PATCH guard and the create/PUT guard; an absent one is rejected only by create and PUT |
| HabitService.NewHabit | src/services/habit.service.ts:51-59 | a new row keeps the name as given; description defaults to "", frequency to "Diário", active to true; the owner is the caller |
| HabitService.Put | src/services/habit.service.ts:191-199 | PUT replaces the name and each supplied field and keeps each omitted one |
| HabitService.Patch | src/services/habit.service.ts:253-261 | PATCH replaces each supplied field and keeps each omitted one |
| HabitService.PatchWithNameIsPut | src/services/habit.service.ts:191-199 | a PATCH that supplies a valid name is the same update as a PUT |
| HabitService.PatchIdempotent | src/services/habit.service.ts:253-261 | applying the same PATCH twice is applying it once |
| HabitService.EmptyPatchKeepsContent | src/services/habit.service.ts:256-259 | an empty PATCH changes only the update time |
| HabitService.Lookup | src/services/habit.service.ts:127-138 | the caller's own row is found; a missing id is NotFound; someone else's row is Forbidden |
| HabitService.LookupOfOthersHabits | src/services/habit.service.ts:178-189 | another user's habit is Forbidden to the caller and found for its owner |
| HabitService.LookupIsLocal | src/services/habit.service.ts:191-192 | writing or deleting one row does not change the lookup of another |
| HabitService.IsActiveFilterIsExact | src/services/habit.service.ts:95 | any `isActive` filter other than the exact string "true" selects inactive habits only |
| HabitService.NameFilterIgnoresCase | src/services/habit.service.ts:97 | the name filter selects the same habits whatever the case of the filter text or of the name |
| HabitService.Fetch | src/services/habit.service.ts:123-159 | a read gives the lookup's verdict, or the generic error when the driver fails |
| HabitService.InsertNewestFirst | src/services/habit.service.ts:100 | inserting into a newest-first sequence keeps it newest first and adds exactly the new row |
| HabitService.InsertKeepsDistinctIds | src/services/habit.service.ts:100 | inserting a row with a new id keeps the ids distinct |
| HabitService.HabitStore.CreateHabit | src/services/habit.service.ts:36-83 | a missing or short trimmed name is a ValidationError, and a failing driver gives the generic error, both leaving the table unchanged; otherwise exactly the new row is added |
| HabitService.HabitStore.FindMany | src/services/habit.service.ts:100 | the query returns every row satisfying the `where` object, once each, newest first |
| HabitService.HabitStore.GetHabits | src/services/habit.service.ts:88-118 | a listing holds exactly the caller's habits that pass the filters, as views, with distinct ids, newest first |
| HabitService.HabitStore.GetHabitById | src/services/habit.service.ts:123-159 | the owner gets the view, a missing id is NotFound, another user's habit is Forbidden, and a failing driver gives the generic error |
| HabitService.HabitStore.UpdateHabit | src/services/habit.service.ts:164-221 | the name is validated before the lookup; on success only that row changes, as `Put` gives it; on any error the table is unchanged |
| HabitService.HabitStore.PatchHabit | src/services/habit.service.ts:226-283 | only a supplied name is validated; on success only that row changes, as `Patch` gives it; on any error the table is unchanged |
| HabitService.HabitStore.DeleteHabit | src/services/habit.service.ts:288-320 | the owner's delete removes exactly that row; NotFound, Forbidden and driver errors leave the table unchanged |
| HabitService.CreateThenRead | src/services/habit.service.ts:36-159 | a created habit has the default frequency and is active; its owner reads it and lists it alone, and another user is Forbidden |
| UserService.RegisterCatch | src/services/user.service.ts:66-78 | validation and duplicate-email errors, including the schema's, pass through whole; anything else becomes the generic error |
| UserService.LoginCatch | src/services/user.service.ts:117-122 | validation, not-found and wrong-password errors pass through; anything else becomes the generic error |
| UserService.SchemaErrorPassesThroughWhole | src/services/user.service.ts:67-75 | the schema's error reaches the caller with its aggregated message, and a driver's detail never does |
| UserService.OwnErrorsPassThrough | src/services/user.service.ts:118-120 | the service's own errors pass the catch blocks unchanged |
| UserService.RegisterInputError | src/services/user.service.ts:38-48 | the guards run in order: all three fields present, then name at least 3, then password at least 6 |
| UserService.LoginInputError | src/services/user.service.ts:84-86 | login goes ahead exactly when both credentials are present |
| UserService.PaddedShortNameReachesSchema | src/services/user.service.ts:42-44 | a name padded to length 3 passes the service guard and is then rejected by the schema, which trims it |
| UserService.SchemaNamesPassNameGuard | src/services/user.service.ts:42-44 | a name whose trim is at least 3 long passes the service's raw-length guard |
| UserService.AdmitKeepsValid | src/models/user.model.ts:16 | storing a document under its own unused normalised email, with an unused id, keeps emails unique |
| UserService.UserCollection.FindByEmail | src/models/user.model.ts:57-59 | the query finds the document stored under the normalised email, if there is one |
| UserService.UserCollection.Register | src/services/user.service.ts:35-79 | guards, then driver failure, then duplicate normalised email, then schema validation; only success stores a document, with the trimmed name, the normalised email and the hash of the password |
| UserService.UserCollection.Create | src/services/user.service.ts:57-65 | creating a validated document stores exactly it, with the hashed password, and returns it without the password |
| UserService.UserCollection.Login | src/services/user.service.ts:81-123 | in order: guard, driver failure, unknown normalised email, wrong password; on success the reply's user is the account stored under the normalised email (its id, name, email and creation time) and its hash accepts the password, the token's claims are that id and email, the token verifies for an hour, and the reply contains no password |
| UserService.LoginIgnoresEmailSpelling | src/services/user.service.ts:89 | two spellings of an email with the same normal form log in alike |
| UserService.RegisterThenLogin | src/services/user.service.ts:35-123 | an account registers once; it logs in with its password under any spelling of its email, and a password whose first 72 bytes differ is refused |
| UserServicePrisma.TableRegisterCatch | dist/services/user.service.js:71-76 | only validation and duplicate-email errors pass; driver errors become the generic error |
| UserServicePrisma.UserTable.Register | dist/services/user.service.js:40-77 | guards, then driver failure, then duplicate raw email; success stores a row with the raw name and email and the service's own hash |
| UserServicePrisma.UserTable.Login | dist/services/user.service.js:79-114 | the same order and token as the document variant, looked up by the raw email; on success the reply's user is the row stored under that email (its id, name, email and creation time) |
| UserServicePrisma.RegisterThenLogin | dist/services/user.service.js:40-114 | after registering, the password logs in and one whose first 72 bytes differ is refused |
| UserServicePrisma.LongPasswordVariantLogsIn | dist/services/user.service.js:59-91 | registered with a password of more than 72 bytes, the account also logs in with any other password sharing those 72 bytes |
| UserServicePrisma.CollectionRefusesRespelling | src/services/user.service.ts:51-54 | the document collection refuses a second registration under another spelling of the same email |
| UserServicePrisma.TableAcceptsRespelling | dist/services/user.service.js:53-56 | the table accepts another spelling of the same email as a second account |
| AuthMiddleware.TokenOf | src/middlewares/auth.middleware.ts:29 | there is a second space-separated piece exactly when the header has a space, and it contains no space |
| AuthMiddleware.SpaceSplits | src/middlewares/auth.middleware.ts:29 | a string splits into two or more pieces exactly when it contains a space |
| AuthMiddleware.BearerTokenExtracted | src/middlewares/auth.middleware.ts:29 | `<word> <token>` yields the token, whatever the word |
| AuthMiddleware.Authenticate | src/middlewares/auth.middleware.ts:18-69 | each outcome in both directions: no header or an empty one is 401 "missing"; no token after a space is 401 "malformed"; decoded is admitted with the decoded claims; expired is 401; an invalid signature is 403; another verification error is 403; an unreadable header is 500 |
| AuthMiddleware.RejectionStatuses | src/middlewares/auth.middleware.ts:22-67 | every rejection is 401, 403 or 500, and 500 only for an unreadable header |
| AuthMiddleware.SchemeWithoutTokenIsMalformed | src/middlewares/auth.middleware.ts:29-36 | "Bearer" and "Bearer " are malformed, not missing |
| AuthMiddleware.IssuedTokenAdmitted | src/middlewares/auth.middleware.ts:38-41 | a token from login is admitted during its first hour, with its claims |
| AuthMiddleware.ExpiredTokenRejected | src/middlewares/auth.middleware.ts:43-48 | the same token is a 401 "expired" afterwards |
| AuthMiddleware.ForeignTokenRejected | src/middlewares/auth.middleware.ts:50-55 | a token signed with another key is a 403 |
| AuthMiddleware.ProtectedRoute | src/middlewares/auth.middleware.ts:38-41 | when admitted, the claims are stored on the request, `next()` runs once and nothing is sent; otherwise the rejection is sent and the request is untouched |
| HabitController.CallerId | src/controllers/habit.controller.ts:9-12 | a caller exists exactly when the claims are present with a non-empty id |
| HabitController.Catch | src/controllers/habit.controller.ts:27-31 | a tested error name answers 400, 404 or 403 with the error's message; anything else answers 500 with the handler's message |
| HabitController.CreateHabit | src/controllers/habit.controller.ts:7-33 | no caller gives 401; otherwise 201 exactly on success, 400 exactly on a validation error, and 500 otherwise |
| HabitController.GetHabits | src/controllers/habit.controller.ts:38-60 | no caller gives 401; otherwise 200 with the habits and a count equal to their number, or 500 on any error |
| HabitController.GetHabitById | src/controllers/habit.controller.ts:65-90 | no caller gives 401; otherwise 200 on success, 404 exactly on NotFound, 403 exactly on Forbidden, and 500 otherwise |
| HabitController.Saving | src/controllers/habit.controller.ts:95-170 | `updateHabit` and `patchHabit` (`UpdateHabit` and `PatchHabit` both answer through it): no caller gives 401; otherwise 200, 400, 404 or 403 exactly for success, validation, NotFound and Forbidden, and 500 otherwise |
| HabitController.DeleteHabit | src/controllers/habit.controller.ts:175-200 | no caller gives 401; otherwise 200 on success, 404 exactly on NotFound, 403 exactly on Forbidden, and 500 otherwise |
| HabitController.UnauthenticatedIgnoresService | src/controllers/habit.controller.ts:40-43 | without a caller id every handler answers the same 401, whatever the service would do |
| HabitController.HandlersMatchServiceCatches | src/controllers/habit.controller.ts:116-128 | each handler gives 500 exactly for the errors its service operation replaces by its generic one |
| HabitController.FetchStatuses | src/controllers/habit.controller.ts:80-88 | through the store, reading a habit gives 200 to its owner, 404 for a missing id, 403 to another user, and 500 on a driver failure |
| UserController.RegisterResponse | src/controllers/user.controller.ts:4-22 | 201 with the new account exactly on success; 400 on validation; 409 on a taken email; 500 with the fixed message otherwise |
| UserController.LoginResponse | src/controllers/user.controller.ts:24-42 | 200 with the reply exactly on success; 400 on validation; the identical 401 "Credenciais inválidas" exactly for an unknown user or a wrong password; 500 otherwise |
| UserController.UnknownEmailLooksLikeWrongPassword | src/controllers/user.controller.ts:36-38 | through the handler, an unregistered email and a wrong password for a registered one give the same response |
| UserController.DriverFailureIsOpaque | src/controllers/user.controller.ts:40 | a driver failure answers the same 500 whatever the driver reported |

## Left out

- Logging (`logInfo`, `logError`, `console.error`), the HTTP server, routing, CORS, the database connections and environment loading are not modelled. They do not decide any response.
- The secret-length warning in the environment check is not modelled. It only prints.
- Timestamps are the `now` parameter. Ids and bcrypt salts are parameters as well. Real ids are generated by the database, and salts are random.
- bcrypt and HS256 are symbolic: a digest can be checked only by comparing against it, and a signature only by rebuilding it with its key. Cost-factor arithmetic, base64 and the token's string encoding are not modelled.
- Hasher.Hash: collisions are taken not to exist, so a digest accepts exactly the passwords that share the hashed one's 72-byte key. The native library's handling of a NUL byte inside the password, and a lone UTF-16 surrogate's replacement when the string is encoded, are not modelled. The gate takes the decoding as its `verify` parameter.
- Storage faults are modelled only at each operation's first database call. A failure of a later call (the PUT/PATCH `update` after a successful lookup, the `delete` after a lookup, Mongoose's `create` after the duplicate check) is not modelled. The code would turn it into the same generic error.
- Concurrency is not modelled: two registrations racing past the duplicate check and meeting the unique index, and a habit written between lookup and update.
- Request fields are modelled as absent (`undefined`) or a value of the declared type: a string, or a boolean for `isActive`. `null`, numbers, arrays and other JSON values in a string field are not modelled. The code's outcome on them differs by field: `??` replaces a `null` description, frequency or active flag by its default, a `null` or other falsy name fails the name guard with a 400, and a truthy non-string name throws at `trim`, which ends in the generic 500.
- `toLowerCase` is modelled for ASCII and the Latin-1 capitals only. The database's case-insensitive `contains` is read with the same lowercasing. Full Unicode case mapping is not modelled.
- JSON views (`toJSON`) are modelled on maps from field name to value. Mongoose's document-to-object conversion is not modelled.
- `UnauthorizedAccessError` in `src/services/habit.service.ts` is declared but never thrown, so it has no counterpart here.
- The habit schema in `src/models/habit.model.ts` is modelled as a schema on its own. The habit service stores habits through the relational client, which does not run it. That is why the model checks the service's name guard and not the schema's bounds.
- AuthMiddleware.ProtectedRoute: an exception thrown synchronously by `next()` inside the inner `try` would be reported as a 403 "unverifiable". This is not modelled; `next()` is counted, not run.
- AuthMiddleware.Authenticate: the header value the gate cannot split (`NonString`) stands for any value on which `split` throws. What such a value is, is not modelled.
- The compiled copies of the controller, the middleware and the user schema under `dist/` are not modelled, because they duplicate the TypeScript files. The compiled user service is modelled, because it uses a different store.
