# prototype01 core, modelled in Dafny

prototype01 is a scaffold for an e-commerce GraphQL backend in Go (gqlgen, Gin, MongoDB).
Most of it is framework wiring. This project models the self-contained logic in it:

- **Token handling** (`Auth`, `Middlewares`). The code reads a bearer token from the
  `Authorization` header in three slightly different ways:
  - a strict, case-sensitive strip of `"Bearer "`;
  - a lenient strip that keeps the header verbatim when the prefix is missing;
  - a split on single spaces with a case-insensitive scheme.
  The Gin extractor falls back from the header to the `token` query parameter and then to
  the `auth_token` cookie. The stub verifier accepts every token of at least 10 bytes as
  user `user-123`. `AuthMiddleware` adds the user id to the request context when the token
  verifies, and always hands the operation on.
- **Validators** (`Validator`): the password rules, the non-blank rule, the empty-email
  check, and the text of a list of validation errors.
- **Persisted-query cache** (`Cache`): a class over a `map<string, string>` with `Add`
  (which overwrites) and `Get` (which returns a found flag). It also keeps a TTL that is
  stored but never checked.
- **Configuration** (`Config`): the search for a `.env` file, which stops at the first path
  that loads; `getEnv` with its defaults; and the MongoDB URI precedence.
- **Record hooks** (`Models`): `BeforeCreate` and `BeforeUpdate` update the timestamps and
  the id of a record in place.

Modelling conventions:

- A Go string is a Dafny `string` in which each character stands for one byte. So `|s|` is
  `len(s)`, and slicing is byte slicing.
- A `context.Context` is a map from keys to typed values. `context.WithValue` is a map
  update.
- A request is a record of three optional values: the header, the query parameter and the
  cookie. Go reads an absent value as "".
- An `error` result is an `Option<string>`: `None` is nil; otherwise it holds the message.
- Some inputs come from outside and are parameters instead: the clock (`time.Now`), the id
  generator (`primitive.NewObjectID`), the `.env` loader (`godotenv.Load`, one result per
  path), and `mail.ParseAddress`.

Boundaries follow the code. The verifier rejects a token only when `len(token) < 10`, so a
token of exactly 10 bytes is accepted.

Modules: `Wrappers` (Option), `GoStrings` (`strings.Split` and `strings.ToLower` as the
token parse uses them, `strings.TrimSpace` as the non-blank validator uses it, and `Join`,
the closed form of the `strings.Builder` loop that writes a list of validation errors),
`Auth`, `Middlewares`, `Validator`, `Cache`, `Config`, `Models`.

## Model

| member | source | states |
|---|---|---|
| `GoStrings.Split` | internal/auth/auth.go:50 | Always at least one part, and no part contains the separator |
| `GoStrings.SplitJoin` | internal/auth/auth.go:50 | Split undoes Join when no part contains the separator |
| `GoStrings.JoinSplit` | internal/auth/auth.go:50 | Joining the parts with the separator gives back the original string |
| `GoStrings.SplitInTwo` | internal/auth/auth.go:50-51 | Split gives exactly `[a, b]` iff the string is `a + " " + b` and neither part contains a space |
| `GoStrings.JoinConcat` | pkg/validator/validator.go:28-33 | Joining `a + b` puts exactly one separator between the joins of `a` and `b` |
| `GoStrings.ToLower` | internal/auth/auth.go:51 | Keeps the length; lowercases each ASCII letter and leaves every other byte alone |
| `GoStrings.TrimLeft` | pkg/validator/validator.go:74 | Returns a suffix of the input that does not start with white space; everything removed is white space |
| `GoStrings.TrimRight` | pkg/validator/validator.go:74 | Returns a prefix of the input that does not end with white space; everything removed is white space |
| `GoStrings.TrimSpace` | pkg/validator/validator.go:74 | The result is the slice of the input left after removing a run of leading and a run of trailing white space; it neither starts nor ends with white space |
| `GoStrings.TrimSpaceEmpty` | pkg/validator/validator.go:74 | `TrimSpace(s)` is empty iff every byte of `s` is white space |
| `Auth.GetGinContext` | internal/auth/context.go:30-33 | Finds a Gin context iff the key holds a value of the Gin-context type, and returns that value |
| `Auth.GetRequestFromContext` | internal/auth/context.go:20-27 | Finds a request iff the key holds an HTTP-request value, and returns that request |
| `Auth.GetUserIdFromContext` | internal/auth/context.go:45-48 | Finds a user id iff the key holds a string, and returns that string |
| `Auth.TrimBearerLenient` | internal/auth/auth.go:26-34 | The header comes back changed iff it has `"Bearer "` followed by at least one byte; the result is then the non-empty suffix |
| `Auth.ParseAuthorizationHeader` | internal/auth/auth.go:44-56 | An empty header gives ""; the token never contains a space. Its exact value is stated by `Auth.ParseAuthorizationHeaderSpec` |
| `Auth.ParseAuthorizationHeaderSpec` | internal/auth/auth.go:44-56 | A non-empty result `t` means the header is `<scheme> <t>`: the scheme lowercases to "bearer", there is one space, and `t` has no space. Every header of that shape gives exactly `t`; an empty header gives "" |
| `Auth.ParseAcceptsLowerCaseScheme` | internal/auth/auth.go:50-56 | The split parse accepts "bearer x" and returns "x" |
| `Auth.ParseRejectsDoubleSpace` | internal/auth/auth.go:50-56 | The split parse rejects "Bearer  x" (two spaces) and returns "" |
| `Auth.ParseBareScheme` | internal/auth/auth.go:50-56 | A header of only "Bearer " gives the empty token |
| `Auth.VerifyToken` | internal/auth/auth.go:60-77 | Succeeds iff `len >= 10`, with user id "user-123". On failure the id is "". The empty token fails with "empty token provided", checked first. Any other token under 10 bytes fails with "token too short" |
| `Auth.VerifyTokenConstantIdentity` | internal/auth/auth.go:76 | Any two accepted tokens give the same result |
| `Auth.ExtractTokenFromContext` | internal/auth/auth.go:21-57 | A non-empty Gin header gives the non-empty lenient strip of that header ("Bearer " removed when something follows it, the header verbatim otherwise). Otherwise the token comes from the stored request: a non-empty token means that header is `<bearer, any case> <token>`, and every header of that shape gives exactly its token. No Gin context and no request give "" |
| `Auth.Fallback` | internal/auth/auth.go:37-56 | A non-empty result means a request is stored and its header is `<bearer, any case> <result>`; conversely a stored header of that shape around `t` gives exactly `t` |
| `Middlewares.ExtractToken` | internal/api/middlewares/middlewares.go:120-133 | The result is "" or the header is exactly `"Bearer " + result`; an empty header gives "" |
| `Middlewares.ExtractTokenRoundTrip` | internal/api/middlewares/middlewares.go:127-130 | For every non-empty `t`, `extractToken` of the header `"Bearer " + t` gives `t` |
| `Middlewares.ExtractTokenRejects` | internal/api/middlewares/middlewares.go:127-132 | The strict strip gives "" iff the header lacks the case-sensitive "Bearer " followed by at least one byte; "bearer abcdefghij" and "Bearer " alone are such headers |
| `Middlewares.ExtractTokenFromGin` | internal/api/middlewares/middlewares.go:136-157 | The result is empty iff header, query and cookie are all empty. It is the stripped header, the query value or the cookie |
| `Middlewares.ExtractTokenFromGinPrecedence` | internal/api/middlewares/middlewares.go:138-156 | A non-empty header beats the query, which beats the cookie. A header without the prefix is returned verbatim; a prefixed one is stripped |
| `Middlewares.StrictAgreesWithLenient` | internal/api/middlewares/middlewares.go:128-129 | When the strict strip finds a token, the lenient strip and the Gin extractor find the same token |
| `Middlewares.StrictDiffersFromLenient` | internal/api/middlewares/middlewares.go:139-145 | On a non-empty header without the prefix, the strict strip gives "" and the lenient one gives the header |
| `Middlewares.ParsesAgreeOnCanonicalHeader` | internal/api/middlewares/middlewares.go:127-130 | All three parses return `t` for the header `"Bearer " + t` when `t` is non-empty and has no space |
| `Middlewares.ParsesDisagreeOnSpaces` | internal/api/middlewares/middlewares.go:127-130 | On "Bearer  x" the strict strip gives " x" while the split parse gives "" |
| `Middlewares.PresentedToken` | internal/api/middlewares/middlewares.go:73-97 | A Gin context wins: its token is the Gin extractor's, whatever request is stored. Without one, the stored request's strict strip; with neither, "" |
| `Middlewares.Authenticates` | internal/api/middlewares/middlewares.go:78-81 | An authenticating request always verifies as user "user-123" with a nil error |
| `Middlewares.AuthenticatesIffLongToken` | internal/api/middlewares/middlewares.go:78-81 | The middleware authenticates iff the presented token is at least 10 bytes long |
| `Middlewares.AuthMiddleware` | internal/api/middlewares/middlewares.go:70-117 | `next` is called exactly once. On success the context passed on is the input plus `UserIdContextKey` set to the verifier's id ("user-123"). Otherwise it is the input unchanged. On the non-Gin path the stored request stays under `RequestContextKey` |
| `Middlewares.AuthMiddlewareOnlyAddsUserId` | internal/api/middlewares/middlewares.go:83-115 | Only the user-id key can be added or replaced; every other entry is passed on unchanged. A user id present afterwards was either authenticated or already there |
| `Validator.Format` | pkg/validator/validator.go:32 | The entry is the field, then ": ", then the message, with nothing else |
| `Validator.Formatted` | pkg/validator/validator.go:32 | One entry per error, in list order, each `Field + ": " + Message` |
| `Validator.ErrorText` | pkg/validator/validator.go:21-35 | Empty iff there are no errors; otherwise it begins with "Validation errors: " |
| `Validator.Error` | pkg/validator/validator.go:21-35 | The builder loop produces `ErrorText`: "" for no errors, otherwise the heading followed by the formatted entries joined by ", " |
| `Validator.ErrorTextSingle` | pkg/validator/validator.go:26-32 | One error reads "Validation errors: <field>: <message>" |
| `Validator.ErrorTextAppend` | pkg/validator/validator.go:28-33 | Appending an error to a non-empty list appends ", " and its formatted entry |
| `Validator.ErrorTextConcat` | pkg/validator/validator.go:28-33 | For non-empty lists, the entries of the second follow those of the first after one ", " |
| `Validator.ValidateEmail` | pkg/validator/validator.go:38-49 | "" fails with "email cannot be empty". A non-empty address passes iff the address parser accepts it; otherwise it fails with "invalid email format" |
| `Validator.MatchString` | pkg/validator/validator.go:58-66 | A one-byte character-class regexp matches iff some byte of the string is in the class |
| `Validator.ValidatePassword` | pkg/validator/validator.go:52-70 | Passes iff the length is at least 8 and the password has an ASCII `A-Z` and an ASCII `0-9`. The first failing rule, in the order length, upper case, digit, decides the message. Each message is given iff its rule is the first to fail |
| `Validator.ValidateNonEmpty` | pkg/validator/validator.go:73-78 | Fails iff the value is all white space (or empty), with the message `field + " cannot be empty"` |
| `Cache.InMemoryCache.constructor` | internal/api/cache/cache.go:18-23 | A new cache is empty and keeps the given TTL |
| `Cache.InMemoryCache.Add` | internal/api/cache/cache.go:26-31 | The new map is the old one with `key` set to `value` (overwriting); the TTL is unchanged |
| `Cache.InMemoryCache.Get` | internal/api/cache/cache.go:34-40 | Found iff the key is present; the stored value if found, "" if not. It has no `modifies` clause, so it changes neither the map nor the TTL |
| `Cache.FreshCacheIsEmpty` | internal/api/cache/cache.go:18-39 | `Get` on a fresh cache returns `("", false)` |
| `Cache.AddThenGet` | internal/api/cache/cache.go:29-38 | After `Add(k, v1)`, `Get(k)` returns `(v1, true)`; after a further `Add(k, v2)` it returns `(v2, true)` |
| `Cache.AddKeepsOthers` | internal/api/cache/cache.go:29 | `Add` leaves every other key's entry unchanged; the key set only grows, by the added key |
| `Cache.AddIdempotent` | internal/api/cache/cache.go:29 | Adding the same entry twice leaves the state that adding it once does |
| `Config.OsGetenv` | internal/config/config.go:83 | A set variable gives its value; an unset one gives "" |
| `Config.GetEnv` | internal/config/config.go:82-88 | A variable that is set and non-empty gives its value; an unset or empty one gives the default |
| `Config.MongoUri` | internal/config/config.go:66 | `MONGODB_URI` if non-empty, else `MDB_MCP_CONNECTION_STRING` if non-empty, else "mongodb://localhost:27017" |
| `Config.BuildConfig` | internal/config/config.go:69-78 | Each field comes from its variable with its default, and no field is ever empty |
| `Config.DefaultConfig` | internal/config/config.go:29-34 | With no variable set, the config is port "8080", URI "mongodb://localhost:27017", database "ecommerce", env "development" |
| `Config.DotEnvPaths` | internal/config/config.go:39-44 | Four paths in order: ".env", "../.env", "../../.env", then `$PWD + "/.env"` |
| `Config.SearchDotEnv` | internal/config/config.go:49-58 | The attempts are a prefix of the paths in order. Every attempt but the last failed. If the last one loaded, `loadedPath` is that path and no later path was tried. Otherwise every path was tried and `loadedPath` is "". `loadErr` is the error of the last failed attempt, or nil when none failed |
| `Config.Load` | internal/config/config.go:37-79 | Always returns the built configuration and a nil error, whether or not a `.env` file loaded |
| `Models.IsZero` | internal/domain/models/base.go:24 | An id is zero iff it equals the nil ObjectID |
| `Models.BaseModel.constructor` | internal/domain/models/base.go:11-15 | A record holds the id and the two timestamps it is given |
| `Models.BaseModel.BeforeCreate` | internal/domain/models/base.go:18-27 | Both timestamps become the same `now`. A zero id is replaced by the generated id; a non-zero id is kept |
| `Models.BaseModel.BeforeUpdate` | internal/domain/models/base.go:30-32 | Only the update time changes, to `now`; the id and the creation time stay |
| `Models.CreateThenUpdate` | internal/domain/models/base.go:18-32 | Creating then updating assigns the id once (non-zero when the generator's id is), keeps the creation time and sets the update time |

## Left out

- Validator.ValidateNonEmpty: white space is ASCII only (tab, newline, vertical tab, form feed,
  carriage return, space). Go's `strings.TrimSpace` also trims Unicode spaces such as
  U+0085 and U+00A0, so a value made only of those passes here but fails in Go.
- GoStrings.ToLower: lowers ASCII letters only. For the one comparison that uses it
  (against "bearer"), no non-ASCII character lowers to one of those letters, so accept and
  reject are unchanged.
- Validator.ValidateEmail: the address syntax check is `mail.ParseAddress` from the Go standard
  library. The model takes it as a parameter and does not describe it.
- `Load`: reading a `.env` file and setting the variables it holds (`godotenv.Load`) are
  file I/O. The loader is a parameter that gives one result per path. The environment the
  configuration is built from is taken as given, so the variables a loaded file would add
  to it are not modelled.
- `Load`: the log lines and `os.Getwd` are I/O and are left out. The list of attempted
  paths stands for the "Attempting to load" lines.
- Cache: the `sync.RWMutex` and concurrent callers are left out; `Add` and `Get` are
  sequential. No TTL expiry is modelled, because the code never enforces the TTL. The
  unused `context.Context` argument of `Add` and `Get` is dropped.
- `AuthMiddleware`: the log lines and the GraphQL response that `next` produces are left
  out. The model returns the context handed to `next` and the number of calls to `next`.
  A nil `*gin.Context` stored under the Gin key (which would make Go panic) is not
  modelled, here or in `ExtractTokenFromContext`, which reads the same value.
- Go's `context.Context` itself, the deprecated `UserIDKey` lookup and
  `getRequestFromContext` in `internal/auth/auth.go` are not part of this model. Context
  lookups are map lookups.
- `OperationMiddleware` and `ResponseMiddleware` depend on the clock and on gqlgen's
  operation statistics; they are left out.
- `BeforeCreate` and `BeforeUpdate`: `time.Time` is an abstract instant (an integer). The
  clock and `primitive.NewObjectID` are parameters.
- Process bootstrap, GraphQL wiring, the MongoDB connection, the logger, the HTTP
  middleware (CORS, recovery, request logging), the resolvers and the JSON/time utilities
  are framework calls or I/O and are outside this model.
