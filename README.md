# URL shortener core, modelled in Dafny

This project models the core of a Go URL shortener. It has four parts:

- **Shortener service.** It looks up an existing key for a long URL. If there is none, it derives a new key from a generated id, saves the (key, long URL) pair, and builds `host + "/" + key`. Retrieval by key passes the repository's answer through unchanged.
- **Mapping store.** It holds the `urls` table of (encoded_key, long_url) rows. It turns the database driver's answers into a key, the empty key, `ErrNotFound` or `ErrUnexpected`.
- **Error-to-status decision.** This is the status choice of the error-handling middleware.
- **Health service.** It reports `{"postgres": ok}` from one ping.

Modules, one per source component:

- `GoErrors` (`errors.dfy`): the sentinels `ErrUnexpected`, `ErrNotFound` and `ErrBadRequest`, plain errors and wrapped errors. It also holds `errors.Is`, error messages, and `Option`/`Result`.
- `NetUrl` (`neturl.dfy`): `url.URL` and the `url.Parse` parser. The parser is a parameter, a partial function from text to URL.
- `KeyCodec` (`key_codec.dfy`): the UTF-8 bytes of the id and unpadded base64url. The alphabet is the one in section 5 of RFC 4648, and padding is omitted as section 3.2 allows. The encoding is cut to 7 symbols. A decoder is included as the encoder's proved inverse.
- `Repository` (`repository.dfy`):
  - `FindEncodedKey`, `FindLongURL` and `SaveURL` are functions of the driver's answer (`QueryOutcome`, `ExecOutcome`).
  - The `urls` table lives in the class `Database`. The class has `rows`, a `failure` that makes every statement and ping fail with a driver detail, a `writeFailure` that makes only INSERTs fail, and a ghost log of every INSERT it was sent.
- `Service` (`shortener_service.dfy`):
  - `Shorten` is one Shortener call as a function of the table before it.
  - `ShortenerService.Shortener` performs the steps in the source's order against the `Database` and an `IdGenerator`. It is proved to agree with `Shorten`.
  - The lemmas cover dedup, the new-key path, the round trip, idempotence and the table invariant.
- `ErrorHandler` (`error_handler.dfy`): the status and body chosen from the attached errors.
- `Health` (`health_service.dfy`): the health report.

Where the code and its tests disagree, the model follows the code:

- The middleware gives 400 for `ErrNotFound`, where its test expects 404.
- `buildShortURL` inserts only `"/"` between host and key. The unit test configures the host `http://host-url.com` (`internal/service/shortener_service_test.go:61`) yet expects paths under `/api/v1/` (lines 39 and 55); those expectations are stale. Only the deployed host carries `/api/v1` (`test/integration/shortener_controller_test.go:24`).
- The repository returns the bare sentinels, where its tests expect wrapped messages.
- The service's repository interface takes the long URL as a `string`, where the test mock takes a `url.URL`.

## Model

| member | source | states |
|---|---|---|
| KeyCodec.Utf8 | internal/service/shortener_service.go:39 | `[]byte(id)`: the UTF-8 bytes of the id, at least one byte per character |
| KeyCodec.Encode | internal/service/shortener_service.go:39 | unpadded base64url has exactly ceil(4n/3) symbols for n bytes |
| KeyCodec.EncodeAlphabet | internal/service/shortener_service.go:39 | every symbol of the encoding is in `A-Z a-z 0-9 - _`, so never `=` |
| KeyCodec.DecodeEncode | internal/service/shortener_service.go:39 | the encoding loses nothing: decoding it gives back the bytes |
| KeyCodec.EncodeAppend | internal/service/shortener_service.go:39 | the encoding works group by group: a prefix of 3k bytes encodes on its own |
| KeyCodec.DeriveKey | internal/service/shortener_service.go:38-42 | the new key is the prefix of length min(7, encoded length) of the id's encoding, with URL-safe symbols only |
| KeyCodec.DeriveKeyEmpty | internal/service/shortener_service.go:38-42 | the key is empty exactly when the generated id is empty |
| KeyCodec.KeyUsesSixBytes | internal/service/shortener_service.go:40-42 | only the id's first six bytes reach the key: ids that share them collide |
| KeyCodec.KeyOfRandomPrefix | internal/service/shortener_service.go:38-42 | every id starting with "random" gets the key "cmFuZG9" |
| KeyCodec.KeyOfTestId | internal/service/shortener_service_test.go:50-62 | the id "random-generated-uuid" gets the key "cmFuZG9" |
| Repository.FindEncodedKey | internal/repository/shortener_repository.go:28-43 | a row gives its key; "no rows" gives `("", nil)`; any other failure gives ErrUnexpected |
| Repository.FindLongURL | internal/repository/shortener_repository.go:45-67 | "no rows" gives ErrNotFound and nothing else does; a failed query or an unparsable stored text gives ErrUnexpected; success gives the parsed stored text |
| Repository.SaveURL | internal/repository/shortener_repository.go:69-79 | nil exactly when the INSERT succeeded, otherwise ErrUnexpected |
| Repository.DetailIsDropped | internal/repository/shortener_repository.go:38-39 | the driver's detail never reaches the caller: results are the same whatever the detail |
| Repository.SelectKey | internal/repository/shortener_repository.go:29-32 | the lookup by long URL returns the key of the first row holding it, or "no rows" exactly when no row holds it |
| Repository.SelectLongUrl | internal/repository/shortener_repository.go:46-49 | the lookup by key returns the long URL of a row holding the key, or "no rows" exactly when no row holds it |
| Repository.InsertRow | internal/repository/shortener_repository.go:70-72 | the INSERT appends exactly one row unless the driver fails or the key is taken, and it keeps keys unique |
| Repository.SelectLongUrlOfRow | internal/repository/shortener_repository.go:46-49 | with unique keys, the lookup by a stored key returns that row's long URL |
| Repository.Database.Ping | internal/service/health_service.go:20 | the ping fails exactly when the database is failing |
| Repository.Database.ExecFailure | internal/repository/shortener_repository.go:72-75 | an INSERT fails at the driver exactly when the database is failing or writes are failing |
| Repository.Database.Insert | internal/repository/shortener_repository.go:72 | the table becomes what InsertRow says under the INSERT's own driver failure, the INSERT is logged, and keys stay unique |
| Service.BuildShortUrl | internal/service/shortener_service.go:61-69 | parses exactly host + "/" + key; a parse failure is the fixed error "failed to build short URL" |
| Service.ControlCharKeyFails | internal/service/shortener_service.go:61-66 | a key with a control character never builds a short URL, given that url.Parse refuses control characters |
| Service.BellKeyFails | internal/service/shortener_service_test.go:27-33 | the key "\x07" gives the error "failed to build short URL" |
| Service.Shorten | internal/service/shortener_service.go:28-50 | one Shortener call keeps the table's keys unique |
| Service.LookupErrorStops | internal/service/shortener_service.go:29-32 | a failing lookup returns its error: no id is taken, nothing is saved, the table is unchanged |
| Service.ExistingKeyReused | internal/service/shortener_service.go:34-36 | a stored long URL gets buildShortURL of its key: no id is taken, nothing is saved |
| Service.NewKeySaved | internal/service/shortener_service.go:34-49 | when the lookup answers the empty key (no row, or a stored empty key), the call takes one id and issues exactly one INSERT of (derived key, unchanged long URL); a driver failure of the INSERT or a taken key gives ErrUnexpected with the table unchanged and no short URL built; otherwise the row is appended and the short URL built |
| Service.StoredEmptyKeyReadsAsAbsent | internal/service/shortener_service.go:34-47 | a stored empty key reads as absent: a new id is taken and another INSERT issued; with the empty id again it collides and fails with ErrUnexpected, with a fresh key it adds a second row for the long URL |
| Service.NewKeyShape | internal/service/shortener_service.go:38-42 | a generated key is a prefix of length min(7, encoded length) of the id's encoding and is URL-safe |
| Service.ShortenErrors | internal/service/shortener_service.go:28-50 | Shortener fails only with ErrUnexpected or the build failure |
| Service.ShortenKeepsInvariant | internal/service/shortener_service.go:34-47 | sequential calls with non-empty ids keep keys unique and non-empty, with at most one row per long URL |
| Service.ShortenThenRetrieve | test/integration/shortener_controller_test.go:21-24 | round trip: after a successful Shortener call for L, looking up its key yields L as parsed |
| Service.ShortenTwice | internal/service/shortener_service_test.go:34-39 | shortening the same URL again gives the same result, takes no id and saves nothing |
| Service.UnknownKeyNotFound | internal/repository/shortener_repository.go:50-53 | a key that is not stored is reported as ErrNotFound |
| Service.IdGenerator.Next | internal/service/shortener_service.go:38 | each call hands out the next id and counts one use |
| Service.ShortenerService.Shortener | internal/service/shortener_service.go:28-50 | the ordered effects (lookup, at most one id, at most one INSERT) give Shorten's result, table, INSERT log and id count, with the lookup meeting the database's failure and the INSERT its write failure |
| Service.ShortenerService.Retrieve | internal/service/shortener_service.go:52-59 | returns the repository's URL or error for the key, unchanged |
| ErrorHandler.StatusFor | internal/middleware/error_handler.go:19-25 | 400 exactly when the error is or wraps ErrBadRequest or ErrNotFound, otherwise 500 |
| ErrorHandler.Respond | internal/middleware/error_handler.go:14-28 | no response when no error was attached; otherwise the last error's status and `{"error": <its message>}` |
| ErrorHandler.OnlyLastErrorCounts | internal/middleware/error_handler.go:16 | errors attached before the last one change nothing |
| ErrorHandler.WrappingKeepsStatus | internal/middleware/error_handler.go:20-21 | any depth of wrapping keeps the wrapped error's status |
| ErrorHandler.CoreErrorStatuses | internal/middleware/error_handler.go:20-25 | bad request and not found are 400 (not 404); ErrUnexpected and the build failure are 500 |
| Health.Health | internal/service/health_service.go:17-24 | the map has exactly the key "postgres", true exactly when the ping returned nil, and the error is always nil |
| Health.HealthOfDatabase | internal/service/health_service.go:20-21 | the report is healthy exactly when the database is not failing |

## Left out

- HTTP glue: the gin controllers, JSON binding, redirects, `c.Next()` and `c.JSON`. `Respond` takes the errors as they stand after the downstream handlers have run. `cmd/main.go` never installs the middleware, and that wiring is not part of this model.
- Process wiring and configuration: viper, routes, server start, and the Postgres client and DSN.
- The web UI, and the load and integration harnesses. The integration test is cited only as evidence for the round trip.
- `url.Parse` and `url.URL.String()`. The parser is a parameter. Only its refusal of control characters is stated, as a hypothesis (`RejectsControlChars`). `Url` keeps only scheme, host and path.
- UUID generation. It is an injected sequence of ids (`IdGenerator`). `cmd/main.go:31` passes `uuid.New().String`, a method value bound to one UUID, so the deployed service is handed the same id on every call; that constant sequence is one of the generators the model admits, and `Service.NewKeySaved` then gives ErrUnexpected for every new long URL after the first.
- Context cancellation, `slog` logging and SQL text. A cancelled statement is one more driver failure.
- The check-then-insert race between concurrent first-time shortenings. Calls are modelled one at a time.
- The database schema. It is not in the source. `encoded_key` is taken to be the table's unique key, so a duplicate INSERT fails with a driver error. The lookup by long URL returns the first matching row in insertion order.
- Go strings that are not valid UTF-8. Strings are sequences of Unicode scalar values.
- Service.ShortenTwice and Service.ShortenKeepsInvariant: they require non-empty ids and a table without empty keys. A stored empty key reads as absent (`internal/service/shortener_service.go:34`), so each later call for that long URL takes a new id and tries another INSERT: it adds a second row for the long URL or, with the empty id again, fails with ErrUnexpected (`Service.StoredEmptyKeyReadsAsAbsent`).
- Health.Health: "Ping is called exactly once" is captured only as Health being a function of a single ping outcome.
