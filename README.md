# User CRUD microservice: service, handlers, metrics writer and configuration

This project models the sequential core of a small Go HTTP service that keeps users
(`id`, `name`, `email`) in an object store, and proves properties of that model:

- **`Service`**: the `UserService` over a `Storage[User]`. It assigns a fresh id on
  create and keys every user as `"user:" + id`. A store `KeyNotFound` becomes
  `ErrUserDoesNotExist`, and every other store error is wrapped with the operation's
  context. An update with an empty id is refused before the store is touched.
- **`Storage`**: the `Storage[T]` contract (`Set`, `Get`, `GetAll`, `Delete`), realised as a
  `MapStorage<T>` class over a `map<string, T>` field. Its `failure` field is an error
  oracle: while it holds an error, every call returns that error and changes nothing.
- **`Middleware`**: the status-capturing response writer. `WriteHeader` stores its code
  and `Write` swaps 0 for 200. `CollectRequestsMetrics` does the per-request counter
  bookkeeping. The recorded status is a left fold (`Replay`) over the calls the writer
  received, and `Valid()` ties the `statusCode` field to that fold.
- **`Response`**: `response.Write`. It sets the JSON content type, writes the status once
  (0 becomes 200), and then encodes the body only for a non-nil object.
- **`Handler`**: the five user handlers, the path-id check and the input validator. They
  write through the interceptor, and every handler states exactly which calls it appends
  to the writer, what happens to the store and to the notifier, and which status ends up
  recorded.
- **`Config`**: the `envOrDefault` / `intEnvOrDefault` fallbacks `main` uses, the TLS flag,
  and the read-header timeout (an int64 product that wraps on overflow).
- **`Strconv`**, **`Http`**, **`Model`**, **`Wrappers`**: small stand-ins. `Strconv` is a
  decimal `Atoi`/`Itoa` with Go's 64-bit range rules. `Http` is a `ResponseWriter` that keeps
  the calls it receives. `Model` holds the `User` record, and `Wrappers` holds `Option`,
  `Result` and `Outcome`.

Foreign calls are parameters of the model:
- `uuid.New` is `UserService.newUuid`, the k-th id generated. It is assumed injective and
  non-empty, which is the uniqueness random UUIDs give.
- `uuid.Parse` is `UserHandler.isUuid` and `mail.ParseAddress` is `UserHandler.parseAddress`.
  Both are arbitrary, except for two facts of those libraries that the handlers rely on:
  both reject the empty string.
- The JSON decoder's result is the `Request.body` value.
- The process environment is a `map<string, string>`.

Facts of the code that shape the model:
- `WriteHeader` stores its code unconditionally (server/middleware/metrics.go:46-48), so the
  last `WriteHeader` wins (`Middleware.LastWriteHeaderWins`). Only `Write` is guarded by the
  compare-and-swap from 0 (server/middleware/metrics.go:51-52).
- `UserService.Update` never returns `ErrUserDoesNotExist` (service/user.go:98-114), so the
  404 branch of the update handler (server/handler/user.go:188-196) cannot run. The model
  keeps that branch as an `assert false` that verifies, and `Handler.UserHandler.Update`
  ensures the recorded status is never 404.
- The validator returns `true` after writing one 400 for an unparseable address, or two for
  an empty one (server/handler/user.go:269-291; `Handler.UserHandler.ValidationResponses`).
  `Create` and `Update` then still call the service and write one more response: 201 or
  200, or 500 when the store fails. The interceptor records
  that later status, so the request is counted under its final 201, 200 or 500, and an
  email problem by itself never makes it an error (`Handler.UserHandler.Create`'s status
  clauses, `Middleware.LastWriteHeaderWins`).

## Model

| member | source | states |
|---|---|---|
| Service.StorageKey | service/user.go:133-135 | the key is the prefix `user:` followed by the id; the id can be read back from the key |
| Service.StorageKeyInjective | service/user.go:133-135 | distinct ids give distinct storage keys |
| Service.UserService.GenerateID | service/user.go:129-131 | the id is non-empty and was never handed out before; it joins the issued ids |
| Service.UserService.constructor | service/user.go:32-40 | a service over the given store, with no ids issued yet; it takes the id source as injective and never empty, the uniqueness random UUIDs give |
| Service.UserService.Create | service/user.go:48-65 | the caller's id is discarded and the next fresh id assigned; the created user is stored under `"user:" + id`; on a store error the input user comes back with the error wrapped as "failed to create user" and the store is unchanged |
| Service.UserService.Get | service/user.go:67-82 | success exactly when the store is up and holds the key; `ErrUserDoesNotExist` exactly for a store `KeyNotFound` or an absent key; every other store error is wrapped as "failed to get user" |
| Service.UserService.GetAll | service/user.go:84-96 | every stored user exactly once, as many as there are keys; an empty store gives an empty list, not an error; a store error is wrapped |
| Service.UserService.Update | service/user.go:98-114 | an empty id gives `ErrMissingUserID` and leaves the store unchanged whatever the store would do; a non-empty id overwrites `"user:" + id` with no existence check; `ErrUserDoesNotExist` never comes back |
| Service.UserService.Delete | service/user.go:116-127 | removes exactly the key `"user:" + id` and nothing else; an absent key is not an error; a store error is wrapped and changes nothing |
| Service.CreateThenGet | service/user.go:56-81 | `Get` of the id `Create` assigned returns the user `Create` returned, which is the input with a fresh non-empty id |
| Service.CreateTwice | service/user.go:56-64 | two creates of the same input give different ids and both users stay stored |
| Service.DeleteThenGet | service/user.go:72-76 | after a successful delete `Get` gives `ErrUserDoesNotExist`, and a second delete is not an error |
| Service.Notifier.Send | service/notifier.go:19-25 | the dispatched payload is the caller's attributes (an empty map for nil) with `message` set to the message, overriding any attribute of that name |
| Storage.MapStorage.Set | service/user.go:21 | overwrites the value under the key, or returns the store's error and changes nothing |
| Storage.MapStorage.Get | service/user.go:22 | the stored value; an absent key is `KeyNotFound`, told apart from a store failure |
| Storage.MapStorage.GetAll | service/user.go:23 | lists every key once with its value, or returns the store's error |
| Storage.MapStorage.Delete | service/user.go:24 | removes the key; an absent key is not an error |
| Storage.EnumerationSize | service/user.go:89 | a listing has as many users as the store has keys, so an empty store lists nothing |
| Middleware.ReplayAppend | server/middleware/metrics.go:46-55 | the recorded status after two runs of calls is that of the second run started from the first's result |
| Middleware.ReplayWithoutHeader | server/middleware/metrics.go:51-52 | without `WriteHeader`, a status stays as it is, except that 0 becomes 200 exactly when some `Write` happens |
| Middleware.NothingWrittenIsZero | server/middleware/metrics.go:43 | `WrittenStatus` is 0 when neither `WriteHeader` nor `Write` was called |
| Middleware.WriteWithoutHeaderIsOk | server/middleware/metrics.go:51-52 | a `Write` with no `WriteHeader` at all records 200 |
| Middleware.LastWriteHeaderWins | server/middleware/metrics.go:46-55 | the last `WriteHeader(c)` decides the status: any number of later writes leave a non-zero `c`, and they turn a 0 into 200 |
| Middleware.InterceptStatusWriter.constructor | server/middleware/metrics.go:17 | a new interceptor over `w` has status 0 and has forwarded nothing |
| Middleware.InterceptStatusWriter.SetHeader | server/middleware/metrics.go:41-42 | a header set reaches the wrapped writer and leaves the status alone |
| Middleware.InterceptStatusWriter.WriteHeader | server/middleware/metrics.go:46-49 | stores the code unconditionally and forwards the call |
| Middleware.InterceptStatusWriter.Write | server/middleware/metrics.go:51-55 | swaps a 0 status for 200, leaves any other status, and forwards the call |
| Middleware.InterceptStatusWriter.WrittenStatus | server/middleware/metrics.go:57-59 | the status recorded by the calls so far |
| Middleware.Inc | server/middleware/metrics.go:25-26 | one increment of one labelled series; every other series keeps its count |
| Middleware.IsErrorStatus | server/middleware/metrics.go:30-31 | 0 and every error status the handlers write (400, 404, 422, 500) are errors; 200, 201 and 204 are not |
| Middleware.CollectRequestsMetrics | server/middleware/metrics.go:12-39 | per request: the handler's calls reach the connection unchanged; one request count under the recorded status's text; one duration observation; an error count exactly when the status is >= 400 or 0; no net change of the active-request gauge |
| Response.EffectiveStatus | server/response/write.go:12-14 | 0 becomes 200 and any other status passes through; the result is never 0 |
| Response.WriteEventsShape | server/response/write.go:10-19 | the content type `application/json; charset=utf-8` is set first; exactly one `WriteHeader`, with the effective status, before any body; a body only for a non-nil object |
| Response.WriteRecordsEffectiveStatus | server/response/write.go:12-16 | through the interceptor one `Write(..., s)` records `s`, or 200 for 0, whatever was written before |
| Response.Write | server/response/write.go:9-27 | appends exactly those calls to the writer and leaves its status at the effective status |
| Response.WriteDefaultError | server/handler/user.go:86 | appends the default error response with status 500 |
| Handler.UserHandler.ValidationResponses | server/handler/user.go:256-291 | the validator writes nothing exactly for a named user with a parseable address; every status it writes is 400; an empty address is answered twice |
| Handler.UserHandler.constructor | server/handler/user.go:37-47 | a handler over the given service and notifier, whose UUID and address parsers both reject the empty string, as `uuid.Parse` and `mail.ParseAddress` do |
| Handler.UserHandler.GetUserIdParamOrWriteError | server/handler/user.go:231-250 | `(id, true)` exactly when the path id parses as a UUID, with nothing written; otherwise one 400 "invalid user ID" and `("", false)` |
| Handler.UserHandler.ValidateIncomingUserOrWriteError | server/handler/user.go:252-292 | false exactly for an empty name, after one 400 with field "name"; address problems are answered with 400s but give true |
| Handler.UserHandler.Create | server/handler/user.go:56-104 | 422 for an undecodable body and 400 for an empty name, both without a service call or notification; otherwise the fresh user is stored, notified with its `user_id` and the message `user_created`, and answered 201; a store failure is answered with the default error and not notified |
| Handler.UserHandler.GetAll | server/handler/user.go:110-119 | 200 with a listing of every stored user, or the default error |
| Handler.UserHandler.Get | server/handler/user.go:121-149 | 400 for a bad id; 200 with the stored user; 404 exactly when the user does not exist; the default error for any other failure |
| Handler.UserHandler.Update | server/handler/user.go:157-208 | the id comes from the path, never from the body; 400, 422 and validation answers leave the store alone; otherwise the user is overwritten and answered 200 with the user built from the request, or with the default error; never 404 |
| Handler.UserHandler.Delete | server/handler/user.go:210-224 | 400 for a bad id; otherwise the key is removed and 204 is written with no body, whether or not the user existed; the default error on failure |
| Config.EnvOrDefault | cmd/main.go:107-112 | a set, non-empty value is returned, otherwise the default |
| Config.IntEnvOrDefault | cmd/main.go:114-125 | the default when the variable is unset, empty or unparseable; the parsed integer otherwise |
| Config.IntEnvReadsBack | cmd/main.go:115-121 | a variable holding the decimal text of a 64-bit integer yields that integer |
| Config.WrapInt64 | cmd/main.go:55-57 | an int64 result: in range, congruent to the exact value mod 2^64, and exact when the exact value fits |
| Config.ReadHeaderTimeout | cmd/main.go:55-57 | `time.Duration(ms) * time.Millisecond` is an int64 value, 10000 ms when the variable is unset or empty; see `Config.ReadHeaderTimeoutInMillis` and `Config.ReadHeaderTimeoutWraps` for set values |
| Config.Load | cmd/main.go:30-57 | the port and the read-header timeout are int64 values, and the endpoint and the bucket are never empty; see `Config.Defaults` and `Config.UseSSLOnlyForTrue` for the defaults and the TLS flag |
| Config.Defaults | cmd/main.go:30-57 | with nothing set: log level info, endpoint localhost:9000, minioadmin credentials, bucket users, no TLS, port 8080, timeout 10000 ms |
| Config.UseSSLOnlyForTrue | cmd/main.go:40 | TLS is on exactly when `MINIO_USE_SSL` is the literal "true" |
| Config.ReadHeaderTimeoutInMillis | cmd/main.go:55-57 | a millisecond value whose nanoseconds fit in int64 gives exactly that many milliseconds |
| Config.ReadHeaderTimeoutWraps | cmd/main.go:55-57 | millisecond values from 9_223_372_036_855 to 18_446_744_073_709 wrap to ms·10^6 − 2^64, which is negative |
| Strconv.Atoi | cmd/main.go:116 | a parsed value is always in the int64 range and never comes from "", "+" or "-" |
| Strconv.Itoa | server/middleware/metrics.go:23 | the text is non-empty, starts with `-` exactly for a negative number, and the rest is decimal digits |
| Strconv.AtoiItoa | cmd/main.go:116-121 | `Atoi` reads back `Itoa` of every 64-bit integer |
| Strconv.ItoaInjective | server/middleware/metrics.go:23-26 | distinct statuses give distinct `status` label texts |

## Left out

- Context deadlines (`context.WithTimeout`, the 10-second operation timeout) and request cancellation are not modelled. A timed-out store call is one more store error of the oracle.
- Goroutines, the signal/`serverDone` selects and the shutdown grace period in `main` (cmd/main.go:61-104) are left out. The model is sequential.
- The concurrency of the interceptor's atomic field is left out. Calls on it are modelled one at a time.
- `Service.Notifier.Send`: the `timestamp` attribute (the clock), the JSON marshalling and its error path, the 100 ms delay and the logging are left out, and the goroutine it runs in is modelled as an in-order call.
- storage/minio.go (MinIO client, JSON, network) is not part of this model. Storage is the map-backed `MapStorage`.
- server/middleware/rate_limit.go is not part of this model. Its token bucket lives in the external module golang.org/x/time/rate.
- server/server.go routing, `net.JoinHostPort`, metric/prometheus.go registration, ping handlers and logger/logger.go are not part of this model.
- The file defining `response.WriteDefaultError` and `response.NewError` is not part of this model. `WriteDefaultError` is taken to write a default error object with status 500.
- model/user.go is not part of this model. `User` has the three fields the handlers use.
- The handlers' `h.log.Error` line after a failed create (server/handler/user.go:81-84) is left out: logging has no effect on the response or the store.
- JSON encoding and decoding are left out. A body is the object handed to the encoder, and an encoding error (which the Go code only logs) is not modelled.
- UUID parsing, mail address parsing and UUID generation are opaque functions, apart from the facts stated above.
- Response recording durations are left out. `Metrics` counts how many durations each route observed, not the float seconds.
- `Service.UserService.Get`: the `User` value that `Get` returns along with an error is not modelled. The error case is `Err` only.
- Panics are left out: the deferred metrics block running after a panicking handler, and net/http rejecting a status code outside 100-999.
- net/http's dropping of a second `WriteHeader` on the wire is not modelled. `Http.ResponseWriter` keeps every call it received.
