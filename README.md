# http-transport-cache: the cache policy, modelled in Dafny

This project models the cache policy of an HTTP-response caching library. The library plugs
two middlewares into an HTTP client pipeline:

- `maxAge` serves a stored copy while it is fresh. On a miss it calls the rest of the
  pipeline and stores the response for its `max-age`.
- `staleIfError` keeps a `stale` copy of each cachable response. It serves that copy when
  the origin throws or answers with a status of 500 or more.

The model covers everything these middlewares decide:

- whether a response may be stored (`isCachable`);
- how keys and request ids are built;
- how a stored entry becomes a response again;
- how cache events are named and emitted;
- the store read and write wrappers;
- both middlewares, step by step, as methods over a store, two event logs, the request
  context and the downstream call.

Modules, one per source file:

| module | file | form |
|---|---|---|
| `JsValues` | (shared) | `Option`, `Result`, and JavaScript numbers that may be `undefined` or `NaN` (`JsNum`) |
| `Transport` | (shared) | request, response and stored-entry records; the `Context` object; the downstream call `Next` |
| `CacheControl` | lib/isCachable.js, lib/parseCacheControl.js | directive values, JavaScript truthiness and numeric coercion, `IsCachable` |
| `Conversion` | lib/toResponse.js | `ToResponse` |
| `Events` | lib/events.js | `EventType`, and the `Emitter` class whose log records emitted types |
| `HeaderKey` | lib/cacheKeyWithHeaders.js | `CacheKeyWithHeaders` |
| `RequestId` | lib/getRequestId.js | `FilterHeaders`, `GetRequestId` |
| `CacheAccess` | lib/cache.js | `CreateCacheKey`; classes `Store` (the external store as a map) and `AccessLayer` (the file's own emitter; `GetFromCache`, `StoreInCache`) |
| `MaxAgePolicy` | lib/maxAge.js | `GetExpiry`, `ShouldStore`, and the middleware `Handle` |
| `StaleIfErrorPolicy` | lib/staleIfError.js | `StaleTtl`, and the middleware `Handle` |

Everything outside the code is an input:

- The store's `start`, `get` and `set` are fault or success inputs. A working store
  behaves as a `map<CacheKey, Entry>`.
- The downstream `next()` is a `Next` object. Its fixed outcome is either `Throws(err)` or
  `Returns(res, isStale)`, and it counts its calls.
- The connection attempt of `staleIfError` is an outcome input.
- `Date.now()` is the parameter `now`.
- The Cache-Control parser is the function parameter `wreck`.
- `JSON.stringify` is the function parameter `json`.
- `VERSION` is the constant `"1.0.0"`. That is the value test/staleIfError.js:20 shows;
  package.json is not part of this model.

JavaScript semantics are written out where the code depends on them:

- Truthiness: `0`, `''` and `undefined` are falsy, so `max-age=0` counts as absent.
- The `*` operator coerces its operands: `true` becomes 1, a digit string its value, and
  `undefined` becomes `NaN`.
- `x || y` on numbers.
- `NaN` propagates through arithmetic, so the `stale` ttl is `NaN` without a
  `stale-if-error` directive.

Where the code behaves otherwise than such a library might be expected to, the model follows the code:

- `maxAge` stores whenever `max-age` is truthy. It does not call `isCachable`, so
  `no-store` and `private` do not stop it (`MaxAgePolicy.NoStoreIsNotConsulted`).
- Neither middleware has a default ttl, vary-on list or stale-while-revalidate.
- Keys use the request key `req.getRequestKey()`, not a method, URL and vary-header suffix.
- A failing read emits `cache.error`, then `cache.miss` when `ignoreCacheErrors` lets it
  through; no event marks a timeout.
- A failing write emits nothing.
- The two emitters are separate objects: lib/cache.js:5 has its own, apart from
  lib/events.js:4. The model keeps them apart: `AccessLayer.log` and `Emitter.log`.

## Model

| member | source | states |
|---|---|---|
| `CacheControl.IsCachable` | lib/isCachable.js:10-21 | an empty map is never cachable. A truthy `no-store` or `private` refuses whatever else is present. Neither `max-age` nor `stale-if-error` truthy refuses. A non-empty map with neither refusal and a truthy `max-age` or `stale-if-error` is cachable. Only the map is consulted. |
| `CacheControl.ZeroIsNotCachable` | lib/isCachable.js:15 | a numeric `max-age` of 0 and a numeric `stale-if-error` of 0, alone or absent, are not cachable (the text `"0"` is truthy) |
| `CacheControl.TextZeroIsCachable` | lib/isCachable.js:15 | a `stale-if-error` left as the text `"0"` is truthy, so it alone is cachable |
| `CacheControl.PrivacyNeverEnables` | lib/isCachable.js:11-16 | adding `no-store` or `private` (truthy, or where none was) never turns a refusal into a permission |
| `CacheControl.ParseCacheControl` | lib/parseCacheControl.js:5-11 | an absent or empty header gives the empty directive map |
| `Conversion.ToResponse` | lib/toResponse.js:3-15 | the result has `fromCache = true`, the item's body, headers, status code, elapsed time and url, and the entry's own top-level `ttl` and `revalidate` |
| `Conversion.ToResponseIgnoresRest` | lib/toResponse.js:4-14 | entries that agree on those seven values give equal responses: nothing else of the item (its own `revalidate`, `ttl`, `fromCache`, `cacheStatus`) or of the entry is carried over |
| `Conversion.ServedCopyMatchesStored` | lib/toResponse.js:4-11 | serving a stored `toJSON()` copy returns the stored body, headers, status code, elapsed time and url, marked `fromCache` |
| `Events.EventName` | lib/events.js:7 | only a present, non-empty `opts.name` names events |
| `Events.EventType` | lib/events.js:8 | with a name the type is `cache.<name>.<event>`, without one `cache.<event>`; every type starts with `cache.` and ends with the event |
| `Events.UnnamedTypesDistinct` | lib/events.js:8 | without a name, equal types come from equal events |
| `Events.Emitter.EmitCacheEvent` | lib/events.js:6-10 | appends exactly one event type, with no payload, to the log |
| `HeaderKey.CacheKeyWithHeaders` | lib/cacheKeyWithHeaders.js:5-8 | headers omitted (default empty) or empty leave the key unchanged; otherwise it is `key + json(headers)`; the key is always a prefix |
| `HeaderKey.CacheKeyWithHeadersInjective` | lib/cacheKeyWithHeaders.js:7 | with equal headers, equal results come from equal keys |
| `RequestId.FilterHeaders` | lib/getRequestId.js:8-10 | filtering never lengthens the header list |
| `RequestId.FilterKeepsExactly` | lib/getRequestId.js:8-10 | a header is kept if and only if it is in the input and its name is not in `doNotVary` (exact, case-sensitive match) |
| `RequestId.FilterAppend` | lib/getRequestId.js:8-10 | filtering distributes over concatenation, so the kept headers keep their order and values |
| `RequestId.FilterNothing` | lib/getRequestId.js:5 | with the default `doNotVary = []` every header is kept |
| `RequestId.FilterMonotone` | lib/getRequestId.js:8-10 | a larger `doNotVary` only removes further entries from what a smaller one keeps |
| `RequestId.FilterDropsListed` | lib/getRequestId.js:9 | a header whose name is listed is dropped wherever it stands |
| `RequestId.CaseSensitiveMatch` | lib/getRequestId.js:9 | `request-id` in `doNotVary` does not remove a `Request-ID` header |
| `RequestId.GetRequestId` | lib/getRequestId.js:5-14 | the id is the request key followed by `json` of the filtered headers; with no headers it still appends `json([])` |
| `RequestId.IgnoredHeaderDoesNotVary` | lib/getRequestId.js:8-13 | inserting a `doNotVary` header anywhere leaves the request id unchanged |
| `CacheAccess.CreateCacheKey` | lib/cache.js:9-16 | the segment is `http-transport:<VERSION>:` followed by the given segment; the id is unchanged |
| `CacheAccess.CreateCacheKeyInjective` | lib/cache.js:10-15 | two keys are equal if and only if their segments and ids are |
| `CacheAccess.BodyAndStaleNeverCollide` | lib/cache.js:9-16 | keys of the `body` segment (lib/maxAge.js) and the `stale` segment (lib/staleIfError.js) never collide |
| `CacheAccess.Store.Start` | lib/maxAge.js:25-27 | starting counts one call; the store is ready afterwards unless the start failed, and the failure is reported |
| `CacheAccess.Store.Set` | lib/cache.js:40 | a working `set` records the item with its ttl and store time; a failing one leaves the entries as they were |
| `CacheAccess.AccessLayer.GetFromCache` | lib/cache.js:18-36 | a failing get emits `cache.error`. Without `ignoreCacheErrors` it then rejects with the store's error and emits neither hit nor miss. With `ignoreCacheErrors` it goes on through the miss branch. A working get emits exactly one of `cache.miss` or `cache.hit` and returns the stored entry unchanged. |
| `CacheAccess.AccessLayer.StoreInCache` | lib/cache.js:38-42 | writes under the versioned key when the store accepts the write, and resolves (it has no failure outcome) whatever the store reports |
| `CacheAccess.AccessLayer.StoreThenRead` | test/cache.js:60-66 | storing a value and reading it back from a working store returns that value as the item, with a `cache.hit`, and leaves that entry in the store |
| `Transport.HeaderValue` | lib/maxAge.js:41 | the looked-up header is one of the response's headers; absence means no header has that name |
| `Transport.ToJson` | lib/maxAge.js:46 | `toJSON()` keeps the body, headers, status code, elapsed time and url, and drops the cache markers |
| `Transport.Next.Invoke` | lib/maxAge.js:37 | one downstream call: it rejects with its error and leaves the context alone, or sets `ctx.res` and `ctx.isStale` and resolves with its value |
| `MaxAgePolicy.GetExpiry` | lib/maxAge.js:15-21 | without an item `revalidate`, the expiry is the response's ttl if that is non-zero (a response from another cache), else `max-age` × 1000. With a non-zero item `revalidate` the expiry is `now - revalidate`, unless that is 0, in which case the ttl rule applies. |
| `MaxAgePolicy.FreshExpiryIsMaxAge` | lib/maxAge.js:20 | a fresh response with `max-age=n` gets an expiry of n × 1000 ms |
| `MaxAgePolicy.ShouldStore` | lib/maxAge.js:39-43 | nothing is stored for a stale context, a status of 500 or more, or an absent or zero `max-age`; a non-zero numeric `max-age` (negative ones included, being truthy) on a non-stale status below 500 is stored |
| `MaxAgePolicy.NegativeMaxAgeIsStored` | lib/maxAge.js:20-43 | a fresh response with `max-age=-5` is stored, with an expiry of -5000 ms |
| `MaxAgePolicy.NoHeaderNoStore` | lib/maxAge.js:41-43 | a response without a Cache-Control header is never stored |
| `MaxAgePolicy.NoStoreIsNotConsulted` | lib/maxAge.js:43 | `no-store, max-age=60` on a status below 500 is stored: the code does not consult `no-store` |
| `MaxAgePolicy.StoredItem` | lib/maxAge.js:46 | a response from a cache is stored as it is, any other response as its `toJSON()` |
| `MaxAgePolicy.Handle` | lib/maxAge.js:23-50 | see below |
| `StaleIfErrorPolicy.StaleTtl` | lib/staleIfError.js:77-79 | when both coerce, the ttl is (a truthy `max-age` as a number, else 0) × 1000 + `stale-if-error` as a number × 1000; if `stale-if-error` is absent or does not coerce, or a truthy `max-age` does not, it is `NaN` |
| `StaleIfErrorPolicy.StaleTtlTextAsNumber` | lib/staleIfError.js:77-78 | a directive left as a digit string gives the same ttl as its number, `"0"` included |
| `StaleIfErrorPolicy.StaleTtlExample` | lib/staleIfError.js:77-79 | `max-age=60, stale-if-error=7200` gives 7,260,000 ms |
| `StaleIfErrorPolicy.StaleTtlFromDigitString` | lib/staleIfError.js:78 | a `stale-if-error` left as the text `"7200"` is coerced by the multiplication: 7,200,000 ms |
| `StaleIfErrorPolicy.Handle` | lib/staleIfError.js:27-84 | see below |
| `StaleIfErrorPolicy.OnFailure` | lib/staleIfError.js:43-72 | after a failure: a stale copy is served (`isStale`, `ToResponse`, `cacheStatus = 'stale'` when asked, `stale` emitted) and the call resolves; a read error rejects with the original error (setting `cacheStatus` to `'timeout'` or `'error'` when asked) under `ignoreCacheErrors`, else with the read error; a miss resolves when the error is the `HttpError` marker, whether from a 5xx response or rethrown by a stale-if-error middleware downstream, and rejects with any other error |
| `StaleIfErrorPolicy.OnSuccess` | lib/staleIfError.js:74-83 | after a success: a cachable response not from a cache is written under the `stale` key with `StaleTtl` (if the store accepts it) and its `toJSON()` is returned; otherwise nothing is written or returned |

`MaxAgePolicy.Handle` (lib/maxAge.js:23-50) states:

- A store that is not ready is started exactly once, before the lookup. A failed start
  rejects with its error and changes nothing else.
- The lookup uses the `body` segment and the request key.
- A read error without `ignoreCacheErrors` rejects: downstream is not called and no
  middleware event is emitted.
- On a hit, `ctx.res` becomes `ToResponse(entry)` and `hit` is emitted. Downstream is never
  called and nothing is stored.
- On a miss, or an ignored read error, `miss` is emitted and downstream is called exactly
  once.
- A throwing downstream rejects with its error.
- Otherwise the response is written to the same key when `ShouldStore` holds and the store
  accepts the write. The item is `StoredItem(res)` and the ttl `GetExpiry`.

`StaleIfErrorPolicy.Handle` (lib/staleIfError.js:27-84) states:

- A failed connection emits `connection_error`. With `ignoreCacheErrors` it then only calls
  downstream, and settles as downstream does, resolving with the value downstream resolved
  with: no read, no write. Without it, it rethrows the connection error.
- A downstream response with a status of 500 or more fails like a thrown error.
- Failure plus a stale copy: `ctx.isStale` is set, `ctx.res` becomes `ToResponse(entry)`
  (with `cacheStatus = 'stale'` under `includeCacheStatusInCtx`) and `stale` is emitted.
  The call resolves, so the error is suppressed.
- Failure plus a read error: with `ignoreCacheErrors` the call rejects with the original
  error. Before that, under `includeCacheStatusInCtx`, `ctx.res.cacheStatus` is set to
  `'timeout'` for a timeout and `'error'` otherwise. Without `ignoreCacheErrors` it rejects
  with the read error.
- Failure plus a miss: the `HttpError` marker resolves. That covers a 5xx response, and the
  marker rethrown by another stale-if-error instance downstream. Any other thrown error is
  rethrown.
- On success, a response that is `IsCachable` and not `fromCache` is written to the `stale`
  segment with `StaleTtl`, and its `toJSON()` is returned whatever the store reports.
  Otherwise nothing is stored and nothing is returned.

## Left out

- Numbers are unbounded integers. JavaScript numbers are doubles, so `max-age × 1000`,
  the ttl sums and `now - revalidate` are exact in the model where the source rounds
  beyond 2^53, and fractional directive values are not represented.
- lib/cacheConnection.js and lib/startCacheConnection.js are not modelled. They race the
  store's start against a timer and wrap a foreign circuit breaker. Their result is the
  `connection` input of `StaleIfErrorPolicy.Handle`.
- The Cache-Control parser behind lib/parseCacheControl.js is the parameter `wreck`. For a
  malformed header it returns `null`, which both middlewares treat like the empty map
  (`cacheControl && …` in lib/maxAge.js:43, `isEmpty(null)` in lib/isCachable.js:12).
  `wreck` is therefore taken to return the empty map in that case.
- `JSON.stringify` is the parameter `json`; its exact text is a library detail.
- The transport's `res.toJSON()` is a foreign library. It is taken to project onto body,
  headers, status code, elapsed time and url (`Transport.ToJson`).
- Stale-while-revalidate, the single-flight refresh set, `read_time`/`write_time` events,
  read and write timeouts in the access layer, event payloads and an accumulating
  `cacheStatus` list are not modelled. None of the modelled files implements them.
- `doNotVary` for `cacheKeyWithHeaders` is not modelled: lib/cacheKeyWithHeaders.js:5 takes
  no such parameter.
- The store's own behaviour is left to the store: expiry, eviction and the remaining ttl it
  reports on `get`. `Store.Set` records what it is given.
- Promise timing is not modelled. The fire-and-forget write of lib/staleIfError.js:81
  happens within the call, and the order in which concurrent requests settle is not
  captured.
- Downstream is taken not to touch the store or the event logs. A throwing downstream
  leaves the context as it was.
- Responses are values. Updating `ctx.res.cacheStatus` changes the context's response
  only; aliasing of that object elsewhere is not captured.
- JavaScript objects list integer-like keys first. Header lists keep plain insertion order,
  and the first header with a name wins.
- `ToNumber` covers numbers, `true`, the empty string and digit strings. Other numeric
  spellings of a string (sign, decimal point, exponent, surrounding spaces) coerce to
  `NaN` in the model.
- StaleIfErrorPolicy.Handle: the read of the `stale` copy is the input `read`, and the id
  it is written under is the input `staleId`. lib/staleIfError.js:45 and :81 pass the
  context object where lib/cache.js:18 takes an id, so neither key is derived. The access
  layer's own `cache.*` events for that read are not modelled. With the access layer of
  lib/cache.js:21-33 an ignored read error resolves like a miss; `ReadErr` under
  `ignoreCacheErrors` stands for an access layer that rejects anyway.
- CacheAccess.Store.Start: the circuit breaker and connection timeout around the start are
  not modelled (see the first line).
- lib/directives.js only holds the directive names, which appear as string literals.
  index.js only wires up the exports.
