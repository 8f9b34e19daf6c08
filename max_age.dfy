/**
 * lib/maxAge.js: the read-through / write-through middleware for the `body` segment.
 */
module MaxAgePolicy {
  import opened JsValues
  import opened Transport
  import opened CacheControl
  import opened Conversion
  import opened Events
  import opened CacheAccess

  const Segment := "body"

  /** `getExpiry(ctx, cacheControl)` at time `now`: the time elapsed since a revalidation
      time carried by the response's item (`now - revalidate`), else the ttl a response from another cache
      still had, else `max-age` in milliseconds. */
  function GetExpiry(res: Response, cc: Directives, now: int): (expiry: JsNum)
    ensures !NumTruthy(res.itemRevalidate) && !NumTruthy(res.ttl)
            ==> expiry == NumMul(ToNumber(Get(cc, "max-age")), 1000)
    ensures !NumTruthy(res.itemRevalidate) && NumTruthy(res.ttl) ==> expiry == res.ttl
    ensures NumTruthy(res.itemRevalidate) && now != res.itemRevalidate.value
            ==> expiry == Some(now - res.itemRevalidate.value)
    ensures NumTruthy(res.itemRevalidate) && now == res.itemRevalidate.value
            ==> expiry == (if NumTruthy(res.ttl) then res.ttl else NumMul(ToNumber(Get(cc, "max-age")), 1000))
  {
    var revalidateTime := res.itemRevalidate;
    var revalidateTtl: JsNum := if NumTruthy(revalidateTime) then Some(now - revalidateTime.value) else Some(0);
    var originalExpiry := NumOr(revalidateTtl, res.ttl);
    NumOr(originalExpiry, NumMul(ToNumber(Get(cc, "max-age")), 1000))
  }

  /** A fresh response with `max-age=n` (n > 0) is kept for n seconds. */
  lemma FreshExpiryIsMaxAge(res: Response, n: nat, cc: Directives, now: int)
    requires !NumTruthy(res.itemRevalidate) && !NumTruthy(res.ttl)
    requires Get(cc, "max-age") == Some(Num(n))
    ensures GetExpiry(res, cc, now) == Some(n * 1000)
  {
  }

  /** After the downstream call: whether the response is written to the store. Note that
      only `max-age` is consulted, not `no-store` or `private`. */
  predicate ShouldStore(res: Response, isStale: bool, cc: Directives): (store: bool)
    ensures isStale ==> !store
    ensures res.statusCode >= 500 ==> !store
    ensures Get(cc, "max-age") == None || Get(cc, "max-age") == Some(Num(0)) ==> !store
    ensures (!isStale && res.statusCode < 500 && Get(cc, "max-age").Some?
             && Get(cc, "max-age").value.Num? && Get(cc, "max-age").value.n != 0) ==> store
  {
    !isStale && res.statusCode < 500 && Truthy(Get(cc, "max-age"))
  }

  /** A negative `max-age` is truthy: a fresh response with `max-age=-5` is stored, with
      an expiry of -5000 ms. */
  lemma NegativeMaxAgeIsStored(res: Response, cc: Directives, now: int)
    requires !NumTruthy(res.itemRevalidate) && !NumTruthy(res.ttl) && res.statusCode < 500
    requires Get(cc, "max-age") == Some(Num(-5))
    ensures ShouldStore(res, false, cc)
    ensures GetExpiry(res, cc, now) == Some(-5000)
  {
  }

  /** A response without a Cache-Control header is never stored. */
  lemma NoHeaderNoStore(wreck: string -> Directives, res: Response, isStale: bool)
    requires HeaderValue(res.headers, "cache-control").None?
    ensures !ShouldStore(res, isStale, ResponseDirectives(wreck, res))
  {
  }

  /** As written, `no-store` does not stop a response with a positive `max-age` from being
      stored. */
  lemma NoStoreIsNotConsulted(res: Response)
    requires res.statusCode < 500
    ensures ShouldStore(res, false, map["no-store" := Flag, "max-age" := Num(60)])
  {
    assert Get(map["no-store" := Flag, "max-age" := Num(60)], "max-age") == Some(Num(60));
  }

  /** What is written: a copy from a cache as it is, anything else as `toJSON()`. */
  function StoredItem(res: Response): (item: Response)
    ensures res.fromCache ==> item == res
    ensures !res.fromCache ==> item == ToJson(res)
  {
    if res.fromCache then res else ToJson(res)
  }

  /** The middleware for one request. The store's `start`, its `get`, the downstream call
      and its `set` are the inputs `start`, `getFault`, `next` and `setOk`; `now` is
      `Date.now()` and `wreck` the header parser. */
  method Handle(store: Store, access: AccessLayer, emitter: Emitter, ctx: Context, opts: Opts,
                start: Option<Error>, getFault: Option<Error>, next: Next, now: int,
                wreck: string -> Directives, setOk: bool)
    returns (r: Completion)
    modifies store, access, emitter, ctx, next
    // A store that is not ready is started, once, before anything else; if that fails the
    // call rejects with its error and nothing else happens.
    ensures store.starts == old(store.starts) + (if old(store.ready) then 0 else 1)
    ensures store.ready == (old(store.ready) || start.None?)
    ensures !old(store.ready) && start.Some? ==>
      && r == Rejected(start.value)
      && store.entries == old(store.entries) && access.log == old(access.log)
      && emitter.log == old(emitter.log) && next.calls == old(next.calls)
      && ctx.res == old(ctx.res) && ctx.isStale == old(ctx.isStale)
    // Then the lookup under the `body` segment and the request key.
    ensures old(store.ready) || start.None? ==>
      var key := CreateCacheKey(Segment, ctx.req.requestKey);
      var got := old(store.Get(key, getFault));
      && (got.GetErr? && !opts.ignoreCacheErrors ==>
            && r == Rejected(got.err)
            && access.log == old(access.log) + ["cache.error"]
            && store.entries == old(store.entries) && emitter.log == old(emitter.log)
            && next.calls == old(next.calls)
            && ctx.res == old(ctx.res) && ctx.isStale == old(ctx.isStale))
      // A hit is served from the cache; downstream is not called and nothing is stored.
      && (got.GetOk? && got.cached.Some? ==>
            && r == Resolved(None)
            && access.log == old(access.log) + ["cache.hit"]
            && ctx.res == ToResponse(got.cached.value) && ctx.isStale == old(ctx.isStale)
            && emitter.log == old(emitter.log) + [EventType("hit", opts)]
            && next.calls == old(next.calls) && store.entries == old(store.entries))
      // A miss (or an ignored read error) emits `miss` and calls downstream once.
      && ((got.GetOk? && got.cached.None?) || (got.GetErr? && opts.ignoreCacheErrors) ==>
            && access.log == old(access.log) + (if got.GetErr? then ["cache.error", "cache.miss"] else ["cache.miss"])
            && emitter.log == old(emitter.log) + [EventType("miss", opts)]
            && next.calls == old(next.calls) + 1
            && (next.outcome.Throws? ==>
                  && r == Rejected(next.outcome.err)
                  && ctx.res == old(ctx.res) && ctx.isStale == old(ctx.isStale)
                  && store.entries == old(store.entries))
            && (next.outcome.Returns? ==>
                  var res := next.outcome.res;
                  var cc := ResponseDirectives(wreck, res);
                  && r == Resolved(None)
                  && ctx.res == res && ctx.isStale == next.outcome.isStale
                  && store.entries ==
                       if ShouldStore(res, next.outcome.isStale, cc) && setOk
                       then old(store.entries)[key := Entry(StoredItem(res), GetExpiry(res, cc, now), now, None)]
                       else old(store.entries)))
  {
    if !store.ready {
      var err := store.Start(start);
      if err.Some? {
        return Rejected(err.value);
      }
    }

    var cached := access.GetFromCache(store, Segment, ctx.req.requestKey, opts, getFault);
    if cached.Failure? {
      return Rejected(cached.error);
    }
    if cached.value.Some? {
      ctx.res := ToResponse(cached.value.value);
      emitter.EmitCacheEvent("hit", opts);
      return Resolved(None);
    }
    emitter.EmitCacheEvent("miss", opts);

    var settled := next.Invoke(ctx);
    if settled.Rejected? {
      return settled;
    }

    if ctx.isStale || ctx.res.statusCode >= 500 {
      return Resolved(None);
    }

    var cacheControl := ResponseDirectives(wreck, ctx.res);

    if Truthy(Get(cacheControl, "max-age")) {
      var expiry := GetExpiry(ctx.res, cacheControl, now);
      access.StoreInCache(store, Segment, ctx.req.requestKey, StoredItem(ctx.res), expiry, now, setOk);
    }
    r := Resolved(None);
  }
}
