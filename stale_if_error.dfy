/**
 * lib/staleIfError.js: the middleware that falls back to a `stale` copy when the
 * downstream call fails, and keeps such a copy after a success.
 */
module StaleIfErrorPolicy {
  import opened JsValues
  import opened Transport
  import opened CacheControl
  import opened Conversion
  import opened Events
  import opened CacheAccess

  const Segment := "stale"

  /** What reading the `stale` copy gives: an entry, nothing, or a read error. */
  datatype ReadOutcome = Hit(entry: Entry) | Miss | ReadErr(err: Error)

  /** The ttl of the `stale` copy: (`max-age` or 0) plus `stale-if-error`, in milliseconds,
      each coerced to a number. Without a `stale-if-error` directive, or with one (or a
      truthy `max-age`) that does not coerce, the sum is NaN. */
  function StaleTtl(cc: Directives): (ttl: JsNum)
    ensures var sie := ToNumber(Get(cc, "stale-if-error")); var ma := Get(cc, "max-age");
      sie.Some? && (!Truthy(ma) || ToNumber(ma).Some?) ==>
        ttl == Some((if Truthy(ma) then ToNumber(ma).value else 0) * 1000 + sie.value * 1000)
    ensures ToNumber(Get(cc, "stale-if-error")).None? ==> ttl.None?
    ensures Truthy(Get(cc, "max-age")) && ToNumber(Get(cc, "max-age")).None? ==> ttl.None?
    ensures Get(cc, "stale-if-error").None? ==> ttl.None?
  {
    var maxAge := Get(cc, "max-age");
    var maxAgeMilliseconds := NumMul(if Truthy(maxAge) then ToNumber(maxAge) else Some(0), 1000);
    var staleIfErrorMilliseconds := NumMul(ToNumber(Get(cc, "stale-if-error")), 1000);
    NumAdd(maxAgeMilliseconds, staleIfErrorMilliseconds)
  }

  /** `max-age=60, stale-if-error=7200` keeps the copy for 7,260,000 ms. */
  lemma StaleTtlExample()
    ensures StaleTtl(map["max-age" := Num(60), "stale-if-error" := Num(7200)]) == Some(7260000)
  {
    var cc := map["max-age" := Num(60), "stale-if-error" := Num(7200)];
    assert Get(cc, "max-age") == Some(Num(60));
    assert Get(cc, "stale-if-error") == Some(Num(7200));
  }

  /** A parser that leaves `stale-if-error` as the text `"7200"` gives the same ttl: the
      multiplication coerces the digits. */
  lemma {:induction false} StaleTtlFromDigitString()
    ensures StaleTtl(map["stale-if-error" := Str("7200")]) == Some(7200000)
  {
    var s := "7200";
    assert AllDigits(s);
    assert s[..3] == "720" && s[..2] == "72" && s[..1] == "7" && s[..0] == "";
    assert DecimalValue("") == 0;
    assert DecimalValue("7") == 7;
    assert DecimalValue("72") == 72;
    assert DecimalValue("720") == 720;
    assert DecimalValue(s) == 7200;
    var cc := map["stale-if-error" := Str(s)];
    assert Get(cc, "max-age") == None;
    assert Get(cc, "stale-if-error") == Some(Str(s));
  }

  /** Whether the parser leaves a directive as the digit text `s` or as its number makes no
      difference to the ttl, even for `"0"`, which is truthy where `0` is not. */
  lemma StaleTtlTextAsNumber(cc: Directives, k: string, s: string)
    requires k == "max-age" || k == "stale-if-error"
    requires s != "" && AllDigits(s)
    ensures StaleTtl(cc[k := Str(s)]) == StaleTtl(cc[k := Num(DecimalValue(s))])
  {
    var ct, cn := cc[k := Str(s)], cc[k := Num(DecimalValue(s))];
    assert ToNumber(Get(ct, k)) == ToNumber(Get(cn, k));
  }

  /** The error a failure path rethrows: what downstream threw, or the `HttpError` marker
      for a 5xx response. */
  function OriginalError(outcome: NextOutcome): Error
  {
    if outcome.Throws? then outcome.err else HttpError
  }

  /** Downstream failed: it threw, or its response has a status of 500 or more. */
  predicate Failed(outcome: NextOutcome)
  {
    outcome.Throws? || outcome.res.statusCode >= 500
  }

  /** After a success: whether the response is written to the `stale` segment. */
  predicate ShouldStore(res: Response, wreck: string -> Directives)
  {
    IsCachable(ResponseDirectives(wreck, res)) && !res.fromCache
  }

  /** `ctx.res.cacheStatus` after a cache read error that is ignored. */
  function ReadErrorStatus(res: Response, opts: Opts, err: Error): Response
  {
    if opts.includeCacheStatusInCtx
    then res.(cacheStatus := Some(if err.Error? && err.isTimeout then "timeout" else "error"))
    else res
  }

  /** The middleware for one request. Connecting the store, the downstream call, the read of
      the `stale` copy and the store's `set` are the inputs `connection`, `next`, `read` and
      `setOk`; `staleId` is the id the copy is written under, `now` is `Date.now()` and
      `wreck` the header parser. */
  method Handle(store: Store, access: AccessLayer, emitter: Emitter, ctx: Context, opts: Opts,
                connection: Option<Error>, next: Next, read: ReadOutcome, staleId: string, now: int,
                wreck: string -> Directives, setOk: bool)
    returns (r: Completion)
    modifies store, emitter, ctx, next
    // A store that is not ready is connected first; a failed connection emits
    // `connection_error`, and then only calls downstream (ignoreCacheErrors) or rethrows.
    ensures store.starts == old(store.starts) + (if old(store.ready) then 0 else 1)
    ensures store.ready == (old(store.ready) || connection.None?)
    ensures !old(store.ready) && connection.Some? ==>
      && emitter.log == old(emitter.log) + [EventType("connection_error", opts)]
      && store.entries == old(store.entries)
      && (opts.ignoreCacheErrors ==>
            && next.calls == old(next.calls) + 1
            && (next.outcome.Throws? ==> r == Rejected(next.outcome.err)
                                          && ctx.res == old(ctx.res) && ctx.isStale == old(ctx.isStale))
            && (next.outcome.Returns? ==> r == Resolved(next.outcome.value)
                                          && ctx.res == next.outcome.res && ctx.isStale == next.outcome.isStale))
      && (!opts.ignoreCacheErrors ==>
            && r == Rejected(connection.value) && next.calls == old(next.calls)
            && ctx.res == old(ctx.res) && ctx.isStale == old(ctx.isStale))
    ensures old(store.ready) || connection.None? ==>
      && next.calls == old(next.calls) + 1
      // The response the context holds once downstream has run.
      && var res := if next.outcome.Returns? then next.outcome.res else old(ctx.res);
      && var stale := if next.outcome.Returns? then next.outcome.isStale else old(ctx.isStale);
      // Failure with a stale copy: the copy is served and the error suppressed.
      && (Failed(next.outcome) && read.Hit? ==>
            && r == Resolved(None)
            && ctx.isStale
            && ctx.res == (if opts.includeCacheStatusInCtx
                           then ToResponse(read.entry).(cacheStatus := Some("stale"))
                           else ToResponse(read.entry))
            && emitter.log == old(emitter.log) + [EventType("stale", opts)]
            && store.entries == old(store.entries))
      // Failure and a read error: the original error if read errors are ignored, else the read error.
      && (Failed(next.outcome) && read.ReadErr? ==>
            && r == Rejected(if opts.ignoreCacheErrors then OriginalError(next.outcome) else read.err)
            && ctx.res == (if opts.ignoreCacheErrors then ReadErrorStatus(res, opts, read.err) else res)
            && ctx.isStale == stale
            && emitter.log == old(emitter.log) && store.entries == old(store.entries))
      // Failure and no copy: the `HttpError` marker (a 5xx response, or the marker rethrown by
      // a stale-if-error middleware further downstream) goes through; any other error is rethrown.
      && (Failed(next.outcome) && read.Miss? ==>
            && r == (if OriginalError(next.outcome).HttpError? then Resolved(None)
                     else Rejected(next.outcome.err))
            && ctx.res == res && ctx.isStale == stale
            && emitter.log == old(emitter.log) && store.entries == old(store.entries))
      // Success: a cachable fresh response is written, fire and forget, and returned as JSON.
      && (!Failed(next.outcome) ==>
            && ctx.res == res && ctx.isStale == stale
            && emitter.log == old(emitter.log)
            && r == (if ShouldStore(res, wreck) then Resolved(Some(ToJson(res))) else Resolved(None))
            && store.entries ==
                 if ShouldStore(res, wreck) && setOk
                 then old(store.entries)[CreateCacheKey(Segment, staleId) :=
                        Entry(ToJson(res), StaleTtl(ResponseDirectives(wreck, res)), now, None)]
                 else old(store.entries))
  {
    if !store.ready {
      var err := store.Start(connection);
      if err.Some? {
        emitter.EmitCacheEvent("connection_error", opts);
        if opts.ignoreCacheErrors {
          r := next.Invoke(ctx);
          return;
        }
        return Rejected(err.value);
      }
    }

    var settled := next.Invoke(ctx);
    // A 5xx response fails with the module's own `HttpError` marker.
    var soft := settled.Resolved? && ctx.res.statusCode >= 500;
    if settled.Rejected? || soft {
      r := OnFailure(ctx, emitter, opts, read, if soft then HttpError else settled.err);
    } else {
      r := OnSuccess(store, access, ctx, staleId, now, wreck, setOk);
    }
  }

  /** The `catch` block: fall back to the `stale` copy after the failure `err`. */
  method OnFailure(ctx: Context, emitter: Emitter, opts: Opts, read: ReadOutcome, err: Error)
    returns (r: Completion)
    modifies ctx, emitter
    ensures read.Hit? ==>
      && r == Resolved(None)
      && ctx.isStale
      && ctx.res == (if opts.includeCacheStatusInCtx
                     then ToResponse(read.entry).(cacheStatus := Some("stale"))
                     else ToResponse(read.entry))
      && emitter.log == old(emitter.log) + [EventType("stale", opts)]
    ensures read.ReadErr? ==>
      && r == Rejected(if opts.ignoreCacheErrors then err else read.err)
      && ctx.res == (if opts.ignoreCacheErrors then ReadErrorStatus(old(ctx.res), opts, read.err) else old(ctx.res))
      && ctx.isStale == old(ctx.isStale) && emitter.log == old(emitter.log)
    ensures read.Miss? ==>
      && r == (if err.HttpError? then Resolved(None) else Rejected(err))
      && ctx.res == old(ctx.res) && ctx.isStale == old(ctx.isStale) && emitter.log == old(emitter.log)
  {
    match read {
      case ReadErr(cacheErr) =>
        if opts.ignoreCacheErrors {
          if opts.includeCacheStatusInCtx {
            if cacheErr.Error? && cacheErr.isTimeout {
              ctx.res := ctx.res.(cacheStatus := Some("timeout"));
            } else {
              ctx.res := ctx.res.(cacheStatus := Some("error"));
            }
          }
          return Rejected(err);
        }
        return Rejected(cacheErr);
      case Hit(cached) =>
        ctx.isStale := true;
        ctx.res := ToResponse(cached);
        if opts.includeCacheStatusInCtx {
          ctx.res := ctx.res.(cacheStatus := Some("stale"));
        }
        emitter.EmitCacheEvent("stale", opts);
        return Resolved(None);
      case Miss =>
        if err.HttpError? {
          return Resolved(None);
        }
        return Rejected(err);
    }
  }

  /** After a success: keep a `stale` copy of a cachable fresh response (fire and forget)
      and return its `toJSON()`. */
  method OnSuccess(store: Store, access: AccessLayer, ctx: Context, staleId: string, now: int,
                   wreck: string -> Directives, setOk: bool)
    returns (r: Completion)
    modifies store
    ensures r == (if ShouldStore(ctx.res, wreck) then Resolved(Some(ToJson(ctx.res))) else Resolved(None))
    ensures store.entries ==
      if ShouldStore(ctx.res, wreck) && setOk
      then old(store.entries)[CreateCacheKey(Segment, staleId) :=
             Entry(ToJson(ctx.res), StaleTtl(ResponseDirectives(wreck, ctx.res)), now, None)]
      else old(store.entries)
    ensures store.ready == old(store.ready) && store.starts == old(store.starts)
  {
    var cacheControl := ResponseDirectives(wreck, ctx.res);

    if IsCachable(cacheControl) && !ctx.res.fromCache {
      var ttl := StaleTtl(cacheControl);
      access.StoreInCache(store, Segment, staleId, ToJson(ctx.res), ttl, now, setOk);
      return Resolved(Some(ToJson(ctx.res)));
    }
    r := Resolved(None);
  }
}
