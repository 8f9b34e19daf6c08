/**
 * lib/cache.js: versioned cache keys, and reading from and writing to the store with
 * the access layer's own events (`cache.error`, `cache.hit`, `cache.miss`).
 */
module CacheAccess {
  import opened JsValues
  import opened Transport
  import opened Events

  /** The package version that prefixes every segment. */
  const VERSION: string := "1.0.0"

  /** The versioned prefix of every segment. */
  const SegmentPrefix: string := "http-transport:" + VERSION + ":"

  /** The store's two-part address. */
  datatype CacheKey = CacheKey(segment: string, id: string)

  /** `createCacheKey(segment, id)`: the segment behind the versioned prefix; the id unchanged. */
  function CreateCacheKey(segment: string, id: string): (key: CacheKey)
    ensures key.id == id
    ensures |key.segment| == |SegmentPrefix| + |segment|
    ensures key.segment[..|SegmentPrefix|] == SegmentPrefix
    ensures key.segment[|SegmentPrefix|..] == segment
  {
    var versionedSegment := SegmentPrefix + segment;
    CacheKey(versionedSegment, id)
  }

  /** Distinct segments or ids give distinct keys. */
  lemma CreateCacheKeyInjective(s1: string, id1: string, s2: string, id2: string)
    ensures CreateCacheKey(s1, id1) == CreateCacheKey(s2, id2) <==> s1 == s2 && id1 == id2
  {
    if CreateCacheKey(s1, id1) == CreateCacheKey(s2, id2) {
      assert s1 == CreateCacheKey(s1, id1).segment[|SegmentPrefix|..];
      assert s2 == CreateCacheKey(s2, id2).segment[|SegmentPrefix|..];
    }
  }

  /** The `body` segment of the max-age middleware and the `stale` segment of the
      stale-if-error middleware never share an entry. */
  lemma BodyAndStaleNeverCollide(id1: string, id2: string)
    ensures CreateCacheKey("body", id1) != CreateCacheKey("stale", id2)
  {
    CreateCacheKeyInjective("body", id1, "stale", id2);
  }

  /** What the store's `get` reports: an error, or the entry if there is one. */
  datatype GetResult = GetErr(err: Error) | GetOk(cached: Option<Entry>)

  /** The entry stored under `key`, if any. */
  function Find(entries: map<CacheKey, Entry>, key: CacheKey): Option<Entry>
  {
    if key in entries then Some(entries[key]) else None
  }

  /** The external key-value store: its entries and whether it has been started.
      `fault` inputs say whether a call to it fails; when it works it behaves as a map. */
  class Store {
    var entries: map<CacheKey, Entry>
    var ready: bool
    /** How many times `start` has been called. */
    var starts: nat

    constructor (entries: map<CacheKey, Entry>, ready: bool)
      ensures this.entries == entries && this.ready == ready && starts == 0
    {
      this.entries := entries;
      this.ready := ready;
      starts := 0;
    }

    /** `get(key)`, seen from the caller. */
    function Get(key: CacheKey, fault: Option<Error>): (g: GetResult)
      reads this
    {
      if fault.Some? then GetErr(fault.value) else GetOk(Find(entries, key))
    }

    /** `start()`: `failure` is the error it rejects with, if any. */
    method Start(failure: Option<Error>) returns (err: Option<Error>)
      modifies this
      ensures err == failure
      ensures ready == (old(ready) || failure.None?)
      ensures starts == old(starts) + 1 && entries == old(entries)
    {
      starts := starts + 1;
      if failure.None? {
        ready := true;
      }
      err := failure;
    }

    /** `set(key, item, ttl)` at time `now`; a failing set leaves the entries as they were. */
    method Set(key: CacheKey, item: Response, ttl: JsNum, now: int, ok: bool)
      modifies this
      ensures entries == if ok then old(entries)[key := Entry(item, ttl, now, None)] else old(entries)
      ensures ready == old(ready) && starts == old(starts)
    {
      if ok {
        entries := entries[key := Entry(item, ttl, now, None)];
      }
    }
  }

  /** The module-level state of lib/cache.js: its own emitter, separate from that of
      lib/events.js, as the log of event types emitted on it. */
  class AccessLayer {
    var log: seq<string>

    constructor ()
      ensures log == []
    {
      log := [];
    }

    /** `getFromCache(cache, segment, id, opts)`: a failing get emits `cache.error` and rejects
        with the store's error unless `ignoreCacheErrors`, in which case it goes on as a miss;
        otherwise exactly one of `cache.miss` or `cache.hit` is emitted and the entry is
        returned unchanged. */
    method GetFromCache(store: Store, segment: string, id: string, opts: Opts, fault: Option<Error>)
      returns (r: Result<Option<Entry>, Error>)
      modifies this
      ensures var key := CreateCacheKey(segment, id);
        match store.Get(key, fault)
        case GetErr(e) =>
          if opts.ignoreCacheErrors
          then r == Success(None) && log == old(log) + ["cache.error", "cache.miss"]
          else r == Failure(e) && log == old(log) + ["cache.error"]
        case GetOk(cached) =>
          r == Success(cached)
          && log == old(log) + [if cached.None? then "cache.miss" else "cache.hit"]
    {
      var got := store.Get(CreateCacheKey(segment, id), fault);
      var cached: Option<Entry> := None;
      match got {
        case GetErr(e) =>
          log := log + ["cache.error"];
          if !opts.ignoreCacheErrors {
            return Failure(e);
          }
        case GetOk(c) =>
          cached := c;
      }
      if cached.None? {
        log := log + ["cache.miss"];
      } else {
        log := log + ["cache.hit"];
      }
      r := Success(cached);
    }

    /** `storeInCache(cache, segment, id, body, ttl)`: issues the store's `set` and always
        resolves, whatever the set reports. */
    method StoreInCache(store: Store, segment: string, id: string, body: Response, ttl: JsNum, now: int, setOk: bool)
      modifies store
      ensures store.entries == if setOk then old(store.entries)[CreateCacheKey(segment, id) := Entry(body, ttl, now, None)]
                               else old(store.entries)
      ensures store.ready == old(store.ready) && store.starts == old(store.starts)
    {
      store.Set(CreateCacheKey(segment, id), body, ttl, now, setOk);
    }

    /** Storing a value and then reading it back from a working store gives that value
        as the item, with the ttl it was stored with. */
    method StoreThenRead(store: Store, segment: string, id: string, body: Response, ttl: JsNum, now: int, opts: Opts)
      returns (r: Result<Option<Entry>, Error>)
      modifies this, store
      ensures r == Success(Some(Entry(body, ttl, now, None)))
      ensures log == old(log) + ["cache.hit"]
      ensures store.entries == old(store.entries)[CreateCacheKey(segment, id) := Entry(body, ttl, now, None)]
      ensures store.ready == old(store.ready) && store.starts == old(store.starts)
    {
      StoreInCache(store, segment, id, body, ttl, now, true);
      r := GetFromCache(store, segment, id, opts, None);
    }
  }
}
