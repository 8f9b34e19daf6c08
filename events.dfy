/** lib/events.js: naming cache events and emitting them on a shared emitter. */
module Events {
  import opened JsValues

  /** The options of a middleware instance that the model reads. An absent option bag
      is `Opts(None, false, false)`. */
  datatype Opts = Opts(name: Option<string>, ignoreCacheErrors: bool, includeCacheStatusInCtx: bool)

  /** `opts && opts.name ? opts.name : null`: only a non-empty name counts. */
  function EventName(opts: Opts): (name: Option<string>)
    ensures name.Some? ==> name.value != "" && opts.name == name
    ensures opts.name.Some? && opts.name.value != "" ==> name == opts.name
  {
    if opts.name.Some? && opts.name.value != "" then opts.name else None
  }

  /** The emitted event type: `cache.<name>.<event>` with a name, `cache.<event>` without. */
  function EventType(event: string, opts: Opts): (t: string)
    ensures EventName(opts).Some? ==> t == "cache." + EventName(opts).value + "." + event
    ensures EventName(opts).None? ==> t == "cache." + event
    ensures |t| >= |"cache."| + |event|
    ensures t[..|"cache."|] == "cache." && t[|t| - |event|..] == event
  {
    var name := EventName(opts);
    if name.Some? then "cache." + name.value + "." + event else "cache." + event
  }

  /** Without a name, distinct events have distinct types, so subscribers can tell them apart. */
  lemma {:induction false} UnnamedTypesDistinct(e1: string, e2: string, opts: Opts)
    requires EventName(opts).None?
    requires EventType(e1, opts) == EventType(e2, opts)
    ensures e1 == e2
  {
    var t := EventType(e1, opts);
    assert e1 == t[|"cache."|..];
    assert e2 == EventType(e2, opts)[|"cache."|..];
  }

  /** The process-wide emitter of lib/events.js, as the log of event types emitted on it.
      Emissions carry no payload. */
  class Emitter {
    var log: seq<string>

    constructor ()
      ensures log == []
    {
      log := [];
    }

    /** `emitCacheEvent(event, opts, ...)`: appends exactly one event type; any context or
        error a caller passes along is dropped. */
    method EmitCacheEvent(event: string, opts: Opts)
      modifies this
      ensures log == old(log) + [EventType(event, opts)]
    {
      log := log + [EventType(event, opts)];
    }
  }
}
