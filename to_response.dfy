/** lib/toResponse.js: turning an entry read from the store back into a response. */
module Conversion {
  import opened JsValues
  import opened Transport

  /** The response served from a cached entry: the item's five served fields, marked as
      coming from the cache, with the ttl and `revalidate` of the entry itself (its top
      level, not its item). */
  function ToResponse(cached: Entry): (r: Response)
    ensures r.fromCache
    ensures r.body == cached.item.body && r.headers == cached.item.headers
    ensures r.statusCode == cached.item.statusCode && r.elapsedTime == cached.item.elapsedTime
    ensures r.url == cached.item.url
    ensures r.ttl == cached.ttl && r.revalidate == cached.revalidate
    ensures r.itemRevalidate == None && r.cacheStatus == None
  {
    var res := cached.item;
    Response(res.body, res.headers, res.statusCode, res.elapsedTime, res.url,
             true, cached.ttl, cached.revalidate, None, None)
  }

  /** Nothing else of the item is carried over: entries that agree on the five served
      fields, the ttl and the top-level `revalidate` give the same response, whatever
      their items' own `fromCache`, `ttl`, `revalidate` or `cacheStatus` are, and
      whenever they were stored. */
  lemma ToResponseIgnoresRest(a: Entry, b: Entry)
    requires a.item.body == b.item.body && a.item.headers == b.item.headers
    requires a.item.statusCode == b.item.statusCode && a.item.elapsedTime == b.item.elapsedTime
    requires a.item.url == b.item.url
    requires a.ttl == b.ttl && a.revalidate == b.revalidate
    ensures ToResponse(a) == ToResponse(b)
  {
  }

  /** Serving a stored `toJSON()` copy returns exactly what was stored, in the five served fields. */
  lemma ServedCopyMatchesStored(res: Response, ttl: JsNum, stored: int)
    ensures var r := ToResponse(Entry(ToJson(res), ttl, stored, None));
      r.body == res.body && r.headers == res.headers && r.statusCode == res.statusCode
      && r.elapsedTime == res.elapsedTime && r.url == res.url && r.fromCache
  {
  }
}
