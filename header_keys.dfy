/** lib/cacheKeyWithHeaders.js: a cache key extended with the request's headers. */
module HeaderKey {
  import opened Transport

  /** `cacheKeyWithHeaders(key, headers = {})`: the key, followed by the serialised headers
      (`json` is `JSON.stringify`, not part of this model) unless there are none. */
  function CacheKeyWithHeaders(json: Headers -> string, key: string, headers: Headers := []): (r: string)
    ensures headers == [] ==> r == key
    ensures headers != [] ==> r == key + json(headers)
    ensures |key| <= |r| && r[..|key|] == key
  {
    var headersString := if headers != [] then json(headers) else "";
    key + headersString
  }

  /** Keys built from different request keys with the same headers differ, so the header
      suffix never makes two requests collide. */
  lemma {:induction false} CacheKeyWithHeadersInjective(json: Headers -> string, k1: string, k2: string, headers: Headers)
    requires CacheKeyWithHeaders(json, k1, headers) == CacheKeyWithHeaders(json, k2, headers)
    ensures k1 == k2
  {
    var r := CacheKeyWithHeaders(json, k1, headers);
    var suffix := if headers != [] then json(headers) else "";
    assert r == k1 + suffix && r == k2 + suffix;
    assert |k1| == |k2|;
    assert k1 == r[..|k1|];
    assert k2 == r[..|k2|];
  }
}
