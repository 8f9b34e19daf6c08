/** lib/getRequestId.js: a request id made of the request key and the headers it varies on. */
module RequestId {
  import opened Transport

  /** `pickBy(headers, (value, key) => !doNotVary.includes(key))`: the headers whose name is
      not listed, in their original order and with their values. Names match exactly
      (case-sensitive). */
  function FilterHeaders(headers: Headers, doNotVary: seq<string>): (r: Headers)
    ensures |r| <= |headers|
    decreases headers
  {
    if headers == [] then []
    else (if headers[0].0 in doNotVary then [] else [headers[0]]) + FilterHeaders(headers[1..], doNotVary)
  }

  /** The kept headers are exactly those whose name is not listed. */
  lemma {:induction false} FilterKeepsExactly(headers: Headers, doNotVary: seq<string>, h: (string, string))
    ensures h in FilterHeaders(headers, doNotVary) <==> h in headers && h.0 !in doNotVary
    decreases headers
  {
    if headers != [] {
      FilterKeepsExactly(headers[1..], doNotVary, h);
      assert headers == [headers[0]] + headers[1..];
    }
  }

  /** Filtering distributes over concatenation, so it keeps the headers' order. */
  lemma {:induction false} FilterAppend(a: Headers, b: Headers, doNotVary: seq<string>)
    ensures FilterHeaders(a + b, doNotVary) == FilterHeaders(a, doNotVary) + FilterHeaders(b, doNotVary)
    decreases a
  {
    if a != [] {
      assert (a + b)[1..] == a[1..] + b;
      FilterAppend(a[1..], b, doNotVary);
    } else {
      assert a + b == b;
    }
  }

  /** With the default empty `doNotVary` every header is kept. */
  lemma {:induction false} FilterNothing(headers: Headers)
    ensures FilterHeaders(headers, []) == headers
    decreases headers
  {
    if headers != [] {
      FilterNothing(headers[1..]);
    }
  }

  /** Enlarging `doNotVary` only removes further entries from what was kept. */
  lemma {:induction false} FilterMonotone(headers: Headers, d1: seq<string>, d2: seq<string>)
    requires forall k :: k in d1 ==> k in d2
    ensures FilterHeaders(headers, d2) == FilterHeaders(FilterHeaders(headers, d1), d2)
    decreases headers
  {
    if headers != [] {
      FilterMonotone(headers[1..], d1, d2);
      var rest := FilterHeaders(headers[1..], d1);
      if headers[0].0 !in d1 {
        assert FilterHeaders(headers, d1) == [headers[0]] + rest;
        assert ([headers[0]] + rest)[1..] == rest;
      } else {
        assert FilterHeaders(headers, d1) == rest;
      }
    }
  }

  /** `getRequestId(req, doNotVary = [])`: the request key followed by the serialised
      (`json`, that is `JSON.stringify`) headers minus those in `doNotVary`. Unlike
      `CacheKeyWithHeaders`, an empty header set still appends `json([])`. */
  function GetRequestId(json: Headers -> string, req: Request, doNotVary: seq<string> := []): (id: string)
    ensures |req.requestKey| <= |id| && id[..|req.requestKey|] == req.requestKey
    ensures id[|req.requestKey|..] == json(FilterHeaders(req.headers, doNotVary))
  {
    var headersToVary := FilterHeaders(req.headers, doNotVary);
    req.requestKey + json(headersToVary)
  }

  /** Filtering drops a listed header wherever it stands. */
  lemma {:induction false} FilterDropsListed(a: Headers, h: (string, string), b: Headers, doNotVary: seq<string>)
    requires h.0 in doNotVary
    ensures FilterHeaders(a + [h] + b, doNotVary) == FilterHeaders(a + b, doNotVary)
  {
    FilterAppend(a + [h], b, doNotVary);
    FilterAppend(a, [h], doNotVary);
    FilterAppend(a, b, doNotVary);
    assert [h][1..] == [];
    assert FilterHeaders([h], doNotVary) == [];
  }

  /** A header listed in `doNotVary` does not affect the id, wherever it stands. */
  lemma IgnoredHeaderDoesNotVary(json: Headers -> string, key: string, a: Headers, b: Headers,
                                 name: string, value: string, doNotVary: seq<string>)
    requires name in doNotVary
    ensures GetRequestId(json, Request(key, a + [(name, value)] + b), doNotVary)
         == GetRequestId(json, Request(key, a + b), doNotVary)
  {
    FilterDropsListed(a, (name, value), b, doNotVary);
  }

  /** Matching is case-sensitive: a differently cased name does not remove a header. */
  lemma CaseSensitiveMatch()
    ensures FilterHeaders([("Request-ID", "123")], ["request-id"]) == [("Request-ID", "123")]
  {
  }
}
