/**
 * The parts of the surrounding HTTP client pipeline the middlewares touch: the
 * request, the response record, the entry the store hands back, the per-request
 * context object and the downstream call `next()`.
 */
module Transport {
  import opened JsValues

  /** Header names and values in insertion order, as a JavaScript object keeps them. */
  type Headers = seq<(string, string)>

  /** `headers[name]`: the value of the first header with exactly that name. */
  function HeaderValue(headers: Headers, name: string): (v: Option<string>)
    ensures v.Some? ==> (name, v.value) in headers
    ensures v.None? ==> forall h :: h in headers ==> h.0 != name
  {
    if headers == [] then None
    else if headers[0].0 == name then Some(headers[0].1)
    else HeaderValue(headers[1..], name)
  }

  /** What `req.getRequestKey()` and `req.getHeaders()` give. */
  datatype Request = Request(requestKey: string, headers: Headers)

  /** A thrown error: its message and whether it is a timeout (`instanceof TimeoutError`);
      `HttpError` is the sentinel lib/staleIfError.js throws for a 5xx response. */
  datatype Error = Error(message: string, isTimeout: bool) | HttpError

  /** A response record. `fromCache`, `ttl`, `revalidate` and `cacheStatus` are the
      fields a cached copy carries; `itemRevalidate` is `res.item.revalidate`, read by
      lib/maxAge.js for a response that wraps a stored item (`None` when absent). */
  datatype Response = Response(
    body: string,
    headers: Headers,
    statusCode: int,
    elapsedTime: int,
    url: string,
    fromCache: bool,
    ttl: JsNum,
    revalidate: JsNum,
    itemRevalidate: JsNum,
    cacheStatus: Option<string>)

  /** What the store's `get` hands back: the stored item, its ttl, when it was stored,
      and a top-level `revalidate` field. */
  datatype Entry = Entry(item: Response, ttl: JsNum, stored: int, revalidate: JsNum)

  /** The transport's `res.toJSON()` (a foreign library, not part of this model), taken as the
      projection onto the five fields the transport serialises. */
  function ToJson(res: Response): (j: Response)
    ensures j.body == res.body && j.headers == res.headers && j.statusCode == res.statusCode
    ensures j.elapsedTime == res.elapsedTime && j.url == res.url
    ensures !j.fromCache && j.ttl == None && j.revalidate == None
    ensures j.itemRevalidate == None && j.cacheStatus == None
  {
    Response(res.body, res.headers, res.statusCode, res.elapsedTime, res.url,
             false, None, None, None, None)
  }

  /** How a middleware's returned promise settles: with a value or `undefined`, or rejected. */
  datatype Completion = Resolved(value: Option<Response>) | Rejected(err: Error)

  /** The per-request context the middlewares read and update in place. */
  class Context {
    const req: Request
    var res: Response
    var isStale: bool

    constructor (req: Request, res: Response)
      ensures this.req == req && this.res == res && !isStale
    {
      this.req := req;
      this.res := res;
      isStale := false;
    }
  }

  /** What the rest of the pipeline does when called: it throws, or it sets `ctx.res`
      (and possibly `ctx.isStale`, as a stale-if-error middleware further down does) and
      resolves with `value` (`None` is `undefined`). */
  datatype NextOutcome = Throws(err: Error) | Returns(res: Response, isStale: bool, value: Option<Response>)

  /** The downstream call `next()`, with the outcome it will have and a count of calls. */
  class Next {
    const outcome: NextOutcome
    var calls: nat

    constructor (outcome: NextOutcome)
      ensures this.outcome == outcome && calls == 0
    {
      this.outcome := outcome;
      calls := 0;
    }

    /** `await next()`: how its promise settles, rejected with what it throws or resolved
        with its value. */
    method Invoke(ctx: Context) returns (c: Completion)
      modifies this, ctx
      ensures calls == old(calls) + 1
      ensures outcome.Throws? ==> c == Rejected(outcome.err) && ctx.res == old(ctx.res) && ctx.isStale == old(ctx.isStale)
      ensures outcome.Returns? ==> c == Resolved(outcome.value) && ctx.res == outcome.res && ctx.isStale == outcome.isStale
    {
      calls := calls + 1;
      match outcome
      case Throws(e) =>
        c := Rejected(e);
      case Returns(res, stale, value) =>
        ctx.res, ctx.isStale := res, stale;
        c := Resolved(value);
    }
  }
}
