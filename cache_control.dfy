/**
 * Parsed Cache-Control directives and the cacheability test of lib/isCachable.js,
 * after RFC 9111 section 5.2.2 (`no-store`, `private`, `max-age`) and
 * RFC 5861 section 4 (`stale-if-error`).
 */
module CacheControl {
  import opened JsValues
  import opened Transport

  /** A directive value as the header parser produces it: a number (negative ones
      included, as `parseInt` gives them), a bare flag (`true` in JavaScript) or a string. */
  datatype Value = Num(n: int) | Flag | Str(s: string)

  /** The parsed header, mapping each directive name to its value. */
  type Directives = map<string, Value>

  /** `cacheControl[name]`: `None` is `undefined`. */
  function Get(cc: Directives, name: string): Option<Value>
  {
    if name in cc then Some(cc[name]) else None
  }

  /** JavaScript truthiness of a looked-up directive: `undefined`, `0` and `''` are falsy. */
  predicate Truthy(v: Option<Value>)
  {
    match v
    case None => false
    case Some(Num(n)) => n != 0
    case Some(Flag) => true
    case Some(Str(s)) => s != ""
  }

  predicate IsDigit(c: char)
  {
    '0' <= c <= '9'
  }

  predicate AllDigits(s: string)
  {
    forall i :: 0 <= i < |s| ==> IsDigit(s[i])
  }

  /** The value of a string of decimal digits. */
  function DecimalValue(s: string): nat
    requires AllDigits(s)
  {
    if s == [] then 0
    else DecimalValue(s[..|s| - 1]) * 10 + (s[|s| - 1] as int - '0' as int)
  }

  /** JavaScript's numeric coercion of a directive value, as `*` applies it:
      `undefined` is NaN, `true` is 1, `''` is 0, a digit string is its value.
      Other numeric spellings of strings (sign, point, exponent, spaces) are NaN here. */
  function ToNumber(v: Option<Value>): JsNum
  {
    match v
    case None => None
    case Some(Num(n)) => Some(n)
    case Some(Flag) => Some(1)
    case Some(Str(s)) =>
      if s == "" then Some(0)
      else if AllDigits(s) then Some(DecimalValue(s))
      else None
  }

  /** lib/isCachable.js: the parsed directives allow the response to be stored.
      Only the directive map is consulted; any further argument a caller passes is ignored. */
  predicate IsCachable(cc: Directives): (r: bool)
    ensures cc == map[] ==> !r
    ensures Truthy(Get(cc, "no-store")) ==> !r
    ensures Truthy(Get(cc, "private")) ==> !r
    ensures !Truthy(Get(cc, "max-age")) && !Truthy(Get(cc, "stale-if-error")) ==> !r
    ensures (cc != map[] && !Truthy(Get(cc, "no-store")) && !Truthy(Get(cc, "private"))
             && (Truthy(Get(cc, "max-age")) || Truthy(Get(cc, "stale-if-error")))) ==> r
  {
    && cc != map[]
    && !Truthy(Get(cc, "no-store"))
    && !Truthy(Get(cc, "private"))
    && (Truthy(Get(cc, "max-age")) || Truthy(Get(cc, "stale-if-error")))
  }

  /** A numeric zero `max-age` or `stale-if-error` counts as absent: alone it is never
      cachable. (The text `"0"` is truthy, see `TextZeroIsCachable`.) */
  lemma ZeroIsNotCachable(cc: Directives)
    requires Get(cc, "max-age") == None || Get(cc, "max-age") == Some(Num(0))
    requires Get(cc, "stale-if-error") == None || Get(cc, "stale-if-error") == Some(Num(0))
    ensures !IsCachable(cc)
  {
  }

  /** A `stale-if-error` left as the text `"0"` is truthy, so it alone makes the directives
      cachable. */
  lemma TextZeroIsCachable()
    ensures IsCachable(map["stale-if-error" := Str("0")])
  {
    assert Get(map["stale-if-error" := Str("0")], "stale-if-error") == Some(Str("0"));
  }

  /** Adding a `no-store` or `private` directive never turns a refusal into a permission
      (a truthy one always refuses; a falsy one can only be added where none was). */
  lemma {:induction false} PrivacyNeverEnables(cc: Directives, k: string, v: Value)
    requires k == "no-store" || k == "private"
    requires k !in cc || Truthy(Some(v))
    ensures IsCachable(cc[k := v]) ==> IsCachable(cc)
  {
    var cc' := cc[k := v];
    if IsCachable(cc') {
      assert Get(cc', k) == Some(v);
      assert k !in cc;
      assert k != "max-age" && k != "stale-if-error";
      assert Get(cc', "max-age") == Get(cc, "max-age");
      assert Get(cc', "stale-if-error") == Get(cc, "stale-if-error");
      assert Get(cc', "no-store") == Get(cc, "no-store") || k == "no-store";
      assert Get(cc', "private") == Get(cc, "private") || k == "private";
      assert cc != map[] by {
        if Truthy(Get(cc, "max-age")) { assert "max-age" in cc; }
        else { assert "stale-if-error" in cc; }
      }
    }
  }

  /** lib/parseCacheControl.js: an absent or empty header gives an empty directive map;
      any other header is handed to the header parser `wreck`, which is not part of this model.
      A `null` that parser returns for a malformed header is treated like the empty map by
      both middlewares, so `wreck` here returns the empty map in that case. */
  function ParseCacheControl(wreck: string -> Directives, header: Option<string>): (cc: Directives)
    ensures header.None? || header == Some("") ==> cc == map[]
  {
    if header.None? || header.value == "" then map[] else wreck(header.value)
  }

  /** The directives of a response's Cache-Control header. */
  function ResponseDirectives(wreck: string -> Directives, res: Response): Directives
  {
    ParseCacheControl(wreck, HeaderValue(res.headers, "cache-control"))
  }
}
