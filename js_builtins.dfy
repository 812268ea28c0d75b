/** Models of the JavaScript built-ins the core relies on: optional values,
    `null` versus `undefined`, string truthiness and `Array.prototype.splice`
    at index 0. */
module JsBuiltins {

  /** A value that is either absent (`undefined`) or present. */
  datatype Option<T> = None | Some(value: T)

  /** A property of parsed JSON: missing (`undefined`), `null`, or a value.
      Optional chaining (`?.`) and `??` treat the first two alike, but they
      survive a copy unchanged. */
  datatype Nullable<T> = Undefined | Null | Defined(value: T)

  /** A string-typed property is truthy when it holds a non-empty string. */
  predicate Truthy(x: Nullable<string>) {
    x.Defined? && x.value != ""
  }

  function Min(a: int, b: int): int {
    if a <= b then a else b
  }

  /** `a.splice(0, count)` on an array holding `s`: the removed front, and
      what the array holds afterwards. */
  function SpliceFront<T>(s: seq<T>, count: nat): (r: (seq<T>, seq<T>))
    ensures |r.0| == Min(count, |s|)
    ensures r.0 + r.1 == s
  {
    var k := Min(count, |s|);
    (s[..k], s[k..])
  }
}
