/**
 The JavaScript values that the POST handler inspects: the fields of a JSON
 request body, their truthiness, what `parseFloat` makes of them, the
 comparisons the range checks use, and ASCII upper-casing for the
 `toUpperCase` calls of the customer lookup.
 */
module JsValues {

  datatype Option<+T> = None | Some(value: T)

  /** A JavaScript number as far as the range checks can tell numbers apart. */
  datatype Number = NaN | Finite(value: real) | Infinity(negative: bool)

  /**
   A value that JSON body parsing can store under a key of the request body.
   `Composite` stands for an array or an object; `text` is what `String(...)`
   turns it into, which is what `parseFloat` reads, or `None` when that
   conversion throws (an object whose `toString` key holds a value that is
   not a function, or an array holding such an object).
   */
  datatype Json = Null | Bool(b: bool) | Num(n: Number) | Str(s: string) | Composite(text: Option<string>)

  /**
   JavaScript truthiness of a body field; `None` is a key the body does not
   have (`undefined`). Falsy are `undefined`, `null`, `false`, `0`, `-0`, `NaN`
   and the empty string; arrays and objects are always truthy.
   */
  predicate Truthy(f: Option<Json>) {
    match f
    case None => false
    case Some(Null) => false
    case Some(Bool(b)) => b
    case Some(Num(n)) => n != NaN && n != Finite(0.0)
    case Some(Str(s)) => s != ""
    case Some(Composite(_)) => true
  }

  /**
   Reference list: the falsy field values are exactly `undefined`, `null`,
   `false`, `NaN`, `0` (both zeros are the one value `Finite(0.0)`) and `""`.
   */
  lemma FalsyValues(f: Option<Json>)
    ensures !Truthy(f) <==>
              f == None || f == Some(Null) || f == Some(Bool(false))
              || f == Some(Num(NaN)) || f == Some(Num(Finite(0.0))) || f == Some(Str(""))
  {
  }

  /**
   `parseFloat(v)`: a number is returned as it is; any other value is first
   converted to its string form, which `parseText` (the string parser of the
   JavaScript engine, not modelled) reads. `None` is the TypeError thrown when
   the conversion to a string fails.
   */
  function ParseFloat(v: Json, parseText: string -> Number): (r: Option<Number>)
    ensures r.None? <==> v == Composite(None)
    ensures v.Num? ==> r == Some(v.n)
    ensures v.Str? ==> r == Some(parseText(v.s))
  {
    match v
    case Num(n) => Some(n)
    case Str(s) => Some(parseText(s))
    case Bool(b) => Some(parseText(if b then "true" else "false"))
    case Null => Some(parseText("null"))
    case Composite(None) => None
    case Composite(Some(text)) => Some(parseText(text))
  }

  /** JavaScript `x > k` for a finite constant `k`; false when `x` is NaN. */
  predicate Greater(x: Number, k: real) {
    match x
    case NaN => false
    case Finite(v) => v > k
    case Infinity(negative) => !negative
  }

  /** JavaScript `x < k` for a finite constant `k`; false when `x` is NaN. */
  predicate Less(x: Number, k: real) {
    match x
    case NaN => false
    case Finite(v) => v < k
    case Infinity(negative) => negative
  }

  /** `isNaN(x)` on a value that is already a number. */
  predicate IsNaN(x: Number) {
    x.NaN?
  }

  /** Reference definition: `x` is a finite number in the closed range [-bound, bound]. */
  predicate WithinClosed(x: Number, bound: real) {
    x.Finite? && -bound <= x.value <= bound
  }

  /**
   The range test the handler writes, `x > bound || x < -bound || isNaN(x)`,
   rejects exactly the numbers outside the closed range: the bounds
   themselves pass, NaN and both infinities fail.
   */
  lemma RejectedIffOutsideClosed(x: Number, bound: real)
    requires bound >= 0.0
    ensures (Greater(x, bound) || Less(x, -bound) || IsNaN(x)) <==> !WithinClosed(x, bound)
    ensures WithinClosed(Finite(bound), bound) && WithinClosed(Finite(-bound), bound)
  {
  }

  predicate IsLowerAscii(c: char) {
    'a' <= c <= 'z'
  }

  /** ASCII upper-casing of one character; every other character is kept. */
  function UpperChar(c: char): (u: char)
    ensures !IsLowerAscii(u)
    ensures IsLowerAscii(c) ==> u as int == c as int - 32
    ensures !IsLowerAscii(c) ==> u == c
  {
    if IsLowerAscii(c) then (c as int - 32) as char else c
  }

  /** `s.toUpperCase()`, restricted to ASCII letters. */
  function Upper(s: string): (r: string)
    ensures |r| == |s|
    ensures forall i :: 0 <= i < |s| ==> r[i] == UpperChar(s[i])
  {
    if s == [] then [] else [UpperChar(s[0])] + Upper(s[1..])
  }

  /** Reference definition: two characters are the same letter up to ASCII case. */
  predicate SameIgnoringCase(c: char, d: char) {
    c == d
    || (IsLowerAscii(c) && d as int == c as int - 32)
    || (IsLowerAscii(d) && c as int == d as int - 32)
  }

  /** Reference definition: two strings agree position by position up to ASCII case. */
  predicate EqualIgnoringCase(a: string, b: string) {
    |a| == |b| && forall i :: 0 <= i < |a| ==> SameIgnoringCase(a[i], b[i])
  }

  lemma UpperCharAgrees(c: char, d: char)
    ensures UpperChar(c) == UpperChar(d) <==> SameIgnoringCase(c, d)
  {
  }

  /**
   Comparing upper-cased strings, as the lookup does, is exactly equality up to
   ASCII case: same length, and each position the same letter in either case.
   */
  lemma UpperEqualIffEqualIgnoringCase(a: string, b: string)
    ensures Upper(a) == Upper(b) <==> EqualIgnoringCase(a, b)
  {
    if Upper(a) == Upper(b) {
      forall i | 0 <= i < |a|
        ensures SameIgnoringCase(a[i], b[i])
      {
        assert Upper(a)[i] == Upper(b)[i];
        UpperCharAgrees(a[i], b[i]);
      }
    }
    if EqualIgnoringCase(a, b) {
      forall i | 0 <= i < |a|
        ensures Upper(a)[i] == Upper(b)[i]
      {
        UpperCharAgrees(a[i], b[i]);
      }
    }
  }
}
