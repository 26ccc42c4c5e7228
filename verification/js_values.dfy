/** The JavaScript values the form helpers and the provider handle, and the
    pieces of JavaScript semantics they rely on: `typeof`, `Object.keys`,
    the `%` operator, array indexing and a JSON round trip. */
module JsValues {
  import opened Wrappers

  /** A JavaScript value. Numbers are restricted to integers; an object is a
      map from property name to value (property order is not modelled). */
  datatype JsValue =
    | Undefined
    | Null
    | Bool(b: bool)
    | Num(n: int)
    | Str(s: string)
    | Arr(elems: seq<JsValue>)
    | Obj(fields: map<string, JsValue>)

  /** The string `typeof v` evaluates to; `null` and arrays are "object". */
  function TypeOf(v: JsValue): string
  {
    match v
    case Undefined => "undefined"
    case Null => "object"
    case Bool(_) => "boolean"
    case Num(_) => "number"
    case Str(_) => "string"
    case Arr(_) => "object"
    case Obj(_) => "object"
  }

  /** `Object.keys(v).length`. `Object.keys` throws a TypeError on `undefined`
      and `null`, and boxes every other primitive: a number or boolean has no
      own enumerable keys. A string has one key per UTF-16 code unit, which
      this model approximates by its length in characters. */
  function OwnKeyCount(v: JsValue): (r: Result<nat>)
    ensures r.Failure? <==> v.Undefined? || v.Null?
    ensures v.Bool? || v.Num? ==> r == Success(0)
    ensures v.Arr? ==> r == Success(|v.elems|)
    ensures v.Obj? ==> (r == Success(0) <==> v.fields == map[])
  {
    match v
    case Undefined => Result<nat>.Failure("Cannot convert undefined or null to object")
    case Null => Result<nat>.Failure("Cannot convert undefined or null to object")
    case Bool(_) => Success(0)
    case Num(_) => Success(0)
    case Str(s) => Success(|s|)
    case Arr(e) => Success(|e|)
    case Obj(f) => Success(|f|)
  }

  /** JavaScript's `a % n` for an integer dividend and a length divisor.
      `None` is NaN, which is what `% 0` yields. Unlike Dafny's Euclidean `%`,
      the JavaScript remainder takes the sign of the dividend. */
  function JsRemainder(a: int, n: nat): (r: Option<int>)
    ensures r.None? <==> n == 0
    ensures r.Some? ==> -(n as int) < r.value < n
    ensures r.Some? ==> (a - r.value) % n == 0
    ensures r.Some? && r.value != 0 ==> (r.value < 0 <==> a < 0)
  {
    if n == 0 then None
    else if a >= 0 then
      assert (a - a % n) % n == 0 by {
        assert a - a % n == n * (a / n);
        MultipleHasNoRemainder(n, a / n);
      }
      Some(a % n)
    else
      var m := (-a) % n;
      assert (a + m) % n == 0 by { NegatedRemainder(-a, n); }
      Some(-m)
  }

  lemma NegatedRemainder(b: int, n: int)
    requires b >= 0 && n > 0
    ensures (-b + b % n) % n == 0
  {
    var q := b / n;
    assert -b + b % n == n * (-q);
    MultipleHasNoRemainder(n, -q);
  }

  lemma MultipleHasNoRemainder(n: int, k: int)
    requires n > 0
    ensures (n * k) % n == 0
  {
    var q, r := (n * k) / n, (n * k) % n;
    assert n * q + r == n * k;
    assert r == n * (k - q);
    ProductBounds(n, k - q);
  }

  /** `-b` is a multiple of `n` exactly when `b` is. */
  lemma NegatedDivisibility(b: int, n: int)
    ensures n > 0 ==> ((-b) % n == 0 <==> b % n == 0)
  {
    if n > 0 {
      assert b == n * (b / n) + b % n;
      assert -b == n * ((-b) / n) + (-b) % n;
      if b % n == 0 {
        assert -b == n * -(b / n);
        MultipleHasNoRemainder(n, -(b / n));
      }
      if (-b) % n == 0 {
        assert b == n * -((-b) / n);
        MultipleHasNoRemainder(n, -((-b) / n));
      }
    }
  }

  lemma ProductBounds(n: int, d: int)
    requires n > 0
    ensures d >= 1 ==> n * d >= n
    ensures d <= -1 ==> n * d <= -n
  {
    if d >= 1 {
      assert n * d == n + n * (d - 1);
    } else if d <= -1 {
      assert n * d == -n + n * (d + 1);
    }
  }

  /** `elems[i]` for an index that is a JavaScript number: NaN and every
      index outside `0 .. |elems|-1` read `undefined`. */
  function ElementAt(elems: seq<JsValue>, i: Option<int>): (r: JsValue)
    ensures i.Some? && 0 <= i.value < |elems| ==> r == elems[i.value]
    ensures i.None? || i.value < 0 || i.value >= |elems| ==> r == Undefined
  {
    match i
    case None => Undefined
    case Some(k) => if 0 <= k < |elems| then elems[k] else Undefined
  }

  /** A value JSON can represent: `undefined` occurs nowhere inside it. */
  predicate IsJson(v: JsValue)
  {
    match v
    case Undefined => false
    case Arr(e) => forall i :: 0 <= i < |e| ==> IsJson(e[i])
    case Obj(f) => forall k :: k in f ==> IsJson(f[k])
    case _ => true
  }

  /** `JSON.parse(JSON.stringify(v))` for a value inside an object or array.
      An object property holding `undefined` is dropped and an array element
      holding `undefined` becomes `null`. */
  function JsonCopy(v: JsValue): (r: JsValue)
    ensures v.Undefined? ==> r == Null
    ensures v.Null? || v.Bool? || v.Num? || v.Str? ==> r == v
    ensures v.Arr? ==> r.Arr? && |r.elems| == |v.elems|
    ensures v.Arr? ==> forall i :: 0 <= i < |v.elems| && v.elems[i].Undefined? ==> r.elems[i] == Null
    ensures v.Arr? ==> forall i :: 0 <= i < |v.elems| ==> r.elems[i] == JsonCopy(v.elems[i])
    ensures v.Obj? ==> r.Obj? && forall k :: k in r.fields <==> k in v.fields && v.fields[k] != Undefined
    ensures v.Obj? ==> forall k :: k in r.fields ==> r.fields[k] == JsonCopy(v.fields[k])
  {
    match v
    case Undefined => Null
    case Arr(e) => Arr(seq(|e|, i requires 0 <= i < |e| => JsonCopy(e[i])))
    case Obj(f) => Obj(map k | k in f && !f[k].Undefined? :: JsonCopy(f[k]))
    case _ => v
  }

  /** The copy is always JSON data. */
  lemma {:induction false} JsonCopyIsJson(v: JsValue)
    ensures IsJson(JsonCopy(v))
  {
    match v
    case Arr(e) =>
      forall i | 0 <= i < |e| ensures IsJson(JsonCopy(e[i])) {
        JsonCopyIsJson(e[i]);
      }
    case Obj(f) =>
      forall k | k in f && !f[k].Undefined? ensures IsJson(JsonCopy(f[k])) {
        JsonCopyIsJson(f[k]);
      }
    case _ =>
  }

  /** On JSON data the round trip through a JSON string changes nothing. */
  lemma {:induction false} JsonCopyIdentity(v: JsValue)
    requires IsJson(v)
    ensures JsonCopy(v) == v
  {
    match v
    case Arr(e) =>
      var c := seq(|e|, i requires 0 <= i < |e| => JsonCopy(e[i]));
      forall i | 0 <= i < |e| ensures c[i] == e[i] {
        JsonCopyIdentity(e[i]);
      }
      assert c == e;
    case Obj(f) =>
      var c := map k | k in f && !f[k].Undefined? :: JsonCopy(f[k]);
      forall k | k in f ensures k in c && c[k] == f[k] {
        JsonCopyIdentity(f[k]);
      }
      assert c == f;
    case _ =>
  }

  /** Copying twice is the same as copying once. */
  lemma JsonCopyIdempotent(v: JsValue)
    ensures JsonCopy(JsonCopy(v)) == JsonCopy(v)
  {
    JsonCopyIsJson(v);
    JsonCopyIdentity(JsonCopy(v));
  }
}
