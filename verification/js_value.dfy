/**
 * JavaScript values as the React client handles them: truthiness, property
 * access, the `ToNumber` conversion, `/`, the `<=` comparison, and the
 * JSON bridge to the backend's decoded values.
 */
module Js {

  import opened Wrappers
  import Json
  import RowSort

  /** An IEEE double, without its rounding: a finite value, NaN or an infinity. */
  datatype JsNumber = Finite(r: real) | NaN | PosInf | NegInf

  datatype JsVal =
    | JUndefined
    | JNull
    | JBool(b: bool)
    | JNum(n: JsNumber)
    | JStr(s: string)
    | JArr(items: seq<JsVal>)
    | JObj(fields: map<string, JsVal>)

  type JsObject = map<string, JsVal>

  /** `!!v`: `undefined`, `null`, `false`, `0`, `NaN` and `""` are false; every array and object is true. */
  predicate Truthy(v: JsVal) {
    match v
    case JUndefined => false
    case JNull => false
    case JBool(b) => b
    case JNum(n) => !(n.NaN? || n == Finite(0.0))
    case JStr(s) => s != ""
    case JArr(_) => true
    case JObj(_) => true
  }

  /** `a || b` */
  function Or(a: JsVal, b: JsVal): (r: JsVal)
    ensures Truthy(a) ==> r == a
    ensures !Truthy(a) ==> r == b
  {
    if Truthy(a) then a else b
  }

  /** `o.k` on an object: a missing key reads `undefined`. */
  function Get(o: JsObject, k: string): (r: JsVal)
    ensures r != JUndefined ==> k in o && o[k] == r
  {
    if k in o then o[k] else JUndefined
  }

  /**
   * `v.k` for a data property: `None` is the `TypeError` on `null` and
   * `undefined`; strings, numbers, booleans and arrays carry none of the
   * property names the client reads.
   */
  function Prop(v: JsVal, k: string): (r: Option<JsVal>)
    ensures r.None? <==> v.JNull? || v.JUndefined?
    ensures v.JObj? ==> r == Some(Get(v.fields, k))
  {
    match v
    case JUndefined => None
    case JNull => None
    case JObj(m) => Some(Get(m, k))
    case _ => Some(JUndefined)
  }

  /** `String(v)`, as in a template literal; numbers, arrays and objects are rendered by `show`. */
  function ToText(v: JsVal, show: JsVal -> string): (r: string)
    ensures v.JStr? ==> r == v.s
    ensures v.JNull? ==> r == "null"
    ensures v.JUndefined? ==> r == "undefined"
  {
    match v
    case JStr(s) => s
    case JNull => "null"
    case JUndefined => "undefined"
    case JBool(b) => if b then "true" else "false"
    case _ => show(v)
  }

  /** `ToNumber(v)`; the numeric-string grammar is `stringToNumber` (`None` for NaN). */
  function ToNumber(v: JsVal, stringToNumber: string -> Option<real>): (r: JsNumber)
    ensures v.JNum? ==> r == v.n
    ensures v.JNull? ==> r == Finite(0.0)
    ensures v.JUndefined? ==> r == NaN
  {
    match v
    case JUndefined => NaN
    case JNull => Finite(0.0)
    case JBool(b) => Finite(if b then 1.0 else 0.0)
    case JNum(n) => n
    case JStr(s) =>
      if s == "" then Finite(0.0)
      else (match stringToNumber(s) case Some(x) => Finite(x) case None => NaN)
    case _ => NaN
  }

  /** `a / b` on doubles (signed zero is not modelled: a zero divisor counts as `+0`). */
  function Divide(a: JsNumber, b: JsNumber): (r: JsNumber)
    ensures a.Finite? && b.Finite? && b.r != 0.0 ==> r == Finite(a.r / b.r)
    ensures a.NaN? || b.NaN? ==> r == NaN
    ensures a == Finite(0.0) && b == Finite(0.0) ==> r == NaN
  {
    match (a, b)
    case (NaN, _) => NaN
    case (_, NaN) => NaN
    case (Finite(x), Finite(y)) =>
      if y != 0.0 then Finite(x / y)
      else if x > 0.0 then PosInf
      else if x < 0.0 then NegInf
      else NaN
    case (Finite(_), _) => Finite(0.0)
    case (_, Finite(y)) =>
      if (a == PosInf) == (y >= 0.0) then PosInf else NegInf
    case (_, _) => NaN
  }

  /** `x * 2` on doubles. */
  function Double(a: JsNumber): (r: JsNumber)
    ensures a.Finite? ==> r == Finite(2.0 * a.r)
    ensures !a.Finite? ==> r == a
  {
    match a
    case Finite(x) => Finite(2.0 * x)
    case _ => a
  }

  /** `x <= y` on doubles: false whenever NaN is involved. */
  predicate NumLe(a: JsNumber, b: JsNumber) {
    match (a, b)
    case (NaN, _) => false
    case (_, NaN) => false
    case (NegInf, _) => true
    case (_, PosInf) => true
    case (Finite(x), Finite(y)) => x <= y
    case (_, _) => false
  }

  /**
   * `a <= b` for primitives: two strings compare by code unit (characters
   * outside the Basic Multilingual Plane aside), everything else as numbers.
   */
  predicate LessEq(a: JsVal, b: JsVal, stringToNumber: string -> Option<real>) {
    if a.JStr? && b.JStr? then RowSort.StrLe(a.s, b.s)
    else NumLe(ToNumber(a, stringToNumber), ToNumber(b, stringToNumber))
  }

  /** How a `fetch` ended: rejected, or answered with its `ok` flag and its body (`None` when not JSON). */
  datatype Fetch = FetchFailed | Answered(ok: bool, body: Option<JsVal>)

  /** A fetch whose status is OK and whose body is JSON. */
  predicate Succeeded(f: Fetch) {
    f.Answered? && f.ok && f.body.Some?
  }

  // ---------------------------------------------------------------------------
  // The JSON bridge
  // ---------------------------------------------------------------------------

  /** `response.json()` of a body the backend wrote with `jsonify`. */
  function FromJson(v: Json.Value): (r: JsVal)
    ensures v.Arr? ==> r.JArr? && |r.items| == |v.items|
    ensures v.Obj? ==> r.JObj? && r.fields.Keys == v.fields.Keys
    decreases v
  {
    match v
    case Null => JNull
    case Bool(b) => JBool(b)
    case Num(n) => JNum(Finite(n))
    case Str(s) => JStr(s)
    case Arr(xs) => JArr(seq(|xs|, i requires 0 <= i < |xs| => FromJson(xs[i])))
    case Obj(m) => JObj(map k | k in m :: FromJson(m[k]))
  }

  /**
   * `JSON.stringify` read back by Flask: `undefined` has no JSON form
   * (`None`; an object drops such a member, an array writes `null`), and
   * NaN and the infinities become `null`.
   */
  function ToJson(v: JsVal): (r: Option<Json.Value>)
    ensures r.None? <==> v.JUndefined?
    decreases v
  {
    match v
    case JUndefined => None
    case JNull => Some(Json.Null)
    case JBool(b) => Some(Json.Bool(b))
    case JNum(n) => Some(if n.Finite? then Json.Num(n.r) else Json.Null)
    case JStr(s) => Some(Json.Str(s))
    case JArr(xs) => Some(Json.Arr(seq(|xs|, i requires 0 <= i < |xs| => ToJson(xs[i]).GetOr(Json.Null))))
    case JObj(m) => Some(Json.Obj(map k | k in m && !m[k].JUndefined? :: ToJson(m[k]).value))
  }

  /** A backend value survives the trip to the client and back unchanged. */
  lemma {:induction false} JsonRoundTrip(v: Json.Value)
    ensures ToJson(FromJson(v)) == Some(v)
    decreases v
  {
    match v
    case Arr(xs) =>
      var ys := FromJson(v).items;
      forall i | 0 <= i < |xs| ensures ToJson(ys[i]).GetOr(Json.Null) == xs[i] {
        JsonRoundTrip(xs[i]);
      }
      assert seq(|ys|, i requires 0 <= i < |ys| => ToJson(ys[i]).GetOr(Json.Null)) == xs;
    case Obj(m) =>
      var js := FromJson(v).fields;
      forall k | k in m ensures !js[k].JUndefined? && ToJson(js[k]).value == m[k] {
        JsonRoundTrip(m[k]);
      }
      assert Json.Obj(map k | k in js && !js[k].JUndefined? :: ToJson(js[k]).value) == v;
    case _ =>
  }

  /** Truthiness agrees across the bridge except for empty arrays and objects, which JavaScript counts as true. */
  lemma TruthyFromJson(v: Json.Value)
    ensures Truthy(FromJson(v)) == (Json.PyTruthy(v) || v == Json.Arr([]) || v == Json.Obj(map[]))
  {
    if v.Obj? && v.fields != map[] {
      var k :| k in v.fields;
      assert k in FromJson(v).fields;
    }
  }
}
