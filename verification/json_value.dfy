/**
 * Decoded JSON values as the Flask backend sees them (Python objects), with
 * Python's truth test, `dict.get` and `int(...)` conversion.
 */
module Json {

  import opened Wrappers
  import Text

  /** A decoded JSON value; JSON `null` is Python's `None`. */
  datatype Value =
    | Null
    | Bool(b: bool)
    | Num(n: real)
    | Str(s: string)
    | Arr(items: seq<Value>)
    | Obj(fields: map<string, Value>)

  /** A JSON object as a Python `dict`. */
  type Dict = map<string, Value>

  /** Python's truth value: `None`, `False`, `0`, `""`, `[]` and `{}` are false. */
  predicate PyTruthy(v: Value) {
    match v
    case Null => false
    case Bool(b) => b
    case Num(n) => n != 0.0
    case Str(s) => s != ""
    case Arr(xs) => xs != []
    case Obj(m) => m != map[]
  }

  /** `d.get(k)`: a missing key and an explicit `null` both read as `None`. */
  function PyGet(d: Dict, k: string): (r: Value)
    ensures r != Null ==> k in d && d[k] == r
  {
    if k in d then d[k] else Null
  }

  /** `d.get(k, default)`: the default is used only when the key is missing. */
  function PyGetOr(d: Dict, k: string, default: Value): (r: Value)
    ensures k in d ==> r == d[k]
    ensures k !in d ==> r == default
  {
    if k in d then d[k] else default
  }

  /** How `int(v)` ends: a value, a `ValueError` or a `TypeError`. */
  datatype IntConversion = Converted(n: int) | ValueErr | TypeErr

  /** `int(r)` for a float truncates toward zero. */
  function Trunc(r: real): (i: int)
    ensures r >= 0.0 ==> i as real <= r < i as real + 1.0
    ensures r < 0.0 ==> i as real - 1.0 < r <= i as real
  {
    if r >= 0.0 then r.Floor else -((-r).Floor)
  }

  /** `int(s)` for a string: surrounding whitespace, an optional sign and decimal digits. */
  function ParseIntLiteral(s: string): (r: Option<int>)
    ensures r.Some? ==> Text.Strip(s) != ""
  {
    var t := Text.Strip(s);
    if |t| == 0 then None
    else
      var neg := t[0] == '-';
      var body := if t[0] == '-' || t[0] == '+' then t[1..] else t;
      if |body| == 0 || !Text.AllDigits(body) then None
      else if neg then Some(-(Text.DigitsValue(body) as int))
      else Some(Text.DigitsValue(body) as int)
  }

  /** Python's `int(v)` applied to a decoded JSON value. */
  function PyInt(v: Value): (r: IntConversion)
    ensures v.Num? ==> r == Converted(Trunc(v.n))
    ensures (v.Null? || v.Arr? || v.Obj?) ==> r == TypeErr
    ensures r == ValueErr ==> v.Str?
  {
    match v
    case Null => TypeErr
    case Bool(b) => Converted(if b then 1 else 0)
    case Num(n) => Converted(Trunc(n))
    case Str(s) =>
      (match ParseIntLiteral(s)
       case Some(i) => Converted(i)
       case None => ValueErr)
    case Arr(_) => TypeErr
    case Obj(_) => TypeErr
  }

  lemma ParseIntLiteralOfNat(n: nat)
    ensures ParseIntLiteral(Text.NatToString(n)) == Some(n)
  {
    var s := Text.NatToString(n);
    assert !Text.IsPySpace(s[0]) && !Text.IsPySpace(s[|s| - 1]);
    assert Text.LStrip(s) == s;
    assert Text.Strip(s) == s;
    Text.DigitsValueOfNatToString(n);
  }
}
