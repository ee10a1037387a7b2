/**
 * The required-field checks of the `register`, `login` and `add_sale`
 * routes (backend/app.py). Every check is Python truthiness, so `0`, `""`,
 * `false`, `[]`, `{}` and `null` all count as missing.
 */
module Validation {

  import opened Wrappers
  import opened Json

  /** How a route's validation step ends. */
  datatype Check =
    | Proceed                          // on to the database work
    | Refuse(status: nat, error: string)
    | CheckCrashed                     // the body is not a JSON object and `.get` raises outside any `try`

  const RegisterFields: seq<string> := ["phone_number", "username", "password", "business_type", "address"]
  const LoginFields: seq<string> := ["phone_number", "password"]
  const SaleFields: seq<string> := ["phone_number", "item", "price", "quantity_in_stock", "quantity_sold", "sale_date"]

  /** `all([d.get(k) for k in keys])` */
  predicate AllPresent(d: Dict, keys: seq<string>) {
    forall i :: 0 <= i < |keys| ==> PyTruthy(PyGet(d, keys[i]))
  }

  /** The first field that is missing, if any, in the order the source lists them. */
  function FirstMissing(d: Dict, keys: seq<string>): (r: Option<string>)
    ensures r.None? <==> AllPresent(d, keys)
    ensures r.Some? ==> r.value in keys && !PyTruthy(PyGet(d, r.value))
  {
    if |keys| == 0 then None
    else if !PyTruthy(PyGet(d, keys[0])) then Some(keys[0])
    else
      var rest := FirstMissing(d, keys[1..]);
      assert AllPresent(d, keys) <==> AllPresent(d, keys[1..]) by {
        assert forall i :: 0 <= i < |keys[1..]| ==> keys[1..][i] == keys[i + 1];
        assert forall i :: 0 < i < |keys| ==> keys[i] == keys[1..][i - 1];
      }
      rest
  }

  /** `register`: five fields; the business name, website and GST number are optional. */
  function Register(body: Value): (r: Check)
    ensures r == Proceed <==> body.Obj? && AllPresent(body.fields, RegisterFields)
    ensures r.Refuse? ==> r == Refuse(400, "Missing required fields")
    ensures r == CheckCrashed <==> !body.Obj?
  {
    if !body.Obj? then CheckCrashed
    else if FirstMissing(body.fields, RegisterFields).Some? then Refuse(400, "Missing required fields")
    else Proceed
  }

  /**
   * `login`: a falsy body is refused first; a body without `.get` raises
   * inside the route's `try` and becomes a 500; then the two fields.
   */
  function Login(body: Value): (r: Check)
    ensures !PyTruthy(body) ==> r == Refuse(400, "Invalid JSON payload")
    ensures PyTruthy(body) && !body.Obj? ==> r == Refuse(500, "Internal server error")
    ensures r == Proceed <==> body.Obj? && AllPresent(body.fields, LoginFields) && PyTruthy(body)
    ensures r != CheckCrashed
  {
    if !PyTruthy(body) then Refuse(400, "Invalid JSON payload")
    else if !body.Obj? then Refuse(500, "Internal server error")
    else if FirstMissing(body.fields, LoginFields).Some? then Refuse(400, "Phone number and password are required")
    else Proceed
  }

  /** `add_sale`: all six fields. */
  function AddSale(body: Value): (r: Check)
    ensures r == Proceed <==> body.Obj? && AllPresent(body.fields, SaleFields)
    ensures r.Refuse? ==> r == Refuse(400, "Missing sale data")
    ensures r == CheckCrashed <==> !body.Obj?
  {
    if !body.Obj? then CheckCrashed
    else if FirstMissing(body.fields, SaleFields).Some? then Refuse(400, "Missing sale data")
    else Proceed
  }

  /** A sale of zero units (or a zero price or stock) is refused as missing data. */
  lemma ZeroQuantityRefused(d: Dict, field: string)
    requires field in SaleFields && field in d && d[field] == Num(0.0)
    ensures AddSale(Obj(d)) == Refuse(400, "Missing sale data")
  {
    var i :| 0 <= i < |SaleFields| && SaleFields[i] == field;
    assert !PyTruthy(PyGet(d, SaleFields[i]));
  }

  /** A login body of `{}` is refused as an invalid payload, not as missing fields. */
  lemma EmptyLoginBody()
    ensures Login(Obj(map[])) == Refuse(400, "Invalid JSON payload")
  {
  }

  /** The optional registration fields never decide the outcome. */
  lemma RegisterIgnoresOptional(d: Dict, k: string, v: Value)
    requires k !in RegisterFields
    ensures Register(Obj(d[k := v])) == Register(Obj(d))
  {
    assert forall i :: 0 <= i < |RegisterFields| ==> PyGet(d[k := v], RegisterFields[i]) == PyGet(d, RegisterFields[i]);
  }
}
