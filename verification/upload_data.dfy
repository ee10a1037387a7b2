/**
 * The inventory table of the upload page (client/src/pages/UploadData.jsx):
 * how recent sales become table rows, editing and removing rows, the
 * stock-status badge, and the add-item form check.
 */
module UploadData {

  import opened Wrappers
  import opened Text
  import opened Js
  import Json
  import Validation

  // ---------------------------------------------------------------------------
  // Loading the table
  // ---------------------------------------------------------------------------

  /** `item-sale_date-index` */
  function RowId(item: JsVal, saleDate: JsVal, index: nat, show: JsVal -> string): string {
    ToText(item, show) + "-" + ToText(saleDate, show) + "-" + NatToString(index)
  }

  /** Reading a property of `null` or `undefined` throws. */
  predicate Readable(v: JsVal) {
    !(v.JNull? || v.JUndefined?)
  }

  /** The table row for the backend record at `index`. */
  function TableRow(record: JsVal, index: nat, show: JsVal -> string): (r: JsObject)
    requires Readable(record)
    ensures r.Keys == {"id", "date", "name", "price", "stock", "sales", "reorderLevel"}
    ensures r["date"] == Prop(record, "sale_date").value && r["name"] == Prop(record, "item").value
    ensures r["stock"] == Prop(record, "quantity_in_stock").value && r["sales"] == Prop(record, "quantity_sold").value
    ensures r["reorderLevel"] == JNum(Finite(5.0))
  {
    var item := Prop(record, "item").value;
    var date := Prop(record, "sale_date").value;
    map[
      "id" := JStr(RowId(item, date, index, show)),
      "date" := date,
      "name" := item,
      "price" := Prop(record, "price").value,
      "stock" := Prop(record, "quantity_in_stock").value,
      "sales" := Prop(record, "quantity_sold").value,
      "reorderLevel" := JNum(Finite(5.0))]
  }

  /** `data.map(...)`: `None` when the body is not an array or holds a `null`/`undefined` record. */
  function TableRows(data: JsVal, show: JsVal -> string): (r: Option<seq<JsObject>>)
    ensures r.Some? <==> data.JArr? && forall i :: 0 <= i < |data.items| ==> Readable(data.items[i])
    ensures r.Some? ==> |r.value| == |data.items|
    ensures r.Some? ==> forall i :: 0 <= i < |r.value| ==> r.value[i] == TableRow(data.items[i], i, show)
  {
    if data.JArr? && forall i :: 0 <= i < |data.items| ==> Readable(data.items[i]) then
      Some(seq(|data.items|, i requires 0 <= i < |data.items| => TableRow(data.items[i], i, show)))
    else None
  }

  /** The text after the last dash (all of it when there is none). */
  function AfterLastDash(s: string): (r: string)
    ensures '-' !in r
  {
    if |s| == 0 then s
    else if s[|s| - 1] == '-' then []
    else AfterLastDash(s[..|s| - 1]) + [s[|s| - 1]]
  }

  /** A string of the form `p + "-" + d` where `d` holds no dash ends with `d` after its last dash. */
  lemma {:induction false} AfterLastDashOf(p: string, d: string)
    requires '-' !in d
    ensures AfterLastDash(p + "-" + d) == d
    decreases |d|
  {
    var s := p + "-" + d;
    if |d| == 0 {
      assert s[|s| - 1] == '-';
    } else {
      var d' := d[..|d| - 1];
      assert s[..|s| - 1] == p + "-" + d';
      assert s[|s| - 1] == d[|d| - 1] && d[|d| - 1] in d;
      assert '-' !in d' by {
        assert forall k :: 0 <= k < |d'| ==> d'[k] == d[k];
      }
      AfterLastDashOf(p, d');
      assert AfterLastDash(s) == AfterLastDash(s[..|s| - 1]) + [s[|s| - 1]];
      assert d' + [d[|d| - 1]] == d;
    }
  }

  lemma NoDashInNumber(n: nat)
    ensures '-' !in NatToString(n)
  {
  }

  /**
   * Row ids never collide, whatever dashes the item names or dates hold:
   * the text after the last dash is the row's index.
   */
  lemma TableRowIdsUnique(data: JsVal, show: JsVal -> string, i: nat, j: nat)
    requires TableRows(data, show).Some?
    requires i < j < |data.items|
    ensures TableRows(data, show).value[i]["id"] != TableRows(data, show).value[j]["id"]
  {
    var rows := TableRows(data, show).value;
    var a := data.items[i];
    var b := data.items[j];
    var pa := ToText(Prop(a, "item").value, show) + "-" + ToText(Prop(a, "sale_date").value, show);
    var pb := ToText(Prop(b, "item").value, show) + "-" + ToText(Prop(b, "sale_date").value, show);
    assert rows[i]["id"] == JStr(pa + "-" + NatToString(i));
    assert rows[j]["id"] == JStr(pb + "-" + NatToString(j));
    if rows[i]["id"] == rows[j]["id"] {
      NoDashInNumber(i);
      NoDashInNumber(j);
      AfterLastDashOf(pa, NatToString(i));
      AfterLastDashOf(pb, NatToString(j));
      NatToStringInjective(i, j);
    }
  }

  /** The page's table, its error line and its spinner. */
  datatype TableState = TableState(inventory: seq<JsObject>, error: Option<string>, loading: bool)

  const NoPhone: string := "User phone number not found. Please log in."
  const LoadFailed: string := "Failed to load recent sales data. Please try again."

  /** `fetchRecentSales`: any failure keeps the old table and sets one message. */
  function FetchRecentSales(st: TableState, phone: JsVal, response: Fetch, show: JsVal -> string): (r: TableState)
    ensures !r.loading
    ensures !Truthy(phone) ==> r == TableState(st.inventory, Some(NoPhone), false)
    ensures r.error.None? <==>
      Truthy(phone) && response.Answered? && response.ok && response.body.Some?
      && TableRows(response.body.value, show).Some?
    ensures r.error.None? ==> r.inventory == TableRows(response.body.value, show).value
    ensures r.error.Some? ==> r.inventory == st.inventory
    ensures Truthy(phone) && r.error.Some? ==> r.error.value == LoadFailed
  {
    if !Truthy(phone) then TableState(st.inventory, Some(NoPhone), false)
    else
      match response
      case FetchFailed => TableState(st.inventory, Some(LoadFailed), false)
      case Answered(ok, body) =>
        if !ok || body.None? then TableState(st.inventory, Some(LoadFailed), false)
        else
          match TableRows(body.value, show)
          case None => TableState(st.inventory, Some(LoadFailed), false)
          case Some(rows) => TableState(rows, None, false)
  }

  // ---------------------------------------------------------------------------
  // Editing and removing rows
  // ---------------------------------------------------------------------------

  /** `item.id === id` for a string id. */
  predicate HasId(row: JsObject, id: string) {
    Get(row, "id") == JStr(id)
  }

  /** `handleInputChange`: `{...item, [field]: value}` on every row with the id. */
  function InputChange(inv: seq<JsObject>, id: string, field: string, value: JsVal): (r: seq<JsObject>)
    ensures |r| == |inv|
  {
    seq(|inv|, i requires 0 <= i < |inv| => if HasId(inv[i], id) then inv[i][field := value] else inv[i])
  }

  /** Only the named field of the rows with the id changes. */
  lemma InputChangeOnlyField(inv: seq<JsObject>, id: string, field: string, value: JsVal, i: nat, k: string)
    requires i < |inv|
    ensures k != field ==> Get(InputChange(inv, id, field, value)[i], k) == Get(inv[i], k)
    ensures Get(InputChange(inv, id, field, value)[i], field) == (if HasId(inv[i], id) then value else Get(inv[i], field))
    ensures InputChange(inv, id, field, value)[i].Keys == inv[i].Keys + (if HasId(inv[i], id) then {field} else {})
  {
  }

  /** Typing the same value twice is the same as typing it once. */
  lemma InputChangeIdempotent(inv: seq<JsObject>, id: string, field: string, value: JsVal)
    ensures InputChange(InputChange(inv, id, field, value), id, field, value) == InputChange(inv, id, field, value)
  {
    var once := InputChange(inv, id, field, value);
    var twice := InputChange(once, id, field, value);
    forall i | 0 <= i < |inv| ensures twice[i] == once[i] {
      if HasId(inv[i], id) {
        assert once[i] == inv[i][field := value];
        assert once[i][field := value] == once[i];
      } else {
        assert once[i] == inv[i];
      }
    }
  }

  /** Every row kept by `prevInventory.filter(item => item.id !== id)`, in order. */
  function Without(inv: seq<JsObject>, id: string): (r: seq<JsObject>)
    ensures |r| <= |inv|
    ensures forall row :: row in r <==> row in inv && !HasId(row, id)
  {
    if |inv| == 0 then []
    else if HasId(inv[0], id) then Without(inv[1..], id)
    else [inv[0]] + Without(inv[1..], id)
  }

  /** `removeItem`: an id that is not in the table leaves it untouched. */
  function RemoveItem(inv: seq<JsObject>, id: string): (r: seq<JsObject>)
    ensures forall row :: row in r <==> row in inv && !HasId(row, id)
    ensures (forall i :: 0 <= i < |inv| ==> !HasId(inv[i], id)) ==> r == inv
  {
    if exists i :: 0 <= i < |inv| && HasId(inv[i], id) then Without(inv, id)
    else inv
  }

  lemma {:induction false} WithoutNothing(inv: seq<JsObject>, id: string)
    requires forall i :: 0 <= i < |inv| ==> !HasId(inv[i], id)
    ensures Without(inv, id) == inv
    decreases |inv|
  {
    if |inv| > 0 {
      assert forall i :: 0 <= i < |inv[1..]| ==> inv[1..][i] == inv[i + 1];
      WithoutNothing(inv[1..], id);
    }
  }

  lemma {:induction false} WithoutAppend(a: seq<JsObject>, b: seq<JsObject>, id: string)
    ensures Without(a + b, id) == Without(a, id) + Without(b, id)
    decreases |a|
  {
    if |a| > 0 {
      assert (a + b)[0] == a[0];
      assert (a + b)[1..] == a[1..] + b;
      WithoutAppend(a[1..], b, id);
    } else {
      assert a + b == b;
    }
  }

  /**
   * Removal keeps order: it distributes over concatenation, dropping a
   * single row exactly when it carries the id.
   */
  lemma RemoveItemKeepsOrder(a: seq<JsObject>, b: seq<JsObject>, id: string)
    ensures RemoveItem(a + b, id) == RemoveItem(a, id) + RemoveItem(b, id)
  {
    if !exists i :: 0 <= i < |a| && HasId(a[i], id) {
      WithoutNothing(a, id);
    }
    if !exists i :: 0 <= i < |b| && HasId(b[i], id) {
      WithoutNothing(b, id);
    }
    if !exists i :: 0 <= i < |a + b| && HasId((a + b)[i], id) {
      WithoutNothing(a + b, id);
    }
    WithoutAppend(a, b, id);
  }

  lemma RemoveItemSingle(row: JsObject, id: string)
    ensures RemoveItem([row], id) == (if HasId(row, id) then [] else [row])
  {
  }

  // ---------------------------------------------------------------------------
  // Stock status
  // ---------------------------------------------------------------------------

  datatype StockLevel = LowStock | MediumStock | InStock

  function StatusLabel(l: StockLevel): string {
    match l
    case LowStock => "Low Stock"
    case MediumStock => "Medium Stock"
    case InStock => "In Stock"
  }

  function StatusClass(l: StockLevel): string {
    match l
    case LowStock => "danger"
    case MediumStock => "warning"
    case InStock => "good"
  }

  /**
   * The badge as written: `stock <= reorderLevel`, then
   * `stock <= reorderLevel * 2`. The first comparison is between strings
   * once both cells have been edited.
   */
  function StockStatusAsWritten(stock: JsVal, reorder: JsVal, stringToNumber: string -> Option<real>): StockLevel {
    if LessEq(stock, reorder, stringToNumber) then LowStock
    else if LessEq(stock, JNum(Double(ToNumber(reorder, stringToNumber))), stringToNumber) then MediumStock
    else InStock
  }

  /** The row class of the table line: `low-stock` under the same first comparison. */
  function RowClass(stock: JsVal, reorder: JsVal, stringToNumber: string -> Option<real>): string {
    if LessEq(stock, reorder, stringToNumber) then "low-stock" else ""
  }

  lemma RowClassMatchesBadge(stock: JsVal, reorder: JsVal, stringToNumber: string -> Option<real>)
    ensures RowClass(stock, reorder, stringToNumber) == "low-stock"
      <==> StockStatusAsWritten(stock, reorder, stringToNumber) == LowStock
  {
  }

  /** The badge as intended: both cells compared as numbers. */
  function StockStatus(stock: JsVal, reorder: JsVal, stringToNumber: string -> Option<real>): StockLevel {
    var s := ToNumber(stock, stringToNumber);
    var r := ToNumber(reorder, stringToNumber);
    if NumLe(s, r) then LowStock
    else if NumLe(s, Double(r)) then MediumStock
    else InStock
  }

  /**
   * With finite numbers the intended badge is the three-level
   * classification (for a negative reorder level, twice it is the lower bound).
   */
  lemma StockStatusLevels(stock: JsVal, reorder: JsVal, stringToNumber: string -> Option<real>)
    requires ToNumber(stock, stringToNumber).Finite? && ToNumber(reorder, stringToNumber).Finite?
    ensures var s := ToNumber(stock, stringToNumber).r;
      var r := ToNumber(reorder, stringToNumber).r;
      && (StockStatus(stock, reorder, stringToNumber) == LowStock <==> s <= r)
      && (StockStatus(stock, reorder, stringToNumber) == MediumStock <==> r < s <= 2.0 * r)
      && (StockStatus(stock, reorder, stringToNumber) == InStock <==> r < s && 2.0 * r < s)
  {
  }

  /** Unless both cells hold strings the code as written gives the intended badge. */
  lemma StockStatusAgrees(stock: JsVal, reorder: JsVal, stringToNumber: string -> Option<real>)
    requires !(stock.JStr? && reorder.JStr?)
    ensures StockStatusAsWritten(stock, reorder, stringToNumber) == StockStatus(stock, reorder, stringToNumber)
  {
    var twice := JNum(Double(ToNumber(reorder, stringToNumber)));
    assert LessEq(stock, reorder, stringToNumber) == NumLe(ToNumber(stock, stringToNumber), ToNumber(reorder, stringToNumber));
    assert LessEq(stock, twice, stringToNumber) == NumLe(ToNumber(stock, stringToNumber), Double(ToNumber(reorder, stringToNumber)));
    assert StockStatusAsWritten(stock, reorder, stringToNumber) ==
      if NumLe(ToNumber(stock, stringToNumber), ToNumber(reorder, stringToNumber)) then LowStock
      else if NumLe(ToNumber(stock, stringToNumber), Double(ToNumber(reorder, stringToNumber))) then MediumStock
      else InStock;
  }

  /** A freshly loaded row (reorder level the number 5) shows the intended badge. */
  lemma LoadedRowStatus(record: JsVal, index: nat, show: JsVal -> string, stringToNumber: string -> Option<real>)
    requires Readable(record)
    ensures var row := TableRow(record, index, show);
      StockStatusAsWritten(row["stock"], row["reorderLevel"], stringToNumber)
      == StockStatus(row["stock"], row["reorderLevel"], stringToNumber)
  {
    var row := TableRow(record, index, show);
    StockStatusAgrees(row["stock"], row["reorderLevel"], stringToNumber);
  }

  /**
   * Editing a row's stock to "10" and its reorder level to "5" shows "Low
   * Stock": "10" sorts before "5" as text. As numbers 10 is within twice 5.
   */
  lemma EditedRowStatus(row: JsObject, id: string, stringToNumber: string -> Option<real>)
    requires HasId(row, id)
    requires stringToNumber("10") == Some(10.0) && stringToNumber("5") == Some(5.0)
    ensures var edited := InputChange(InputChange([row], id, "stock", JStr("10")), id, "reorderLevel", JStr("5"))[0];
      && StockStatusAsWritten(Get(edited, "stock"), Get(edited, "reorderLevel"), stringToNumber) == LowStock
      && StockStatus(Get(edited, "stock"), Get(edited, "reorderLevel"), stringToNumber) == MediumStock
  {
    var once := InputChange([row], id, "stock", JStr("10"));
    assert once[0] == row["stock" := JStr("10")];
    assert HasId(once[0], id);
    var edited := InputChange(once, id, "reorderLevel", JStr("5"))[0];
    assert edited == row["stock" := JStr("10")]["reorderLevel" := JStr("5")];
    assert Get(edited, "stock") == JStr("10");
    assert Get(edited, "reorderLevel") == JStr("5");
    assert RowSort.StrLe("10", "5");
  }

  // ---------------------------------------------------------------------------
  // Adding an item
  // ---------------------------------------------------------------------------

  /** The add-item form: every input holds text. */
  datatype NewItemForm = NewItemForm(name: string, price: string, quantityInStock: string, quantitySold: string,
                                     saleDate: string)

  datatype AddOutcome =
    | FieldsMissing          // an alert; nothing is sent
    | Send(body: JsObject)   // the `add_sale` request body

  /** Product name, price, stock and date must be non-empty; quantity sold may be left blank. */
  predicate FormComplete(f: NewItemForm) {
    f.name != "" && f.price != "" && f.quantityInStock != "" && f.saleDate != ""
  }

  /** `addNewItem`; `parseFloat` and `parseInt` are the built-ins. */
  function AddNewItem(form: NewItemForm, phone: JsVal, parseFloat: string -> JsNumber, parseInt: string -> JsNumber)
    : (r: AddOutcome)
    ensures r.FieldsMissing? <==> !FormComplete(form)
    ensures r.Send? ==> r.body.Keys == {"phone_number", "item", "price", "quantity_in_stock", "quantity_sold", "sale_date"}
    ensures r.Send? ==> r.body["item"] == JStr(form.name) && r.body["sale_date"] == JStr(form.saleDate)
    ensures r.Send? ==> r.body["phone_number"] == phone
    ensures r.Send? ==> (r.body["quantity_sold"] ==
      if Truthy(JNum(parseInt(form.quantitySold))) then JNum(parseInt(form.quantitySold)) else JNum(Finite(0.0)))
  {
    if !FormComplete(form) then FieldsMissing
    else
      Send(map[
        "phone_number" := phone,
        "item" := JStr(form.name),
        "price" := JNum(parseFloat(form.price)),
        "quantity_in_stock" := JNum(parseInt(form.quantityInStock)),
        "quantity_sold" := Or(JNum(parseInt(form.quantitySold)), JNum(Finite(0.0))),
        "sale_date" := JStr(form.saleDate)])
  }

  /**
   * The form lets quantity sold be blank (or 0) and sends 0, which the
   * `add_sale` route then refuses as missing data.
   */
  lemma BlankQuantitySoldRefused(form: NewItemForm, phone: JsVal, parseFloat: string -> JsNumber,
                                 parseInt: string -> JsNumber)
    requires FormComplete(form) && !Truthy(JNum(parseInt(form.quantitySold)))
    ensures AddNewItem(form, phone, parseFloat, parseInt).Send?
    ensures var body := JObj(AddNewItem(form, phone, parseFloat, parseInt).body);
      ToJson(body).Some? && Validation.AddSale(ToJson(body).value) == Validation.Refuse(400, "Missing sale data")
  {
    var body := AddNewItem(form, phone, parseFloat, parseInt).body;
    var d := ToJson(JObj(body)).value.fields;
    assert body["quantity_sold"] == JNum(Finite(0.0));
    assert ToJson(body["quantity_sold"]) == Some(Json.Num(0.0));
    assert "quantity_sold" in d && d["quantity_sold"] == Json.Num(0.0);
    Validation.ZeroQuantityRefused(d, "quantity_sold");
  }
}
