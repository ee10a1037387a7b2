/**
 * `upload_ocr_data_to_db` (backend/app.py): the CSV text extracted by OCR
 * is normalised to the five columns of the `sales` table and rows without
 * a usable sale date are dropped. `pd.read_csv`, `pd.to_numeric` and
 * `pd.to_datetime` are inputs; the database writes are not modelled.
 */
module OcrUpload {

  import opened Wrappers
  import opened Text
  import opened Json
  import opened Calendar

  /** A cell as `read_csv` produced it: some text, or an empty cell (NaN). */
  datatype Cell = Written(text: string) | Blank

  /** The parsed CSV: its header and its rows (a short row reads as blanks). */
  datatype Table = Table(header: seq<string>, rows: seq<seq<Cell>>)

  /** The columns of the `sales` table, in the order they are written. */
  const Required: seq<string> := ["item", "price", "quantity_in_stock", "quantity_sold", "sale_date"]

  /** A header after lower-casing and the two renames. */
  function Canonical(name: string): string {
    var l := Lower(name);
    if l == "product_name" then "item" else if l == "date" then "sale_date" else l
  }

  /** The first header whose canonical name is `name`. */
  function SourceIndex(header: seq<string>, name: string): (r: Option<nat>)
    ensures r.Some? ==> r.value < |header| && Canonical(header[r.value]) == name
    ensures r.Some? ==> forall j :: 0 <= j < r.value ==> Canonical(header[j]) != name
    ensures r.None? <==> forall j :: 0 <= j < |header| ==> Canonical(header[j]) != name
  {
    if |header| == 0 then None
    else if Canonical(header[0]) == name then Some(0)
    else
      match SourceIndex(header[1..], name)
      case None => None
      case Some(k) => Some(k + 1)
  }

  /**
   * Two headers share the canonical name `name` (`Price` and `price`, or
   * `date` and `sale_date`): `df[required_db_cols]` then selects both
   * columns, and `df_cleaned[name]` is a frame rather than a column.
   */
  predicate Duplicated(header: seq<string>, name: string) {
    match SourceIndex(header, name)
    case None => false
    case Some(i) => SourceIndex(header[i + 1..], name).Some?
  }

  lemma DuplicatedMeansTwo(header: seq<string>, name: string)
    ensures Duplicated(header, name) <==>
      exists i, j :: 0 <= i < j < |header| && Canonical(header[i]) == name && Canonical(header[j]) == name
  {
    match SourceIndex(header, name)
    case None =>
    case Some(i) =>
      var rest := header[i + 1..];
      if SourceIndex(rest, name).Some? {
        var k := SourceIndex(rest, name).value;
        assert rest[k] == header[i + 1 + k];
      }
      if exists a, b :: 0 <= a < b < |header| && Canonical(header[a]) == name && Canonical(header[b]) == name {
        var a, b :| 0 <= a < b < |header| && Canonical(header[a]) == name && Canonical(header[b]) == name;
        assert i <= a;
        assert rest[b - i - 1] == header[b];
      }
  }

  /** The cell a row holds for a canonical column; `None` when the column was added as `None`. */
  function CellOf(header: seq<string>, row: seq<Cell>, name: string): Option<Cell> {
    match SourceIndex(header, name)
    case None => None
    case Some(i) => Some(if i < |row| then row[i] else Blank)
  }

  /** One row of the cleaned frame. */
  datatype Record = Record(item: string, price: real, quantityInStock: int, quantitySold: int, saleDate: string)

  /** `astype(str)`: an added column reads `"None"`, an empty cell `"nan"`. */
  function ItemString(c: Option<Cell>): (r: string)
    ensures c == Some(Blank) ==> r == "nan"
    ensures c.None? ==> r == "None"
  {
    match c
    case None => "None"
    case Some(Blank) => "nan"
    case Some(Written(s)) => s
  }

  /** `pd.to_numeric(errors='coerce').fillna(0)` */
  function NumberOf(c: Option<Cell>, toNumber: string -> Option<real>): (r: real)
    ensures (c.None? || c == Some(Blank)) ==> r == 0.0
  {
    match c
    case Some(Written(s)) => toNumber(s).GetOr(0.0)
    case _ => 0.0
  }

  /** `pd.to_datetime(errors='coerce').dt.strftime('%Y-%m-%d')`; `None` is NaT. */
  function DateOf(c: Option<Cell>, parseDate: string -> Option<Date>): (r: Option<string>)
    ensures r.Some? ==>
      c.Some? && c.value.Written? && parseDate(c.value.text).Some? && r.value == Format(parseDate(c.value.text).value)
  {
    match c
    case Some(Written(s)) =>
      (match parseDate(s)
       case Some(d) => Some(Format(d))
       case None => None)
    case _ => None
  }

  /** A row of the parsed table is kept exactly when its sale date parses. */
  predicate Kept(header: seq<string>, row: seq<Cell>, parseDate: string -> Option<Date>) {
    DateOf(CellOf(header, row, "sale_date"), parseDate).Some?
  }

  function CleanRow(header: seq<string>, row: seq<Cell>, toNumber: string -> Option<real>,
                    parseDate: string -> Option<Date>): (r: Option<Record>)
    ensures r.Some? <==> Kept(header, row, parseDate)
    ensures r.Some? ==> r.value.item == ItemString(CellOf(header, row, "item"))
    ensures r.Some? ==> r.value.price == NumberOf(CellOf(header, row, "price"), toNumber)
    ensures r.Some? ==> r.value.quantityInStock == Trunc(NumberOf(CellOf(header, row, "quantity_in_stock"), toNumber))
    ensures r.Some? ==> r.value.quantitySold == Trunc(NumberOf(CellOf(header, row, "quantity_sold"), toNumber))
  {
    match DateOf(CellOf(header, row, "sale_date"), parseDate)
    case None => None
    case Some(date) =>
      Some(Record(
        ItemString(CellOf(header, row, "item")),
        NumberOf(CellOf(header, row, "price"), toNumber),
        Trunc(NumberOf(CellOf(header, row, "quantity_in_stock"), toNumber)),
        Trunc(NumberOf(CellOf(header, row, "quantity_sold"), toNumber)),
        date))
  }

  /** The records `clean` keeps, row by row, in row order. */
  function KeptRecords(clean: seq<Cell> -> Option<Record>, rows: seq<seq<Cell>>): (r: seq<Record>)
    ensures |r| <= |rows|
    decreases |rows|
  {
    if |rows| == 0 then []
    else (match clean(rows[0]) case None => [] case Some(rec) => [rec]) + KeptRecords(clean, rows[1..])
  }

  lemma {:induction false} KeptRecordsAppend(clean: seq<Cell> -> Option<Record>, a: seq<seq<Cell>>, b: seq<seq<Cell>>)
    ensures KeptRecords(clean, a + b) == KeptRecords(clean, a) + KeptRecords(clean, b)
    decreases |a|
  {
    if |a| == 0 {
      assert a + b == b;
    } else {
      assert (a + b)[0] == a[0];
      assert (a + b)[1..] == a[1..] + b;
      KeptRecordsAppend(clean, a[1..], b);
    }
  }

  /** Every kept record is what `clean` made of some row: here is the row. */
  lemma {:induction false} KeptRecordSource(clean: seq<Cell> -> Option<Record>, rows: seq<seq<Cell>>, k: nat)
    returns (i: nat)
    requires k < |KeptRecords(clean, rows)|
    ensures i < |rows| && clean(rows[i]) == Some(KeptRecords(clean, rows)[k])
    decreases |rows|
  {
    var r := KeptRecords(clean, rows);
    var rest := KeptRecords(clean, rows[1..]);
    var own := if clean(rows[0]).Some? then 1 else 0;
    assert r[own..] == rest;
    if k < own {
      i := 0;
    } else {
      assert r[k] == rest[k - own];
      var j := KeptRecordSource(clean, rows[1..], k - own);
      assert rows[1..][j] == rows[j + 1];
      i := j + 1;
    }
  }

  /** When `clean` keeps every row, every row's record is there, in place. */
  lemma {:induction false} KeptRecordsAll(clean: seq<Cell> -> Option<Record>, rows: seq<seq<Cell>>)
    requires forall i :: 0 <= i < |rows| ==> clean(rows[i]).Some?
    ensures |KeptRecords(clean, rows)| == |rows|
    ensures forall i :: 0 <= i < |rows| ==> Some(KeptRecords(clean, rows)[i]) == clean(rows[i])
    decreases |rows|
  {
    if |rows| > 0 {
      assert forall i :: 0 <= i < |rows[1..]| ==> rows[1..][i] == rows[i + 1];
      KeptRecordsAll(clean, rows[1..]);
      var all := KeptRecords(clean, rows);
      var rest := KeptRecords(clean, rows[1..]);
      assert all == [clean(rows[0]).value] + rest;
      forall i | 0 <= i < |rows| ensures Some(all[i]) == clean(rows[i]) {
        if i > 0 {
          assert all[i] == rest[i - 1];
          assert rows[1..][i - 1] == rows[i];
        }
      }
    }
  }

  /** Nothing is kept exactly when `clean` keeps no row. */
  lemma {:induction false} KeptRecordsEmpty(clean: seq<Cell> -> Option<Record>, rows: seq<seq<Cell>>)
    ensures KeptRecords(clean, rows) == [] <==> forall i :: 0 <= i < |rows| ==> clean(rows[i]).None?
    decreases |rows|
  {
    if |rows| > 0 {
      KeptRecordsEmpty(clean, rows[1..]);
      assert forall i :: 0 <= i < |rows[1..]| ==> rows[1..][i] == rows[i + 1];
      if forall i :: 0 <= i < |rows| ==> clean(rows[i]).None? {
        assert clean(rows[0]).None?;
      } else if clean(rows[0]).None? {
        var i :| 0 <= i < |rows| && clean(rows[i]).Some?;
        assert rows[1..][i - 1] == rows[i];
      }
    }
  }

  /** `CleanRow` for one table. */
  function Cleaner(header: seq<string>, toNumber: string -> Option<real>, parseDate: string -> Option<Date>): (f: seq<Cell> -> Option<Record>)
    ensures forall row :: f(row) == CleanRow(header, row, toNumber, parseDate)
  {
    row => CleanRow(header, row, toNumber, parseDate)
  }

  /** The cleaned rows, in table order, without those whose date is NaT. */
  function CleanRows(t: Table, toNumber: string -> Option<real>, parseDate: string -> Option<Date>): (r: seq<Record>)
    ensures |r| <= |t.rows|
    ensures forall k :: 0 <= k < |r| ==>
      exists i :: 0 <= i < |t.rows| && CleanRow(t.header, t.rows[i], toNumber, parseDate) == Some(r[k])
  {
    CleanRowsFromTable(t, toNumber, parseDate);
    KeptRecords(Cleaner(t.header, toNumber, parseDate), t.rows)
  }

  lemma CleanRowsFromTable(t: Table, toNumber: string -> Option<real>, parseDate: string -> Option<Date>)
    ensures forall k :: 0 <= k < |KeptRecords(Cleaner(t.header, toNumber, parseDate), t.rows)| ==>
      exists i :: 0 <= i < |t.rows| && CleanRow(t.header, t.rows[i], toNumber, parseDate)
        == Some(KeptRecords(Cleaner(t.header, toNumber, parseDate), t.rows)[k])
  {
    var f := Cleaner(t.header, toNumber, parseDate);
    var r := KeptRecords(f, t.rows);
    forall k | 0 <= k < |r|
      ensures exists i :: 0 <= i < |t.rows| && CleanRow(t.header, t.rows[i], toNumber, parseDate) == Some(r[k])
    {
      var i := KeptRecordSource(f, t.rows, k);
      assert f(t.rows[i]) == CleanRow(t.header, t.rows[i], toNumber, parseDate);
    }
  }

  /** One step of the cleaning: the first row's record, if kept, ahead of the rest. */
  lemma CleanRowsCons(header: seq<string>, row: seq<Cell>, rest: seq<seq<Cell>>,
                      toNumber: string -> Option<real>, parseDate: string -> Option<Date>)
    ensures var first := CleanRow(header, row, toNumber, parseDate);
      CleanRows(Table(header, [row] + rest), toNumber, parseDate)
      == (if first.Some? then [first.value] else []) + CleanRows(Table(header, rest), toNumber, parseDate)
  {
    var f := Cleaner(header, toNumber, parseDate);
    assert ([row] + rest)[0] == row;
    assert ([row] + rest)[1..] == rest;
    assert KeptRecords(f, [row] + rest) == (match f(row) case None => [] case Some(rec) => [rec]) + KeptRecords(f, rest);
  }

  /** Cleaning goes row by row: the rows of two stacked tables clean to the two results stacked. */
  lemma CleanRowsAppend(header: seq<string>, a: seq<seq<Cell>>, b: seq<seq<Cell>>,
                        toNumber: string -> Option<real>, parseDate: string -> Option<Date>)
    ensures CleanRows(Table(header, a + b), toNumber, parseDate)
      == CleanRows(Table(header, a), toNumber, parseDate) + CleanRows(Table(header, b), toNumber, parseDate)
  {
    KeptRecordsAppend(Cleaner(header, toNumber, parseDate), a, b);
  }

  /** A single row survives, cleaned, exactly when its sale date parses. */
  lemma CleanRowsSingle(header: seq<string>, row: seq<Cell>, toNumber: string -> Option<real>,
                        parseDate: string -> Option<Date>)
    ensures CleanRows(Table(header, [row]), toNumber, parseDate)
      == if Kept(header, row, parseDate) then [CleanRow(header, row, toNumber, parseDate).value] else []
  {
    CleanRowsCons(header, row, [], toNumber, parseDate);
    assert [row] + [] == [row];
  }

  /** Every row is kept, in order, when every sale date parses. */
  lemma CleanRowsAllKept(t: Table, toNumber: string -> Option<real>, parseDate: string -> Option<Date>)
    requires forall i :: 0 <= i < |t.rows| ==> Kept(t.header, t.rows[i], parseDate)
    ensures |CleanRows(t, toNumber, parseDate)| == |t.rows|
    ensures forall i :: 0 <= i < |t.rows| ==>
      Some(CleanRows(t, toNumber, parseDate)[i]) == CleanRow(t.header, t.rows[i], toNumber, parseDate)
  {
    var f := Cleaner(t.header, toNumber, parseDate);
    assert forall i :: 0 <= i < |t.rows| ==> f(t.rows[i]) == CleanRow(t.header, t.rows[i], toNumber, parseDate);
    KeptRecordsAll(f, t.rows);
  }

  /** No row survives when no sale date parses. */
  lemma CleanRowsNoneKept(t: Table, toNumber: string -> Option<real>, parseDate: string -> Option<Date>)
    requires forall i :: 0 <= i < |t.rows| ==> !Kept(t.header, t.rows[i], parseDate)
    ensures CleanRows(t, toNumber, parseDate) == []
  {
    CleanRowsEmpty(t, toNumber, parseDate);
  }

  /** Something is stored from a table exactly when some row's sale date parses. */
  lemma CleanRowsEmpty(t: Table, toNumber: string -> Option<real>, parseDate: string -> Option<Date>)
    ensures CleanRows(t, toNumber, parseDate) == [] <==> forall i :: 0 <= i < |t.rows| ==> !Kept(t.header, t.rows[i], parseDate)
  {
    var f := Cleaner(t.header, toNumber, parseDate);
    assert forall i :: 0 <= i < |t.rows| ==> f(t.rows[i]) == CleanRow(t.header, t.rows[i], toNumber, parseDate);
    KeptRecordsEmpty(f, t.rows);
  }

  /** Header case does not matter, and `Product_Name` / `DATE` feed `item` / `sale_date`. */
  lemma CanonicalIgnoresCase(a: string, b: string)
    requires EqIgnoreCase(a, b)
    ensures Canonical(a) == Canonical(b)
  {
  }

  lemma CanonicalRenames(name: string)
    ensures Canonical(name) == "item" <==> Lower(name) in {"item", "product_name"}
    ensures Canonical(name) == "sale_date" <==> Lower(name) in {"sale_date", "date"}
  {
  }

  /** The item never decides whether a row is kept: blank and absent items are kept as text. */
  lemma ItemNeverMissing(header: seq<string>, row: seq<Cell>, toNumber: string -> Option<real>,
                         parseDate: string -> Option<Date>)
    requires Kept(header, row, parseDate)
    ensures CleanRow(header, row, toNumber, parseDate).Some?
    ensures CellOf(header, row, "item") == Some(Blank) ==> CleanRow(header, row, toNumber, parseDate).value.item == "nan"
    ensures CellOf(header, row, "item").None? ==> CleanRow(header, row, toNumber, parseDate).value.item == "None"
  {
  }

  // ---------------------------------------------------------------------------
  // The route
  // ---------------------------------------------------------------------------

  datatype UploadResponse =
    | Stored(records: seq<Record>, message: string)   // 200, written to the user's table and the master table
    | UploadError(status: nat, error: string)
    | UploadFailed                                    // 500, "Failed to upload data: " and the exception's text
    | UploadCrashed                                   // the body is not a JSON object: `data.get` raises

  const PhoneMissing: string := "Phone number is required."
  const CsvMissing: string := "CSV data is required."
  const NoValidRows: string :=
    "No valid data rows found after processing OCR CSV. Please ensure the CSV contains 'item' and 'sale_date' data."

  /**
   * A column the conversions read as one series comes from two headers:
   * `pd.to_numeric` rejects a frame with `TypeError`, and `pd.to_datetime`
   * reads one as year/month/day parts and raises `ValueError`.
   */
  predicate ConversionRaises(header: seq<string>) {
    Duplicated(header, "price") || Duplicated(header, "quantity_in_stock")
    || Duplicated(header, "quantity_sold") || Duplicated(header, "sale_date")
  }

  /** The request carries a phone number and CSV text that `read_csv` accepts as `t`. */
  predicate ReadsAs(body: Value, readCsv: string -> Option<Table>, t: Table) {
    body.Obj? && PyTruthy(PyGet(body.fields, "phone_number")) && PyGet(body.fields, "csv_data").Str?
    && PyGet(body.fields, "csv_data").s != "" && readCsv(PyGet(body.fields, "csv_data").s) == Some(t)
  }

  /**
   * `readCsv` is `pd.read_csv(StringIO(text))`, `None` when it raises. A
   * repeated `item` column survives the cleaning, but the master-table sync
   * then binds a pair of cells as one SQL parameter, which raises.
   */
  function UploadOcrData(body: Value, readCsv: string -> Option<Table>, toNumber: string -> Option<real>,
                         parseDate: string -> Option<Date>): (r: UploadResponse)
    ensures body.Obj? && !PyTruthy(PyGet(body.fields, "phone_number")) ==> r == UploadError(400, PhoneMissing)
    ensures forall t :: ReadsAs(body, readCsv, t) && ConversionRaises(t.header) ==> r == UploadFailed
    ensures forall t :: ReadsAs(body, readCsv, t) && !ConversionRaises(t.header) ==>
      (r == UploadError(400, NoValidRows) <==> CleanRows(t, toNumber, parseDate) == [])
    ensures forall t :: ReadsAs(body, readCsv, t) && !ConversionRaises(t.header) && CleanRows(t, toNumber, parseDate) != [] ==>
      (r.Stored? <==> !Duplicated(t.header, "item")) && (!r.Stored? ==> r == UploadFailed)
    ensures r.Stored? ==> forall t :: ReadsAs(body, readCsv, t) ==>
      !ConversionRaises(t.header) && !Duplicated(t.header, "item")
    ensures body.Obj? && PyTruthy(PyGet(body.fields, "phone_number")) && !PyTruthy(PyGet(body.fields, "csv_data")) ==>
      r == UploadError(400, CsvMissing)
    ensures r.Stored? || r == UploadError(400, NoValidRows) ==>
      body.Obj? && PyGet(body.fields, "csv_data").Str? && readCsv(PyGet(body.fields, "csv_data").s).Some?
    ensures r.Stored? ==>
      0 < |r.records| <= |readCsv(PyGet(body.fields, "csv_data").s).value.rows|
      && r.records == CleanRows(readCsv(PyGet(body.fields, "csv_data").s).value, toNumber, parseDate)
    ensures r.Stored? ==> r.message == NatToString(|r.records|) + " records uploaded successfully."
    ensures r == UploadError(400, NoValidRows) ==>
      CleanRows(readCsv(PyGet(body.fields, "csv_data").s).value, toNumber, parseDate) == []
  {
    if !body.Obj? then UploadCrashed
    else
      var phone := PyGet(body.fields, "phone_number");
      var csv := PyGet(body.fields, "csv_data");
      if !PyTruthy(phone) then UploadError(400, PhoneMissing)
      else if !PyTruthy(csv) then UploadError(400, CsvMissing)
      else if !csv.Str? then UploadFailed   // StringIO rejects anything but text
      else
        match readCsv(csv.s)
        case None => UploadFailed
        case Some(t) =>
          if ConversionRaises(t.header) then UploadFailed
          else
            var records := CleanRows(t, toNumber, parseDate);
            if |records| == 0 then UploadError(400, NoValidRows)
            else if Duplicated(t.header, "item") then UploadFailed
            else Stored(records, NatToString(|records|) + " records uploaded successfully.")
  }

  /**
   * Two headers that name the same numeric or date column (`Price` and
   * `price`, `date` and `sale_date`) make the upload fail, whatever the rows hold.
   */
  lemma RepeatedColumnFails(body: Value, readCsv: string -> Option<Table>, toNumber: string -> Option<real>,
                            parseDate: string -> Option<Date>, t: Table, i: nat, j: nat, name: string)
    requires ReadsAs(body, readCsv, t)
    requires name in {"price", "quantity_in_stock", "quantity_sold", "sale_date"}
    requires i < j < |t.header| && Canonical(t.header[i]) == name && Canonical(t.header[j]) == name
    ensures UploadOcrData(body, readCsv, toNumber, parseDate) == UploadFailed
  {
    DuplicatedMeansTwo(t.header, name);
  }
}
