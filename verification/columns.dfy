/**
 * Column-name validation against the user's `sales` table
 * (`get_valid_db_column_name` in backend/insight_module.py).
 *
 * The table's column list (what `PRAGMA table_info` returns) is passed in;
 * `None` stands for a user whose database file does not exist.
 */
module Columns {

  import opened Wrappers
  import opened Text
  import opened Json

  type Schema = seq<string>

  /** Index of the first column equal to `name` ignoring case. */
  function FirstMatch(schema: Schema, name: string): (r: Option<nat>)
    ensures r.Some? ==> r.value < |schema| && EqIgnoreCase(schema[r.value], name)
    ensures r.Some? ==> forall j :: 0 <= j < r.value ==> !EqIgnoreCase(schema[j], name)
    ensures r.None? ==> forall j :: 0 <= j < |schema| ==> !EqIgnoreCase(schema[j], name)
  {
    if |schema| == 0 then None
    else if EqIgnoreCase(schema[0], name) then Some(0)
    else
      match FirstMatch(schema[1..], name)
      case None => None
      case Some(k) => Some(k + 1)
  }

  /**
   * The column of `schema` that a requested name denotes, in the schema's
   * own casing; `None` for a falsy request, a request that is not a string,
   * a missing database, or no column equal to it ignoring case.
   */
  function ResolveColumn(request: Value, db: Option<Schema>): (r: Option<string>)
    ensures r.Some? <==>
      (db.Some? && request.Str? && request.s != ""
       && exists i :: 0 <= i < |db.value| && EqIgnoreCase(db.value[i], request.s))
    ensures r.Some? ==>
      exists i :: 0 <= i < |db.value| && db.value[i] == r.value
        && EqIgnoreCase(r.value, request.s)
        && forall j :: 0 <= j < i ==> !EqIgnoreCase(db.value[j], request.s)
  {
    if !PyTruthy(request) then None
    else if db.None? then None
    else if !request.Str? then None   // `.lower()` on a non-string is caught and yields None
    else
      match FirstMatch(db.value, request.s)
      case None => None
      case Some(i) => Some(db.value[i])
  }

  /** A resolved column has the length of the request, so it is never empty. */
  lemma ResolvedColumnNonEmpty(request: Value, db: Option<Schema>)
    requires ResolveColumn(request, db).Some?
    ensures |ResolveColumn(request, db).value| == |request.s| > 0
  {
    EqIgnoreCaseSameLength(ResolveColumn(request, db).value, request.s);
  }

  /** Resolution depends on the request only up to case. */
  lemma ResolveColumnCaseInsensitive(a: string, b: string, db: Option<Schema>)
    requires EqIgnoreCase(a, b)
    ensures ResolveColumn(Str(a), db) == ResolveColumn(Str(b), db)
  {
    EqIgnoreCaseSameLength(a, b);
    if db.Some? {
      FirstMatchCaseInsensitive(db.value, a, b);
    }
  }

  lemma {:induction false} FirstMatchCaseInsensitive(schema: Schema, a: string, b: string)
    requires EqIgnoreCase(a, b)
    ensures FirstMatch(schema, a) == FirstMatch(schema, b)
  {
    if |schema| > 0 {
      FirstMatchCaseInsensitive(schema[1..], a, b);
    }
  }
}
