/**
 * The values the Supabase SDK hands back: rows are Python dictionaries from
 * column names to JSON-like values, and every query either returns its rows
 * or raises.
 */
module Rows {

  /** A column value as it reaches Python from PostgREST. */
  datatype Json = JNull | JBool(b: bool) | JInt(n: int) | JStr(s: string) | JArray(items: seq<Json>)

  /** One row of a query result. */
  type Row = map<string, Json>

  /** `table(...).select(...)....execute()`: its `data`, or an exception. */
  datatype QueryResult = QueryFailed | QueryRows(data: seq<Row>)

  /** `rpc(...).execute()`: its `data`, or an exception. */
  datatype RpcReply = RpcFailed | RpcData(data: Json)

  /** Python truthiness of a value. */
  predicate Truthy(j: Json)
  {
    match j
    case JNull => false
    case JBool(b) => b
    case JInt(n) => n != 0
    case JStr(s) => s != ""
    case JArray(items) => items != []
  }

  /** `row.get(key)`: the value, or None when the column is absent. */
  function Get(row: Row, key: string): Json
  {
    if key in row then row[key] else JNull
  }

  /** Every row has the column `key` (so `row[key]` raises no KeyError). */
  predicate HasField(rows: seq<Row>, key: string)
  {
    forall i :: 0 <= i < |rows| ==> key in rows[i]
  }

  /** The ids of the rows. */
  function IdsOf(rows: seq<Row>): set<Json>
    requires HasField(rows, "id")
  {
    set i | 0 <= i < |rows| :: rows[i]["id"]
  }

  /** Appending a row adds its id to the ids. */
  lemma IdsOfSnoc(rows: seq<Row>, n: nat)
    requires HasField(rows, "id") && n < |rows|
    ensures HasField(rows[..n], "id") && HasField(rows[..n + 1], "id")
    ensures IdsOf(rows[..n + 1]) == IdsOf(rows[..n]) + {rows[n]["id"]}
  {
  }

  /** The ids of two row lists laid end to end are the ids of each. */
  lemma IdsOfAppend(a: seq<Row>, b: seq<Row>)
    requires HasField(a, "id") && HasField(b, "id")
    ensures HasField(a + b, "id")
    ensures IdsOf(a + b) == IdsOf(a) + IdsOf(b)
  {
    var ab := a + b;
    forall x | x in IdsOf(ab) ensures x in IdsOf(a) + IdsOf(b) {
      var j :| 0 <= j < |ab| && ab[j]["id"] == x;
      if j < |a| { assert ab[j] == a[j]; } else { assert ab[j] == b[j - |a|]; }
    }
    forall x | x in IdsOf(a) ensures x in IdsOf(ab) {
      var j :| 0 <= j < |a| && a[j]["id"] == x;
      assert ab[j] == a[j];
    }
    forall x | x in IdsOf(b) ensures x in IdsOf(ab) {
      var j :| 0 <= j < |b| && b[j]["id"] == x;
      assert ab[|a| + j] == b[j];
    }
  }

  /** The rows of a query, or [] when it raised. */
  function RowsOrEmpty(result: QueryResult): seq<Row>
  {
    if result.QueryRows? then result.data else []
  }
}
