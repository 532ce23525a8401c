/**
 * The deterministic post-processing of `SupabaseDataStore`: what each method
 * does with the rows a query returns, and what it returns when the query
 * raises. The Supabase SDK itself is not modelled: a query's outcome is a
 * parameter (a QueryResult or RpcReply), and a query whose filter the method
 * computes is a function from that filter value to its outcome.
 */
module SupabaseStore {
  import opened Wrappers
  import opened Args
  import opened Rows
  import opened Selection

  // ---------------------------------------------------------------------------
  // Issues
  // ---------------------------------------------------------------------------

  const RelatedOffices: string := "related_offices"
  const RelatedMeasures: string := "related_measures"

  /**
   * The per-row fix-up of `get_all_issues` and `get_issue_by_id`: a missing
   * or None relation list becomes [], and nothing else changes.
   */
  function NormalizeIssue(row: Row): (r: Row)
    ensures r.Keys == row.Keys + {RelatedOffices, RelatedMeasures}
    ensures r[RelatedOffices] != JNull && r[RelatedMeasures] != JNull
    ensures Get(row, RelatedOffices) == JNull ==> r[RelatedOffices] == JArray([])
    ensures Get(row, RelatedMeasures) == JNull ==> r[RelatedMeasures] == JArray([])
    ensures forall k :: k in row && row[k] != JNull ==> r[k] == row[k]
    ensures forall k :: k in row && k != RelatedOffices && k != RelatedMeasures ==> r[k] == row[k]
  {
    var withOffices := if Get(row, RelatedOffices) == JNull then row[RelatedOffices := JArray([])] else row;
    if Get(withOffices, RelatedMeasures) == JNull then withOffices[RelatedMeasures := JArray([])] else withOffices
  }

  /** Normalising twice is normalising once. */
  lemma NormalizeIssueIdempotent(row: Row)
    ensures NormalizeIssue(NormalizeIssue(row)) == NormalizeIssue(row)
  {
  }

  /** `get_all_issues`: every returned row normalised in place; [] when the query raises. */
  method GetAllIssues(result: QueryResult) returns (issues: seq<Row>)
    ensures result.QueryFailed? ==> issues == []
    ensures result.QueryRows? ==> |issues| == |result.data|
    ensures result.QueryRows? ==> forall i :: 0 <= i < |issues| ==> issues[i] == NormalizeIssue(result.data[i])
  {
    if result.QueryFailed? {
      return [];
    }
    issues := result.data;
    var i := 0;
    while i < |issues|
      invariant 0 <= i <= |issues| == |result.data|
      invariant forall j :: 0 <= j < i ==> issues[j] == NormalizeIssue(result.data[j])
      invariant forall j :: i <= j < |issues| ==> issues[j] == result.data[j]
    {
      var issue := issues[i];
      if Get(issue, RelatedOffices) == JNull {
        issue := issue[RelatedOffices := JArray([])];
      }
      if Get(issue, RelatedMeasures) == JNull {
        issue := issue[RelatedMeasures := JArray([])];
      }
      issues := issues[i := issue];
      i := i + 1;
    }
  }

  /**
   * `get_issue_by_id`: the first returned row, normalised; None when no row
   * came back or the query raised.
   */
  function GetIssueById(result: QueryResult): (r: Option<Row>)
    ensures r.Some? <==> result.QueryRows? && result.data != []
    ensures r.Some? ==> r.value == NormalizeIssue(result.data[0])
  {
    if result.QueryRows? && result.data != [] then Some(NormalizeIssue(result.data[0])) else None
  }

  /**
   * When the database honours the `eq('id', issue_id)` filter, the issue
   * returned is the one asked for.
   */
  lemma GetIssueByIdKeepsId(issueId: string, result: QueryResult)
    requires result.QueryRows? ==>
               forall i :: 0 <= i < |result.data| ==> Get(result.data[i], "id") == JStr(issueId)
    ensures GetIssueById(result).Some? ==> Get(GetIssueById(result).value, "id") == JStr(issueId)
  {
  }

  // ---------------------------------------------------------------------------
  // Frequencies
  // ---------------------------------------------------------------------------

  /** The dictionary the loop of `get_frequencies` builds, one row after another. */
  function FrequencyTable(rows: seq<Row>): map<Json, Json>
    requires HasField(rows, "id") && HasField(rows, "count")
  {
    if rows == [] then map[]
    else
      var n := |rows| - 1;
      FrequencyTable(rows[..n])[rows[n]["id"] := rows[n]["count"]]
  }

  /** No later row has the same id as row `j`. */
  predicate LastWithItsId(rows: seq<Row>, j: nat)
    requires HasField(rows, "id") && j < |rows|
  {
    forall k :: j < k < |rows| ==> rows[k]["id"] != rows[j]["id"]
  }

  /** The table's keys are exactly the row ids. */
  lemma {:induction false} FrequencyTableKeys(rows: seq<Row>)
    requires HasField(rows, "id") && HasField(rows, "count")
    ensures FrequencyTable(rows).Keys == IdsOf(rows)
  {
    if rows != [] {
      var n := |rows| - 1;
      FrequencyTableKeys(rows[..n]);
      IdsOfSnoc(rows, n);
      assert rows[..n + 1] == rows;
    }
  }

  /**
   * Each id maps to the count of the last row with that id: a later row
   * overwrites an earlier one.
   */
  lemma {:induction false} FrequencyTableValues(rows: seq<Row>)
    requires HasField(rows, "id") && HasField(rows, "count")
    ensures forall j :: 0 <= j < |rows| && LastWithItsId(rows, j) ==>
              rows[j]["id"] in FrequencyTable(rows) && FrequencyTable(rows)[rows[j]["id"]] == rows[j]["count"]
  {
    if rows != [] {
      var n := |rows| - 1;
      var front := rows[..n];
      FrequencyTableValues(front);
      forall j | 0 <= j < |rows| && LastWithItsId(rows, j)
        ensures rows[j]["id"] in FrequencyTable(rows) && FrequencyTable(rows)[rows[j]["id"]] == rows[j]["count"]
      {
        if j < n {
          LastWithItsIdFront(rows, j);
          assert front[j] == rows[j];
        }
      }
    }
  }

  /** Row j is still the last with its id once the final row is dropped. */
  lemma LastWithItsIdFront(rows: seq<Row>, j: nat)
    requires HasField(rows, "id") && j < |rows| - 1 && LastWithItsId(rows, j)
    ensures HasField(rows[..|rows| - 1], "id") && LastWithItsId(rows[..|rows| - 1], j)
    ensures rows[j]["id"] != rows[|rows| - 1]["id"]
  {
  }

  /**
   * `get_frequencies`: id to count over the returned rows; {} when the query
   * raises or a row lacks one of the two columns (the KeyError is caught).
   */
  method GetFrequencies(result: QueryResult) returns (freq: map<Json, Json>)
    ensures result.QueryFailed? ==> freq == map[]
    ensures result.QueryRows? && !(HasField(result.data, "id") && HasField(result.data, "count")) ==> freq == map[]
    ensures result.QueryRows? && HasField(result.data, "id") && HasField(result.data, "count") ==>
              freq == FrequencyTable(result.data)
  {
    if result.QueryFailed? {
      return map[];
    }
    var rows := result.data;
    freq := map[];
    var i := 0;
    while i < |rows|
      invariant 0 <= i <= |rows|
      invariant HasField(rows[..i], "id") && HasField(rows[..i], "count")
      invariant freq == FrequencyTable(rows[..i])
    {
      if "id" !in rows[i] || "count" !in rows[i] {
        return map[];
      }
      assert rows[..i + 1][..i] == rows[..i];
      freq := freq[rows[i]["id"] := rows[i]["count"]];
      i := i + 1;
    }
    assert rows[..i] == rows;
  }

  // ---------------------------------------------------------------------------
  // Increment
  // ---------------------------------------------------------------------------

  /** Whether each `increment_issue_count` call returned truthy data. */
  function HitFlags(replies: seq<RpcReply>): seq<bool>
  {
    seq(|replies|, i requires 0 <= i < |replies| => replies[i].RpcData? && Truthy(replies[i].data))
  }

  /**
   * `increment_issues`: `replies[i]` is what the RPC did for the i-th id.
   * An invalid id list is refused; an RPC that raises makes the call return
   * False; otherwise `updated` is the in-order list of ids whose RPC returned
   * data, and the call succeeds exactly when some RPC returned data.
   */
  method IncrementIssues(arg: IssueIdsArg, replies: seq<RpcReply>) returns (ok: bool, updated: seq<string>)
    requires arg.IdList? ==> |replies| == |arg.items|
    ensures !ValidIssueIds(arg) ==> !ok && updated == []
    ensures ValidIssueIds(arg) && RpcFailed in replies ==> !ok
    ensures ValidIssueIds(arg) && RpcFailed !in replies ==> updated == Keep(arg.items, HitFlags(replies))
    ensures ValidIssueIds(arg) && RpcFailed !in replies ==>
              (ok <==> exists i :: 0 <= i < |replies| && replies[i].RpcData? && Truthy(replies[i].data))
  {
    if !arg.IdList? || arg.items == [] {
      return false, [];
    }
    var ids := arg.items;
    ghost var flags := HitFlags(replies);
    updated := [];
    var i := 0;
    while i < |ids|
      invariant 0 <= i <= |ids|
      invariant RpcFailed !in replies[..i]
      invariant updated == Keep(ids[..i], flags[..i])
    {
      assert ids[..i + 1][..i] == ids[..i];
      assert flags[..i + 1][..i] == flags[..i];
      match replies[i]
      case RpcFailed =>
        assert RpcFailed in replies;
        return false, updated;
      case RpcData(data) =>
        if Truthy(data) {
          updated := updated + [ids[i]];
        }
      assert replies[..i + 1] == replies[..i] + [replies[i]];
      i := i + 1;
    }
    assert ids[..i] == ids && flags[..i] == flags && replies[..i] == replies;
    KeepNonEmpty(ids, flags);
    assert forall i :: 0 <= i < |replies| ==> (flags[i] <==> replies[i].RpcData? && Truthy(replies[i].data));
    ok := |updated| > 0;
  }

  // ---------------------------------------------------------------------------
  // Total users
  // ---------------------------------------------------------------------------

  /** Python's `max` over a non-empty list of integers. */
  function MaxOf(counts: seq<int>): (m: int)
    requires counts != []
    ensures m in counts
    ensures forall c :: c in counts ==> c <= m
  {
    if |counts| == 1 then counts[0]
    else
      var rest := MaxOf(counts[1..]);
      assert forall c :: c in counts ==> c == counts[0] || c in counts[1..];
      if counts[0] >= rest then counts[0] else rest
  }

  /** Every row carries an integer `count`. */
  predicate IntCounts(rows: seq<Row>)
  {
    forall i :: 0 <= i < |rows| ==> "count" in rows[i] && rows[i]["count"].JInt?
  }

  /**
   * `get_total_users`: the largest count among the rows (not their sum);
   * 0 when no row came back, the query raised, or a count is missing.
   */
  function GetTotalUsers(result: QueryResult): (n: int)
    ensures result.QueryFailed? || result.data == [] ==> n == 0
    ensures result.QueryRows? && !IntCounts(result.data) ==> n == 0
    ensures result.QueryRows? && IntCounts(result.data) ==>
              forall i :: 0 <= i < |result.data| ==> result.data[i]["count"].n <= n
    ensures result.QueryRows? && result.data != [] && IntCounts(result.data) ==>
              exists i :: 0 <= i < |result.data| && result.data[i]["count"].n == n
  {
    if result.QueryFailed? || result.data == [] || !IntCounts(result.data) then 0
    else
      var rows := result.data;
      var counts := seq(|rows|, i requires 0 <= i < |rows| => rows[i]["count"].n);
      var m := MaxOf(counts);
      assert forall i :: 0 <= i < |rows| ==> rows[i]["count"].n == counts[i] && counts[i] in counts;
      var w :| 0 <= w < |counts| && counts[w] == m;
      assert rows[w]["count"].n == m;
      m
  }

  // ---------------------------------------------------------------------------
  // Filter literal and the queries by issue
  // ---------------------------------------------------------------------------

  /** `",".join(ids)`. */
  function Join(ids: seq<string>): string
  {
    if ids == [] then ""
    else if |ids| == 1 then ids[0]
    else ids[0] + "," + Join(ids[1..])
  }

  /** The PostgreSQL array literal `{a,b,c}` the overlap filters send. */
  function OverlapFilter(ids: seq<string>): (f: string)
    ensures |f| >= 2 && f[0] == '{' && f[|f| - 1] == '}'
  {
    "{" + Join(ids) + "}"
  }

  /** The position of the first comma in `s`, or |s| when there is none. */
  function CommaIndex(s: string): (i: nat)
    ensures i <= |s|
    ensures i < |s| ==> s[i] == ','
    ensures forall j :: 0 <= j < i ==> s[j] != ','
  {
    if s == [] || s[0] == ',' then 0 else 1 + CommaIndex(s[1..])
  }

  /** Splitting on commas, the inverse of Join for comma-free ids. */
  function Split(s: string): seq<string>
    decreases |s|
  {
    var i := CommaIndex(s);
    if i == |s| then [s] else [s[..i]] + Split(s[i + 1..])
  }

  /**
   * A plain reading of an array literal: strip the braces, split on commas.
   * This is not PostgreSQL's own array parser, which also trims blanks,
   * reads an unquoted NULL as a null element and gives '"' and '\\' a
   * meaning; it only serves to show what the joined text can and cannot
   * tell apart.
   */
  function ParseArrayLiteral(f: string): seq<string>
    requires |f| >= 2
  {
    Split(f[1..|f| - 1])
  }

  /**
   * The filter literal of a non-empty list of comma-free ids reads back as
   * exactly that list, in order.
   */
  lemma OverlapFilterRoundTrip(ids: seq<string>)
    requires ids != []
    requires forall i :: 0 <= i < |ids| ==> ',' !in ids[i]
    ensures ParseArrayLiteral(OverlapFilter(ids)) == ids
  {
    var f := OverlapFilter(ids);
    assert f[1..|f| - 1] == Join(ids);
    SplitJoin(ids);
  }

  lemma {:induction false} SplitJoin(ids: seq<string>)
    requires ids != []
    requires forall i :: 0 <= i < |ids| ==> ',' !in ids[i]
    ensures Split(Join(ids)) == ids
  {
    var x := ids[0];
    if |ids| == 1 {
      assert CommaIndex(x) == |x|;
    } else {
      var tail := Join(ids[1..]);
      var s := x + "," + tail;
      var i := CommaIndex(s);
      assert s[|x|] == ',';
      assert forall j :: 0 <= j < |x| ==> s[j] == x[j];
      assert i == |x|;
      assert s[..i] == x;
      assert s[i + 1..] == tail;
      SplitJoin(ids[1..]);
    }
  }

  /**
   * Ids are not quoted: the literal for one id holding a comma is the
   * literal for two ids, so no reader, PostgreSQL's included, can tell them
   * apart.
   */
  lemma OverlapFilterCommaAmbiguity()
    ensures OverlapFilter(["a,b"]) == OverlapFilter(["a", "b"])
  {
  }

  /**
   * `get_offices_by_issues`: [] for an empty id list, whatever the query
   * would return; otherwise the rows of the overlap query on the literal,
   * [] when it raises.
   */
  function GetOfficesByIssues(issueIds: seq<string>, overlapQuery: string -> QueryResult): (rows: seq<Row>)
    ensures issueIds == [] ==> rows == []
    ensures issueIds != [] ==> rows == RowsOrEmpty(overlapQuery(OverlapFilter(issueIds)))
  {
    if issueIds == [] then [] else RowsOrEmpty(overlapQuery(OverlapFilter(issueIds)))
  }

  /**
   * `get_ballot_measures_by_issues`: the same lookup as the offices query,
   * run against the ballot-measures table.
   */
  function GetBallotMeasuresByIssues(issueIds: seq<string>, overlapQuery: string -> QueryResult): (rows: seq<Row>)
    ensures issueIds == [] ==> rows == []
    ensures issueIds != [] ==> rows == RowsOrEmpty(overlapQuery(OverlapFilter(issueIds)))
  {
    GetOfficesByIssues(issueIds, overlapQuery)
  }

  /**
   * `get_candidates_by_offices`: [] for an empty office list, whatever the
   * query would return; otherwise the rows of `office_id in office_ids`.
   */
  function GetCandidatesByOffices(officeIds: seq<string>, inQuery: seq<string> -> QueryResult): (rows: seq<Row>)
    ensures officeIds == [] ==> rows == []
    ensures officeIds != [] ==> rows == RowsOrEmpty(inQuery(officeIds))
  {
    if officeIds == [] then [] else RowsOrEmpty(inQuery(officeIds))
  }

  // ---------------------------------------------------------------------------
  // Candidates by issues: merge and de-duplicate
  // ---------------------------------------------------------------------------

  /** Row i is the first row with its id. */
  function FirstFlags(rows: seq<Row>): seq<bool>
    requires HasField(rows, "id")
  {
    seq(|rows|, i requires 0 <= i < |rows| => rows[i]["id"] !in IdsOf(rows[..i]))
  }

  /** The rows that are the first with their id, in order. */
  function Dedup(rows: seq<Row>): seq<Row>
    requires HasField(rows, "id")
  {
    Keep(rows, FirstFlags(rows))
  }

  /** The de-duplication loop: a `seen_ids` set and a `unique_candidates` list. */
  method DedupById(all: seq<Row>) returns (unique: seq<Row>)
    requires HasField(all, "id")
    ensures unique == Dedup(all)
  {
    ghost var flags := FirstFlags(all);
    var seen: set<Json> := {};
    unique := [];
    var i := 0;
    while i < |all|
      invariant 0 <= i <= |all|
      invariant seen == IdsOf(all[..i])
      invariant unique == Keep(all[..i], flags[..i])
    {
      assert all[..i + 1][..i] == all[..i];
      assert flags[..i + 1][..i] == flags[..i];
      var id := all[i]["id"];
      if id !in seen {
        seen := seen + {id};
        unique := unique + [all[i]];
      }
      IdsOfSnoc(all, i);
      i := i + 1;
    }
    assert all[..i] == all && flags[..i] == flags;
  }

  /** No id occurs twice in the de-duplicated rows. */
  lemma DedupDistinctIds(rows: seq<Row>)
    requires HasField(rows, "id")
    ensures HasField(Dedup(rows), "id")
    ensures forall a, b :: 0 <= a < b < |Dedup(rows)| ==> Dedup(rows)[a]["id"] != Dedup(rows)[b]["id"]
  {
    var flags := FirstFlags(rows);
    var idx := KeptIndices(flags);
    KeepSelects(rows, flags);
    KeptIndicesExact(flags);
    var d := Dedup(rows);
    forall a, b | 0 <= a < b < |d| ensures d[a]["id"] != d[b]["id"] {
      var ia, ib := idx[a], idx[b];
      assert ia < ib;
      assert rows[..ib][ia] == rows[ia];
      assert rows[ia]["id"] in IdsOf(rows[..ib]);
    }
  }

  /**
   * The de-duplicated rows are the first occurrences of each id, in the
   * order they first occur: row k sits at position KeptIndices(..)[k] of
   * the input, those positions increase, and each holds the first row with
   * its id.
   */
  lemma DedupFirstOccurrences(rows: seq<Row>)
    requires HasField(rows, "id")
    ensures |Dedup(rows)| == |KeptIndices(FirstFlags(rows))|
    ensures forall k :: 0 <= k < |Dedup(rows)| ==>
              var j := KeptIndices(FirstFlags(rows))[k];
              j < |rows| && Dedup(rows)[k] == rows[j] && rows[j]["id"] !in IdsOf(rows[..j])
    ensures forall a, b :: 0 <= a < b < |KeptIndices(FirstFlags(rows))| ==>
              KeptIndices(FirstFlags(rows))[a] < KeptIndices(FirstFlags(rows))[b]
  {
    KeepSelects(rows, FirstFlags(rows));
    KeptIndicesExact(FirstFlags(rows));
  }

  /** Every id of the input appears in the de-duplicated rows, and no other. */
  lemma DedupCoversIds(rows: seq<Row>)
    requires HasField(rows, "id")
    ensures HasField(Dedup(rows), "id")
    ensures IdsOf(Dedup(rows)) == IdsOf(rows)
  {
    var d := Dedup(rows);
    var idx := KeptIndices(FirstFlags(rows));
    KeepSelects(rows, FirstFlags(rows));
    assert HasField(d, "id");
    forall x | x in IdsOf(d) ensures x in IdsOf(rows) {
      var k :| 0 <= k < |d| && d[k]["id"] == x;
      assert rows[idx[k]]["id"] == x;
    }
    forall x | x in IdsOf(rows) ensures x in IdsOf(d) {
      var j :| 0 <= j < |rows| && rows[j]["id"] == x;
      var f := FirstWithId(rows, j);
      var k := DedupHoldsFirst(rows, f);
      assert d[k]["id"] == x;
    }
  }

  /** The first row with a given id is kept, at some position k. */
  lemma DedupHoldsFirst(rows: seq<Row>, f: nat) returns (k: nat)
    requires HasField(rows, "id") && f < |rows| && FirstFlags(rows)[f]
    ensures k < |Dedup(rows)| && Dedup(rows)[k] == rows[f]
  {
    var flags := FirstFlags(rows);
    KeepSelects(rows, flags);
    KeptIndicesExact(flags);
    k :| 0 <= k < |KeptIndices(flags)| && KeptIndices(flags)[k] == f;
  }

  /** Some position at or before `j` holds the first row with the id of row `j`. */
  lemma {:induction false} FirstWithId(rows: seq<Row>, j: nat) returns (f: nat)
    requires HasField(rows, "id") && j < |rows|
    ensures f <= j && rows[f]["id"] == rows[j]["id"] && FirstFlags(rows)[f]
    decreases j
  {
    if FirstFlags(rows)[j] {
      f := j;
    } else {
      var i :| 0 <= i < j && rows[..j][i]["id"] == rows[j]["id"];
      assert rows[..j][i] == rows[i];
      f := FirstWithId(rows, i);
    }
  }

  /**
   * Merging keeps every direct match first, in its own de-duplicated order;
   * office-derived rows only follow.
   */
  lemma DedupDirectFirst(direct: seq<Row>, fromOffices: seq<Row>)
    requires HasField(direct, "id") && HasField(fromOffices, "id")
    ensures HasField(direct + fromOffices, "id")
    ensures |Dedup(direct)| <= |Dedup(direct + fromOffices)|
    ensures Dedup(direct + fromOffices)[..|Dedup(direct)|] == Dedup(direct)
  {
    var all := direct + fromOffices;
    var flags := FirstFlags(all);
    var n := |direct|;
    assert flags[..n] == FirstFlags(direct) by {
      forall i | 0 <= i < n ensures flags[i] == FirstFlags(direct)[i] {
        assert all[..i] == direct[..i];
      }
    }
    assert all[..n] == direct && all[n..] == fromOffices;
    assert all == all[..n] + all[n..];
    assert flags == flags[..n] + flags[n..];
    KeepAppend(direct, flags[..n], fromOffices, flags[n..]);
  }

  /** The ids of the matched offices, in their order. */
  function OfficeIds(offices: seq<Row>): seq<Json>
    requires HasField(offices, "id")
  {
    seq(|offices|, i requires 0 <= i < |offices| => offices[i]["id"])
  }

  /**
   * The rows `get_candidates_by_issues` merges, direct matches first; None
   * when the direct or the by-office query raises or an office row has no
   * id. A failed office lookup is caught inside `get_offices_by_issues`, so
   * it leaves the direct matches alone.
   */
  function CandidatePool(
    issueIds: seq<string>,
    directQuery: string -> QueryResult,
    officeQuery: string -> QueryResult,
    byOfficeQuery: seq<Json> -> QueryResult): (pool: Option<seq<Row>>)
    ensures issueIds == [] ==> pool == Some([])
    ensures issueIds != [] && directQuery(OverlapFilter(issueIds)).QueryFailed? ==> pool == None
    ensures issueIds != [] && pool.Some? ==>
              var direct := directQuery(OverlapFilter(issueIds));
              direct.QueryRows? && |direct.data| <= |pool.value| && pool.value[..|direct.data|] == direct.data
    ensures issueIds != [] && GetOfficesByIssues(issueIds, officeQuery) == [] &&
            directQuery(OverlapFilter(issueIds)).QueryRows? ==>
              pool == Some(directQuery(OverlapFilter(issueIds)).data)
    ensures issueIds != [] && officeQuery(OverlapFilter(issueIds)).QueryFailed? &&
            directQuery(OverlapFilter(issueIds)).QueryRows? ==>
              pool == Some(directQuery(OverlapFilter(issueIds)).data)
    ensures issueIds != [] && directQuery(OverlapFilter(issueIds)).QueryRows? &&
            !HasField(GetOfficesByIssues(issueIds, officeQuery), "id") ==>
              pool == None
    ensures var offices := GetOfficesByIssues(issueIds, officeQuery);
            issueIds != [] && directQuery(OverlapFilter(issueIds)).QueryRows? &&
            offices != [] && HasField(offices, "id") && byOfficeQuery(OfficeIds(offices)).QueryFailed? ==>
              pool == None
  {
    if issueIds == [] then Some([])
    else
      match directQuery(OverlapFilter(issueIds))
      case QueryFailed => None
      case QueryRows(direct) =>
        var offices := GetOfficesByIssues(issueIds, officeQuery);
        if !HasField(offices, "id") then None
        else
          var officeIds := OfficeIds(offices);
          if officeIds == [] then Some(direct)
          else
            match byOfficeQuery(officeIds)
            case QueryFailed => None
            case QueryRows(fromOffices) =>
              assert (direct + fromOffices)[..|direct|] == direct;
              Some(direct + fromOffices)
  }

  /** When no office matched, the by-office query has no influence on the result. */
  lemma NoOfficeQueryWithoutOffices(
    issueIds: seq<string>,
    directQuery: string -> QueryResult,
    officeQuery: string -> QueryResult,
    byOfficeQuery1: seq<Json> -> QueryResult,
    byOfficeQuery2: seq<Json> -> QueryResult)
    requires GetOfficesByIssues(issueIds, officeQuery) == []
    ensures CandidatePool(issueIds, directQuery, officeQuery, byOfficeQuery1) ==
            CandidatePool(issueIds, directQuery, officeQuery, byOfficeQuery2)
  {
  }

  /**
   * When both the direct and the by-office queries answer and some office
   * matched, the candidates (the de-duplicated pool) carry exactly the ids
   * of both answers, each once; the de-duplicated direct matches come
   * first, and every row after them is an office-derived candidate whose id
   * no direct match has.
   */
  lemma CandidatesByIssuesMerge(
    issueIds: seq<string>,
    directQuery: string -> QueryResult,
    officeQuery: string -> QueryResult,
    byOfficeQuery: seq<Json> -> QueryResult,
    direct: seq<Row>,
    byOffice: seq<Row>)
    requires issueIds != []
    requires directQuery(OverlapFilter(issueIds)) == QueryRows(direct)
    requires var offices := GetOfficesByIssues(issueIds, officeQuery);
             offices != [] && HasField(offices, "id") && byOfficeQuery(OfficeIds(offices)) == QueryRows(byOffice)
    requires HasField(direct, "id") && HasField(byOffice, "id")
    ensures CandidatePool(issueIds, directQuery, officeQuery, byOfficeQuery) == Some(direct + byOffice)
    ensures HasField(direct + byOffice, "id") && HasField(Dedup(direct + byOffice), "id")
    ensures IdsOf(Dedup(direct + byOffice)) == IdsOf(direct) + IdsOf(byOffice)
    ensures forall a, b :: 0 <= a < b < |Dedup(direct + byOffice)| ==>
              Dedup(direct + byOffice)[a]["id"] != Dedup(direct + byOffice)[b]["id"]
    ensures |Dedup(direct)| <= |Dedup(direct + byOffice)|
    ensures Dedup(direct + byOffice)[..|Dedup(direct)|] == Dedup(direct)
    ensures forall k :: |Dedup(direct)| <= k < |Dedup(direct + byOffice)| ==>
              Dedup(direct + byOffice)[k] in byOffice && Dedup(direct + byOffice)[k]["id"] !in IdsOf(direct)
  {
    var all := direct + byOffice;
    IdsOfAppend(direct, byOffice);
    DedupCoversIds(all);
    DedupDistinctIds(all);
    DedupDirectFirst(direct, byOffice);
    DedupTailFromSecond(direct, byOffice);
  }

  /**
   * After the de-duplicated direct matches, the merged rows hold only rows
   * of the second list, and none of them repeats an id of the first.
   */
  lemma DedupTailFromSecond(direct: seq<Row>, byOffice: seq<Row>)
    requires HasField(direct, "id") && HasField(byOffice, "id")
    ensures HasField(direct + byOffice, "id")
    ensures |Dedup(direct)| <= |Dedup(direct + byOffice)|
    ensures forall k :: |Dedup(direct)| <= k < |Dedup(direct + byOffice)| ==>
              Dedup(direct + byOffice)[k] in byOffice && Dedup(direct + byOffice)[k]["id"] !in IdsOf(direct)
  {
    var all := direct + byOffice;
    DedupDirectFirst(direct, byOffice);
    DedupDistinctIds(all);
    DedupCoversIds(direct);
    var c, d := Dedup(all), Dedup(direct);
    assert forall x :: x in c ==> x in all;
    forall k | |d| <= k < |c| ensures c[k] in byOffice && c[k]["id"] !in IdsOf(direct) {
      forall p | 0 <= p < |d| ensures d[p]["id"] != c[k]["id"] {
        assert c[..|d|][p] == c[p];
      }
      assert c[k] in all;
      forall j | 0 <= j < |direct| ensures direct[j] != c[k] {
        assert direct[j]["id"] in IdsOf(direct);
      }
    }
  }

  /**
   * `get_candidates_by_issues`: [] for an empty id list; otherwise the pool
   * de-duplicated by id, keeping first occurrences; [] when the direct or
   * the by-office query raises or a row has no id. A failed office lookup
   * leaves the de-duplicated direct matches.
   */
  method GetCandidatesByIssues(
    issueIds: seq<string>,
    directQuery: string -> QueryResult,
    officeQuery: string -> QueryResult,
    byOfficeQuery: seq<Json> -> QueryResult) returns (candidates: seq<Row>)
    ensures issueIds == [] ==> candidates == []
    ensures var pool := CandidatePool(issueIds, directQuery, officeQuery, byOfficeQuery);
            if pool.Some? && HasField(pool.value, "id") then candidates == Dedup(pool.value)
            else candidates == []
  {
    if issueIds == [] {
      return [];
    }
    var pool := CandidatePool(issueIds, directQuery, officeQuery, byOfficeQuery);
    if pool.None? || !HasField(pool.value, "id") {
      return [];
    }
    candidates := DedupById(pool.value);
  }

  // ---------------------------------------------------------------------------
  // Readiness statistics and the factory
  // ---------------------------------------------------------------------------

  /** The all-zero statistics. */
  function ReadinessFallback(): Row
  {
    map["yes" := JInt(0), "no" := JInt(0), "still-thinking" := JInt(0)]
  }

  /**
   * `get_readiness_stats`: the first row of the RPC result; all three
   * answers at zero when nothing came back or the RPC raised.
   */
  function GetReadinessStats(result: QueryResult): (stats: Row)
    ensures result.QueryRows? && result.data != [] ==> stats == result.data[0]
    ensures !(result.QueryRows? && result.data != []) ==>
              stats.Keys == {"yes", "no", "still-thinking"} && forall k :: k in stats ==> stats[k] == JInt(0)
  {
    if result.QueryRows? && result.data != [] then result.data[0] else ReadinessFallback()
  }

  datatype Credentials = Credentials(url: string, key: string)

  datatype ConfigError = ValueError(message: string)

  const MissingCredentials: string :=
    "Supabase credentials not found. Please set SUPABASE_URL and SUPABASE_KEY environment variables."

  /** A falsy argument falls back to the environment variable of that name. */
  function WithFallback(given: Option<string>, env: map<string, string>, name: string): Option<string>
  {
    if TruthyText(given) then given else if name in env then Some(env[name]) else None
  }

  /**
   * The credential check of `create_supabase_data_store`: a ValueError when
   * the URL or the key is still missing or empty after the environment
   * fallback; otherwise the credentials the client is created with, an
   * explicit argument taking precedence over the environment.
   */
  function CreateSupabaseDataStore(url: Option<string>, key: Option<string>, env: map<string, string>)
    : (r: Result<Credentials, ConfigError>)
    ensures r.Failure? <==>
              (!TruthyText(url) && ("SUPABASE_URL" !in env || env["SUPABASE_URL"] == "")) ||
              (!TruthyText(key) && ("SUPABASE_KEY" !in env || env["SUPABASE_KEY"] == ""))
    ensures r.Failure? ==> r.error == ValueError(MissingCredentials)
    ensures r.Success? ==> r.value.url != "" && r.value.key != ""
    ensures r.Success? ==> r.value.url == (if TruthyText(url) then url.value else env["SUPABASE_URL"])
    ensures r.Success? ==> r.value.key == (if TruthyText(key) then key.value else env["SUPABASE_KEY"])
  {
    var u := WithFallback(url, env, "SUPABASE_URL");
    var k := WithFallback(key, env, "SUPABASE_KEY");
    if !TruthyText(u) || !TruthyText(k) then Failure(ValueError(MissingCredentials))
    else Success(Credentials(u.value, k.value))
  }
}
