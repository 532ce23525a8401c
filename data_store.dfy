/**
 * The in-memory engagement counter `IssueDataStore`: a map from issue id to
 * the number of users who picked it, the set of user ids already counted and
 * a running total of participating users.
 */
module IssueStore {
  import opened Wrappers
  import opened Args

  /** The three pieces of state of the store, as one value. */
  datatype StoreState = StoreState(
    frequencies: map<string, int>,
    userSessions: set<string>,
    totalUsers: int)

  /** The demo table keys, in the order of the dictionary literal. */
  const DemoIssueOrder: seq<string> := [
    "housing", "education", "healthcare", "environment", "transportation", "safety",
    "economy", "infrastructure", "immigration", "taxes", "rights", "seniors"]

  /** The demo frequency table loaded at start-up and on reset. */
  function DemoFrequencies(): map<string, int>
  {
    map[
      "housing" := 1247, "education" := 982, "healthcare" := 1156,
      "environment" := 891, "transportation" := 743, "safety" := 1089,
      "economy" := 1298, "infrastructure" := 567, "immigration" := 432,
      "taxes" := 789, "rights" := 923, "seniors" := 445]
  }

  /** The demo user total: one hundred users per table entry. */
  function DemoTotalUsers(): int
  {
    |DemoFrequencies()| * 100
  }

  /** The state right after construction or reset. */
  function DemoState(): StoreState
  {
    StoreState(DemoFrequencies(), {}, DemoTotalUsers())
  }

  /** No id is listed twice. */
  predicate Distinct(s: seq<string>)
  {
    forall i, j :: 0 <= i < j < |s| ==> s[i] != s[j]
  }

  /**
   * The demo table has the twelve listed keys, each once, so the demo user
   * total is 1200.
   */
  lemma DemoTableFacts()
    ensures Distinct(DemoIssueOrder)
    ensures forall id :: id in DemoFrequencies() <==> id in DemoIssueOrder
    ensures |DemoFrequencies()| == 12
    ensures DemoTotalUsers() == 1200
  {
    DemoOrderDistinct();
    DemoKeys();
    DistinctCard(DemoIssueOrder);
    assert |DemoFrequencies()| == |DemoFrequencies().Keys|;
  }

  /** The demo ids are pairwise different. */
  lemma DemoOrderDistinct()
    ensures Distinct(DemoIssueOrder)
  {
  }

  /** The keys of the demo map are the listed ids. */
  lemma DemoKeys()
    ensures DemoFrequencies().Keys == set id | id in DemoIssueOrder
  {
  }

  /** A list without repeats has as many elements as its set of elements. */
  lemma {:induction false} DistinctCard(s: seq<string>)
    requires Distinct(s)
    ensures |set id | id in s| == |s|
  {
    if |s| > 0 {
      var n := |s| - 1;
      DistinctCard(s[..n]);
      assert s == s[..n] + [s[n]];
      assert (set id | id in s) == (set id | id in s[..n]) + {s[n]};
      assert s[n] !in s[..n];
    }
  }

  /** One pass of the increment loop body: bump `id` when it is a known key. */
  function BumpOne(freq: map<string, int>, id: string): map<string, int>
  {
    if id in freq then freq[id := freq[id] + 1] else freq
  }

  /** The increment loop over `ids`, applied in order. */
  function BumpAll(freq: map<string, int>, ids: seq<string>): map<string, int>
  {
    if ids == [] then freq
    else BumpOne(BumpAll(freq, ids[..|ids| - 1]), ids[|ids| - 1])
  }

  /**
   * The increment loop adds to each known key the number of times it occurs
   * in `ids`; unknown ids are never added as keys.
   */
  lemma {:induction false} BumpAllCounts(freq: map<string, int>, ids: seq<string>)
    ensures BumpAll(freq, ids).Keys == freq.Keys
    ensures forall k :: k in freq ==> BumpAll(freq, ids)[k] == freq[k] + multiset(ids)[k]
  {
    if ids != [] {
      var n := |ids| - 1;
      BumpAllCounts(freq, ids[..n]);
      assert ids == ids[..n] + [ids[n]];
      assert multiset(ids) == multiset(ids[..n]) + multiset{ids[n]};
    }
  }

  /** What one call of `increment_issues` returns, and the state it leaves. */
  datatype Outcome = Outcome(accepted: bool, next: StoreState)

  /**
   * `increment_issues(issue_ids, user_id)` on the state `s`: an invalid id
   * list or an already counted user is rejected and changes nothing;
   * otherwise every known id is bumped once per occurrence, the user (if
   * truthy) is recorded and the total rises by one.
   */
  function Increment(s: StoreState, arg: IssueIdsArg, userId: Option<string>): (r: Outcome)
    ensures r.accepted <==> ValidIssueIds(arg) && !(TruthyText(userId) && userId.value in s.userSessions)
    ensures !r.accepted ==> r.next == s
    ensures r.accepted ==> r.next.totalUsers == s.totalUsers + 1
    ensures r.accepted ==> r.next.frequencies.Keys == s.frequencies.Keys
    ensures r.accepted ==> forall k :: k in s.frequencies ==>
              r.next.frequencies[k] == s.frequencies[k] + multiset(arg.items)[k]
    ensures r.accepted ==>
              r.next.userSessions == (if TruthyText(userId) then s.userSessions + {userId.value} else s.userSessions)
  {
    if !ValidIssueIds(arg) then Outcome(false, s)
    else if TruthyText(userId) && userId.value in s.userSessions then Outcome(false, s)
    else
      BumpAllCounts(s.frequencies, arg.items);
      var sessions := if TruthyText(userId) then s.userSessions + {userId.value} else s.userSessions;
      Outcome(true, StoreState(BumpAll(s.frequencies, arg.items), sessions, s.totalUsers + 1))
  }

  /** One call of `increment_issues`. */
  datatype Call = Call(ids: IssueIdsArg, userId: Option<string>)

  /**
   * The state after the calls, made one after another from `s`, with no
   * `reset_to_demo_data` in between: a reset clears the user set, after
   * which a user may be counted again.
   */
  function Replay(s: StoreState, calls: seq<Call>): StoreState
  {
    if calls == [] then s
    else
      var last := calls[|calls| - 1];
      Increment(Replay(s, calls[..|calls| - 1]), last.ids, last.userId).next
  }

  /** Whether call `i` of the history was accepted. */
  predicate AcceptedAt(s: StoreState, calls: seq<Call>, i: nat)
    requires i < |calls|
  {
    Increment(Replay(s, calls[..i]), calls[i].ids, calls[i].userId).accepted
  }

  /**
   * Along any history the key set stays the same, no count decreases, the
   * user total never decreases and no counted user is forgotten.
   */
  lemma {:induction false} ReplayMonotone(s: StoreState, calls: seq<Call>)
    ensures Replay(s, calls).frequencies.Keys == s.frequencies.Keys
    ensures forall k :: k in s.frequencies ==> Replay(s, calls).frequencies[k] >= s.frequencies[k]
    ensures Replay(s, calls).totalUsers >= s.totalUsers
    ensures s.userSessions <= Replay(s, calls).userSessions
  {
    if calls != [] {
      ReplayMonotone(s, calls[..|calls| - 1]);
    }
  }

  /** Replaying a longer prefix of a history extends the shorter one. */
  lemma {:induction false} ReplayPrefix(s: StoreState, calls: seq<Call>, i: nat, j: nat)
    requires i <= j <= |calls|
    ensures Replay(s, calls[..i]).userSessions <= Replay(s, calls[..j]).userSessions
    decreases j - i
  {
    if i < j {
      ReplayPrefix(s, calls, i + 1, j);
      assert calls[..i + 1][..i] == calls[..i];
    }
  }

  /**
   * Between two resets the same truthy user id is never counted twice: of
   * two accepted calls, at most one carries a given truthy user id.
   */
  lemma NoUserCountedTwice(s: StoreState, calls: seq<Call>, i: nat, j: nat)
    requires i < j < |calls|
    requires TruthyText(calls[i].userId) && calls[j].userId == calls[i].userId
    requires AcceptedAt(s, calls, i)
    ensures !AcceptedAt(s, calls, j)
  {
    assert calls[..i + 1][..i] == calls[..i];
    assert calls[i].userId.value in Replay(s, calls[..i + 1]).userSessions;
    ReplayPrefix(s, calls, i + 1, j);
  }

  /**
   * Each accepted call raises the total by exactly one, so the total after a
   * history is the starting total plus the number of accepted calls.
   */
  function AcceptedCount(s: StoreState, calls: seq<Call>): nat
  {
    if calls == [] then 0
    else
      var n := |calls| - 1;
      AcceptedCount(s, calls[..n]) + (if AcceptedAt(s, calls, n) then 1 else 0)
  }

  lemma {:induction false} ReplayTotalUsers(s: StoreState, calls: seq<Call>)
    ensures Replay(s, calls).totalUsers == s.totalUsers + AcceptedCount(s, calls)
  {
    if calls != [] {
      ReplayTotalUsers(s, calls[..|calls| - 1]);
    }
  }

  class IssueDataStore {
    var issueFrequencies: map<string, int>
    /** The keys of `issueFrequencies` in dictionary insertion order. */
    var issueOrder: seq<string>
    var userSessions: set<string>
    var totalUsers: int

    ghost predicate Valid()
      reads this
    {
      && Distinct(issueOrder)
      && forall id :: id in issueFrequencies <==> id in issueOrder
    }

    function State(): StoreState
      reads this
    {
      StoreState(issueFrequencies, userSessions, totalUsers)
    }

    /** `__init__`: empty fields, then the demo table. */
    constructor ()
      ensures Valid()
      ensures State() == DemoState() && issueOrder == DemoIssueOrder
    {
      issueFrequencies := map[];
      issueOrder := [];
      totalUsers := 0;
      userSessions := {};
      new;
      LoadDemoData();
    }

    /** `_load_demo_data`: replaces the table and the total; the counted users stay. */
    method LoadDemoData()
      modifies this
      ensures Valid()
      ensures issueFrequencies == DemoFrequencies() && issueOrder == DemoIssueOrder
      ensures totalUsers == DemoTotalUsers() && totalUsers == 1200
      ensures userSessions == old(userSessions)
    {
      DemoTableFacts();
      issueFrequencies := DemoFrequencies();
      issueOrder := DemoIssueOrder;
      totalUsers := |issueFrequencies| * 100;
    }

    /**
     * `increment_issues`: the reply and the new state are those of
     * Increment; the key order never changes.
     */
    method IncrementIssues(arg: IssueIdsArg, userId: Option<string>) returns (ok: bool)
      requires Valid()
      modifies this
      ensures Valid() && issueOrder == old(issueOrder)
      ensures Outcome(ok, State()) == Increment(old(State()), arg, userId)
    {
      if !arg.IdList? || arg.items == [] {
        return false;
      }
      if TruthyText(userId) && userId.value in userSessions {
        return false;
      }
      var ids := arg.items;
      var i := 0;
      while i < |ids|
        invariant 0 <= i <= |ids|
        invariant issueFrequencies == BumpAll(old(issueFrequencies), ids[..i])
        invariant issueFrequencies.Keys == old(issueFrequencies).Keys
        invariant issueOrder == old(issueOrder) && userSessions == old(userSessions)
        invariant totalUsers == old(totalUsers)
      {
        assert ids[..i + 1][..i] == ids[..i];
        if ids[i] in issueFrequencies {
          issueFrequencies := issueFrequencies[ids[i] := issueFrequencies[ids[i]] + 1];
        }
        i := i + 1;
      }
      assert ids[..i] == ids;
      if TruthyText(userId) {
        userSessions := userSessions + {userId.value};
      }
      totalUsers := totalUsers + 1;
      ok := true;
    }

    /**
     * `reset_to_demo_data`: whatever happened before, the store is back to
     * the freshly constructed state.
     */
    method ResetToDemoData()
      modifies this
      ensures Valid()
      ensures State() == DemoState() && issueOrder == DemoIssueOrder
    {
      issueFrequencies := map[];
      issueOrder := [];
      userSessions := {};
      totalUsers := 0;
      LoadDemoData();
    }

    /** `get_frequencies`: the current table (as a value, not an alias). */
    method GetFrequencies() returns (freq: map<string, int>)
      ensures freq == State().frequencies
    {
      freq := issueFrequencies;
    }

    /** `get_total_users`. */
    method GetTotalUsers() returns (n: int)
      ensures n == State().totalUsers
    {
      n := totalUsers;
    }

    /** `get_issue_names`: every key of the table exactly once, in insertion order. */
    method GetIssueNames() returns (names: seq<string>)
      requires Valid()
      ensures forall id :: id in names <==> id in State().frequencies
      ensures Distinct(names) && |names| == |State().frequencies|
      ensures names == issueOrder
    {
      names := issueOrder;
      DistinctCard(names);
      assert issueFrequencies.Keys == set id | id in names;
    }
  }
}
