/** Which workflow runs the cancel script keeps: the latest of every event, branch and workflow. */
module KeepLatest {
  import opened Decimal
  import opened Sorting

  datatype Run = Run(id: nat, event: string, headBranch: string, workflowId: nat, createdAt: int)

  const EVENTS: set<string> := {"pull_request", "push", "issue"}

  function Key(r: Run): string {
    r.event + "_" + r.headBranch + "_" + ToString(r.workflowId)
  }

  function CreatedAt(r: Run): int {
    r.createdAt
  }

  predicate SameGroup(r: Run, s: Run) {
    r.event == s.event && r.headBranch == s.headBranch && r.workflowId == s.workflowId
  }

  lemma EventsBegin(e: string, f: string, a: string, b: string)
    requires e in EVENTS && f in EVENTS && e + "_" + a == f + "_" + b
    ensures e == f && a == b
  {
    var s := e + "_" + a;
    assert s == f + "_" + b;
    assert s[0] == e[0] == f[0] && s[2] == e[2] == f[2];
    assert a == s[|e| + 1..] && b == s[|f| + 1..];
  }

  /** Joining with underscores does not confuse groups: the event is one of three and the workflow
      id is a number. */
  lemma KeyIsInjective(r: Run, s: Run)
    requires r.event in {"pull_request", "push", "issue"} && s.event in {"pull_request", "push", "issue"}
    ensures Key(r) == Key(s) <==> r.event == s.event && r.headBranch == s.headBranch && r.workflowId == s.workflowId
  {
    if Key(r) == Key(s) {
      var a, b := r.event + "_" + r.headBranch + "_", s.event + "_" + s.headBranch + "_";
      SplitIsUnique(a, b, r.workflowId, s.workflowId);
      assert r.event + "_" + (r.headBranch + "_") == a && s.event + "_" + (s.headBranch + "_") == b;
      EventsBegin(r.event, s.event, r.headBranch + "_", s.headBranch + "_");
      assert r.headBranch == (r.headBranch + "_")[..|r.headBranch|];
      assert s.headBranch == (s.headBranch + "_")[..|s.headBranch|];
    }
  }

  // ----- the selection -----

  function KeysOf(runs: seq<Run>): set<string> {
    set r | r in runs :: Key(r)
  }

  /** The runs that a later run of the same key supersedes, in order. */
  function Superseded(runs: seq<Run>): seq<Run> {
    if runs == [] then []
    else (if Key(runs[0]) in KeysOf(runs[1..]) then [runs[0]] else []) + Superseded(runs[1..])
  }

  /** The runs that are the last of their key, in order. */
  function Latest(runs: seq<Run>): seq<Run> {
    if runs == [] then []
    else (if Key(runs[0]) in KeysOf(runs[1..]) then [] else [runs[0]]) + Latest(runs[1..])
  }

  function Reverse<T>(s: seq<T>): seq<T> {
    if s == [] then [] else Reverse(s[1..]) + [s[0]]
  }

  /** Walk the sorted runs from the newest on, keep the first of every key, and put the others back
      into order. */
  method SelectCancelled(runs: seq<Run>) returns (cancelled: seq<Run>)
    ensures cancelled == Superseded(SortBy(CreatedAt, runs))
  {
    var sorted := SortBy(CreatedAt, runs);
    var seen: set<string> := {};
    var dups: seq<Run> := [];
    var i := |sorted|;
    while i > 0
      invariant 0 <= i <= |sorted|
      invariant seen == KeysOf(sorted[i..])
      invariant Reverse(dups) == Superseded(sorted[i..])
    {
      i := i - 1;
      assert sorted[i..][1..] == sorted[i + 1..] && sorted[i..] == [sorted[i]] + sorted[i + 1..];
      var item := sorted[i];
      if Key(item) in seen {
        ReverseAppend(dups, item);
        dups := dups + [item];
      } else {
        seen := seen + {Key(item)};
      }
    }
    assert sorted[0..] == sorted;
    cancelled := Reverse(dups);
  }

  lemma {:induction false} ReverseAppend<T>(s: seq<T>, x: T)
    ensures Reverse(s + [x]) == [x] + Reverse(s)
  {
    if s != [] {
      assert (s + [x])[1..] == s[1..] + [x];
      ReverseAppend(s[1..], x);
    } else {
      assert (s + [x])[1..] == [];
    }
  }

  /** Cancelled and kept runs together are all runs, each once. */
  lemma {:induction false} SelectionPartitions(runs: seq<Run>)
    ensures multiset(Superseded(runs)) + multiset(Latest(runs)) == multiset(runs)
  {
    if runs != [] {
      SelectionPartitions(runs[1..]);
      assert runs == [runs[0]] + runs[1..];
    }
  }

  lemma KeysOfFirst(r: Run, rest: seq<Run>)
    ensures KeysOf([r] + rest) == {Key(r)} + KeysOf(rest)
  {
    var all := [r] + rest;
    forall k
      ensures k in KeysOf(all) <==> k == Key(r) || k in KeysOf(rest)
    {
      assert all[0] == r && all[1..] == rest;
      assert forall s :: s in all <==> s == r || s in rest;
    }
  }

  ghost predicate DistinctKeys(runs: seq<Run>) {
    forall i, j | 0 <= i < j < |runs| :: Key(runs[i]) != Key(runs[j])
  }

  lemma DistinctKeysFirst(r: Run, rest: seq<Run>)
    requires DistinctKeys(rest) && Key(r) !in KeysOf(rest)
    ensures DistinctKeys([r] + rest)
  {
    assert forall j | 0 <= j < |rest| :: Key(rest[j]) in KeysOf(rest);
  }

  /** Every key keeps exactly one of its runs. */
  lemma {:induction false} LatestCoversKeys(runs: seq<Run>)
    ensures KeysOf(Latest(runs)) == KeysOf(runs) && DistinctKeys(Latest(runs))
    ensures forall r | r in Latest(runs) :: r in runs
  {
    if runs != [] {
      var rest := Latest(runs[1..]);
      LatestCoversKeys(runs[1..]);
      assert runs == [runs[0]] + runs[1..];
      KeysOfFirst(runs[0], runs[1..]);
      if Key(runs[0]) in KeysOf(runs[1..]) {
        assert Latest(runs) == rest;
      } else {
        KeysOfFirst(runs[0], rest);
        DistinctKeysFirst(runs[0], rest);
      }
    }
  }

  /** The kept run of a key is the newest one of that key. */
  lemma {:induction false} LatestIsNewest(runs: seq<Run>, r: Run, s: Run)
    requires Ascending(CreatedAt, runs) && r in Latest(runs) && s in runs && Key(r) == Key(s)
    ensures s.createdAt <= r.createdAt
  {
    var rest := runs[1..];
    assert runs == [runs[0]] + rest;
    LatestCoversKeys(rest);
    if r in Latest(rest) {
      if s in rest {
        LatestIsNewest(rest, r, s);
      } else {
        assert r in rest;
      }
    } else {
      assert Key(s) in KeysOf(rest) <== s in rest;
    }
  }

  /** ... and the last one of that key in the list, which settles equal creation times. */
  ghost predicate LastOfItsKey(runs: seq<Run>, r: Run) {
    exists i | 0 <= i < |runs| :: runs[i] == r && forall j | i < j < |runs| :: Key(runs[j]) != Key(r)
  }

  lemma {:induction false} LatestIsLast(runs: seq<Run>, r: Run)
    requires r in Latest(runs)
    ensures LastOfItsKey(runs, r)
  {
    var rest := runs[1..];
    if r in Latest(rest) {
      LatestIsLast(rest, r);
      var i :| 0 <= i < |rest| && rest[i] == r && forall j | i < j < |rest| :: Key(rest[j]) != Key(r);
      assert runs[i + 1] == r && forall j | i + 1 < j < |runs| :: runs[j] == rest[j - 1];
    } else {
      assert runs[0] == r && Key(r) !in KeysOf(rest);
      assert forall j | 0 < j < |runs| :: runs[j] == rest[j - 1] && Key(rest[j - 1]) in KeysOf(rest);
    }
  }

  lemma {:induction false} SupersededStaysOrdered(runs: seq<Run>)
    requires Ascending(CreatedAt, runs)
    ensures Ascending(CreatedAt, Superseded(runs))
    ensures forall r | r in Superseded(runs) :: r in runs
  {
    if runs != [] {
      var rest := Superseded(runs[1..]);
      SupersededStaysOrdered(runs[1..]);
      forall j | 0 <= j < |rest|
        ensures CreatedAt(runs[0]) <= CreatedAt(rest[j])
      {
        assert rest[j] in runs[1..];
      }
    }
  }

  lemma SameMembers(s: seq<Run>, t: seq<Run>)
    requires multiset(s) == multiset(t)
    ensures forall r :: r in s <==> r in t
  {
    assert forall r :: r in s <==> r in multiset(s);
    assert forall r :: r in t <==> r in multiset(t);
  }

  lemma GroupKeepsNewest(sorted: seq<Run>, r: Run) returns (k: Run)
    requires (forall x | x in sorted :: x.event in EVENTS) && Ascending(CreatedAt, sorted) && r in sorted
    ensures k in Latest(sorted) && SameGroup(r, k) && r.createdAt <= k.createdAt
  {
    LatestCoversKeys(sorted);
    assert Key(r) in KeysOf(sorted);
    k :| k in Latest(sorted) && Key(k) == Key(r);
    KeyIsInjective(r, k);
    LatestIsNewest(sorted, k, r);
  }

  /** What the script promises: cancelled and kept runs partition the runs, every event, branch and
      workflow keeps exactly one run, its newest, and the older ones are cancelled in order of
      creation. */
  lemma KeepsExactlyTheLatest(runs: seq<Run>)
    requires forall r | r in runs :: r.event in EVENTS
    ensures var sorted := SortBy(CreatedAt, runs);
      && multiset(Superseded(sorted)) + multiset(Latest(sorted)) == multiset(runs)
      && (forall r | r in runs :: exists k | k in Latest(sorted) :: SameGroup(r, k) && r.createdAt <= k.createdAt)
      && (forall k | k in Latest(sorted) :: LastOfItsKey(sorted, k))
      && (forall i, j | 0 <= i < j < |Latest(sorted)| :: !SameGroup(Latest(sorted)[i], Latest(sorted)[j]))
      && (forall i, j | 0 <= i < j < |Superseded(sorted)| ::
            Superseded(sorted)[i].createdAt <= Superseded(sorted)[j].createdAt)
  {
    var sorted := SortBy(CreatedAt, runs);
    SortByMeaning(CreatedAt, runs, 0);
    SameMembers(runs, sorted);
    SelectionPartitions(sorted);
    SupersededStaysOrdered(sorted);
    InCreationOrder(Superseded(sorted));
    KeptAreApart(sorted);
    forall k | k in Latest(sorted)
      ensures LastOfItsKey(sorted, k)
    {
      LatestIsLast(sorted, k);
    }
    forall r | r in runs
      ensures exists k | k in Latest(sorted) :: SameGroup(r, k) && r.createdAt <= k.createdAt
    {
      var k := GroupKeepsNewest(sorted, r);
    }
  }

  lemma InCreationOrder(runs: seq<Run>)
    requires Ascending(CreatedAt, runs)
    ensures forall i, j | 0 <= i < j < |runs| :: runs[i].createdAt <= runs[j].createdAt
  {
    assert forall i, j | 0 <= i < j < |runs| :: CreatedAt(runs[i]) <= CreatedAt(runs[j]);
  }

  lemma KeptAreApart(runs: seq<Run>)
    ensures forall i, j | 0 <= i < j < |Latest(runs)| :: !SameGroup(Latest(runs)[i], Latest(runs)[j])
  {
    LatestCoversKeys(runs);
    forall i, j | 0 <= i < j < |Latest(runs)|
      ensures !SameGroup(Latest(runs)[i], Latest(runs)[j])
    {
      assert Key(Latest(runs)[i]) != Key(Latest(runs)[j]);
    }
  }

  /** Of one key there is only one kept run, so it is kept once. */
  lemma {:induction false} KeptOnce(runs: seq<Run>, r: Run)
    requires r in Latest(runs)
    ensures multiset(Latest(runs))[r] == 1
  {
    var rest := runs[1..];
    LatestCoversKeys(rest);
    if Key(runs[0]) in KeysOf(rest) {
      KeptOnce(rest, r);
    } else {
      assert Latest(runs) == [runs[0]] + Latest(rest);
      assert forall k | k in Latest(rest) :: Key(k) in KeysOf(rest);
      assert runs[0] !in Latest(rest);
      if r != runs[0] {
        KeptOnce(rest, r);
      }
    }
  }

  /** An id names one run. */
  predicate IdsName(runs: seq<Run>) {
    forall r, s | r in runs && s in runs :: r.id == s.id ==> r == s
  }

  predicate EachKeptOnce(runs: seq<Run>) {
    forall r | r in Latest(SortBy(CreatedAt, runs)) :: multiset(runs)[r] == 1
  }

  /** No kept run is cancelled exactly when every kept run stands once in the list; the same holds of
      the ids, by which the runs are cancelled. */
  lemma KeptIsSafeExactly(runs: seq<Run>)
    ensures var sorted := SortBy(CreatedAt, runs);
      && ((forall r | r in Latest(sorted) :: r !in Superseded(sorted)) <==> EachKeptOnce(runs))
      && (IdsName(runs) ==>
          ((forall r, s | r in Latest(sorted) && s in Superseded(sorted) :: r.id != s.id) <==> EachKeptOnce(runs)))
  {
    var sorted := SortBy(CreatedAt, runs);
    SortByMeaning(CreatedAt, runs, 0);
    SelectionPartitions(sorted);
    forall r | r in Latest(sorted)
      ensures r in Superseded(sorted) <==> multiset(runs)[r] != 1
    {
      KeptOnce(sorted, r);
      assert multiset(runs)[r] == multiset(Superseded(sorted))[r] + 1;
    }
    if IdsName(runs) {
      AmongRuns(runs, Latest(sorted), Superseded(sorted));
    }
  }

  lemma AmongRuns(runs: seq<Run>, kept: seq<Run>, cancelled: seq<Run>)
    requires multiset(cancelled) + multiset(kept) == multiset(runs) && IdsName(runs)
    ensures forall r, s | r in kept && s in cancelled :: r.id == s.id <==> r == s
  {
    forall r, s | r in kept && s in cancelled
      ensures r in runs && s in runs
    {
      assert r in multiset(runs) && s in multiset(runs);
    }
  }

  /** A run that is listed twice, as when it starts between the listing of the queued and that of the
      running ones, is kept and cancelled at once. */
  lemma ListedTwice(r: Run)
    ensures var sorted := SortBy(CreatedAt, [r, r]);
      Latest(sorted) == [r] && Superseded(sorted) == [r]
  {
    assert [r, r][1..] == [r] && [r][1..] == [];
    assert SortBy(CreatedAt, [r]) == [r] && SortBy(CreatedAt, [r, r]) == [r, r];
    assert Key(r) in KeysOf([r]);
    assert Latest([r]) == [r] && Superseded([r]) == [];
  }
}
