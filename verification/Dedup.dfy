/** De-duplication of column names by a counter suffix. */
module Dedup {
  import opened Decimal

  function LowerChar(c: char): char {
    if 'A' <= c <= 'Z' then c - 'A' + 'a' else c
  }

  /** The text names are compared by: itself, or its lower case. */
  function Fold(s: string, caseSensitive: bool): (f: string)
    ensures |f| == |s|
    ensures forall i | 0 <= i < |s| :: f[i] == if caseSensitive then s[i] else LowerChar(s[i])
  {
    if s == [] then []
    else [if caseSensitive then s[0] else LowerChar(s[0])] + Fold(s[1..], caseSensitive)
  }

  /** One letter in its two cases. */
  predicate SameLetter(a: char, b: char) {
    a == b || ('A' <= a <= 'Z' && b as int == a as int + 32) || ('A' <= b <= 'Z' && a as int == b as int + 32)
  }

  /** Names compare equal when they have the same letters, in the same case if case matters. */
  lemma {:induction false} FoldMeaning(s: string, t: string, caseSensitive: bool)
    ensures Fold(s, caseSensitive) == Fold(t, caseSensitive) <==>
      |s| == |t| && forall i | 0 <= i < |s| :: if caseSensitive then s[i] == t[i] else SameLetter(s[i], t[i])
  {
    if s != [] && t != [] {
      FoldMeaning(s[1..], t[1..], caseSensitive);
      LowerCharMeaning(s[0], t[0]);
      FoldsEqual(s, t, caseSensitive);
      assert |s| == |t| ==> forall i | 0 < i < |s| :: s[i] == s[1..][i - 1] && t[i] == t[1..][i - 1];
    }
  }

  lemma FoldsEqual(s: string, t: string, caseSensitive: bool)
    requires s != [] && t != []
    ensures Fold(s, caseSensitive) == Fold(t, caseSensitive) <==>
      && (if caseSensitive then s[0] == t[0] else LowerChar(s[0]) == LowerChar(t[0]))
      && Fold(s[1..], caseSensitive) == Fold(t[1..], caseSensitive)
  {
    var f, g := Fold(s, caseSensitive), Fold(t, caseSensitive);
    assert f[1..] == Fold(s[1..], caseSensitive) && g[1..] == Fold(t[1..], caseSensitive);
    assert f == [f[0]] + f[1..] && g == [g[0]] + g[1..];
  }

  lemma LowerCharMeaning(a: char, b: char)
    ensures LowerChar(a) == LowerChar(b) <==> SameLetter(a, b)
  {
  }

  function Folds(l: seq<string>, caseSensitive: bool): (fs: seq<string>)
    ensures |fs| == |l| && forall i | 0 <= i < |l| :: fs[i] == Fold(l[i], caseSensitive)
  {
    seq(|l|, i requires 0 <= i < |l| => Fold(l[i], caseSensitive))
  }

  function Count(fs: seq<string>, f: string): nat {
    if fs == [] then 0
    else Count(fs[..|fs| - 1], f) + if fs[|fs| - 1] == f then 1 else 0
  }

  /** How many earlier names compare equal to name `i`. */
  function Earlier(l: seq<string>, caseSensitive: bool, i: nat): nat
    requires i < |l|
  {
    Count(Folds(l, caseSensitive)[..i], Fold(l[i], caseSensitive))
  }

  /** The name at position `i` of the result. */
  function NewName(l: seq<string>, suffix: string, caseSensitive: bool, i: nat): string
    requires i < |l|
  {
    var n := Earlier(l, caseSensitive, i);
    if n == 0 then l[i] else l[i] + suffix + ToString(n)
  }

  /** The counter dictionary after the first `n` names. */
  ghost predicate Counts(seen: map<string, nat>, fs: seq<string>, n: nat)
    requires n <= |fs|
  {
    forall f :: if f in seen then Count(fs[..n], f) == seen[f] + 1 else Count(fs[..n], f) == 0
  }

  lemma CountsNext(seen: map<string, nat>, fs: seq<string>, n: nat)
    requires n < |fs| && Counts(seen, fs, n)
    ensures Counts(seen[fs[n] := if fs[n] in seen then seen[fs[n]] + 1 else 0], fs, n + 1)
  {
    assert fs[..n + 1][..n] == fs[..n];
  }

  lemma NameNext(seen: map<string, nat>, l: seq<string>, suffix: string, caseSensitive: bool, i: nat)
    requires i < |l| && Counts(seen, Folds(l, caseSensitive), i)
    ensures var f := Fold(l[i], caseSensitive);
      NewName(l, suffix, caseSensitive, i) == if f in seen then l[i] + suffix + ToString(seen[f] + 1) else l[i]
  {
  }

  /** Same length and order; a name keeps its text at its first occurrence and gets the number of
      earlier ones after it. */
  method Dedup(l: seq<string>, suffix: string, caseSensitive: bool) returns (newL: seq<string>)
    ensures |newL| == |l| && forall i | 0 <= i < |l| :: newL[i] == NewName(l, suffix, caseSensitive, i)
  {
    newL := [];
    var seen: map<string, nat> := map[];
    ghost var fs := Folds(l, caseSensitive);
    for i := 0 to |l|
      invariant |newL| == i && forall j | 0 <= j < i :: newL[j] == NewName(l, suffix, caseSensitive, j)
      invariant Counts(seen, fs, i)
    {
      var item;
      item, seen := DedupOne(l, suffix, caseSensitive, i, seen);
      newL := newL + [item];
    }
  }

  /** The loop body: the name at position `i`, and the counter dictionary after it. */
  method DedupOne(l: seq<string>, suffix: string, caseSensitive: bool, i: nat, before: map<string, nat>)
    returns (item: string, seen: map<string, nat>)
    requires i < |l| && Counts(before, Folds(l, caseSensitive), i)
    ensures item == NewName(l, suffix, caseSensitive, i) && Counts(seen, Folds(l, caseSensitive), i + 1)
  {
    CountsNext(before, Folds(l, caseSensitive), i);
    NameNext(before, l, suffix, caseSensitive, i);
    item, seen := l[i], before;
    var sFixedCase := Fold(item, caseSensitive);
    if sFixedCase in seen {
      seen := seen[sFixedCase := seen[sFixedCase] + 1];
      item := item + suffix + ToString(seen[sFixedCase]);
    } else {
      seen := seen[sFixedCase := 0];
    }
  }

  /** The positions before `i` whose names compare equal to name `i`. */
  ghost function EqualBefore(l: seq<string>, caseSensitive: bool, i: nat): set<nat>
    requires i < |l|
  {
    set j | 0 <= j < i && Fold(l[j], caseSensitive) == Fold(l[i], caseSensitive)
  }

  lemma {:induction false} CountMeaning(fs: seq<string>, f: string)
    ensures Count(fs, f) == |set j | 0 <= j < |fs| && fs[j] == f|
  {
    var all := set j | 0 <= j < |fs| && fs[j] == f;
    if fs == [] {
      assert all == {};
    } else {
      var n := |fs| - 1;
      var before := set j | 0 <= j < n && fs[..n][j] == f;
      CountMeaning(fs[..n], f);
      assert all == if fs[n] == f then before + {n} else before;
    }
  }

  /** Position `i` of the result: the name itself if no earlier name compares equal, otherwise with the
      suffix and the number of those that do. */
  lemma NewNameMeaning(l: seq<string>, suffix: string, caseSensitive: bool, i: nat)
    requires i < |l|
    ensures NewName(l, suffix, caseSensitive, i) ==
      if EqualBefore(l, caseSensitive, i) == {} then l[i]
      else l[i] + suffix + ToString(|EqualBefore(l, caseSensitive, i)|)
  {
    var fs, f := Folds(l, caseSensitive), Fold(l[i], caseSensitive);
    CountMeaning(fs[..i], f);
    assert (set j | 0 <= j < |fs[..i]| && fs[..i][j] == f) == EqualBefore(l, caseSensitive, i);
  }

  /** The two lists of the description: with and without regard to case. */
  lemma Examples(caseSensitive: bool)
    ensures var l := ["foo", "bar", "bar", "bar", "Bar"];
      && NewName(l, "__", caseSensitive, 0) == "foo" && NewName(l, "__", caseSensitive, 1) == "bar"
      && NewName(l, "__", caseSensitive, 2) == "bar__1" && NewName(l, "__", caseSensitive, 3) == "bar__2"
      && NewName(l, "__", caseSensitive, 4) == if caseSensitive then "Bar" else "Bar__3"
  {
    var l := ["foo", "bar", "bar", "bar", "Bar"];
    var fs := Folds(l, caseSensitive);
    ExampleFolds(caseSensitive);
    ExampleCounts("bar");
    ExampleCounts("Bar");
    assert fs[..0] == [] && fs[..1] == ["foo"] && fs[..2] == ["foo", "bar"] && fs[..3] == ["foo", "bar", "bar"];
    assert fs[..4] == ["foo", "bar", "bar", "bar"];
  }

  lemma ExampleCounts(f: string)
    requires f != "foo"
    ensures var n := if f == "bar" then 1 else 0;
      && Count([], f) == Count(["foo"], f) == 0 && Count(["foo", "bar"], f) == n
      && Count(["foo", "bar", "bar"], f) == 2 * n && Count(["foo", "bar", "bar", "bar"], f) == 3 * n
  {
    CountNext([], "foo", f);
    CountNext(["foo"], "bar", f);
    CountNext(["foo", "bar"], "bar", f);
    CountNext(["foo", "bar", "bar"], "bar", f);
    assert [] + ["foo"] == ["foo"] && ["foo"] + ["bar"] == ["foo", "bar"];
    assert ["foo", "bar"] + ["bar"] == ["foo", "bar", "bar"];
    assert ["foo", "bar", "bar"] + ["bar"] == ["foo", "bar", "bar", "bar"];
  }

  lemma ExampleFolds(caseSensitive: bool)
    ensures Folds(["foo", "bar", "bar", "bar", "Bar"], caseSensitive) ==
      ["foo", "bar", "bar", "bar", if caseSensitive then "Bar" else "bar"]
  {
    assert Fold("foo", caseSensitive) == "foo" && Fold("bar", caseSensitive) == "bar";
    assert Fold("Bar", caseSensitive) == if caseSensitive then "Bar" else "bar";
  }

  lemma CountNext(fs: seq<string>, x: string, f: string)
    ensures Count(fs + [x], f) == Count(fs, f) + if x == f then 1 else 0
  {
    assert (fs + [x])[..|fs|] == fs;
  }

  // ----- when the result has no duplicates -----

  function NewFold(l: seq<string>, suffix: string, caseSensitive: bool, i: nat): string
    requires i < |l|
  {
    Fold(NewName(l, suffix, caseSensitive, i), caseSensitive)
  }

  /** No two names of the result compare equal. */
  ghost predicate Distinct(l: seq<string>, suffix: string, caseSensitive: bool) {
    forall i, j | 0 <= i < j < |l| :: NewFold(l, suffix, caseSensitive, i) != NewFold(l, suffix, caseSensitive, j)
  }

  function Numbered(f: string, suffix: string, caseSensitive: bool, k: nat): string {
    f + Fold(suffix, caseSensitive) + ToString(k)
  }

  /** No name of the list compares equal to a repeated name followed by the suffix and a number
      below its multiplicity. */
  ghost predicate NoClash(l: seq<string>, suffix: string, caseSensitive: bool) {
    var fs := Folds(l, caseSensitive);
    forall f, k | 1 <= k < Count(fs, f) :: Numbered(f, suffix, caseSensitive, k) !in fs
  }

  lemma {:induction false} CountPositive(fs: seq<string>, f: string)
    ensures Count(fs, f) > 0 <==> f in fs
  {
    if fs != [] {
      CountPositive(fs[..|fs| - 1], f);
      assert fs == fs[..|fs| - 1] + [fs[|fs| - 1]];
    }
  }

  lemma {:induction false} CountGrows(fs: seq<string>, f: string, i: nat, j: nat)
    requires i <= j <= |fs|
    ensures Count(fs[..i], f) <= Count(fs[..j], f)
    ensures i < j && fs[i] == f ==> Count(fs[..i], f) < Count(fs[..j], f)
  {
    if i < j {
      CountGrows(fs, f, i, j - 1);
      assert fs[..j][..j - 1] == fs[..j - 1];
    }
  }

  /** Every number below the multiplicity belongs to some occurrence. */
  lemma {:induction false} OccurrenceNumbered(fs: seq<string>, f: string, k: nat) returns (p: nat)
    requires k < Count(fs, f)
    ensures p < |fs| && fs[p] == f && Count(fs[..p], f) == k
  {
    var init := fs[..|fs| - 1];
    if k < Count(init, f) {
      p := OccurrenceNumbered(init, f, k);
      assert fs[..p] == init[..p];
    } else {
      p := |fs| - 1;
    }
  }

  lemma FoldJoins(a: string, b: string, caseSensitive: bool)
    ensures Fold(a + b, caseSensitive) == Fold(a, caseSensitive) + Fold(b, caseSensitive)
  {
  }

  lemma FoldedName(l: seq<string>, suffix: string, caseSensitive: bool, i: nat)
    requires i < |l|
    ensures var n, f := Earlier(l, caseSensitive, i), Fold(l[i], caseSensitive);
      NewFold(l, suffix, caseSensitive, i) ==
        if n == 0 then f else Numbered(f, suffix, caseSensitive, n)
  {
    var n := Earlier(l, caseSensitive, i);
    FoldJoins(l[i] + suffix, ToString(n), caseSensitive);
    FoldJoins(l[i], suffix, caseSensitive);
    assert Fold(ToString(n), caseSensitive) == ToString(n);
  }

  lemma NumberedIsUnique(f: string, g: string, suffix: string, caseSensitive: bool, k: nat, m: nat)
    requires suffix != "" && !IsDigit(suffix[|suffix| - 1])
    requires Numbered(f, suffix, caseSensitive, k) == Numbered(g, suffix, caseSensitive, m)
    ensures f == g && k == m
  {
    var s := Fold(suffix, caseSensitive);
    SplitIsUnique(f + s, g + s, k, m);
    assert f == (f + s)[..|f|] && g == (g + s)[..|g|];
  }

  lemma NoClashGivesDistinct(l: seq<string>, suffix: string, caseSensitive: bool, i: nat, j: nat)
    requires suffix != "" && !IsDigit(suffix[|suffix| - 1])
    requires NoClash(l, suffix, caseSensitive) && i < j < |l|
    ensures NewFold(l, suffix, caseSensitive, i) != NewFold(l, suffix, caseSensitive, j)
  {
    var fs := Folds(l, caseSensitive);
    var f, g := fs[i], fs[j];
    var n, m := Earlier(l, caseSensitive, i), Earlier(l, caseSensitive, j);
    FoldedName(l, suffix, caseSensitive, i);
    FoldedName(l, suffix, caseSensitive, j);
    assert fs[..|fs|] == fs;
    CountGrows(fs, f, i, j);
    CountGrows(fs, f, i, |fs|);
    CountGrows(fs, g, j, |fs|);
    assert f in fs && g in fs;
    if n > 0 && m > 0 && Numbered(f, suffix, caseSensitive, n) == Numbered(g, suffix, caseSensitive, m) {
      NumberedIsUnique(f, g, suffix, caseSensitive, n, m);
    }
  }

  lemma ClashGivesDuplicate(l: seq<string>, suffix: string, caseSensitive: bool, f: string, k: nat)
    requires 1 <= k < Count(Folds(l, caseSensitive), f)
    requires Numbered(f, suffix, caseSensitive, k) in Folds(l, caseSensitive)
    ensures !Distinct(l, suffix, caseSensitive)
  {
    var fs := Folds(l, caseSensitive);
    var g := Numbered(f, suffix, caseSensitive, k);
    CountPositive(fs, g);
    var p := OccurrenceNumbered(fs, f, k);
    var q := OccurrenceNumbered(fs, g, 0);
    FoldedName(l, suffix, caseSensitive, p);
    FoldedName(l, suffix, caseSensitive, q);
    assert Earlier(l, caseSensitive, p) == k && Earlier(l, caseSensitive, q) == 0;
    SameFold(l, suffix, caseSensitive, p, q);
  }

  lemma SameFold(l: seq<string>, suffix: string, caseSensitive: bool, p: nat, q: nat)
    requires p < |l| && q < |l| && p != q
    requires NewFold(l, suffix, caseSensitive, p) == NewFold(l, suffix, caseSensitive, q)
    ensures !Distinct(l, suffix, caseSensitive)
  {
    var i, j := if p < q then p else q, if p < q then q else p;
    assert NewFold(l, suffix, caseSensitive, i) == NewFold(l, suffix, caseSensitive, j);
  }

  /** The names of the result are pairwise distinct exactly when the list itself contains no name
      that the counter is going to produce. */
  lemma DistinctExactly(l: seq<string>, suffix: string, caseSensitive: bool)
    requires suffix != "" && !IsDigit(suffix[|suffix| - 1])
    ensures Distinct(l, suffix, caseSensitive) <==> NoClash(l, suffix, caseSensitive)
  {
    if NoClash(l, suffix, caseSensitive) {
      forall i, j | 0 <= i < j < |l|
        ensures NewFold(l, suffix, caseSensitive, i) != NewFold(l, suffix, caseSensitive, j)
      {
        NoClashGivesDistinct(l, suffix, caseSensitive, i, j);
      }
    }
    if !NoClash(l, suffix, caseSensitive) {
      var fs := Folds(l, caseSensitive);
      var f, k :| 1 <= k < Count(fs, f) && Numbered(f, suffix, caseSensitive, k) in fs;
      ClashGivesDuplicate(l, suffix, caseSensitive, f, k);
    }
  }

  /** The result is not always free of duplicates. */
  lemma GeneratedNameCanClash()
    ensures !Distinct(["a", "a", "a__1"], "__", true)
  {
    var l := ["a", "a", "a__1"];
    var fs := Folds(l, true);
    assert fs == l by {
      assert Fold("a", true) == "a" && Fold("a__1", true) == "a__1";
    }
    assert fs[..1] == ["a"] && fs[..2] == ["a", "a"];
    assert Count(["a"], "a") == 1 by { assert ["a"][..0] == []; }
    assert Count(["a"], "a__1") == 0 by { assert ["a"][..0] == []; }
    assert Count(["a", "a"], "a__1") == 0 by { assert ["a", "a"][..1] == ["a"]; }
    assert Earlier(l, true, 1) == 1 && Earlier(l, true, 2) == 0;
    assert NewName(l, "__", true, 1) == "a__1" && NewName(l, "__", true, 2) == "a__1";
    assert NewFold(l, "__", true, 1) == NewFold(l, "__", true, 2);
  }
}
