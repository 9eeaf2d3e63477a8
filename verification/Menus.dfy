/** The documentation site's menu: flattening it with a worklist, sorting every submenu in place on
    the way, and the previous and next links taken from the flat list. */
module Menus {
  import opened Options
  import opened Sequences
  import opened Sorting

  class MenuItem {
    const route: string
    const index: int
    // whether the item has a submenu at all
    const isGroup: bool
    var menu: seq<MenuItem>
    // the item and everything below it
    ghost const repr: set<MenuItem>

    constructor (route: string, index: int)
      ensures Valid() && !isGroup && repr == {this} && this.route == route && this.index == index
    {
      this.route, this.index, isGroup, menu, repr := route, index, false, [], {this};
    }

    constructor Group(route: string, index: int, menu: seq<MenuItem>)
      requires Forest(menu)
      ensures Valid() && isGroup && this.menu == menu && repr == {this} + Below(menu)
    {
      this.route, this.index, isGroup, this.menu, repr := route, index, true, menu, {this} + Below(menu);
    }

    ghost predicate Valid()
      reads this, repr
      decreases repr, 0
    {
      && repr == {this} + Below(menu) && this !in Below(menu)
      && (!isGroup ==> menu == [])
      && (forall c | c in menu :: c in c.repr && c.Valid())
      && Apart(menu)
    }

    /** The leaves below, each submenu taken in the order of its indices. */
    ghost function Flat(): seq<MenuItem>
      requires Valid()
      reads this, repr
      decreases repr, 0
    {
      if !isGroup then [this]
      else
        SubmenuSorted();
        FlatAll(SortBy(Index, menu))
    }

    /** A group stands for its sorted submenu. */
    ghost predicate Expands()
      requires Valid()
      reads this, repr
    {
      SubmenuSorted();
      Flat() == FlatAll(SortBy(Index, menu))
    }

    lemma GroupExpands()
      requires Valid() && isGroup
      ensures Expands()
    {
      SubmenuSorted();
    }

    lemma SubmenuSorted()
      requires Valid()
      ensures var items := SortBy(Index, menu);
        AllValid(items) && Below(items) == Below(menu) && forall c | c in items :: c in Below(menu)
      decreases repr, 0
    {
      SortKeepsMembers(menu);
    }
  }

  function Index(m: MenuItem): int {
    m.index
  }

  ghost function Below(items: seq<MenuItem>): set<MenuItem> {
    set c, o | c in items && o in c.repr :: o
  }

  /** No item twice, and nothing below two different items. */
  ghost predicate Apart(items: seq<MenuItem>) {
    && (forall c | c in items :: multiset(items)[c] == 1)
    && (forall c, d | c in items && d in items && c != d :: c.repr !! d.repr)
  }

  ghost predicate AllValid(items: seq<MenuItem>)
    reads items, Below(items)
  {
    forall c | c in items :: c in c.repr && c.Valid()
  }

  ghost predicate Forest(items: seq<MenuItem>)
    reads items, Below(items)
  {
    AllValid(items) && Apart(items)
  }

  ghost function FlatAll(items: seq<MenuItem>): seq<MenuItem>
    requires AllValid(items)
    reads items, Below(items)
    decreases Below(items), 1 + |items|
  {
    if items == [] then [] else items[0].Flat() + FlatAll(items[1..])
  }

  lemma SortKeepsMembers(items: seq<MenuItem>)
    ensures forall c | c in SortBy(Index, items) :: c in items
    ensures forall c | c in items :: c in SortBy(Index, items)
    ensures Below(SortBy(Index, items)) == Below(items)
  {
    SortByMeaning(Index, items, 0);
    assert forall c :: c in items <==> c in multiset(items);
    assert forall c :: c in SortBy(Index, items) <==> c in multiset(SortBy(Index, items));
  }

  lemma SortKeepsApart(items: seq<MenuItem>)
    requires Apart(items)
    ensures Apart(SortBy(Index, items))
  {
    SortByMeaning(Index, items, 0);
    SortKeepsMembers(items);
  }

  // ----- the order of the list -----

  /** `x` stands before `y`. */
  ghost predicate Before(items: seq<MenuItem>, x: MenuItem, y: MenuItem) {
    exists i, j | 0 <= i < j < |items| :: items[i] == x && items[j] == y
  }

  /** Of two items of one submenu, all that the one with the smaller index stands for comes before all
      that the other stands for. */
  lemma SmallerIndexFirst(item: MenuItem, c: MenuItem, d: MenuItem, x: MenuItem, y: MenuItem)
    requires item.Valid() && item.isGroup && c in item.menu && d in item.menu && c.index < d.index
    requires c.Valid() && d.Valid() && x in c.Flat() && y in d.Flat()
    ensures Before(item.Flat(), x, y)
  {
    item.SubmenuSorted();
    var i, j := PlacesByIndex(item.menu, c, d);
    EarlierFirst(SortBy(Index, item.menu), i, j, x, y);
  }

  lemma PlacesByIndex(items: seq<MenuItem>, c: MenuItem, d: MenuItem) returns (i: nat, j: nat)
    requires c in items && d in items && c.index < d.index
    ensures var sorted := SortBy(Index, items); i < j < |sorted| && sorted[i] == c && sorted[j] == d
  {
    var sorted := SortBy(Index, items);
    SortKeepsMembers(items);
    SortedInIndexOrder(items);
    i :| 0 <= i < |sorted| && sorted[i] == c;
    j :| 0 <= j < |sorted| && sorted[j] == d;
  }

  /** On one level the list keeps the order of the items: this is how the top level is listed. */
  lemma {:induction false} EarlierFirst(items: seq<MenuItem>, i: nat, j: nat, x: MenuItem, y: MenuItem)
    requires AllValid(items) && i < j < |items| && x in items[i].Flat() && y in items[j].Flat()
    ensures Before(FlatAll(items), x, y)
  {
    var here, rest := items[0].Flat(), FlatAll(items[1..]);
    if i > 0 {
      EarlierFirst(items[1..], i - 1, j - 1, x, y);
      var k, m :| 0 <= k < m < |rest| && rest[k] == x && rest[m] == y;
      assert FlatAll(items)[|here| + k] == x && FlatAll(items)[|here| + m] == y;
    } else {
      ListedBelow(items[1..], j - 1, y);
      var k :| 0 <= k < |here| && here[k] == x;
      var m :| 0 <= m < |rest| && rest[m] == y;
      assert FlatAll(items)[k] == x && FlatAll(items)[|here| + m] == y;
    }
  }

  lemma {:induction false} ListedBelow(items: seq<MenuItem>, j: nat, y: MenuItem)
    requires AllValid(items) && j < |items| && y in items[j].Flat()
    ensures y in FlatAll(items)
  {
    if j > 0 {
      ListedBelow(items[1..], j - 1, y);
    }
  }

  /** The flat list holds exactly the items without a submenu. */
  lemma {:induction false} FlatIsTheLeaves(item: MenuItem, o: MenuItem)
    requires item.Valid()
    ensures o in item.Flat() <==> o in item.repr && !o.isGroup
    decreases item.repr, 0
  {
    if item.isGroup {
      item.SubmenuSorted();
      FlatAllIsTheLeaves(SortBy(Index, item.menu), o);
    }
  }

  lemma {:induction false} FlatAllIsTheLeaves(items: seq<MenuItem>, o: MenuItem)
    requires AllValid(items)
    ensures o in FlatAll(items) <==> o in Below(items) && !o.isGroup
    decreases Below(items), 1 + |items|
  {
    if items != [] {
      assert items == [items[0]] + items[1..];
      assert Below(items) == items[0].repr + Below(items[1..]);
      FlatIsTheLeaves(items[0], o);
      FlatAllIsTheLeaves(items[1..], o);
    }
  }

  ghost predicate NoRepeats(items: seq<MenuItem>) {
    forall i, j | 0 <= i < j < |items| :: items[i] != items[j]
  }

  /** ... and each of them once. */
  lemma {:induction false} FlatHasNoRepeats(item: MenuItem)
    requires item.Valid()
    ensures NoRepeats(item.Flat())
    decreases item.repr, 0
  {
    if item.isGroup {
      item.SubmenuSorted();
      SortKeepsApart(item.menu);
      FlatAllHasNoRepeats(SortBy(Index, item.menu));
    }
  }

  lemma {:induction false} FlatAllHasNoRepeats(items: seq<MenuItem>)
    requires Forest(items)
    ensures NoRepeats(FlatAll(items))
    decreases Below(items), 1 + |items|
  {
    if items != [] {
      var here, rest := items[0].Flat(), FlatAll(items[1..]);
      HeadApart(items);
      FlatHasNoRepeats(items[0]);
      FlatAllHasNoRepeats(items[1..]);
      forall o | o in here
        ensures o !in rest
      {
        assert items[0] in items;
        FlatIsTheLeaves(items[0], o);
        FlatAllIsTheLeaves(items[1..], o);
      }
      JoinHasNoRepeats(here, rest);
    }
  }

  lemma JoinHasNoRepeats(a: seq<MenuItem>, b: seq<MenuItem>)
    requires NoRepeats(a) && NoRepeats(b) && forall o | o in a :: o !in b
    ensures NoRepeats(a + b)
  {
    assert forall i | 0 <= i < |a| :: a[i] in a;
    assert forall i | 0 <= i < |b| :: b[i] in b;
  }

  // ----- sorting in place -----

  lemma {:induction false} FlatAllJoin(a: seq<MenuItem>, b: seq<MenuItem>)
    requires AllValid(a) && AllValid(b) && AllValid(a + b)
    ensures FlatAll(a + b) == FlatAll(a) + FlatAll(b)
  {
    if a == [] {
      assert a + b == b;
    } else {
      assert (a + b)[1..] == a[1..] + b;
      FlatAllJoin(a[1..], b);
    }
  }

  /** Sorting submenus in place, anywhere below, changes neither validity nor the flat list. */
  twostate lemma {:induction false} FlatSurvivesSorting(item: MenuItem)
    requires old(item.Valid())
    requires forall o | o in item.repr :: o.menu == old(o.menu) || o.menu == SortBy(Index, old(o.menu))
    ensures item.Valid() && item.Flat() == old(item.Flat())
    decreases item.repr, 0
  {
    var before: seq<MenuItem> := old(item.menu);
    forall c | c in before
      ensures c.Valid() && c.Flat() == old(c.Flat())
    {
      FlatSurvivesSorting(c);
    }
    SortKeepsMembers(before);
    SortKeepsApart(before);
    SortIsIdempotent(Index, before);
    assert item.Valid();
    if item.isGroup {
      FlatAllSurvives(SortBy(Index, before));
    }
  }

  twostate lemma {:induction false} FlatAllSurvives(items: seq<MenuItem>)
    requires old(AllValid(items)) && AllValid(items)
    requires forall c | c in items :: c.Flat() == old(c.Flat())
    ensures FlatAll(items) == old(FlatAll(items))
  {
    if items != [] {
      FlatAllSurvives(items[1..]);
    }
  }

  // ----- the worklist -----

  lemma HeadApart(stack: seq<MenuItem>)
    requires Apart(stack) && stack != []
    ensures Apart(stack[1..]) && stack[0] !in stack[1..]
    ensures forall d | d in stack[1..] :: d in stack && stack[0].repr !! d.repr
  {
    var tail := stack[1..];
    assert stack == [stack[0]] + tail;
    assert multiset(stack) == multiset{stack[0]} + multiset(tail);
    assert stack[0] in stack && multiset(stack)[stack[0]] == 1;
    forall c | c in tail
      ensures multiset(tail)[c] == 1
    {
      assert c in stack;
    }
  }

  lemma PopLeaf(stack: seq<MenuItem>)
    requires Forest(stack) && stack != []
    ensures Forest(stack[1..]) && Below(stack[1..]) < Below(stack)
    ensures stack[0].menu == [] ==> Below(stack[1..]) == Below(stack) - {stack[0]}
    ensures FlatAll(stack) == stack[0].Flat() + FlatAll(stack[1..])
  {
    HeadApart(stack);
    assert stack[0] in stack && forall d | d in stack[1..] :: d in stack;
    assert stack[0] in Below(stack) && stack[0] !in Below(stack[1..]);
  }

  /** A group's submenu was written back sorted and nothing else was touched. */
  twostate predicate HeadSorted(stack: seq<MenuItem>)
    requires stack != []
    reads stack, Below(stack)
  {
    && stack[0].isGroup
    && stack[0].menu == SortBy(Index, old(stack[0].menu))
    && forall o | o in Below(stack) && o != stack[0] :: o.menu == old(o.menu)
  }

  /** What popping a group puts on the stack is itself untouched. */
  twostate lemma PoppedItems(stack: seq<MenuItem>)
    requires old(Forest(stack)) && stack != [] && HeadSorted(stack)
    ensures forall c | c in old(stack[0].menu) || c in stack[1..] ::
      old(c.Valid()) && c.Valid() && c in c.repr && c.Flat() == old(c.Flat())
    ensures forall c | c in old(stack[0].menu) :: c.repr <= stack[0].repr - {stack[0]}
    ensures forall c | c in stack[1..] :: c.repr !! stack[0].repr
  {
    HeadApart(stack);
    forall c | c in old(stack[0].menu) || c in stack[1..]
      ensures old(c.Valid()) && c.Valid() && c in c.repr && c.Flat() == old(c.Flat())
    {
      assert stack[0] in stack && old(stack[0].Valid());
      if c in stack[1..] {
        assert c in stack;
      } else {
        assert c.repr <= stack[0].repr;
      }
      assert stack[0] !in c.repr && c.repr <= Below(stack);
      FlatSurvivesSorting(c);
    }
  }

  lemma JoinApart(menu: seq<MenuItem>, tail: seq<MenuItem>, head: MenuItem)
    requires Apart(menu) && Apart(tail)
    requires forall c | c in menu :: c in c.repr && c.repr <= head.repr
    requires forall d | d in tail :: d in d.repr && head.repr !! d.repr
    ensures Apart(menu + tail)
  {
    forall c | c in menu + tail
      ensures multiset(menu + tail)[c] == 1
    {
      assert multiset(menu + tail) == multiset(menu) + multiset(tail);
      assert !(c in menu && c in tail);
    }
  }

  /** Replacing the head by its submenu keeps the stack a forest and makes it smaller. */
  twostate lemma PopGroup(stack: seq<MenuItem>)
    requires old(Forest(stack)) && stack != [] && HeadSorted(stack)
    ensures Forest(stack[0].menu + stack[1..])
    ensures Below(stack[0].menu + stack[1..]) == Below(stack) - {stack[0]} && stack[0] in Below(stack)
  {
    var head, tail := stack[0], stack[1..];
    var menu: seq<MenuItem> := old(head.menu);
    PoppedItems(stack);
    HeadApart(stack);
    SortKeepsMembers(menu);
    SortKeepsApart(menu);
    JoinApart(head.menu, tail, head);
    assert head in Below(stack) && head !in Below(head.menu + tail);
    assert Below(head.menu + tail) <= Below(stack);
  }

  twostate lemma PoppedSurvive(stack: seq<MenuItem>)
    requires old(Forest(stack)) && stack != [] && HeadSorted(stack)
    ensures old(AllValid(stack[1..])) && AllValid(stack[1..])
    ensures FlatAll(stack[1..]) == old(FlatAll(stack[1..]))
    ensures old(AllValid(SortBy(Index, stack[0].menu))) && AllValid(stack[0].menu)
    ensures FlatAll(stack[0].menu) == old(FlatAll(SortBy(Index, stack[0].menu)))
  {
    var before: seq<MenuItem> := old(stack[0].menu);
    PoppedItems(stack);
    SortKeepsMembers(before);
    FlatAllSurvives(SortBy(Index, before));
    FlatAllSurvives(stack[1..]);
  }

  /** ... and leaves what is still to be listed as it was. */
  twostate lemma PopGroupFlat(stack: seq<MenuItem>)
    requires old(Forest(stack)) && stack != [] && HeadSorted(stack)
    requires old(stack[0].Expands()) && Forest(stack[0].menu + stack[1..])
    ensures FlatAll(stack[0].menu + stack[1..]) == old(FlatAll(stack))
  {
    PoppedSurvive(stack);
    FlatAllJoin(stack[0].menu, stack[1..]);
  }

  twostate predicate OnlySorted(menus: seq<MenuItem>)
    reads Below(menus)
  {
    forall o | o in Below(menus) :: o.menu == old(o.menu) || o.menu == SortBy(Index, old(o.menu))
  }

  /** The submenu of the first item, sorted in place, takes its place. */
  method Unshift(stack: seq<MenuItem>) returns (next: seq<MenuItem>)
    requires Forest(stack) && stack != [] && stack[0].isGroup
    modifies stack[0]
    ensures stack[0].menu == SortBy(Index, old(stack[0].menu)) && next == stack[0].menu + stack[1..]
    ensures Forest(next) && FlatAll(next) == old(FlatAll(stack))
    ensures Below(next) == Below(stack) - {stack[0]} && stack[0] in Below(stack)
  {
    var temp := stack[0];
    temp.GroupExpands();
    temp.menu := SortBy(Index, temp.menu);
    next := temp.menu + stack[1..];
    PopGroup(stack);
    PopGroupFlat(stack);
  }

  /** The loop body: a group is replaced by its submenu, and any other item is listed. */
  method Shift(stack: seq<MenuItem>, ghost was: map<MenuItem, seq<MenuItem>>)
    returns (next: seq<MenuItem>, listed: seq<MenuItem>)
    requires Forest(stack) && stack != [] && Below(stack) <= was.Keys && SortedBut(was, Below(stack))
    modifies stack[0]
    ensures Forest(next) && Below(next) < Below(stack) && SortedBut(was, Below(next))
    ensures listed + FlatAll(next) == old(FlatAll(stack))
  {
    var temp := stack[0];
    assert temp in stack && temp in temp.repr;
    if temp.isGroup {
      next := Unshift(stack);
      listed := [];
      assert [] + FlatAll(next) == FlatAll(next);
    } else {
      PopLeaf(stack);
      next, listed := stack[1..], [temp];
    }
  }

  /** A submenu in the order of its indices: the same items, none before one with a smaller index. */
  ghost predicate InIndexOrder(before: seq<MenuItem>, after: seq<MenuItem>) {
    && multiset(after) == multiset(before)
    && forall i, j | 0 <= i < j < |after| :: after[i].index <= after[j].index
  }

  lemma SortedInIndexOrder(items: seq<MenuItem>)
    ensures InIndexOrder(items, SortBy(Index, items))
  {
    SortByMeaning(Index, items, 0);
    var after := SortBy(Index, items);
    assert forall i, j | 0 <= i < j < |after| :: Index(after[i]) <= Index(after[j]);
  }

  /** The worklist loop lists the leaves in index-sorted order at every level, and would list the
      same ones again, although it sorts the submenus in place on the way. */
  method ListOrderedMenu(menus: seq<MenuItem>) returns (newlist: seq<MenuItem>)
    requires Forest(menus)
    modifies Below(menus)
    ensures newlist == old(FlatAll(menus))
    ensures OnlySorted(menus)
    ensures forall o | o in Below(menus) :: InIndexOrder(old(o.menu), o.menu)
    ensures Forest(menus) && FlatAll(menus) == newlist
  {
    newlist := [];
    var stack := menus;
    ghost var was := map o | o in Below(menus) :: o.menu;
    while stack != []
      invariant Forest(stack) && Below(stack) <= was.Keys && SortedBut(was, Below(stack))
      invariant newlist + FlatAll(stack) == old(FlatAll(menus))
      decreases Below(stack)
    {
      assert stack[0] in stack && stack[0] in Below(stack);
      var listed;
      stack, listed := Shift(stack, was);
      Regroup(newlist, listed, FlatAll(stack));
      newlist := newlist + listed;
    }
    AllSorted(was);
    ListedAgain(menus);
  }

  /** Every submenu has been sorted but those of the items in `rest`, which are as they were. */
  ghost predicate SortedBut(was: map<MenuItem, seq<MenuItem>>, rest: set<MenuItem>)
    reads was.Keys
  {
    forall o | o in was :: o.menu == if o in rest then was[o] else SortBy(Index, was[o])
  }

  lemma AllSorted(was: map<MenuItem, seq<MenuItem>>)
    requires SortedBut(was, {})
    ensures forall o | o in was :: InIndexOrder(was[o], o.menu)
  {
    forall o | o in was
      ensures InIndexOrder(was[o], o.menu)
    {
      SortedInIndexOrder(was[o]);
    }
  }

  twostate lemma ListedAgain(menus: seq<MenuItem>)
    requires old(Forest(menus))
    requires OnlySorted(menus)
    ensures Forest(menus) && FlatAll(menus) == old(FlatAll(menus))
  {
    forall c | c in menus
      ensures c.Valid() && c.Flat() == old(c.Flat())
    {
      FlatSurvivesSorting(c);
    }
    FlatAllSurvives(menus);
  }

  // ----- the previous and next links -----

  /** A path compares by its text without any slash. */
  function PathName(path: string): string {
    if path == [] then []
    else (if path[0] == '/' then [] else [path[0]]) + PathName(path[1..])
  }

  /** A path without slashes is its own text, and a slash adds nothing wherever it stands. */
  lemma {:induction false} PathNameMeaning(a: string, b: string)
    ensures '/' !in a ==> PathName(a) == a
    ensures PathName(a + "/" + b) == PathName(a) + PathName(b)
  {
    var whole := a + "/" + b;
    if a == [] {
      assert whole[0] == '/' && whole[1..] == b;
    } else {
      assert whole[1..] == a[1..] + "/" + b;
      PathNameMeaning(a[1..], b);
    }
  }

  /** `k` is the last entry for the page among the positions from `lo` up to `hi`. */
  ghost predicate LastEntry(routes: seq<string>, path: string, lo: nat, hi: nat, k: int) {
    lo <= k < hi <= |routes| && PathName(routes[k]) == path && forall m | k < m < hi :: PathName(routes[m]) != path
  }

  ghost predicate NoEntry(routes: seq<string>, path: string, lo: nat, hi: nat) {
    forall k | lo <= k < hi && k < |routes| :: PathName(routes[k]) != path
  }

  /** For each link the last entry for the current page that has a neighbour on that side decides. */
  method PreviousAndNextUrls(routes: seq<string>, path: string)
    returns (prevUrl: Option<string>, nextUrl: Option<string>)
    ensures (prevUrl, nextUrl) == Links(routes, path, |routes|)
    ensures prevUrl.None? <==> NoEntry(routes, path, 1, |routes|)
    ensures forall k | LastEntry(routes, path, 1, |routes|, k) :: prevUrl == Some(routes[k - 1])
    ensures nextUrl.None? <==> NoEntry(routes, path, 0, WithNext(routes, |routes|))
    ensures forall k | LastEntry(routes, path, 0, WithNext(routes, |routes|), k) :: nextUrl == Some(routes[k + 1])
  {
    prevUrl, nextUrl := None, None;
    for index := 0 to |routes|
      invariant (prevUrl, nextUrl) == Links(routes, path, index)
    {
      if PathName(routes[index]) == path {
        if index > 0 {
          prevUrl := Some(routes[index - 1]);
        }
        if index + 1 < |routes| {
          nextUrl := Some(routes[index + 1]);
        }
      }
    }
    LinksMeaning(routes, path, |routes|);
  }

  /** Of the first `n` entries, how many have a next one. */
  function WithNext(routes: seq<string>, n: nat): nat {
    if n < |routes| || n == 0 then n else n - 1
  }

  lemma {:induction false} LinksMeaning(routes: seq<string>, path: string, n: nat)
    requires n <= |routes|
    ensures var (prevUrl, nextUrl) := Links(routes, path, n);
      && (prevUrl.None? <==> NoEntry(routes, path, 1, n))
      && (forall k | LastEntry(routes, path, 1, n, k) :: prevUrl == Some(routes[k - 1]))
      && (nextUrl.None? <==> NoEntry(routes, path, 0, WithNext(routes, n)))
      && (forall k | LastEntry(routes, path, 0, WithNext(routes, n), k) :: nextUrl == Some(routes[k + 1]))
  {
    if n > 0 {
      LinksMeaning(routes, path, n - 1);
      assert forall k | LastEntry(routes, path, 1, n, k) && k < n - 1 :: LastEntry(routes, path, 1, n - 1, k);
      assert forall k | LastEntry(routes, path, 0, n, k) && k < n - 1 :: LastEntry(routes, path, 0, n - 1, k);
    }
  }

  function Links(routes: seq<string>, path: string, n: nat): (Option<string>, Option<string>)
    requires n <= |routes|
  {
    if n == 0 then (None, None)
    else
      var (prevUrl, nextUrl) := Links(routes, path, n - 1);
      if PathName(routes[n - 1]) != path then (prevUrl, nextUrl)
      else
        (if n > 1 then Some(routes[n - 2]) else prevUrl, if n < |routes| then Some(routes[n]) else nextUrl)
  }

  ghost predicate DistinctPages(routes: seq<string>) {
    forall i, j | 0 <= i < j < |routes| :: PathName(routes[i]) != PathName(routes[j])
  }

  function Neighbours(routes: seq<string>, i: nat): (Option<string>, Option<string>)
    requires i < |routes|
  {
    (if i > 0 then Some(routes[i - 1]) else None, if i + 1 < |routes| then Some(routes[i + 1]) else None)
  }

  lemma {:induction false} LinksAreNeighbours(routes: seq<string>, i: nat, n: nat)
    requires DistinctPages(routes) && i < |routes| && n <= |routes|
    ensures Links(routes, PathName(routes[i]), n) == if i < n then Neighbours(routes, i) else (None, None)
  {
    if n > 0 {
      LinksAreNeighbours(routes, i, n - 1);
    }
  }

  /** Two entries for one page cannot both have their own neighbours as links: the entries before
      them would have to be for one page too, down to the first entry, which has none before it. */
  lemma {:induction false} SharedPageMisleads(routes: seq<string>, i: nat, j: nat)
    requires i < j < |routes| && PathName(routes[i]) == PathName(routes[j])
    ensures exists k | 0 <= k < |routes| :: Links(routes, PathName(routes[k]), |routes|) != Neighbours(routes, k)
  {
    if Links(routes, PathName(routes[i]), |routes|) == Neighbours(routes, i) == Neighbours(routes, j) {
      assert i > 0 && routes[i - 1] == routes[j - 1];
      SharedPageMisleads(routes, i - 1, j - 1);
    }
  }

  /** Every page gets its own neighbours as links if and only if no two routes are one page. */
  lemma LinksExactly(routes: seq<string>)
    ensures (forall i | 0 <= i < |routes| :: Links(routes, PathName(routes[i]), |routes|) == Neighbours(routes, i))
      <==> DistinctPages(routes)
  {
    if DistinctPages(routes) {
      forall i | 0 <= i < |routes|
        ensures Links(routes, PathName(routes[i]), |routes|) == Neighbours(routes, i)
      {
        LinksAreNeighbours(routes, i, |routes|);
      }
    } else {
      var i, j :| 0 <= i < j < |routes| && PathName(routes[i]) == PathName(routes[j]);
      SharedPageMisleads(routes, i, j);
    }
  }

  /** With distinct pages, following a next link and then the previous link leads back, and the
      other way round. */
  lemma LinksAreInverse(routes: seq<string>, p: string, q: string)
    requires DistinctPages(routes) && p in routes && q in routes
    ensures Links(routes, PathName(p), |routes|).1 == Some(q) <==> Links(routes, PathName(q), |routes|).0 == Some(p)
  {
    var i :| 0 <= i < |routes| && routes[i] == p;
    var j :| 0 <= j < |routes| && routes[j] == q;
    LinksAreNeighbours(routes, i, |routes|);
    LinksAreNeighbours(routes, j, |routes|);
    DistinctRoutes(routes);
    assert Neighbours(routes, i).1 == Some(q) <==> j == i + 1;
    assert Neighbours(routes, j).0 == Some(p) <==> j == i + 1;
  }

  lemma DistinctRoutes(routes: seq<string>)
    requires DistinctPages(routes)
    ensures forall i, j | 0 <= i < |routes| && 0 <= j < |routes| :: routes[i] == routes[j] <==> i == j
  {
  }

  /** Two pages whose routes differ in slashes only share one pair of links. */
  lemma SlashesCanMislead()
    ensures var routes := ["/a/b", "/c", "/ab", "/d"];
      && Links(routes, PathName("/a/b"), 4) == (Some("/c"), Some("/d"))
      && Links(routes, PathName("/c"), 4).0 == Some("/a/b")
  {
    assert PathName("/a/b") == "ab" && PathName("/ab") == "ab" by {
      assert "/a/b"[1..] == "a/b" && "a/b"[1..] == "/b" && "/b"[1..] == "b" && "b"[1..] == "";
      assert "/ab"[1..] == "ab" && "ab"[1..] == "b";
    }
    assert PathName("/c") == "c" && PathName("/d") == "d" by {
      assert "/c"[1..] == "c" && "/d"[1..] == "d" && "c"[1..] == "" && "d"[1..] == "";
    }
  }
}
