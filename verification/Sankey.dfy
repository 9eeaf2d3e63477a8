/** The Sankey chart's check that its links form no loop: a depth-first search with one shared set
    of the vertices on the current path and no memory of visited vertices. */
module Sankey {
  import opened Options

  type Vertex = string
  type Link = (Vertex, Vertex)

  /** Targets by source; the order in which a set is iterated is left to the sequence. */
  type Graph = map<Vertex, seq<Vertex>>

  function Targets(g: Graph, v: Vertex): seq<Vertex> {
    if v in g then g[v] else []
  }

  predicate Edge(g: Graph, a: Vertex, b: Vertex) {
    b in Targets(g, a)
  }

  // ----- walks and cycles -----

  ghost predicate IsWalk(g: Graph, w: seq<Vertex>) {
    w != [] && forall i | 0 <= i < |w| - 1 :: Edge(g, w[i], w[i + 1])
  }

  ghost predicate WalkBetween(g: Graph, w: seq<Vertex>, a: Vertex, b: Vertex) {
    IsWalk(g, w) && w[0] == a && w[|w| - 1] == b
  }

  ghost predicate Reaches(g: Graph, a: Vertex, b: Vertex) {
    exists w :: WalkBetween(g, w, a, b)
  }

  /** The vertex lies on a cycle: some walk of at least one edge returns to it. */
  ghost predicate OnCycle(g: Graph, v: Vertex) {
    exists w :: WalkBetween(g, w, v, v) && |w| >= 2
  }

  ghost predicate Acyclic(g: Graph) {
    forall v :: !OnCycle(g, v)
  }

  ghost predicate LeadsToCycle(g: Graph, v: Vertex) {
    exists c :: Reaches(g, v, c) && OnCycle(g, c)
  }

  /** The first of several vertices that leads to a cycle. */
  ghost predicate FirstLeading(g: Graph, vs: seq<Vertex>, v: Vertex) {
    exists i | 0 <= i < |vs| :: vs[i] == v && LeadsToCycle(g, v) && forall j | 0 <= j < i :: !LeadsToCycle(g, vs[j])
  }

  /** The link a search from `roots` names: the first root that leads to a cycle, and the first of
      its targets that does. */
  ghost predicate Named(g: Graph, roots: seq<Vertex>, link: Link) {
    FirstLeading(g, roots, link.0) && FirstLeading(g, Targets(g, link.0), link.1)
  }

  lemma ReachesItself(g: Graph, v: Vertex)
    ensures Reaches(g, v, v)
  {
    assert WalkBetween(g, [v], v, v);
  }

  lemma WalksJoin(g: Graph, u: seq<Vertex>, w: seq<Vertex>, a: Vertex, b: Vertex, c: Vertex)
    requires WalkBetween(g, u, a, b) && WalkBetween(g, w, b, c)
    ensures WalkBetween(g, u + w[1..], a, c)
  {
  }

  lemma ReachesOnward(g: Graph, a: Vertex, b: Vertex, c: Vertex)
    requires Edge(g, a, b) && Reaches(g, b, c)
    ensures Reaches(g, a, c)
  {
    var w :| WalkBetween(g, w, b, c);
    WalksJoin(g, [a, b], w, a, b, c);
  }

  /** Anything reachable is the start itself or reachable from one of its targets. */
  lemma ReachesThroughTarget(g: Graph, a: Vertex, c: Vertex) returns (b: Vertex)
    requires Reaches(g, a, c) && a != c
    ensures Edge(g, a, b) && Reaches(g, b, c)
  {
    var w :| WalkBetween(g, w, a, c);
    b := w[1];
    assert WalkBetween(g, w[1..], b, c);
  }

  /** A cycle through a vertex passes through one of its targets. */
  lemma CycleThroughTarget(g: Graph, v: Vertex) returns (b: Vertex)
    requires OnCycle(g, v)
    ensures Edge(g, v, b) && Reaches(g, b, v)
  {
    var w :| WalkBetween(g, w, v, v) && |w| >= 2;
    b := w[1];
    assert WalkBetween(g, w[1..], b, v);
  }

  // ----- the search -----

  /** All vertices the search can meet. */
  ghost function Vertices(g: Graph): set<Vertex> {
    g.Keys + set a, b | a in g && b in g[a] :: b
  }

  /** What a fruitless visit of `v` has established, with `path` on the way to it. */
  ghost predicate Cleared(g: Graph, path: set<Vertex>, v: Vertex) {
    forall w | Reaches(g, v, w) :: w !in path && !OnCycle(g, w)
  }

  /** The path is the set of vertices of a walk that ends where the search stands. */
  ghost predicate OnPath(g: Graph, stack: seq<Vertex>, path: set<Vertex>) {
    && (forall v :: v in path <==> v in stack)
    && (stack != [] ==> IsWalk(g, stack))
  }

  lemma ClearedByTargets(g: Graph, path: set<Vertex>, v: Vertex)
    requires v !in path && forall b | Edge(g, v, b) :: Cleared(g, path + {v}, b)
    ensures Cleared(g, path, v)
  {
    forall w | Reaches(g, v, w)
      ensures w !in path && !OnCycle(g, w)
    {
      if w != v {
        var b := ReachesThroughTarget(g, v, w);
        assert Cleared(g, path + {v}, b);
      } else if OnCycle(g, v) {
        var b := CycleThroughTarget(g, v);
      }
    }
  }

  /** A link back into the path closes a cycle. */
  lemma BackLinkClosesCycle(g: Graph, stack: seq<Vertex>, path: set<Vertex>, b: Vertex)
    requires stack != [] && OnPath(g, stack, path) && b in path && Edge(g, stack[|stack| - 1], b)
    ensures LeadsToCycle(g, b)
  {
    var i :| 0 <= i < |stack| && stack[i] == b;
    var w := stack[i..] + [b];
    assert WalkBetween(g, w, b, b) && |w| >= 2;
    ReachesItself(g, b);
  }

  class CycleFinder {
    const g: Graph
    var path: set<Vertex>

    constructor (g: Graph)
      ensures this.g == g && path == {}
    {
      this.g, path := g, {};
    }

    /** `visit`; the ghost `stack` is the walk from the root to the vertex before `vertex`. */
    method Visit(vertex: Vertex, ghost stack: seq<Vertex>) returns (r: Option<Link>)
      requires vertex !in path && path <= Vertices(g) && vertex in Vertices(g)
      requires OnPath(g, stack, path) && (stack != [] ==> Edge(g, stack[|stack| - 1], vertex))
      modifies this`path
      ensures r.None? ==> path == old(path) && Cleared(g, path, vertex)
      ensures r.Some? ==> r.value.0 == vertex && FirstLeading(g, Targets(g, vertex), r.value.1)
      decreases Vertices(g) - path
    {
      ghost var before := path;
      path := path + {vertex};
      ghost var here := stack + [vertex];
      assert OnPath(g, here, path);
      var targets := Targets(g, vertex);
      for i := 0 to |targets|
        invariant path == before + {vertex}
        invariant forall j | 0 <= j < i :: Cleared(g, path, targets[j])
      {
        var neighbour := targets[i];
        assert Edge(g, vertex, neighbour);
        if neighbour in path {
          BackLinkClosesCycle(g, here, path, neighbour);
          return Some((vertex, neighbour));
        }
        var found := Visit(neighbour, here);
        if found.Some? {
          CycleAhead(g, neighbour, found.value.1);
          return Some((vertex, neighbour));
        }
      }
      ClearedByTargets(g, before, vertex);
      path := path - {vertex};
      assert path == before;
      r := None;
    }

    method FindCycle(roots: seq<Vertex>) returns (r: Option<Link>)
      requires path == {} && forall v :: v in roots <==> v in g
      modifies this`path
      ensures r.None? <==> Acyclic(g)
      ensures r.None? ==> path == {}
      ensures r.Some? ==> Named(g, roots, r.value)
    {
      for i := 0 to |roots|
        invariant path == {}
        invariant forall j | 0 <= j < i :: Cleared(g, {}, roots[j])
      {
        assert roots[i] in roots;
        r := Visit(roots[i], []);
        if r.Some? {
          CycleAhead(g, roots[i], r.value.1);
          return;
        }
      }
      r := None;
      forall v
        ensures !OnCycle(g, v)
      {
        if OnCycle(g, v) {
          var b := CycleThroughTarget(g, v);
          assert v in roots;
          ReachesItself(g, v);
        }
      }
    }
  }

  lemma CycleAhead(g: Graph, a: Vertex, b: Vertex)
    requires Edge(g, a, b) && LeadsToCycle(g, b)
    ensures LeadsToCycle(g, a)
  {
    var c :| Reaches(g, b, c) && OnCycle(g, c);
    ReachesOnward(g, a, b, c);
  }

  // ----- the chart -----

  /** The links of `g` are the rows, each target standing once, in whatever order its set is iterated. */
  ghost predicate Represents(g: Graph, rows: seq<Link>) {
    && (forall a, b :: Edge(g, a, b) <==> (a, b) in rows)
    && (forall v | v in g :: NoRepeats(g[v]))
  }

  ghost predicate NoRepeats(vs: seq<Vertex>) {
    forall i, j | 0 <= i < j < |vs| :: vs[i] != vs[j]
  }

  function AddLink(g: Graph, link: Link): Graph {
    g[link.0 := if Edge(g, link.0, link.1) then Targets(g, link.0) else Targets(g, link.0) + [link.1]]
  }

  lemma AddLinkMeaning(g: Graph, rows: seq<Link>, link: Link)
    requires Represents(g, rows)
    ensures Represents(AddLink(g, link), rows + [link])
  {
    var h := AddLink(g, link);
    forall a, b
      ensures Edge(h, a, b) <==> (a, b) in rows + [link]
    {
      assert Edge(h, a, b) <==> Edge(g, a, b) || (a, b) == link;
    }
    assert NoRepeats(Targets(g, link.0));
  }

  /** The rows' links with every set iterated in the order of its additions. */
  function GraphOf(rows: seq<Link>): (g: Graph)
    ensures Represents(g, rows)
  {
    if rows == [] then map[]
    else
      var init, last := rows[..|rows| - 1], rows[|rows| - 1];
      AddLinkMeaning(GraphOf(init), init, last);
      assert rows == init + [last];
      AddLink(GraphOf(init), last)
  }

  lemma WalkTransfers(g: Graph, h: Graph, rows: seq<Link>, w: seq<Vertex>)
    requires Represents(g, rows) && Represents(h, rows) && IsWalk(g, w)
    ensures IsWalk(h, w)
  {
    forall i | 0 <= i < |w| - 1
      ensures Edge(h, w[i], w[i + 1])
    {
      assert Edge(g, w[i], w[i + 1]);
    }
  }

  lemma ReachingDependsOnLinks(g: Graph, h: Graph, rows: seq<Link>, a: Vertex, b: Vertex)
    requires Represents(g, rows) && Represents(h, rows) && Reaches(g, a, b)
    ensures Reaches(h, a, b)
  {
    var w :| WalkBetween(g, w, a, b);
    WalkTransfers(g, h, rows, w);
    assert WalkBetween(h, w, a, b);
  }

  /** What leads to a cycle is told by the links alone. */
  lemma CyclesDependOnLinks(g: Graph, h: Graph, rows: seq<Link>, v: Vertex)
    requires Represents(g, rows) && Represents(h, rows)
    ensures LeadsToCycle(g, v) <==> LeadsToCycle(h, v)
  {
    if LeadsToCycle(g, v) {
      CycleTransfers(g, h, rows, v);
    }
    if LeadsToCycle(h, v) {
      CycleTransfers(h, g, rows, v);
    }
  }

  lemma CycleTransfers(g: Graph, h: Graph, rows: seq<Link>, v: Vertex)
    requires Represents(g, rows) && Represents(h, rows) && LeadsToCycle(g, v)
    ensures LeadsToCycle(h, v)
  {
    var c :| Reaches(g, v, c) && OnCycle(g, c);
    ReachingDependsOnLinks(g, h, rows, v, c);
    var u :| WalkBetween(g, u, c, c) && |u| >= 2;
    WalkTransfers(g, h, rows, u);
    assert WalkBetween(h, u, c, c) && OnCycle(h, c);
  }

  /** Iterating a set: each element once, in an order nobody promises. */
  method AnyOrder(vs: set<Vertex>) returns (order: seq<Vertex>)
    ensures NoRepeats(order) && forall v :: v in order <==> v in vs
  {
    order := [];
    var rest := vs;
    while rest != {}
      invariant NoRepeats(order) && rest <= vs && forall v :: v in order <==> v in vs - rest
      decreases rest
    {
      var v :| v in rest;
      assert v !in order && forall i | 0 <= i < |order| :: order[i] in order;
      rest := rest - {v};
      order := order + [v];
    }
  }

  function SourcesOf(rows: seq<Link>): (vs: seq<Vertex>)
    ensures |vs| == |rows| && forall i | 0 <= i < |rows| :: vs[i] == rows[i].0
  {
    seq(|rows|, i requires 0 <= i < |rows| => rows[i].0)
  }

  /** `sources` holds the sources of the first `n` rows in the order of their first rows. */
  ghost predicate InRowOrder(rows: seq<Link>, n: nat, sources: seq<Vertex>)
    requires n <= |rows|
  {
    && (forall j | 0 <= j < n :: rows[j].0 in sources)
    && (forall p | 0 <= p < |sources| :: Starts(rows, n, sources, p))
  }

  ghost predicate Starts(rows: seq<Link>, n: nat, sources: seq<Vertex>, p: nat)
    requires n <= |rows| && p < |sources|
  {
    exists i | 0 <= i < n :: StartsAt(rows, i, sources, p)
  }

  /** Row `i` is the first with source `p`; the rows before it have earlier ones. */
  ghost predicate StartsAt(rows: seq<Link>, i: nat, sources: seq<Vertex>, p: nat)
    requires i < |rows| && p < |sources|
  {
    rows[i].0 == sources[p] && forall j | 0 <= j < i :: rows[j].0 in sources[..p]
  }

  lemma InRowOrderGrows(rows: seq<Link>, sources: seq<Vertex>, n: nat)
    requires n < |rows| && InRowOrder(rows, n, sources)
    ensures InRowOrder(rows, n + 1, if rows[n].0 in sources then sources else sources + [rows[n].0])
  {
    var after, m := if rows[n].0 in sources then sources else sources + [rows[n].0], n + 1;
    forall p | 0 <= p < |after|
      ensures Starts(rows, m, after, p)
    {
      if p < |sources| {
        assert Starts(rows, n, sources, p);
        var i :| 0 <= i < n && StartsAt(rows, i, sources, p);
        assert after[..p] == sources[..p];
        assert StartsAt(rows, i, after, p);
      } else {
        assert after[..p] == sources;
        assert StartsAt(rows, n, after, p);
      }
    }
  }

  type Hierarchy = map<Vertex, set<Vertex>>

  /** The dictionary of target sets and, in the order of its insertions, its keys. */
  method CollectTargets(rows: seq<Link>) returns (hierarchy: Hierarchy, sources: seq<Vertex>)
    ensures (forall v :: v in sources <==> v in hierarchy) && InRowOrder(rows, |rows|, sources)
    ensures forall a, b :: (a in hierarchy && b in hierarchy[a]) <==> (a, b) in rows
  {
    hierarchy, sources := map[], [];
    for i := 0 to |rows|
      invariant (forall v :: v in sources <==> v in hierarchy) && InRowOrder(rows, i, sources)
      invariant forall a, b :: (a in hierarchy && b in hierarchy[a]) <==> (a, b) in rows[..i]
    {
      InRowOrderGrows(rows, sources, i);
      var (source, target) := rows[i];
      if source !in hierarchy {
        hierarchy := hierarchy[source := {}];
        sources := sources + [source];
      }
      hierarchy := hierarchy[source := hierarchy[source] + {target}];
      assert rows[..i + 1] == rows[..i] + [rows[i]];
    }
    assert rows[..|rows|] == rows;
  }

  /** Every row links its source to its target, and nothing else does. */
  method BuildHierarchy(rows: seq<Link>) returns (g: Graph, sources: seq<Vertex>)
    ensures Represents(g, rows)
    ensures (forall v :: v in sources <==> v in g) && InRowOrder(rows, |rows|, sources)
  {
    var hierarchy;
    hierarchy, sources := CollectTargets(rows);
    g := map[];
    for i := 0 to |sources|
      invariant forall v :: v in g <==> v in sources[..i]
      invariant forall v | v in g :: v in hierarchy && NoRepeats(g[v]) && forall b :: b in g[v] <==> b in hierarchy[v]
    {
      assert sources[i] in sources;
      assert sources[..i + 1] == sources[..i] + [sources[i]];
      var order := AnyOrder(hierarchy[sources[i]]);
      g := g[sources[i] := order];
    }
    assert sources[..|sources|] == sources;
    forall a, b
      ensures Edge(g, a, b) <==> (a, b) in rows
    {
      assert Edge(g, a, b) <==> a in hierarchy && b in hierarchy[a];
    }
  }

  datatype ChartData = NoData | Faulty(link: Link) | Data(rows: seq<Link>)

  /** A cycle among the rows: links that follow one another and come back to the first source. */
  ghost predicate RowCycle(rows: seq<Link>, c: seq<Link>) {
    && c != [] && (forall i | 0 <= i < |c| :: c[i] in rows)
    && (forall i | 0 <= i < |c| - 1 :: c[i].1 == c[i + 1].0)
    && c[|c| - 1].1 == c[0].0
  }

  function Hops(w: seq<Vertex>): (c: seq<Link>)
    requires w != []
    ensures |c| == |w| - 1 && forall i | 0 <= i < |c| :: c[i] == (w[i], w[i + 1])
  {
    seq(|w| - 1, i requires 0 <= i < |w| - 1 => (w[i], w[i + 1]))
  }

  lemma WalkGivesRowCycle(g: Graph, rows: seq<Link>, w: seq<Vertex>)
    requires Represents(g, rows)
    requires IsWalk(g, w) && |w| >= 2 && w[|w| - 1] == w[0]
    ensures RowCycle(rows, Hops(w))
  {
    var c := Hops(w);
    forall i | 0 <= i < |c|
      ensures c[i] in rows
    {
      assert Edge(g, w[i], w[i + 1]);
    }
  }

  lemma RowCycleGivesWalk(g: Graph, rows: seq<Link>, c: seq<Link>)
    requires Represents(g, rows)
    requires RowCycle(rows, c)
    ensures OnCycle(g, c[0].0)
  {
    var w := seq(|c| + 1, i requires 0 <= i <= |c| => if i < |c| then c[i].0 else c[0].0);
    forall i | 0 <= i < |w| - 1
      ensures Edge(g, w[i], w[i + 1])
    {
      assert c[i] in rows && c[i] == (w[i], w[i + 1]);
    }
    assert WalkBetween(g, w, c[0].0, c[0].0);
  }

  lemma RowCycleIsCycle(g: Graph, rows: seq<Link>)
    requires Represents(g, rows)
    ensures Acyclic(g) <==> forall c :: !RowCycle(rows, c)
  {
    forall v | OnCycle(g, v)
      ensures exists c :: RowCycle(rows, c)
    {
      var w :| WalkBetween(g, w, v, v) && |w| >= 2;
      WalkGivesRowCycle(g, rows, w);
    }
    forall c | RowCycle(rows, c)
      ensures !Acyclic(g)
    {
      RowCycleGivesWalk(g, rows, c);
    }
  }

  // ----- the link that is named -----

  /** Searching from the distinct sources or from the sources row by row names the same link. */
  lemma NamedByRows(g: Graph, rows: seq<Link>, sources: seq<Vertex>, link: Link)
    requires InRowOrder(rows, |rows|, sources) && Named(g, sources, link)
    ensures Named(g, SourcesOf(rows), link)
  {
    var p :| 0 <= p < |sources| && sources[p] == link.0 && LeadsToCycle(g, link.0)
             && forall q | 0 <= q < p :: !LeadsToCycle(g, sources[q]);
    assert Starts(rows, |rows|, sources, p);
    var i :| 0 <= i < |rows| && StartsAt(rows, i, sources, p);
    forall j | 0 <= j < i
      ensures !LeadsToCycle(g, SourcesOf(rows)[j])
    {
      assert rows[j].0 in sources[..p];
      var q :| 0 <= q < p && sources[..p][q] == rows[j].0;
    }
    assert SourcesOf(rows)[i] == link.0;
  }

  /** The chart shows its rows exactly when there are rows and they form no loop; a refusal names the
      first source that leads to a loop, with the first of its targets that does, in the order in
      which its targets happen to be iterated. */
  method GetData(rows: seq<Link>) returns (data: ChartData)
    ensures data.NoData? <==> rows == []
    ensures data.Data? <==> rows != [] && forall c :: !RowCycle(rows, c)
    ensures data.Data? ==> data.rows == rows
    ensures data.Faulty? ==> exists g :: Represents(g, rows) && Named(g, SourcesOf(rows), data.link)
  {
    if rows == [] {
      return NoData;
    }
    var g, sources := BuildHierarchy(rows);
    var finder := new CycleFinder(g);
    var cycle := finder.FindCycle(sources);
    RowCycleIsCycle(g, rows);
    if cycle.Some? {
      NamedByRows(g, rows, sources, cycle.value);
      return Faulty(cycle.value);
    }
    data := Data(rows);
  }

  /** The first vertex that leads to a cycle is the same under every order of targets. */
  lemma FirstLeadingTransfers(g: Graph, h: Graph, rows: seq<Link>, vs: seq<Vertex>, v: Vertex)
    requires Represents(g, rows) && Represents(h, rows) && FirstLeading(g, vs, v)
    ensures FirstLeading(h, vs, v)
  {
    var i :| 0 <= i < |vs| && vs[i] == v && LeadsToCycle(g, v) && forall j | 0 <= j < i :: !LeadsToCycle(g, vs[j]);
    CyclesDependOnLinks(g, h, rows, v);
    forall j | 0 <= j < i
      ensures !LeadsToCycle(h, vs[j])
    {
      CyclesDependOnLinks(g, h, rows, vs[j]);
    }
  }

  function Without(vs: seq<Vertex>, v: Vertex): seq<Vertex> {
    if vs == [] then [] else (if vs[0] == v then [] else [vs[0]]) + Without(vs[1..], v)
  }

  lemma {:induction false} WithoutMeaning(vs: seq<Vertex>, v: Vertex)
    ensures forall x :: x in Without(vs, v) <==> x in vs && x != v
    ensures NoRepeats(vs) ==> NoRepeats(Without(vs, v))
  {
    if vs != [] {
      var rest := Without(vs[1..], v);
      WithoutMeaning(vs[1..], v);
      assert vs == [vs[0]] + vs[1..];
      assert forall i | 0 <= i < |rest| :: rest[i] in rest;
      assert NoRepeats(vs) ==> NoRepeats(vs[1..]) && vs[0] !in vs[1..];
    }
  }

  /** Some order of iteration puts a given target first. */
  lemma TargetFirst(g: Graph, rows: seq<Link>, v: Vertex, b: Vertex) returns (h: Graph)
    requires Represents(g, rows) && Edge(g, v, b)
    ensures Represents(h, rows) && Targets(h, v) != [] && Targets(h, v)[0] == b
  {
    WithoutMeaning(g[v], b);
    h := g[v := [b] + Without(g[v], b)];
    forall a, c
      ensures Edge(h, a, c) <==> Edge(g, a, c)
    {
    }
  }

  /** The link from `v` that is named lies on a loop, however the targets are iterated. */
  ghost predicate AlwaysOnLoop(rows: seq<Link>, v: Vertex) {
    forall g, b | Represents(g, rows) && Named(g, SourcesOf(rows), (v, b)) :: Reaches(g, b, v)
  }

  /** Every target of `v` that leads to a loop leads back to `v`. */
  ghost predicate TargetsReturn(rows: seq<Link>, v: Vertex) {
    forall b | (v, b) in rows && LeadsToCycle(GraphOf(rows), b) :: Reaches(GraphOf(rows), b, v)
  }

  lemma NamedReturns(rows: seq<Link>, v: Vertex, g: Graph, b: Vertex)
    requires TargetsReturn(rows, v) && Represents(g, rows) && Named(g, SourcesOf(rows), (v, b))
    ensures Reaches(g, b, v)
  {
    var canon := GraphOf(rows);
    assert Edge(g, v, b) && LeadsToCycle(g, b);
    CyclesDependOnLinks(g, canon, rows, b);
    ReachingDependsOnLinks(canon, g, rows, b, v);
  }

  lemma AnyTargetCanBeNamed(rows: seq<Link>, v: Vertex, b: Vertex)
    requires FirstLeading(GraphOf(rows), SourcesOf(rows), v) && AlwaysOnLoop(rows, v)
    requires (v, b) in rows && LeadsToCycle(GraphOf(rows), b)
    ensures Reaches(GraphOf(rows), b, v)
  {
    var canon := GraphOf(rows);
    var h := TargetFirst(canon, rows, v, b);
    FirstLeadingTransfers(canon, h, rows, SourcesOf(rows), v);
    CyclesDependOnLinks(canon, h, rows, b);
    assert Named(h, SourcesOf(rows), (v, b));
    ReachingDependsOnLinks(h, canon, rows, b, v);
  }

  /** When the named link is sure to lie on a loop: for the first source that leads to one, exactly
      when every target of it that leads to a loop leads back to it. */
  lemma NamedLinkOnLoopExactly(rows: seq<Link>, v: Vertex)
    requires FirstLeading(GraphOf(rows), SourcesOf(rows), v)
    ensures AlwaysOnLoop(rows, v) <==> TargetsReturn(rows, v)
  {
    if TargetsReturn(rows, v) {
      forall g, b | Represents(g, rows) && Named(g, SourcesOf(rows), (v, b))
        ensures Reaches(g, b, v)
      {
        NamedReturns(rows, v, g, b);
      }
    }
    if AlwaysOnLoop(rows, v) {
      forall b | (v, b) in rows && LeadsToCycle(GraphOf(rows), b)
        ensures Reaches(GraphOf(rows), b, v)
      {
        AnyTargetCanBeNamed(rows, v, b);
      }
    }
  }

  const LOOP_AHEAD: seq<Link> := [("a", "b"), ("b", "c"), ("c", "b")]

  lemma LoopAheadLinks(g: Graph, x: Vertex, y: Vertex)
    requires Represents(g, LOOP_AHEAD)
    ensures Edge(g, x, y) <==> (x, y) == ("a", "b") || (x, y) == ("b", "c") || (x, y) == ("c", "b")
  {
    assert Edge(g, x, y) <==> (x, y) in LOOP_AHEAD;
  }

  /** A walk from `b` stays at `b` and `c`. */
  lemma {:induction false} LoopStaysAhead(g: Graph, w: seq<Vertex>, i: nat)
    requires Represents(g, LOOP_AHEAD) && IsWalk(g, w) && w[0] == "b" && i < |w|
    ensures w[i] == "b" || w[i] == "c"
  {
    if i > 0 {
      LoopStaysAhead(g, w, i - 1);
      LoopAheadLinks(g, w[i - 1], w[i]);
    }
  }

  lemma LoopIsAhead(g: Graph)
    requires Represents(g, LOOP_AHEAD)
    ensures LeadsToCycle(g, "a") && LeadsToCycle(g, "b") && !Reaches(g, "b", "a")
  {
    LoopAheadLinks(g, "a", "b");
    LoopAheadLinks(g, "b", "c");
    LoopAheadLinks(g, "c", "b");
    assert WalkBetween(g, ["b", "c", "b"], "b", "b");
    ReachesItself(g, "b");
    CycleAhead(g, "a", "b");
    forall w
      ensures !WalkBetween(g, w, "b", "a")
    {
      if IsWalk(g, w) && w[0] == "b" {
        LoopStaysAhead(g, w, |w| - 1);
      }
    }
  }

  lemma OneTarget(g: Graph)
    requires Represents(g, LOOP_AHEAD)
    ensures Targets(g, "a") == ["b"]
  {
    var ts := Targets(g, "a");
    LoopAheadLinks(g, "a", "b");
    assert NoRepeats(ts) && ts != [];
    assert |ts| < 2 || ts[0] != ts[1];
    forall i | 0 <= i < |ts|
      ensures ts[i] == "b"
    {
      LoopAheadLinks(g, "a", ts[i]);
    }
  }

  /** With the rows a-b, b-c, c-b the link a-b is named, whatever the order, and no loop passes it. */
  lemma NamedLinkCanMissTheLoop(g: Graph)
    requires Represents(g, LOOP_AHEAD)
    ensures Named(g, SourcesOf(LOOP_AHEAD), ("a", "b")) && !Reaches(g, "b", "a")
  {
    LoopIsAhead(g);
    OneTarget(g);
    assert SourcesOf(LOOP_AHEAD)[0] == "a";
    assert FirstLeading(g, SourcesOf(LOOP_AHEAD), "a");
    assert Targets(g, "a")[0] == "b";
    assert FirstLeading(g, Targets(g, "a"), "b");
  }
}
