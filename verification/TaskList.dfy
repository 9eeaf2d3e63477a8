/** The TypeScript task list: a stack of directory paths, popped from its end, walks the source
    tree and prints a line for every directory that holds scripts. */
module TaskList {
  import opened Sequences

  /** A directory as `readdirSync` lists it. */
  datatype Directory = Directory(files: seq<string>, names: seq<string>, children: seq<Directory>)

  /** A path on the stack and the directory that `chdir` finds there. */
  datatype Entry = Entry(path: string, dir: Directory)

  ghost predicate Listed(d: Directory) {
    |d.names| == |d.children| && forall c | c in d.children :: Listed(c)
  }

  ghost predicate AllListed(entries: seq<Entry>) {
    forall e | e in entries :: Listed(e.dir)
  }

  function Join(path: string, name: string): string {
    path + "/" + name
  }

  function Child(e: Entry, i: nat): Entry
    requires i < |e.dir.names| == |e.dir.children|
  {
    Entry(Join(e.path, e.dir.names[i]), e.dir.children[i])
  }

  /** `getDirectories("./").reverse().map(...)` for the first `n` subdirectories. */
  function Pushed(e: Entry, n: nat): (r: seq<Entry>)
    requires n <= |e.dir.names| == |e.dir.children|
    ensures |r| == n && forall i | 0 <= i < n :: r[i] == Child(e, n - 1 - i)
  {
    if n == 0 then [] else [Child(e, n - 1)] + Pushed(e, n - 1)
  }

  // ----- the lines -----

  predicate EndsWith(name: string, extension: string) {
    |extension| <= |name| && name[|name| - |extension|..] == extension
  }

  predicate HasFiles(files: seq<string>, a: string, b: string) {
    exists i | 0 <= i < |files| :: EndsWith(files[i], a) || EndsWith(files[i], b)
  }

  function Slashes(path: string): nat {
    if path == [] then 0 else (if path[0] == '/' then 1 else 0) + Slashes(path[1..])
  }

  function Indent(n: nat): string {
    if n == 0 then "" else "  " + Indent(n - 1)
  }

  /** The line for a directory, with its box filled or empty. */
  function Boxed(e: Entry, filled: bool): string {
    Indent(Slashes(e.path)) + (if filled then "- [x] `" else "- [ ] `") + e.path + "`"
  }

  predicate HasJavascript(e: Entry) {
    HasFiles(e.dir.files, ".js", ".jsx")
  }

  predicate HasTypescript(e: Entry) {
    HasFiles(e.dir.files, ".ts", ".tsx")
  }

  function Line(e: Entry): seq<string> {
    if HasJavascript(e) then [Boxed(e, false)] else if HasTypescript(e) then [Boxed(e, true)] else []
  }

  function Lines(visited: seq<Entry>): seq<string> {
    if visited == [] then [] else Line(visited[0]) + Lines(visited[1..])
  }

  // ----- the walk as a recursion -----

  /** A directory before its subdirectories, these in their listed order. */
  ghost function PreOrder(e: Entry): seq<Entry>
    requires Listed(e.dir)
    decreases e.dir, 0
  {
    [e] + PreOrderBelow(e, |e.dir.names|)
  }

  ghost function PreOrderBelow(e: Entry, n: nat): seq<Entry>
    requires Listed(e.dir) && n <= |e.dir.names|
    decreases e.dir, 0, n
  {
    if n == 0 then [] else PreOrderBelow(e, n - 1) + PreOrder(Child(e, n - 1))
  }

  /** What the stack still stands for, its end first. */
  ghost function Pending(stack: seq<Entry>): seq<Entry>
    requires AllListed(stack)
  {
    if stack == [] then [] else PreOrder(stack[|stack| - 1]) + Pending(stack[..|stack| - 1])
  }

  lemma {:induction false} PendingPushed(stack: seq<Entry>, e: Entry, n: nat)
    requires AllListed(stack) && Listed(e.dir) && n <= |e.dir.names|
    ensures AllListed(stack + Pushed(e, n)) && Pending(stack + Pushed(e, n)) == PreOrderBelow(e, n) + Pending(stack)
    decreases n
  {
    if n == 0 {
      assert stack + Pushed(e, 0) == stack;
    } else {
      var under := stack + [Child(e, n - 1)];
      assert under[..|stack|] == stack;
      Regroup(stack, [Child(e, n - 1)], Pushed(e, n - 1));
      PendingPushed(under, e, n - 1);
      Regroup(PreOrderBelow(e, n - 1), PreOrder(Child(e, n - 1)), Pending(stack));
    }
  }

  /** How many directories are still to be walked. */
  ghost function Size(stack: seq<Entry>): nat
    requires AllListed(stack)
  {
    |Pending(stack)|
  }

  function Next(stack: seq<Entry>): seq<Entry>
    requires stack != []
    requires var d := stack[|stack| - 1].dir; |d.names| == |d.children|
  {
    var cur := stack[|stack| - 1];
    stack[..|stack| - 1] + Pushed(cur, |cur.dir.names|)
  }

  lemma PopPending(stack: seq<Entry>)
    requires AllListed(stack) && stack != []
    ensures Listed(stack[|stack| - 1].dir) && AllListed(Next(stack))
    ensures Pending(stack) == [stack[|stack| - 1]] + Pending(Next(stack))
  {
    var cur, rest := stack[|stack| - 1], stack[..|stack| - 1];
    assert cur in stack && AllListed(rest);
    PendingPushed(rest, cur, |cur.dir.names|);
    Regroup([cur], PreOrderBelow(cur, |cur.dir.names|), Pending(rest));
  }

  lemma OneLine(e: Entry, rest: seq<Entry>)
    ensures Lines([e] + rest) == Line(e) + Lines(rest)
  {
    assert ([e] + rest)[1..] == rest;
  }

  lemma PopNext(stack: seq<Entry>)
    requires AllListed(stack) && stack != []
    ensures Listed(stack[|stack| - 1].dir) && AllListed(Next(stack)) && Size(Next(stack)) < Size(stack)
    ensures Lines(Pending(stack)) == Line(stack[|stack| - 1]) + Lines(Pending(Next(stack)))
  {
    PopPending(stack);
    OneLine(stack[|stack| - 1], Pending(Next(stack)));
  }

  method PrintLine(cur: Entry) returns (printed: seq<string>)
    ensures printed == Line(cur)
  {
    printed := [];
    if HasFiles(cur.dir.files, ".js", ".jsx") {
      printed := [Indent(Slashes(cur.path)) + "- [ ] `" + cur.path + "`"];
    } else if HasFiles(cur.dir.files, ".ts", ".tsx") {
      printed := [Indent(Slashes(cur.path)) + "- [x] `" + cur.path + "`"];
    }
  }

  /** The line of a directory: with an empty box when it holds JavaScript, with a filled one when it
      holds TypeScript only, none otherwise; indented by two spaces for every slash of its path. */
  lemma LineMeaning(e: Entry, spaces: string)
    requires Blank(spaces) && |spaces| == 2 * multiset(e.path)['/']
    ensures Line(e) ==
      if HasOne(e.dir.files, [".js", ".jsx"]) then [spaces + "- [ ] `" + e.path + "`"]
      else if HasOne(e.dir.files, [".ts", ".tsx"]) then [spaces + "- [x] `" + e.path + "`"]
      else []
  {
    IndentIs(e, spaces);
    EitherExtension(e.dir.files, ".js", ".jsx");
    EitherExtension(e.dir.files, ".ts", ".tsx");
  }

  lemma IndentIs(e: Entry, spaces: string)
    requires Blank(spaces) && |spaces| == 2 * multiset(e.path)['/']
    ensures Indent(Slashes(e.path)) == spaces
  {
    SlashesMeaning(e.path);
    IndentMeaning(Slashes(e.path));
  }

  ghost predicate Blank(s: string) {
    forall i | 0 <= i < |s| :: s[i] == ' '
  }

  /** Some file name ends in one of the extensions. */
  ghost predicate HasOne(files: seq<string>, extensions: seq<string>) {
    exists stem: string, extension: string :: extension in extensions && stem + extension in files
  }

  lemma EitherExtension(files: seq<string>, a: string, b: string)
    ensures HasFiles(files, a, b) <==> HasOne(files, [a, b])
  {
    if HasFiles(files, a, b) {
      var i :| 0 <= i < |files| && (EndsWith(files[i], a) || EndsWith(files[i], b));
      var extension := if EndsWith(files[i], a) then a else b;
      var stem := files[i][..|files[i]| - |extension|];
      assert stem + extension == files[i] && extension in [a, b];
    }
    if HasOne(files, [a, b]) {
      var stem: string, extension: string :| extension in [a, b] && stem + extension in files;
      var i :| 0 <= i < |files| && files[i] == stem + extension;
      assert EndsWith(files[i], extension);
    }
  }

  lemma {:induction false} SlashesMeaning(path: string)
    ensures Slashes(path) == multiset(path)['/']
  {
    if path != [] {
      SlashesMeaning(path[1..]);
      assert path == [path[0]] + path[1..];
    }
  }

  lemma {:induction false} IndentMeaning(n: nat)
    ensures |Indent(n)| == 2 * n && Blank(Indent(n))
  {
    if n > 0 {
      IndentMeaning(n - 1);
    }
  }

  /** The loop prints exactly the lines of the recursive walk: the roots from the end of the list. */
  method PrintTaskList(initial: seq<Entry>) returns (lines: seq<string>)
    requires AllListed(initial)
    ensures lines == Lines(Pending(initial))
  {
    lines := [];
    var directories := initial;
    while directories != []
      invariant AllListed(directories)
      invariant lines + Lines(Pending(directories)) == Lines(Pending(initial))
      decreases Size(directories)
    {
      PopNext(directories);
      var cur := directories[|directories| - 1];
      var printed := PrintLine(cur);
      Regroup(lines, printed, Lines(Pending(Next(directories))));
      lines := lines + printed;
      directories := directories[..|directories| - 1] + Pushed(cur, |cur.dir.names|);
    }
  }

  // ----- the order of the walk -----

  /** A directory comes before everything below it, and what lies below an earlier subdirectory before
      what lies below a later one. */
  lemma WalkOrder(e: Entry, i: nat, j: nat, x: Entry, y: Entry) returns (p: nat, q: nat)
    requires Listed(e.dir) && i < j < |e.dir.names|
    requires x in PreOrder(Child(e, i)) && y in PreOrder(Child(e, j))
    ensures PreOrder(e)[0] == e && 0 < p < q < |PreOrder(e)| && PreOrder(e)[p] == x && PreOrder(e)[q] == y
  {
    var n := |e.dir.names|;
    var a, b := PreOrderBelow(e, j), PreOrderBelow(e, n);
    BelowGrows(e, i + 1, j);
    BelowGrows(e, j + 1, n);
    var k :| 0 <= k < |PreOrder(Child(e, i))| && PreOrder(Child(e, i))[k] == x;
    var m :| 0 <= m < |PreOrder(Child(e, j))| && PreOrder(Child(e, j))[m] == y;
    p, q := |PreOrderBelow(e, i)| + k + 1, |a| + m + 1;
    assert a[p - 1] == x && b[p - 1] == x && b[q - 1] == y;
  }

  lemma {:induction false} BelowGrows(e: Entry, i: nat, j: nat)
    requires Listed(e.dir) && i <= j <= |e.dir.names|
    ensures PreOrderBelow(e, i) <= PreOrderBelow(e, j)
  {
    if i < j {
      BelowGrows(e, i, j - 1);
    }
  }

  // ----- every directory, once -----

  /** `to` lies at or below `e`. */
  ghost predicate Under(e: Entry, to: Entry)
    requires Listed(e.dir)
    decreases e.dir
  {
    e == to || exists i | 0 <= i < |e.dir.names| :: Under(Child(e, i), to)
  }

  lemma {:induction false} WalkIsComplete(e: Entry, to: Entry)
    requires Listed(e.dir)
    ensures to in PreOrder(e) <==> Under(e, to)
    decreases e.dir, 0
  {
    WalkBelow(e, |e.dir.names|, to);
  }

  lemma {:induction false} WalkBelow(e: Entry, n: nat, to: Entry)
    requires Listed(e.dir) && n <= |e.dir.names|
    ensures to in PreOrderBelow(e, n) <==> exists i | 0 <= i < n :: Under(Child(e, i), to)
    decreases e.dir, 0, n
  {
    if n > 0 {
      WalkIsComplete(Child(e, n - 1), to);
      WalkBelow(e, n - 1, to);
    }
  }

  /** Names in one directory differ and hold no slash. */
  ghost predicate ProperNames(d: Directory) {
    && |d.names| == |d.children|
    && (forall i, j | 0 <= i < j < |d.names| :: d.names[i] != d.names[j])
    && (forall i | 0 <= i < |d.names| :: '/' !in d.names[i])
    && (forall c | c in d.children :: ProperNames(c))
  }

  lemma {:induction false} ProperIsListed(d: Directory)
    requires ProperNames(d)
    ensures Listed(d)
  {
    forall c | c in d.children
      ensures Listed(c)
    {
      ProperIsListed(c);
    }
  }

  /** At `base` or at something inside it. */
  predicate Inside(path: string, base: string) {
    base <= path && (|path| > |base| ==> path[|base|] == '/')
  }

  lemma {:induction false} PathsAreInside(e: Entry, to: Entry)
    requires Listed(e.dir) && Under(e, to)
    ensures Inside(to.path, e.path)
    decreases e.dir
  {
    if e != to {
      var i :| 0 <= i < |e.dir.names| && Under(Child(e, i), to);
      PathsAreInside(Child(e, i), to);
      var p := Child(e, i).path;
      assert p[..|e.path|] == e.path && p[|e.path|] == '/';
    }
  }

  /** The text up to the first slash. */
  function FirstName(s: string): string {
    if s == [] || s[0] == '/' then [] else [s[0]] + FirstName(s[1..])
  }

  lemma {:induction false} FirstNameReadsBack(name: string, rest: string)
    requires '/' !in name && (rest == [] || rest[0] == '/')
    ensures FirstName(name + rest) == name
  {
    if name == [] {
      assert name + rest == rest;
    } else {
      assert (name + rest)[1..] == name[1..] + rest;
      FirstNameReadsBack(name[1..], rest);
    }
  }

  lemma NameInPath(base: string, name: string, path: string)
    requires '/' !in name && Inside(path, Join(base, name))
    ensures |base| < |path| && FirstName(path[|base| + 1..]) == name
  {
    var p := Join(base, name);
    assert path == p + path[|p|..];
    assert path[|base| + 1..] == name + path[|p|..];
    FirstNameReadsBack(name, path[|p|..]);
  }

  lemma SiblingsApart(base: string, a: string, b: string, path: string)
    requires '/' !in a && '/' !in b
    requires Inside(path, Join(base, a)) && Inside(path, Join(base, b))
    ensures a == b
  {
    NameInPath(base, a, path);
    NameInPath(base, b, path);
  }

  ghost predicate DistinctPaths(visited: seq<Entry>) {
    forall i, j | 0 <= i < j < |visited| :: visited[i].path != visited[j].path
  }

  /** No path is visited twice. */
  lemma {:induction false} EveryPathOnce(e: Entry)
    requires ProperNames(e.dir)
    ensures Listed(e.dir) && DistinctPaths(PreOrder(e))
    decreases e.dir, 0
  {
    ProperIsListed(e.dir);
    var below := PreOrderBelow(e, |e.dir.names|);
    EveryPathOnceBelow(e, |e.dir.names|);
    forall j | 0 <= j < |below|
      ensures below[j].path != e.path
    {
      WalkBelow(e, |e.dir.names|, below[j]);
      var i :| 0 <= i < |e.dir.names| && Under(Child(e, i), below[j]);
      PathsAreInside(Child(e, i), below[j]);
    }
  }

  lemma {:induction false} EveryPathOnceBelow(e: Entry, n: nat)
    requires ProperNames(e.dir) && Listed(e.dir) && n <= |e.dir.names|
    ensures DistinctPaths(PreOrderBelow(e, n))
    decreases e.dir, 0, n
  {
    if n > 0 {
      var before, last := PreOrderBelow(e, n - 1), PreOrder(Child(e, n - 1));
      EveryPathOnceBelow(e, n - 1);
      EveryPathOnce(Child(e, n - 1));
      forall i, j | 0 <= i < |before| && 0 <= j < |last|
        ensures before[i].path != last[j].path
      {
        SubtreesApart(e, n - 1, before[i], last[j]);
      }
    }
  }

  lemma SubtreesApart(e: Entry, n: nat, x: Entry, y: Entry)
    requires ProperNames(e.dir) && Listed(e.dir) && n < |e.dir.names|
    requires x in PreOrderBelow(e, n) && y in PreOrder(Child(e, n))
    ensures x.path != y.path
  {
    WalkBelow(e, n, x);
    WalkIsComplete(Child(e, n), y);
    var i :| 0 <= i < n && Under(Child(e, i), x);
    PathsAreInside(Child(e, i), x);
    PathsAreInside(Child(e, n), y);
    if x.path == y.path {
      SiblingsApart(e.path, e.dir.names[i], e.dir.names[n], x.path);
    }
  }

  lemma RootsApart(spec: Directory, src: Directory)
    requires Listed(spec) && Listed(src)
    ensures forall x, y | x in PreOrder(Entry("spec", spec)) && y in PreOrder(Entry("src", src)) :: x.path != y.path
  {
    forall x, y | x in PreOrder(Entry("spec", spec)) && y in PreOrder(Entry("src", src))
      ensures |x.path| > 1 && |y.path| > 1 && x.path[1] == 'p' && y.path[1] == 'r'
    {
      WalkIsComplete(Entry("spec", spec), x);
      WalkIsComplete(Entry("src", src), y);
      PathsAreInside(Entry("spec", spec), x);
      PathsAreInside(Entry("src", src), y);
      assert "spec" <= x.path && "src" <= y.path && "spec"[1] == 'p' && "src"[1] == 'r';
    }
  }

  /** Of the two initial directories the last one is walked first, and no path comes twice. */
  lemma SourceBeforeSpec(spec: Directory, src: Directory)
    requires ProperNames(spec) && ProperNames(src)
    ensures Listed(spec) && Listed(src)
    ensures var visited := Pending([Entry("spec", spec), Entry("src", src)]);
      visited == PreOrder(Entry("src", src)) + PreOrder(Entry("spec", spec)) && DistinctPaths(visited)
  {
    EveryPathOnce(Entry("spec", spec));
    EveryPathOnce(Entry("src", src));
    RootsApart(spec, src);
    var both := [Entry("spec", spec), Entry("src", src)];
    assert both[..1] == [Entry("spec", spec)] && both[..1][..0] == [];
    assert Pending(both[..1]) == PreOrder(Entry("spec", spec)) + Pending(both[..1][..0]);
    assert Pending(both) == PreOrder(both[1]) + Pending(both[..1]);
  }
}
