/** ParsedQuery's search for table names: a recursive walk over token trees that fills two sets. */
module TableWalker {
  import opened Options
  import opened SqlTokens
  import opened TableNames

  const PRECEDES_TABLE_NAME: set<string> := {"FROM", "JOIN", "DESCRIBE", "WITH", "LEFT JOIN", "RIGHT JOIN"}
  const CTE_PREFIX := "CTE__"

  predicate EndsWith(s: string, suffix: string) {
    |suffix| <= |s| && s[|s| - |suffix|..] == suffix
  }

  /** A keyword after which a table name is expected. */
  predicate Opens(token: Token) {
    token.IsKeyword() && (token.normalized in PRECEDES_TABLE_NAME || EndsWith(token.normalized, " JOIN"))
  }

  /** Groups are never empty in what the parser builds. */
  ghost predicate WellFormed(token: Token)
    decreases token
  {
    token.Group? ==> token.tokens != [] && forall t | t in token.tokens :: WellFormed(t)
  }

  // ----- a dotted name -----

  /** Position of the first white space, or the number of tokens. */
  function FirstSpace(tokens: seq<Token>): (i: nat)
    ensures i <= |tokens|
  {
    if tokens == [] || tokens[0].IsSpace() then 0 else 1 + FirstSpace(tokens[1..])
  }

  function RemoveQuotes(s: string): string {
    if s != "" && s[0] in {'"', '\'', '`'} && s[0] == s[|s| - 1]
    then if |s| == 1 then "" else s[1..|s| - 1]
    else s
  }

  predicate NamesAndDots(tokens: seq<Token>) {
    && |tokens| in {1, 3, 5}
    && (forall i | 0 <= i < |tokens| && i % 2 == 0 :: tokens[i].IsName())
    && (forall i | 0 <= i < |tokens| && i % 2 == 1 :: tokens[i].IsPunctuation("."))
  }

  /** Names and dots in turn, one to three names; the last name is the table. */
  function GetTable(token: Token): Option<Table>
    requires token.Group?
  {
    var tokens := if token.alias.Some? then token.tokens[..FirstSpace(token.tokens)] else token.tokens;
    if NamesAndDots(tokens) then
      var n := |tokens|;
      Some(Table(RemoveQuotes(tokens[n - 1].text),
                 if n >= 3 then Some(RemoveQuotes(tokens[n - 3].text)) else None,
                 if n == 5 then Some(RemoveQuotes(tokens[0].text)) else None))
    else None
  }

  function NamedTable(token: Token): set<Table>
    requires token.Group?
  {
    var t := GetTable(token);
    if t.Some? && !(CTE_PREFIX <= t.value.table) then {t.value} else {}
  }

  function NamedAliases(token: Token): set<string>
    requires token.Group? && token.tokens != []
  {
    var first := token.tokens[0];
    (if token.alias.Some? then {token.alias.value} else {})
      + (if first.Leaf? && first.ttype == Name then {first.text} else {})
  }

  // ----- what the walk finds, told without its flag -----

  /** The nearest keyword before position `i` is one that table names follow. */
  ghost predicate Governed(tokens: seq<Token>, i: nat)
    requires i <= |tokens|
  {
    exists j | 0 <= j < i :: Opens(tokens[j]) && forall m | j < m < i :: !tokens[m].IsKeyword()
  }

  /** The walk goes down into this child because of its shape alone. */
  predicate AlwaysEntered(item: Token)
    requires item.Group? ==> item.tokens != []
  {
    item.Group? && (!item.IsIdentifier() || (item.tokens[0].Group? && item.tokens[0].kind == Parenthesis))
  }

  predicate IsList(item: Token) {
    item.Group? && item.kind == IdentifierList
  }

  /** The walk goes down into child `i`. */
  ghost predicate Enters(token: Token, i: nat)
    requires token.Group? && WellFormed(token) && i < |token.tokens|
  {
    var item := token.tokens[i];
    && WellFormed(item)
    && (AlwaysEntered(item)
        || (!Governed(token.tokens, i) && IsList(item) && exists t | t in item.tokens :: !t.IsIdentifier()))
  }

  /** Child `i` puts `name` forward as a table name or a subselect. */
  ghost predicate Offers(token: Token, i: nat, name: Token)
    requires token.Group? && i < |token.tokens|
  {
    var item := token.tokens[i];
    && Governed(token.tokens, i) && item.Group?
    && (if item.kind == Identifier then name == item
        else item.kind == IdentifierList && name in Identifiers(item.tokens) && name.Group?)
  }

  predicate IsSubselect(name: Token) {
    '(' in Text(name)
  }

  /** One downward step of the walk. */
  ghost predicate Step(token: Token, next: Token)
  {
    && token.Group? && WellFormed(token)
    && exists i | 0 <= i < |token.tokens| ::
         (Enters(token, i) && next == token.tokens[i]) || (Offers(token, i, next) && IsSubselect(next))
  }

  /** The tokens from `root` down to the place where the walk looks at `name`. */
  ghost predicate Leads(root: Token, path: seq<Token>, name: Token)
  {
    && path != [] && path[0] == root
    && (forall k | 0 <= k < |path| - 1 :: Step(path[k], path[k + 1]))
    && var last := path[|path| - 1];
       last.Group? && exists i | 0 <= i < |last.tokens| :: Offers(last, i, name)
  }

  /** The walk started at `root` comes to look at `name`. */
  ghost predicate Visited(root: Token, name: Token) {
    exists path :: Leads(root, path, name)
  }

  // ----- the walk as a function -----

  datatype Found = Found(tables: set<Table>, aliases: set<string>) {
    function Plus(other: Found): Found {
      Found(tables + other.tables, aliases + other.aliases)
    }
  }

  lemma PlusRegroups(a: Found, b: Found, c: Found, d: Found)
    ensures a.Plus(b).Plus(c).Plus(d) == a.Plus(b.Plus(c).Plus(d))
  {
  }

  const Nothing := Found({}, {})

  ghost function Walk(token: Token): Found
    requires WellFormed(token)
    decreases token, 1, 0
  {
    if token.Leaf? then Nothing else WalkUpTo(token, |token.tokens|)
  }

  ghost function WalkUpTo(token: Token, n: nat): Found
    requires token.Group? && WellFormed(token) && n <= |token.tokens|
    decreases token, 0, n
  {
    if n == 0 then Nothing else WalkUpTo(token, n - 1).Plus(Entered(token, n - 1)).Plus(Offered(token, n - 1))
  }

  ghost function Entered(token: Token, i: nat): Found
    requires token.Group? && WellFormed(token) && i < |token.tokens|
    decreases token, 0, i
  {
    if Enters(token, i) then Walk(token.tokens[i]) else Nothing
  }

  ghost function Offered(token: Token, i: nat): Found
    requires token.Group? && WellFormed(token) && i < |token.tokens|
    decreases token, 0, i
  {
    var item := token.tokens[i];
    assert WellFormed(item);
    if !Governed(token.tokens, i) || item.Leaf? then Nothing
    else if item.kind == Identifier then Look(item)
    else if item.kind == IdentifierList then LookAll(item, |Identifiers(item.tokens)|)
    else Nothing
  }

  ghost function LookAll(list: Token, n: nat): Found
    requires list.Group? && WellFormed(list) && n <= |Identifiers(list.tokens)|
    decreases list, 0, n
  {
    if n == 0 then Nothing
    else
      var name := Identifiers(list.tokens)[n - 1];
      IdentifiersAreMembers(list.tokens);
      assert name in list.tokens && WellFormed(name);
      LookAll(list, n - 1).Plus(if name.Group? then Look(name) else Nothing)
  }

  ghost function Look(name: Token): Found
    requires name.Group? && WellFormed(name)
    decreases name, 2, 0
  {
    if !IsSubselect(name) then Found(NamedTable(name), {})
    else Found({}, NamedAliases(name)).Plus(Walk(name))
  }

  // ----- the function finds exactly what the description says -----

  datatype Item = ATable(table: Table) | AnAlias(name: string)

  predicate Has(found: Found, x: Item) {
    match x
    case ATable(t) => t in found.tables
    case AnAlias(a) => a in found.aliases
  }

  /** Looking at `name` yields `x` there and then: a dotted name its table, a subselect its alias. */
  predicate Yields(name: Token, x: Item) {
    && name.Group? && name.tokens != []
    && match x
       case ATable(t) => !IsSubselect(name) && t in NamedTable(name)
       case AnAlias(a) => IsSubselect(name) && a in NamedAliases(name)
  }

  // ----- what is found at a name, token by token -----

  /** `parts` are the tokens of a name up to its alias: all of them without one, and with one those
      before the first white space. */
  ghost predicate BeforeAlias(name: Token, parts: seq<Token>)
    requires name.Group?
  {
    if name.alias.None? then parts == name.tokens
    else
      && parts <= name.tokens && (forall t | t in parts :: !(t.Leaf? && t.ttype == Space))
      && (|parts| < |name.tokens| ==> name.tokens[|parts|].Leaf? && name.tokens[|parts|].ttype == Space)
  }

  /** A name or a quoted text. */
  predicate Plain(t: Token) {
    t.Leaf? && t.ttype in {Name, NameSub, StringLit}
  }

  predicate Dot(t: Token) {
    t.Leaf? && t.ttype == Punctuation && t.text == "."
  }

  /** `table`, `schema.table` and `catalog.schema.table`, each part without its quotes, and not a
      CTE's own name. */
  ghost predicate Spells(parts: seq<Token>, t: Table) {
    && !(|t.table| >= 5 && t.table[..5] == "CTE__")
    && (|| (&& |parts| == 1 && Plain(parts[0])
            && t == Table(RemoveQuotes(parts[0].text), None, None))
        || (&& |parts| == 3 && Plain(parts[0]) && Dot(parts[1]) && Plain(parts[2])
            && t == Table(RemoveQuotes(parts[2].text), Some(RemoveQuotes(parts[0].text)), None))
        || (&& |parts| == 5 && Plain(parts[0]) && Dot(parts[1]) && Plain(parts[2]) && Dot(parts[3]) && Plain(parts[4])
            && t == Table(RemoveQuotes(parts[4].text), Some(RemoveQuotes(parts[2].text)),
                          Some(RemoveQuotes(parts[0].text)))))
  }

  lemma {:induction false} FirstSpaceIsFirst(tokens: seq<Token>, i: nat)
    requires i <= |tokens| && (forall j | 0 <= j < i :: !tokens[j].IsSpace())
    requires i < |tokens| ==> tokens[i].IsSpace()
    ensures FirstSpace(tokens) == i
  {
    if i > 0 {
      FirstSpaceIsFirst(tokens[1..], i - 1);
    }
  }

  /** A name without parentheses yields a table if and only if its tokens before the alias spell it. */
  lemma TableYielded(name: Token, parts: seq<Token>, t: Table)
    requires name.Group? && name.tokens != [] && BeforeAlias(name, parts)
    ensures Yields(name, ATable(t)) <==> '(' !in Text(name) && Spells(parts, t)
  {
    if name.alias.Some? {
      assert forall j | 0 <= j < |parts| :: parts[j] in parts && name.tokens[j] == parts[j];
      FirstSpaceIsFirst(name.tokens, |parts|);
      assert name.tokens[..|parts|] == parts;
    }
    SpellsGetTable(name, parts, t);
  }

  lemma SpellsGetTable(name: Token, parts: seq<Token>, t: Table)
    requires name.Group?
    requires parts == if name.alias.Some? then name.tokens[..FirstSpace(name.tokens)] else name.tokens
    ensures t in NamedTable(name) <==> Spells(parts, t)
  {
    NamesAndDotsMeaning(parts);
    PrefixMeaning(t.table);
  }

  lemma PrefixMeaning(s: string)
    ensures CTE_PREFIX <= s <==> |s| >= 5 && s[..5] == "CTE__"
  {
  }

  lemma NamesAndDotsMeaning(parts: seq<Token>)
    ensures NamesAndDots(parts) <==>
      (|| (|parts| == 1 && Plain(parts[0]))
       || (|parts| == 3 && Plain(parts[0]) && Dot(parts[1]) && Plain(parts[2]))
       || (|parts| == 5 && Plain(parts[0]) && Dot(parts[1]) && Plain(parts[2]) && Dot(parts[3]) && Plain(parts[4])))
  {
    if NamesAndDots(parts) && |parts| >= 3 {
      assert Dot(parts[1]) && Plain(parts[2]);
      assert |parts| == 5 ==> Dot(parts[3]) && Plain(parts[4]);
    }
  }

  /** A name with parentheses yields its alias, and its first token when that is a name. */
  lemma AliasYielded(name: Token, a: string)
    requires name.Group? && name.tokens != []
    ensures Yields(name, AnAlias(a)) <==>
      && '(' in Text(name)
      && (name.alias == Some(a)
          || (name.tokens[0].Leaf? && name.tokens[0].ttype == Name && name.tokens[0].text == a))
  {
  }

  /** Quotes of one kind around a text are taken off, other texts stay. */
  lemma UnquotedMeaning(s: string, quote: char)
    requires quote in {'"', '\'', '`'}
    ensures RemoveQuotes([quote] + s + [quote]) == s
    ensures (s == "" || s[0] !in {'"', '\'', '`'} || s[|s| - 1] != s[0]) ==> RemoveQuotes(s) == s
  {
    var quoted := [quote] + s + [quote];
    assert quoted[1..|quoted| - 1] == s;
  }

  /** The keywords that announce a table: six by name, and whatever else ends in ` JOIN`. */
  lemma OpensMeaning(token: Token)
    ensures Opens(token) <==>
      && token.Leaf? && token.ttype in {Keyword, KeywordSub}
      && (token.normalized in ["FROM", "JOIN", "DESCRIBE", "WITH", "LEFT JOIN", "RIGHT JOIN"]
          || (|token.normalized| >= 5 && token.normalized[|token.normalized| - 5..] == " JOIN"))
  {
  }

  lemma OfferedIsWellFormed(token: Token, i: nat, name: Token)
    requires token.Group? && WellFormed(token) && i < |token.tokens| && Offers(token, i, name)
    ensures name.Group? && WellFormed(name)
    ensures name == token.tokens[i] || (token.tokens[i].Group? && name in token.tokens[i].tokens)
  {
    var item := token.tokens[i];
    assert WellFormed(item);
    IdentifiersAreMembers(item.tokens);
  }

  lemma {:induction false} LookAllMeaning(list: Token, n: nat, x: Item)
    requires list.Group? && WellFormed(list) && n <= |Identifiers(list.tokens)|
    ensures forall name | name in Identifiers(list.tokens) :: WellFormed(name)
    ensures Has(LookAll(list, n), x) <==>
      exists m | 0 <= m < n :: Identifiers(list.tokens)[m].Group? && Has(Look(Identifiers(list.tokens)[m]), x)
  {
    IdentifiersAreMembers(list.tokens);
    if n > 0 {
      LookAllMeaning(list, n - 1, x);
      var name := Identifiers(list.tokens)[n - 1];
      assert Has(LookAll(list, n), x) <==> Has(LookAll(list, n - 1), x) || (name.Group? && Has(Look(name), x));
    }
  }

  lemma OfferedMeaning(token: Token, i: nat, x: Item)
    requires token.Group? && WellFormed(token) && i < |token.tokens|
    ensures forall name | Offers(token, i, name) :: name.Group? && WellFormed(name)
    ensures Has(Offered(token, i), x) <==> exists name :: Offers(token, i, name) && Has(Look(name), x)
  {
    forall name | Offers(token, i, name)
      ensures name.Group? && WellFormed(name)
    {
      OfferedIsWellFormed(token, i, name);
    }
    var item := token.tokens[i];
    assert WellFormed(item);
    if Governed(token.tokens, i) && item.Group? && item.kind == Identifier {
      assert Offers(token, i, item);
    } else if Governed(token.tokens, i) && item.Group? && item.kind == IdentifierList {
      var names := Identifiers(item.tokens);
      LookAllMeaning(item, |names|, x);
      assert forall m | 0 <= m < |names| && names[m].Group? :: Offers(token, i, names[m]);
    }
  }

  ghost predicate Contributes(token: Token, i: nat, x: Item)
    requires token.Group? && WellFormed(token) && i < |token.tokens|
  {
    Has(Entered(token, i), x) || Has(Offered(token, i), x)
  }

  lemma {:induction false} WalkUpToMeaning(token: Token, n: nat, x: Item)
    requires token.Group? && WellFormed(token) && n <= |token.tokens|
    ensures Has(WalkUpTo(token, n), x) <==>
      exists i | 0 <= i < n :: Contributes(token, i, x)
  {
    if n > 0 {
      WalkUpToMeaning(token, n - 1, x);
      assert Has(WalkUpTo(token, n), x) <==>
        Has(WalkUpTo(token, n - 1), x) || Contributes(token, n - 1, x);
    }
  }

  /** Everything the walk finds is at the end of some admissible path. */
  lemma {:induction false} WalkIsSound(root: Token, x: Item) returns (path: seq<Token>, name: Token)
    requires WellFormed(root) && Has(Walk(root), x)
    ensures Leads(root, path, name) && Yields(name, x)
    decreases root
  {
    WalkUpToMeaning(root, |root.tokens|, x);
    var i :| 0 <= i < |root.tokens| && Contributes(root, i, x);
    var next;
    if Has(Entered(root, i), x) {
      next := root.tokens[i];
      path, name := WalkIsSound(next, x);
    } else {
      OfferedMeaning(root, i, x);
      next :| Offers(root, i, next) && Has(Look(next), x);
      OfferedIsWellFormed(root, i, next);
      if Yields(next, x) {
        return [root], next;
      }
      path, name := WalkIsSound(next, x);
    }
    assert Step(root, next);
    LeadsOnward(root, next, path, name);
    path := [root] + path;
  }

  lemma LeadsOnward(root: Token, next: Token, path: seq<Token>, name: Token)
    requires Step(root, next) && Leads(next, path, name)
    ensures Leads(root, [root] + path, name)
  {
    var longer := [root] + path;
    forall k | 0 <= k < |longer| - 1
      ensures Step(longer[k], longer[k + 1])
    {
      assert k > 0 ==> longer[k] == path[k - 1] && Step(path[k - 1], path[k]);
    }
  }

  /** Whatever an admissible path leads to is found. */
  lemma {:induction false} WalkIsComplete(root: Token, path: seq<Token>, name: Token, x: Item)
    requires WellFormed(root) && Leads(root, path, name) && Yields(name, x)
    ensures Has(Walk(root), x)
    decreases |path|
  {
    if |path| == 1 {
      var i :| 0 <= i < |root.tokens| && Offers(root, i, name);
      OfferedMeaning(root, i, x);
      assert Has(Look(name), x);
      assert Contributes(root, i, x);
      WalkUpToMeaning(root, |root.tokens|, x);
    } else {
      var next := path[1];
      assert Step(path[0], path[1]);
      var i :| 0 <= i < |root.tokens| &&
        ((Enters(root, i) && next == root.tokens[i]) || (Offers(root, i, next) && IsSubselect(next)));
      if Offers(root, i, next) {
        OfferedIsWellFormed(root, i, next);
      }
      var rest := path[1..];
      assert forall k | 0 <= k < |rest| - 1 :: rest[k] == path[k + 1] ==> Step(rest[k], rest[k + 1]);
      WalkIsComplete(next, path[1..], name, x);
      OfferedMeaning(root, i, x);
      assert Contributes(root, i, x);
      WalkUpToMeaning(root, |root.tokens|, x);
    }
  }

  /** Table extraction, at every nesting depth: exactly the dotted names without a CTE prefix that
      stand where the nearest preceding sibling keyword announces a table, reached through the
      admissible descents; and exactly the aliases of the subselects met on the way. */
  lemma WalkExactly(root: Token, x: Item)
    requires WellFormed(root)
    ensures Has(Walk(root), x) <==> exists name :: Visited(root, name) && Yields(name, x)
  {
    if Has(Walk(root), x) {
      var path, name := WalkIsSound(root, x);
      assert Visited(root, name);
    }
    forall name | Visited(root, name) && Yields(name, x)
      ensures Has(Walk(root), x)
    {
      var path :| Leads(root, path, name);
      WalkIsComplete(root, path, name, x);
    }
  }

  lemma BeforeAliasExists(name: Token) returns (parts: seq<Token>)
    requires name.Group?
    ensures BeforeAlias(name, parts)
  {
    parts := if name.alias.Some? then name.tokens[..FirstSpace(name.tokens)] else name.tokens;
    FirstSpaceMeaning(name.tokens);
  }

  lemma {:induction false} FirstSpaceMeaning(tokens: seq<Token>)
    ensures var i := FirstSpace(tokens);
      && (forall t | t in tokens[..i] :: !t.IsSpace()) && (i < |tokens| ==> tokens[i].IsSpace())
  {
    if tokens != [] && !tokens[0].IsSpace() {
      FirstSpaceMeaning(tokens[1..]);
      assert tokens[..FirstSpace(tokens)] == [tokens[0]] + tokens[1..][..FirstSpace(tokens[1..])];
    }
  }

  /** The walk finds a table if and only if it looks at a name without parentheses whose tokens before
      the alias spell that table. */
  lemma TablesExactly(root: Token, t: Table)
    requires WellFormed(root)
    ensures t in Walk(root).tables <==> exists name, parts :: VisitedAs(root, name, parts, t)
  {
    WalkExactly(root, ATable(t));
    if t in Walk(root).tables {
      assert Has(Walk(root), ATable(t));
      var name :| Visited(root, name) && Yields(name, ATable(t));
      var parts := BeforeAliasExists(name);
      TableYielded(name, parts, t);
      assert VisitedAs(root, name, parts, t);
    }
    forall name, parts | VisitedAs(root, name, parts, t)
      ensures Has(Walk(root), ATable(t))
    {
      TableYielded(name, parts, t);
    }
  }

  ghost predicate VisitedAs(root: Token, name: Token, parts: seq<Token>, t: Table) {
    && Visited(root, name) && name.Group? && BeforeAlias(name, parts) && '(' !in Text(name) && Spells(parts, t)
  }

  /** A statement whose only group is one name: the walk looks at it when a keyword announces it, and
      finds nothing otherwise. */
  lemma {:induction false} OneName(root: Token, j: nat, n: nat)
    requires root.Group? && WellFormed(root) && j < |root.tokens| && n <= |root.tokens|
    requires forall i | 0 <= i < |root.tokens| && i != j :: root.tokens[i].Leaf?
    requires var name := root.tokens[j];
      name.Group? && name.kind == Identifier && name.tokens != [] && !AlwaysEntered(name)
    ensures WellFormed(root.tokens[j])
    ensures WalkUpTo(root, n) == if n > j && Governed(root.tokens, j) then Look(root.tokens[j]) else Nothing
  {
    assert WellFormed(root.tokens[j]);
    if n > 0 {
      OneName(root, j, n - 1);
    }
  }

  const SPACE := Leaf(Space, " ", " ")

  function SelectFrom(name: Token): Token {
    Group(OtherGroup, None, [Leaf(Keyword, "SELECT", "SELECT"), SPACE, Leaf(Other, "*", "*"), SPACE,
                             Leaf(Keyword, "FROM", "FROM"), SPACE, name], "")
  }

  function QualifiedName(schema: string, table: string): Token {
    Group(Identifier, None,
          [Leaf(Name, schema, schema), Leaf(Punctuation, ".", "."), Leaf(Name, table, table)], "")
  }

  lemma QualifiedText(schema: string, table: string)
    ensures Text(QualifiedName(schema, table)) == schema + ("." + table)
  {
    var name := QualifiedName(schema, table);
    assert TextOf(name.tokens[2..]) == table by { assert name.tokens[2..][1..] == []; }
    assert TextOf(name.tokens[1..]) == "." + table by { assert name.tokens[1..][1..] == name.tokens[2..]; }
    assert Text(name) == Text(name.tokens[0]) + TextOf(name.tokens[1..]);
  }

  /** A text that is its own name: no parenthesis, no quote at its start, no CTE's name. */
  predicate Bare(s: string) {
    s != "" && '(' !in s && s[0] !in {'"', '\'', '`'} && !(CTE_PREFIX <= s)
  }

  lemma QualifiedLook(schema: string, table: string)
    requires Bare(schema) && Bare(table)
    ensures WellFormed(QualifiedName(schema, table))
    ensures Look(QualifiedName(schema, table)) == Found({Table(table, Some(schema), None)}, {})
  {
    var name := QualifiedName(schema, table);
    QualifiedText(schema, table);
    forall t
      ensures t in NamedTable(name) <==> t == Table(table, Some(schema), None)
    {
      TableYielded(name, name.tokens, t);
    }
  }

  /** `SELECT * FROM schema.table` has that one table in that schema. */
  lemma FromQualified(schema: string, table: string)
    requires Bare(schema) && Bare(table)
    ensures var root := SelectFrom(QualifiedName(schema, table));
      WellFormed(root) && Walk(root) == Found({Table(table, Some(schema), None)}, {})
  {
    var root := SelectFrom(QualifiedName(schema, table));
    QualifiedLook(schema, table);
    assert WellFormed(root);
    OneName(root, 6, 7);
    assert Opens(root.tokens[4]) && Governed(root.tokens, 6);
  }

  // ----- the walk itself -----

  class ParsedQuery {
    const parsed: seq<Token>
    var foundTables: set<Table>
    var aliasNames: set<string>

    constructor (parsed: seq<Token>)
      ensures this.parsed == parsed && foundTables == {} && aliasNames == {}
    {
      this.parsed, foundTables, aliasNames := parsed, {}, {};
    }

    ghost function State(): Found
      reads this
    {
      Found(foundTables, aliasNames)
    }

    method ExtractFromToken(token: Token)
      requires WellFormed(token)
      modifies this
      ensures State() == old(State()).Plus(Walk(token))
      decreases token, 1
    {
      if token.Leaf? {
        return;
      }
      var tableNamePrecedingToken := false;
      for i := 0 to |token.tokens|
        invariant tableNamePrecedingToken <==> Governed(token.tokens, i)
        invariant State() == old(State()).Plus(WalkUpTo(token, i))
      {
        tableNamePrecedingToken := ExtractFromItem(token, i, tableNamePrecedingToken);
        PlusRegroups(old(State()), WalkUpTo(token, i), Entered(token, i), Offered(token, i));
      }
    }

    /** The loop body for child `i`; the result is the flag for the next child. */
    method ExtractFromItem(token: Token, i: nat, flag: bool) returns (tableNamePrecedingToken: bool)
      requires token.Group? && WellFormed(token) && i < |token.tokens|
      requires flag <==> Governed(token.tokens, i)
      modifies this
      ensures tableNamePrecedingToken <==> Governed(token.tokens, i + 1)
      ensures State() == old(State()).Plus(Entered(token, i)).Plus(Offered(token, i))
      decreases token, 0
    {
      tableNamePrecedingToken := flag;
      var item := token.tokens[i];
      assert WellFormed(item);
      GovernedNext(token.tokens, i);
      if item.Group? && (!item.IsIdentifier() || (item.tokens[0].Group? && item.tokens[0].kind == Parenthesis)) {
        ExtractFromToken(item);
      }
      if Opens(item) {
        return true;
      }
      if item.IsKeyword() {
        return false;
      }
      if tableNamePrecedingToken {
        if item.Group? && item.kind == Identifier {
          ProcessTokenlist(item);
        } else if IsList(item) {
          ProcessIdentifiers(item);
        }
      } else if IsList(item) {
        if exists t | t in item.tokens :: !t.IsIdentifier() {
          ExtractFromToken(item);
        }
      }
    }

    method ProcessIdentifiers(list: Token)
      requires list.Group? && WellFormed(list)
      modifies this
      ensures State() == old(State()).Plus(LookAll(list, |Identifiers(list.tokens)|))
      decreases list, 0
    {
      var names := Identifiers(list.tokens);
      IdentifiersAreMembers(list.tokens);
      for i := 0 to |names|
        invariant State() == old(State()).Plus(LookAll(list, i))
      {
        assert names[i] in names && names[i] in list.tokens;
        if names[i].Group? {
          ProcessTokenlist(names[i]);
        }
      }
    }

    method ProcessTokenlist(tokenList: Token)
      requires tokenList.Group? && WellFormed(tokenList)
      modifies this
      ensures State() == old(State()).Plus(Look(tokenList))
      decreases tokenList, 2
    {
      if '(' !in Text(tokenList) {
        var table := GetTable(tokenList);
        if table.Some? && !(CTE_PREFIX <= table.value.table) {
          foundTables := foundTables + {table.value};
        }
        return;
      }
      if tokenList.alias.Some? {
        aliasNames := aliasNames + {tokenList.alias.value};
      }
      if tokenList.tokens[0].Leaf? && tokenList.tokens[0].ttype == Name {
        aliasNames := aliasNames + {tokenList.tokens[0].text};
      }
      ExtractFromToken(tokenList);
    }

    /** The `tables` property: extraction over all statements, minus the aliases; a result that is
        not empty is kept and not computed again. */
    method Tables() returns (tables: set<Table>)
      requires forall s | s in parsed :: WellFormed(s)
      modifies this
      ensures tables == foundTables
      ensures old(foundTables) != {} ==> tables == old(foundTables) && aliasNames == old(aliasNames)
      ensures old(foundTables) == {} ==> aliasNames == old(aliasNames) + WalkAll(parsed).aliases
      ensures old(foundTables) == {} ==>
        tables == set t | t in WalkAll(parsed).tables && Str(t) !in old(aliasNames) + WalkAll(parsed).aliases
    {
      if foundTables == {} {
        for i := 0 to |parsed|
          invariant State() == old(State()).Plus(WalkAll(parsed[..i]))
        {
          assert parsed[..i + 1][..i] == parsed[..i];
          ExtractFromToken(parsed[i]);
        }
        assert parsed[..|parsed|] == parsed;
        foundTables := set t | t in foundTables && Str(t) !in aliasNames;
      }
      tables := foundTables;
    }
  }

  ghost function WalkAll(statements: seq<Token>): Found
    requires forall s | s in statements :: WellFormed(s)
  {
    if statements == [] then Nothing
    else WalkAll(statements[..|statements| - 1]).Plus(Walk(statements[|statements| - 1]))
  }

  /** The flag the loop carries is the declarative notion. */
  lemma GovernedNext(tokens: seq<Token>, i: nat)
    requires i < |tokens|
    ensures Governed(tokens, i + 1) <==> Opens(tokens[i]) || (Governed(tokens, i) && !tokens[i].IsKeyword())
  {
    if Governed(tokens, i) && !tokens[i].IsKeyword() {
      var j :| 0 <= j < i && Opens(tokens[j]) && forall m | j < m < i :: !tokens[m].IsKeyword();
      assert forall m | j < m < i + 1 :: !tokens[m].IsKeyword();
    }
    if Governed(tokens, i + 1) {
      var j :| 0 <= j < i + 1 && Opens(tokens[j]) && forall m | j < m < i + 1 :: !tokens[m].IsKeyword();
      assert j < i ==> !tokens[i].IsKeyword() && Governed(tokens, i);
    }
  }

  /** What `tables` answers on a fresh query, and again on every later call. */
  method TablesTwice(parsed: seq<Token>) returns (first: set<Table>, second: set<Table>)
    requires forall s | s in parsed :: WellFormed(s)
    ensures first == second
    ensures forall t :: t in first <==>
      && (exists s | s in parsed :: Has(Walk(s), ATable(t)))
      && !(exists s | s in parsed :: Has(Walk(s), AnAlias(Str(t))))
  {
    var query := new ParsedQuery(parsed);
    first := query.Tables();
    second := query.Tables();
    forall x: Item
      ensures Has(WalkAll(parsed), x) <==> exists s | s in parsed :: Has(Walk(s), x)
    {
      WalkAllMeaning(parsed, x);
    }
    assert forall t :: t in WalkAll(parsed).tables <==> Has(WalkAll(parsed), ATable(t));
    assert forall a :: a in WalkAll(parsed).aliases <==> Has(WalkAll(parsed), AnAlias(a));
  }

  lemma {:induction false} WalkAllMeaning(statements: seq<Token>, x: Item)
    requires forall s | s in statements :: WellFormed(s)
    ensures Has(WalkAll(statements), x) <==> exists s | s in statements :: Has(Walk(s), x)
  {
    if statements != [] {
      var init, last := statements[..|statements| - 1], statements[|statements| - 1];
      assert statements == init + [last];
      WalkAllMeaning(init, x);
      assert Has(WalkAll(statements), x) <==> Has(WalkAll(init), x) || Has(Walk(last), x);
    }
  }
}
