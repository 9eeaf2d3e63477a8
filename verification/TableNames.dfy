/** Qualified table names and the dotted, percent-encoded text they are compared under. */
module TableNames {
  import opened Options
  import opened Sequences

  datatype Table = Table(table: string, schema: Option<string>, catalog: Option<string>)

  // ----- UTF-8 -----

  type Byte = b: int | 0 <= b < 0x100

  function EncodeChar(c: char): (bytes: seq<Byte>)
    ensures bytes != []
  {
    var p := c as int;
    if p < 0x80 then [p]
    else if p < 0x800 then [0xC0 + p / 0x40, 0x80 + p % 0x40]
    else if p < 0x1_0000 then [0xE0 + p / 0x1000, 0x80 + p / 0x40 % 0x40, 0x80 + p % 0x40]
    else [0xF0 + p / 0x4_0000, 0x80 + p / 0x1000 % 0x40, 0x80 + p / 0x40 % 0x40, 0x80 + p % 0x40]
  }

  function Utf8(s: string): seq<Byte> {
    if s == [] then [] else EncodeChar(s[0]) + Utf8(s[1..])
  }

  /** How many bytes the character takes that starts with this byte. */
  function Width(first: Byte): (n: nat)
    ensures 1 <= n <= 4
  {
    if first < 0x80 then 1 else if first < 0xE0 then 2 else if first < 0xF0 then 3 else 4
  }

  function CodePoint(b: seq<int>): int
    requires 1 <= |b| <= 4
  {
    if |b| == 1 then b[0]
    else if |b| == 2 then (b[0] - 0xC0) * 0x40 + (b[1] - 0x80)
    else if |b| == 3 then (b[0] - 0xE0) * 0x1000 + (b[1] - 0x80) * 0x40 + (b[2] - 0x80)
    else (b[0] - 0xF0) * 0x4_0000 + (b[1] - 0x80) * 0x1000 + (b[2] - 0x80) * 0x40 + (b[3] - 0x80)
  }

  predicate IsScalar(p: int) {
    0 <= p < 0xD800 || 0xE000 <= p < 0x11_0000
  }

  /** Decoding; bytes that are no encoding of anything come out as `?`. */
  function FromUtf8(b: seq<Byte>): string {
    if b == [] then []
    else
      var n := Width(b[0]);
      if |b| < n then "?"
      else
        var p := CodePoint(b[..n]);
        [if IsScalar(p) then p as char else '?'] + FromUtf8(b[n..])
  }

  lemma EncodedCharIsReadBack(c: char)
    ensures var b := EncodeChar(c); |b| == Width(b[0]) && CodePoint(b) == c as int
  {
    var p := c as int;
    var q := p / 0x40;
    var r := q / 0x40;
    assert q == p / 0x40 && r == p / 0x1000 && r / 0x40 == p / 0x4_0000;
    assert p == q * 0x40 + p % 0x40 && q == r * 0x40 + q % 0x40 && r == r / 0x40 * 0x40 + r % 0x40;
  }

  /** A continuation byte. */
  predicate Continues(b: int) {
    0x80 <= b < 0xC0
  }

  /** UTF-8 (section 3 of RFC 3629): one byte below 0x80, otherwise a first byte that tells the length
      and six bits in each byte after it, the highest first. */
  lemma EncodingMeaning(c: char)
    ensures var b: seq<int>, p := EncodeChar(c), c as int;
      && (p < 0x80 ==> b == [p])
      && (0x80 <= p < 0x800 ==> |b| == 2 && Continues(b[1]) && p == (b[0] - 0xC0) * 64 + (b[1] - 0x80))
      && (0x800 <= p < 0x1_0000 ==>
            && |b| == 3 && Continues(b[1]) && Continues(b[2])
            && p == (b[0] - 0xE0) * 4096 + (b[1] - 0x80) * 64 + (b[2] - 0x80))
      && (0x1_0000 <= p ==>
            && |b| == 4 && Continues(b[1]) && Continues(b[2]) && Continues(b[3])
            && p == (b[0] - 0xF0) * 262144 + (b[1] - 0x80) * 4096 + (b[2] - 0x80) * 64 + (b[3] - 0x80))
  {
    var p := c as int;
    var q := p / 0x40;
    var r := q / 0x40;
    assert q == p / 0x40 && r == p / 0x1000 && r / 0x40 == p / 0x4_0000;
    assert p == q * 0x40 + p % 0x40 && q == r * 0x40 + q % 0x40 && r == r / 0x40 * 0x40 + r % 0x40;
  }

  lemma {:induction false} Utf8RoundTrip(s: string)
    ensures FromUtf8(Utf8(s)) == s
  {
    if s != [] {
      var head, tail := EncodeChar(s[0]), Utf8(s[1..]);
      EncodedCharIsReadBack(s[0]);
      assert (head + tail)[..|head|] == head && (head + tail)[|head|..] == tail;
      Utf8RoundTrip(s[1..]);
    }
  }

  // ----- percent-encoding (section 2.1 of RFC 3986) -----

  predicate Unreserved(b: Byte) {
    || 'A' as int <= b <= 'Z' as int || 'a' as int <= b <= 'z' as int || '0' as int <= b <= '9' as int
    || b == '_' as int || b == '.' as int || b == '-' as int || b == '~' as int
  }

  function HexDigit(d: int): char
    requires 0 <= d < 16
  {
    if d < 10 then '0' + d as char else 'A' + (d - 10) as char
  }

  function FromHex(c: char): Option<int> {
    if '0' <= c <= '9' then Some((c - '0') as int)
    else if 'A' <= c <= 'F' then Some((c - 'A') as int + 10)
    else None
  }

  function QuoteByte(b: Byte): (s: string)
    ensures s != [] && forall c | c in s :: c as int < 0x80
  {
    if Unreserved(b) then [b as char] else ['%', HexDigit(b / 16), HexDigit(b % 16)]
  }

  function Quote(bytes: seq<Byte>): string {
    if bytes == [] then [] else QuoteByte(bytes[0]) + Quote(bytes[1..])
  }

  /** `.replace(".", "%2E")` */
  function ReplaceDots(s: string): string {
    if s == [] then [] else (if s[0] == '.' then "%2E" else [s[0]]) + ReplaceDots(s[1..])
  }

  function Escape(part: string): string {
    ReplaceDots(Quote(Utf8(part)))
  }

  /** Percent-decoding: `%` with two hexadecimal digits is a byte, anything else stands for itself. */
  function Unquote(s: string): seq<Byte> {
    if s == [] then []
    else if s[0] == '%' && |s| >= 3 && FromHex(s[1]).Some? && FromHex(s[2]).Some?
    then [FromHex(s[1]).value * 16 + FromHex(s[2]).value] + Unquote(s[3..])
    else [s[0] as int % 0x100] + Unquote(s[1..])
  }

  function Unescape(s: string): string {
    FromUtf8(Unquote(s))
  }

  lemma {:induction false} ReplaceDotsJoins(a: string, b: string)
    ensures ReplaceDots(a + b) == ReplaceDots(a) + ReplaceDots(b)
  {
    if a == [] {
      assert a + b == b;
    } else {
      assert (a + b)[1..] == a[1..] + b;
      ReplaceDotsJoins(a[1..], b);
      Regroup(if a[0] == '.' then "%2E" else [a[0]], ReplaceDots(a[1..]), ReplaceDots(b));
    }
  }

  lemma {:induction false} NoDotSurvives(s: string)
    ensures '.' !in ReplaceDots(s)
  {
    if s != [] {
      NoDotSurvives(s[1..]);
    }
  }

  /** What a byte looks like once quoted and with its dot replaced. */
  lemma EscapedByte(b: Byte)
    ensures ReplaceDots(QuoteByte(b)) ==
      if Unreserved(b) && b != '.' as int then [b as char] else ['%', HexDigit(b / 16), HexDigit(b % 16)]
  {
    var q := QuoteByte(b);
    if |q| == 1 {
      assert q[1..] == [];
    } else {
      assert q[1..] == [q[1], q[2]] && q[2..] == [q[2]] && q[3..] == [];
      assert q[1..][1..] == q[2..] && q[2..][1..] == q[3..];
      assert q[0] != '.' && q[1] != '.' && q[2] != '.';
      assert ReplaceDots(q[2..]) == [q[2]] && ReplaceDots(q[1..]) == [q[1], q[2]];
    }
  }

  lemma HexIsReadBack(d: int)
    requires 0 <= d < 16
    ensures FromHex(HexDigit(d)) == Some(d) && HexDigit(d) != '.'
  {
  }

  lemma {:induction false} UnquoteUndoes(bytes: seq<Byte>)
    ensures Unquote(ReplaceDots(Quote(bytes))) == bytes
  {
    if bytes != [] {
      var head, tail := ReplaceDots(QuoteByte(bytes[0])), ReplaceDots(Quote(bytes[1..]));
      ReplaceDotsJoins(QuoteByte(bytes[0]), Quote(bytes[1..]));
      EscapedByte(bytes[0]);
      UnquoteUndoes(bytes[1..]);
      HexIsReadBack(bytes[0] / 16);
      HexIsReadBack(bytes[0] % 16);
      assert (head + tail)[|head|..] == tail;
    }
  }

  lemma EscapeRoundTrip(part: string)
    ensures Unescape(Escape(part)) == part && '.' !in Escape(part)
  {
    UnquoteUndoes(Utf8(part));
    Utf8RoundTrip(part);
    NoDotSurvives(Quote(Utf8(part)));
  }

  /** A character that stands for itself. */
  predicate Itself(c: char) {
    'A' <= c <= 'Z' || 'a' <= c <= 'z' || '0' <= c <= '9' || c in {'_', '-', '~'}
  }

  lemma {:induction false} EscapeJoins(a: string, b: string)
    ensures Escape(a + b) == Escape(a) + Escape(b)
  {
    if a == [] {
      assert a + b == b;
    } else {
      assert (a + b)[1..] == a[1..] + b;
      EscapeJoins(a[1..], b);
      EscapeFirst(a);
      EscapeFirst(a + b);
      Regroup(Escape([a[0]]), Escape(a[1..]), Escape(b));
    }
  }

  lemma EscapeFirst(s: string)
    requires s != []
    ensures Escape(s) == Escape([s[0]]) + Escape(s[1..])
  {
    assert Utf8([s[0]]) == EncodeChar(s[0]) + Utf8([]) == EncodeChar(s[0]) by { assert [s[0]][1..] == []; }
    QuoteJoins(EncodeChar(s[0]), Utf8(s[1..]));
    ReplaceDotsJoins(Quote(EncodeChar(s[0])), Quote(Utf8(s[1..])));
  }

  lemma {:induction false} QuoteJoins(a: seq<Byte>, b: seq<Byte>)
    ensures Quote(a + b) == Quote(a) + Quote(b)
  {
    if a == [] {
      assert a + b == b;
    } else {
      assert (a + b)[1..] == a[1..] + b;
      QuoteJoins(a[1..], b);
      Regroup(QuoteByte(a[0]), Quote(a[1..]), Quote(b));
    }
  }

  /** The escaping goes character by character: letters, digits, `_`, `-` and `~` stand for themselves,
      any other of the first 128 characters is `%` with its number in two hexadecimal digits. */
  lemma EscapeMeaning(c: char)
    requires c as int < 0x80
    ensures Escape([c]) ==
      if Itself(c) then [c] else ['%', HexDigit(c as int / 16), HexDigit(c as int % 16)]
  {
    assert [c][1..] == [] && Utf8([c]) == [c as int] + [];
    assert [c as int][1..] == [] && Quote([c as int]) == QuoteByte(c as int) + [];
    EscapedByte(c as int);
    assert QuoteByte(c as int) + [] == QuoteByte(c as int);
  }

  lemma HexMeaning(d: int)
    requires 0 <= d < 16
    ensures HexDigit(d) == "0123456789ABCDEF"[d]
  {
  }

  /** A name of such characters is its own text. */
  lemma {:induction false} PlainIsItself(name: string)
    requires forall i | 0 <= i < |name| :: Itself(name[i])
    ensures Escape(name) == name
  {
    if name != [] {
      assert Itself(name[0]);
      EscapeFirst(name);
      EscapeMeaning(name[0]);
      PlainIsItself(name[1..]);
    }
  }

  predicate AllThemselves(name: string) {
    name != "" && forall i | 0 <= i < |name| :: Itself(name[i])
  }

  // ----- the table's text -----

  function IfPresent(part: Option<string>): seq<string> {
    if part.Some? && part.value != "" then [part.value] else []
  }

  /** The parts that are present and not empty, outermost first. */
  function Parts(t: Table): seq<string> {
    IfPresent(t.catalog) + IfPresent(t.schema) + IfPresent(Some(t.table))
  }

  function EscapeAll(parts: seq<string>): seq<string> {
    if parts == [] then [] else [Escape(parts[0])] + EscapeAll(parts[1..])
  }

  function Join(parts: seq<string>): string {
    if parts == [] then ""
    else if |parts| == 1 then parts[0]
    else parts[0] + "." + Join(parts[1..])
  }

  function Str(t: Table): string {
    Join(EscapeAll(Parts(t)))
  }

  /** Cut a text at its dots. */
  function Split(s: string): (parts: seq<string>)
    ensures parts != []
  {
    if s == [] then [""]
    else
      var rest := Split(s[1..]);
      if s[0] == '.' then [""] + rest else [[s[0]] + rest[0]] + rest[1..]
  }

  function ReadBack(s: string): seq<string> {
    if s == "" then [] else UnescapeAll(Split(s))
  }

  function UnescapeAll(parts: seq<string>): seq<string> {
    if parts == [] then [] else [Unescape(parts[0])] + UnescapeAll(parts[1..])
  }

  lemma {:induction false} SplitOfUndotted(s: string, rest: string)
    requires '.' !in s
    ensures Split(s) == [s]
    ensures Split(s + "." + rest) == [s] + Split(rest)
  {
    var whole := s + "." + rest;
    if s == [] {
      assert whole[1..] == rest;
    } else {
      assert whole[1..] == s[1..] + "." + rest;
      SplitOfUndotted(s[1..], rest);
      assert s == [s[0]] + s[1..];
    }
  }

  lemma {:induction false} SplitUndoesJoin(parts: seq<string>)
    requires parts != []
    ensures UnescapeAll(Split(Join(EscapeAll(parts)))) == parts
  {
    var escaped := EscapeAll(parts);
    EscapeRoundTrip(parts[0]);
    assert escaped[1..] == EscapeAll(parts[1..]);
    if |parts| == 1 {
      SplitOfUndotted(escaped[0], "");
      assert UnescapeAll([escaped[0]]) == [Unescape(escaped[0])] + UnescapeAll([]);
    } else {
      SplitUndoesJoin(parts[1..]);
      var rest := Join(escaped[1..]);
      SplitOfUndotted(escaped[0], rest);
      assert ([escaped[0]] + Split(rest))[1..] == Split(rest);
    }
  }

  lemma EscapeIsNotEmpty(part: string)
    requires part != ""
    ensures Escape(part) != ""
  {
    EscapeRoundTrip(part);
    assert Unescape("") == "";
  }

  /** Splitting the text at its dots and percent-decoding each piece gives the parts back. */
  lemma StrRoundTrip(t: Table)
    ensures ReadBack(Str(t)) == Parts(t)
  {
    var parts := Parts(t);
    if parts != [] {
      SplitUndoesJoin(parts);
      EscapeIsNotEmpty(parts[0]);
      assert EscapeAll(parts)[0] == Escape(parts[0]);
    }
  }

  /** Two tables have the same text exactly when their present parts are the same. */
  lemma StrIdentifiesParts(t: Table, u: Table)
    ensures Str(t) == Str(u) <==> Parts(t) == Parts(u)
  {
    StrRoundTrip(t);
    StrRoundTrip(u);
  }

  /** A name as the grammar `[[catalog.]schema.]table` describes it. */
  predicate Proper(t: Table) {
    && t.table != ""
    && (t.schema.Some? ==> t.schema.value != "")
    && (t.catalog.Some? ==> t.catalog.value != "" && t.schema.Some?)
  }

  lemma StrIsInjective(t: Table, u: Table)
    requires Proper(t) && Proper(u)
    ensures Str(t) == Str(u) <==> t == u
  {
    StrIdentifiesParts(t, u);
    var p := Parts(t);
    assert |p| == 1 + (if t.schema.Some? then 1 else 0) + (if t.catalog.Some? then 1 else 0);
    assert t == Table(p[|p| - 1], if |p| >= 2 then Some(p[|p| - 2]) else None, if |p| == 3 then Some(p[0]) else None);
    var q := Parts(u);
    assert u == Table(q[|q| - 1], if |q| >= 2 then Some(q[|q| - 2]) else None, if |q| == 3 then Some(q[0]) else None);
  }

  /** Which parts a table's text is made of: catalog, schema and table in this order, and of these the
      ones that are given and not empty. */
  lemma PartsExactly(t: Table)
    ensures Parts(t) ==
      (if t.catalog.None? || t.catalog.value == "" then [] else [t.catalog.value])
        + (if t.schema.None? || t.schema.value == "" then [] else [t.schema.value])
        + (if t.table == "" then [] else [t.table])
  {
  }

  /** What a table is compared by when its parts need no escaping: the parts with dots in between. */
  lemma PlainText(table: string, schema: string, catalog: string)
    requires AllThemselves(table) && AllThemselves(schema) && AllThemselves(catalog)
    ensures Str(Table(table, None, None)) == table
    ensures Str(Table(table, Some(schema), None)) == schema + "." + table
    ensures Str(Table(table, Some(schema), Some(catalog))) == catalog + "." + (schema + "." + table)
  {
    PartsMeaning(table, schema, catalog);
    JoinMeaning(table, schema, catalog);
    AllPlain([table]);
    AllPlain([schema, table]);
    AllPlain([catalog, schema, table]);
  }

  lemma PartsMeaning(table: string, schema: string, catalog: string)
    requires table != "" && schema != "" && catalog != ""
    ensures Parts(Table(table, None, None)) == [table]
    ensures Parts(Table(table, Some(schema), None)) == [schema, table]
    ensures Parts(Table(table, Some(schema), Some(catalog))) == [catalog, schema, table]
  {
  }

  lemma JoinMeaning(a: string, b: string, c: string)
    ensures Join([a]) == a && Join([b, a]) == b + "." + a && Join([c, b, a]) == c + "." + (b + "." + a)
  {
    assert [b, a][1..] == [a] && [c, b, a][1..] == [b, a];
  }

  lemma {:induction false} AllPlain(parts: seq<string>)
    requires forall p | p in parts :: AllThemselves(p)
    ensures EscapeAll(parts) == parts
  {
    if parts != [] {
      assert parts[0] in parts;
      PlainIsItself(parts[0]);
      AllPlain(parts[1..]);
    }
  }

  /** Without a schema a catalog is taken for one. */
  lemma CatalogAloneIsAmbiguous()
    ensures Str(Table("t", None, Some("c"))) == Str(Table("t", Some("c"), None))
  {
    assert Parts(Table("t", None, Some("c"))) == Parts(Table("t", Some("c"), None));
  }
}
