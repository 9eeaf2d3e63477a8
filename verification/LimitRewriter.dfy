/** Reading and rewriting the LIMIT clause of a parsed statement. */
module LimitRewriter {
  import opened Decimal
  import opened Options
  import opened Sequences
  import opened SqlTokens

  function Lower(s: string): string {
    if s == [] then []
    else [if 'A' <= s[0] <= 'Z' then s[0] - 'A' + 'a' else s[0]] + Lower(s[1..])
  }

  // ----- what the lexer and the grouping guarantee -----

  ghost predicate WellLexed(token: Token)
    decreases token
  {
    match token
    case Leaf(ttype, text, normalized) =>
      && (ttype == Integer ==> text != "" && AllDigits(text))
      && (token.IsKeyword() ==> ((normalized == "LIMIT" && ttype == Keyword) <==> Lower(text) == "limit"))
    case Group(_, _, tokens, value) =>
      value == TextOf(tokens) && forall t | t in tokens :: WellLexed(t)
  }

  ghost predicate AllWellLexed(tokens: seq<Token>) {
    forall t | t in tokens :: WellLexed(t)
  }

  predicate IsLimit(token: Token) {
    token.Leaf? && token.ttype == Keyword && token.normalized == "LIMIT"
  }

  predicate IsInteger(token: Token) {
    token.Leaf? && token.ttype == Integer
  }

  /** `int(token.value)` */
  function IntOf(token: Token): nat
    requires token.Leaf?
  {
    if AllDigits(token.text) then Parse(token.text) else 0
  }

  // ----- extraction -----

  function LimitIndex(tokens: seq<Token>): (i: nat)
    ensures i <= |tokens|
    ensures i < |tokens| ==> IsLimit(tokens[i])
    ensures forall j | 0 <= j < i :: !IsLimit(tokens[j])
  {
    if tokens == [] || IsLimit(tokens[0]) then 0 else 1 + LimitIndex(tokens[1..])
  }

  function CommaIndex(tokens: seq<Token>): (i: nat)
    ensures i <= |tokens|
    ensures i < |tokens| ==> tokens[i].IsPunctuation(",")
    ensures forall j | 0 <= j < i :: !tokens[j].IsPunctuation(",")
  {
    if tokens == [] || tokens[0].IsPunctuation(",") then 0 else 1 + CommaIndex(tokens[1..])
  }

  /** Position of what follows the LIMIT keyword, or the number of tokens. */
  function OperandIndex(tokens: seq<Token>): (i: nat)
    ensures i <= |tokens|
  {
    var k := LimitIndex(tokens);
    if k < |tokens| then NextIndex(tokens, k + 1) else k
  }

  /** The count in `LIMIT count` and in `LIMIT offset, count`. */
  function CountToken(operand: Token): Option<Token> {
    if operand.Group? && operand.kind == IdentifierList then
      var comma := CommaIndex(operand.tokens);
      if comma == |operand.tokens| then None
      else
        var k := NextIndex(operand.tokens, comma + 1);
        if k < |operand.tokens| then Some(operand.tokens[k]) else None
    else Some(operand)
  }

  function ExtractLimit(tokens: seq<Token>): Option<nat>
    requires AllWellLexed(tokens)
  {
    var i := OperandIndex(tokens);
    if i == |tokens| then None
    else
      var count := CountToken(tokens[i]);
      assert WellLexed(tokens[i]);
      if count.Some? && IsInteger(count.value) then Some(IntOf(count.value)) else None
  }

  predicate CommaForm(tokens: seq<Token>) {
    OperandIndex(tokens) < |tokens| && tokens[OperandIndex(tokens)].Group?
  }

  // ----- which limit a statement has -----

  /** `tokens[i]` is the first keyword LIMIT, and `tokens[k]` what follows it after white space. */
  ghost predicate LimitAt(tokens: seq<Token>, i: nat, k: nat) {
    && i < k < |tokens|
    && tokens[i].Leaf? && tokens[i].ttype == Keyword && tokens[i].normalized == "LIMIT"
    && (forall j | 0 <= j < i :: !(tokens[j].Leaf? && tokens[j].ttype == Keyword && tokens[j].normalized == "LIMIT"))
    && (forall j | i < j < k :: tokens[j].Leaf? && tokens[j].ttype == Space)
    && !(tokens[k].Leaf? && tokens[k].ttype == Space)
  }

  /** `tokens[k]` is what follows the first comma of a list after white space. */
  ghost predicate AfterComma(tokens: seq<Token>, i: nat, k: nat) {
    && i < k < |tokens|
    && tokens[i].Leaf? && tokens[i].ttype == Punctuation && tokens[i].text == ","
    && (forall j | 0 <= j < i :: !(tokens[j].Leaf? && tokens[j].ttype == Punctuation && tokens[j].text == ","))
    && (forall j | i < j < k :: tokens[j].Leaf? && tokens[j].ttype == Space)
    && !(tokens[k].Leaf? && tokens[k].ttype == Space)
  }

  lemma OperandMeaning(tokens: seq<Token>, i: nat, k: nat)
    requires LimitAt(tokens, i, k)
    ensures OperandIndex(tokens) == k
  {
    assert IsLimit(tokens[i]) && forall j | 0 <= j < i :: !IsLimit(tokens[j]);
    LimitIndexUnique(tokens, i);
    NextIndexUnique(tokens, i + 1, k);
  }

  /** In a list the count is what follows the first comma, with white space after the comma or not; a
      list without a comma, or with nothing after it, has none. Anything else is its own count. */
  lemma CountMeaning(operand: Token, count: Token)
    ensures operand.Group? && operand.kind == IdentifierList ==>
      (CountToken(operand) == Some(count) <==>
       exists i: nat, k: nat :: AfterComma(operand.tokens, i, k) && operand.tokens[k] == count)
    ensures !(operand.Group? && operand.kind == IdentifierList) ==> CountToken(operand) == Some(operand)
  {
    if operand.Group? && operand.kind == IdentifierList {
      var tokens := operand.tokens;
      var comma := CommaIndex(tokens);
      if comma < |tokens| && NextIndex(tokens, comma + 1) < |tokens| {
        assert AfterComma(tokens, comma, NextIndex(tokens, comma + 1));
      }
      forall i: nat, k: nat | AfterComma(tokens, i, k)
        ensures CountToken(operand) == Some(tokens[k])
      {
        assert tokens[i].IsPunctuation(",") && forall j | 0 <= j < i :: !tokens[j].IsPunctuation(",");
        assert CommaIndex(tokens) == i;
        NextIndexUnique(tokens, i + 1, k);
      }
    }
  }

  /** A statement has the limit `n` exactly when a number with that value follows its first LIMIT,
      alone or after the first comma of a list. */
  lemma ExtractMeaning(tokens: seq<Token>, n: nat)
    requires AllWellLexed(tokens)
    ensures ExtractLimit(tokens) == Some(n) <==>
      exists i: nat, k: nat, count :: LimitAt(tokens, i, k) && Counts(tokens[k], count, n)
  {
    var k := OperandIndex(tokens);
    var i := LimitIndex(tokens);
    if ExtractLimit(tokens) == Some(n) {
      var count := CountToken(tokens[k]).value;
      assert LimitAt(tokens, i, k);
      CountMeaning(tokens[k], count);
      CountIsLexed(tokens[k], count);
      assert Counts(tokens[k], count, n);
    }
    forall i: nat, k: nat, count | LimitAt(tokens, i, k) && Counts(tokens[k], count, n)
      ensures ExtractLimit(tokens) == Some(n)
    {
      OperandMeaning(tokens, i, k);
      CountMeaning(tokens[k], count);
    }
  }

  ghost predicate Counts(operand: Token, count: Token, n: nat) {
    && count.Leaf? && count.ttype == Integer && AllDigits(count.text) && Parse(count.text) == n
    && if operand.Group? && operand.kind == IdentifierList
       then exists i: nat, k: nat :: AfterComma(operand.tokens, i, k) && operand.tokens[k] == count
       else operand == count
  }

  lemma CountIsLexed(operand: Token, count: Token)
    requires WellLexed(operand) && CountToken(operand) == Some(count)
    ensures WellLexed(count)
  {
    if operand.Group? && operand.kind == IdentifierList {
      assert count in operand.tokens;
    }
  }

  // ----- rewriting -----

  function Number(n: nat): Token {
    Leaf(Integer, ToString(n), ToString(n))
  }

  function LimitClause(n: nat): seq<Token> {
    [Leaf(Space, "\n", "\n"), Leaf(Keyword, "LIMIT", "LIMIT"), Leaf(Space, " ", " "), Number(n)]
  }

  function OffsetAnd(first: Token, n: nat): Token {
    var tokens := [first, Leaf(Punctuation, ",", ","), Leaf(Space, " ", " "), Number(n)];
    Group(IdentifierList, None, tokens, TextOf(tokens))
  }

  /** The tokens of the text the rewriter returns. */
  function Rewritten(tokens: seq<Token>, n: nat, force: bool): seq<Token>
    requires AllWellLexed(tokens)
  {
    var limit := ExtractLimit(tokens);
    if limit.None? || limit.value == 0 then tokens + LimitClause(n)
    else
      var i := OperandIndex(tokens);
      var operand := tokens[i];
      if IsInteger(operand) then
        if force || n < limit.value then tokens[i := Number(n)] else tokens
      else if operand.Group? && Identifiers(operand.tokens) != [] then
        tokens[i := OffsetAnd(Identifiers(operand.tokens)[0], n)]
      else tokens
  }

  // ----- laws -----

  /** The number of LIMIT keywords on the statement's own level. */
  function Limits(tokens: seq<Token>): nat {
    if tokens == [] then 0 else (if IsLimit(tokens[0]) then 1 else 0) + Limits(tokens[1..])
  }

  /** What the limit should be afterwards. */
  function Intended(tokens: seq<Token>, n: nat, force: bool): nat
    requires AllWellLexed(tokens)
  {
    var old' := ExtractLimit(tokens);
    if old'.None? || force || CommaForm(tokens) then n else if n < old'.value then n else old'.value
  }

  lemma {:induction false} LimitIndexUnique(tokens: seq<Token>, i: nat)
    requires i <= |tokens| && (forall j | 0 <= j < i :: !IsLimit(tokens[j]))
    requires i < |tokens| ==> IsLimit(tokens[i])
    ensures LimitIndex(tokens) == i
  {
  }

  lemma NextIndexUnique(tokens: seq<Token>, from: nat, i: nat)
    requires from <= i <= |tokens| && (forall j | from <= j < i :: tokens[j].IsSpace())
    requires i < |tokens| ==> !tokens[i].IsSpace()
    ensures NextIndex(tokens, from) == i
  {
  }

  /** Overwriting the operand with something that is neither white space nor LIMIT leaves it the
      operand. */
  lemma OperandStays(tokens: seq<Token>, t: Token)
    requires OperandIndex(tokens) < |tokens| && !t.IsSpace() && !IsLimit(t)
    ensures OperandIndex(tokens[OperandIndex(tokens) := t]) == OperandIndex(tokens)
  {
    var k, i := LimitIndex(tokens), OperandIndex(tokens);
    var after := tokens[i := t];
    LimitIndexUnique(after, k);
    NextIndexUnique(after, k + 1, i);
  }

  lemma NumberReads(n: nat)
    ensures WellLexed(Number(n)) && IntOf(Number(n)) == n
  {
    ParseToString(n);
  }

  lemma CommaListReads(first: Token, n: nat)
    requires WellLexed(first) && !first.IsPunctuation(",")
    ensures WellLexed(OffsetAnd(first, n)) && CountToken(OffsetAnd(first, n)) == Some(Number(n))
  {
    NumberReads(n);
    var tokens := OffsetAnd(first, n).tokens;
    assert CommaIndex(tokens) == 1;
    assert NextIndex(tokens, 2) == 3;
  }

  lemma {:induction false} FirstIdentifier(tokens: seq<Token>)
    requires Identifiers(tokens) != []
    ensures Identifiers(tokens)[0] in tokens
    ensures !Identifiers(tokens)[0].IsPunctuation(",") && !Identifiers(tokens)[0].IsSpace()
  {
    if tokens[0].IsSpace() || tokens[0].IsPunctuation(",") {
      FirstIdentifier(tokens[1..]);
    }
  }

  lemma {:induction false} CountIsAnIdentifier(tokens: seq<Token>, i: nat)
    requires i < |tokens| && IsInteger(tokens[i])
    ensures Identifiers(tokens) != []
  {
    if i > 0 {
      CountIsAnIdentifier(tokens[1..], i - 1);
    }
  }

  /** With a positive limit the operand is either the number itself or `offset, count`. */
  lemma PositiveForms(tokens: seq<Token>)
    requires AllWellLexed(tokens) && ExtractLimit(tokens).Some?
    ensures var operand := tokens[OperandIndex(tokens)];
      && (CommaForm(tokens) ==> operand.kind == IdentifierList && Identifiers(operand.tokens) != [])
      && (!CommaForm(tokens) ==> IsInteger(operand) && ExtractLimit(tokens) == Some(IntOf(operand)))
  {
    var operand := tokens[OperandIndex(tokens)];
    assert WellLexed(operand);
    if operand.Group? && operand.kind == IdentifierList {
      CountIsAnIdentifier(operand.tokens, NextIndex(operand.tokens, CommaIndex(operand.tokens) + 1));
    }
  }

  /** Rewriting an existing positive limit: it becomes what was intended, and nothing else on the
      statement's own level changes. */
  ghost predicate RewrittenWell(tokens: seq<Token>, n: nat, force: bool, r: seq<Token>)
    requires AllWellLexed(tokens)
  {
    && AllWellLexed(r) && ExtractLimit(r) == Some(Intended(tokens, n, force))
    && |r| == |tokens| && OperandIndex(r) == OperandIndex(tokens) && CommaForm(r) == CommaForm(tokens)
    && (forall i | 0 <= i < |tokens| && i != OperandIndex(tokens) :: r[i] == tokens[i])
    && (CommaForm(tokens) && Identifiers(tokens[OperandIndex(tokens)].tokens) != [] ==>
          r[OperandIndex(r)] == OffsetAnd(Identifiers(tokens[OperandIndex(tokens)].tokens)[0], n))
  }

  lemma CommaListIsRewritten(tokens: seq<Token>, n: nat, force: bool)
    requires AllWellLexed(tokens) && ExtractLimit(tokens).Some? && ExtractLimit(tokens).value > 0 && CommaForm(tokens)
    ensures RewrittenWell(tokens, n, force, Rewritten(tokens, n, force))
  {
    PositiveForms(tokens);
    var i := OperandIndex(tokens);
    assert WellLexed(tokens[i]);
    var first := Identifiers(tokens[i].tokens)[0];
    FirstIdentifier(tokens[i].tokens);
    CommaListReads(first, n);
    NumberReads(n);
    OperandStays(tokens, OffsetAnd(first, n));
  }

  lemma NumberIsRewritten(tokens: seq<Token>, n: nat, force: bool)
    requires AllWellLexed(tokens) && ExtractLimit(tokens).Some? && ExtractLimit(tokens).value > 0 && !CommaForm(tokens)
    ensures RewrittenWell(tokens, n, force, Rewritten(tokens, n, force))
  {
    PositiveForms(tokens);
    NumberReads(n);
    OperandStays(tokens, Number(n));
  }

  lemma PositiveLimitIsRewritten(tokens: seq<Token>, n: nat, force: bool)
    requires AllWellLexed(tokens) && ExtractLimit(tokens).Some? && ExtractLimit(tokens).value > 0
    ensures RewrittenWell(tokens, n, force, Rewritten(tokens, n, force))
  {
    if CommaForm(tokens) {
      CommaListIsRewritten(tokens, n, force);
    } else {
      NumberIsRewritten(tokens, n, force);
    }
  }

  lemma {:induction false} LimitsOfJoin(a: seq<Token>, b: seq<Token>)
    ensures Limits(a + b) == Limits(a) + Limits(b)
  {
    if a == [] {
      assert a + b == b;
    } else {
      LimitsOfJoin(a[1..], b);
      assert (a + b)[1..] == a[1..] + b;
    }
  }

  lemma {:induction false} NoLimits(tokens: seq<Token>)
    ensures Limits(tokens) == 0 <==> LimitIndex(tokens) == |tokens|
  {
    if tokens != [] {
      NoLimits(tokens[1..]);
    }
  }

  lemma ClauseLimits(n: nat)
    ensures Limits(LimitClause(n)) == 1
  {
    var c := LimitClause(n);
    assert Limits(c[3..]) == 0 by { assert c[3..][1..] == []; }
    assert Limits(c[2..]) == 0 by { assert c[2..][1..] == c[3..]; }
    assert Limits(c[1..]) == 1 by { assert c[1..][1..] == c[2..]; }
  }

  lemma LimitIsAKeyword()
    ensures Lower("LIMIT") == "limit"
  {
    var s := "LIMIT";
    assert s[1..] == "IMIT" && s[1..][1..] == "MIT" && s[1..][1..][1..] == "IT" && s[1..][1..][1..][1..] == "T";
    assert s[1..][1..][1..][1..][1..] == "";
  }

  lemma ClauseTokens(tokens: seq<Token>, n: nat)
    ensures var r, k := tokens + LimitClause(n), |tokens|;
      && |r| == k + 4 && r[..k] == tokens && r[k].IsSpace()
      && IsLimit(r[k + 1]) && r[k + 2].IsSpace() && r[k + 3] == Number(n)
  {
  }

  lemma AppendedOperand(tokens: seq<Token>, n: nat)
    requires Limits(tokens) == 0
    ensures var r := tokens + LimitClause(n);
      OperandIndex(r) == |tokens| + 3 && |r| == |tokens| + 4 && r[|tokens| + 3] == Number(n)
  {
    var r, k := tokens + LimitClause(n), |tokens|;
    NoLimits(tokens);
    ClauseTokens(tokens, n);
    assert forall j | 0 <= j < k :: r[j] == r[..k][j] && !IsLimit(tokens[j]);
    OperandMeaning(r, k + 1, k + 3);
  }

  /** Appending the clause to a statement without LIMIT gives it exactly that limit. */
  lemma ClauseIsAppended(tokens: seq<Token>, n: nat)
    requires AllWellLexed(tokens) && Limits(tokens) == 0
    ensures var r := tokens + LimitClause(n);
      AllWellLexed(r) && ExtractLimit(r) == Some(n) && !CommaForm(r)
  {
    LimitIsAKeyword();
    NumberReads(n);
    AppendedOperand(tokens, n);
  }

  lemma {:induction false} LimitsReplaced(tokens: seq<Token>, i: nat, t: Token)
    requires i < |tokens| && IsLimit(tokens[i]) == IsLimit(t)
    ensures Limits(tokens[i := t]) == Limits(tokens)
  {
    var after := tokens[i := t];
    if i > 0 {
      LimitsReplaced(tokens[1..], i - 1, t);
      assert after[1..] == tokens[1..][i - 1 := t];
    } else {
      assert after[1..] == tokens[1..];
    }
  }

  /** The rewriter does what it promises - one LIMIT clause, with the intended limit - exactly on
      statements without a LIMIT clause and on those whose limit is a positive number. */
  lemma RewritingExactly(tokens: seq<Token>, n: nat, force: bool)
    requires AllWellLexed(tokens) && Limits(tokens) <= 1
    ensures AllWellLexed(Rewritten(tokens, n, force))
    ensures var r := Rewritten(tokens, n, force);
      (Limits(r) == 1 && ExtractLimit(r) == Some(Intended(tokens, n, force)))
      <==> Limits(tokens) == 0 || (ExtractLimit(tokens).Some? && ExtractLimit(tokens).value > 0)
  {
    var r := Rewritten(tokens, n, force);
    NoLimits(tokens);
    if Limits(tokens) == 0 {
      ClauseIsAppended(tokens, n);
      ClauseLimits(n);
      LimitsOfJoin(tokens, LimitClause(n));
    } else if ExtractLimit(tokens).Some? && ExtractLimit(tokens).value > 0 {
      PositiveLimitIsRewritten(tokens, n, force);
      PositiveForms(tokens);
      var i := OperandIndex(tokens);
      if r != tokens {
        assert r == tokens[i := r[i]];
        LimitsReplaced(tokens, i, r[i]);
      }
    } else {
      ClauseLimits(n);
      LimitsOfJoin(tokens, LimitClause(n));
      NumberReads(n);
      assert forall t | t in r :: t in tokens || t in LimitClause(n);
      ClauseIsAppended([], n);
      assert [] + LimitClause(n) == LimitClause(n);
    }
  }

  lemma LoweringAppended(tokens: seq<Token>, n: nat, m: nat)
    requires AllWellLexed(tokens) && Limits(tokens) == 0 && n > 0 && AllWellLexed(tokens + LimitClause(n))
    ensures Rewritten(tokens + LimitClause(n), m, false) == tokens + LimitClause(if n < m then n else m)
  {
    ClauseIsAppended(tokens, n);
    AppendedOperand(tokens, n);
    ClauseReplaced(tokens, n, m);
  }


  lemma ClauseReplaced(tokens: seq<Token>, n: nat, m: nat)
    ensures (tokens + LimitClause(n))[|tokens| + 3 := Number(m)] == tokens + LimitClause(m)
  {
  }

  function Least(n: nat, m: nat): nat {
    if n < m then n else m
  }

  /** A limit of zero is taken for none: the next rewriting appends a second clause. */
  lemma ZeroIsNoLimit(tokens: seq<Token>, m: nat)
    requires AllWellLexed(tokens)
    requires (Limits(tokens) == 0 || (ExtractLimit(tokens).Some? && ExtractLimit(tokens).value > 0))
    ensures var r := Rewritten(tokens, 0, false);
      AllWellLexed(r) && Rewritten(r, m, false) == r + LimitClause(m)
  {
    NoLimits(tokens);
    if Limits(tokens) == 0 {
      ClauseIsAppended(tokens, 0);
    } else {
      PositiveForms(tokens);
      PositiveLimitIsRewritten(tokens, 0, false);
    }
  }

  lemma NumberIsInjective(n: nat, m: nat)
    requires Number(n) == Number(m)
    ensures n == m
  {
    ParseToString(n);
    ParseToString(m);
  }

  lemma OffsetAndReads(first: Token, n: nat)
    requires !first.IsSpace() && !first.IsPunctuation(",")
    ensures Identifiers(OffsetAnd(first, n).tokens) != [] && Identifiers(OffsetAnd(first, n).tokens)[0] == first
  {
  }

  lemma LoweringOverwrites(tokens: seq<Token>, n: nat, m: nat)
    requires AllWellLexed(tokens) && CommaForm(tokens) && n > 0
    requires ExtractLimit(tokens).Some? && ExtractLimit(tokens).value > 0
    ensures var r := Rewritten(tokens, n, false);
      AllWellLexed(r) && Rewritten(r, m, false) == Rewritten(tokens, m, false)
    ensures Rewritten(tokens, m, false) == Rewritten(tokens, n, false) ==> m == n
  {
    var i := OperandIndex(tokens);
    PositiveForms(tokens);
    PositiveLimitIsRewritten(tokens, n, false);
    var first := Identifiers(tokens[i].tokens)[0];
    FirstIdentifier(tokens[i].tokens);
    OffsetAndReads(first, n);
    var r := Rewritten(tokens, n, false);
    assert Rewritten(r, m, false) == r[i := OffsetAnd(first, m)] == tokens[i := OffsetAnd(first, m)];
    if Rewritten(tokens, m, false) == r {
      assert OffsetAnd(first, m).tokens[3] == OffsetAnd(first, n).tokens[3];
      NumberIsInjective(m, n);
    }
  }

  /** Lowering twice is lowering to the smaller bound, exactly when the first bound is not zero and,
      in the comma form, the second is no larger. */
  lemma LoweringComposes(tokens: seq<Token>, n: nat, m: nat)
    requires AllWellLexed(tokens)
    requires Limits(tokens) == 0 || (ExtractLimit(tokens).Some? && ExtractLimit(tokens).value > 0)
    ensures AllWellLexed(Rewritten(tokens, n, false))
    ensures Rewritten(Rewritten(tokens, n, false), m, false) == Rewritten(tokens, Least(n, m), false)
      <==> n > 0 && (!CommaForm(tokens) || m <= n)
  {
    NoLimits(tokens);
    if n == 0 {
      ZeroIsNoLimit(tokens, m);
    } else if CommaForm(tokens) {
      LoweringOverwrites(tokens, n, m);
    } else if Limits(tokens) == 0 {
      ClauseIsAppended(tokens, n);
      LoweringAppended(tokens, n, m);
    } else {
      LoweringNumber(tokens, n, m);
    }
  }

  lemma LoweringNumber(tokens: seq<Token>, n: nat, m: nat)
    requires AllWellLexed(tokens) && !CommaForm(tokens) && n > 0
    requires ExtractLimit(tokens).Some? && ExtractLimit(tokens).value > 0
    ensures var r := Rewritten(tokens, n, false);
      AllWellLexed(r) && Rewritten(r, m, false) == Rewritten(tokens, Least(n, m), false)
  {
    PositiveForms(tokens);
    PositiveLimitIsRewritten(tokens, n, false);
    NumberReads(n);
    PositiveForms(Rewritten(tokens, n, false));
  }

  /** The lower of the limit there is and the new one. */
  function LowerLimit(tokens: seq<Token>, n: nat): nat
    requires AllWellLexed(tokens)
  {
    if ExtractLimit(tokens).None? then n else Least(n, ExtractLimit(tokens).value)
  }

  /** Unforced, the rewriter does what its description promises - one LIMIT clause, with the lower
      of the two limits - exactly on statements without a LIMIT clause and on those with a positive
      number, in the comma form only while the new limit is no larger. */
  lemma LoweringExactly(tokens: seq<Token>, n: nat)
    requires AllWellLexed(tokens) && Limits(tokens) <= 1
    ensures AllWellLexed(Rewritten(tokens, n, false))
    ensures var r := Rewritten(tokens, n, false);
      (Limits(r) == 1 && ExtractLimit(r) == Some(LowerLimit(tokens, n))) <==>
        (Limits(tokens) == 0
         || (ExtractLimit(tokens).Some? && ExtractLimit(tokens).value > 0
             && (!CommaForm(tokens) || n <= ExtractLimit(tokens).value)))
  {
    NoLimits(tokens);
    RewritingExactly(tokens, n, false);
    if Limits(tokens) > 0 && ExtractLimit(tokens).Some? && ExtractLimit(tokens).value > 0 {
      PositiveLimitIsRewritten(tokens, n, false);
    } else if Limits(tokens) > 0 {
      LimitsOfJoin(tokens, LimitClause(n));
      ClauseLimits(n);
    }
  }

  /** `LIMIT offset, count` is always overwritten: the last bound wins, however large. */
  lemma CommaFormIsOverwritten(tokens: seq<Token>, n: nat, force: bool)
    requires AllWellLexed(tokens) && CommaForm(tokens) && ExtractLimit(tokens).Some? && ExtractLimit(tokens).value > 0
    ensures AllWellLexed(Rewritten(tokens, n, force)) && ExtractLimit(Rewritten(tokens, n, force)) == Some(n)
  {
    PositiveLimitIsRewritten(tokens, n, force);
  }

  /** The rewritten text: without a limit, or with the limit zero, the clause is appended; a number is
      replaced by the new limit when forced or lowered; a list keeps its first member and gets the new
      limit; everything before and after stays. */
  lemma RewrittenText(tokens: seq<Token>, n: nat, force: bool)
    requires AllWellLexed(tokens)
    ensures ExtractLimit(tokens) in {None, Some(0)} ==>
      TextOf(Rewritten(tokens, n, force)) == TextOf(tokens) + ("\nLIMIT " + ToString(n))
    ensures ExtractLimit(tokens) !in {None, Some(0)} ==>
      var k := OperandIndex(tokens);
      && k < |tokens| && (tokens[k].Group? ==> Identifiers(tokens[k].tokens) != [])
      && TextOf(Rewritten(tokens, n, force)) ==
         TextOf(tokens[..k]) +
           ((if tokens[k].Group? then Text(Identifiers(tokens[k].tokens)[0]) + ", " + ToString(n)
             else if force || n < ExtractLimit(tokens).value then ToString(n)
             else tokens[k].text)
            + TextOf(tokens[k + 1..]))
  {
    if ExtractLimit(tokens) in {None, Some(0)} {
      TextOfJoin(tokens, LimitClause(n));
      ClauseText(n);
    } else {
      PositiveForms(tokens);
      OperandText(tokens, n, force);
      var k, r := OperandIndex(tokens), Rewritten(tokens, n, force);
      TextAround(r, k);
      assert r[..k] == tokens[..k] && r[k + 1..] == tokens[k + 1..];
    }
  }

  lemma OperandText(tokens: seq<Token>, n: nat, force: bool)
    requires AllWellLexed(tokens) && ExtractLimit(tokens).Some? && ExtractLimit(tokens).value > 0
    ensures var k, r := OperandIndex(tokens), Rewritten(tokens, n, force);
      && k < |tokens| == |r| && (tokens[k].Group? ==> Identifiers(tokens[k].tokens) != [])
      && (forall i | 0 <= i < |tokens| && i != k :: r[i] == tokens[i])
      && Text(r[k]) == if tokens[k].Group? then Text(Identifiers(tokens[k].tokens)[0]) + ", " + ToString(n)
                       else if force || n < ExtractLimit(tokens).value then ToString(n)
                       else tokens[k].text
  {
    PositiveForms(tokens);
    var k := OperandIndex(tokens);
    if tokens[k].Group? {
      OffsetText(Identifiers(tokens[k].tokens)[0], n);
    }
  }

  lemma TextAround(tokens: seq<Token>, k: nat)
    requires k < |tokens|
    ensures TextOf(tokens) == TextOf(tokens[..k]) + (Text(tokens[k]) + TextOf(tokens[k + 1..]))
  {
    assert tokens == tokens[..k] + tokens[k..];
    TextOfJoin(tokens[..k], tokens[k..]);
    assert tokens[k..][1..] == tokens[k + 1..];
  }

  // ----- the rewriter itself -----

  /** The text made of the values as they stand. */
  function Values(tokens: seq<Token>): string {
    if tokens == [] then "" else (if tokens[0].Leaf? then tokens[0].text else tokens[0].value) + Values(tokens[1..])
  }

  class LimitedQuery {
    // the top-level tokens of the one parsed statement; the rewriter overwrites a value in place
    var tokens: seq<Token>
    const limit: Option<nat>

    constructor (tokens: seq<Token>)
      requires AllWellLexed(tokens)
      ensures this.tokens == tokens && limit == ExtractLimit(tokens)
    {
      this.tokens := tokens;
      limit := ExtractLimit(tokens);
    }

    method SetOrUpdateQueryLimit(newLimit: nat, force: bool) returns (sql: string)
      requires AllWellLexed(tokens) && limit == ExtractLimit(tokens)
      modifies this
      ensures sql == TextOf(Rewritten(old(tokens), newLimit, force))
    {
      if limit.None? || limit.value == 0 {
        ValuesAreText(tokens);
        TextOfJoin(tokens, LimitClause(newLimit));
        ClauseText(newLimit);
        return Values(tokens) + "\nLIMIT " + ToString(newLimit);
      }
      ghost var before := tokens;
      PositiveForms(before);
      var limitPos := 0;
      while !(tokens[limitPos].IsKeyword() && Lower(tokens[limitPos].text) == "limit")
        invariant limitPos <= LimitIndex(before) < |tokens| && tokens == before
        decreases |tokens| - limitPos
      {
        assert WellLexed(before[limitPos]) && WellLexed(before[LimitIndex(before)]);
        limitPos := limitPos + 1;
      }
      assert WellLexed(before[limitPos]);
      var i := NextIndex(tokens, limitPos + 1);
      var operand := tokens[i];
      assert WellLexed(operand) && i == OperandIndex(before);
      if IsInteger(operand) && (force || newLimit < IntOf(operand)) {
        tokens := tokens[i := operand.(text := ToString(newLimit))];
        ReplacedText(before, i, tokens[i], Number(newLimit));
      } else if operand.Group? {
        var first := Identifiers(operand.tokens)[0];
        FirstIdentifier(operand.tokens);
        tokens := tokens[i := operand.(value := Text(first) + ", " + ToString(newLimit))];
        OffsetText(first, newLimit);
        ReplacedText(before, i, tokens[i], OffsetAnd(first, newLimit));
      } else {
        ValuesAreText(before);
      }
      sql := Values(tokens);
    }
  }

  lemma {:induction false} ValuesAreText(tokens: seq<Token>)
    requires AllWellLexed(tokens)
    ensures Values(tokens) == TextOf(tokens)
  {
    if tokens != [] {
      assert WellLexed(tokens[0]);
      ValuesAreText(tokens[1..]);
    }
  }

  lemma {:induction false} TextOfJoin(a: seq<Token>, b: seq<Token>)
    ensures TextOf(a + b) == TextOf(a) + TextOf(b)
  {
    if a == [] {
      assert a + b == b;
    } else {
      assert (a + b)[1..] == a[1..] + b;
      TextOfJoin(a[1..], b);
      Regroup(Text(a[0]), TextOf(a[1..]), TextOf(b));
    }
  }

  lemma TextOfFour(c: seq<Token>)
    requires |c| == 4
    ensures TextOf(c) == Text(c[0]) + (Text(c[1]) + (Text(c[2]) + Text(c[3])))
  {
    assert TextOf(c[3..]) == Text(c[3]) by { assert c[3..][1..] == []; }
    assert TextOf(c[2..]) == Text(c[2]) + Text(c[3]) by { assert c[2..][1..] == c[3..]; }
    assert TextOf(c[1..]) == Text(c[1]) + (Text(c[2]) + Text(c[3])) by { assert c[1..][1..] == c[2..]; }
  }

  lemma ClauseText(n: nat)
    ensures TextOf(LimitClause(n)) == "\nLIMIT " + ToString(n)
  {
    TextOfFour(LimitClause(n));
    assert "\n" + ("LIMIT" + (" " + ToString(n))) == "\nLIMIT " + ToString(n);
  }

  lemma OffsetText(first: Token, n: nat)
    ensures Text(OffsetAnd(first, n)) == Text(first) + ", " + ToString(n)
  {
    TextOfFour(OffsetAnd(first, n).tokens);
    assert Text(first) + ("," + (" " + ToString(n))) == Text(first) + ", " + ToString(n);
  }

  /** Overwriting one value changes the text as overwriting the token would. */
  lemma {:induction false} ReplacedText(tokens: seq<Token>, i: nat, marked: Token, reparsed: Token)
    requires AllWellLexed(tokens) && i < |tokens|
    requires (if marked.Leaf? then marked.text else marked.value) == Text(reparsed)
    ensures Values(tokens[i := marked]) == TextOf(tokens[i := reparsed])
  {
    var a, b := tokens[i := marked], tokens[i := reparsed];
    if i == 0 {
      assert a[1..] == tokens[1..] && b[1..] == tokens[1..];
      ValuesAreText(tokens[1..]);
    } else {
      assert WellLexed(tokens[0]);
      ReplacedText(tokens[1..], i - 1, marked, reparsed);
      assert a[1..] == tokens[1..][i - 1 := marked] && b[1..] == tokens[1..][i - 1 := reparsed];
    }
  }
}
