/** The token trees that the SQL parser hands to ParsedQuery. */
module SqlTokens {
  import opened Options

  /** The token types the code tells apart; `KeywordSub` and `NameSub` are proper subtypes. */
  datatype TType = Keyword | KeywordSub | Name | NameSub | StringLit | Punctuation | Space | Integer | Other

  datatype Kind = Identifier | IdentifierList | Parenthesis | OtherGroup

  /** A group's value is fixed when it is built; the rewriter may overwrite it. */
  datatype Token =
    | Leaf(ttype: TType, text: string, normalized: string)
    | Group(kind: Kind, alias: Option<string>, tokens: seq<Token>, value: string)
  {
    predicate IsKeyword() {
      Leaf? && (ttype == Keyword || ttype == KeywordSub)
    }

    predicate IsName() {
      Leaf? && (ttype == Name || ttype == NameSub || ttype == StringLit)
    }

    predicate IsPunctuation(mark: string) {
      Leaf? && ttype == Punctuation && text == mark
    }

    predicate IsSpace() {
      Leaf? && ttype == Space
    }

    predicate IsIdentifier() {
      Group? && (kind == Identifier || kind == IdentifierList)
    }
  }

  /** The text of a token tree: its leaves, in order. */
  function Text(token: Token): string
    decreases token
  {
    match token
    case Leaf(_, text, _) => text
    case Group(_, _, tokens, _) => TextOf(tokens)
  }

  function TextOf(tokens: seq<Token>): string
    decreases tokens
  {
    if tokens == [] then "" else Text(tokens[0]) + TextOf(tokens[1..])
  }

  /** The members of an identifier list: everything but white space and commas. */
  function Identifiers(tokens: seq<Token>): seq<Token> {
    if tokens == [] then []
    else if tokens[0].IsSpace() || tokens[0].IsPunctuation(",") then Identifiers(tokens[1..])
    else [tokens[0]] + Identifiers(tokens[1..])
  }

  lemma {:induction false} IdentifiersAreMembers(tokens: seq<Token>)
    ensures forall t | t in Identifiers(tokens) :: t in tokens
  {
    if tokens != [] {
      IdentifiersAreMembers(tokens[1..]);
    }
  }

  /** White space or a comma. */
  predicate Separates(t: Token) {
    t.Leaf? && (t.ttype == Space || (t.ttype == Punctuation && t.text == ","))
  }

  /** Exactly the members that do not separate, starting with the first of them. */
  lemma {:induction false} IdentifiersMeaning(tokens: seq<Token>)
    ensures forall t :: t in Identifiers(tokens) <==> t in tokens && !Separates(t)
    ensures forall i | 0 <= i < |tokens| && !Separates(tokens[i]) && (forall j | 0 <= j < i :: Separates(tokens[j])) ::
      Identifiers(tokens) != [] && Identifiers(tokens)[0] == tokens[i]
  {
    if tokens != [] {
      IdentifiersMeaning(tokens[1..]);
      assert tokens == [tokens[0]] + tokens[1..];
    }
  }

  /** Position of the first token at or after `from` that is not white space, if any. */
  function NextIndex(tokens: seq<Token>, from: nat): (i: nat)
    requires from <= |tokens|
    ensures from <= i <= |tokens|
    ensures i < |tokens| ==> !tokens[i].IsSpace()
    ensures forall j | from <= j < i :: tokens[j].IsSpace()
    decreases |tokens| - from
  {
    if from == |tokens| || !tokens[from].IsSpace() then from else NextIndex(tokens, from + 1)
  }
}
