/** Redis stream record ids and the text arithmetic the WebSocket server does on them. */
module StreamIds {
  import opened Decimal

  /** A record id `ms-seq`: a millisecond timestamp and a counter within that millisecond. */
  datatype StreamId = StreamId(ms: nat, seqNo: nat) {
    predicate Lt(other: StreamId) {
      ms < other.ms || (ms == other.ms && seqNo < other.seqNo)
    }

    predicate Le(other: StreamId) {
      this == other || Lt(other)
    }

    function Succ(): StreamId {
      StreamId(ms, seqNo + 1)
    }

    function Render(): string {
      ToString(ms) + "-" + ToString(seqNo)
    }
  }

  /** Position of the first `-` at or after `from`, or the length of the text. */
  function Dash(s: string, from: nat): (i: nat)
    requires from <= |s|
    ensures from <= i <= |s|
    ensures forall j | from <= j < i :: s[j] != '-'
    ensures i < |s| ==> s[i] == '-'
    decreases |s| - from
  {
    if from == |s| || s[from] == '-' then from else Dash(s, from + 1)
  }

  /** `Number(part) + 1` printed again, for a part made of decimal digits (the empty part counts
      as zero); any other part is treated as not a number. */
  function PlusOne(part: string): string {
    if AllDigits(part) then ToString(Parse(part) + 1) else "NaN"
  }

  function IncrementId(id: string): string {
    var first := Dash(id, 0);
    if first == |id| then id
    else id[..first] + "-" + PlusOne(id[first + 1..Dash(id, first + 1)])
  }

  /** 2^53: the first natural number at which JavaScript's `Number` stops being exact. */
  const SAFE_LIMIT: nat := 0x20_0000_0000_0000

  lemma {:induction false} IncrementIdIsSuccessor(id: StreamId)
    requires id.seqNo < 0x20_0000_0000_0000
    ensures IncrementId(id.Render()) == StreamId(id.ms, id.seqNo + 1).Render()
  {
    var s := id.Render();
    var head, tail := ToString(id.ms), ToString(id.seqNo);
    assert forall i | 0 <= i < |head| :: IsDigit(s[i]);
    assert forall i | |head| + 1 <= i < |s| :: s[i] == tail[i - |head| - 1];
    assert s[|head|] == '-';
    assert Dash(s, 0) == |head|;
    assert s[..|head|] == head;
    assert Dash(s, |head| + 1) == |s|;
    assert s[|head| + 1..|s|] == tail;
    ParseToString(id.seqNo);
  }

  /** The successor is exact: no id lies between an id and its successor. */
  lemma NothingBetween(x: StreamId, y: StreamId)
    ensures x.Lt(y) <==> x.Succ().Le(y)
  {
  }

  /** A text without a dash is left alone, so the range read that follows is given the client's
      own text and not a successor. */
  lemma MalformedIsUnchanged(id: string)
    requires '-' !in id
    ensures IncrementId(id) == id
  {
    assert forall i | 0 <= i < |id| :: id[i] != '-';
  }

  lemma {:induction false} RenderIsInjective(x: StreamId, y: StreamId)
    requires x.Render() == y.Render()
    ensures x == y
  {
    SplitIsUnique(ToString(x.ms) + "-", ToString(y.ms) + "-", x.seqNo, y.seqNo);
    var a, b := ToString(x.ms), ToString(y.ms);
    assert a == (a + "-")[..|a|] && b == (b + "-")[..|b|];
    ParseToString(x.ms);
    ParseToString(y.ms);
  }
}
