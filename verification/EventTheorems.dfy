/** The promises of the event server, for every run. */
module EventTheorems {
  import opened EventSafety
  import opened EventSystem
  import opened Options
  import opened Registries
  import opened Sequences
  import opened StreamIds

  /** In every reachable state each live socket is listed exactly once, under its own channel; no
      id is in two channels and no channel is empty. A sweep followed by a collection makes the
      listed ids and the tracked ids the same set, however far apart they were before. */
  lemma RegistriesAgree(cfg: Config, s: State, order: seq<ChannelId>)
    requires Reachable(cfg, s) && forall c :: c in order <==> c in s.reg.channels
    ensures Agree(s.reg)
    ensures var t := Next(cfg, Next(cfg, s, SweepSockets), Collect(order));
      ListedIds(t.reg) == t.reg.sockets.Keys
  {
    ReachableInv(cfg, s);
    SweepThenCollectAgrees(s.reg, s.now, cfg.timeout, order);
    SweptAndCollected(cfg, s, order);
  }

  lemma SweptAndCollected(cfg: Config, s: State, order: seq<ChannelId>)
    requires forall c :: c in order <==> c in s.reg.channels
    ensures Next(cfg, Next(cfg, s, SweepSockets), Collect(order)).reg ==
      CleanAll(Sweep(s.reg, s.now, cfg.timeout), order)
  {
  }

  // ----- reconnection -----

  /** Which stream the client's last id was taken from: an event sent by the global reader carries
      its id in the global stream, one sent by a range read its id in the channel's own stream. */
  datatype Numbering = ByChannelStream | ByGlobalStream

  function IdIn(s: State, order: Numbering, i: nat): StreamId
    requires i < |s.log| && s.log[i].payload.Job? && s.log[i].payload.number < |s.scoped|
  {
    if order.ByGlobalStream? then s.log[i].id else Scoped(s, i).id
  }

  /** Record `i` of the global stream is an event of this connection's channel that is newer, in the
      numbering of the client's last id, than the last one the client has. */
  predicate Wanted(s: State, c: Conn, order: Numbering, i: nat)
    requires i < |s.log|
  {
    && s.log[i].On(c.channel) && s.log[i].payload.number < |s.scoped|
    && c.lastId.Some? && c.lastId.value.Lt(IdIn(s, order, i))
  }

  /** The same event in its channel's own stream. */
  function Scoped(s: State, i: nat): Event
    requires i < |s.log| && s.log[i].payload.Job? && s.log[i].payload.number < |s.scoped|
  {
    s.scoped[s.log[i].payload.number]
  }

  /** How often `ws.send` of a socket was called for the event: by the global reader, and by range
      reads. */
  function Calls(s: State, k: SocketId, i: nat): nat
    requires i < |s.log| && s.log[i].payload.Job? && s.log[i].payload.number < |s.scoped|
  {
    s.byReader[(k, s.log[i])] + s.byRange[(k, Scoped(s, i))]
  }

  /** Nothing the client wants, among what the global reader has passed, is missing. */
  ghost predicate NoGap(s: State, k: SocketId, c: Conn, order: Numbering) {
    forall i | 0 <= i < |s.log| && i < Position(s) && Wanted(s, c, order, i) :: Calls(s, k, i) > 0
  }

  /** Nothing is missing and nothing comes twice. */
  ghost predicate OnceEach(s: State, k: SocketId, c: Conn, order: Numbering) {
    forall i | 0 <= i < |s.log| && i < Position(s) && Wanted(s, c, order, i) :: Calls(s, k, i) == 1
  }

  /** The record was covered by a range read handled on the channel since the connection joined. */
  ghost predicate RangeCovered(s: State, c: Conn, i: nat)
    requires i < |s.log| && s.log[i].payload.Job? && s.log[i].payload.number < |s.scoped|
  {
    exists r :: r in c.replies && r.Covers(Scoped(s, i), s.log[i].payload.number)
  }

  /** The event's id in its channel's stream lies after the client's last id and, once the connection
      noted a cursor, not after that. */
  predicate InReadRange(s: State, c: Conn, i: nat)
    requires i < |s.log| && s.log[i].payload.Job? && s.log[i].payload.number < |s.scoped|
  {
    && c.lastId.Some? && c.lastId.value.Lt(Scoped(s, i).id)
    && (c.cursor.Some? ==> Scoped(s, i).id.Le(c.cursor.value))
  }

  /** What the client wants and the reader had already passed at connection time must lie, by the
      ids of the channel's own stream, within the range read. */
  ghost predicate IdsFit(s: State, c: Conn, order: Numbering) {
    c.cursor.Some? && forall i | 0 <= i < |s.log| && i < c.joined && Wanted(s, c, order, i) :: InReadRange(s, c, i)
  }

  /** The calls for an event follow from positions and ids alone. */
  lemma CallsExactly(cfg: Config, s: State, k: SocketId, i: nat)
    requires Reachable(cfg, s) && s.reg.Alive(k) && k in s.conns && i < |s.log| && s.log[i].On(s.conns[k].channel)
    ensures s.log[i].payload.number < |s.scoped|
    ensures s.byReader[(k, s.log[i])] ==
      if s.cursor.Some? && s.origin <= i && s.conns[k].joined <= i < Position(s) then 1 else 0
    ensures s.byRange[(k, Scoped(s, i))] == Covering(s.conns[k].replies, Scoped(s, i), s.log[i].payload.number)
    ensures s.byRange[(k, Scoped(s, i))] > 0 <==> RangeCovered(s, s.conns[k], i)
  {
    ReachableInv(cfg, s);
    var number := s.log[i].payload.number;
    assert s.byReader[(k, s.log[i])] == ReaderOwes(s, s.conns[k], i);
    assert s.byRange[(k, s.scoped[number])] == RangeOwes(s.scoped, s.conns[k], number);
    CoveringSome(s.conns[k].replies, s.scoped[number], number);
  }

  lemma OwnReply(cfg: Config, s: State, k: SocketId) returns (r: Read)
    requires Reachable(cfg, s) && k in s.conns && s.conns[k].lastId.Some? && !s.conns[k].pending
    ensures r in s.conns[k].replies && r == ReadFor(s.conns[k], r.upTo)
    ensures s.conns[k].published <= r.upTo <= |s.scoped|
    ensures |s.conns[k].replies| == 1 ==> s.conns[k].replies == [r]
  {
    ReachableInv(cfg, s);
    assert ConnOk(s, s.conns[k]);
    r :| r in s.conns[k].replies && r == ReadFor(s.conns[k], r.upTo) && s.conns[k].published <= r.upTo;
  }

  /** What the client's own range read covers: the events in its range that were published by then. */
  lemma OwnReplyCovers(s: State, c: Conn, r: Read, i: nat)
    requires i < |s.log| && s.log[i].payload.Job? && s.log[i].payload.number < |s.scoped|
    requires c.lastId.Some? && r == ReadFor(c, r.upTo)
    ensures r.Covers(Scoped(s, i), s.log[i].payload.number) <==>
      s.log[i].payload.number < r.upTo && InReadRange(s, c, i)
  {
    NothingBetween(c.lastId.value, Scoped(s, i).id);
  }

  /** The reader's part, seen from the connection. */
  lemma JoinedIsPublished(cfg: Config, s: State, k: SocketId, i: nat)
    requires Reachable(cfg, s) && k in s.conns && i < s.conns[k].joined && i < |s.log| && s.log[i].payload.Job?
    ensures s.log[i].payload.number < s.conns[k].published
  {
    ReachableInv(cfg, s);
    assert ConnOk(s, s.conns[k]);
  }

  lemma JoinedAfterOrigin(cfg: Config, s: State, k: SocketId)
    requires Reachable(cfg, s) && k in s.conns
    ensures s.conns[k].joined <= Position(s)
    ensures s.conns[k].cursor.Some? ==> s.cursor.Some? && s.origin < s.conns[k].joined
    ensures s.conns[k].cursor.None? ==> s.conns[k].joined == 0
    ensures s.cursor.Some? ==> s.origin < Position(s)
  {
    ReachableInv(cfg, s);
    assert ConnOk(s, s.conns[k]);
  }

  /** Once the reader's cursor is a real id, a client that reconnects and stays live misses
      nothing, under the id condition above. */
  lemma ReconnectLeavesNoGap(cfg: Config, s: State, k: SocketId, order: Numbering)
    requires Reachable(cfg, s) && s.reg.Alive(k) && k in s.conns
    requires s.conns[k].lastId.Some? && !s.conns[k].pending && IdsFit(s, s.conns[k], order)
    ensures NoGap(s, k, s.conns[k], order)
  {
    var c := s.conns[k];
    var own := OwnReply(cfg, s, k);
    JoinedAfterOrigin(cfg, s, k);
    forall i | 0 <= i < |s.log| && i < Position(s) && Wanted(s, c, order, i)
      ensures Calls(s, k, i) > 0
    {
      CallsExactly(cfg, s, k, i);
      if i < c.joined {
        JoinedIsPublished(cfg, s, k, i);
        OwnReplyCovers(s, c, own, i);
        assert RangeCovered(s, c, i);
      }
    }
  }

  /** The exact condition, whichever stream the last id was taken from and whatever other range
      reads were handled on the channel: what the client wants and the reader had passed before lies
      within the client's own range read or was covered by another one. */
  lemma ReconnectGapExactly(cfg: Config, s: State, k: SocketId, order: Numbering)
    requires Reachable(cfg, s) && s.reg.Alive(k) && k in s.conns
    requires s.conns[k].lastId.Some? && !s.conns[k].pending && s.conns[k].cursor.Some?
    ensures NoGap(s, k, s.conns[k], order) <==>
      forall i | 0 <= i < |s.log| && i < s.conns[k].joined && Wanted(s, s.conns[k], order, i) ::
        InReadRange(s, s.conns[k], i) || RangeCovered(s, s.conns[k], i)
    ensures |s.conns[k].replies| == 1 ==> (NoGap(s, k, s.conns[k], order) <==> IdsFit(s, s.conns[k], order))
  {
    var c := s.conns[k];
    var own := OwnReply(cfg, s, k);
    JoinedAfterOrigin(cfg, s, k);
    forall i | 0 <= i < |s.log| && i < Position(s) && Wanted(s, c, order, i)
      ensures Calls(s, k, i) > 0 <==> c.joined <= i || RangeCovered(s, c, i)
      ensures i < c.joined && InReadRange(s, c, i) ==> RangeCovered(s, c, i)
      ensures |c.replies| == 1 && i < c.joined ==> (RangeCovered(s, c, i) <==> InReadRange(s, c, i))
    {
      CallsExactly(cfg, s, k, i);
      if i < c.joined {
        JoinedIsPublished(cfg, s, k, i);
      }
      OwnReplyCovers(s, c, own, i);
    }
  }

  /** Each wanted event comes exactly once if and only if those the reader had passed before are
      exactly those that lay within the range read when it was taken: for a client whose own range
      read is the only one on its channel so far. */
  lemma OnceEachExactly(cfg: Config, s: State, k: SocketId, order: Numbering)
    requires Reachable(cfg, s) && s.reg.Alive(k) && k in s.conns
    requires s.conns[k].lastId.Some? && !s.conns[k].pending && s.conns[k].cursor.Some? && |s.conns[k].replies| == 1
    ensures OnceEach(s, k, s.conns[k], order) <==>
      forall i | 0 <= i < |s.log| && i < Position(s) && Wanted(s, s.conns[k], order, i) ::
        i < s.conns[k].joined <==>
          InReadRange(s, s.conns[k], i) && s.log[i].payload.number < s.conns[k].replies[0].upTo
  {
    var c := s.conns[k];
    var own := OwnReply(cfg, s, k);
    JoinedAfterOrigin(cfg, s, k);
    forall i | 0 <= i < |s.log| && i < Position(s) && Wanted(s, c, order, i)
      ensures Calls(s, k, i) == 1 <==>
        (i < c.joined <==> InReadRange(s, c, i) && s.log[i].payload.number < c.replies[0].upTo)
    {
      CallsExactly(cfg, s, k, i);
      OwnReplyCovers(s, c, own, i);
      OnlyReplyCovers(own, Scoped(s, i), s.log[i].payload.number);
    }
  }

  lemma OnlyReplyCovers(r: Read, e: Event, j: nat)
    ensures Covering([r], e, j) == if r.Covers(e, j) then 1 else 0
  {
    assert [r][..0] == [];
    assert Covering([], e, j) == 0;
  }

  /** Every event of the channel carries the same id in both streams. */
  ghost predicate SameIds(s: State, channel: ChannelId) {
    forall i | 0 <= i < |s.log| && s.log[i].On(channel) && s.log[i].payload.number < |s.scoped| ::
      Scoped(s, i).id == s.log[i].id
  }

  /** With the same ids in both streams, the cursor a connection noted marks what the reader had
      passed by then. */
  lemma CursorMarksJoining(cfg: Config, s: State, c: Conn, i: nat)
    requires Inv(cfg, s) && ConnOk(s, c) && c.cursor.Some? && i < |s.log|
    ensures s.log[i].id.Le(c.cursor.value) <==> i < c.joined
  {
    UptoAt(s.log, c.joined - 1);
    UptoSplits(s.log, c.cursor.value);
  }

  /** When a channel's events carry the same id in both streams the condition always holds, and it
      does not matter which stream the last id was taken from. */
  lemma SameIdsNeverGap(cfg: Config, s: State, k: SocketId, order: Numbering)
    requires Reachable(cfg, s) && s.reg.Alive(k) && k in s.conns
    requires s.conns[k].lastId.Some? && !s.conns[k].pending && s.conns[k].cursor.Some?
    requires SameIds(s, s.conns[k].channel)
    ensures NoGap(s, k, s.conns[k], order)
  {
    ReachableInv(cfg, s);
    assert ConnOk(s, s.conns[k]);
    forall i | 0 <= i < |s.log| && i < s.conns[k].joined && Wanted(s, s.conns[k], order, i)
      ensures InReadRange(s, s.conns[k], i)
    {
      CursorMarksJoining(cfg, s, s.conns[k], i);
    }
    ReconnectLeavesNoGap(cfg, s, k, order);
  }

  /** ... and the work is split without overlap: each wanted event is sent exactly once, up to the
      cursor at connection time by the range read, after it by the global reader; and no other
      record is about the same event. */
  lemma SameIdsSplitTheWork(cfg: Config, s: State, k: SocketId, order: Numbering, i: nat)
    requires Reachable(cfg, s) && s.reg.Alive(k) && k in s.conns
    requires s.conns[k].lastId.Some? && !s.conns[k].pending && s.conns[k].cursor.Some? && |s.conns[k].replies| == 1
    requires SameIds(s, s.conns[k].channel) && i < |s.log| && Wanted(s, s.conns[k], order, i)
    ensures s.byRange[(k, Scoped(s, i))] == if i < s.conns[k].joined then 1 else 0
    ensures s.byReader[(k, s.log[i])] == if s.conns[k].joined <= i < Position(s) then 1 else 0
    ensures forall j | 0 <= j < |s.log| && j != i :: s.log[j].payload != s.log[i].payload
  {
    var c := s.conns[k];
    ReachableInv(cfg, s);
    assert ConnOk(s, c);
    CursorMarksJoining(cfg, s, c, i);
    var own := OwnReply(cfg, s, k);
    JoinedAfterOrigin(cfg, s, k);
    CallsExactly(cfg, s, k, i);
    OwnReplyCovers(s, c, own, i);
    OnlyReplyCovers(own, Scoped(s, i), s.log[i].payload.number);
    if i < c.joined {
      JoinedIsPublished(cfg, s, k, i);
    }
  }

  /** Before the reader's first reply the range read has no upper end, and the reader starts
      wherever that reply starts: exactly the events before that point that no range read covered
      are lost; with a single range read, those published after it was taken or not after the last
      id in their channel's stream. */
  lemma FirstReplyGapExactly(cfg: Config, s: State, k: SocketId, order: Numbering)
    requires Reachable(cfg, s) && s.reg.Alive(k) && k in s.conns && s.cursor.Some?
    requires s.conns[k].lastId.Some? && !s.conns[k].pending && s.conns[k].cursor.None?
    ensures NoGap(s, k, s.conns[k], order) <==>
      forall i | 0 <= i < |s.log| && i < s.origin && Wanted(s, s.conns[k], order, i) :: RangeCovered(s, s.conns[k], i)
    ensures |s.conns[k].replies| == 1 ==>
      (NoGap(s, k, s.conns[k], order) <==>
        forall i | 0 <= i < |s.log| && i < s.origin && Wanted(s, s.conns[k], order, i) ::
          InReadRange(s, s.conns[k], i) && s.log[i].payload.number < s.conns[k].replies[0].upTo)
  {
    var c := s.conns[k];
    var own := OwnReply(cfg, s, k);
    JoinedAfterOrigin(cfg, s, k);
    forall i | 0 <= i < |s.log| && i < Position(s) && Wanted(s, c, order, i)
      ensures Calls(s, k, i) > 0 <==> s.origin <= i || RangeCovered(s, c, i)
      ensures |c.replies| == 1 ==>
        (RangeCovered(s, c, i) <==> InReadRange(s, c, i) && s.log[i].payload.number < c.replies[0].upTo)
    {
      CallsExactly(cfg, s, k, i);
      OwnReplyCovers(s, c, own, i);
    }
  }

  /** In the `$` case each wanted event comes exactly once if and only if those before the reader's
      first batch are exactly those that lay within the range read when it was taken. */
  lemma FirstReplyOnceExactly(cfg: Config, s: State, k: SocketId, order: Numbering)
    requires Reachable(cfg, s) && s.reg.Alive(k) && k in s.conns && s.cursor.Some?
    requires s.conns[k].lastId.Some? && !s.conns[k].pending && s.conns[k].cursor.None? && |s.conns[k].replies| == 1
    ensures OnceEach(s, k, s.conns[k], order) <==>
      forall i | 0 <= i < |s.log| && i < Position(s) && Wanted(s, s.conns[k], order, i) ::
        i < s.origin <==> InReadRange(s, s.conns[k], i) && s.log[i].payload.number < s.conns[k].replies[0].upTo
  {
    var c := s.conns[k];
    var own := OwnReply(cfg, s, k);
    JoinedAfterOrigin(cfg, s, k);
    forall i | 0 <= i < |s.log| && i < Position(s) && Wanted(s, c, order, i)
      ensures Calls(s, k, i) == 1 <==>
        (i < s.origin <==> InReadRange(s, c, i) && s.log[i].payload.number < c.replies[0].upTo)
    {
      CallsExactly(cfg, s, k, i);
      OwnReplyCovers(s, c, own, i);
      OnlyReplyCovers(own, Scoped(s, i), s.log[i].payload.number);
    }
  }

  // ----- the global stream -----

  /** `handed` and then exactly the records after `start` up to the cursor have been handed to the
      listener. */
  ghost predicate Contiguous(s: State, start: StreamId, handed: seq<Event>) {
    && Sorted(s.log) && s.cursor.Some? && start.Le(s.cursor.value)
    && (s.cursor.value == start || (0 < Position(s) && s.log[Position(s) - 1].id == s.cursor.value))
    && Upto(s.log, start) <= Position(s)
    && s.handed == handed + s.log[Upto(s.log, start)..Position(s)]
  }

  /** From any concrete cursor, whatever timeouts, errors and bad records come between, what is
      handed to the listener is one contiguous run of the stream right after that cursor. */
  lemma {:induction false} FirehoseIsContiguous(cfg: Config, s: State, steps: seq<Step>, t: State)
    requires Run(cfg, s, steps, t) && Sorted(s.log) && s.cursor.Some?
    ensures Contiguous(t, s.cursor.value, s.handed)
  {
    ContiguousRun(cfg, s, steps, t, s.cursor.value, s.handed);
  }

  lemma {:induction false} ContiguousRun(cfg: Config, s: State, steps: seq<Step>, t: State,
                                         start: StreamId, handed: seq<Event>)
    requires Run(cfg, s, steps, t) && Contiguous(s, start, handed)
    ensures Contiguous(t, start, handed)
    decreases |steps|
  {
    if steps != [] {
      ContiguousStep(cfg, s, steps[0], start, handed);
      ContiguousRun(cfg, Next(cfg, s, steps[0]), steps[1..], t, start, handed);
    }
  }

  lemma ContiguousAppend(s: State, e: Event, t: State, start: StreamId, handed: seq<Event>)
    requires Contiguous(s, start, handed) && AtTheEnd(s.log, e.id)
    requires t.log == s.log + [e] && t.cursor == s.cursor && t.handed == s.handed
    ensures Contiguous(t, start, handed)
  {
    UptoAppend(s.log, e, start);
    UptoAppend(s.log, e, s.cursor.value);
    UptoSplits(s.log, start);
    assert t.log[..|s.log|] == s.log;
    if s.cursor.value != start {
      assert s.log[Position(s) - 1].id.Lt(e.id);
      assert Position(t) == Position(s);
      assert s.log[Upto(s.log, start)..Position(s)] == t.log[Upto(s.log, start)..Position(t)];
    }
  }

  lemma ReplyTakes(cfg: Config, s: State, n: nat, fates: seq<Fates>) returns (hi: nat)
    requires Sorted(s.log) && Enabled(cfg, s, GlobalReply(n, fates))
    ensures Position(s) < hi <= |s.log|
    ensures var t := Next(cfg, s, GlobalReply(n, fates));
      t.log == s.log && t.cursor == Some(s.log[hi - 1].id) && t.handed == s.handed + s.log[Position(s)..hi]
  {
    var lo := Position(s);
    hi := if lo + n <= |s.log| then lo + n else |s.log|;
    assert s.log[lo..hi][hi - lo - 1] == s.log[hi - 1];
  }

  lemma BeyondCursor(log: seq<Event>, id: StreamId, i: nat)
    requires Sorted(log) && Upto(log, id) <= i < |log|
    ensures id.Lt(log[i].id)
  {
    UptoSplits(log, id);
  }

  lemma ContiguousExtend(s: State, hi: nat, t: State, start: StreamId, handed: seq<Event>)
    requires Contiguous(s, start, handed) && Position(s) < hi <= |s.log|
    requires t.log == s.log && t.cursor == Some(s.log[hi - 1].id) && t.handed == s.handed + s.log[Position(s)..hi]
    ensures Contiguous(t, start, handed)
  {
    UptoAt(s.log, hi - 1);
    BeyondCursor(s.log, s.cursor.value, hi - 1);
    assert Position(t) == hi;
    SlicesJoin(s.log, Upto(s.log, start), Position(s), hi);
    Regroup(handed, s.log[Upto(s.log, start)..Position(s)], s.log[Position(s)..hi]);
  }

  lemma ContiguousStep(cfg: Config, s: State, step: Step, start: StreamId, handed: seq<Event>)
    requires Contiguous(s, start, handed) && Enabled(cfg, s, step)
    ensures Contiguous(Next(cfg, s, step), start, handed)
  {
    if step.PublishGlobal? {
      ContiguousAppend(s, Event(step.fid, s.scoped[step.number].payload), Next(cfg, s, step), start, handed);
    } else if step.PublishGarbage? {
      ContiguousAppend(s, Event(step.fid, Garbage), Next(cfg, s, step), start, handed);
    } else if step.GlobalReply? {
      var hi := ReplyTakes(cfg, s, step.n, step.fates);
      ContiguousExtend(s, hi, Next(cfg, s, step), start, handed);
    } else {
      var t := Next(cfg, s, step);
      assert t.log == s.log && t.cursor == s.cursor && t.handed == s.handed;
    }
  }

  // ----- silence -----

  /** With sweeps at most `period` apart, no reachable state still tracks a socket that has been
      silent for longer than the timeout and one period. */
  lemma SilentSocketsAreForgotten(cfg: Config, s: State, k: SocketId)
    requires Reachable(cfg, s) && k in s.reg.sockets
    ensures s.now <= s.reg.sockets[k].pongTs + cfg.timeout + cfg.period
    ensures cfg.timeout > 0 ==> s.now < s.reg.sockets[k].pongTs + cfg.timeout + cfg.period
  {
    ReachableInv(cfg, s);
  }

  /** Only a sweep forgets a socket, and then exactly those whose last pong is at least the timeout
      old and those that are neither connecting nor open. */
  lemma OnlySilenceOrDeathForgets(cfg: Config, s: State, step: Step, k: SocketId)
    requires Reachable(cfg, s) && Enabled(cfg, s, step) && k in s.reg.sockets
    ensures k !in Next(cfg, s, step).reg.sockets <==>
      && step.SweepSockets?
      && (s.now - s.reg.sockets[k].pongTs >= cfg.timeout || s.reg.sockets[k].state !in {Connecting, Open})
  {
    ReachableInv(cfg, s);
    assert Agree(s.reg);
    ForgettingStep(cfg, s, step);
    match step {
      case SweepSockets =>
      case _ =>
    }
  }

  lemma DeliveryForgetsNobody(reg: Registry, batch: seq<Event>, fates: seq<Fates>)
    requires Agree(reg)
    ensures Process(reg, batch, fates).sockets.Keys == reg.sockets.Keys
  {
    ProcessAgrees(reg, batch, fates);
  }

  lemma ForgettingStep(cfg: Config, s: State, step: Step)
    requires Agree(s.reg) && Enabled(cfg, s, step)
    ensures !step.SweepSockets? ==> s.reg.sockets.Keys <= Next(cfg, s, step).reg.sockets.Keys
  {
    if step.FirstReply? {
      DeliveryForgetsNobody(s.reg, s.log[step.at..step.at + step.n], step.fates);
    } else if step.GlobalReply? {
      DeliveryForgetsNobody(s.reg, Xread(s.log, s.cursor.value, step.n), step.fates);
    } else if step.RangeReply? {
      var c := s.conns[step.id];
      DeliveryForgetsNobody(s.reg, Xrange(s.scoped, c.channel, ReadFor(c, step.upTo)), step.fates);
    } else if step.Collect? {
      CleanAllMeaning(s.reg, step.order);
    }
  }
}
