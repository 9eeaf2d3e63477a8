/** What every run of the event server keeps, and what follows for a reconnecting client. */
module EventSafety {
  import opened EventSystem
  import opened Options
  import opened Registries
  import opened StreamIds

  // ----- the invariant -----

  ghost predicate RegistryInv(reg: Registry, conns: map<SocketId, Conn>) {
    && Agree(reg)
    && reg.sockets.Keys <= conns.Keys
    && ListedIds(reg) <= conns.Keys
    && (forall k | k in reg.sockets :: reg.sockets[k].channel == conns[k].channel)
  }

  /** A job stands in the global stream at most once, and only after its channel's stream has it. */
  ghost predicate StreamsInv(log: seq<Event>, scoped: seq<Event>) {
    && Sorted(log) && Numbered(scoped)
    && (forall i | 0 <= i < |log| && log[i].payload.Job? ::
          log[i].payload.number < |scoped| && scoped[log[i].payload.number].payload == log[i].payload)
    && (forall i, j | 0 <= i < j < |log| && log[i].payload.Job? :: log[i].payload != log[j].payload)
  }

  ghost predicate CursorInv(cursor: Option<StreamId>, log: seq<Event>, origin: nat, handed: seq<Event>) {
    && (cursor.None? ==> handed == [])
    && (cursor.Some? ==>
          && origin < Passed(cursor, log)
          && log[Passed(cursor, log) - 1].id == cursor.value
          && handed == log[origin..Passed(cursor, log)])
  }

  ghost predicate ConnInv(s: State) {
    forall k | k in s.conns :: ConnOk(s, s.conns[k])
  }

  ghost predicate ConnOk(s: State, c: Conn) {
    && c.joined <= Position(s) && c.published <= |s.scoped|
    && (forall i | 0 <= i < c.joined && s.log[i].payload.Job? :: s.log[i].payload.number < c.published)
    && (c.cursor.None? ==> c.joined == 0)
    && (c.cursor.Some? ==> s.cursor.Some? && s.origin < c.joined && s.log[c.joined - 1].id == c.cursor.value)
    && (c.pending ==> c.lastId.Some?)
    && (c.lastId.Some? && !c.pending ==>
          exists r | r in c.replies :: r == ReadFor(c, r.upTo) && c.published <= r.upTo)
    && (forall r | r in c.replies :: r.upTo <= |s.scoped|)
  }

  /** How often the global reader has sent record `i` to a live connection: once, when it passed it
      after the connection joined. */
  ghost function ReaderOwes(s: State, c: Conn, i: nat): nat
    requires i < |s.log|
  {
    if s.log[i].On(c.channel) && s.cursor.Some? && s.origin <= i && c.joined <= i < Position(s) then 1 else 0
  }

  /** How many of the range reads answered meanwhile cover a record of a channel's stream. */
  function Covering(replies: seq<Read>, e: Event, j: nat): nat {
    if replies == [] then 0
    else Covering(replies[..|replies| - 1], e, j) + if replies[|replies| - 1].Covers(e, j) then 1 else 0
  }

  ghost function RangeOwes(scoped: seq<Event>, c: Conn, j: nat): nat
    requires j < |scoped|
  {
    if scoped[j].On(c.channel) then Covering(c.replies, scoped[j], j) else 0
  }

  ghost predicate ReaderInv(s: State) {
    && (forall p | p in s.byReader :: p.0 in s.conns && p.1 in s.log)
    && (forall k, i | s.reg.Alive(k) && k in s.conns && 0 <= i < |s.log| ::
          s.byReader[(k, s.log[i])] == ReaderOwes(s, s.conns[k], i))
  }

  ghost predicate RangeInv(s: State) {
    && (forall p | p in s.byRange :: p.0 in s.conns && p.1 in s.scoped)
    && (forall k, j | s.reg.Alive(k) && k in s.conns && 0 <= j < |s.scoped| ::
          s.byRange[(k, s.scoped[j])] == RangeOwes(s.scoped, s.conns[k], j))
  }

  ghost predicate TimeInv(cfg: Config, sockets: map<SocketId, Socket>, now: int, lastSweep: int) {
    && lastSweep <= now <= lastSweep + cfg.period
    && (forall k | k in sockets ::
          sockets[k].pongTs <= now && (sockets[k].pongTs >= lastSweep || !Silent(sockets[k], lastSweep, cfg.timeout)))
  }

  /** All but the clock's part. */
  ghost predicate StreamInv(s: State) {
    && RegistryInv(s.reg, s.conns) && StreamsInv(s.log, s.scoped) && CursorInv(s.cursor, s.log, s.origin, s.handed)
    && ConnInv(s) && ReaderInv(s) && RangeInv(s)
  }

  ghost predicate Inv(cfg: Config, s: State) {
    StreamInv(s) && TimeInv(cfg, s.reg.sockets, s.now, s.lastSweep)
  }

  // ----- publishing -----

  lemma {:induction false} CoveringNone(replies: seq<Read>, e: Event, j: nat)
    requires forall r | r in replies :: !r.Covers(e, j)
    ensures Covering(replies, e, j) == 0
  {
    if replies != [] {
      CoveringNone(replies[..|replies| - 1], e, j);
    }
  }

  lemma {:induction false} CoveringSome(replies: seq<Read>, e: Event, j: nat)
    ensures Covering(replies, e, j) > 0 <==> exists r :: r in replies && r.Covers(e, j)
  {
    if replies != [] {
      var init, last := replies[..|replies| - 1], replies[|replies| - 1];
      CoveringSome(init, e, j);
      assert replies == init + [last];
      assert forall r :: r in replies <==> r in init || r == last;
    }
  }

  lemma ScopedAppend(log: seq<Event>, scoped: seq<Event>, e: Event)
    requires StreamsInv(log, scoped) && e.payload.Job? && e.payload.number == |scoped|
    ensures StreamsInv(log, scoped + [e]) && e !in scoped
  {
    var after := scoped + [e];
    assert forall j | 0 <= j < |scoped| :: after[j] == scoped[j];
  }

  lemma PublishScopedRange(s: State, e: Event, t: State)
    requires ConnInv(s) && RangeInv(s) && e !in s.scoped && t == s.(scoped := s.scoped + [e])
    ensures RangeInv(t)
  {
    forall k, j | t.reg.Alive(k) && k in t.conns && 0 <= j < |t.scoped|
      ensures t.byRange[(k, t.scoped[j])] == RangeOwes(t.scoped, t.conns[k], j)
    {
      if j < |s.scoped| {
        assert s.byRange[(k, s.scoped[j])] == RangeOwes(s.scoped, s.conns[k], j);
      } else {
        assert ConnOk(s, s.conns[k]) && (k, e) !in s.byRange;
        CoveringNone(s.conns[k].replies, e, j);
      }
    }
  }

  /** Streams only grow at their ends, and the reader has passed nothing new. */
  lemma ConnsSurviveGrowth(s: State, t: State)
    requires ConnInv(s) && t.conns == s.conns && t.cursor == s.cursor && t.origin == s.origin
    requires s.log <= t.log && |s.scoped| <= |t.scoped| && Position(t) == Position(s)
    ensures ConnInv(t)
  {
    forall k | k in t.conns
      ensures ConnOk(t, t.conns[k])
    {
      assert ConnOk(s, s.conns[k]);
    }
  }

  lemma PublishScopedKeeps(cfg: Config, s: State, channel: ChannelId, cid: StreamId)
    requires Inv(cfg, s) && Enabled(cfg, s, PublishScoped(channel, cid))
    ensures Inv(cfg, Next(cfg, s, PublishScoped(channel, cid)))
  {
    var e := Event(cid, Job(channel, |s.scoped|));
    var t := s.(scoped := s.scoped + [e]);
    ScopedAppend(s.log, s.scoped, e);
    ConnsSurviveGrowth(s, t);
    ReaderUnaffected(s, t);
    PublishScopedRange(s, e, t);
    assert Next(cfg, s, PublishScoped(channel, cid)) == t;
  }

  lemma PassedAppend(cursor: Option<StreamId>, log: seq<Event>, origin: nat, handed: seq<Event>, e: Event)
    requires CursorInv(cursor, log, origin, handed) && AtTheEnd(log, e.id)
    ensures Passed(cursor, log + [e]) == Passed(cursor, log) && CursorInv(cursor, log + [e], origin, handed)
    ensures e !in log
  {
    if cursor.Some? {
      UptoAppend(log, e, cursor.value);
      assert (log + [e])[origin..Passed(cursor, log)] == log[origin..Passed(cursor, log)];
    }
  }

  lemma AppendingReader(s: State, e: Event, t: State)
    requires ReaderInv(s) && e !in s.log && t == s.(log := s.log + [e]) && Position(t) == Position(s)
    ensures ReaderInv(t)
  {
    forall k, i | t.reg.Alive(k) && k in t.conns && 0 <= i < |t.log|
      ensures t.byReader[(k, t.log[i])] == ReaderOwes(t, t.conns[k], i)
    {
      if i < |s.log| {
        assert s.byReader[(k, s.log[i])] == ReaderOwes(s, s.conns[k], i);
      } else {
        assert (k, e) !in s.byReader;
      }
    }
  }

  /** A record appended to the global stream, ahead of the reader. */
  lemma AppendingKeeps(cfg: Config, s: State, e: Event)
    requires Inv(cfg, s) && AtTheEnd(s.log, e.id) && StreamsInv(s.log + [e], s.scoped)
    ensures Inv(cfg, s.(log := s.log + [e]))
  {
    var t := s.(log := s.log + [e]);
    PassedAppend(s.cursor, s.log, s.origin, s.handed, e);
    ConnsSurviveGrowth(s, t);
    AppendingReader(s, e, t);
    RangeUnaffected(s, t);
  }

  lemma PublishGlobalKeeps(cfg: Config, s: State, number: nat, fid: StreamId)
    requires Inv(cfg, s) && Enabled(cfg, s, PublishGlobal(number, fid))
    ensures Inv(cfg, Next(cfg, s, PublishGlobal(number, fid)))
  {
    AppendingKeeps(cfg, s, Event(fid, s.scoped[number].payload));
  }

  lemma PublishGarbageKeeps(cfg: Config, s: State, fid: StreamId)
    requires Inv(cfg, s) && Enabled(cfg, s, PublishGarbage(fid))
    ensures Inv(cfg, Next(cfg, s, PublishGarbage(fid)))
  {
    AppendingKeeps(cfg, s, Event(fid, Garbage));
  }

  // ----- what a part of the invariant does not look at -----

  lemma ReaderUnaffected(s: State, t: State)
    requires ReaderInv(s)
    requires t.byReader == s.byReader && t.log == s.log && t.cursor == s.cursor && t.origin == s.origin
    requires t.conns.Keys == s.conns.Keys && (forall k | t.reg.Alive(k) :: s.reg.Alive(k))
    requires forall k | k in s.conns ::
      t.conns[k].channel == s.conns[k].channel && t.conns[k].joined == s.conns[k].joined
    ensures ReaderInv(t)
  {
    forall k, i | t.reg.Alive(k) && k in t.conns && 0 <= i < |t.log|
      ensures t.byReader[(k, t.log[i])] == ReaderOwes(t, t.conns[k], i)
    {
      assert s.byReader[(k, s.log[i])] == ReaderOwes(s, s.conns[k], i);
    }
  }

  lemma RangeUnaffected(s: State, t: State)
    requires RangeInv(s)
    requires t.byRange == s.byRange && t.scoped == s.scoped && t.conns == s.conns
    requires forall k | t.reg.Alive(k) :: s.reg.Alive(k)
    ensures RangeInv(t)
  {
    forall k, j | t.reg.Alive(k) && k in t.conns && 0 <= j < |t.scoped|
      ensures t.byRange[(k, t.scoped[j])] == RangeOwes(t.scoped, t.conns[k], j)
    {
      assert s.byRange[(k, s.scoped[j])] == RangeOwes(s.scoped, s.conns[k], j);
    }
  }

  /** Connection records look at the streams, and at the cursor only as it moves on. */
  lemma ConnsUnaffected(s: State, t: State)
    requires ConnInv(s) && t.conns == s.conns && t.log == s.log && t.scoped == s.scoped
    requires Position(s) <= Position(t) && (s.cursor.Some? ==> t.cursor.Some? && t.origin == s.origin)
    ensures ConnInv(t)
  {
    forall k | k in t.conns
      ensures ConnOk(t, t.conns[k])
    {
      assert ConnOk(s, s.conns[k]);
    }
  }

  lemma ClockIsIrrelevant(s: State, t: State)
    requires StreamInv(s) && t == s.(now := t.now, lastSweep := t.lastSweep)
    ensures StreamInv(t)
  {
    ReaderUnaffected(s, t);
    RangeUnaffected(s, t);
    ConnsUnaffected(s, t);
  }

  // ----- connections -----

  lemma ConnectKeepsRegistry(s: State, id: SocketId, socket: Socket, conn: Conn)
    requires RegistryInv(s.reg, s.conns) && id !in s.conns && conn.channel == socket.channel
    ensures RegistryInv(Track(s.reg, id, socket), s.conns[id := conn])
  {
    TrackAgrees(s.reg, id, socket);
    assert ListedIds(Track(s.reg, id, socket)) <= ListedIds(s.reg) + {id};
  }

  lemma ConnectKeepsSends(s: State, id: SocketId, socket: Socket, conn: Conn)
    requires ReaderInv(s) && RangeInv(s) && id !in s.conns
    requires conn.joined == Position(s) && conn.replies == []
    ensures var t := s.(reg := Track(s.reg, id, socket), conns := s.conns[id := conn]); ReaderInv(t) && RangeInv(t)
  {
    var t := s.(reg := Track(s.reg, id, socket), conns := s.conns[id := conn]);
    forall k, i | t.reg.Alive(k) && k in t.conns && 0 <= i < |t.log|
      ensures t.byReader[(k, t.log[i])] == ReaderOwes(t, t.conns[k], i)
    {
      assert k == id ==> (k, t.log[i]) !in s.byReader;
      assert k != id ==> s.reg.Alive(k) && s.byReader[(k, s.log[i])] == ReaderOwes(s, s.conns[k], i);
    }
    forall k, j | t.reg.Alive(k) && k in t.conns && 0 <= j < |t.scoped|
      ensures t.byRange[(k, t.scoped[j])] == RangeOwes(t.scoped, t.conns[k], j)
    {
      assert k == id ==> (k, t.scoped[j]) !in s.byRange;
      assert k != id ==> s.reg.Alive(k) && s.byRange[(k, s.scoped[j])] == RangeOwes(s.scoped, s.conns[k], j);
    }
  }

  lemma ConnectKeepsConns(s: State, id: SocketId, reg: Registry, conn: Conn)
    requires ConnInv(s) && ConnOk(s, conn)
    ensures ConnInv(s.(reg := reg, conns := s.conns[id := conn]))
  {
    var t := s.(reg := reg, conns := s.conns[id := conn]);
    forall k | k in t.conns
      ensures ConnOk(t, t.conns[k])
    {
      assert k != id ==> ConnOk(s, s.conns[k]);
    }
  }

  lemma JoinKeeps(cfg: Config, s: State, id: SocketId, socket: Socket, conn: Conn, t: State)
    requires Inv(cfg, s) && id !in s.conns && conn.channel == socket.channel && socket.pongTs == s.now
    requires conn == Conn(conn.channel, Position(s), |s.scoped|, s.cursor, conn.lastId, conn.lastId.Some?, [])
    requires t == s.(reg := Track(s.reg, id, socket), conns := s.conns[id := conn])
    ensures Inv(cfg, t)
  {
    ConnectKeepsRegistry(s, id, socket, conn);
    ConnectKeepsSends(s, id, socket, conn);
    ConnectKeepsConns(s, id, Track(s.reg, id, socket), conn);
    ConnectKeepsTime(cfg, s.reg, id, socket, s.now, s.lastSweep);
  }

  lemma ConnectKeepsTime(cfg: Config, reg: Registry, id: SocketId, socket: Socket, now: int, lastSweep: int)
    requires TimeInv(cfg, reg.sockets, now, lastSweep) && socket.pongTs == now
    ensures TimeInv(cfg, Track(reg, id, socket).sockets, now, lastSweep)
  {
  }

  lemma ConnectKeeps(cfg: Config, s: State, id: SocketId, channel: ChannelId, state: ReadyState,
                     lastId: Option<StreamId>)
    requires Inv(cfg, s) && Enabled(cfg, s, Connect(id, channel, state, lastId))
    ensures Inv(cfg, Next(cfg, s, Connect(id, channel, state, lastId)))
  {
    var conn := Conn(channel, Position(s), |s.scoped|, s.cursor, lastId, lastId.Some?, []);
    JoinKeeps(cfg, s, id, Socket(state, channel, s.now), conn, Next(cfg, s, Connect(id, channel, state, lastId)));
  }

  // ----- registries that only shrink -----

  lemma AliveBefore(from: Registry, to: Registry, k: SocketId)
    requires Shrinks(from, to) && to.Alive(k)
    ensures from.Alive(k)
  {
  }

  lemma ShrinkingKeepsRegistry(s: State, t: State)
    requires RegistryInv(s.reg, s.conns) && Agree(t.reg) && Shrinks(s.reg, t.reg)
    requires t.conns.Keys == s.conns.Keys && forall k | k in s.conns :: t.conns[k].channel == s.conns[k].channel
    ensures RegistryInv(t.reg, t.conns)
  {
    forall k | k in ListedIds(t.reg)
      ensures k in ListedIds(s.reg)
    {
      var c :| c in t.reg.channels && k in t.reg.channels[c];
      assert c in s.reg.channels && k in s.reg.channels[c];
    }
  }

  /** Handlers that only forget sockets and list entries keep the invariant. */
  lemma ShrinkingKeeps(s: State, reg: Registry)
    requires StreamInv(s) && Agree(reg) && Shrinks(s.reg, reg)
    ensures StreamInv(s.(reg := reg))
  {
    var t := s.(reg := reg);
    ShrinkingKeepsRegistry(s, t);
    forall k | t.reg.Alive(k)
      ensures s.reg.Alive(k)
    {
      AliveBefore(s.reg, reg, k);
    }
    ReaderUnaffected(s, t);
    RangeUnaffected(s, t);
    ConnsUnaffected(s, t);
  }

  lemma QuietKeeps(cfg: Config, s: State, reg: Registry, t: State)
    requires Inv(cfg, s) && Agree(reg) && Shrinks(s.reg, reg) && t == s.(reg := reg)
    ensures Inv(cfg, t)
  {
    ShrinkingKeeps(s, reg);
    QuietKeepsTime(cfg, s.reg, reg, s.now, s.lastSweep);
  }

  lemma QuietKeepsTime(cfg: Config, from: Registry, to: Registry, now: int, lastSweep: int)
    requires TimeInv(cfg, from.sockets, now, lastSweep) && Shrinks(from, to)
    ensures TimeInv(cfg, to.sockets, now, lastSweep)
  {
  }

  lemma PongKeepsRegistry(reg: Registry, conns: map<SocketId, Conn>, id: SocketId, now: int)
    requires RegistryInv(reg, conns)
    ensures RegistryInv(Pong(reg, id, now), conns)
    ensures forall k | Pong(reg, id, now).Alive(k) :: reg.Alive(k)
  {
    PongAgrees(reg, id, now);
    assert ListedIds(Pong(reg, id, now)) == ListedIds(reg);
  }

  lemma PongKeepsTime(cfg: Config, reg: Registry, id: SocketId, now: int, lastSweep: int)
    requires TimeInv(cfg, reg.sockets, now, lastSweep)
    ensures TimeInv(cfg, Pong(reg, id, now).sockets, now, lastSweep)
  {
  }

  lemma PongStep(cfg: Config, s: State, id: SocketId, t: State)
    requires Inv(cfg, s) && t == s.(reg := Pong(s.reg, id, s.now))
    ensures Inv(cfg, t)
  {
    PongKeepsRegistry(s.reg, s.conns, id, s.now);
    PongKeepsTime(cfg, s.reg, id, s.now, s.lastSweep);
    ReaderUnaffected(s, t);
    RangeUnaffected(s, t);
    ConnsUnaffected(s, t);
  }

  lemma PongKeeps(cfg: Config, s: State, id: SocketId)
    requires Inv(cfg, s)
    ensures Inv(cfg, Next(cfg, s, PongReceived(id)))
  {
    PongStep(cfg, s, id, Next(cfg, s, PongReceived(id)));
  }

  lemma {:induction false} SweepKeeps(cfg: Config, s: State)
    requires Inv(cfg, s)
    ensures Inv(cfg, Next(cfg, s, SweepSockets))
  {
    var reg := Sweep(s.reg, s.now, cfg.timeout);
    SweepAgrees(s.reg, s.now, cfg.timeout);
    QuietKeeps(cfg, s, reg, s.(reg := reg));
    ClockIsIrrelevant(s.(reg := reg), Next(cfg, s, SweepSockets));
  }

  lemma TickKeepsTime(cfg: Config, sockets: map<SocketId, Socket>, now: int, lastSweep: int, later: int)
    requires TimeInv(cfg, sockets, now, lastSweep) && now <= later <= lastSweep + cfg.period
    ensures TimeInv(cfg, sockets, later, lastSweep)
  {
  }

  lemma LaterKeeps(cfg: Config, s: State, t: State)
    requires Inv(cfg, s) && t == s.(now := t.now) && s.now <= t.now <= s.lastSweep + cfg.period
    ensures Inv(cfg, t)
  {
    TickKeepsTime(cfg, s.reg.sockets, s.now, s.lastSweep, t.now);
    ClockIsIrrelevant(s, t);
  }

  lemma TickKeeps(cfg: Config, s: State, ms: nat)
    requires Inv(cfg, s) && Enabled(cfg, s, Tick(ms))
    ensures Inv(cfg, Next(cfg, s, Tick(ms)))
  {
    LaterKeeps(cfg, s, Next(cfg, s, Tick(ms)));
  }

  lemma StateChangeKeeps(cfg: Config, s: State, id: SocketId, to: ReadyState)
    requires Inv(cfg, s)
    ensures Inv(cfg, Next(cfg, s, StateChange(id, to)))
  {
    SetStateAgrees(s.reg, id, to);
    QuietKeeps(cfg, s, SetState(s.reg, id, to), Next(cfg, s, StateChange(id, to)));
  }

  lemma CollectKeeps(cfg: Config, s: State, order: seq<ChannelId>)
    requires Inv(cfg, s) && Enabled(cfg, s, Collect(order))
    ensures Inv(cfg, Next(cfg, s, Collect(order)))
  {
    CleanAllMeaning(s.reg, order);
    QuietKeeps(cfg, s, CleanAll(s.reg, order), Next(cfg, s, Collect(order)));
  }

  // ----- deliveries -----

  /** A slice of the global stream holds each record at its positions once. */
  lemma SliceCounts(log: seq<Event>, lo: nat, hi: nat)
    requires Sorted(log) && lo <= hi <= |log|
    ensures forall i | 0 <= i < |log| :: multiset(log[lo..hi])[log[i]] == if lo <= i < hi then 1 else 0
    decreases hi - lo
  {
    if lo < hi {
      SliceCounts(log, lo, hi - 1);
      assert log[lo..hi] == log[lo..hi - 1] + [log[hi - 1]];
    }
  }

  /** What a delivery adds to the account of a connection that is still live after it. */
  lemma DeliveryCounts(s: State, batch: seq<Event>, fates: seq<Fates>, k: SocketId, e: Event)
    requires RegistryInv(s.reg, s.conns) && Process(s.reg, batch, fates).Alive(k)
    ensures s.reg.Alive(k) && k in s.conns
    ensures Sent(s.reg, batch, fates)[(k, e)] == if e.On(s.conns[k].channel) then multiset(batch)[e] else 0
  {
    LiveSocketsGetTheBatch(s.reg, batch, fates, k, e);
  }

  lemma DeliveryKeepsRegistry(s: State, batch: seq<Event>, fates: seq<Fates>, t: State)
    requires RegistryInv(s.reg, s.conns) && t.reg == Process(s.reg, batch, fates)
    requires t.conns.Keys == s.conns.Keys && forall k | k in s.conns :: t.conns[k].channel == s.conns[k].channel
    ensures RegistryInv(t.reg, t.conns) && (forall k | t.reg.Alive(k) :: s.reg.Alive(k))
    ensures forall p | p in Sent(s.reg, batch, fates) :: p.0 in s.conns && p.1 in batch
  {
    ProcessAgrees(s.reg, batch, fates);
    ShrinkingKeepsRegistry(s, t);
    SentIsBounded(s.reg, batch, fates);
    forall k | t.reg.Alive(k)
      ensures s.reg.Alive(k)
    {
      AliveBefore(s.reg, t.reg, k);
    }
  }

  lemma DeliveryKeepsTime(cfg: Config, s: State, batch: seq<Event>, fates: seq<Fates>, t: State)
    requires RegistryInv(s.reg, s.conns) && TimeInv(cfg, s.reg.sockets, s.now, s.lastSweep)
    requires t.reg == Process(s.reg, batch, fates)
    requires t.now == s.now && t.lastSweep == s.lastSweep
    ensures TimeInv(cfg, t.reg.sockets, t.now, t.lastSweep)
  {
    ProcessAgrees(s.reg, batch, fates);
  }

  lemma AdvanceCursor(s: State, lo: nat, hi: nat, t: State)
    requires Sorted(s.log) && CursorInv(s.cursor, s.log, s.origin, s.handed) && lo < hi <= |s.log|
    requires s.cursor.Some? ==> lo == Position(s)
    requires t.log == s.log && t.cursor == Some(s.log[lo..hi][hi - lo - 1].id)
    requires t.handed == s.handed + s.log[lo..hi] && t.origin == if s.cursor.None? then lo else s.origin
    ensures CursorInv(t.cursor, t.log, t.origin, t.handed) && Position(t) == hi
    ensures s.cursor.Some? ==> s.origin < lo
  {
    LastOfSlice(s.log, lo, hi);
    HandedExtends(s, lo, hi);
  }

  lemma LastOfSlice(log: seq<Event>, lo: nat, hi: nat)
    requires Sorted(log) && lo < hi <= |log|
    ensures log[lo..hi][hi - lo - 1] == log[hi - 1] && Upto(log, log[hi - 1].id) == hi
  {
    UptoAt(log, hi - 1);
  }

  lemma HandedExtends(s: State, lo: nat, hi: nat)
    requires CursorInv(s.cursor, s.log, s.origin, s.handed) && lo < hi <= |s.log|
    requires s.cursor.Some? ==> lo == Position(s)
    ensures s.handed + s.log[lo..hi] == s.log[if s.cursor.None? then lo else s.origin..hi]
  {
    if s.cursor.None? {
      assert [] + s.log[lo..hi] == s.log[lo..hi];
    } else {
      SlicesJoin(s.log, s.origin, lo, hi);
    }
  }

  lemma OwesAfterAdvance(s: State, lo: nat, hi: nat, t: State, c: Conn, i: nat)
    requires ConnOk(s, c) && i < |s.log| && lo < hi <= |s.log|
    requires t.log == s.log && t.cursor.Some? && Position(t) == hi
    requires t.origin == if s.cursor.None? then lo else s.origin
    requires s.cursor.Some? ==> lo == Position(s) && s.origin < lo
    ensures ReaderOwes(t, c, i) == ReaderOwes(s, c, i) + if s.log[i].On(c.channel) && lo <= i < hi then 1 else 0
  {
  }

  lemma SliceDelivered(s: State, lo: nat, hi: nat, fates: seq<Fates>, k: SocketId, i: nat)
    requires RegistryInv(s.reg, s.conns) && Sorted(s.log) && lo < hi <= |s.log| && i < |s.log|
    requires Process(s.reg, s.log[lo..hi], fates).Alive(k)
    ensures s.reg.Alive(k) && k in s.conns
    ensures Sent(s.reg, s.log[lo..hi], fates)[(k, s.log[i])] ==
      if s.log[i].On(s.conns[k].channel) && lo <= i < hi then 1 else 0
  {
    SliceCounts(s.log, lo, hi);
    DeliveryCounts(s, s.log[lo..hi], fates, k, s.log[i]);
  }

  lemma AdvanceReader(s: State, lo: nat, hi: nat, fates: seq<Fates>, t: State)
    requires RegistryInv(s.reg, s.conns) && Sorted(s.log) && ConnInv(s) && ReaderInv(s) && lo < hi <= |s.log|
    requires t.cursor.Some? && Position(t) == hi && t.origin == if s.cursor.None? then lo else s.origin
    requires s.cursor.Some? ==> lo == Position(s) && s.origin < lo
    requires t.log == s.log && t.conns == s.conns && t.reg == Process(s.reg, s.log[lo..hi], fates)
    requires t.byReader == s.byReader + Sent(s.reg, s.log[lo..hi], fates)
    ensures ReaderInv(t)
  {
    var batch := s.log[lo..hi];
    DeliveryKeepsRegistry(s, batch, fates, t);
    forall k, i | t.reg.Alive(k) && k in t.conns && 0 <= i < |t.log|
      ensures t.byReader[(k, t.log[i])] == ReaderOwes(t, t.conns[k], i)
    {
      SliceDelivered(s, lo, hi, fates, k, i);
      assert ConnOk(s, s.conns[k]);
      OwesAfterAdvance(s, lo, hi, t, s.conns[k], i);
      assert s.byReader[(k, s.log[i])] == ReaderOwes(s, s.conns[k], i);
    }
    assert forall e | e in batch :: e in s.log;
  }

  /** The global reader takes the records from its position on; its first reply sets where. */
  lemma AdvanceKeeps(cfg: Config, s: State, lo: nat, hi: nat, fates: seq<Fates>, t: State)
    requires Inv(cfg, s) && lo < hi <= |s.log|
    requires s.cursor.Some? ==> lo == Position(s)
    requires t == Advance(s, s.log[lo..hi], fates).(origin := if s.cursor.None? then lo else s.origin)
    ensures Inv(cfg, t)
  {
    var batch := s.log[lo..hi];
    AdvanceCursor(s, lo, hi, t);
    AdvanceReader(s, lo, hi, fates, t);
    DeliveryKeepsRegistry(s, batch, fates, t);
    DeliveryKeepsTime(cfg, s, batch, fates, t);
    RangeUnaffected(s, t);
    ConnsUnaffected(s, t);
  }

  lemma GlobalReplyKeeps(cfg: Config, s: State, n: nat, fates: seq<Fates>)
    requires Inv(cfg, s) && Enabled(cfg, s, GlobalReply(n, fates))
    ensures Inv(cfg, Next(cfg, s, GlobalReply(n, fates)))
  {
    var lo := Position(s);
    var hi := if lo + n <= |s.log| then lo + n else |s.log|;
    assert Xread(s.log, s.cursor.value, n) == s.log[lo..hi];
    AdvanceKeeps(cfg, s, lo, hi, fates, Next(cfg, s, GlobalReply(n, fates)));
  }

  lemma FirstReplyKeeps(cfg: Config, s: State, at: nat, n: nat, fates: seq<Fates>)
    requires Inv(cfg, s) && Enabled(cfg, s, FirstReply(at, n, fates))
    ensures Inv(cfg, Next(cfg, s, FirstReply(at, n, fates)))
  {
    AdvanceKeeps(cfg, s, at, at + n, fates, Next(cfg, s, FirstReply(at, n, fates)));
  }

  lemma NotedConns(s: State, t: State, id: SocketId, read: Read)
    requires ConnInv(s) && id in s.conns && s.conns[id].lastId.Some?
    requires read.upTo <= |s.scoped| && s.conns[id].published <= read.upTo && read == ReadFor(s.conns[id], read.upTo)
    requires t.conns == Noted(s.conns, id, read) && t.log == s.log && t.scoped == s.scoped
    requires t.cursor == s.cursor && t.origin == s.origin
    ensures ConnInv(t)
  {
    forall k | k in t.conns
      ensures ConnOk(t, t.conns[k])
    {
      assert ConnOk(s, s.conns[k]);
      var old', new' := s.conns[k].replies, t.conns[k].replies;
      assert forall r | r in old' :: r in new';
      assert forall r | r in new' :: r in old' || r == read;
      if k == id {
        assert read in new' && ReadFor(t.conns[k], read.upTo) == read;
      } else if t.conns[k].lastId.Some? && !t.conns[k].pending {
        var r :| r in old' && r == ReadFor(s.conns[k], r.upTo) && s.conns[k].published <= r.upTo;
        assert r in new' && r == ReadFor(t.conns[k], r.upTo);
      }
    }
  }

  lemma OwesAfterReply(s: State, id: SocketId, read: Read, k: SocketId, j: nat)
    requires id in s.conns && k in s.conns && j < |s.scoped|
    ensures RangeOwes(s.scoped, Noted(s.conns, id, read)[k], j) == RangeOwes(s.scoped, s.conns[k], j) +
      if s.scoped[j].On(s.conns[k].channel) && s.scoped[j].On(s.conns[id].channel) && read.Covers(s.scoped[j], j)
      then 1 else 0
  {
    var replies := s.conns[k].replies;
    if s.conns[k].channel == s.conns[id].channel {
      assert (replies + [read])[..|replies|] == replies;
    }
  }

  lemma AnswerRange(s: State, id: SocketId, read: Read, fates: seq<Fates>, t: State)
    requires RegistryInv(s.reg, s.conns) && StreamsInv(s.log, s.scoped) && RangeInv(s) && id in s.conns
    requires t == Answer(s, id, read, Xrange(s.scoped, s.conns[id].channel, read), fates)
    ensures RangeInv(t)
  {
    var batch := Xrange(s.scoped, s.conns[id].channel, read);
    XrangeMeaning(s.scoped, s.conns[id].channel, read);
    DeliveryKeepsRegistry(s, batch, fates, t);
    forall k, j | t.reg.Alive(k) && k in t.conns && 0 <= j < |t.scoped|
      ensures t.byRange[(k, t.scoped[j])] == RangeOwes(t.scoped, t.conns[k], j)
    {
      DeliveryCounts(s, batch, fates, k, s.scoped[j]);
      OwesAfterReply(s, id, read, k, j);
      assert s.byRange[(k, s.scoped[j])] == RangeOwes(s.scoped, s.conns[k], j);
    }
  }

  lemma NotedElsewhere(conns: map<SocketId, Conn>, id: SocketId, read: Read)
    requires id in conns
    ensures var noted := Noted(conns, id, read);
      && noted.Keys == conns.Keys
      && forall k | k in conns :: noted[k].channel == conns[k].channel && noted[k].joined == conns[k].joined
  {
  }

  lemma AnswerKeeps(cfg: Config, s: State, id: SocketId, read: Read, fates: seq<Fates>, t: State)
    requires Inv(cfg, s) && id in s.conns && s.conns[id].lastId.Some?
    requires read.upTo <= |s.scoped| && s.conns[id].published <= read.upTo && read == ReadFor(s.conns[id], read.upTo)
    requires t == Answer(s, id, read, Xrange(s.scoped, s.conns[id].channel, read), fates)
    ensures Inv(cfg, t)
  {
    var batch := Xrange(s.scoped, s.conns[id].channel, read);
    NotedElsewhere(s.conns, id, read);
    AnswerRange(s, id, read, fates, t);
    NotedConns(s, t, id, read);
    DeliveryKeepsRegistry(s, batch, fates, t);
    DeliveryKeepsTime(cfg, s, batch, fates, t);
    ReaderUnaffected(s, t);
  }

  lemma RangeReplyKeeps(cfg: Config, s: State, id: SocketId, upTo: nat, fates: seq<Fates>)
    requires Inv(cfg, s) && Enabled(cfg, s, RangeReply(id, upTo, fates))
    ensures Inv(cfg, Next(cfg, s, RangeReply(id, upTo, fates)))
  {
    AnswerKeeps(cfg, s, id, ReadFor(s.conns[id], upTo), fates, Next(cfg, s, RangeReply(id, upTo, fates)));
  }

  // ----- all steps, all runs -----

  lemma NextKeeps(cfg: Config, s: State, step: Step)
    requires Inv(cfg, s) && Enabled(cfg, s, step)
    ensures Inv(cfg, Next(cfg, s, step))
  {
    match step
    case PublishScoped(channel, cid) => PublishScopedKeeps(cfg, s, channel, cid);
    case PublishGlobal(number, fid) => PublishGlobalKeeps(cfg, s, number, fid);
    case PublishGarbage(fid) => PublishGarbageKeeps(cfg, s, fid);
    case Connect(id, channel, state, lastId) => ConnectKeeps(cfg, s, id, channel, state, lastId);
    case NoReply => assert Next(cfg, s, NoReply) == s;
    case FirstReply(at, n, fates) => FirstReplyKeeps(cfg, s, at, n, fates);
    case GlobalReply(n, fates) => GlobalReplyKeeps(cfg, s, n, fates);
    case RangeReply(id, upTo, fates) => RangeReplyKeeps(cfg, s, id, upTo, fates);
    case StateChange(id, to) => StateChangeKeeps(cfg, s, id, to);
    case PongReceived(id) => PongKeeps(cfg, s, id);
    case SweepSockets => SweepKeeps(cfg, s);
    case Collect(order) => CollectKeeps(cfg, s, order);
    case Tick(ms) => TickKeeps(cfg, s, ms);
  }

  lemma {:induction false} RunKeeps(cfg: Config, s: State, steps: seq<Step>, t: State)
    requires Inv(cfg, s) && Run(cfg, s, steps, t)
    ensures Inv(cfg, t)
    decreases |steps|
  {
    if steps != [] {
      NextKeeps(cfg, s, steps[0]);
      RunKeeps(cfg, Next(cfg, s, steps[0]), steps[1..], t);
    }
  }

  lemma ReachableInv(cfg: Config, s: State)
    requires Reachable(cfg, s)
    ensures Inv(cfg, s)
  {
    var steps :| Run(cfg, Start, steps, s);
    RunKeeps(cfg, Start, steps, s);
  }
}
