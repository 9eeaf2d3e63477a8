/** Runs of the event server in which a reconnecting client loses an event. */
module EventRuns {
  import opened EventSystem
  import opened EventSafety
  import opened EventTheorems
  import opened Options
  import opened Registries
  import opened StreamIds

  // ----- how runs go on -----

  lemma {:induction false} RunExtends(cfg: Config, s: State, steps: seq<Step>, t: State, step: Step)
    requires Run(cfg, s, steps, t) && Enabled(cfg, t, step)
    ensures Run(cfg, s, steps + [step], Next(cfg, t, step))
    decreases |steps|
  {
    if steps == [] {
      assert Run(cfg, Next(cfg, s, step), [], Next(cfg, t, step));
      assert ([step])[1..] == [];
    } else {
      RunExtends(cfg, Next(cfg, s, steps[0]), steps[1..], t, step);
      assert (steps + [step])[1..] == steps[1..] + [step];
    }
  }

  lemma ReachesNext(cfg: Config, s: State, step: Step)
    requires Reachable(cfg, s) && Enabled(cfg, s, step)
    ensures Reachable(cfg, Next(cfg, s, step))
  {
    var steps :| Run(cfg, Start, steps, s);
    RunExtends(cfg, Start, steps, s, step);
  }

  lemma StartIsReachable(cfg: Config)
    ensures Reachable(cfg, Start)
  {
    assert Run(cfg, Start, [], Start);
  }

  /** Sends that leave every state as it is harm nobody. */
  lemma {:induction false} NoFateNoHarm(r: Registry, batch: seq<Event>)
    ensures Process(r, batch, []).sockets == r.sockets
  {
    if batch != [] {
      var init, e := batch[..|batch| - 1], batch[|batch| - 1];
      NoFateNoHarm(r, init);
      assert FateAt([], |batch| - 1) == map[];
      if e.payload.Job? {
        var before := Process(r, init, []);
        NoFateInLoop(before, e.payload.channel, Listed(before, e.payload.channel));
      }
    }
  }

  lemma {:induction false} NoFateInLoop(r: Registry, channel: ChannelId, ids: seq<SocketId>)
    ensures SendLoop(r, channel, ids, map[]).sockets == r.sockets
  {
    if ids != [] {
      NoFateInLoop(r, channel, ids[..|ids| - 1]);
    }
  }

  /** The reader's first reply: it starts at record `at`, and no socket dies of it. */
  lemma FirstTaken(cfg: Config, s: State, at: nat, n: nat) returns (t: State)
    requires Reachable(cfg, s) && s.cursor.None? && n > 0 && at + n <= |s.log|
    ensures Reachable(cfg, t)
    ensures t.cursor == Some(s.log[at + n - 1].id) && t.origin == at && t.reg.sockets == s.reg.sockets
    ensures t.log == s.log && t.scoped == s.scoped && t.conns == s.conns
  {
    var reply := FirstReply(at, n, []);
    ReachesNext(cfg, s, reply);
    t := Next(cfg, s, reply);
    assert s.log[at..at + n][n - 1] == s.log[at + n - 1];
    NoFateNoHarm(s.reg, s.log[at..at + n]);
  }

  /** Client `k` reconnects on channel `c` with a last id, and its range read is answered at once. */
  lemma Rejoined(cfg: Config, s: State, last: StreamId) returns (t: State)
    requires Reachable(cfg, s) && "k" !in s.conns && last.seqNo < SAFE_LIMIT
    ensures Reachable(cfg, t) && t.reg.Alive("k") && "k" in t.conns
    ensures t.conns["k"] == Conn("c", Position(s), |s.scoped|, s.cursor, Some(last), false,
                                 [Read(last.Succ(), s.cursor, |s.scoped|)])
    ensures t.log == s.log && t.scoped == s.scoped && t.cursor == s.cursor && t.origin == s.origin
  {
    var connect := Connect("k", "c", Open, Some(last));
    ReachesNext(cfg, s, connect);
    var joined := Next(cfg, s, connect);
    var reply := RangeReply("k", |s.scoped|, []);
    ReachesNext(cfg, joined, reply);
    t := Next(cfg, joined, reply);
    NoFateNoHarm(joined.reg, Xrange(joined.scoped, "c", ReadFor(joined.conns["k"], |s.scoped|)));
    assert [] + [Read(last.Succ(), s.cursor, |s.scoped|)] == [Read(last.Succ(), s.cursor, |s.scoped|)];
  }

  lemma ScopedPublished(cfg: Config, s: State, e: Event) returns (t: State)
    requires Reachable(cfg, s) && e.On("c") && e.payload.number == |s.scoped|
    requires Enabled(cfg, s, PublishScoped("c", e.id))
    ensures Reachable(cfg, t) && t == s.(scoped := s.scoped + [e])
  {
    ReachesNext(cfg, s, PublishScoped("c", e.id));
    t := Next(cfg, s, PublishScoped("c", e.id));
  }

  lemma GlobalPublished(cfg: Config, s: State, e: Event) returns (t: State)
    requires Reachable(cfg, s) && e.payload.Job? && e.payload.number < |s.scoped|
    requires s.scoped[e.payload.number].payload == e.payload && Enabled(cfg, s, PublishGlobal(e.payload.number, e.id))
    ensures Reachable(cfg, t) && t == s.(log := s.log + [e])
  {
    ReachesNext(cfg, s, PublishGlobal(e.payload.number, e.id));
    t := Next(cfg, s, PublishGlobal(e.payload.number, e.id));
  }

  /** An event gets one id in both streams. */
  lemma Published(cfg: Config, s: State, id: StreamId) returns (t: State)
    requires Reachable(cfg, s) && |s.log| == |s.scoped| && Enabled(cfg, s, PublishScoped("c", id))
    requires forall e | e in s.log :: e.id.Lt(id) && e.payload.Job? && e.payload.number < |s.scoped|
    ensures var e := Event(id, Job("c", |s.scoped|));
      Reachable(cfg, t) && t == s.(scoped := s.scoped + [e], log := s.log + [e])
  {
    var e := Event(id, Job("c", |s.scoped|));
    var a := ScopedPublished(cfg, s, e);
    t := GlobalPublished(cfg, a, e);
  }

  // ----- the upper end of the range read -----

  /** Two publishers within one millisecond: job 1 comes second in the channel's stream and first in
      the global one. The reader has passed it, the range read ends before it, and the client never
      gets it. */
  lemma IdsApartCanGap(cfg: Config) returns (s: State)
    ensures Reachable(cfg, s) && s.reg.Alive("k") && "k" in s.conns && s.conns["k"].cursor.Some?
    ensures !NoGap(s, "k", s.conns["k"], ByChannelStream)
  {
    StartIsReachable(cfg);
    var a := ScopedPublished(cfg, Start, Event(StreamId(2, 0), Job("c", 0)));
    var b := ScopedPublished(cfg, a, Event(StreamId(2, 1), Job("c", 1)));
    var g := GlobalPublished(cfg, b, Event(StreamId(2, 0), Job("c", 1)));
    var p := FirstTaken(cfg, g, 0, 1);
    UptoAt(p.log, 0);
    s := Rejoined(cfg, p, StreamId(1, 0));
    ReconnectGapExactly(cfg, s, "k", ByChannelStream);
    assert Scoped(s, 0).id == StreamId(2, 1);
    assert Wanted(s, s.conns["k"], ByChannelStream, 0);
  }

  // ----- the lower end of the range read -----

  lemma TwoPassed(cfg: Config) returns (s: State)
    ensures Reachable(cfg, s) && s.conns == map[] && s.cursor == Some(StreamId(5, 0)) && Position(s) == 2
    ensures s.scoped == [Event(StreamId(2, 0), Job("c", 0)), Event(StreamId(3, 0), Job("c", 1))]
    ensures s.log == [Event(StreamId(4, 0), Job("c", 0)), Event(StreamId(5, 0), Job("c", 1))]
  {
    StartIsReachable(cfg);
    var a := ScopedPublished(cfg, Start, Event(StreamId(2, 0), Job("c", 0)));
    var b := ScopedPublished(cfg, a, Event(StreamId(3, 0), Job("c", 1)));
    var g := GlobalPublished(cfg, b, Event(StreamId(4, 0), Job("c", 0)));
    var h := GlobalPublished(cfg, g, Event(StreamId(5, 0), Job("c", 1)));
    s := FirstTaken(cfg, h, 0, 2);
    UptoAt(s.log, 1);
  }

  /** The client's last id is the one the global reader sent with job 0; the range read starts after
      it in the channel's stream, where job 1 has a smaller id. Nothing is missing by the channel
      stream's numbers, and job 1 is missing by the global ones. */
  lemma GlobalLastIdCanGap(cfg: Config) returns (s: State)
    ensures Reachable(cfg, s) && s.reg.Alive("k") && "k" in s.conns && s.conns["k"].cursor.Some?
    ensures NoGap(s, "k", s.conns["k"], ByChannelStream) && OnceEach(s, "k", s.conns["k"], ByChannelStream)
    ensures !NoGap(s, "k", s.conns["k"], ByGlobalStream)
  {
    var p := TwoPassed(cfg);
    s := Rejoined(cfg, p, StreamId(4, 0));
    var c := s.conns["k"];
    assert Scoped(s, 0).id == StreamId(2, 0) && Scoped(s, 1).id == StreamId(3, 0);
    assert forall i | 0 <= i < 2 :: !Wanted(s, c, ByChannelStream, i);
    ReconnectGapExactly(cfg, s, "k", ByGlobalStream);
    assert Wanted(s, c, ByGlobalStream, 1) && !InReadRange(s, c, 1);
  }

  // ----- the cursor that is still `$` -----

  lemma SecondTaken(cfg: Config) returns (s: State)
    ensures Reachable(cfg, s) && s.reg.Alive("k") && "k" in s.conns && s.cursor.Some? && s.origin == 1
    ensures s.conns["k"] == Conn("c", 0, 0, None, Some(StreamId(1, 0)), false, [Read(StreamId(1, 1), None, 0)])
    ensures s.scoped == [Event(StreamId(2, 0), Job("c", 0)), Event(StreamId(3, 0), Job("c", 1))] == s.log
  {
    StartIsReachable(cfg);
    var w := Rejoined(cfg, Start, StreamId(1, 0));
    var b := Published(cfg, w, StreamId(2, 0));
    var e := Published(cfg, b, StreamId(3, 0));
    s := FirstTaken(cfg, e, 1, 1);
  }

  /** A client reconnects while the cursor is still `$`, and its range read finds nothing; then two
      events are published, and the reader's first reply starts with the second. The first is lost
      to the client, although it asked for everything since before it. */
  lemma FirstReplyCanGap(cfg: Config) returns (s: State)
    ensures Reachable(cfg, s) && s.reg.Alive("k") && "k" in s.conns && s.conns["k"].cursor.None?
    ensures !NoGap(s, "k", s.conns["k"], ByChannelStream) && !NoGap(s, "k", s.conns["k"], ByGlobalStream)
  {
    s := SecondTaken(cfg);
    FirstReplyGapExactly(cfg, s, "k", ByChannelStream);
    FirstReplyGapExactly(cfg, s, "k", ByGlobalStream);
    assert s.log[0].id == StreamId(2, 0) && Scoped(s, 0).id == StreamId(2, 0);
    assert Wanted(s, s.conns["k"], ByChannelStream, 0) && Wanted(s, s.conns["k"], ByGlobalStream, 0);
  }
}
