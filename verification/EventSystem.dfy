/** The WebSocket event server as a state machine over whole runs: publishers append to Redis,
    the global reader and the reconnection range reads deliver, sockets come and go, time passes.
    A publisher appends an event to its channel's own stream and later, in a step of its own, to the
    global stream; Redis gives it an id in each, and other publishers may come in between. */
module EventSystem {
  import opened Options
  import opened Registries
  import opened StreamIds

  /** Jobs are numbered in the order in which they reached their channels' streams. */
  datatype Payload = Garbage | Job(channel: ChannelId, number: nat)

  /** A record of a stream, and what is sent to the sockets for it. */
  datatype Event = Event(id: StreamId, payload: Payload) {
    predicate On(channel: ChannelId) {
      payload.Job? && payload.channel == channel
    }
  }

  // ----- Redis reads -----

  ghost predicate Sorted(log: seq<Event>) {
    forall i, j | 0 <= i < j < |log| :: log[i].id.Lt(log[j].id)
  }

  /** How many records of the stream have an id up to and including `id`. */
  function Upto(log: seq<Event>, id: StreamId): (n: nat)
    ensures n <= |log|
  {
    if log == [] then 0
    else if log[|log| - 1].id.Le(id) then |log|
    else Upto(log[..|log| - 1], id)
  }

  lemma {:induction false} UptoSplits(log: seq<Event>, id: StreamId)
    requires Sorted(log)
    ensures forall i | 0 <= i < |log| :: log[i].id.Le(id) <==> i < Upto(log, id)
  {
    if log != [] && !log[|log| - 1].id.Le(id) {
      UptoSplits(log[..|log| - 1], id);
      assert forall i | 0 <= i < |log| - 1 :: log[..|log| - 1][i] == log[i];
    }
  }

  lemma UptoAt(log: seq<Event>, i: nat)
    requires Sorted(log) && i < |log|
    ensures Upto(log, log[i].id) == i + 1
  {
    UptoSplits(log, log[i].id);
    var n := Upto(log, log[i].id);
    assert n < |log| ==> !log[n].id.Le(log[i].id);
    assert n > 0 ==> log[n - 1].id.Le(log[i].id);
  }

  lemma UptoAppend(log: seq<Event>, e: Event, id: StreamId)
    ensures Upto(log + [e], id) == if e.id.Le(id) then |log| + 1 else Upto(log, id)
  {
    assert (log + [e])[..|log|] == log;
  }

  lemma SlicesJoin(log: seq<Event>, a: nat, b: nat, c: nat)
    requires a <= b <= c <= |log|
    ensures log[a..b] + log[b..c] == log[a..c]
  {
  }

  /** XREAD COUNT n: the first records with an id greater than the cursor. */
  function Xread(log: seq<Event>, cursor: StreamId, n: nat): seq<Event>
  {
    var from := Upto(log, cursor);
    log[from..if from + n <= |log| then from + n else |log|]
  }

  /** A range read of a channel stream: ids from `lo` on, up to `hi` when there is an upper end,
      as of the moment when the first `upTo` jobs had been published. */
  datatype Read = Read(lo: StreamId, hi: Option<StreamId>, upTo: nat) {
    predicate Covers(e: Event, i: nat) {
      i < upTo && lo.Le(e.id) && (hi.Some? ==> e.id.Le(hi.value))
    }
  }

  /** `scoped` holds the records of all channels' streams, in the order in which they came in. */
  function Xrange(scoped: seq<Event>, channel: ChannelId, r: Read): seq<Event>
  {
    if scoped == [] then []
    else
      var last := scoped[|scoped| - 1];
      Xrange(scoped[..|scoped| - 1], channel, r)
        + if last.On(channel) && r.Covers(last, |scoped| - 1) then [last] else []
  }

  ghost predicate Numbered(scoped: seq<Event>) {
    forall j | 0 <= j < |scoped| :: scoped[j].payload.Job? && scoped[j].payload.number == j
  }

  /** A range read returns each record of the channel that it covers once, and nothing else. */
  lemma {:induction false} XrangeMeaning(scoped: seq<Event>, channel: ChannelId, r: Read)
    requires Numbered(scoped)
    ensures forall e | e in Xrange(scoped, channel, r) :: e in scoped && e.On(channel)
    ensures forall j | 0 <= j < |scoped| ::
      multiset(Xrange(scoped, channel, r))[scoped[j]] ==
        if scoped[j].On(channel) && r.Covers(scoped[j], j) then 1 else 0
  {
    if scoped != [] {
      var init, last := scoped[..|scoped| - 1], scoped[|scoped| - 1];
      XrangeMeaning(init, channel, r);
      assert forall j | 0 <= j < |scoped| - 1 :: init[j] == scoped[j] && scoped[j] != last;
      assert last !in init;
    }
  }

  // ----- delivering a batch -----

  /** Every record is handled on its own; one that does not parse is skipped. */
  function Process(r: Registry, batch: seq<Event>, fates: seq<Fates>): Registry
  {
    if batch == [] then r
    else
      var e := batch[|batch| - 1];
      var before := Process(r, batch[..|batch| - 1], fates);
      if e.payload.Garbage? then before else Send(before, e.payload.channel, FateAt(fates, |batch| - 1))
  }

  function FateAt(fates: seq<Fates>, i: nat): Fates {
    if i < |fates| then fates[i] else map[]
  }

  /** How often `ws.send` of which socket was called with which record. */
  function Sent(r: Registry, batch: seq<Event>, fates: seq<Fates>): multiset<(SocketId, Event)>
  {
    if batch == [] then multiset{}
    else
      var e := batch[|batch| - 1];
      var before := Process(r, batch[..|batch| - 1], fates);
      Sent(r, batch[..|batch| - 1], fates) + SentOf(before, e)
  }

  function SentOf(r: Registry, e: Event): multiset<(SocketId, Event)> {
    if e.payload.Garbage? then multiset{} else multiset(set id | id in Recipients(r, e.payload.channel) :: (id, e))
  }

  lemma {:induction false} ProcessAgrees(r: Registry, batch: seq<Event>, fates: seq<Fates>)
    requires Agree(r)
    ensures var p := Process(r, batch, fates);
      Agree(p) && Shrinks(r, p) && p.sockets.Keys == r.sockets.Keys
  {
    if batch != [] {
      var e := batch[|batch| - 1];
      ProcessAgrees(r, batch[..|batch| - 1], fates);
      var before := Process(r, batch[..|batch| - 1], fates);
      if !e.payload.Garbage? {
        SendAgrees(before, e.payload.channel, FateAt(fates, |batch| - 1));
        ShrinksTransitively(r, before, Process(r, batch, fates));
      }
    }
  }

  /** A socket that is still live after the batch was sent exactly the batch's records for its
      channel, each as often as the batch holds it, whatever the sends to other sockets did to the
      registries on the way. */
  lemma {:induction false} LiveSocketsGetTheBatch(r: Registry, batch: seq<Event>, fates: seq<Fates>,
                                                  k: SocketId, e: Event)
    requires Agree(r) && Process(r, batch, fates).Alive(k)
    ensures r.Alive(k)
    ensures Sent(r, batch, fates)[(k, e)] == if e.On(r.sockets[k].channel) then multiset(batch)[e] else 0
  {
    if batch != [] {
      var init, last := batch[..|batch| - 1], batch[|batch| - 1];
      assert multiset(batch) == multiset(init) + multiset{last} by { assert batch == init + [last]; }
      AliveOnTheWay(r, batch, fates, k);
      LiveSocketsGetTheBatch(r, init, fates, k, e);
      LiveSocketsGetTheRecord(Process(r, init, fates), last, k, e);
    }
  }

  /** A socket live after a batch was live before its last record, on the same channel. */
  lemma AliveOnTheWay(r: Registry, batch: seq<Event>, fates: seq<Fates>, k: SocketId)
    requires Agree(r) && batch != [] && Process(r, batch, fates).Alive(k)
    ensures var before := Process(r, batch[..|batch| - 1], fates);
      Agree(before) && before.Alive(k) && k in r.sockets && before.sockets[k].channel == r.sockets[k].channel
  {
    var init, last := batch[..|batch| - 1], batch[|batch| - 1];
    ProcessAgrees(r, init, fates);
    if last.payload.Job? {
      SendAgrees(Process(r, init, fates), last.payload.channel, FateAt(fates, |batch| - 1));
    }
  }

  lemma LiveSocketsGetTheRecord(r: Registry, last: Event, k: SocketId, e: Event)
    requires Agree(r) && r.Alive(k)
    ensures SentOf(r, last)[(k, e)] == if e == last && e.On(r.sockets[k].channel) then 1 else 0
  {
    if last.payload.Job? {
      RecipientsAreExactlyTheChannel(r, last.payload.channel);
    }
  }

  lemma {:induction false} SentIsBounded(r: Registry, batch: seq<Event>, fates: seq<Fates>)
    requires Agree(r)
    ensures forall p | p in Sent(r, batch, fates) :: p.0 in r.sockets && p.1 in batch
  {
    if batch != [] {
      var e := batch[|batch| - 1];
      SentIsBounded(r, batch[..|batch| - 1], fates);
      ProcessAgrees(r, batch[..|batch| - 1], fates);
      var before := Process(r, batch[..|batch| - 1], fates);
      if !e.payload.Garbage? {
        RecipientsAreExactlyTheChannel(before, e.payload.channel);
      }
      assert forall p | p in SentOf(before, e) :: p.0 in before.sockets && p.1 == e;
    }
  }

  // ----- the machine -----

  datatype Config = Config(timeout: nat, period: nat)

  /** What the model remembers of a connection: when it joined and which range reads were handled
      on its channel since. `joined` is the number of records the global reader had passed,
      `published` the number of jobs that had reached their channels' streams. */
  datatype Conn = Conn(channel: ChannelId, joined: nat, published: nat, cursor: Option<StreamId>,
                       lastId: Option<StreamId>, pending: bool, replies: seq<Read>)

  /** `origin` is the position of the first record the global reader ever took; the sends are kept
      apart by who made them. */
  datatype State = State(reg: Registry, cursor: Option<StreamId>, log: seq<Event>, scoped: seq<Event>,
                         origin: nat, handed: seq<Event>, conns: map<SocketId, Conn>,
                         byReader: multiset<(SocketId, Event)>, byRange: multiset<(SocketId, Event)>,
                         now: int, lastSweep: int)

  const Start := State(Registry(map[], map[]), None, [], [], 0, [], map[], multiset{}, multiset{}, 0, 0)

  /** How many records the global reader has passed. */
  function Passed(cursor: Option<StreamId>, log: seq<Event>): (n: nat)
    ensures n <= |log|
  {
    if cursor.None? then 0 else Upto(log, cursor.value)
  }

  function Position(s: State): nat {
    Passed(s.cursor, s.log)
  }

  datatype Step =
      // the two halves of publishing an event, and a record that is no event
    | PublishScoped(channel: ChannelId, cid: StreamId)
    | PublishGlobal(number: nat, fid: StreamId)
    | PublishGarbage(fid: StreamId)
    | Connect(id: SocketId, channel: ChannelId, state: ReadyState, lastId: Option<StreamId>)
      // a read that times out, comes back empty or fails leaves everything as it is
    | NoReply
      // the first reply, while the cursor is still `$`
    | FirstReply(at: nat, n: nat, fates: seq<Fates>)
    | GlobalReply(n: nat, fates: seq<Fates>)
    | RangeReply(id: SocketId, upTo: nat, fates: seq<Fates>)
    | StateChange(id: SocketId, to: ReadyState)
    | PongReceived(id: SocketId)
    | SweepSockets
    | Collect(order: seq<ChannelId>)
    | Tick(ms: nat)

  /** Redis gives a record an id above all before it. */
  ghost predicate AtTheEnd(log: seq<Event>, id: StreamId) {
    forall i | 0 <= i < |log| :: log[i].id.Lt(id)
  }

  ghost predicate Enabled(cfg: Config, s: State, step: Step) {
    match step
    case PublishScoped(channel, cid) =>
      forall j | 0 <= j < |s.scoped| && s.scoped[j].On(channel) :: s.scoped[j].id.Lt(cid)
    case PublishGlobal(number, fid) =>
      && number < |s.scoped| && AtTheEnd(s.log, fid)
      && forall i | 0 <= i < |s.log| && s.log[i].payload.Job? :: s.log[i].payload.number != number
    case PublishGarbage(fid) => AtTheEnd(s.log, fid)
    case Connect(id, _, _, lastId) => id !in s.conns && (lastId.Some? ==> lastId.value.seqNo < SAFE_LIMIT)
    case FirstReply(at, n, _) => s.cursor.None? && n > 0 && at + n <= |s.log|
    case GlobalReply(n, _) => s.cursor.Some? && Xread(s.log, s.cursor.value, n) != []
    case RangeReply(id, upTo, _) =>
      id in s.conns && s.conns[id].pending && s.conns[id].lastId.Some? && s.conns[id].published <= upTo <= |s.scoped|
    case Collect(order) => forall c :: c in order <==> c in s.reg.channels
    case Tick(ms) => s.now + ms <= s.lastSweep + cfg.period
    case _ => true
  }

  /** The global reader hands the batch on and then moves its cursor to the batch's last id. */
  function Advance(s: State, batch: seq<Event>, fates: seq<Fates>): State
    requires batch != []
  {
    s.(reg := Process(s.reg, batch, fates), byReader := s.byReader + Sent(s.reg, batch, fates),
       cursor := Some(batch[|batch| - 1].id), handed := s.handed + batch)
  }

  /** The answer to the range read of `id` is handed on. */
  function Answer(s: State, id: SocketId, read: Read, batch: seq<Event>, fates: seq<Fates>): State
    requires id in s.conns
  {
    s.(reg := Process(s.reg, batch, fates), byRange := s.byRange + Sent(s.reg, batch, fates),
       conns := Noted(s.conns, id, read))
  }

  function ReadFor(c: Conn, upTo: nat): Read
    requires c.lastId.Some?
  {
    Read(c.lastId.value.Succ(), c.cursor, upTo)
  }

  ghost function Next(cfg: Config, s: State, step: Step): State
    requires Enabled(cfg, s, step)
  {
    match step
    case PublishScoped(channel, cid) => s.(scoped := s.scoped + [Event(cid, Job(channel, |s.scoped|))])
    case PublishGlobal(number, fid) => s.(log := s.log + [Event(fid, s.scoped[number].payload)])
    case PublishGarbage(fid) => s.(log := s.log + [Event(fid, Garbage)])
    case Connect(id, channel, state, lastId) =>
      s.(reg := Track(s.reg, id, Socket(state, channel, s.now)),
         conns := s.conns[id := Conn(channel, Position(s), |s.scoped|, s.cursor, lastId, lastId.Some?, [])])
    case NoReply => s
    case FirstReply(at, n, fates) => Advance(s, s.log[at..at + n], fates).(origin := at)
    case GlobalReply(n, fates) => Advance(s, Xread(s.log, s.cursor.value, n), fates)
    case RangeReply(id, upTo, fates) =>
      var read := ReadFor(s.conns[id], upTo);
      Answer(s, id, read, Xrange(s.scoped, s.conns[id].channel, read), fates)
    case StateChange(id, to) => s.(reg := SetState(s.reg, id, to))
    case PongReceived(id) => s.(reg := Pong(s.reg, id, s.now))
    case SweepSockets => s.(reg := Sweep(s.reg, s.now, cfg.timeout), lastSweep := s.now)
    case Collect(order) => s.(reg := CleanAll(s.reg, order))
    case Tick(ms) => s.(now := s.now + ms)
  }

  /** The range read of `id` has been handled: it went to every socket of the channel. */
  function Noted(conns: map<SocketId, Conn>, id: SocketId, read: Read): map<SocketId, Conn>
    requires id in conns
  {
    map k | k in conns ::
      if conns[k].channel != conns[id].channel then conns[k]
      else conns[k].(replies := conns[k].replies + [read], pending := if k == id then false else conns[k].pending)
  }

  /** A run: each step is enabled where it is taken. */
  ghost predicate Run(cfg: Config, s: State, steps: seq<Step>, t: State)
    decreases |steps|
  {
    if steps == [] then s == t
    else Enabled(cfg, s, steps[0]) && Run(cfg, Next(cfg, s, steps[0]), steps[1..], t)
  }

  ghost predicate Reachable(cfg: Config, s: State) {
    exists steps :: Run(cfg, Start, steps, s)
  }
}
