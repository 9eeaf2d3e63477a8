/** The two registries of the WebSocket server as values: which socket ids each channel lists,
    and what is known about each tracked socket. The functions here are what the server's
    handlers do to them; EventServer proves the handlers against these functions. */
module Registries {
  type SocketId = string
  type ChannelId = string

  datatype ReadyState = Connecting | Open | Closing | Closed {
    predicate Active() {
      Open? || Connecting?
    }

    function Rank(): nat {
      match this
      case Connecting => 0
      case Open => 1
      case Closing => 2
      case Closed => 3
    }

    /** A connection never goes back to an earlier state. */
    function Advance(to: ReadyState): ReadyState {
      if Rank() <= to.Rank() then to else this
    }
  }

  datatype Socket = Socket(state: ReadyState, channel: ChannelId, pongTs: int)

  datatype Registry = Registry(channels: map<ChannelId, seq<SocketId>>, sockets: map<SocketId, Socket>) {
    predicate Tracked(id: SocketId) {
      id in sockets
    }

    predicate Alive(id: SocketId) {
      id in sockets && sockets[id].state.Active()
    }
  }

  /** What one call of `ws.send` does: it may throw, and the connection may have moved on. */
  datatype Fate = Fate(throws: bool, after: ReadyState)
  type Fates = map<SocketId, Fate>

  predicate Throws(fates: Fates, id: SocketId) {
    id in fates && fates[id].throws
  }

  // ----- handlers -----

  function Track(r: Registry, id: SocketId, socket: Socket): Registry {
    var listed := if socket.channel in r.channels then r.channels[socket.channel] + [id] else [id];
    Registry(r.channels[socket.channel := listed], r.sockets[id := socket])
  }

  /** The ids that still have a live connection, in order. */
  function AliveIds(r: Registry, ids: seq<SocketId>): seq<SocketId> {
    if ids == [] then []
    else
      var last := ids[|ids| - 1];
      AliveIds(r, ids[..|ids| - 1]) + if r.Alive(last) then [last] else []
  }

  /** The ids that are tracked at all, in order. */
  function TrackedIds(r: Registry, ids: seq<SocketId>): seq<SocketId> {
    if ids == [] then []
    else
      var last := ids[|ids| - 1];
      TrackedIds(r, ids[..|ids| - 1]) + if r.Tracked(last) then [last] else []
  }

  function Listed(r: Registry, channel: ChannelId): seq<SocketId> {
    if channel in r.channels then r.channels[channel] else []
  }

  function Clean(r: Registry, channel: ChannelId): Registry {
    var alive := AliveIds(r, Listed(r, channel));
    r.(channels := if alive == [] then r.channels - {channel} else r.channels[channel := alive])
  }

  function CleanAll(r: Registry, order: seq<ChannelId>): Registry {
    if order == [] then r
    else Clean(CleanAll(r, order[..|order| - 1]), order[|order| - 1])
  }

  predicate Silent(socket: Socket, now: int, timeout: int) {
    now - socket.pongTs >= timeout
  }

  function Sweep(r: Registry, now: int, timeout: int): Registry {
    r.(sockets := map id | id in r.sockets &&
                             !Silent(r.sockets[id], now, timeout) && r.sockets[id].state.Active()
                    :: r.sockets[id])
  }

  function SetState(r: Registry, id: SocketId, to: ReadyState): Registry {
    if id in r.sockets
    then r.(sockets := r.sockets[id := r.sockets[id].(state := r.sockets[id].state.Advance(to))])
    else r
  }

  function Pong(r: Registry, id: SocketId, now: int): Registry {
    if id in r.sockets then r.(sockets := r.sockets[id := r.sockets[id].(pongTs := now)]) else r
  }

  /** One step of the send loop; the flag tells whether `ws.send` was called. */
  function SendOne(r: Registry, channel: ChannelId, id: SocketId, fates: Fates): Registry {
    if id !in r.sockets then Clean(r, channel)
    else
      var sent := if id in fates then SetState(r, id, fates[id].after) else r;
      if Throws(fates, id) then Clean(sent, channel) else sent
  }

  /** The loop runs over the list it was given, whatever `Clean` makes of the channel meanwhile. */
  function SendLoop(r: Registry, channel: ChannelId, ids: seq<SocketId>, fates: Fates): Registry {
    if ids == [] then r
    else SendOne(SendLoop(r, channel, ids[..|ids| - 1], fates), channel, ids[|ids| - 1], fates)
  }

  function Send(r: Registry, channel: ChannelId, fates: Fates): Registry {
    SendLoop(r, channel, Listed(r, channel), fates)
  }

  /** The sockets `Send` calls `ws.send` on, in order. */
  function Recipients(r: Registry, channel: ChannelId): seq<SocketId> {
    TrackedIds(r, Listed(r, channel))
  }

  // ----- agreement between the registries -----

  ghost predicate NoDuplicates<T>(s: seq<T>) {
    forall i, j | 0 <= i < j < |s| :: s[i] != s[j]
  }

  ghost predicate Agree(r: Registry) {
    && (forall id | r.Alive(id) ::
          r.sockets[id].channel in r.channels && id in r.channels[r.sockets[id].channel])
    && (forall c | c in r.channels :: r.channels[c] != [] && NoDuplicates(r.channels[c]))
    && (forall c, id | c in r.channels && id in r.channels[c] && id in r.sockets ::
          r.sockets[id].channel == c)
    && (forall c, d, id | c in r.channels && d in r.channels && id in r.channels[c] && id in r.channels[d] ::
          c == d)
  }

  /** All ids some channel lists. */
  ghost function ListedIds(r: Registry): set<SocketId> {
    set c, id | c in r.channels && id in r.channels[c] :: id
  }

  /** `to` forgets sockets and list entries of `from`, and moves states on, but adds nothing. */
  ghost predicate Shrinks(from: Registry, to: Registry) {
    && to.channels.Keys <= from.channels.Keys
    && (forall c, id | c in to.channels && id in to.channels[c] :: id in from.channels[c])
    && to.sockets.Keys <= from.sockets.Keys
    && (forall id | id in to.sockets ::
          && to.sockets[id].channel == from.sockets[id].channel
          && to.sockets[id].pongTs == from.sockets[id].pongTs
          && from.sockets[id].state.Rank() <= to.sockets[id].state.Rank())
  }

  // ----- lemmas -----

  lemma {:induction false} AliveIdsMeaning(r: Registry, ids: seq<SocketId>)
    ensures forall id :: id in AliveIds(r, ids) <==> id in ids && r.Alive(id)
    ensures NoDuplicates(ids) ==> NoDuplicates(AliveIds(r, ids))
  {
    if ids != [] {
      var init, last := ids[..|ids| - 1], ids[|ids| - 1];
      AliveIdsMeaning(r, init);
      assert ids == init + [last];
    }
  }

  lemma {:induction false} TrackedIdsMeaning(r: Registry, ids: seq<SocketId>)
    ensures forall id :: id in TrackedIds(r, ids) <==> id in ids && r.Tracked(id)
    ensures NoDuplicates(ids) ==> NoDuplicates(TrackedIds(r, ids))
  {
    if ids != [] {
      var init, last := ids[..|ids| - 1], ids[|ids| - 1];
      TrackedIdsMeaning(r, init);
      assert ids == init + [last];
    }
  }

  lemma CleanMeaning(r: Registry, channel: ChannelId)
    ensures var c := Clean(r, channel);
      && c.sockets == r.sockets
      && (forall d | d != channel :: d in c.channels <==> d in r.channels)
      && (forall d | d != channel && d in r.channels :: c.channels[d] == r.channels[d])
      && (channel in c.channels ==> channel in r.channels && c.channels[channel] != [])
      && (channel in c.channels ==> NoDuplicates(r.channels[channel]) ==> NoDuplicates(c.channels[channel]))
      && (channel in c.channels ==>
            forall id :: id in c.channels[channel] <==>
              id in r.channels[channel] && id in r.sockets && r.sockets[id].state in {Connecting, Open})
      && (channel in r.channels && channel !in c.channels ==>
            forall id | id in r.channels[channel] :: id !in r.sockets || r.sockets[id].state in {Closing, Closed})
  {
    AliveIdsMeaning(r, Listed(r, channel));
    var alive := AliveIds(r, Listed(r, channel));
    if alive != [] {
      assert alive[0] in alive;
    }
  }

  lemma TrackAgrees(r: Registry, id: SocketId, socket: Socket)
    requires Agree(r) && id !in r.sockets && id !in ListedIds(r)
    ensures Agree(Track(r, id, socket))
  {
    var t := Track(r, id, socket);
    assert id !in Listed(r, socket.channel);
    assert forall c | c in t.channels && c != socket.channel :: t.channels[c] == r.channels[c];
  }

  /** Tracking enters the socket under its id, and the id at the end of its channel's list alone. */
  lemma TrackMeaning(r: Registry, id: SocketId, socket: Socket)
    ensures var t := Track(r, id, socket);
      && t.sockets == r.sockets[id := socket] && t.channels.Keys == r.channels.Keys + {socket.channel}
      && t.channels[socket.channel] == Listed(r, socket.channel) + [id]
      && forall c | c in r.channels && c != socket.channel :: t.channels[c] == r.channels[c]
  {
  }

  lemma CleanAgrees(r: Registry, channel: ChannelId)
    requires Agree(r)
    ensures Agree(Clean(r, channel)) && Shrinks(r, Clean(r, channel))
  {
    CleanMeaning(r, channel);
  }

  lemma SetStateAgrees(r: Registry, id: SocketId, to: ReadyState)
    requires Agree(r)
    ensures Agree(SetState(r, id, to)) && Shrinks(r, SetState(r, id, to))
  {
    assert forall j | SetState(r, id, to).Alive(j) :: r.Alive(j);
  }

  lemma SweepAgrees(r: Registry, now: int, timeout: int)
    requires Agree(r)
    ensures Agree(Sweep(r, now, timeout)) && Shrinks(r, Sweep(r, now, timeout))
  {
    assert forall j | Sweep(r, now, timeout).Alive(j) :: r.Alive(j);
  }

  lemma PongAgrees(r: Registry, id: SocketId, now: int)
    requires Agree(r)
    ensures Agree(Pong(r, id, now))
    ensures forall j :: Pong(r, id, now).Alive(j) <==> r.Alive(j)
  {
    assert forall j :: Pong(r, id, now).Alive(j) <==> r.Alive(j);
  }

  lemma ShrinksTransitively(a: Registry, b: Registry, c: Registry)
    requires Shrinks(a, b) && Shrinks(b, c)
    ensures Shrinks(a, c)
  {
  }

  lemma SendOneAgrees(r: Registry, channel: ChannelId, id: SocketId, fates: Fates)
    requires Agree(r)
    ensures Agree(SendOne(r, channel, id, fates)) && Shrinks(r, SendOne(r, channel, id, fates))
    ensures SendOne(r, channel, id, fates).sockets.Keys == r.sockets.Keys
  {
    var sent := if id in fates then SetState(r, id, fates[id].after) else r;
    if id in fates {
      SetStateAgrees(r, id, fates[id].after);
    }
    CleanAgrees(r, channel);
    CleanAgrees(sent, channel);
    ShrinksTransitively(r, sent, Clean(sent, channel));
  }

  lemma {:induction false} SendLoopAgrees(r: Registry, channel: ChannelId, ids: seq<SocketId>, fates: Fates)
    requires Agree(r)
    ensures var s := SendLoop(r, channel, ids, fates);
      Agree(s) && Shrinks(r, s) && s.sockets.Keys == r.sockets.Keys
  {
    if ids != [] {
      var init, last := ids[..|ids| - 1], ids[|ids| - 1];
      SendLoopAgrees(r, channel, init, fates);
      var mid := SendLoop(r, channel, init, fates);
      SendOneAgrees(mid, channel, last, fates);
      ShrinksTransitively(r, mid, SendOne(mid, channel, last, fates));
    }
  }

  lemma SendAgrees(r: Registry, channel: ChannelId, fates: Fates)
    requires Agree(r)
    ensures var s := Send(r, channel, fates);
      Agree(s) && Shrinks(r, s) && s.sockets.Keys == r.sockets.Keys
  {
    SendLoopAgrees(r, channel, Listed(r, channel), fates);
  }

  /** `Send` reaches each socket listed at entry and tracked exactly once, no other socket, and
      in particular every live socket of the channel. */
  lemma RecipientsAreExactlyTheChannel(r: Registry, channel: ChannelId)
    requires Agree(r)
    ensures NoDuplicates(Recipients(r, channel))
    ensures forall id :: id in Recipients(r, channel) <==> id in Listed(r, channel) && r.Tracked(id)
    ensures forall id | r.Alive(id) :: id in Recipients(r, channel) <==> r.sockets[id].channel == channel
  {
    TrackedIdsMeaning(r, Listed(r, channel));
  }

  /** What a send does to the channel's list: afterwards it names tracked sockets only, and of those
      whose send threw the live ones; without either it is the list there was. */
  lemma SendTidies(r: Registry, channel: ChannelId, fates: Fates)
    requires Agree(r)
    ensures var s := Send(r, channel, fates);
      && (forall id | id in Listed(s, channel) :: id in r.sockets && (Throws(fates, id) ==> s.Alive(id)))
      && ((forall id | id in Listed(r, channel) :: id in r.sockets && !Throws(fates, id)) ==>
            s.channels == r.channels)
  {
    var s := Send(r, channel, fates);
    TidyUpTo(r, channel, Listed(r, channel), fates);
    assert forall id | id in Listed(s, channel) :: TidyFor(r, s, channel, id, fates);
  }

  lemma TidyOne(r: Registry, channel: ChannelId, id: SocketId, fates: Fates)
    ensures var s := SendOne(r, channel, id, fates);
      && s.sockets.Keys == r.sockets.Keys
      && (forall j | j in r.sockets && j != id :: s.sockets[j] == r.sockets[j])
      && (forall j | j in Listed(s, channel) :: j in Listed(r, channel))
      && (id in Listed(s, channel) ==> id in r.sockets && (Throws(fates, id) ==> s.Alive(id)))
      && (id in r.sockets && !Throws(fates, id) ==> s.channels == r.channels)
  {
    var sent := if id in fates then SetState(r, id, fates[id].after) else r;
    CleanMeaning(r, channel);
    CleanMeaning(sent, channel);
  }

  ghost predicate TidyFor(r: Registry, s: Registry, channel: ChannelId, id: SocketId, fates: Fates) {
    id in Listed(s, channel) ==> id in r.sockets && (Throws(fates, id) ==> s.Alive(id))
  }

  lemma {:induction false} TidyUpTo(r: Registry, channel: ChannelId, ids: seq<SocketId>, fates: Fates)
    requires NoDuplicates(ids)
    ensures var s := SendLoop(r, channel, ids, fates);
      && s.sockets.Keys == r.sockets.Keys
      && (forall id | id in r.sockets && id !in ids :: s.sockets[id] == r.sockets[id])
      && (forall id | id in Listed(s, channel) :: id in Listed(r, channel))
      && (forall id | id in ids :: TidyFor(r, s, channel, id, fates))
      && ((forall id | id in ids :: id in r.sockets && !Throws(fates, id)) ==> s.channels == r.channels)
  {
    if ids != [] {
      var init, last := ids[..|ids| - 1], ids[|ids| - 1];
      var mid, s := SendLoop(r, channel, init, fates), SendLoop(r, channel, ids, fates);
      TidyUpTo(r, channel, init, fates);
      TidyOne(mid, channel, last, fates);
      assert ids == init + [last] && last !in init;
      forall id | id in ids
        ensures TidyFor(r, s, channel, id, fates)
      {
        if id != last {
          assert TidyFor(r, mid, channel, id, fates);
        }
      }
    }
  }

  // ----- a full collection -----

  lemma {:induction false} CleanAllAgrees(r: Registry, order: seq<ChannelId>)
    requires Agree(r)
    ensures var g := CleanAll(r, order); Agree(g) && Shrinks(r, g) && g.sockets == r.sockets
  {
    if order != [] {
      var mid := CleanAll(r, order[..|order| - 1]);
      CleanAllAgrees(r, order[..|order| - 1]);
      CleanAgrees(mid, order[|order| - 1]);
      ShrinksTransitively(r, mid, Clean(mid, order[|order| - 1]));
    }
  }

  /** The channels in `visited` list live sockets only. */
  ghost predicate ListLive(r: Registry, visited: seq<ChannelId>) {
    forall c | c in visited && c in r.channels :: AllAlive(r, r.channels[c])
  }

  ghost predicate AllAlive(r: Registry, ids: seq<SocketId>) {
    forall id | id in ids :: r.Alive(id)
  }

  lemma CleanOneMore(r: Registry, visited: seq<ChannelId>, last: ChannelId)
    requires ListLive(r, visited)
    ensures ListLive(Clean(r, last), visited + [last])
  {
    var g := Clean(r, last);
    CleanMeaning(r, last);
    forall c | c in visited + [last] && c in g.channels
      ensures AllAlive(g, g.channels[c])
    {
      if c != last {
        assert c in visited && AllAlive(r, r.channels[c]);
      }
    }
  }

  lemma {:induction false} CleanAllVisited(r: Registry, order: seq<ChannelId>)
    ensures ListLive(CleanAll(r, order), order)
  {
    if order != [] {
      var init, last := order[..|order| - 1], order[|order| - 1];
      CleanAllVisited(r, init);
      CleanOneMore(CleanAll(r, init), init, last);
      assert order == init + [last];
    }
  }

  lemma CleanAllMeaning(r: Registry, order: seq<ChannelId>)
    requires Agree(r)
    ensures var g := CleanAll(r, order);
      && Agree(g) && Shrinks(r, g) && g.sockets == r.sockets
      && (forall c, id | c in order && c in g.channels && id in g.channels[c] :: r.Alive(id))
  {
    CleanAllAgrees(r, order);
    CleanAllVisited(r, order);
    var g := CleanAll(r, order);
    forall c, id | c in order && c in g.channels && id in g.channels[c]
      ensures r.Alive(id)
    {
      assert AllAlive(g, g.channels[c]);
      assert g.Alive(id);
    }
  }

  /** After a pass over every channel exactly the live sockets are listed. */
  lemma CollectionListsTheLive(r: Registry, order: seq<ChannelId>)
    requires Agree(r) && forall c | c in r.channels :: c in order
    ensures forall id :: id in ListedIds(CleanAll(r, order)) <==> r.Alive(id)
  {
    var g := CleanAll(r, order);
    CleanAllMeaning(r, order);
    forall id
      ensures id in ListedIds(g) <==> r.Alive(id)
    {
      if r.Alive(id) {
        assert g.Alive(id);
      }
      assert forall c | c in g.channels && id in g.channels[c] :: c in order;
    }
  }

  /** The registries, allowed to disagree in between, coincide again after a sweep of the sockets
      followed by a collection of the channels. */
  lemma SweepThenCollectAgrees(r: Registry, now: int, timeout: int, order: seq<ChannelId>)
    requires Agree(r) && forall c | c in r.channels :: c in order
    ensures var g := CleanAll(Sweep(r, now, timeout), order);
      Agree(g) && ListedIds(g) == g.sockets.Keys
  {
    var swept := Sweep(r, now, timeout);
    SweepAgrees(r, now, timeout);
    CleanAllMeaning(swept, order);
    CollectionListsTheLive(swept, order);
  }
}
