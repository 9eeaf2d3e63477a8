/** The handlers of the WebSocket server over its mutable registries, proved against Registries
    and EventSystem. Redis replies, the clock, generated ids and the outcome of each `ws.send` are
    parameters. */
module EventServer {
  import opened EventSystem
  import opened Options
  import opened Registries
  import opened Sequences
  import opened StreamIds

  class WebSocket {
    var readyState: ReadyState
    // what has been asked of the connection so far
    var sends: seq<Event>
    var pings: seq<SocketId>
    var terminated: bool

    constructor (state: ReadyState)
      ensures readyState == state && sends == [] && pings == [] && !terminated
    {
      readyState, sends, pings, terminated := state, [], [], false;
    }

    method Send(message: Event, fate: Fate) returns (threw: bool)
      modifies this
      ensures readyState == old(readyState).Advance(fate.after) && threw == fate.throws
      ensures sends == old(sends) + [message] && pings == old(pings) && terminated == old(terminated)
    {
      sends := sends + [message];
      readyState := readyState.Advance(fate.after);
      threw := fate.throws;
    }

    method Ping(id: SocketId)
      modifies this`pings
      ensures pings == old(pings) + [id]
    {
      pings := pings + [id];
    }

    method Terminate()
      modifies this`terminated, this`readyState
      ensures terminated && readyState == old(readyState).Advance(Closing)
    {
      terminated, readyState := true, readyState.Advance(Closing);
    }
  }

  class SocketInstance {
    const ws: WebSocket
    const channel: ChannelId
    var pongTs: int

    constructor (ws: WebSocket, channel: ChannelId, now: int)
      ensures this.ws == ws && this.channel == channel && pongTs == now
    {
      this.ws, this.channel, this.pongTs := ws, channel, now;
    }

    ghost function Seen(): Contact
      reads this, ws
    {
      Contact(pongTs, ws.readyState, ws.pings, ws.terminated)
    }
  }

  /** What the check of the sockets looks at and leaves behind. */
  datatype Contact = Contact(pongTs: int, state: ReadyState, pings: seq<SocketId>, terminated: bool)

  /** Socket `k` is still tracked exactly when it has answered within the timeout and is connecting or
      open; then it was pinged once, and one that has not answered was terminated. */
  predicate Checked(k: SocketId, tracked: bool, before: Contact, after: Contact, now: int, timeout: int) {
    && (tracked <==> now - before.pongTs < timeout && before.state in {Connecting, Open})
    && after.pongTs == before.pongTs && after.pings == before.pings + (if tracked then [k] else [])
    && (after.terminated <==> before.terminated || now - before.pongTs >= timeout)
  }

  /** ... of all sockets but those in `rest`, which are still to come. */
  ghost predicate CheckedAll(before: map<SocketId, Contact>, after: map<SocketId, Contact>, tracked: set<SocketId>,
                             rest: set<SocketId>, now: int, timeout: int)
  {
    && after.Keys == before.Keys && tracked <= before.Keys
    && forall k | k in before ::
         if k in rest then k in tracked && after[k] == before[k]
         else Checked(k, k in tracked, before[k], after[k], now, timeout)
  }

  lemma CheckedOneMore(before: map<SocketId, Contact>, seen: map<SocketId, Contact>, after: map<SocketId, Contact>,
                       tracked: set<SocketId>, left: set<SocketId>, rest: set<SocketId>, k: SocketId,
                       now: int, timeout: int)
    requires CheckedAll(before, seen, tracked, rest, now, timeout) && k in rest && k in before
    requires k in after && after == seen[k := after[k]] && left == tracked - (if k in left then {} else {k})
    requires Checked(k, k in left, seen[k], after[k], now, timeout)
    ensures CheckedAll(before, after, left, rest - {k}, now, timeout)
  {
  }

  class ChannelValue {
    var sockets: seq<SocketId>

    constructor (first: SocketId)
      ensures sockets == [first]
    {
      sockets := [first];
    }
  }

  /** A reply of the blocking read of the global stream, or what came instead; `at` is where the
      reply starts while there is no cursor yet. */
  datatype Take = Timeout | Empty | ReadError | Records(at: nat, count: nat, fates: seq<Fates>)

  /** The range read a reconnecting client asks for, as the texts given to Redis. */
  datatype RangeRequest = RangeRequest(channel: ChannelId, startId: string, endId: string)

  class Server {
    var channels: map<ChannelId, ChannelValue>
    var sockets: map<SocketId, SocketInstance>
    var lastFirehoseId: Option<StreamId>

    ghost function Connections(): set<WebSocket>
      reads this`sockets
    {
      set k | k in sockets :: sockets[k].ws
    }

    /** Every channel and every socket id has a record of its own. */
    ghost predicate Valid()
      reads this`channels, this`sockets
    {
      OwnChannelValues() && OwnInstances()
    }

    ghost predicate OwnChannelValues()
      reads this`channels
    {
      forall c, d | c in channels && d in channels && c != d :: channels[c] != channels[d]
    }

    ghost predicate OwnInstances()
      reads this`sockets
    {
      forall j, k | j in sockets && k in sockets && j != k ::
        sockets[j] != sockets[k] && sockets[j].ws != sockets[k].ws
    }

    ghost function View(): Registry
      reads this`channels, this`sockets, channels.Values, sockets.Values, Connections()
    {
      Registry(map c | c in channels :: channels[c].sockets,
               map k | k in sockets :: Socket(sockets[k].ws.readyState, sockets[k].channel, sockets[k].pongTs))
    }

    /** What `ws.send` of each tracked socket has been called with so far. */
    ghost function Sends(): map<SocketId, seq<Event>>
      reads this`sockets, Connections()
    {
      map k | k in sockets :: sockets[k].ws.sends
    }

    constructor ()
      ensures Valid() && View() == Start.reg && lastFirehoseId == Start.cursor
    {
      channels, sockets, lastFirehoseId := map[], map[], None;
    }

    method TrackClient(channel: ChannelId, instance: SocketInstance, socketId: SocketId)
      requires Valid() && socketId !in sockets && instance.channel == channel
      requires forall k | k in sockets :: sockets[k] != instance && sockets[k].ws != instance.ws
      modifies this`channels, this`sockets, channels.Values
      ensures Valid() && sockets == old(sockets)[socketId := instance]
      ensures View() == Track(old(View()), socketId, Socket(instance.ws.readyState, channel, instance.pongTs))
    {
      AddSocket(instance, socketId);
      ListUnder(channel, socketId);
      assert [] + [socketId] == [socketId];
    }

    method AddSocket(instance: SocketInstance, socketId: SocketId)
      requires Valid() && socketId !in sockets
      requires forall k | k in sockets :: sockets[k] != instance && sockets[k].ws != instance.ws
      modifies this`sockets
      ensures Valid() && sockets == old(sockets)[socketId := instance]
      ensures var socket := Socket(instance.ws.readyState, instance.channel, instance.pongTs);
        View() == old(View()).(sockets := old(View()).sockets[socketId := socket])
    {
      ghost var before := View();
      sockets := sockets[socketId := instance];
      assert View().sockets == before.sockets[socketId :=
        Socket(instance.ws.readyState, instance.channel, instance.pongTs)];
    }

    /** The part of trackClient that enters the id into its channel's list. */
    method ListUnder(channel: ChannelId, socketId: SocketId)
      requires Valid()
      modifies this`channels, channels.Values
      ensures Valid()
      ensures View().sockets == old(View()).sockets
      ensures View().channels == old(View()).channels[channel := Listed(old(View()), channel) + [socketId]]
    {
      ghost var before := View();
      if channel in channels {
        channels[channel].sockets := channels[channel].sockets + [socketId];
        assert View().channels == before.channels[channel := before.channels[channel] + [socketId]];
      } else {
        var value := new ChannelValue(socketId);
        channels := channels[channel := value];
        assert View().channels == before.channels[channel := [socketId]];
      }
      assert [] + [socketId] == [socketId];
    }

    /** The filter cleanChannel runs over a channel's list. */
    method ActiveSockets(ids: seq<SocketId>) returns (activeSockets: seq<SocketId>)
      ensures activeSockets == AliveIds(View(), ids)
    {
      activeSockets := [];
      for i := 0 to |ids|
        invariant activeSockets == AliveIds(View(), ids[..i])
      {
        assert ids[..i + 1][..i] == ids[..i];
        if ids[i] in sockets {
          var instance := sockets[ids[i]];
          if instance.ws.readyState == Open || instance.ws.readyState == Connecting {
            activeSockets := activeSockets + [ids[i]];
          }
        }
      }
      assert ids[..|ids|] == ids;
    }

    method CleanChannel(channel: ChannelId)
      requires Valid()
      modifies this`channels, channels.Values
      ensures Valid() && channels.Values <= old(channels.Values)
      ensures View() == Clean(old(View()), channel) && Sends() == old(Sends())
    {
      ghost var before := View();
      var activeSockets := [];
      if channel in channels {
        activeSockets := ActiveSockets(channels[channel].sockets);
        assert View() == before;
      }
      if |activeSockets| == 0 {
        DropChannel(channel);
      } else {
        ReplaceSockets(channel, activeSockets);
      }
    }

    method ReplaceSockets(channel: ChannelId, activeSockets: seq<SocketId>)
      requires Valid() && channel in channels
      modifies channels[channel]
      ensures Valid()
      ensures View() == old(View()).(channels := old(View()).channels[channel := activeSockets])
      ensures Sends() == old(Sends())
    {
      ghost var before := View();
      channels[channel].sockets := activeSockets;
      assert View().channels == before.channels[channel := activeSockets];
    }

    method DropChannel(channel: ChannelId)
      requires Valid()
      modifies this`channels
      ensures Valid() && channels == old(channels) - {channel}
      ensures View() == old(View()).(channels := old(View()).channels - {channel})
    {
      ghost var before := View();
      channels := channels - {channel};
      assert View().channels == before.channels - {channel};
    }

    /** A send to one socket shows in its entry alone. */
    twostate lemma OnlyOneSent(new id: SocketId, new message: Event)
      requires old(Valid()) && sockets == old(sockets) && channels == old(channels) && id in sockets
      requires sockets[id].ws.sends == old(sockets[id].ws.sends) + [message]
      requires forall k | k in sockets && k != id :: unchanged(sockets[k].ws)
      requires forall k | k in sockets :: unchanged(sockets[k])
      requires forall c | c in channels :: unchanged(channels[c])
      ensures View().channels == old(View()).channels
      ensures View().sockets == old(View()).sockets[id := old(View()).sockets[id].(state := sockets[id].ws.readyState)]
      ensures Sends() == Appended(old(Sends()), [id], message)
    {
    }

    /** `ws.send` on a tracked socket. */
    method SendOn(socketId: SocketId, message: Event, fates: Fates) returns (threw: bool)
      requires Valid() && socketId in sockets
      modifies sockets[socketId].ws
      ensures threw == Throws(fates, socketId)
      ensures View() ==
        if socketId in fates then SetState(old(View()), socketId, fates[socketId].after) else old(View())
      ensures Sends() == Appended(old(Sends()), [socketId], message)
    {
      ghost var before, sends := View(), Sends();
      var instance := sockets[socketId];
      var fate := if socketId in fates then fates[socketId] else Fate(false, instance.ws.readyState);
      threw := instance.ws.Send(message, fate);
      OnlyOneSent(socketId, message);
    }

    /** The body of sendToChannel's loop. */
    method SendTo(channel: ChannelId, socketId: SocketId, message: Event, fates: Fates)
      requires Valid()
      modifies this`channels, channels.Values, Connections()
      ensures Valid() && channels.Values <= old(channels.Values)
      ensures View() == SendOne(old(View()), channel, socketId, fates)
      ensures Sends() == Appended(old(Sends()), [socketId], message)
    {
      if socketId !in sockets {
        CleanChannel(channel);
        AppendedToNobody(Sends(), socketId, message);
      } else {
        var threw := SendOn(socketId, message, fates);
        if threw {
          CleanChannel(channel);
        }
      }
    }

    /** sendToChannel's loop over the list it found at entry; `CleanChannel` may replace that list
        or drop the channel while the loop runs. */
    method SendToEach(channel: ChannelId, ids: seq<SocketId>, message: Event, fates: Fates)
      requires Valid() && NoDuplicates(ids)
      modifies this`channels, channels.Values, Connections()
      ensures Valid() && channels.Values <= old(channels.Values)
      ensures View() == SendLoop(old(View()), channel, ids, fates)
      ensures Sends() == Appended(old(Sends()), ids, message)
    {
      ghost var before, sends := View(), Sends();
      assert Appended(sends, ids[..0], message) == sends;
      for i := 0 to |ids|
        invariant Valid() && channels.Values <= old(channels.Values)
        invariant View() == SendLoop(before, channel, ids[..i], fates)
        invariant Sends() == Appended(sends, ids[..i], message)
      {
        SendTo(channel, ids[i], message, fates);
        assert ids[..i + 1][..i] == ids[..i];
        AppendedStep(sends, ids, i, message);
      }
      assert ids[..|ids|] == ids;
    }

    method SendToChannel(channel: ChannelId, message: Event, fates: Fates)
      requires Valid() && NoDuplicates(Listed(View(), channel))
      modifies this`channels, channels.Values, Connections()
      ensures Valid() && channels.Values <= old(channels.Values)
      ensures View() == Send(old(View()), channel, fates)
      ensures Sends() == Appended(old(Sends()), Recipients(old(View()), channel), message)
    {
      ghost var before, sends := View(), Sends();
      TrackedIdsMeaning(before, Listed(before, channel));
      assert Appended(sends, Listed(before, channel), message) == Appended(sends, Recipients(before, channel), message);
      if channel !in channels {
        return;
      }
      SendToEach(channel, channels[channel].sockets, message, fates);
    }

    method ProcessStreamResults(results: seq<Event>, fates: seq<Fates>)
      requires Valid() && Agree(View())
      modifies this`channels, channels.Values, Connections()
      ensures Valid() && channels.Values <= old(channels.Values)
      ensures View() == Process(old(View()), results, fates)
      ensures Sends() == Extended(old(Sends()), old(View()), results, fates)
    {
      ghost var before, sends := View(), Sends();
      ExtendedByNothing(sends, before, fates);
      for i := 0 to |results|
        invariant Valid() && channels.Values <= old(channels.Values)
        invariant View() == Process(before, results[..i], fates)
        invariant Sends() == Extended(sends, before, results[..i], fates)
      {
        assert results[..i + 1][..i] == results[..i];
        ProcessAgrees(before, results[..i], fates);
        ExtendedByOne(sends, before, results[..i], results[i], fates);
        assert results[..i] + [results[i]] == results[..i + 1];
        // a record that does not parse raises, is logged, and the next one is taken
        if results[i].payload.Job? {
          SendToChannel(results[i].payload.channel, results[i], FateAt(fates, i));
        }
      }
      assert results[..|results|] == results;
    }

    method SetLastFirehoseId(id: StreamId)
      modifies this`lastFirehoseId
      ensures lastFirehoseId == Some(id) && View() == old(View()) && Sends() == old(Sends())
    {
      lastFirehoseId := Some(id);
    }

    /** One turn of the reader's endless loop; the result is what it handed to the listener. */
    method ReadOnce(stream: seq<Event>, take: Take) returns (results: seq<Event>)
      requires Valid() && Agree(View())
      modifies this`channels, this`lastFirehoseId, channels.Values, Connections()
      ensures Valid() && channels.Values <= old(channels.Values)
      ensures results == if take.Records? then Reply(stream, old(lastFirehoseId), take) else []
      ensures results == [] ==>
        View() == old(View()) && Sends() == old(Sends()) && lastFirehoseId == old(lastFirehoseId)
      ensures results != [] ==>
        && View() == Process(old(View()), results, take.fates)
        && Sends() == Extended(old(Sends()), old(View()), results, take.fates)
        && lastFirehoseId == Some(results[|results| - 1].id)
    {
      results := if take.Records? then Reply(stream, lastFirehoseId, take) else [];
      if |results| != 0 {
        ProcessStreamResults(results, take.fates);
        SetLastFirehoseId(results[|results| - 1].id);
      }
    }

    /** A turn, with its result appended to what was handed on before. */
    method ReadOnto(before: seq<Event>, stream: seq<Event>, take: Take) returns (handed: seq<Event>)
      requires Valid() && Agree(View())
      modifies this`channels, this`lastFirehoseId, channels.Values, Connections()
      ensures Valid() && channels.Values <= old(channels.Values)
      ensures Reader(View(), Sends(), lastFirehoseId, handed) ==
        ReadOne(Reader(old(View()), old(Sends()), old(lastFirehoseId), before), stream, take)
    {
      var results := ReadOnce(stream, take);
      assert before + [] == before;
      handed := before + results;
    }

    /** The reader's endless loop, over as many replies as `takes` lists; the result is all it
        handed to the listener. */
    method SubscribeToGlobalStream(stream: seq<Event>, takes: seq<Take>) returns (handed: seq<Event>)
      requires Valid() && Agree(View())
      modifies this`channels, this`lastFirehoseId, channels.Values, Connections()
      ensures Valid()
      ensures Reader(View(), Sends(), lastFirehoseId, handed) ==
        ReadAll(Reader(old(View()), old(Sends()), old(lastFirehoseId), []), stream, takes)
    {
      handed := [];
      ghost var start := Reader(View(), Sends(), lastFirehoseId, []);
      for i := 0 to |takes|
        invariant Valid() && channels.Values <= old(channels.Values)
        invariant Reader(View(), Sends(), lastFirehoseId, handed) == ReadAll(start, stream, takes[..i])
      {
        ReadAllAgrees(start, stream, takes[..i]);
        handed := ReadOnto(handed, stream, takes[i]);
        ReadAllStep(start, stream, takes, i);
      }
      assert takes[..|takes|] == takes;
    }

    /** Forgetting sockets shows, but nothing that leaves the state of the others as it was. */
    twostate lemma OnlyForgets(new gone: set<SocketId>)
      requires sockets == old(sockets) - gone && channels == old(channels)
      requires forall k | k in sockets ::
        unchanged(sockets[k]) && sockets[k].ws.readyState == old(sockets[k].ws.readyState)
      requires forall c | c in channels :: unchanged(channels[c])
      ensures View() == old(View()).(sockets := old(View()).sockets - gone)
    {
      assert View().sockets == old(View()).sockets - gone && View().channels == old(View()).channels;
    }

    /** checkSockets for one socket: terminate and forget it, forget it, or ping it. */
    method CheckSocket(socketId: SocketId, now: int, timeout: int) returns (isActive: bool)
      requires Valid() && socketId in sockets
      modifies this`sockets, sockets[socketId].ws
      ensures Valid() && isActive == Stays(old(View()), socketId, now, timeout)
      ensures isActive <==>
        now - old(sockets[socketId].pongTs) < timeout && old(sockets[socketId].ws.readyState) in {Connecting, Open}
      ensures sockets == if isActive then old(sockets) else old(sockets) - {socketId}
      ensures View() == if isActive then old(View()) else old(View()).(sockets := old(View()).sockets - {socketId})
      ensures var ws := old(sockets[socketId].ws);
        && ws.sends == old(ws.sends)
        && ws.pings == old(ws.pings) + (if isActive then [socketId] else [])
        && (ws.terminated <==> old(ws.terminated) || now - old(sockets[socketId].pongTs) >= timeout)
    {
      ghost var before := View();
      var instance := sockets[socketId];
      var silence := now - instance.pongTs;
      isActive := true;
      if silence >= timeout {
        instance.ws.Terminate();
        isActive := false;
      } else if instance.ws.readyState != Open && instance.ws.readyState != Connecting {
        isActive := false;
      }
      if isActive {
        instance.ws.Ping(socketId);
        assert sockets == old(sockets) - {} && before.sockets - {} == before.sockets;
        OnlyForgets({});
      } else {
        sockets := sockets - {socketId};
        OnlyForgets({socketId});
      }
    }

    /** The loop body of checkSockets; `was` are the sockets at its start. */
    method CheckNext(ghost was: map<SocketId, SocketInstance>, socketId: SocketId, now: int, timeout: int)
      requires Valid() && socketId in sockets && OwnSockets(was)
      requires forall k | k in sockets :: k in was && sockets[k] == was[k]
      modifies this`sockets, sockets[socketId].ws
      ensures Valid()
      ensures forall k | k in sockets :: k in was && sockets[k] == was[k]
      ensures View() == if Stays(old(View()), socketId, now, timeout) then old(View())
                        else old(View()).(sockets := old(View()).sockets - {socketId})
      ensures sockets.Keys == old(sockets.Keys) - (if socketId in sockets then {} else {socketId})
      ensures SeenOf(was) == old(SeenOf(was))[socketId := SeenOf(was)[socketId]]
      ensures Checked(socketId, socketId in sockets, old(SeenOf(was))[socketId], SeenOf(was)[socketId], now, timeout)
    {
      ghost var before := SeenOf(was);
      var _ := CheckSocket(socketId, now, timeout);
      assert SeenOf(was) == before[socketId := SeenOf(was)[socketId]];
    }

    method CheckSockets(now: int, timeout: int)
      requires Valid()
      modifies this`sockets, Connections()
      ensures Valid() && View() == Sweep(old(View()), now, timeout)
      ensures CheckedAll(old(SeenOf(sockets)), SeenOf(old(sockets)), sockets.Keys, {}, now, timeout)
    {
      ghost var before, was, contacts := View(), sockets, SeenOf(sockets);
      var rest := sockets.Keys;
      SweptBounds(before, now, timeout);
      while rest != {}
        invariant Valid() && rest <= sockets.Keys && OwnSockets(was)
        invariant forall k | k in sockets :: k in was && sockets[k] == was[k]
        invariant View() == PartlySwept(before, rest, now, timeout)
        invariant CheckedAll(contacts, SeenOf(was), sockets.Keys, rest, now, timeout)
        decreases rest
      {
        var socketId :| socketId in rest;
        SweptOneMore(before, rest, socketId, now, timeout);
        ghost var seen, tracked := SeenOf(was), sockets.Keys;
        CheckNext(was, socketId, now, timeout);
        CheckedOneMore(contacts, seen, SeenOf(was), tracked, sockets.Keys, rest, socketId, now, timeout);
        rest := rest - {socketId};
      }
    }

    /** The collection over all channels, in whatever order the keys come. */
    method Gc() returns (order: seq<ChannelId>)
      requires Valid()
      modifies this`channels, channels.Values
      ensures Valid() && View() == CleanAll(old(View()), order)
      ensures forall c :: c in order <==> c in old(channels)
    {
      ghost var before := View();
      order := [];
      var rest := channels.Keys;
      while rest != {}
        invariant Valid() && channels.Values <= old(channels.Values)
        invariant View() == CleanAll(before, order)
        invariant forall c :: c in old(channels) <==> c in order || c in rest
        decreases rest
      {
        var channel :| channel in rest;
        rest := rest - {channel};
        CleanChannel(channel);
        assert (order + [channel])[..|order|] == order;
        order := order + [channel];
      }
    }

    method PongFrom(socketId: SocketId, now: int)
      requires Valid()
      modifies sockets.Values
      ensures View() == Pong(old(View()), socketId, now)
      ensures forall k | k in sockets :: sockets[k].pongTs == if k == socketId then now else old(sockets[k].pongTs)
    {
      ghost var before := View();
      if socketId in sockets {
        var instance := sockets[socketId];
        instance.pongTs := now;
        assert View().sockets == Pong(before, socketId, now).sockets;
      }
    }

    /** A new connection, with the range read it asks for when the client names a last id. */
    method WsConnection(ws: WebSocket, channel: ChannelId, lastId: Option<string>, now: int, socketId: SocketId)
      returns (request: Option<RangeRequest>)
      requires Valid() && socketId !in sockets && ws !in Connections()
      modifies this`channels, this`sockets, channels.Values
      ensures Valid() && View() == Track(old(View()), socketId, Socket(ws.readyState, channel, now))
      ensures request.Some? <==> lastId.Some? && lastId.value != ""
      ensures request.Some? ==> request.value.channel == channel && request.value.startId == IncrementId(lastId.value)
      ensures forall x: StreamId | lastId == Some(x.Render()) && x.seqNo < SAFE_LIMIT ::
        request.Some? && request.value.startId == x.Succ().Render()
      ensures request.Some? ==>
        request.value.endId == if lastFirehoseId.None? then "+" else lastFirehoseId.value.Render()
    {
      var instance := new SocketInstance(ws, channel, now);
      TrackClient(channel, instance, socketId);
      if lastId.Some? && lastId.value != "" {
        var endId := if lastFirehoseId.None? then "+" else lastFirehoseId.value.Render();
        request := Some(RangeRequest(channel, IncrementId(lastId.value), endId));
      } else {
        request := None;
      }
      forall x: StreamId | x.seqNo < SAFE_LIMIT
        ensures IncrementId(x.Render()) == x.Succ().Render() && x.Render() != ""
      {
        IncrementIdIsSuccessor(x);
      }
    }
  }

  ghost predicate OwnSockets(sockets: map<SocketId, SocketInstance>) {
    forall j, k | j in sockets && k in sockets && j != k :: sockets[j].ws != sockets[k].ws
  }

  ghost function SeenOf(sockets: map<SocketId, SocketInstance>): map<SocketId, Contact>
    reads set k | k in sockets :: sockets[k], set k | k in sockets :: sockets[k].ws
  {
    map k | k in sockets :: sockets[k].Seen()
  }

  predicate Stays(r: Registry, id: SocketId, now: int, timeout: int)
    requires id in r.sockets
  {
    !Silent(r.sockets[id], now, timeout) && r.sockets[id].state.Active()
  }

  /** The registry when the sweep still has the sockets in `rest` to look at. */
  ghost function PartlySwept(r: Registry, rest: set<SocketId>, now: int, timeout: int): Registry {
    r.(sockets := map k | k in r.sockets && (k in rest || Stays(r, k, now, timeout)) :: r.sockets[k])
  }

  lemma SweptBounds(r: Registry, now: int, timeout: int)
    ensures PartlySwept(r, r.sockets.Keys, now, timeout) == r
    ensures PartlySwept(r, {}, now, timeout) == Sweep(r, now, timeout)
  {
    assert PartlySwept(r, r.sockets.Keys, now, timeout).sockets == r.sockets;
    assert PartlySwept(r, {}, now, timeout).sockets == Sweep(r, now, timeout).sockets;
  }

  lemma SweptOneMore(r: Registry, rest: set<SocketId>, id: SocketId, now: int, timeout: int)
    requires id in r.sockets && id in rest
    ensures var before, after := PartlySwept(r, rest, now, timeout), PartlySwept(r, rest - {id}, now, timeout);
      id in before.sockets && after == if Stays(before, id, now, timeout) then before
                                       else before.(sockets := before.sockets - {id})
  {
    var before, after := PartlySwept(r, rest, now, timeout), PartlySwept(r, rest - {id}, now, timeout);
    assert Stays(before, id, now, timeout) ==> after.sockets == before.sockets;
    assert !Stays(before, id, now, timeout) ==> after.sockets == before.sockets - {id};
  }

  // ----- what the reader's loop does, reply by reply -----

  datatype Reader = Reader(reg: Registry, sends: map<SocketId, seq<Event>>,
                           cursor: Option<StreamId>, handed: seq<Event>)

  function Reply(stream: seq<Event>, cursor: Option<StreamId>, take: Take): seq<Event>
    requires take.Records?
  {
    if cursor.Some? then Xread(stream, cursor.value, take.count)
    else
      var from := if take.at <= |stream| then take.at else |stream|;
      stream[from..if from + take.count <= |stream| then from + take.count else |stream|]
  }

  function ReadOne(s: Reader, stream: seq<Event>, take: Take): Reader
  {
    var batch := if take.Records? then Reply(stream, s.cursor, take) else [];
    if batch == [] then s
    else Reader(Process(s.reg, batch, take.fates), Extended(s.sends, s.reg, batch, take.fates),
                Some(batch[|batch| - 1].id), s.handed + batch)
  }

  function ReadAll(s: Reader, stream: seq<Event>, takes: seq<Take>): Reader
  {
    if takes == [] then s
    else ReadOne(ReadAll(s, stream, takes[..|takes| - 1]), stream, takes[|takes| - 1])
  }

  lemma ReadAllStep(s: Reader, stream: seq<Event>, takes: seq<Take>, i: nat)
    requires i < |takes|
    ensures ReadAll(s, stream, takes[..i + 1]) == ReadOne(ReadAll(s, stream, takes[..i]), stream, takes[i])
  {
    assert takes[..i + 1][..i] == takes[..i];
  }

  lemma {:induction false} ReadAllAgrees(s: Reader, stream: seq<Event>, takes: seq<Take>)
    requires Agree(s.reg)
    ensures Agree(ReadAll(s, stream, takes).reg)
  {
    if takes != [] {
      var take := takes[|takes| - 1];
      var before := ReadAll(s, stream, takes[..|takes| - 1]);
      ReadAllAgrees(s, stream, takes[..|takes| - 1]);
      if take.Records? {
        ProcessAgrees(before.reg, Reply(stream, before.cursor, take), take.fates);
      }
    }
  }

  /** Whatever replies come, and whatever comes instead of them, the reader hands over the records
      right after the cursor it started from, each once and in order. */
  lemma {:induction false} ReaderIsContiguous(s: Reader, stream: seq<Event>, takes: seq<Take>)
    requires Sorted(stream) && s.cursor.Some?
    ensures var t := ReadAll(s, stream, takes);
      && t.cursor.Some? && Upto(stream, s.cursor.value) <= Upto(stream, t.cursor.value)
      && t.handed == s.handed + stream[Upto(stream, s.cursor.value)..Upto(stream, t.cursor.value)]
  {
    if takes != [] {
      var init, take := takes[..|takes| - 1], takes[|takes| - 1];
      ReaderIsContiguous(s, stream, init);
      var before := ReadAll(s, stream, init);
      if take.Records? && Reply(stream, before.cursor, take) != [] {
        ReadOneIsNext(before, stream, take);
        ContiguousJoin(s.handed, stream, Upto(stream, s.cursor.value), Upto(stream, before.cursor.value),
                       Upto(stream, ReadOne(before, stream, take).cursor.value));
      }
    }
  }

  lemma ContiguousJoin(handed: seq<Event>, stream: seq<Event>, a: nat, b: nat, c: nat)
    requires a <= b <= c <= |stream|
    ensures (handed + stream[a..b]) + stream[b..c] == handed + stream[a..c]
  {
    Regroup(handed, stream[a..b], stream[b..c]);
    SlicesJoin(stream, a, b, c);
  }

  lemma ReadOneIsNext(s: Reader, stream: seq<Event>, take: Take)
    requires Sorted(stream) && s.cursor.Some? && take.Records? && Reply(stream, s.cursor, take) != []
    ensures var t := ReadOne(s, stream, take);
      && t.cursor.Some? && Upto(stream, s.cursor.value) <= Upto(stream, t.cursor.value)
      && t.handed == s.handed + stream[Upto(stream, s.cursor.value)..Upto(stream, t.cursor.value)]
  {
    XreadIsNext(stream, s.cursor.value, take.count);
  }

  lemma XreadIsNext(stream: seq<Event>, cursor: StreamId, count: nat)
    requires Sorted(stream) && Xread(stream, cursor, count) != []
    ensures var batch := Xread(stream, cursor, count);
      var last := batch[|batch| - 1].id;
      Upto(stream, cursor) <= Upto(stream, last) && batch == stream[Upto(stream, cursor)..Upto(stream, last)]
  {
    var b := Upto(stream, cursor);
    var c := if b + count <= |stream| then b + count else |stream|;
    assert stream[b..c][c - b - 1] == stream[c - 1];
    UptoAt(stream, c - 1);
  }

  // ----- inboxes -----

  function Appended(sends: map<SocketId, seq<Event>>, ids: seq<SocketId>, message: Event): map<SocketId, seq<Event>>
  {
    map k | k in sends :: if k in ids then sends[k] + [message] else sends[k]
  }

  lemma AppendedToNobody(sends: map<SocketId, seq<Event>>, id: SocketId, message: Event)
    requires id !in sends
    ensures Appended(sends, [id], message) == sends
  {
  }

  lemma AppendedStep(sends: map<SocketId, seq<Event>>, ids: seq<SocketId>, i: nat, message: Event)
    requires i < |ids| && NoDuplicates(ids)
    ensures Appended(Appended(sends, ids[..i], message), [ids[i]], message) == Appended(sends, ids[..i + 1], message)
  {
    assert ids[..i + 1] == ids[..i] + [ids[i]];
    assert forall k :: k in ids[..i + 1] <==> k in ids[..i] || k == ids[i];
    assert ids[i] !in ids[..i];
  }

  function Extended(sends: map<SocketId, seq<Event>>, r: Registry, batch: seq<Event>, fates: seq<Fates>)
    : map<SocketId, seq<Event>>
  {
    map k | k in sends :: sends[k] + Inbox(r, batch, fates, k)
  }

  lemma ExtendedByNothing(sends: map<SocketId, seq<Event>>, r: Registry, fates: seq<Fates>)
    ensures Extended(sends, r, [], fates) == sends
  {
    assert forall k | k in sends :: sends[k] + [] == sends[k];
  }

  lemma ExtendedByOne(sends: map<SocketId, seq<Event>>, r: Registry, init: seq<Event>, last: Event, fates: seq<Fates>)
    ensures Extended(sends, r, init + [last], fates) ==
      if last.payload.Garbage? then Extended(sends, r, init, fates)
      else Appended(Extended(sends, r, init, fates), Recipients(Process(r, init, fates), last.payload.channel), last)
  {
    assert (init + [last])[..|init|] == init;
    var before := Extended(sends, r, init, fates);
    var after := if last.payload.Garbage? then before
                 else Appended(before, Recipients(Process(r, init, fates), last.payload.channel), last);
    forall k | k in sends
      ensures Extended(sends, r, init + [last], fates)[k] == after[k]
    {
      var tail := Delivered(r, init, last, fates, k);
      assert sends[k] + (Inbox(r, init, fates, k) + tail) == before[k] + tail;
      assert before[k] + [] == before[k];
    }
  }

  /** The records of a batch that `ws.send` of socket `k` is called with, in order. */
  function Inbox(r: Registry, batch: seq<Event>, fates: seq<Fates>, k: SocketId): seq<Event>
  {
    if batch == [] then []
    else
      var init, last := batch[..|batch| - 1], batch[|batch| - 1];
      Inbox(r, init, fates, k) + Delivered(r, init, last, fates, k)
  }

  function Delivered(r: Registry, init: seq<Event>, last: Event, fates: seq<Fates>, k: SocketId): seq<Event>
  {
    if last.payload.Job? && k in Recipients(Process(r, init, fates), last.payload.channel) then [last] else []
  }

  /** `inbox` are the records of the batch that are events of the channel, in the batch's order. */
  ghost predicate InboxAt(batch: seq<Event>, channel: ChannelId, pos: seq<nat>, inbox: seq<Event>) {
    && Increasing(pos) && |inbox| == |pos|
    && (forall i :: i in pos <==> 0 <= i < |batch| && batch[i].payload.Job? && batch[i].payload.channel == channel)
    && (forall k | 0 <= k < |pos| :: pos[k] < |batch| && inbox[k] == batch[pos[k]])
  }

  /** A socket that is still live after a batch was sent the batch's events for its channel, each of them
      once for every time the batch holds it, in the batch's order. */
  lemma {:induction false} LiveInboxInOrder(r: Registry, batch: seq<Event>, fates: seq<Fates>, k: SocketId)
    returns (pos: seq<nat>)
    requires Agree(r) && Process(r, batch, fates).Alive(k)
    ensures r.Alive(k) && InboxAt(batch, r.sockets[k].channel, pos, Inbox(r, batch, fates, k))
  {
    if batch == [] {
      pos := [];
    } else {
      var init, last := batch[..|batch| - 1], batch[|batch| - 1];
      var before := Process(r, init, fates);
      AliveOnTheWay(r, batch, fates, k);
      var earlier := LiveInboxInOrder(r, init, fates, k);
      if last.payload.Job? {
        RecipientsAreExactlyTheChannel(before, last.payload.channel);
      }
      var more := last.On(r.sockets[k].channel);
      pos := earlier + if more then [|init|] else [];
      OneMoreRecord(batch, r.sockets[k].channel, earlier, Inbox(r, init, fates, k));
    }
  }

  lemma OneMoreRecord(batch: seq<Event>, channel: ChannelId, pos: seq<nat>, inbox: seq<Event>)
    requires batch != [] && InboxAt(batch[..|batch| - 1], channel, pos, inbox)
    ensures var last := batch[|batch| - 1];
      var more := last.On(channel);
      InboxAt(batch, channel, pos + (if more then [|batch| - 1] else []), inbox + if more then [last] else [])
  {
    var n, last := |batch| - 1, batch[|batch| - 1];
    var r := pos + if last.On(channel) then [n] else [];
    assert forall i :: i in r <==> i in pos || (last.On(channel) && i == n);
    assert forall i | 0 <= i < n :: batch[..n][i] == batch[i];
  }

  /** The run model's account of what was sent is the contents of the inboxes, count by count. */
  lemma {:induction false} InboxIsWhatWasSent(r: Registry, batch: seq<Event>, fates: seq<Fates>, k: SocketId, e: Event)
    ensures multiset(Inbox(r, batch, fates, k))[e] == Sent(r, batch, fates)[(k, e)]
  {
    if batch != [] {
      var init, last := batch[..|batch| - 1], batch[|batch| - 1];
      InboxIsWhatWasSent(r, init, fates, k, e);
    }
  }
}
