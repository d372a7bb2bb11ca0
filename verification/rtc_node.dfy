/** The backend's signalling node (backend/rtc_node.py, `RTCNode`): a
    registry of peer connections keyed by client id, and the relay messages it
    emits to the Socket.IO signalling server. Every operation is a transition
    from one node state to the next together with the events it emits, the
    connections it closes and the exception it raises, if any. Every emitted
    event goes to the `/connect` namespace. */
module RtcNode {
  import opened Wrappers
  import opened Dicts
  import opened Json
  import opened Media
  import HostId
  import Messenger
  import opened Seqs

  /** A peer connection. `serial` stands for the object's identity: each
      `RTCPeerConnection()` the node creates gets the next serial. `local`
      and `remote` are the descriptions set on it. */
  datatype Peer = Peer(serial: nat, local: Option<Description>, remote: Option<Description>)

  /** One `sio.emit(event, payload)`. `encoded` says whether the payload was
      passed through `json.dumps` first (every relay message is; `join_room`
      is sent as a plain dict). */
  datatype Emit = Emit(event: string, payload: Value, encoded: bool)

  datatype Node = Node(
    connections: Dict<string, Peer>,
    hostId: string,
    serverUrl: string,
    roomId: string,
    connected: bool,   // the Socket.IO client's `connected` flag
    nextSerial: nat)

  /** What a handler leaves behind: the next state, the events it emitted in
      order, the connections it closed in order, and the exception it raised. */
  datatype Effect = Effect(next: Node, emitted: seq<Emit>, closed: seq<Peer>, fault: Option<Fault>)

  const ServerUrl := "http://localhost:5000"
  const RoomId := "audio_room"

  /** The representation invariant: a real dictionary, and every registered
      connection was created before the counter's current value. */
  ghost predicate Valid(n: Node)
  {
    Distinct(n.connections) &&
    forall k :: Get(n.connections, k).Some? ==> Get(n.connections, k).value.serial < n.nextSerial
  }

  /** `RTCNode()` on a machine whose hardware address is `mac`. */
  function NewNode(mac: nat): (n: Node)
    ensures Valid(n) && n.connections == [] && !n.connected
    ensures HostId.IsMac(mac) ==> HostId.IsHostId(n.hostId) && HostId.MacOf(n.hostId) == mac
    ensures n.serverUrl == ServerUrl && n.roomId == RoomId
  {
    assert HostId.IsMac(mac) ==> HostId.IsHostId(HostId.HostIdOf(mac)) && HostId.MacOf(HostId.HostIdOf(mac)) == mac by {
      if HostId.IsMac(mac) { HostId.HostIdRoundTrip(mac); }
    }
    Node([], HostId.HostIdOf(mac), ServerUrl, RoomId, false, 0)
  }

  /** Everything but the registry and the counter agrees. */
  predicate SameSettings(a: Node, b: Node)
  {
    a.hostId == b.hostId && a.serverUrl == b.serverUrl && a.roomId == b.roomId && a.connected == b.connected
  }

  function Quiet(n: Node): Effect
  {
    Effect(n, [], [], None)
  }

  function Raise(n: Node, f: Fault): Effect
  {
    Effect(n, [], [], Some(f))
  }

  /** The payload of an `offer` event. */
  function OfferPayload(local: Description, clientId: string, roomId: string): Value
  {
    Obj([("sdp", local.sdp), ("type", local.kind), ("client_id", Str(clientId)), ("room_id", Str(roomId))])
  }

  /** The `offer` event for a connection whose local description is `local`. */
  function OfferEvent(local: Description, clientId: string, roomId: string): Emit
  {
    Emit("offer", OfferPayload(local, clientId, roomId), true)
  }

  /** The payload of an `answer` event. */
  function AnswerPayload(hostSid: string, local: Description, roomId: string): Value
  {
    Obj([("host_sid", Str(hostSid)), ("sdp", local.sdp), ("type", local.kind), ("room_id", Str(roomId))])
  }

  /** The payload of an `ice_candidate` event. */
  function IcePayload(candidate: Object, clientId: string, roomId: string): Value
  {
    Obj([("candidate", Obj(candidate)), ("client_id", Str(clientId)), ("room_id", Str(roomId))])
  }

  /** `sendOffer(c)`: a new connection replaces whatever was registered under
      `c` (the old one is dropped without being closed), takes the offer the
      media engine produced as its local description, and exactly one
      `offer` event goes out carrying `c` and the room. */
  function SendOffer(n: Node, c: string, offer: Description): (e: Effect)
    ensures e.fault.None? && e.closed == []
    ensures Get(e.next.connections, c) == Some(Peer(n.nextSerial, Some(offer), None))
    ensures forall k :: k != c ==> Get(e.next.connections, k) == Get(n.connections, k)
    ensures e.emitted == [OfferEvent(offer, c, n.roomId)]
    ensures e.next == n.(connections := e.next.connections, nextSerial := n.nextSerial + 1)
  {
    var pc := Peer(n.nextSerial, Some(offer), None);
    Effect(n.(connections := Put(n.connections, c, pc), nextSerial := n.nextSerial + 1),
           [OfferEvent(offer, c, n.roomId)], [], None)
  }

  /** A client id that was registered keeps its place in the registry; a
      new one is registered last. */
  lemma SendOfferKeys(n: Node, c: string, offer: Description)
    ensures var e := SendOffer(n, c, offer);
            Keys(e.next.connections) == if c in Keys(n.connections) then Keys(n.connections) else Keys(n.connections) + [c]
  {
    PutKeys(n.connections, c, Peer(n.nextSerial, Some(offer), None));
  }

  /** `sendAnswerAndConnect(sid, candidate)`: the new connection is registered
      under `sid` before the candidate is read, so a candidate without `sdp`
      or `type` (or one that is not a dict) raises and leaves a bare
      connection behind. `answer` is what the engine makes of the offer: the
      exception `setRemoteDescription` raises for an offer it cannot apply,
      which also leaves the bare connection behind, or the local answer it
      produces. In that case the connection gets the offer as its remote and
      the answer as its local description, and exactly one `answer` event
      goes out carrying `sid` and the room. */
  function SendAnswerAndConnect(n: Node, sid: string, candidate: Value, answer: Result<Description, Fault>): (e: Effect)
    ensures e.closed == []
    ensures forall k :: k != sid ==> Get(e.next.connections, k) == Get(n.connections, k)
    ensures Keys(e.next.connections) == if sid in Keys(n.connections) then Keys(n.connections) else Keys(n.connections) + [sid]
    ensures e.next == n.(connections := e.next.connections, nextSerial := n.nextSerial + 1)
    ensures e.fault.None? <==>
              PyIndex(candidate, "sdp").Success? && PyIndex(candidate, "type").Success? && answer.Success?
    ensures e.fault.Some? ==>
              e.emitted == [] && Get(e.next.connections, sid) == Some(Peer(n.nextSerial, None, None)) &&
              e.fault == Some(if PyIndex(candidate, "sdp").Failure? then PyIndex(candidate, "sdp").error
                              else if PyIndex(candidate, "type").Failure? then PyIndex(candidate, "type").error
                              else answer.error)
    ensures e.fault.None? ==>
              var offer := Description(PyIndex(candidate, "sdp").value, PyIndex(candidate, "type").value);
              Get(e.next.connections, sid) == Some(Peer(n.nextSerial, Some(answer.value), Some(offer))) &&
              e.emitted == [Emit("answer", AnswerPayload(sid, answer.value, n.roomId), true)]
  {
    var pc := Peer(n.nextSerial, None, None);
    PutKeys(n.connections, sid, pc);
    var registered := n.(connections := Put(n.connections, sid, pc), nextSerial := n.nextSerial + 1);
    match PyIndex(candidate, "sdp")
    case Failure(f) => Raise(registered, f)
    case Success(sdp) =>
      match PyIndex(candidate, "type")
      case Failure(f) => Raise(registered, f)
      case Success(kind) =>
        match answer
        case Failure(f) => Raise(registered, f)
        case Success(local) =>
          var pc' := pc.(remote := Some(Description(sdp, kind)), local := Some(local));
          PutKeys(n.connections, sid, pc');
          Effect(registered.(connections := Put(n.connections, sid, pc')),
                 [Emit("answer", AnswerPayload(sid, local, n.roomId), true)], [], None)
  }

  /** `chooseCandidate(offer)` on the decoded `candidates` payload: text that
      does not decode raises; an empty (falsy) payload does nothing; a
      truthy payload that is not a dict has no `items` and raises; a dict is
      answered through its first entry only. */
  function ChooseCandidate(n: Node, frame: Option<Value>, answer: Result<Description, Fault>): (e: Effect)
    ensures frame.None? ==> e == Raise(n, DecodeError)
    ensures frame.Some? && !PyTruthy(frame.value) ==> e == Quiet(n)
    ensures frame.Some? && PyTruthy(frame.value) && !frame.value.Obj? ==> e == Raise(n, AttributeError)
    ensures frame.Some? && frame.value.Obj? && frame.value.members != [] ==>
              var first := frame.value.members[0].0;
              (forall k :: k != first ==> Get(e.next.connections, k) == Get(n.connections, k)) &&
              first in Keys(e.next.connections) &&
              (e.fault.None? ==> answer.Success? && e.emitted == [Emit("answer", AnswerPayload(first, answer.value, n.roomId), true)])
  {
    match frame
    case None => Raise(n, DecodeError)
    case Some(v) =>
      if !PyTruthy(v) then Quiet(n)
      else if !v.Obj? then Raise(n, AttributeError)
      else SendAnswerAndConnect(n, v.members[0].0, v.members[0].1, answer)
  }

  /** The keyword arguments `RTCSessionDescription(**rest)` accepts: exactly
      `sdp` and `type`; any other set raises `TypeError`. */
  predicate SessionFields(rest: Object)
  {
    (set k | k in Keys(rest)) == {"sdp", "type"}
  }

  /** `handle_answer` applies `frame` to the connection registered under `k`. */
  predicate AnswersPeer(n: Node, frame: Option<Value>, k: string)
  {
    frame.Some? && frame.value.Obj? &&
    PyGet(frame.value.members, "client_id") == Str(k) && k != "" &&
    Get(n.connections, k).Some? &&
    SessionFields(Remove(frame.value.members, "client_id"))
  }

  /** `handle_answer(message)` on the decoded message: a `client_id` that is
      missing, falsy, not registered, or not a string does nothing; a
      registered one gets the rest of the message as its remote
      description, unless the engine refuses it: `refusal` is the exception
      `setRemoteDescription` raises (for a connection that is not awaiting
      an answer, say), and then the connection is left as it was. The key
      set never changes and nothing is emitted. */
  function HandleAnswer(n: Node, frame: Option<Value>, refusal: Option<Fault>): (e: Effect)
    ensures e.emitted == [] && e.closed == []
    ensures e.next == n.(connections := e.next.connections)
    ensures Keys(e.next.connections) == Keys(n.connections)
    ensures forall k :: !AnswersPeer(n, frame, k) ==> Get(e.next.connections, k) == Get(n.connections, k)
    ensures forall k :: AnswersPeer(n, frame, k) && refusal.None? ==>
              var m := frame.value.members;
              e.fault.None? &&
              Get(e.next.connections, k) ==
                Some(Get(n.connections, k).value.(remote := Some(Description(PyGet(m, "sdp"), PyGet(m, "type")))))
    ensures forall k :: AnswersPeer(n, frame, k) && refusal.Some? ==> e == Raise(n, refusal.value)
    ensures frame.None? ==> e.fault == Some(DecodeError)
    ensures frame.Some? && !frame.value.Obj? ==> e.fault == Some(AttributeError)
    ensures frame.Some? && frame.value.Obj? && !PyTruthy(PyGet(frame.value.members, "client_id")) ==> e == Quiet(n)
  {
    match frame
    case None => Raise(n, DecodeError)
    case Some(v) =>
      if !v.Obj? then Raise(n, AttributeError)
      else
        var cid := PyGet(v.members, "client_id");
        if !PyTruthy(cid) then Quiet(n)
        else if !Hashable(cid) then Raise(n, TypeError)
        else if !cid.Str? || Get(n.connections, cid.s).None? then Quiet(n)
        else
          var rest := Remove(v.members, "client_id");
          if !SessionFields(rest) then Raise(n, TypeError)
          else if refusal.Some? then Raise(n, refusal.value)
          else
            KeysAgreeWithGet(n.connections, cid.s);
            var pc := Get(n.connections, cid.s).value;
            var pc' := pc.(remote := Some(Description(PyGet(rest, "sdp"), PyGet(rest, "type"))));
            PutKeys(n.connections, cid.s, pc');
            Quiet(n.(connections := Put(n.connections, cid.s, pc')))
  }

  /** `handle_disconnect()`: the Socket.IO client disconnects, every
      registered connection is closed in registration order, and the registry
      is emptied. */
  function HandleDisconnect(n: Node): (e: Effect)
    ensures e.next == n.(connections := [], connected := false)
    ensures e.emitted == [] && e.fault.None?
    ensures |e.closed| == |n.connections|
    ensures forall k :: Get(n.connections, k).Some? ==> Get(n.connections, k).value in e.closed
    ensures forall i :: 0 <= i < |e.closed| ==> e.closed[i] == n.connections[i].1
  {
    KeysLength(n.connections);
    ValuesInOrder(n.connections);
    forall k | Get(n.connections, k).Some?
      ensures Get(n.connections, k).value in Values(n.connections)
    {
      GetInValues(n.connections, k);
    }
    Effect(n.(connections := [], connected := false), [], Values(n.connections), None)
  }

  lemma {:induction false} ValuesInOrder<K, V>(d: Dict<K, V>)
    ensures |Values(d)| == |d|
    ensures forall i :: 0 <= i < |d| ==> Values(d)[i] == d[i].1
  {
    if d != [] {
      ValuesInOrder(d[1..]);
    }
  }

  /** `handleIce(c, event)`: a gathered candidate is relayed to the server
      tagged with `c` and the room; the end-of-candidates event (no
      candidate) emits nothing. */
  function HandleIce(n: Node, clientId: string, candidate: Option<Object>): (e: Effect)
    ensures e.next == n && e.closed == [] && e.fault.None?
    ensures candidate.None? <==> e.emitted == []
    ensures candidate.Some? ==> e.emitted == [Emit("ice_candidate", IcePayload(candidate.value, clientId, n.roomId), true)]
  {
    match candidate
    case None => Quiet(n)
    case Some(c) => Effect(n, [Emit("ice_candidate", IcePayload(c, clientId, n.roomId), true)], [], None)
  }

  /** The `join_room` event. */
  function JoinRoom(roomId: string): Emit
  {
    Emit("join_room", Obj([("room_id", Str(roomId))]), false)
  }

  /** `connectToSignallingServer()`: a refused connection raises; otherwise
      `join_room` is emitted exactly when the client reports itself
      connected. */
  function ConnectToSignallingServer(n: Node, h: Messenger.Handshake): (e: Effect)
    ensures e.closed == []
    ensures h.Rejected? <==> e.fault.Some?
    ensures h.Rejected? ==> e == Raise(n, ConnectError)
    ensures h.Established? ==> e.next == n.(connected := h.open)
    ensures e.emitted != [] <==> h.Established? && h.open
    ensures e.emitted != [] ==> e.emitted == [JoinRoom(n.roomId)]
  {
    match h
    case Rejected => Raise(n, ConnectError)
    case Established(open) =>
      Effect(n.(connected := open), if open then [JoinRoom(n.roomId)] else [], [], None)
  }

  /** The `for client_id in keys: sendOffer(client_id)` loop. `createOffer`
      is the media engine: the offer a connection produces, by serial. */
  function OfferEach(n: Node, keys: seq<string>, createOffer: nat -> Description): (e: Effect)
    ensures e.fault.None? && e.closed == []
    ensures SameSettings(e.next, n) && e.next.nextSerial == n.nextSerial + |keys|
    ensures |e.emitted| == |keys|
    decreases |keys|
  {
    if keys == [] then Quiet(n)
    else
      var first := SendOffer(n, keys[0], createOffer(n.nextSerial));
      var rest := OfferEach(first.next, keys[1..], createOffer);
      Effect(rest.next, first.emitted + rest.emitted, [], None)
  }

  /** The offers the loop should emit: one per key, in order, the `i`-th
      carrying the offer of the `i`-th connection created from `serial` on. */
  function Offers(keys: seq<string>, createOffer: nat -> Description, serial: nat, roomId: string): (r: seq<Emit>)
    ensures |r| == |keys|
    decreases |keys|
  {
    if keys == [] then [] else [OfferEvent(createOffer(serial), keys[0], roomId)] + Offers(keys[1..], createOffer, serial + 1, roomId)
  }

  lemma {:induction false} OffersAt(keys: seq<string>, createOffer: nat -> Description, serial: nat, roomId: string, i: nat)
    requires i < |keys|
    ensures Offers(keys, createOffer, serial, roomId)[i] == OfferEvent(createOffer(serial + i), keys[i], roomId)
    decreases |keys|
  {
    if i > 0 {
      OffersAt(keys[1..], createOffer, serial + 1, roomId, i - 1);
    }
  }

  /** One turn of the loop: the first key's offer, then the rest of the
      loop from the node that offer left behind. */
  lemma OfferEachStep(n: Node, keys: seq<string>, createOffer: nat -> Description)
    requires keys != []
    ensures var first := SendOffer(n, keys[0], createOffer(n.nextSerial));
            first.next.nextSerial == n.nextSerial + 1 && first.next.roomId == n.roomId &&
            OfferEach(n, keys, createOffer).emitted ==
              [OfferEvent(createOffer(n.nextSerial), keys[0], n.roomId)] +
              OfferEach(first.next, keys[1..], createOffer).emitted
  {
  }

  /** The loop emits exactly those offers. */
  lemma {:induction false} OfferEachEmits(n: Node, keys: seq<string>, createOffer: nat -> Description)
    ensures OfferEach(n, keys, createOffer).emitted == Offers(keys, createOffer, n.nextSerial, n.roomId)
    decreases |keys|
  {
    if keys != [] {
      var first := SendOffer(n, keys[0], createOffer(n.nextSerial));
      OfferEachStep(n, keys, createOffer);
      OfferEachEmits(first.next, keys[1..], createOffer);
      ConsEqual(OfferEvent(createOffer(n.nextSerial), keys[0], n.roomId),
                OfferEach(first.next, keys[1..], createOffer).emitted,
                Offers(keys[1..], createOffer, n.nextSerial + 1, n.roomId),
                OfferEach(n, keys, createOffer).emitted,
                Offers(keys, createOffer, n.nextSerial, n.roomId));
    }
  }

  /** Every key the loop visits ends up holding a connection created during
      the loop; every other key is untouched; and when all visited keys were
      already registered, the key set is unchanged. */
  lemma {:induction false} OfferEachRegistry(n: Node, keys: seq<string>, createOffer: nat -> Description)
    ensures var e := OfferEach(n, keys, createOffer);
            (forall k :: k !in keys ==> Get(e.next.connections, k) == Get(n.connections, k)) &&
            (forall k :: k in keys ==>
               Get(e.next.connections, k).Some? && Get(e.next.connections, k).value.serial >= n.nextSerial) &&
            ((forall k :: k in keys ==> k in Keys(n.connections)) ==>
               Keys(e.next.connections) == Keys(n.connections))
    decreases |keys|
  {
    if keys != [] {
      var first := SendOffer(n, keys[0], createOffer(n.nextSerial));
      OfferEachRegistry(first.next, keys[1..], createOffer);
      var e := OfferEach(n, keys, createOffer);
      assert e.next == OfferEach(first.next, keys[1..], createOffer).next;
      assert forall k :: k in keys <==> k == keys[0] || k in keys[1..];
      if forall k :: k in keys ==> k in Keys(n.connections) {
        SendOfferKeys(n, keys[0], createOffer(n.nextSerial));
        assert Keys(first.next.connections) == Keys(n.connections);
      }
    }
  }

  /** `broadcastOffer()`: connect, then offer every connection already
      registered, in registration order, each through a fresh connection. */
  function BroadcastOffer(n: Node, h: Messenger.Handshake, createOffer: nat -> Description): (e: Effect)
    ensures h.Rejected? ==> e == Raise(n, ConnectError)
    ensures h.Established? ==> e.fault.None? && e.closed == [] && e.next.connected == h.open
  {
    var c := ConnectToSignallingServer(n, h);
    if c.fault.Some? then c
    else
      var o := OfferEach(c.next, Keys(c.next.connections), createOffer);
      Effect(o.next, c.emitted + o.emitted, [], None)
  }

  /** After connecting, `broadcastOffer` emits `join_room` (when connected)
      followed by one `offer` per registered client id, in registration
      order (`OffersAt` spells out the `i`-th). */
  lemma BroadcastOffersRegisteredKeys(n: Node, h: Messenger.Handshake, createOffer: nat -> Description)
    requires h.Established?
    ensures BroadcastOffer(n, h, createOffer).emitted ==
              (if h.open then [JoinRoom(n.roomId)] else []) + Offers(Keys(n.connections), createOffer, n.nextSerial, n.roomId)
  {
    var c := ConnectToSignallingServer(n, h);
    assert c.next == n.(connected := h.open);
    OfferEachEmits(c.next, Keys(n.connections), createOffer);
  }

  /** `broadcastOffer` replaces every registered connection by a fresh one
      and registers nothing new. */
  lemma BroadcastOfferKeepsKeys(n: Node, h: Messenger.Handshake, createOffer: nat -> Description)
    requires h.Established?
    ensures var e := BroadcastOffer(n, h, createOffer);
            Keys(e.next.connections) == Keys(n.connections) &&
            forall k :: k in Keys(n.connections) ==>
              Get(e.next.connections, k).Some? && Get(e.next.connections, k).value.serial >= n.nextSerial
  {
    var c := ConnectToSignallingServer(n, h);
    var keys := Keys(n.connections);
    assert c.next == n.(connected := h.open);
    OfferEachRegistry(c.next, keys, createOffer);
  }

  /** Every handler keeps the representation invariant: registering a
      connection by offer, ... */
  lemma OfferKeepsValid(n: Node, c: string, d: Description)
    requires Valid(n)
    ensures Valid(SendOffer(n, c, d).next)
  {
  }

  /** ... by answer, ... */
  lemma AnswerAndConnectKeepsValid(n: Node, c: string, v: Value, d: Result<Description, Fault>)
    requires Valid(n)
    ensures Valid(SendAnswerAndConnect(n, c, v, d).next)
  {
  }

  /** ... by answering the first candidate, ... */
  lemma ChooseCandidateKeepsValid(n: Node, frame: Option<Value>, d: Result<Description, Fault>)
    requires Valid(n)
    ensures Valid(ChooseCandidate(n, frame, d).next)
  {
    if frame.Some? && frame.value.Obj? && frame.value.members != [] {
      AnswerAndConnectKeepsValid(n, frame.value.members[0].0, frame.value.members[0].1, d);
    }
  }

  /** ... by applying an answer, ... */
  lemma AnswerKeepsValid(n: Node, frame: Option<Value>, refusal: Option<Fault>)
    requires Valid(n)
    ensures Valid(HandleAnswer(n, frame, refusal).next)
  {
  }

  /** ... and by the connection events. */
  lemma ConnectionEventsKeepValid(n: Node, c: string, candidate: Option<Object>, h: Messenger.Handshake,
                                  createOffer: nat -> Description)
    requires Valid(n)
    ensures Valid(HandleDisconnect(n).next)
    ensures Valid(HandleIce(n, c, candidate).next)
    ensures Valid(ConnectToSignallingServer(n, h).next)
    ensures Valid(BroadcastOffer(n, h, createOffer).next)
  {
    OfferEachKeepsValid(ConnectToSignallingServer(n, h).next, Keys(n.connections), createOffer);
  }

  lemma {:induction false} OfferEachKeepsValid(n: Node, keys: seq<string>, createOffer: nat -> Description)
    requires Valid(n)
    ensures Valid(OfferEach(n, keys, createOffer).next)
    decreases |keys|
  {
    if keys != [] {
      OfferEachKeepsValid(SendOffer(n, keys[0], createOffer(n.nextSerial)).next, keys[1..], createOffer);
    }
  }

  /** Offering the same client twice leaves one entry for it, holding the
      second connection; the first is dropped without being closed. */
  lemma OfferTwiceKeepsOneEntry(n: Node, c: string, o1: Description, o2: Description)
    requires Valid(n)
    ensures var e1 := SendOffer(n, c, o1);
            var e2 := SendOffer(e1.next, c, o2);
            |e2.next.connections| == |e1.next.connections| &&
            Get(e2.next.connections, c) == Some(Peer(n.nextSerial + 1, Some(o2), None)) &&
            e1.closed + e2.closed == []
  {
    var e1 := SendOffer(n, c, o1);
    SendOfferKeys(e1.next, c, o2);
    KeysLength(e1.next.connections);
    KeysLength(SendOffer(e1.next, c, o2).next.connections);
  }

  /** A node that has registered nothing offers nothing: on a fresh node
      `broadcastOffer` emits at most `join_room`. */
  lemma FreshNodeOffersNothing(mac: nat, h: Messenger.Handshake, createOffer: nat -> Description)
    ensures var e := BroadcastOffer(NewNode(mac), h, createOffer);
            e.emitted == if h.Established? && h.open then [JoinRoom(RoomId)] else []
  {
  }
}
