/** The Janus gateway session of agent/soundagent.py: `JanusSession` with its
    handle registry and keepalive task, `JanusPlugin` (a handle), and the
    answer message `handle_jsep` sends back.

    The session reaches the gateway only through the messenger's `send`
    (module Messenger). Here each operation reports the messages it hands to
    that `send` — before the messenger stamps a transaction id on them — and
    the reply the messenger eventually returns is a parameter. The messenger
    itself is a token (`Link`) the session holds or not; its registry is
    Messenger's business. */
module JanusSession {
  import opened Wrappers
  import opened Dicts
  import opened Json
  import Messenger
  import Media

  /** `self._websocket`: the messenger the session sends through. */
  datatype Link = Link(url: string)

  /** `JanusPlugin(session, handle_id)`: a handle of the session that owns
      it (the back-reference is implicit: a plugin is always used with the
      session it was attached to). */
  datatype Plugin = Plugin(handleId: Value)

  /** `self._ka_task`: no task, the running keepalive loop, or a loop that
      died with an exception (which awaiting it re-raises). */
  datatype Keepalive = Idle | Running | Crashed(fault: Fault)

  datatype Session = Session(
    url: string,
    websocket: Option<Link>,
    handles: Dict<Value, Plugin>,
    sessionId: Value,           // Null until `create` stores one
    kaInterval: nat,
    keepalive: Keepalive)

  /** The keepalive period, in seconds. */
  const KeepaliveInterval: nat := 15

  /** `JanusSession(url)`. */
  function NewSession(url: string): (s: Session)
    ensures s.url == url && s.websocket.None? && s.handles == [] && s.sessionId == Null
    ensures s.keepalive == Idle && s.kaInterval == KeepaliveInterval
  {
    Session(url, None, [], Null, KeepaliveInterval, Idle)
  }

  /** The effect of one session operation: the session afterwards, the
      messages handed to the messenger's `send`, and the value returned or
      the exception raised. */
  datatype Step<T> = Step(next: Session, sent: seq<Object>, result: Result<T, Fault>)

  /** `JanusSession.send(message)`: stamps `session_id` with the session's
      id (overriding any value the message had, and `None` before `create`)
      and hands the message to the messenger — which is an attribute error
      when the session holds none. */
  function Send(s: Session, message: Object): (r: Result<Object, Fault>)
    ensures r.Success? <==> s.websocket.Some?
    ensures r.Failure? ==> r.error == AttributeError
    ensures r.Success? ==>
              Get(r.value, "session_id") == Some(s.sessionId) &&
              forall k :: k != "session_id" ==> Get(r.value, k) == Get(message, k)
  {
    if s.websocket.None? then Failure(AttributeError)
    else Success(Put(message, "session_id", s.sessionId))
  }

  /** Stamping a message that has no `session_id` appends it at the end. */
  lemma SendAppendsSessionId(s: Session, message: Object)
    requires s.websocket.Some? && "session_id" !in Keys(message)
    ensures Send(s, message) == Success(message + [("session_id", s.sessionId)])
  {
    PutAbsentAppends(message, "session_id", s.sessionId);
  }

  /** `send({'janus': kind})`: a one-key request reaches the messenger as
      `{janus: kind, session_id}`. */
  function Request(s: Session, kind: string): (m: Object)
    requires s.websocket.Some?
    ensures Send(s, [("janus", Str(kind))]) == Success(m)
    ensures m == [("janus", Str(kind)), ("session_id", s.sessionId)]
  {
    var message: Object := [("janus", Str(kind))];
    assert Keys(message) == ["janus"];
    SendAppendsSessionId(s, message);
    message + [("session_id", s.sessionId)]
  }

  /** `send({'janus': 'attach', 'plugin': plugin})` as it reaches the
      messenger. */
  function AttachRequest(s: Session, plugin: string): (m: Object)
    requires s.websocket.Some?
    ensures Send(s, [("janus", Str("attach")), ("plugin", Str(plugin))]) == Success(m)
    ensures m == [("janus", Str("attach")), ("plugin", Str(plugin)), ("session_id", s.sessionId)]
  {
    var request: Object := [("janus", Str("attach")), ("plugin", Str(plugin))];
    assert request == [("janus", Str("attach"))] + [("plugin", Str(plugin))];
    KeysAppend([("janus", Str("attach"))], "plugin", Str(plugin));
    assert Keys([("janus", Str("attach"))]) == ["janus"];
    SendAppendsSessionId(s, request);
    request + [("session_id", s.sessionId)]
  }

  /** The envelope `JanusPlugin.send_message` puts on a message:
      `janus = "message"` and the plugin's `handle_id`, overriding both. */
  function PluginEnvelope(p: Plugin, message: Object): (m: Object)
    ensures Get(m, "janus") == Some(Str("message"))
    ensures Get(m, "handle_id") == Some(p.handleId)
    ensures forall k :: k != "janus" && k != "handle_id" ==> Get(m, k) == Get(message, k)
  {
    Put(Put(message, "janus", Str("message")), "handle_id", p.handleId)
  }

  /** The three envelope keys are different keys. */
  lemma EnvelopeKeysDiffer()
    ensures "janus" != "handle_id" && "janus" != "session_id" && "handle_id" != "session_id"
  {
    assert |"janus"| == 5 && |"handle_id"| == 9 && |"session_id"| == 10;
  }

  /** The stamped envelope: the envelope's two keys, the session's id, and
      every other key of the message as given. */
  lemma StampedEnvelope(s: Session, p: Plugin, message: Object)
    requires s.websocket.Some?
    ensures var m := Put(PluginEnvelope(p, message), "session_id", s.sessionId);
            Get(m, "janus") == Some(Str("message")) &&
            Get(m, "handle_id") == Some(p.handleId) &&
            Get(m, "session_id") == Some(s.sessionId) &&
            forall k :: k != "janus" && k != "handle_id" && k != "session_id" ==>
              Get(m, k) == Get(message, k)
  {
    var e := PluginEnvelope(p, message);
    var m := Put(e, "session_id", s.sessionId);
    EnvelopeKeysDiffer();
    assert Get(m, "janus") == Get(e, "janus");
    assert Get(m, "handle_id") == Get(e, "handle_id");
    forall k | k != "janus" && k != "handle_id" && k != "session_id"
      ensures Get(m, k) == Get(message, k)
    {
      assert Get(m, k) == Get(e, k);
    }
  }

  /** `JanusPlugin.send_message(message)`: the message reaches the messenger
      carrying all three envelope keys, and every other key as given. */
  function PluginSend(s: Session, p: Plugin, message: Object): (r: Result<Object, Fault>)
    ensures r.Success? <==> s.websocket.Some?
    ensures r.Success? ==>
              Get(r.value, "janus") == Some(Str("message")) &&
              Get(r.value, "handle_id") == Some(p.handleId) &&
              Get(r.value, "session_id") == Some(s.sessionId) &&
              forall k :: k != "janus" && k != "handle_id" && k != "session_id" ==>
                Get(r.value, k) == Get(message, k)
  {
    if s.websocket.Some? then StampedEnvelope(s, p, message); Send(s, PluginEnvelope(p, message))
    else Send(s, PluginEnvelope(p, message))
  }

  /** A message without any of the three envelope keys reaches the
      messenger with `janus`, `handle_id` and `session_id` appended in that
      order. */
  lemma PluginSendAppends(s: Session, p: Plugin, message: Object)
    requires s.websocket.Some?
    requires "janus" !in Keys(message) && "handle_id" !in Keys(message) && "session_id" !in Keys(message)
    ensures PluginSend(s, p, message) ==
            Success(message + [("janus", Str("message")), ("handle_id", p.handleId), ("session_id", s.sessionId)])
  {
    var m1 := message + [("janus", Str("message"))];
    PutAbsentAppends(message, "janus", Str("message"));
    KeysAppend(message, "janus", Str("message"));
    var m2 := m1 + [("handle_id", p.handleId)];
    PutAbsentAppends(m1, "handle_id", p.handleId);
    KeysAppend(m1, "handle_id", p.handleId);
    assert "session_id" !in Keys(m2);
    SendAppendsSessionId(s, m2);
    assert PluginEnvelope(p, message) == m2;
    assert m2 + [("session_id", s.sessionId)] ==
           message + [("janus", Str("message")), ("handle_id", p.handleId), ("session_id", s.sessionId)];
  }

  /** `response['data']['id']` on what the messenger returned: a reply
      object's `data.id`, or the exception subscripting raises — including
      on the exception object `send` returns after a transmit failure. */
  function DataId(reply: Messenger.Outcome): (r: Result<Value, Fault>)
    ensures r.Success? <==>
              reply.Reply? && reply.message.Obj? &&
              (match Get(reply.message.members, "data")
               case Some(d) => d.Obj? && Get(d.members, "id").Some?
               case None => false)
    ensures r.Success? ==> Get(Get(reply.message.members, "data").value.members, "id") == Some(r.value)
  {
    if reply.Raised? then Failure(TypeError)
    else
      match PyIndex(reply.message, "data")
      case Failure(f) => Failure(f)
      case Success(d) => PyIndex(d, "id")
  }

  /** `create()`: connect a fresh messenger, send `{janus: create}`, store
      the id the reply carries and start the keepalive task. A rejected
      handshake raises before anything changes; a handshake that leaves the
      socket closed makes `connect` return `None`, so the session holds no
      messenger and the send raises; a reply without `data.id` raises after
      the messenger is in place but before the id is stored. */
  function Create(s: Session, h: Messenger.Handshake, reply: Messenger.Outcome): (r: Step<Value>)
    ensures h.Rejected? ==> r == Step(s, [], Failure(ConnectError))
    ensures h == Messenger.Established(false) ==> r == Step(s.(websocket := None), [], Failure(AttributeError))
    ensures h == Messenger.Established(true) ==>
              r.next.websocket == Some(Link(s.url)) && r.next.handles == s.handles &&
              r.sent == [[("janus", Str("create")), ("session_id", s.sessionId)]]
    ensures r.result.Success? <==> h == Messenger.Established(true) && DataId(reply).Success?
    ensures r.result.Success? ==>
              r.next.sessionId == r.result.value == DataId(reply).value && r.next.keepalive == Running
    ensures r.result.Failure? ==> r.next.sessionId == s.sessionId && r.next.keepalive == s.keepalive
  {
    match h
    case Rejected => Step(s, [], Failure(ConnectError))
    case Established(open) =>
      if !open then Step(s.(websocket := None), [], Failure(AttributeError))
      else
        var s1 := s.(websocket := Some(Link(s.url)));
        var request := Request(s1, "create");
        match DataId(reply)
        case Failure(f) => Step(s1, [request], Failure(f))
        case Success(id) => Step(s1.(sessionId := id, keepalive := Running), [request], Success(id))
  }

  /** `attach(plugin)`: send `{janus: attach, plugin}` and register a handle
      under the id the reply's `data.id` carries; registering an unhashable
      id raises. */
  function Attach(s: Session, plugin: string, reply: Messenger.Outcome): (r: Step<Plugin>)
    ensures r.next.sessionId == s.sessionId && r.next.websocket == s.websocket
    ensures r.next.keepalive == s.keepalive
    ensures s.websocket.None? ==> r == Step(s, [], Failure(AttributeError))
    ensures s.websocket.Some? ==>
              r.sent == [[("janus", Str("attach")), ("plugin", Str(plugin)), ("session_id", s.sessionId)]]
    ensures r.result.Success? <==>
              s.websocket.Some? && DataId(reply).Success? && Hashable(DataId(reply).value)
    ensures r.result.Success? ==>
              var id := DataId(reply).value;
              r.result.value == Plugin(id) &&
              Get(r.next.handles, id) == Some(Plugin(id)) &&
              (forall k :: k != id ==> Get(r.next.handles, k) == Get(s.handles, k))
    ensures r.result.Failure? ==> r.next.handles == s.handles
  {
    if s.websocket.None? then Step(s, [], Failure(AttributeError))
    else
      var m := AttachRequest(s, plugin);
      match DataId(reply)
      case Failure(f) => Step(s, [m], Failure(f))
      case Success(id) =>
        if !Hashable(id) then Step(s, [m], Failure(TypeError))
        else Step(s.(handles := Put(s.handles, id, Plugin(id))), [m], Success(Plugin(id)))
  }

  /** One firing of the keepalive loop: while it runs it sends
      `{janus: keepalive}`; without a messenger the send raises and the loop
      dies with that exception. */
  function KeepaliveTick(s: Session): (r: Step<()>)
    ensures !s.keepalive.Running? ==> r == Step(s, [], Success(()))
    ensures s.keepalive.Running? && s.websocket.Some? ==>
              r.next == s && r.sent == [[("janus", Str("keepalive")), ("session_id", s.sessionId)]]
    ensures s.keepalive.Running? && s.websocket.None? ==>
              r.next == s.(keepalive := Crashed(AttributeError)) && r.sent == []
  {
    if !s.keepalive.Running? then Step(s, [], Success(()))
    else
      if s.websocket.None? then Step(s.(keepalive := Crashed(AttributeError)), [], Success(()))
      else Step(s, [Request(s, "keepalive")], Success(()))
  }

  /** The state `destroy` leaves behind: no messenger, no keepalive task, no
      handles, and a falsy session id. */
  predicate TornDown(s: Session)
  {
    s.websocket.None? && s.keepalive == Idle && s.handles == [] && !PyTruthy(s.sessionId)
  }

  /** `destroy()`, in the source's order: (1) with a truthy session id, send
      `{janus: destroy}` and forget the id; (2) cancel the keepalive task and
      await it, swallowing the cancellation — a task that already died
      re-raises its own exception here; (3) drop every handle; (4) close
      the messenger and forget it. An exception stops the sequence where it
      is raised. */
  function Destroy(s: Session): (r: Step<()>)
    ensures r.result.Success? <==>
              !(PyTruthy(s.sessionId) && s.websocket.None?) && !s.keepalive.Crashed?
    ensures r.result.Success? ==> TornDown(r.next)
    ensures r.result.Success? ==>
              (PyTruthy(s.sessionId) <==> r.sent == [[("janus", Str("destroy")), ("session_id", s.sessionId)]]) &&
              (!PyTruthy(s.sessionId) <==> r.sent == [])
    ensures r.result.Failure? ==> r.next.handles == s.handles && r.next.websocket == s.websocket
    ensures PyTruthy(s.sessionId) && s.websocket.None? ==> r.result == Failure(AttributeError) && r.sent == []
    ensures !(PyTruthy(s.sessionId) && s.websocket.None?) && s.keepalive.Crashed? ==>
              r.result == Failure(s.keepalive.fault) &&
              r.sent == (if PyTruthy(s.sessionId) then [[("janus", Str("destroy")), ("session_id", s.sessionId)]] else []) &&
              !PyTruthy(r.next.sessionId)
  {
    // (1)
    if PyTruthy(s.sessionId) && s.websocket.None? then Step(s, [], Failure(AttributeError))
    else
      var sent := if PyTruthy(s.sessionId) then [Request(s, "destroy")] else [];
      var s1 := if PyTruthy(s.sessionId) then s.(sessionId := Null) else s;
      // (2)
      if s1.keepalive.Crashed? then Step(s1, sent, Failure(s1.keepalive.fault))
      else
        // (3) and (4)
        Step(s1.(keepalive := Idle, handles := [], websocket := None), sent, Success(()))
  }

  /** `destroy()` is safe to repeat: once it has completed, a second call
      sends nothing, raises nothing and leaves the same state. */
  lemma DestroyIsIdempotent(s: Session)
    requires Destroy(s).result.Success?
    ensures Destroy(Destroy(s).next) == Step(Destroy(s).next, [], Success(()))
  {
  }

  /** After `destroy()` completes, the keepalive loop sends nothing more. */
  lemma NoKeepaliveAfterDestroy(s: Session)
    requires Destroy(s).result.Success?
    ensures KeepaliveTick(Destroy(s).next).sent == []
  {
  }

  /** The answer `handle_jsep` sends, `{body: {}, jsep: {type, sdp}}`, as
      it reaches the messenger after the plugin and the session stamped it. */
  function AnswerRequest(s: Session, p: Plugin, answer: Media.Description): (m: Object)
    requires s.websocket.Some?
    ensures PluginSend(s, p, [("body", Obj([])), ("jsep", Obj([("type", answer.kind), ("sdp", answer.sdp)]))]) == Success(m)
    ensures m == [("body", Obj([])),
                  ("jsep", Obj([("type", answer.kind), ("sdp", answer.sdp)])),
                  ("janus", Str("message")),
                  ("handle_id", p.handleId),
                  ("session_id", s.sessionId)]
  {
    var reply: Object := [("body", Obj([])), ("jsep", Obj([("type", answer.kind), ("sdp", answer.sdp)]))];
    assert reply == [("body", Obj([]))] + [("jsep", Obj([("type", answer.kind), ("sdp", answer.sdp)]))];
    KeysAppend([("body", Obj([]))], "jsep", Obj([("type", answer.kind), ("sdp", answer.sdp)]));
    assert Keys([("body", Obj([]))]) == ["body"];
    PluginSendAppends(s, p, reply);
    reply + [("janus", Str("message")), ("handle_id", p.handleId), ("session_id", s.sessionId)]
  }

  /** `handle_jsep(plugin, pc, jsep)`: the gateway's offer is read from
      `jsep['sdp']` and `jsep['type']` (a missing key or a non-object raises
      before anything is sent). `answer` is what the engine makes of the
      offer: the exception `setRemoteDescription` raises for an offer it
      cannot apply, or the local answer, which goes back through the plugin
      as `{body: {}, jsep: {type, sdp}}`. */
  function HandleJsep(s: Session, p: Plugin, jsep: Value, answer: Result<Media.Description, Fault>): (r: Step<Media.Description>)
    ensures r.next == s
    ensures r.result.Success? <==>
              jsep.Obj? && Get(jsep.members, "sdp").Some? && Get(jsep.members, "type").Some? &&
              answer.Success? && s.websocket.Some?
    ensures r.result.Success? ==>
              r.result.value == Media.Description(Get(jsep.members, "sdp").value, Get(jsep.members, "type").value) &&
              r.sent == [[("body", Obj([])),
                          ("jsep", Obj([("type", answer.value.kind), ("sdp", answer.value.sdp)])),
                          ("janus", Str("message")),
                          ("handle_id", p.handleId),
                          ("session_id", s.sessionId)]]
    ensures jsep.Obj? && Get(jsep.members, "sdp").Some? && Get(jsep.members, "type").Some? && answer.Failure? ==>
              r.result == Failure(answer.error)
    ensures r.result.Failure? ==> r.sent == []
  {
    match PyIndex(jsep, "sdp")
    case Failure(f) => Step(s, [], Failure(f))
    case Success(sdp) =>
      match PyIndex(jsep, "type")
      case Failure(f) => Step(s, [], Failure(f))
      case Success(kind) =>
        match answer
        case Failure(f) => Step(s, [], Failure(f))
        case Success(local) =>
          if s.websocket.None? then Step(s, [], Failure(AttributeError))
          else Step(s, [AnswerRequest(s, p, local)], Success(Media.Description(sdp, kind)))
  }
}
