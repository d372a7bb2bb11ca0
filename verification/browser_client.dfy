/** The browser's Janus client (app.js): the send-or-queue rule for outbound
    messages and the `onmessage` handler that creates the session, attaches
    the AudioBridge plugin and answers the plugin's offer. Outbound messages
    are the objects handed to `JSON.stringify`, with members whose value is
    `undefined` left out (as `JSON.stringify` leaves them out). The random
    transaction suffixes, the decoded frames and the media engine's answer
    are parameters. */
module BrowserClient {
  import opened Wrappers
  import opened Dicts
  import opened Json
  import opened Media

  /** `WebSocket.readyState`: CONNECTING, OPEN, CLOSING, CLOSED. */
  datatype ReadyState = Connecting | Open | Closing | Closed

  /** The page's state: the socket's ready state, `messageQueue` and
      `sessionId` (`None` while it is `undefined`). */
  datatype Browser = Browser(readyState: ReadyState, queue: seq<Object>, sessionId: Option<Value>)

  /** What a handler leaves behind: the next state, the messages written to
      the socket in order, and what it threw (an `async` handler's
      rejection), if anything. */
  datatype Reaction = Reaction(next: Browser, sent: seq<Object>, fault: Option<Fault>)

  const CreatePrefix := "create_"
  const JoinPrefix := "join_"
  const AudioBridge := "janus.plugin.audiobridge"

  /** The page before `connectToRoom` opens the socket. */
  function Initial(): (b: Browser)
    ensures b.queue == [] && b.sessionId.None? && b.readyState.Connecting?
  {
    Browser(Connecting, [], None)
  }

  function Quiet(b: Browser): Reaction
  {
    Reaction(b, [], None)
  }

  /** An object literal whose member values may be `undefined`, as
      `JSON.stringify` writes it: the defined members, in order. */
  function Literal(members: seq<(string, Option<Value>)>): Object
  {
    if members == [] then []
    else (if members[0].1.Some? then [(members[0].0, members[0].1.value)] else []) + Literal(members[1..])
  }

  /** No member name is written twice in the literal. */
  predicate DistinctNames(members: seq<(string, Option<Value>)>)
  {
    forall i, j :: 0 <= i < j < |members| ==> members[i].0 != members[j].0
  }

  lemma DistinctNamesOfTail(members: seq<(string, Option<Value>)>)
    requires DistinctNames(members) && members != []
    ensures DistinctNames(members[1..])
    ensures forall a :: 0 <= a < |members| - 1 ==> members[1..][a].0 != members[0].0
  {
    var rest := members[1..];
    forall a, b | 0 <= a < b < |rest|
      ensures rest[a].0 != rest[b].0
    {
      assert rest[a] == members[a + 1] && rest[b] == members[b + 1];
    }
    forall a | 0 <= a < |rest|
      ensures rest[a].0 != members[0].0
    {
      assert rest[a] == members[a + 1];
    }
  }

  /** A name the literal does not mention is missing from the object. */
  lemma {:induction false} LiteralLacks(members: seq<(string, Option<Value>)>, k: string)
    requires forall i :: 0 <= i < |members| ==> members[i].0 != k
    ensures Get(Literal(members), k) == None
  {
    if members != [] {
      var rest := members[1..];
      assert forall i :: 0 <= i < |rest| ==> rest[i].0 != k by {
        forall i | 0 <= i < |rest|
          ensures rest[i].0 != k
        {
          assert rest[i] == members[i + 1];
        }
      }
      LiteralLacks(rest, k);
      var head: Object := if members[0].1.Some? then [(members[0].0, members[0].1.value)] else [];
      assert Literal(members) == head + Literal(rest);
      if head != [] {
        assert (head + Literal(rest))[1..] == Literal(rest);
      } else {
        assert head + Literal(rest) == Literal(rest);
      }
    }
  }

  /** Reading a member of the object gives what the literal wrote for it:
      its value, or nothing when it was `undefined`. */
  lemma {:induction false} LiteralGet(members: seq<(string, Option<Value>)>, i: nat)
    requires DistinctNames(members) && i < |members|
    ensures Get(Literal(members), members[i].0) == members[i].1
  {
    var rest := members[1..];
    var k := members[i].0;
    var head: Object := if members[0].1.Some? then [(members[0].0, members[0].1.value)] else [];
    assert Literal(members) == head + Literal(rest);
    DistinctNamesOfTail(members);
    if i == 0 {
      if head == [] {
        LiteralLacks(rest, k);
        assert head + Literal(rest) == Literal(rest);
      }
    } else {
      assert rest[i - 1] == members[i];
      LiteralGet(rest, i - 1);
      if head != [] {
        assert (head + Literal(rest))[1..] == Literal(rest);
      } else {
        assert head + Literal(rest) == Literal(rest);
      }
    }
  }

  /** The object holds each name at most once. */
  lemma {:induction false} LiteralIsDistinct(members: seq<(string, Option<Value>)>)
    requires DistinctNames(members)
    ensures Distinct(Literal(members))
  {
    if members != [] {
      var rest := members[1..];
      DistinctNamesOfTail(members);
      LiteralIsDistinct(rest);
      var head: Object := if members[0].1.Some? then [(members[0].0, members[0].1.value)] else [];
      assert Literal(members) == head + Literal(rest);
      if head != [] {
        LiteralLacks(rest, members[0].0);
        KeysAgreeWithGet(Literal(rest), members[0].0);
        assert (head + Literal(rest))[1..] == Literal(rest);
      } else {
        assert head + Literal(rest) == Literal(rest);
      }
    }
  }

  /** `sendMessage(data)`: an open socket transmits the message and leaves
      the queue alone; in any other state the message is appended to the
      queue and nothing is transmitted. Either way the message goes exactly
      one place. */
  function SendMessage(b: Browser, data: Object): (r: Reaction)
    ensures r.fault.None? && r.next.readyState == b.readyState && r.next.sessionId == b.sessionId
    ensures b.readyState.Open? <==> r.sent == [data]
    ensures b.readyState.Open? ==> r.next.queue == b.queue
    ensures !b.readyState.Open? ==> r.sent == [] && r.next.queue == b.queue + [data]
    ensures r.sent + r.next.queue[|b.queue|..] == [data]
  {
    if b.readyState == Open then Reaction(b, [data], None)
    else Reaction(b.(queue := b.queue + [data]), [], None)
  }

  /** The create request: `janus` is `create` and the transaction is
      `create_` followed by the random suffix. */
  function CreateRequest(suffix: string): (m: Object)
    ensures Get(m, "janus") == Some(Str("create"))
    ensures Get(m, "transaction") == Some(Str(CreatePrefix + suffix))
    ensures Keys(m) == ["janus", "transaction"]
  {
    var members := [("janus", Some(Str("create"))), ("transaction", Some(Str(CreatePrefix + suffix)))];
    assert DistinctNames(members);
    LiteralGet(members, 0);
    LiteralGet(members, 1);
    assert Literal(members) == [("janus", Str("create")), ("transaction", Str(CreatePrefix + suffix))] by {
      var rest := members[1..];
      assert rest[1..] == [];
      assert Literal(rest) == [("transaction", Str(CreatePrefix + suffix))] + Literal([]);
      assert Literal(members) == [("janus", Str("create"))] + Literal(rest);
    }
    var m: Object := [("janus", Str("create")), ("transaction", Str(CreatePrefix + suffix))];
    assert Keys(m) == ["janus", "transaction"] by {
      assert m[1..][1..] == [];
      assert Keys(m[1..]) == ["transaction"] + Keys(m[1..][1..]);
    }
    Literal(members)
  }

  /** The attach request: `janus` is `attach`, the session id when it is
      defined, a `join_` transaction and the AudioBridge plugin. */
  function AttachRequest(sessionId: Option<Value>, suffix: string): (m: Object)
    ensures Get(m, "janus") == Some(Str("attach"))
    ensures Get(m, "session_id") == sessionId
    ensures Get(m, "transaction") == Some(Str(JoinPrefix + suffix))
    ensures Get(m, "plugin") == Some(Str(AudioBridge))
    ensures Distinct(m)
  {
    var members := [("janus", Some(Str("attach"))), ("session_id", sessionId),
                    ("transaction", Some(Str(JoinPrefix + suffix))), ("plugin", Some(Str(AudioBridge)))];
    assert DistinctNames(members);
    LiteralGet(members, 0);
    LiteralGet(members, 1);
    LiteralGet(members, 2);
    LiteralGet(members, 3);
    LiteralIsDistinct(members);
    Literal(members)
  }

  /** The answer message: `janus` is `message`, the session id and the
      offer's transaction when defined, the AudioBridge `answer` request, and
      the local description serialised as `{type, sdp}`. */
  function AnswerMessage(sessionId: Option<Value>, transaction: Option<Value>, answer: Description): (m: Object)
    ensures Get(m, "janus") == Some(Str("message"))
    ensures Get(m, "session_id") == sessionId
    ensures Get(m, "transaction") == transaction
    ensures Get(m, "body") == Some(Obj([("request", Str("answer"))]))
    ensures Get(m, "jsep") == Some(Obj([("type", answer.kind), ("sdp", answer.sdp)]))
    ensures Distinct(m)
  {
    var members := [("janus", Some(Str("message"))), ("session_id", sessionId), ("transaction", transaction),
                    ("body", Some(Obj([("request", Str("answer"))]))),
                    ("jsep", Some(Obj([("type", answer.kind), ("sdp", answer.sdp)])))];
    assert DistinctNames(members);
    LiteralGet(members, 0);
    LiteralGet(members, 1);
    LiteralGet(members, 2);
    LiteralGet(members, 3);
    LiteralGet(members, 4);
    LiteralIsDistinct(members);
    Literal(members)
  }

  /** `ws.onopen`: the socket is open, so the create request is transmitted
      at once. */
  function OnOpen(b: Browser, suffix: string): (r: Reaction)
    ensures r.fault.None? && r.next == b.(readyState := Open)
    ensures r.sent == [CreateRequest(suffix)]
  {
    SendMessage(b.(readyState := Open), CreateRequest(suffix))
  }

  /** `ws.onclose`: the socket is closed; the handler only logs, so the
      queue and the session id stay, and nothing is sent or thrown. */
  function OnClose(b: Browser): (r: Reaction)
    ensures r.next.readyState == Closed
    ensures r.next.queue == b.queue && r.next.sessionId == b.sessionId
    ensures r.sent == [] && r.fault.None?
  {
    Quiet(b.(readyState := Closed))
  }

  /** After the socket closes, a message is queued: nothing is transmitted
      and the message joins the end of the queue. */
  lemma SendAfterCloseIsQueued(b: Browser, data: Object)
    ensures var r := SendMessage(OnClose(b).next, data);
            r.sent == [] && r.next.queue == b.queue + [data] && r.next.readyState == Closed
  {
  }

  /** The first branch of `onmessage` on a decoded, non-null `data` whose
      `janus` member is `janus` (a member read on a non-null value cannot
      throw): a `success` whose transaction starts with
      `create_` stores `data.data.id` as the session id and sends the attach
      request. Reading `startsWith` of a transaction that is not a string,
      or `id` of a missing `data`, throws. */
  function CreateStep(b: Browser, data: Value, janus: Option<Value>, joinSuffix: string): Reaction
  {
    if janus != Some(Str("success")) then Quiet(b)
    else
      match JsStartsWith(JsMember(data, "transaction"), CreatePrefix)
      case Failure(f) => Reaction(b, [], Some(f))
      case Success(isCreate) =>
        if !isCreate then Quiet(b)
        else
          match JsProp(JsMember(data, "data"), "id")
          case Failure(f) => Reaction(b, [], Some(f))
          case Success(id) =>
            var b' := b.(sessionId := id);
            SendMessage(b', AttachRequest(id, joinSuffix))
  }

  /** `data.janus === 'event' && data.plugindata && data.plugindata.data &&
      data.plugindata.data.audiobridge === 'event'`. */
  predicate IsBridgeEvent(data: Value, janus: Option<Value>)
  {
    var pd := JsMember(data, "plugindata");
    janus == Some(Str("event")) && JsTruthy(pd) &&
    var pdd := JsMember(pd.value, "data");
    JsTruthy(pdd) && JsMember(pdd.value, "audiobridge") == Some(Str("event"))
  }

  /** The third branch: an AudioBridge event carrying a `jsep` is answered
      with the engine's answer (or throws what the engine threw); one
      without a `jsep` only logs. */
  function EventStep(b: Browser, data: Value, janus: Option<Value>, answer: Result<Description, Fault>): Reaction
  {
    if !IsBridgeEvent(data, janus) || !JsTruthy(JsMember(data, "jsep")) then Quiet(b)
    else
      match answer
      case Failure(f) => Reaction(b, [], Some(f))
      case Success(a) => SendMessage(b, AnswerMessage(b.sessionId, JsMember(data, "transaction"), a))
  }

  /** `ws.onmessage` on the decoded frame (`None` when `JSON.parse` throws).
      The `join_` branch only logs, so it has no step of its own. */
  function OnMessage(b: Browser, frame: Option<Value>, joinSuffix: string, answer: Result<Description, Fault>): (r: Reaction)
    ensures frame.None? ==> r == Reaction(b, [], Some(DecodeError))
    ensures frame == Some(Null) ==> r == Reaction(b, [], Some(TypeError))
    ensures r.next.readyState == b.readyState
    ensures |b.queue| <= |r.next.queue|
    ensures |r.sent| + |r.next.queue| - |b.queue| <= 1
    ensures r.next.queue[..|b.queue|] == b.queue
  {
    match frame
    case None => Reaction(b, [], Some(DecodeError))
    case Some(data) =>
      if data.Null? then Reaction(b, [], Some(TypeError))
      else
        var janus := JsMember(data, "janus");
        var first := CreateStep(b, data, janus, joinSuffix);
        if first.fault.Some? then first
        else
          var third := EventStep(first.next, data, janus, answer);
          Reaction(third.next, first.sent + third.sent, third.fault)
  }

  /** A `success` reply to the create request stores the new session's id
      and sends exactly one attach request carrying it. */
  lemma CreateReplyAttaches(b: Browser, data: Value, suffix: string, d: Object, id: Value, joinSuffix: string,
                            answer: Result<Description, Fault>)
    requires data.Obj?
    requires JsMember(data, "janus") == Some(Str("success"))
    requires JsMember(data, "transaction") == Some(Str(CreatePrefix + suffix))
    requires JsMember(data, "data") == Some(Obj(d)) && Get(d, "id") == Some(id)
    ensures var r := OnMessage(b, Some(data), joinSuffix, answer);
            r.fault.None? && r.next.sessionId == Some(id) &&
            r.sent + r.next.queue[|b.queue|..] == [AttachRequest(Some(id), joinSuffix)]
  {
    assert (CreatePrefix + suffix)[..|CreatePrefix|] == CreatePrefix;
  }

  /** A `success` reply whose transaction starts with `join_` changes
      nothing and sends nothing. */
  lemma JoinReplyIsQuiet(b: Browser, data: Value, joinSuffix: string, answer: Result<Description, Fault>)
    requires data.Obj?
    requires JsMember(data, "janus") == Some(Str("success"))
    requires JsMember(data, "transaction").Some? && JsMember(data, "transaction").value.Str?
    requires StartsWith(JsMember(data, "transaction").value.s, JoinPrefix)
    ensures OnMessage(b, Some(data), joinSuffix, answer) == Quiet(b)
  {
    var t := JsMember(data, "transaction").value.s;
    assert t[0] == t[..|JoinPrefix|][0] == 'j';
    assert CreatePrefix[0] == 'c';
  }

  /** An AudioBridge event with a `jsep` sends exactly one answer message,
      which echoes the event's transaction and the stored session id; the
      state is otherwise unchanged. Without a `jsep` nothing is sent. */
  lemma BridgeEventAnswers(b: Browser, data: Value, joinSuffix: string, a: Description)
    requires !data.Null? && IsBridgeEvent(data, JsMember(data, "janus"))
    ensures var r := OnMessage(b, Some(data), joinSuffix, Success(a));
            r.fault.None? && r.next.sessionId == b.sessionId &&
            (JsTruthy(JsMember(data, "jsep")) ==>
               r.sent + r.next.queue[|b.queue|..] == [AnswerMessage(b.sessionId, JsMember(data, "transaction"), a)]) &&
            (!JsTruthy(JsMember(data, "jsep")) ==> r == Quiet(b))
  {
  }

  /** Nothing ever removes a message from `messageQueue`: every handler
      leaves the old queue as a prefix of the new one. */
  lemma QueueNeverDrains(b: Browser, suffix: string, frame: Option<Value>, joinSuffix: string,
                         answer: Result<Description, Fault>)
    ensures b.queue <= OnOpen(b, suffix).next.queue
    ensures b.queue <= OnClose(b).next.queue
    ensures b.queue <= OnMessage(b, frame, joinSuffix, answer).next.queue
  {
    var r := OnMessage(b, frame, joinSuffix, answer);
    assert r.next.queue[..|b.queue|] == b.queue;
  }
}
