/** The transactional messenger of agent/soundagent.py (`WebSocketClient`):
    every outgoing request is stamped with a fresh transaction id and a
    pending slot is registered under it; the receive loop fills and removes
    the slot whose id an inbound message carries and drops everything else.

    The socket is abstracted away: transmission success is a parameter, the
    decoded inbound message is a parameter, and the random choice of id
    letters is an oracle of twelve indices into the alphabet. A caller that
    `send` suspends is woken by the `delivered` output of `Receive`. */
module Messenger {
  import opened Wrappers
  import opened Dicts
  import opened Json

  /** The k-th letter of Python's `string.ascii_letters`: `a`..`z` at
      0..25, then `A`..`Z` at 26..51. */
  function AlphabetLetter(k: nat): (c: char)
    ensures k < 52 ==> IsAsciiLetter(c)
  {
    if k < 26 then ('a' as int + k) as char
    else if k < 52 then ('A' as int + (k - 26)) as char
    else 'Z'
  }

  /** Python's `string.ascii_letters`. */
  function AsciiLetters(): (letters: string)
    ensures |letters| == 52
    ensures forall k :: 0 <= k < 52 ==> letters[k] == AlphabetLetter(k) && IsAsciiLetter(letters[k])
  {
    seq(52, k requires 0 <= k < 52 => AlphabetLetter(k))
  }

  /** The number of letters in a transaction id. */
  const IdLength: nat := 12

  predicate IsAsciiLetter(c: char)
  {
    'a' <= c <= 'z' || 'A' <= c <= 'Z'
  }

  /** The shape `transaction_id` always produces. */
  predicate IsTransactionId(id: string)
  {
    |id| == IdLength && forall i :: 0 <= i < |id| ==> IsAsciiLetter(id[i])
  }

  /** The oracle behind `random.choice(string.ascii_letters)`, drawn twelve
      times: one index into the alphabet per letter. */
  predicate IsLetterDraw(picks: seq<nat>)
  {
    |picks| == IdLength && forall i :: 0 <= i < |picks| ==> picks[i] < |AsciiLetters()|
  }

  /** Where a letter sits in `AsciiLetters`. */
  function LetterIndex(c: char): (k: nat)
    requires IsAsciiLetter(c)
    ensures k < |AsciiLetters()| && AsciiLetters()[k] == c
  {
    if 'a' <= c <= 'z' then c as int - 'a' as int else 26 + (c as int - 'A' as int)
  }

  /** `transaction_id()`: twelve ASCII letters, the i-th being the letter the
      i-th draw picked. */
  function TransactionId(picks: seq<nat>): (id: string)
    requires IsLetterDraw(picks)
    ensures IsTransactionId(id)
    ensures forall i :: 0 <= i < IdLength ==> LetterIndex(id[i]) == picks[i]
  {
    seq(IdLength, i requires 0 <= i < IdLength => AsciiLetters()[picks[i]])
  }

  /** The draws that spell a given id. */
  function Draws(id: string): (picks: seq<nat>)
    requires IsTransactionId(id)
    ensures IsLetterDraw(picks)
  {
    seq(IdLength, i requires 0 <= i < IdLength => LetterIndex(id[i]))
  }

  /** Distinct draws give distinct ids, and every twelve-letter id is drawn
      by exactly the draws `Draws` names: the id space is exactly the
      52^12 strings of `IsTransactionId`. */
  lemma TransactionIdIsBijective(p: seq<nat>, q: seq<nat>, id: string)
    requires IsLetterDraw(p) && IsLetterDraw(q)
    ensures TransactionId(p) == TransactionId(q) ==> p == q
    ensures IsTransactionId(id) ==> TransactionId(Draws(id)) == id && Draws(TransactionId(p)) == p
  {
    if TransactionId(p) == TransactionId(q) {
      assert forall i :: 0 <= i < IdLength ==> p[i] == LetterIndex(TransactionId(p)[i]) == q[i];
    }
    assert Draws(TransactionId(p)) == p by {
      assert forall i :: 0 <= i < IdLength ==> Draws(TransactionId(p))[i] == p[i];
    }
  }

  /** What `send` leaves in the registry: an asyncio future, pending until a
      reply or a transmit failure settles it. */
  datatype Slot = Pending | Settled(outcome: Outcome)

  /** What a caller of `send` gets back: the matched reply, or the exception
      object `send` returns (rather than raises) when transmission fails. */
  datatype Outcome = Reply(message: Value) | Raised(fault: Fault)

  /** `self.connection`: absent, or a websocket that was open or not when
      the handshake completed. */
  datatype Socket = NoSocket | Socket(open: bool)

  datatype Client = Client(url: string, connection: Socket, transactions: Dict<string, Slot>)

  /** `WebSocketClient(url)`: no connection, no pending transactions. */
  function NewClient(url: string): (c: Client)
    ensures c.connection.NoSocket? && c.transactions == []
  {
    Client(url, NoSocket, [])
  }

  /** The handshake as the transport reports it. */
  datatype Handshake = Rejected | Established(open: bool)

  /** `connect()`: a rejected handshake raises; an established one stores the
      connection, and only an open one returns the client (and starts the
      receive loop) — a closed one makes `connect` return `None`. */
  function Connect(c: Client, h: Handshake): (r: Result<(Client, bool), Fault>)
    ensures h.Rejected? <==> r.Failure?
    ensures r.Failure? ==> r.error == ConnectError
    ensures r.Success? ==> r.value.0 == c.(connection := Socket(h.open)) && r.value.1 == h.open
  {
    match h
    case Rejected => Failure(ConnectError)
    case Established(open) => Success((c.(connection := Socket(open)), open))
  }

  /** The effect of one `send`: the client afterwards, the frames put on the
      wire, and the value `send` returns at once (`None` while the caller is
      suspended waiting for its reply). */
  datatype Sent = Sent(client: Client, wire: seq<Object>, immediate: Option<Outcome>)

  /** `send(message)` with transaction id `id`. The message is stamped with
      `transaction = id`, overriding any value it had, and a pending slot is
      registered under `id`. When the transport accepts the frame the caller
      waits; otherwise (no connection at all, or a transmit error) the slot is
      settled with the exception, which `send` returns — and the settled slot
      stays in the registry. */
  function Send(c: Client, message: Object, id: string, accepted: bool): (r: Sent)
    ensures Get(r.client.transactions, id).Some?
    ensures forall k :: k != id ==> Get(r.client.transactions, k) == Get(c.transactions, k)
    ensures id in Keys(c.transactions) ==> Keys(r.client.transactions) == Keys(c.transactions)
    ensures id !in Keys(c.transactions) ==> Keys(r.client.transactions) == Keys(c.transactions) + [id]
    ensures r.client.connection == c.connection && r.client.url == c.url
    ensures |r.wire| <= 1
    ensures forall w :: w in r.wire ==>
              Get(w, "transaction") == Some(Str(id)) &&
              forall k :: k != "transaction" ==> Get(w, k) == Get(message, k)
    ensures r.immediate.None? <==> c.connection.Socket? && accepted
    ensures r.immediate.None? ==> |r.wire| == 1 && Get(r.client.transactions, id) == Some(Pending)
    ensures r.immediate.Some? ==>
              r.wire == [] && r.immediate.value.Raised? &&
              Get(r.client.transactions, id) == Some(Settled(r.immediate.value))
  {
    var stamped := Put(message, "transaction", Str(id));
    if c.connection.Socket? && accepted then
      PutKeys(c.transactions, id, Pending);
      Sent(c.(transactions := Put(c.transactions, id, Pending)), [stamped], None)
    else
      var fault := if c.connection.NoSocket? then AttributeError else TransportError;
      PutKeys(c.transactions, id, Settled(Raised(fault)));
      Sent(c.(transactions := Put(c.transactions, id, Settled(Raised(fault)))), [], Some(Raised(fault)))
  }

  /** The effect of one inbound frame on the receive loop: the client
      afterwards, the (id, reply) handed to a suspended caller, and whether
      the loop goes on reading. */
  datatype Received = Received(client: Client, delivered: Option<(string, Value)>, reading: bool)

  /** One turn of `receive_message` on a decoded frame (`None` for text that
      does not decode). A frame whose truthy `transaction` names a pending
      slot settles that slot with the frame and removes it; any other frame
      is dropped. Anything that raises ends the loop without touching the
      registry: undecodable text, a frame that is not an object, an
      unhashable truthy `transaction`, and a reply for a slot a transmit
      failure already settled. */
  function Receive(c: Client, frame: Option<Value>): (r: Received)
    ensures r.client.connection == c.connection && r.client.url == c.url
    ensures r.delivered.Some? ==>
              var (id, msg) := r.delivered.value;
              Some(msg) == frame && msg.Obj? &&
              PyGet(msg.members, "transaction") == Str(id) &&
              Get(c.transactions, id) == Some(Pending) &&
              r.client.transactions == Remove(c.transactions, id) && r.reading
    ensures r.delivered.None? ==> r.client == c
  {
    match frame
    case None => Received(c, None, false)
    case Some(data) =>
      if !data.Obj? then Received(c, None, false)
      else
        var tx := PyGet(data.members, "transaction");
        if !PyTruthy(tx) then Received(c, None, true)
        else if !Hashable(tx) then Received(c, None, false)
        else if !tx.Str? then Received(c, None, true)
        else
          var slot := Get(c.transactions, tx.s);
          if slot.None? then Received(c, None, true)
          else if slot.value.Settled? then Received(c, None, false)
          else Received(c.(transactions := Remove(c.transactions, tx.s)), Some((tx.s, data)), true)
  }

  /** `close()`: the connection is closed (when there is one) and forgotten,
      and every pending slot is discarded without being settled. */
  function Close(c: Client): (r: (Client, bool))
    ensures r.0.connection.NoSocket? && r.0.transactions == [] && r.0.url == c.url
    ensures r.1 <==> c.connection.Socket?
  {
    (c.(connection := NoSocket, transactions := []), c.connection.Socket?)
  }

  // ---- properties relating several calls ----

  /** A frame that carries no truthy `transaction`, or one the registry does
      not hold, is dropped: the registry is unchanged and nobody is woken. */
  lemma UnmatchedFrameIsDropped(c: Client, frame: Value)
    requires frame.Obj?
    requires var tx := PyGet(frame.members, "transaction");
             !PyTruthy(tx) || (tx.Str? && tx.s !in Keys(c.transactions))
    ensures Receive(c, Some(frame)) == Received(c, None, true)
  {
    var tx := PyGet(frame.members, "transaction");
    if PyTruthy(tx) {
      KeysAgreeWithGet(c.transactions, tx.s);
    }
  }

  /** A frame whose `transaction` names a pending slot wakes exactly that
      caller with the frame and removes only that key. */
  lemma MatchedFrameSettlesItsSlot(c: Client, frame: Value, id: string)
    requires frame.Obj? && PyGet(frame.members, "transaction") == Str(id) && id != ""
    requires Get(c.transactions, id) == Some(Pending)
    ensures var r := Receive(c, Some(frame));
            r.delivered == Some((id, frame)) && r.reading &&
            Get(r.client.transactions, id) == None &&
            forall k :: k != id ==> Get(r.client.transactions, k) == Get(c.transactions, k)
  {
  }

  /** Under an id collision the earlier slot is overwritten: the registry
      grows by one, not two, and the one slot under that id is pending. The
      first frame carrying the id wakes one caller and removes the slot, and
      every later frame carrying it is dropped — so of the two callers
      waiting, at most one is ever woken. */
  lemma CollisionOrphansEarlierSlot(c: Client, m1: Object, m2: Object, id: string, first: Value, later: Value)
    requires c.connection.Socket?
    requires IsTransactionId(id) && id !in Keys(c.transactions)
    requires first.Obj? && PyGet(first.members, "transaction") == Str(id)
    requires later.Obj? && PyGet(later.members, "transaction") == Str(id)
    ensures var c1 := Send(c, m1, id, true).client;
            var c2 := Send(c1, m2, id, true).client;
            var r1 := Receive(c2, Some(first));
            |c2.transactions| == |c1.transactions| == |c.transactions| + 1 &&
            Get(c2.transactions, id) == Some(Pending) &&
            r1.delivered == Some((id, first)) && Get(r1.client.transactions, id) == None &&
            Receive(r1.client, Some(later)) == Received(r1.client, None, true)
  {
    var c1 := Send(c, m1, id, true).client;
    PutSize(c.transactions, id, Pending);
    assert id in Keys(c1.transactions);
    PutSize(c1.transactions, id, Pending);
    var c2 := Send(c1, m2, id, true).client;
    MatchedFrameSettlesItsSlot(c2, first, id);
    var r1 := Receive(c2, Some(first));
    KeysAgreeWithGet(r1.client.transactions, id);
    UnmatchedFrameIsDropped(r1.client, later);
  }

  /** Correlation regardless of arrival order: two requests sent under
      distinct fresh ids, whose replies arrive in the opposite order, wake
      each caller with its own reply and leave every other slot as it was
      before the two sends. */
  lemma RepliesMatchInAnyOrder(c: Client, m1: Object, m2: Object, a: string, b: string, ra: Value, rb: Value)
    requires c.connection.Socket?
    requires IsTransactionId(a) && IsTransactionId(b)
    requires a != b && a !in Keys(c.transactions) && b !in Keys(c.transactions)
    requires ra.Obj? && PyGet(ra.members, "transaction") == Str(a)
    requires rb.Obj? && PyGet(rb.members, "transaction") == Str(b)
    ensures var c1 := Send(c, m1, a, true).client;
            var c2 := Send(c1, m2, b, true).client;
            var r1 := Receive(c2, Some(rb));
            var r2 := Receive(r1.client, Some(ra));
            r1.delivered == Some((b, rb)) && r2.delivered == Some((a, ra)) &&
            forall k :: Get(r2.client.transactions, k) == Get(c.transactions, k)
  {
    KeysAgreeWithGet(c.transactions, a);
    KeysAgreeWithGet(c.transactions, b);
    var c1 := Send(c, m1, a, true).client;
    var c2 := Send(c1, m2, b, true).client;
    assert Get(c2.transactions, a) == Some(Pending) && Get(c2.transactions, b) == Some(Pending);
    MatchedFrameSettlesItsSlot(c2, rb, b);
    var r1 := Receive(c2, Some(rb));
    assert Get(r1.client.transactions, a) == Some(Pending);
    MatchedFrameSettlesItsSlot(r1.client, ra, a);
    var r2 := Receive(r1.client, Some(ra));
    forall k
      ensures Get(r2.client.transactions, k) == Get(c.transactions, k)
    {
      if k != a && k != b {
        assert Get(c2.transactions, k) == Get(c1.transactions, k) == Get(c.transactions, k);
      }
    }
  }

  /** A frame can only wake a caller that is still waiting: after a
      transmit failure the slot stays settled in the registry, and a later
      frame carrying its id ends the receive loop. */
  lemma ReplyAfterTransmitFailureEndsLoop(c: Client, m: Object, id: string, reply: Value)
    requires reply.Obj? && PyGet(reply.members, "transaction") == Str(id)
    requires IsTransactionId(id)
    ensures var s := Send(c, m, id, false);
            s.immediate.Some? &&
            !Receive(s.client, Some(reply)).reading &&
            Receive(s.client, Some(reply)).client == s.client
  {
  }
}
