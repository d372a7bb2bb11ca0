# Signalling bookkeeping of the sound agent, in Dafny

This project models the bookkeeping that sits around the signalling messages
of a small audio-streaming system. The system has four parts:

- **The Janus sound agent** (`agent/soundagent.py`). Its transactional
  WebSocket messenger correlates every request with its reply through a
  registry of pending transaction slots. The gateway session stamps
  envelopes, registers plugin handles and tears itself down.
- **The backend signalling node** (`backend/rtc_node.py`). It keeps a
  registry of peer connections keyed by client id. It sends the `offer`,
  `answer`, `ice_candidate` and `join_room` relay events. Its host id is
  the machine's hardware address formatted as `XX:XX:XX:XX:XX:XX`.
- **The browser Janus client** (`app.js`). Its send-or-queue rule and its
  `onmessage` dispatch create the session, attach the AudioBridge plugin and
  answer the plugin's offer.
- **The page logic** (`js/interface.js`). It folds a newline-delimited JSON
  reply stream into the text on display, and runs the raycaster's
  "looking at the cow" flag machine.

Every operation is a pure function from a state to the next state. It also
returns what the operation emits and what it raises. Sockets, the media
engine, `JSON.parse`/`json.loads` and random draws are parameters:

- a decoded frame is `Option<Value>`, with `None` where decoding throws;
- a handshake outcome is `Rejected` or `Established(open)`;
- the engine's offer or answer is a `Media.Description`;
- the twelve letter draws of a transaction id are indices into the alphabet.

Modules:

- `Wrappers`, `Seqs`: `Option`/`Result` and generic sequence facts.
- `Dicts`: Python dicts and JSON objects as insertion-ordered association
  lists (`d[k] = v` keeps an existing key's place and appends a new key).
- `Json`: JSON values, Python truthiness and indexing, and JavaScript
  truthiness, member reads and `String(...)`.
- `Media`: session descriptions.
- `HostId`: the `%012X` host-id formatter and its inverse.
- `Messenger`: `WebSocketClient`.
- `JanusSession`: `JanusSession`, `JanusPlugin`, `handle_jsep`.
- `RtcNode`: `RTCNode`.
- `BrowserClient`: `app.js`.
- `StreamReply`: the reply fold of `speakToLlama`, as written and corrected.
- `LookAt`: `improved-raycaster-handler`.

The model follows the code where it is looser than a per-client negotiation
protocol would be:

- `sendOffer` and `sendAnswerAndConnect` overwrite any connection already
  registered under the client id. They do not require the client to be new.
- An answer only sets the remote description of a registered connection. No
  per-client negotiation state exists in the code.
- When the Socket.IO client does not report itself connected, `join_room`
  is not emitted and the condition is only printed. `broadcastOffer` still
  offers every registered client (`RtcNode.BroadcastOffersRegisteredKeys`
  with `h.open == false`).

## Model

| member | source | states |
|---|---|---|
| Messenger.AlphabetLetter | agent/soundagent.py:35 | each of the 52 alphabet positions holds an ASCII letter |
| Messenger.AsciiLetters | agent/soundagent.py:35 | `string.ascii_letters` has 52 characters, all ASCII letters, `a`..`z` then `A`..`Z` |
| Messenger.LetterIndex | agent/soundagent.py:35 | every ASCII letter is at some position of the alphabet, so every letter can be drawn |
| Messenger.TransactionId | agent/soundagent.py:34-35 | a transaction id is exactly 12 ASCII letters, the i-th being the letter of the i-th draw |
| Messenger.Draws | agent/soundagent.py:34-35 | every 12-letter id is spelled by a valid sequence of draws |
| Messenger.TransactionIdIsBijective | agent/soundagent.py:34-35 | different draws give different ids, and draws and ids correspond one to one |
| Messenger.NewClient | agent/soundagent.py:18-21 | a new client has no connection and no pending transactions |
| Messenger.Connect | agent/soundagent.py:23-32 | a rejected handshake raises; an established one stores the connection; the client is returned (and the receive loop started) exactly when the socket is open |
| Messenger.Send | agent/soundagent.py:37-46 | the frame carries `transaction = id`, overriding any earlier value, and every other key unchanged; the registry gains exactly that key, which a new id appends at the end; other slots are untouched; on an accepted frame the caller waits on a pending slot; on a transmit failure nothing is sent, the exception is returned rather than raised, and the settled slot stays registered |
| Messenger.Receive | agent/soundagent.py:48-58 | a caller is woken only by an object frame whose `transaction` names a pending slot, and then only that key is removed; every other frame leaves the registry unchanged |
| Messenger.Close | agent/soundagent.py:60-64 | afterwards there is no connection and the registry is empty, with pending slots discarded unresolved; the socket is closed exactly when there was one |
| Messenger.UnmatchedFrameIsDropped | agent/soundagent.py:52-53 | a frame with no truthy `transaction`, or an unknown one, is dropped: the registry is unchanged and reading goes on |
| Messenger.MatchedFrameSettlesItsSlot | agent/soundagent.py:52-55 | a frame naming a pending slot is delivered to that slot's caller, that key is removed, and every other key is unchanged |
| Messenger.CollisionOrphansEarlierSlot | agent/soundagent.py:38-55 | two sends under the same id leave one pending slot, so the registry grows by one; the first reply under the id wakes one caller and removes the slot, and every later frame under the id is dropped, so at most one of the two callers is ever woken |
| Messenger.RepliesMatchInAnyOrder | agent/soundagent.py:37-58 | two requests under distinct fresh ids, replied to in reverse order, each get their own reply, and the registry ends as it was before both sends |
| Messenger.ReplyAfterTransmitFailureEndsLoop | agent/soundagent.py:42-56 | after a transmit failure the settled slot stays; a later reply for it raises inside the loop, which stops reading |
| JanusSession.NewSession | agent/soundagent.py:79-85 | a new session has no messenger, no handles, a `None` session id, no keepalive task and a 15-second interval |
| JanusSession.Send | agent/soundagent.py:87-89 | the message gets the session's `session_id`, overriding any earlier value, and keeps every other key; without a messenger it raises `AttributeError` |
| JanusSession.SendAppendsSessionId | agent/soundagent.py:88 | a message without `session_id` gets it appended as its last key |
| JanusSession.Request | agent/soundagent.py:87-89 | a one-key request `{janus: kind}` reaches the messenger as `{janus: kind, session_id}` |
| JanusSession.AttachRequest | agent/soundagent.py:99 | the attach request reaches the messenger as `{janus: attach, plugin, session_id}` |
| JanusSession.PluginEnvelope | agent/soundagent.py:74 | the plugin envelope sets `janus = message` and the plugin's `handle_id`, overriding both, and keeps every other key |
| JanusSession.StampedEnvelope | agent/soundagent.py:72-89 | the enveloped and stamped message has all three envelope keys with the right values and every other key of the original |
| JanusSession.PluginSend | agent/soundagent.py:72-75 | a plugin message reaches the messenger with `janus = message`, the plugin's handle id and the session id, and every other key as given; it fails exactly when the session holds no messenger |
| JanusSession.PluginSendAppends | agent/soundagent.py:72-89 | a message without the three envelope keys gets them appended in the order `janus`, `handle_id`, `session_id` |
| JanusSession.DataId | agent/soundagent.py:94-100 | `response['data']['id']` succeeds exactly when the reply is an object whose `data` is an object holding `id`, and then yields that `id` |
| JanusSession.Create | agent/soundagent.py:91-96 | a rejected handshake raises with nothing changed; a closed socket leaves no messenger and the send raises; otherwise `{janus: create}` is sent, and the session id is stored and the keepalive started exactly when the reply carries `data.id` |
| JanusSession.Attach | agent/soundagent.py:98-104 | `{janus: attach, plugin}` is sent; exactly one handle is registered, under the reply's `data.id`, and returned; every other handle is untouched; failures leave the registry unchanged |
| JanusSession.KeepaliveTick | agent/soundagent.py:125-128 | a running keepalive sends `{janus: keepalive, session_id}`; without a messenger the keepalive dies with `AttributeError`; otherwise nothing happens |
| JanusSession.Destroy | agent/soundagent.py:105-122 | it completes exactly when it neither needs a missing messenger nor awaits a crashed keepalive; completion leaves no messenger, no keepalive, no handles and a falsy session id; `destroy` is sent exactly when the session id was truthy; a missing messenger raises `AttributeError` before anything is sent; a crashed keepalive re-raises its exception after `destroy` was sent and the session id cleared |
| JanusSession.DestroyIsIdempotent | agent/soundagent.py:105-122 | a second `destroy` after a completed one sends nothing, raises nothing and changes nothing |
| JanusSession.NoKeepaliveAfterDestroy | agent/soundagent.py:105-128 | after a completed `destroy` the keepalive sends nothing |
| JanusSession.AnswerRequest | agent/soundagent.py:164-170 | the answer reaches the messenger as `{body: {}, jsep: {type, sdp}, janus: message, handle_id, session_id}` |
| JanusSession.HandleJsep | agent/soundagent.py:157-170 | it succeeds exactly when `jsep` is an object with `sdp` and `type`, the engine accepts the offer and a messenger exists; the offer is read from those keys, and exactly one answer message, built from the local description, is sent; an engine refusal raises its own exception; a failure sends nothing |
| HostId.HexDigit | backend/rtc_node.py:48 | each digit value is written as an upper-case hex digit |
| HostId.DigitValue | backend/rtc_node.py:48 | each upper-case hex digit is the digit of exactly one value below 16 |
| HostId.HexPaddedIsHex | backend/rtc_node.py:48 | `'%0wX' % n` is made of upper-case hex digits |
| HostId.HexPaddedReadsBack | backend/rtc_node.py:48 | `'%0wX' % n` reads back as `n`, and takes exactly `w` digits when `w >= 1` and `n < 16^w` |
| HostId.HexPaddedOfValue | backend/rtc_node.py:48 | padding the value of `w >= 1` hex digits to width `w` gives the same digits |
| HostId.ZeroTakesOneDigit | backend/rtc_node.py:48 | like Python, zero padded to width 0 or 1 is written `0`, one digit |
| HostId.HexPaddedAtLeastWidth | backend/rtc_node.py:48 | the padded text is never shorter than the width, and has at least one digit |
| HostId.HexValueBound | backend/rtc_node.py:48 | `w` hex digits hold a value below `16^w` |
| HostId.GroupOfDigits | backend/rtc_node.py:48 | pairing an even number of hex digits gives colon-separated pairs of `3n/2 - 1` characters, and removing the colons gives the digits back |
| HostId.GroupedDigits | backend/rtc_node.py:48 | every colon-separated run of pairs is the grouping of its own digits |
| HostId.HostIdRoundTrip | backend/rtc_node.py:47-48 | for every 48-bit address the host id is 17 characters, six upper-case hex pairs joined by `:`, and reading it back without colons gives the address |
| HostId.HostIdOfMacOf | backend/rtc_node.py:47-48 | every well-formed host id is the host id of the address it spells, so the formatter is a bijection |
| RtcNode.NewNode | backend/rtc_node.py:45-51 | a new node has an empty registry, is not connected, uses the fixed server URL and room, and has a well-formed host id that reads back as the machine's address |
| RtcNode.HandleDisconnect | backend/rtc_node.py:64-69 | the client disconnects, every registered connection is closed in registration order, and the registry ends empty |
| RtcNode.HandleIce | backend/rtc_node.py:71-78 | one `ice_candidate` event, tagged with the client id and room, is emitted exactly when there is a candidate; the state never changes |
| RtcNode.ConnectToSignallingServer | backend/rtc_node.py:123-138 | a refused connection raises; otherwise `join_room` with the room id is emitted exactly when the client reports itself connected |
| RtcNode.SendOffer | backend/rtc_node.py:80-98 | a fresh connection holding the offer replaces the one under `c` without closing it; other entries are untouched; exactly one `offer` event goes out, carrying `c` and the room |
| RtcNode.SendOfferKeys | backend/rtc_node.py:84 | the key set becomes old ∪ {c}: an existing client keeps its place and a new one is appended |
| RtcNode.SendAnswerAndConnect | backend/rtc_node.py:100-121 | the connection is registered under `sid` before the candidate is read, so the key set always becomes old ∪ {sid}; a candidate without `sdp`/`type`, or an offer the engine refuses, raises and leaves a bare connection; otherwise exactly one `answer` goes out with `host_sid = sid` and the room, and the connection holds the offer and the answer |
| RtcNode.ChooseCandidate | backend/rtc_node.py:141-145 | undecodable text raises; an empty payload does nothing; a truthy non-object raises; for an object only the first entry is answered and every other client id is untouched |
| RtcNode.HandleAnswer | backend/rtc_node.py:56-62 | the key set never changes and nothing is emitted; only a registered, truthy `client_id` gets a remote description, built from the other fields; when the engine refuses the answer it raises that exception and changes nothing |
| RtcNode.OfferEach | backend/rtc_node.py:149-150 | the loop creates one connection and emits one event per key, and changes no setting |
| RtcNode.Offers | backend/rtc_node.py:149-150 | the expected offers: one per key, in order |
| RtcNode.OffersAt | backend/rtc_node.py:149-150 | the i-th expected offer carries the i-th key and the offer of the i-th new connection |
| RtcNode.OfferEachStep | backend/rtc_node.py:149-150 | one turn of the loop emits the first key's offer and continues from the state it left |
| RtcNode.OfferEachEmits | backend/rtc_node.py:149-150 | the loop emits exactly the expected offers, in key order |
| RtcNode.OfferEachRegistry | backend/rtc_node.py:149-150 | every visited key ends with a connection created during the loop; other keys are untouched; when every visited key was registered, the key set is unchanged |
| RtcNode.BroadcastOffer | backend/rtc_node.py:147-150 | a refused connection raises; otherwise nothing is closed and the connected flag is what the server reported |
| RtcNode.BroadcastOffersRegisteredKeys | backend/rtc_node.py:134-150 | once connected, `broadcastOffer` emits `join_room` (only when connected) and then one offer per registered client id, in registration order |
| RtcNode.BroadcastOfferKeepsKeys | backend/rtc_node.py:147-150 | `broadcastOffer` keeps the registered key set and gives every key a fresh connection |
| RtcNode.OfferKeepsValid | backend/rtc_node.py:80-98 | an offer keeps the registry a dictionary of connections created before the counter |
| RtcNode.AnswerAndConnectKeepsValid | backend/rtc_node.py:100-121 | answering an incoming offer keeps the registry invariant |
| RtcNode.ChooseCandidateKeepsValid | backend/rtc_node.py:141-145 | choosing a candidate keeps the registry invariant |
| RtcNode.AnswerKeepsValid | backend/rtc_node.py:56-62 | applying an answer keeps the registry invariant |
| RtcNode.ConnectionEventsKeepValid | backend/rtc_node.py:64-150 | disconnect, ICE relay, connecting and broadcasting keep the registry invariant |
| RtcNode.OfferEachKeepsValid | backend/rtc_node.py:149-150 | the offer loop keeps the registry invariant |
| RtcNode.OfferTwiceKeepsOneEntry | backend/rtc_node.py:84 | offering the same client twice leaves one entry, holding the second connection; the first is dropped without being closed |
| RtcNode.FreshNodeOffersNothing | backend/rtc_node.py:147-150 | on a fresh node `broadcastOffer` emits at most `join_room`, and no offers |
| BrowserClient.Initial | app.js:3-6 | the page starts with an empty queue, no session id and a connecting socket |
| BrowserClient.LiteralGet | app.js:37-70 | a serialised object literal holds each defined member's value and omits `undefined` ones |
| BrowserClient.LiteralIsDistinct | app.js:37-70 | a serialised literal names each member once |
| BrowserClient.SendMessage | app.js:94-102 | an open socket transmits the message and leaves the queue alone; otherwise the message is appended to the queue and nothing is transmitted; either way it goes to exactly one place |
| BrowserClient.CreateRequest | app.js:17-20 | the create request is `{janus: create, transaction: create_ + suffix}` |
| BrowserClient.AttachRequest | app.js:37-42 | the attach request carries `janus = attach`, the session id when defined, a `join_` transaction and the AudioBridge plugin |
| BrowserClient.AnswerMessage | app.js:64-70 | the answer carries `janus = message`, the session id, the offer's transaction, `body {request: answer}` and the local description as `{type, sdp}` |
| BrowserClient.OnOpen | app.js:13-22 | opening the socket sends the create request at once |
| BrowserClient.OnClose | app.js:25 | closing marks the socket closed and keeps the queue and the session id; nothing is sent or thrown |
| BrowserClient.SendAfterCloseIsQueued | app.js:25-102 | after the socket closes, a message is not transmitted but appended to the end of the queue |
| BrowserClient.OnMessage | app.js:27-76 | an undecodable frame and `null` throw; the ready state never changes; the old queue stays a prefix of the new one; at most one message is sent or queued |
| BrowserClient.CreateReplyAttaches | app.js:32-44 | a `success` reply with a `create_` transaction stores `data.data.id` and sends or queues exactly one attach request carrying it |
| BrowserClient.JoinReplyIsQuiet | app.js:47-49 | a `success` reply with a `join_` transaction changes nothing and sends nothing |
| BrowserClient.BridgeEventAnswers | app.js:52-75 | an AudioBridge event with a `jsep` sends exactly one answer echoing the event's transaction and the stored session id; without a `jsep` nothing is sent |
| BrowserClient.QueueNeverDrains | app.js:13-102 | no handler ever removes a message from the queue |
| StreamReply.SplitHasNoNewlines | js/interface.js:38 | no piece of `chunk.split('\n')` contains a newline |
| StreamReply.JoinSplit | js/interface.js:38 | joining the pieces of a split with `\n` gives the chunk back |
| StreamReply.SplitJoin | js/interface.js:38 | splitting newline-free pieces joined by `\n` gives the pieces back |
| StreamReply.SplitPrefix | js/interface.js:38 | newline-free text in front of a chunk only extends the split's first piece |
| StreamReply.LineTextCases | js/interface.js:40-49 | a line `JSON.parse` rejects, `null`, a falsy or missing `response`, and a `response` whose conversion to text throws add nothing; a string `response` is added as it is; any other object `response` adds `[object Object]` |
| StreamReply.ShadowedToStringLineIsSkipped | js/interface.js:40-48 | a `response` object with its own `toString` member, alone or inside an array, makes `+=` throw, so its line adds nothing; an object with only its own `valueOf` still adds `[object Object]` |
| StreamReply.FilterThenParse | js/interface.js:38-50 | dropping blank lines and then folding is the same as folding every line with blank lines adding nothing |
| StreamReply.FoldLines | js/interface.js:40-50 | the line loop appends, in order, what each line contributes |
| StreamReply.FoldChunk | js/interface.js:37-50 | one chunk appends, in order, what each of its non-blank lines contributes |
| StreamReply.ReadStream | js/interface.js:29-51 | the read loop accumulates each chunk's text separately, in chunk order |
| StreamReply.SilentLineIsSkipped | js/interface.js:40-50 | a line that adds nothing does not disturb the lines around it |
| StreamReply.UnparsableLineIsSkipped | js/interface.js:41-48 | an unparsable line is skipped without aborting the remaining lines |
| StreamReply.BlankLineIsSkipped | js/interface.js:38 | empty and whitespace-only lines are filtered out and add nothing |
| StreamReply.ReaderSkipsEmpty | js/interface.js:38 | the empty piece after a final newline adds nothing |
| StreamReply.UnparsedLineIsSilent | js/interface.js:41-48 | a line `JSON.parse` rejects adds nothing |
| StreamReply.ResponseLineAdds | js/interface.js:42-45 | a line whose `response` is a non-empty string adds exactly that string |
| StreamReply.SpeakToLlama | js/interface.js:10-56 | a rejected fetch and a non-2xx status show `Error: ` and the message, and accumulate nothing; a 2xx reply accumulates the streamed text, skipping every line whose `response` cannot be converted to text, and the text is shown unless reading failed |
| StreamReply.OneLineChunk | js/interface.js:37-50 | a chunk with no newline contributes its single line |
| StreamReply.OneTerminatedLineChunk | js/interface.js:37-50 | a chunk holding one newline-terminated line contributes that line |
| StreamReply.TwoChunks | js/interface.js:31-51 | two chunks contribute their texts one after the other, each folded on its own |
| StreamReply.CutLineAsWritten | js/interface.js:31-51 | a line cut across two chunks is folded as two separate lines |
| StreamReply.CutLineBuffered | js/interface.js:31-51 | with the unfinished line buffered, a line cut across two chunks is folded once, whole |
| StreamReply.SplitObjectTexts | js/interface.js:40-49 | the two halves of `{"response":"hi"}` add nothing and the whole line adds `hi` |
| StreamReply.SplitObjectIsLost | js/interface.js:31-51 | the object `{"response":"hi"}` cut across two chunks is lost by the fold as written, and kept by the buffered fold |
| StreamReply.FeedCompletes | js/interface.js:31-51 | feeding a chunk to the buffered fold of a text gives the buffered fold of the text extended by the chunk |
| StreamReply.BufferedRunInvariant | js/interface.js:31-51 | after any chunks, the buffered fold has folded every complete line of their concatenation and holds the last, unfinished one |
| StreamReply.BufferedTextIsWholeText | js/interface.js:31-51 | the buffered fold produces the text of the whole body, however it was cut into chunks |
| StreamReply.BufferedTextIgnoresBoundaries | js/interface.js:31-51 | two chunkings of the same body give the same buffered text |
| StreamReply.AlignedChunksAgree | js/interface.js:31-51 | when every chunk ends on a line boundary, the fold as written and the buffered fold agree |
| StreamReply.SpeakToLlamaBuffered | js/interface.js:10-56 | with the unfinished line held back between reads, the error cases are as written and a 2xx stream read to its end shows the text of the whole body |
| StreamReply.BufferedSpeechAgreesWhenAligned | js/interface.js:10-56 | when every read ends on a line boundary, the corrected handler shows what the handler as written shows |
| LookAt.Show | js/interface.js:102-109 | showing affects only an existing panel and makes it visible |
| LookAt.Hide | js/interface.js:111-118 | hiding affects only an existing panel and makes it invisible |
| LookAt.Init | js/interface.js:63-98 | the flag starts false, the panel (if any) hidden, and the global model untouched |
| LookAt.OnIntersection | js/interface.js:73-89 | no object changes nothing; an object without an entity throws before changing anything; otherwise the global model becomes the hit model; only the cow sets the flag and shows the panel; other models leave flag and panel alone; the flag is never cleared |
| LookAt.OnCleared | js/interface.js:91-96 | clearing resets the flag and the global model and hides the panel |
| LookAt.StepKeepsConsistent | js/interface.js:73-96 | each listener keeps the panel shown exactly while the flag is set |
| LookAt.RunKeepsConsistent | js/interface.js:73-96 | any run of events keeps the panel shown exactly while the flag is set |
| LookAt.RunKeepsPanelPresence | js/interface.js:102-118 | no event creates or removes the panel |
| LookAt.LookingIffCowSinceClear | js/interface.js:73-96 | after a run of events the flag is set exactly when some cow hit has no clear after it, or the flag was set and no clear came |
| LookAt.ShownIffCowSinceClear | js/interface.js:63-118 | from `init`, the panel is shown exactly when some cow hit has no clear after it |
| LookAt.OtherModelKeepsPanel | js/interface.js:77-87 | looking from the cow to another model keeps the flag and the panel up, while the global model names the other model |

## Left out

- `SineWaveAudioStreamTrack` (backend/rtc_node.py:17-42): floating-point sine synthesis and frame timing. A connection is only a serial number and its two descriptions.
- The media engine: SDP generation, `createOffer`/`createAnswer` and the validation that `RTCSessionDescription` performs. Offers and answers are parameters. Whether `setRemoteDescription` accepts a description is a parameter too, so the model does not say which descriptions it refuses.
- RtcNode.SendAnswerAndConnect: an engine failure is modelled as one exception that leaves a bare connection. A `createAnswer` or `setLocalDescription` that raises after the offer was applied would leave the offer set on the connection; the model does not separate that case.
- The transports (websockets, Socket.IO, `fetch`, the browser `WebSocket`). Handshake outcomes and decoded frames are parameters, and so is transmit success for the Janus messenger (`Messenger.Send`). Registering the Socket.IO handlers (backend/rtc_node.py:125-128) has no effect in the model.
- JSON encoding and decoding: `json.loads`/`JSON.parse` of a frame or line is an oracle, and `json.dumps`/`JSON.stringify` produce the object that is modelled. Numbers are integers: floating point and `String` of numbers from 1e21 up are not modelled. Duplicate keys in a decoded object are not modelled.
- `TextDecoder`: chunks are taken already decoded to text, so a multi-byte character cut across chunks is not modelled.
- asyncio scheduling: the keepalive's sleep, cancellation races and the concurrent suspension of callers inside `send`. A caller's wake-up is the `delivered` output of `Messenger.Receive`.
- RtcNode: every Socket.IO `emit` (backend/rtc_node.py:74, 93, 116, 136) is taken to succeed. An emit that raises is not modelled: in `sendOffer` it would leave the new connection registered, since registration comes first, and it would stop the `broadcastOffer` loop.
- Messenger.CollisionOrphansEarlierSlot: a slot does not record which caller waits on it. The lemma shows that at most one of the two colliding callers is woken. It does not state that the woken one is the later caller, whose future replaced the earlier one.
- BrowserClient.OnMessage: each `onmessage` call is one atomic step. In app.js:57-61 the handler awaits the media engine before it reads `sessionId` (app.js:66) and `ws.readyState` (app.js:95). Another `onmessage` or `onclose` running during those awaits is not modelled. The answer is built from the state when the event arrived, so an answer the source would queue after a close during the awaits is sent in the model.
- JanusSession.Create: a second `create` on a live session would leave the previous keepalive task and messenger running. The model keeps a single keepalive token and messenger token.
- JanusSession.Attach: Python's `True == 1` equality of handle ids is not modelled. Handle ids are compared as JSON values.
- `run` and the `__main__` blocks (agent/soundagent.py:131-155, 173 onwards; backend/rtc_node.py:152-158): argument parsing, logging and event-loop start-up. This includes the join request and the `die` on a reply without `jsep`.
- The `ws.onerror` handler (app.js:24), `pc.ontrack` and the audio element (app.js:79-90): these only log or touch the DOM.
- DOM styling beyond visibility, `debugLog`, `console` output and `angleThreshold` (js/interface.js): they do not affect the state that is modelled. A missing `this.el` is not modelled.
- backend/legacy/eye.py is not part of this model: it contains no logic.

## Findings

| source | as written | input that shows it | evidently intended | confidence | as-written member | corrected member |
|---|---|---|---|---|---|---|
| js/interface.js:37-49 | every chunk is split and parsed on its own, so a line cut across two reads becomes two unparsable halves that are skipped | chunks `{"response":"hi"` and `}\n` | the reply text is the text of the whole newline-delimited body, however the stream is chunked (an unfinished line is held back for the next chunk) | not executed | StreamReply.SplitObjectIsLost | StreamReply.SpeakToLlamaBuffered |
