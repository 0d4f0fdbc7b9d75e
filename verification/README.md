# A verified model of the JSON-RPC library

jasonrpc carries JSON-RPC 2.0 messages over byte streams. A message passes through three layers: a
multiplexing client, on which many calls share one connection; a framing codec with an incremental reader;
and a router that dispatches single requests and batches to handlers. This project models each layer in
Dafny, proves what each promises, and composes them.

**The main theorem** is `Calls.CallGetsItsOwnReply`. Take any interleaving of calls, notifications,
cancellations and write errors on one connection, any cutting of the bytes into reads in both directions, and
any end of either stream, with a frame cut short or not. A call that returns a reply returns the router's
answer to its own request, in the handler state left by the messages before it in writer-lock order; and a
typed caller decodes the handler's value, or its error. The hypotheses are these:

- `Lawful`: the JSON backend parses what it renders, and so on; see `Json`.
- `Correlates`: the client looks for ids where `parse_id` does. Other messages may be anything: batches, or bytes
  that are no JSON.
- `AllEncodable` and `RepliesCarried`: the framing can carry the messages, and the replies to those handled. Under
  a delimiter they must not contain it.
- `PromptReuse`: a call registers under the id of another only when that other has not begun, is over without a
  byte on the wire, or has had its reply taken. Distinct ids are the special case `IdReuse.DistinctIdsArePrompt`.
- `Untorn`: no write has ended inside its frame.
- `Names`: nothing goes out under the call's id as a notification; the null id, which is also on every error that
  names no request, is used only where every message is a single request and none has been taken unfinished; and a
  message that the peer has taken unfinished, at end of stream, is the beginning of a single request.

The premise on ids is exact. Before any call is made, one can only ask that ids be distinct, and
`Witness.OwnershipIsExact` shows that calls get the replies to their own messages in every run if and only if they
are; `PromptReuse` is the finer premise, which suffices for one run. `Witness.ReusedTooEarly` is the run that fails for any two
calls under one id: the second returns the answer to the first's message, and its own has not been handled.

`Calls.ClientCallsSpeak` shows that a `Client`'s own calls meet the premises on ids, and
`Witness.ACallCanBeAnswered` that some run meets them all and answers its call. `Gateway.GatewayIsTransparent`
carries the result to the id-rewriting proxy, whose callers may all use the same id, and `Reconnecting` carries both
to a client that re-dials: any number of connections, one supply of ids, each connection alive until its reader
stops.

## How the model is built

- **Framing** (`Bytes`, `Decimal`, `Codec`, `Delimited`, `Netstring`, `ContentLength`, `Framing`). Codecs
  are functions on bytes; the header search and the header loop are methods with their loops. `IsFrame` says
  what a codec owes: the bytes decode to the payload whatever follows, and no strict prefix decodes at all.
- **Receiving and sending** (`Receive`, `FramedStreams`, `FramedIo`). `Receive.Recv` and `RecvAll` are the
  specification; `Reference` decodes the whole stream with no reads, buffer or cap. `FramedIo.ReadCore` and
  `FramedWriter` are classes that update their buffers in place, over streams that are oracles.
- **Messages** (`Json`, `LawfulBackend`, `Protocol`, `Client`). The JSON backend is a record of functions
  with four laws, `Lawful`: what is rendered parses back; the first byte tells arrays and objects; splitting an
  array yields its elements; and the beginning of an object's text parses only when nothing but white space is
  missing, and that of a rendered object or array never does. `LawfulBackend` builds a backend that has them, so
  they do not contradict each other.
- **Dispatch** (`Server`, `Dispatch`, `RouterTable`, `Routers`, `RoundTrip`). A handler is a function from the
  shared state and a request to the new state and a result. `RouterTable` models the method table on the heap,
  with its reference count and aliased handles; `Routers` runs whole programs of router operations on it.
- **The multiplexing client** (`Multiplex`, `Correlation`, `PendingMap`, `CloseDown`, `Wire`, `Connection`).
  A transition system whose actions are the sections that run without interruption: check, register, lock,
  each partial write, unlock, cancel, guard drop, receive; and for the reader take, deliver, store, clear.
  `Connection.MultiplexTransport` is the object whose methods are those sections.
- **Composition** (`Peer`, `EndToEnd`, `Origins`, `IdReuse`, `Calls`, `Witness`, `Gateway`): the peer's loop as a
  method; both ends of a connection as one transition system; where a frame comes from; whom it reaches; and the
  theorems about calls.
- **Reconnecting and authorizing** (`Backoff`, `ReconnectGate`, `HttpClient`, `TokenRefresh`, `Counting`): each as
  the sequential algorithm in place, and as a transition system over all interleavings. `Reconnecting` composes the
  gate with every connection it has made.

## Where the code and its documentation differ

The model follows the code; each difference is a theorem.

- `src/client/multiplex.rs:19-21` says that when the connection ends all waiters resolve instead of hanging.
  A call that passes the connected check before the store and registers after the clear does not:
  `CloseDown.AnyCallCanBeLate`, `CloseDown.LateCallNeverResolves`.
- `src/client/mod.rs:59-60` says that an id past 2^63 would be a string. It is a negative number, and the ids
  repeat only after 2^64: `Client.IdsDistinct`.
- `src/client/uds.rs:66-67` says that `RetryPolicy::none` never reconnects. It re-dials once:
  `ReconnectGate.EveryPolicyReconnects`.
- `max_frame_size` (`src/transport.rs:567-571`) is described as the size of a frame. It bounds the whole
  buffer, so a frame is safe under every chunking exactly when the cap is its length plus what is behind it on
  the stream, of which at most 4095 bytes count: `FramedStreams.CapIsExact`.
- A message of whitespace alone is answered with Invalid Request, not with Parse error:
  `Dispatch.PeekingIsSound`.
- A handler result of `null` reaches the caller as a malformed response: `RoundTrip.NullResultIsLost`.

## Model

| member | source | states |
|---|---|---|
| Decimal.ParsePrint | src/transport.rs:184-210 | Reading back a printed length gives that length, and fails exactly when it exceeds `usize` |
| Delimited.DelimiterMustBeAbsent | src/transport.rs:78-82 | A delimited payload comes back exactly if and only if it does not contain the delimiter |
| Netstring.DecodeEncoded | src/transport.rs:171-226 | A netstring decodes to its payload whatever bytes follow it |
| Netstring.DecodePrefix | src/transport.rs:195-218 | The decoder waits on every strict prefix of a netstring |
| ContentLength.FindHeaderEnd | src/transport.rs:340-350 | The hopping search returns the least index of a blank line, or none when there is none |
| ContentLength.JoinLines | src/transport.rs:354-359 | Splitting header lines joined by CRLF gives back exactly those lines |
| ContentLength.DecodeInPlace | src/transport.rs:287-331 | The decoder with its loop over the headers agrees with the decoder the laws are proved of |
| ContentLength.DecodeMessage | src/transport.rs:236-247 | Whatever other headers there are and in whatever order, the payload announced by the last Content-Length line comes out |
| ContentLength.HeaderCapIsExact | src/transport.rs:269-296 | Every partial message is waited for if and only if its header block fits the 8 KiB cap |
| Framing.DecodeAppend | src/transport.rs:53-65 | A decoded frame, and every error but the two length guards, is unchanged by bytes that arrive later |
| Framing.ErrorStability | src/transport.rs:195-201 | An error survives every continuation of the stream if and only if it is not a length guard |
| Framing.FrameIsLocal | src/transport.rs:53-65 | A frame that decodes does so from its own bytes alone |
| Framing.EncodeIsFrame | src/transport.rs:53-65 | What any codec writes for a payload it can carry is one frame: it decodes to the payload whatever follows, and no strict prefix decodes |
| Framing.MessageIsFrame | src/transport.rs:287-331 | The same of any Content-Length message a peer may send |
| Receive.RecvTakesFirstFrame | src/transport.rs:443-473 | One `recv` returns the first frame of the bytes held and to come, and consumes no more, whatever the chunking |
| Receive.SessionIsPrefix | src/transport.rs:443-520 | Under any chunking and cap, what is delivered before the first error is a prefix of the greedy decode of the whole stream |
| Receive.SessionIsReference | src/transport.rs:443-473 | A session not stopped by a cap, a length guard or an I/O error equals the greedy decode, end included |
| Receive.ChunkingsAgree | src/transport.rs:443-520 | Two chunkings of the same bytes give the same such session |
| FramedStreams.ReferenceOfFrames | src/transport.rs:443-473 | The greedy decode of concatenated frames is the list of their payloads |
| FramedStreams.FramesAreReceived | src/transport.rs:443-520 | A stream of frames yields exactly their payloads and then the end, under any chunking, when the cap admits each frame with the rest of the stream behind it |
| FramedStreams.CapIsExact | src/transport.rs:483-518 | A frame gets through every chunking if and only if the cap is 0 or at least its length plus the bytes behind it, of which at most 4095 count |
| FramedStreams.StreamCapIsExact | src/transport.rs:443-520 | A whole stream of frames gets through every chunking if and only if the cap admits each of them so |
| FramedIo.ReadCore.Fill | src/transport.rs:478-520 | Growing, reading into the tail and truncating appends exactly what arrived; an I/O error restores the buffer; the buffer is within the cap after success and never exceeds it by more than 4095 |
| FramedIo.ReadCore.Recv | src/transport.rs:443-473 | The loop computes the specification, and bytes received are always bytes consumed followed by the buffer |
| FramedIo.FramedWriter.Send | src/transport.rs:615-621 | Success puts exactly the frame on the stream, failure a prefix of it |
| Protocol.WireIdEcho | src/protocol.rs:88-147 | An accepted wire id re-reads from its echo as the same id, and the echo is the value received unless that was an integer above `i64::MAX` |
| Protocol.WireIntegersStayDistinct | src/protocol.rs:125-127 | Distinct wire integers are distinct ids, those that become strings included |
| Protocol.RequestRoundTrip | src/protocol.rs:356-370 | A printed request parses back with its method, its params as handlers see them, and the presence and value of its id |
| Protocol.ErrorRoundTrip | src/protocol.rs:171-178 | An error object keeps code, message and data, `null` data excepted |
| Protocol.ResponseRoundTrip | src/protocol.rs:536-544 | A response keeps its id, its error and its result, a `null` result excepted |
| Client.IdGen.NextId | src/client/mod.rs:48-64 | The generator hands out the sequence of ids that `IdsDistinct` is about |
| Client.IdsDistinct | src/client/mod.rs:57-63 | Two ids of the generator agree exactly when a multiple of 2^64 apart, so any 2^64 in a row are distinct |
| RoundTrip.TypedCall | src/client/mod.rs:72-133 | For any method, params and id: the handler runs once on the meant request, and the caller decodes its value, or its error |
| RoundTrip.NullResultIsLost | src/client/mod.rs:128-132 | A readable handler value reaches the caller if and only if it is not `null` |
| RoundTrip.ForeignReplyRefused | src/client/mod.rs:124-127 | A response is refused as a mismatch if and only if its id is not the expected one |
| Server.HandleBatchInPlace | src/server.rs:492-538 | The loop that pushes responses computes the state-threading specification |
| Dispatch.PeekingIsSound | src/server.rs:395-435 | Peeking at the first byte and splitting the text decides as dispatching on the parsed value would |
| Dispatch.BatchState | src/server.rs:526-531 | After a batch the state is that of running the handlers of its well-formed, registered entries once each, in order |
| Dispatch.BatchAnswers | src/server.rs:476-538 | The answers are in request order, one per entry that is not a well-formed notification, each in the state its predecessors left, valid, and under its entry's id |
| Dispatch.RejectedBatch | src/server.rs:494-524 | An unparsable, empty or over-long batch runs no handler, leaves the state alone and gets one error under a null id: Parse error if and only if the text does not parse, else Invalid Request with the due message |
| Dispatch.BatchNeverEmpty | src/server.rs:533-537 | A batch answer is never the empty array; a batch is silent if and only if it is accepted and holds only well-formed notifications |
| Dispatch.ElementAsMessage | src/server.rs:477-489 | An element that is not an array is handled in a batch as it would be as a message of its own |
| RouterTable.OnlySharer | src/server.rs:334-336 | The reference count of a table is one if and only if one live handle is alone on it |
| RouterTable.Handle.New | src/server.rs:266-272 | A new router adds a live handle on an empty table of its own, and every live handle still shows its own registrations |
| RouterTable.Handle.Clone | src/server.rs:213-223 | A clone shares the table, the count goes up with it, and every live handle still shows its own registrations |
| RouterTable.Handle.MakeMut | src/server.rs:336-336 | Afterwards the handle is alone on a table of the same entries; the table is copied exactly when it was shared |
| RouterTable.Handle.Register | src/server.rs:328-369 | The handle dispatches by its own registration history, no other handle notices, and a name already taken panics |
| Routers.Execute | src/server.rs:204-369 | Over any sequence of new, clone, register and drop, every handle that lives dispatches by the map of its own registration history |
| Correlation.StepInv | src/client/multiplex.rs:200-294 | Every action keeps: pending entries point to open, unanswered calls of their id, and every reply held or returned is the one frame taken for that call |
| Correlation.RepliesCorrelate | src/client/multiplex.rs:208-218 | In every reachable state a reply returned carries the caller's id, was taken for that caller only, and is the only frame taken for it |
| CloseDown.FrameReachesItsWaiter | src/client/multiplex.rs:209-217 | With distinct ids in flight, a frame goes to a call if and only if the call is in flight under the frame's id and has not been answered |
| CloseDown.StrayFramesIgnored | src/client/multiplex.rs:216-220 | A frame changes nothing if and only if it has no id or no call in flight under its id is still unanswered |
| CloseDown.DuplicateReplyIgnored | src/client/multiplex.rs:216-216 | A second reply to an answered call changes nothing, unless another call in flight has taken up the id |
| PendingMap.RunExact | src/client/multiplex.rs:95-121 | Over every run with distinct ids in flight, ids reused or not, the map holds exactly the calls that still need their entry, and a waiter's channel is open, filled or dropped accordingly |
| PendingMap.DistinctIdsSuffice | src/client/multiplex.rs:258-264 | When all ids are distinct, every run has distinct ids in flight |
| CloseDown.PendingIsExact | src/client/multiplex.rs:85-121 | With distinct ids in flight, an entry is in the map if and only if its call has registered, still has its guard, has had no sender taken and was not cleared |
| CloseDown.DuplicateDisplaces | src/client/multiplex.rs:263-263 | A second registration under one id costs the first call its waiter, on a live connection |
| CloseDown.WaiterKeepsItsSender | src/client/multiplex.rs:258-264 | With distinct ids in flight no waiter is dropped while the connection lives |
| CloseDown.NoSpuriousFailure | src/client/multiplex.rs:258-264 | Over all runs no waiter is ever dropped while the connection lives if and only if the ids are pairwise distinct |
| CloseDown.WaiterResolvesIffInTime | src/client/multiplex.rs:221-227 | With distinct ids in flight, after the clear a waiting call can finish if and only if it registered in time, and unanswered it finishes with `ConnectionClosed` |
| CloseDown.LateCallNeverResolves | src/client/multiplex.rs:250-275 | With distinct ids in flight, a call registered after the clear is never answered nor told of the close, however the run goes on |
| CloseDown.AnyCallCanBeLate | src/client/multiplex.rs:221-264 | Any call can come to that, by a run of four actions |
| CloseDown.AfterStore | src/client/multiplex.rs:224-264 | After the store the connection stays down, the calls past the check only become fewer, and only they can still enter the map |
| CloseDown.NewCallsFailFast | src/client/multiplex.rs:248-252 | A call that begins after the store fails, registers nothing and writes nothing |
| Wire.StepWire | src/client/multiplex.rs:291-294 | Every action, down to a single partial write, keeps the wire equal to what each finished write got out, in lock order, then the lock holder's part |
| Wire.WholeFramesInLockOrder | src/client/multiplex.rs:15-16 | Unless a write was torn, the wire is whole frames in lock order and then a prefix of the lock holder's frame |
| Connection.MultiplexTransport.RegisterCall | src/client/multiplex.rs:254-264 | Registration on the shared fields is exactly the registering action, a displaced sender's drop included |
| Connection.MultiplexTransport.DropPendingGuard | src/client/multiplex.rs:115-121 | The guard's drop, which removes whatever is under its id, is exactly the guard-dropping action |
| Connection.MultiplexTransport.TakeFrame | src/client/multiplex.rs:209-217 | Routing a frame by its id is exactly the taking action |
| Connection.MultiplexTransport.ClearPending | src/client/multiplex.rs:225-225 | The clear empties the map and drops exactly the senders it held |
| Connection.MultiplexTransport.Execute | src/client/multiplex.rs:200-294 | Under any schedule the object goes through exactly the states of the corresponding run |
| Peer.Serve | examples/gateway_demo.rs:98-107 | The connection loop handles what `recv` yields, in order and once each, all of it unless a send fails, and has written exactly the framed replies, or a beginning of them if a send failed |
| Peer.ReplyHasOrigin | examples/gateway_demo.rs:100-106 | Every reply sent answers some message, in the state its predecessors left |
| EndToEnd.NextFrameDecodes | src/transport.rs:443-473 | At any point of a stream cut anyhow, what decodes next in the receiver's buffer is the next frame sent |
| EndToEnd.RestIsBeginning | src/transport.rs:459-464 | What is left when nothing decodes, which a delimited reader hands over at end of stream, is a proper beginning of the next frame sent |
| EndToEnd.AlwaysOk | examples/gateway_demo.rs:98-107 | In every run of both ends: what the peer has handled is what was sent first, in lock order, and what the client has taken are the first of the peer's replies; at end of stream the last may be only a beginning |
| Origins.HandledInLockOrder | src/client/multiplex.rs:291-294 | With no torn write, whatever is sent, the peer has handled the first messages in lock order, none twice, and its state is theirs; a single request cut short at end of stream counts only when it parses |
| Origins.TakenFrom | src/client/multiplex.rs:209-217 | A frame taken under an id that names its requests is the whole of the router's answer to a whole request sent under that id, in the state its predecessors left |
| Origins.NamedReply | src/server.rs:395-435 | Whatever the message, a reply or beginning of one that carries an id other than null is the whole answer to a single request with that id: batch answers and other errors never carry one |
| IdReuse.ReusedPromptly | src/client/multiplex.rs:208-264 | When ids are reused only after their earlier calls are settled, every frame taken for a call answers that call's own message |
| IdReuse.DistinctIdsArePrompt | src/client/mod.rs:57-63 | Distinct ids are never reused too early |
| Calls.CallGetsAReplyUnderItsId | src/client/multiplex.rs:247-275 | With no premise on reuse, and whatever else is sent, a call that returns a reply returns the router's answer to a request sent under its id |
| Calls.CallGetsItsOwnReply | src/client/multiplex.rs:247-275 | The main theorem above |
| Calls.ClientCallsSpeak | src/client/mod.rs:44-96 | Calls and notifications of a client, within 2^64 ids of each other, meet its premises |
| Witness.ACallCanBeAnswered | src/client/multiplex.rs:247-275 | Any client call whose request and reply the framing can carry goes out and back in some run, and that run meets every premise of the main theorem |
| Witness.ReusedTooEarly | src/client/multiplex.rs:209-217 | For any two calls under one id there is a run without torn writes in which the second returns the answer to the first's message, the only one the peer has handled |
| Witness.OwnershipIsExact | src/client/multiplex.rs:247-275 | When all messages are single requests that can be carried and answered, every call that returns a reply returns the one to its own message, in every run, if and only if the ids are distinct |
| Gateway.Proxy.ProxyOne | examples/gateway_demo.rs:132-165 | Every request is handed upstream once: a notification as it is and without an answer, a call under the next gateway id and answered with the restored reply |
| Gateway.GatewaySpeaks | examples/gateway_demo.rs:143-148 | Rewritten ids are distinct on the shared connection whatever ids the callers chose |
| Gateway.RestoreUndoesRewrite | examples/gateway_demo.rs:150-156 | Restoring the id on the upstream's reply gives the reply the caller would have had under its own id |
| Gateway.GatewayIsTransparent | examples/gateway_demo.rs:128-165 | For any number of callers, any ids and any handlers, an answered call gets the upstream's answer to its own request, rewritten only in its id, under its own id; it is valid if and only if the result is not `null`, and it is the answer owed whenever handlers' results do not depend on ids |
| Gateway.TransparencyIsExact | examples/gateway_demo.rs:143-156 | A caller is given the answer owed in every run if and only if the handler's result for the rewritten request looks on the wire like that for the caller's own |
| Gateway.IdBlindIsOwed | examples/gateway_demo.rs:143-156 | When handlers' results do not depend on ids, the answer is the one owed |
| Gateway.IdEchoShowsThrough | examples/gateway_demo.rs:143-156 | There is a run in which a handler that returns its request's id makes the gateway give the caller the gateway's id, which is the answer owed if and only if the two ids agree |
| Backoff.Redial | src/client/uds.rs:156-176 | Exactly the dials needed are made, at most max(attempts, 1), with the due wait before each but the first, and the last dial's result is returned; it panics if and only if a wait cannot be doubled |
| Backoff.ReconnectingUds.Reconnect | src/client/uds.rs:147-177 | The transport is replaced exactly by a connection dialed after it was seen dead inside the gate |
| Backoff.ReconnectingUds.EnsureConnected | src/client/uds.rs:137-143 | A transport seen alive, before the gate or inside it, is kept; a dead one leads to the result of the last dial needed, or to the panic if and only if a wait cannot be doubled; and the bare `ConnectionClosed` of the last lines is never returned |
| Backoff.OverflowIsExact | src/client/uds.rs:160-163 | The doubling overflows within n dials if and only if the base does or the last wait does |
| Backoff.SafePolicies | src/client/uds.rs:160-163 | It never does when twice the base and twice the maximum are durations |
| Backoff.DelaysGrow | src/client/uds.rs:39-44 | From the second on, the waits only grow and stay within the maximum |
| Backoff.TotalWait | src/client/uds.rs:159-163 | n waits take at least the base and at most the base and n - 1 times the maximum |
| ReconnectGate.StepInv | src/client/uds.rs:137-177 | Every action keeps: one task in the gate, all replaced connections dead, whoever dials having found the current one dead, at most one write per request |
| ReconnectGate.OneDialer | src/client/uds.rs:94-96 | At most one task dials, or holds a connection it has dialed |
| ReconnectGate.ReplacedOnlyWhenDead | src/client/uds.rs:150-168 | The current connection changes only by the gate holder's install, and the one replaced is dead |
| ReconnectGate.DialsOnlyIfStillDead | src/client/uds.rs:150-154 | Inside the gate a task dials if and only if the current connection is still dead |
| ReconnectGate.RedialsWithinDeaths | src/client/uds.rs:145-168 | Replacements, and connections made by re-dialing, never outnumber connections that have died |
| ReconnectGate.SentAtMostOnce | src/client/uds.rs:186-195 | A request is written at most once, on a connection no older than the one current when it began |
| ReconnectGate.NeverReplayed | src/client/uds.rs:17-23 | A request that has been written is never written again, however the run goes on |
| ReconnectGate.EveryPolicyReconnects | src/client/uds.rs:65-76 | Under every policy, `RetryPolicy::none` included, a request that finds the connection dead can be sent on a new one |
| Reconnecting.AliveWhileReading | src/client/uds.rs:137-143 | Over all steps of gate and connections, the gate takes a connection for alive if and only if its reader has not stopped |
| Reconnecting.BegunOnOneConnection | src/client/uds.rs:186-195 | No call begins on two connections |
| Reconnecting.AnsweredByItsOwnReply | src/client/uds.rs:186-195 | However often the client re-dials, an answered call is answered by the reply to its own message, on the one connection it has begun on |
| Reconnecting.ReconnectingGatewayIsTransparent | examples/gateway_demo.rs:128-165 | A gateway over a re-dialing client is as transparent as one over a single connection, whichever connection answers |
| Reconnecting.ACallCanBeAnsweredAnew | src/client/uds.rs:65-76 | Under every policy there is a run in which a call whose client has lost its connection is answered over a new one, and it meets the premises above |
| HttpClient.ClientCredentials.Authorize | examples/oauth_client_credentials.rs:133-154 | A cached token is used while it is not due; else one that others cached before the lock was granted; else one fetch replaces it, or fails and leaves the cache as the others left it |
| HttpClient.RoundTrip | src/client/http.rs:331-371 | Under any of the authorizers, at most two requests; the second if and only if the first was answered 401, the authorizer asks for a retry and a credential can be had with the old one thrown away; the last answer decides |
| TokenRefresh.StepInv | examples/oauth_client_credentials.rs:133-161 | Every action keeps the books on tokens, lock, cache and attempts that the theorems below read off |
| TokenRefresh.CachedOnce | examples/oauth_client_credentials.rs:149-160 | A token that has left the cache never returns to it |
| TokenRefresh.SingleFlight | examples/oauth_client_credentials.rs:139-146 | At most one token fetch is in flight |
| TokenRefresh.HeadersAreFresh | examples/oauth_client_credentials.rs:103-154 | A header handed out was minted by the very request or not due when looked up, and a retry never carries the rejected one |
| TokenRefresh.AtMostTwoPosts | src/client/http.rs:331-363 | A round trip sends at most two requests and reports at most one rejection, and sends the second only after it |
| TokenRefresh.FetchesAreEarned | examples/oauth_client_credentials.rs:133-161 | Successful fetches are at most one, plus one for each expired token, each request that was rejected, and each one given up with a fresh token in hand |

## Left out

- JSON text: parsing, printing and array splitting are a backend with stated laws; Unicode is its business, and its limit on nesting is not modelled. Numbers that are not integers in range are kept by their text. Derived deserializers also read positional arrays, and the model does as well.
- Failing serialization: `params` that do not serialize are an absent value in `EncodeCall`; results and whole messages always print, so the server's error for an unprintable output does not occur.
- Read timeouts and request timeouts: the first are not modelled; the second are the cancel action, at any time.
- Cancellation during `fill`: not modelled.
- Calls.CallGetsItsOwnReply: asks that no write has ended inside its frame; after one that has, by cancellation or an error, `Wire.StepWire` says what is on the wire, but the peer may read anything into it.
- Whitespace around a header value: ASCII only, where `str::trim` knows all of Unicode.
- Integer width: `usize` and buffer lengths are those of a 64-bit target.
- EndToEnd.AlwaysOk: the readers have no cap there, but a cap only stops a reader, which may happen at any time, so runs with caps are among its runs.
- Connection.MultiplexTransport: its methods are the uninterrupted sections; that the runtime interleaves tasks only between them is assumed, as is the atomicity of the map's lock.
- ReconnectGate: waits are in `Backoff` only, and a write that fails part-way counts as the write.
- Reconnecting.AnsweredByItsOwnReply: each new connection finds its peer in some state, any; while the connection lives, nobody else moves that state.
- TokenRefresh: time is an unbounded integer, so the panic of `Instant` arithmetic at its limits does not occur; every fetch error and header that cannot be built is the give-up action.
- Handler futures: a handler runs to its end in one step, as the sequential peer loop and the sequential batch loop have it.
- Liveness: nothing says that replies arrive or that the scheduler is fair.
- The hyper, tower and WebSocket adapters, HTTP headers, body limits and TLS: thin wrappers over libraries that are not part of this model.
- Display and Debug output, the other examples and the benchmarks.
