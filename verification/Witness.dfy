/** Runs that exist. The premises of the end-to-end theorem can be met: under any lawful backend, any framing
    and any service, a call can go all the way out and back. And its premise on ids is needed: calls get their
    own replies in every run exactly when their ids are distinct. */
module Witness {
  import opened Wrappers
  import opened Bytes
  import opened Json
  import opened Protocol
  import opened Codec
  import opened Framing
  import opened Multiplex
  import opened Wire
  import opened Client
  import opened Server
  import opened Peer
  import opened RoundTrip
  import opened EndToEnd
  import opened Origins
  import opened IdReuse
  import opened Calls
  import opened CloseDown

  // ----- The client alone -----

  lemma RunMore(cfg: Config, s: State, actions: seq<Action>, t: State, a: Action)
    requires RunFrom(cfg, s, actions) == Some(t) && Enabled(cfg, t, a)
    ensures RunFrom(cfg, s, actions + [a]) == Some(Next(cfg, t, a))
  {
    hide Next, Enabled;
    assert (actions + [a])[..|actions|] == actions;
  }

  /** Call `c` can begin, under an id that nobody is registered under. */
  predicate CanBegin(cfg: Config, s: State, c: CallId, id: Id) {
    && |s.phases| == |s.channels| == |cfg.messages|
    && c < |s.phases| && s.phases[c].NotStarted? && s.channels[c].Open?
    && cfg.messages[c].isCall && cfg.IdOfCall(c) == Some(id) && cfg.FrameOf(c) != []
    && s.connected && s.writer.None? && s.reader.Receiving? && id !in s.pending
  }

  /** ... and when its whole frame is on the wire, it waits. */
  function AfterSend(cfg: Config, s: State, c: CallId, id: Id): State
    requires CanBegin(cfg, s, c, id)
  {
    var frame := cfg.FrameOf(c);
    s.(phases := s.phases[c := Waiting], pending := s.pending[id := c],
       wire := s.wire + frame, written := s.written + [(c, |frame|)])
  }

  function Out(cfg: Config, c: CallId): seq<Action>
    requires c < |cfg.messages|
  {
    [] + [Check(c)] + [Register(c)] + [Lock(c)] + [Write(c, |cfg.FrameOf(c)|)] + [Finish(c)]
  }

  function AfterRegister(s: State, c: CallId, id: Id): State
    requires c < |s.phases|
  {
    s.(phases := s.phases[c := Ready], pending := s.pending[id := c])
  }

  lemma Registers(cfg: Config, s: State, c: CallId, id: Id)
    requires CanBegin(cfg, s, c, id)
    ensures RunFrom(cfg, s, [] + [Check(c)] + [Register(c)]) == Some(AfterRegister(s, c, id))
  {
    hide Encode;
    var s1 := s.(phases := s.phases[c := Checked]);
    assert s1.phases[c := Ready] == s.phases[c := Ready];
    assert Enabled(cfg, s, Check(c)) && Next(cfg, s, Check(c)) == s1;
    assert Enabled(cfg, s1, Register(c)) && Next(cfg, s1, Register(c)) == AfterRegister(s, c, id);
    assert RunFrom(cfg, s, []) == Some(s);
    hide RunFrom, Next, Enabled;
    RunMore(cfg, s, [], s, Check(c));
    RunMore(cfg, s, [] + [Check(c)], s1, Register(c));
  }

  /** The write as a whole, once registered. */
  lemma Writes(cfg: Config, s0: State, before: seq<Action>, s: State, c: CallId, id: Id)
    requires CanBegin(cfg, s, c, id) && RunFrom(cfg, s0, before) == Some(AfterRegister(s, c, id))
    ensures RunFrom(cfg, s0, before + [Lock(c)] + [Write(c, |cfg.FrameOf(c)|)] + [Finish(c)]) == Some(AfterSend(cfg, s, c, id))
  {
    hide Encode, RunFrom;
    var frame, s2 := cfg.FrameOf(c), AfterRegister(s, c, id);
    var s3 := s2.(phases := s.phases[c := Writing(0)], writer := Some(c));
    var s4 := s3.(phases := s.phases[c := Writing(|frame|)], wire := s.wire + frame);
    assert s2.phases[c := Writing(0)] == s3.phases && s3.phases[c := Writing(|frame|)] == s4.phases;
    assert s4.phases[c := Waiting] == s.phases[c := Waiting] && frame[0..|frame|] == frame;
    assert Enabled(cfg, s2, Lock(c)) && Next(cfg, s2, Lock(c)) == s3;
    assert Enabled(cfg, s3, Write(c, |frame|)) && Next(cfg, s3, Write(c, |frame|)) == s4;
    assert Enabled(cfg, s4, Finish(c)) && Next(cfg, s4, Finish(c)) == AfterSend(cfg, s, c, id);
    hide Next, Enabled;
    RunMore(cfg, s0, before, s2, Lock(c));
    RunMore(cfg, s0, before + [Lock(c)], s3, Write(c, |frame|));
    RunMore(cfg, s0, before + [Lock(c)] + [Write(c, |frame|)], s4, Finish(c));
  }

  lemma GoesOut(cfg: Config, s: State, c: CallId, id: Id)
    requires CanBegin(cfg, s, c, id)
    ensures RunFrom(cfg, s, Out(cfg, c)) == Some(AfterSend(cfg, s, c, id))
  {
    Registers(cfg, s, c, id);
    hide RunFrom, Encode;
    Writes(cfg, s, [] + [Check(c)] + [Register(c)], s, c, id);
  }

  /** A waiting call is cancelled and drops its guard. */
  lemma GivesUp(cfg: Config, s: State, c: CallId, id: Id)
    requires |s.phases| == |s.channels| == |cfg.messages| && c < |s.phases| && s.phases[c].Waiting?
    requires cfg.messages[c].isCall && cfg.IdOfCall(c) == Some(id) && id in s.pending && s.pending[id] == c
    ensures RunFrom(cfg, s, [] + [Cancel(c)] + [DropGuard(c)])
            == Some(s.(phases := s.phases[c := Done(Cancelled)], pending := s.pending - {id}))
  {
    hide Encode;
    var s1 := s.(phases := s.phases[c := Unwinding(Cancelled)]);
    var s2 := s.(phases := s.phases[c := Done(Cancelled)], pending := s.pending - {id});
    assert s1.phases[c := Done(Cancelled)] == s2.phases;
    assert Enabled(cfg, s, Cancel(c)) && Next(cfg, s, Cancel(c)) == s1;
    assert Enabled(cfg, s1, DropGuard(c)) && Next(cfg, s1, DropGuard(c)) == s2;
    assert RunFrom(cfg, s, []) == Some(s);
    hide RunFrom, Next, Enabled;
    RunMore(cfg, s, [], s, Cancel(c));
    RunMore(cfg, s, [] + [Cancel(c)], s1, DropGuard(c));
  }

  /** The reader takes a frame under the id of a waiting call, and the caller receives it. */
  lemma TakesReply(cfg: Config, s: State, c: CallId, id: Id, reply: seq<byte>)
    requires |s.phases| == |s.channels| == |cfg.messages| && c < |s.phases|
    requires s.phases[c].Waiting? && s.channels[c].Open? && s.reader.Receiving?
    requires id in s.pending && s.pending[id] == c && cfg.idOf(reply) == Some(id)
    ensures Enabled(cfg, s, Take(reply))
    ensures var t := RunFrom(cfg, Next(cfg, s, Take(reply)), [] + [Deliver] + [Receive(c)]);
            && t.Some? && t.value.phases == s.phases[c := Done(Reply(reply))]
            && t.value.written == s.written && t.value.writer == s.writer && t.value.taken == s.taken + [(reply, Some(c))]
  {
    hide Encode;
    var s1 := s.(pending := s.pending - {id}, reader := Delivering(c, reply),
                 taken := s.taken + [(reply, Some(c))], answeredBy := s.answeredBy[c := |s.taken|]);
    var s2 := s1.(reader := Receiving, channels := s.channels[c := Holds(reply)]);
    var s3 := s2.(phases := s.phases[c := Done(Reply(reply))]);
    assert Next(cfg, s, Take(reply)) == s1;
    assert Enabled(cfg, s1, Deliver) && Next(cfg, s1, Deliver) == s2;
    assert Enabled(cfg, s2, Receive(c)) && Next(cfg, s2, Receive(c)) == s3;
    assert RunFrom(cfg, s1, []) == Some(s1);
    hide RunFrom, Next, Enabled;
    RunMore(cfg, s1, [], s1, Deliver);
    RunMore(cfg, s1, [] + [Deliver], s2, Receive(c));
  }

  // ----- Both ends -----

  lemma OneMoreEvent<S>(cfg: Config, sv: Service<S>, initial: S, events: seq<Event>, e: Event)
    requires After(cfg, sv, initial, events).Some? && CanHappen(cfg, sv, After(cfg, sv, initial, events).value, e)
    ensures After(cfg, sv, initial, events + [e]) == Some(Happen(cfg, sv, After(cfg, sv, initial, events).value, e))
  {
    hide CanHappen, Happen;
    assert (events + [e])[..|events|] == events;
  }

  function Acts(actions: seq<Action>): seq<Event> {
    seq(|actions|, i requires 0 <= i < |actions| => ClientActs(actions[i]))
  }

  /** What the client does on its own it also does in the world. */
  lemma {:induction false} ClientRuns<S>(
    cfg: Config, sv: Service<S>, initial: S, events: seq<Event>, w: World<S>, actions: seq<Action>)
    requires After(cfg, sv, initial, events) == Some(w)
    requires RunFrom(cfg, w.mux, actions).Some? && forall i :: 0 <= i < |actions| ==> !actions[i].Take?
    ensures After(cfg, sv, initial, events + Acts(actions)) == Some(w.(mux := RunFrom(cfg, w.mux, actions).value))
  {
    hide Next, Enabled, HandleBytes, Decode, Encode;
    if actions == [] {
      assert events + Acts(actions) == events;
    } else {
      var n := |actions| - 1;
      ClientRuns(cfg, sv, initial, events, w, actions[..n]);
      OneMoreEvent(cfg, sv, initial, events + Acts(actions[..n]), ClientActs(actions[n]));
      assert events + Acts(actions) == events + Acts(actions[..n]) + [ClientActs(actions[n])];
    }
  }

  /** The peer has read nothing, handled nothing and sent nothing. */
  ghost predicate Untouched<S>(w: World<S>, initial: S) {
    && w.peerRead == 0 && w.peerBuf == [] && w.handled == [] && w.state == initial && w.sent == []
    && w.clientRead == 0 && w.clientBuf == [] && !w.peerDone && !w.peerTookRest && !w.clientTookRest
  }

  /** The peer reads the first frame on the wire. */
  lemma RequestArrives<S>(cfg: Config, sv: Service<S>, initial: S, events: seq<Event>, w: World<S>, frame: seq<byte>)
    requires After(cfg, sv, initial, events) == Some(w) && Untouched(w, initial) && frame != [] && frame <= w.mux.wire
    ensures After(cfg, sv, initial, events + [PeerReads(|frame|)]) == Some(w.(peerRead := |frame|, peerBuf := frame))
  {
    hide HandleBytes, Decode, Encode, After;
    assert [] + w.mux.wire[0..|frame|] == frame;
    OneMoreEvent(cfg, sv, initial, events, PeerReads(|frame|));
  }

  /** It handles the message and sends its reply. */
  lemma PeerAnswers<S>(cfg: Config, sv: Service<S>, initial: S, events: seq<Event>, w: World<S>, m: seq<byte>, reply: seq<byte>)
    requires After(cfg, sv, initial, events) == Some(w) && w.handled == [] && w.sent == [] && !w.peerDone
    requires Decode(cfg.framing, w.peerBuf) == Frame(m, |w.peerBuf|) && sv.Handle(w.state, m).1 == Some(reply)
    ensures After(cfg, sv, initial, events + [PeerHandles(|Encode(cfg.framing, reply)|)])
            == Some(w.(peerBuf := [], handled := [m], state := sv.Handle(w.state, m).0, sent := Encode(cfg.framing, reply)))
  {
    hide HandleBytes, Decode, Encode, After;
    var sent := Encode(cfg.framing, reply);
    assert w.peerBuf[|w.peerBuf|..] == [] && [] + [m] == [m] && [] + sent[..|sent|] == sent;
    OneMoreEvent(cfg, sv, initial, events, PeerHandles(|sent|));
  }

  /** The client reads all of it. */
  lemma ReplyArrives<S>(cfg: Config, sv: Service<S>, initial: S, events: seq<Event>, w: World<S>)
    requires After(cfg, sv, initial, events) == Some(w) && w.clientRead == 0 && w.clientBuf == [] && !w.clientTookRest && w.sent != []
    ensures After(cfg, sv, initial, events + [ClientReads(|w.sent|)]) == Some(w.(clientRead := |w.sent|, clientBuf := w.sent))
  {
    hide HandleBytes, Decode, Encode, After;
    assert [] + w.sent[0..|w.sent|] == w.sent;
    OneMoreEvent(cfg, sv, initial, events, ClientReads(|w.sent|));
  }

  /** The first message on the wire is answered, and the answer is in the client's buffer. */
  lemma FirstIsAnswered<S>(
    cfg: Config, sv: Service<S>, initial: S, before: seq<Event>, w: World<S>, m: seq<byte>, reply: seq<byte>)
    returns (events: seq<Event>)
    requires After(cfg, sv, initial, before) == Some(w) && Untouched(w, initial)
    requires Encodable(cfg.framing, m) && Encodable(cfg.framing, reply) && Encode(cfg.framing, m) <= w.mux.wire
    requires sv.Handle(initial, m).1 == Some(reply)
    ensures After(cfg, sv, initial, events).Some?
    ensures var v := After(cfg, sv, initial, events).value;
            && v.mux == w.mux && v.clientBuf == Encode(cfg.framing, reply) && v.handled == [m]
            && !v.clientTookRest && !v.peerTookRest
  {
    hide HandleBytes, Decode, Encode, Encodable;
    var frame := Encode(cfg.framing, m);
    EncodeIsFrame(cfg.framing, m);
    EncodeIsFrame(cfg.framing, reply);
    assert frame + [] == frame && Decode(cfg.framing, frame) == Frame(m, |frame|);
    hide IsFrame, After;
    RequestArrives(cfg, sv, initial, before, w, frame);
    events := before + [PeerReads(|frame|)];
    PeerAnswers(cfg, sv, initial, events, After(cfg, sv, initial, events).value, m, reply);
    events := events + [PeerHandles(|Encode(cfg.framing, reply)|)];
    ReplyArrives(cfg, sv, initial, events, After(cfg, sv, initial, events).value);
    events := events + [ClientReads(|Encode(cfg.framing, reply)|)];
  }

  /** Call `c`, waiting under the id of the reply in the client's buffer, returns it. */
  lemma WaiterReturns<S>(cfg: Config, sv: Service<S>, initial: S, before: seq<Event>, c: CallId, id: Id, reply: seq<byte>)
    returns (events: seq<Event>)
    requires After(cfg, sv, initial, before).Some? && Encodable(cfg.framing, reply) && cfg.idOf(reply) == Some(id)
    requires var w := After(cfg, sv, initial, before).value;
             && !w.clientTookRest && w.clientBuf == Encode(cfg.framing, reply)
             && |w.mux.phases| == |w.mux.channels| == |cfg.messages| && c < |w.mux.phases|
             && w.mux.phases[c].Waiting? && w.mux.channels[c].Open? && w.mux.reader.Receiving?
             && id in w.mux.pending && w.mux.pending[id] == c
    ensures After(cfg, sv, initial, events).Some?
    ensures var w, v := After(cfg, sv, initial, before).value, After(cfg, sv, initial, events).value;
            && v.mux.phases == w.mux.phases[c := Done(Reply(reply))] && v.mux.written == w.mux.written
            && v.mux.writer == w.mux.writer && v.mux.taken == w.mux.taken + [(reply, Some(c))]
            && v.handled == w.handled && v.peerTookRest == w.peerTookRest
  {
    hide HandleBytes, Decode, After, RunFrom, Acts;
    var sent := Encode(cfg.framing, reply);
    EncodeIsFrame(cfg.framing, reply);
    hide Encode, Encodable;
    assert sent + [] == sent && Decode(cfg.framing, sent) == Frame(reply, |sent|);
    hide IsFrame;
    TakesReply(cfg, After(cfg, sv, initial, before).value.mux, c, id, reply);
    OneMoreEvent(cfg, sv, initial, before, ClientTakes);
    var taken := After(cfg, sv, initial, before + [ClientTakes]).value;
    hide Next, Enabled;
    ClientRuns(cfg, sv, initial, before + [ClientTakes], taken, [] + [Deliver] + [Receive(c)]);
    events := before + [ClientTakes] + Acts([] + [Deliver] + [Receive(c)]);
  }

  // ----- A call can be answered -----

  ghost predicate IsCallUnder(cfg: Config, c: CallId, id: Id) {
    c < |cfg.messages| && cfg.messages[c].isCall && cfg.IdOfCall(c) == Some(id)
  }

  /** There are events after which call `c`, and no other, has returned the peer's reply. */
  lemma AnsweredRun<S>(cfg: Config, sv: Service<S>, initial: S, c: CallId, id: Id, reply: seq<byte>) returns (events: seq<Event>)
    requires IsCallUnder(cfg, c, id) && Encodable(cfg.framing, cfg.messages[c].bytes) && Encodable(cfg.framing, reply)
    requires sv.Handle(initial, cfg.messages[c].bytes).1 == Some(reply) && cfg.idOf(reply) == Some(id)
    ensures After(cfg, sv, initial, events).Some?
    ensures var w := After(cfg, sv, initial, events).value;
            && Untorn(cfg, w.mux) && RepliesCarried(cfg, sv, initial, w.handled) && !w.peerTookRest
            && w.mux.phases == Init(cfg).phases[c := Done(Reply(reply))]
  {
    hide HandleBytes, Decode, RunFrom, Out, Acts;
    var m := cfg.messages[c].bytes;
    EncodeIsFrame(cfg.framing, m);
    hide Encode, Encodable, IsFrame;
    var s := Init(cfg);
    GoesOut(cfg, s, c, id);
    assert After(cfg, sv, initial, []) == Some(Start(cfg, initial));
    OutTakesNothing(cfg, c);
    ClientRuns(cfg, sv, initial, [], Start(cfg, initial), Out(cfg, c));
    hide After;
    assert [] + Encode(cfg.framing, m) == Encode(cfg.framing, m);
    events := FirstIsAnswered(cfg, sv, initial, [] + Acts(Out(cfg, c)),
                              Start(cfg, initial).(mux := AfterSend(cfg, s, c, id)), m, reply);
    events := WaiterReturns(cfg, sv, initial, events, c, id, reply);
    assert s.phases[c := Waiting][c := Done(Reply(reply))] == s.phases[c := Done(Reply(reply))];
    OnlyReply(sv, initial, m, reply);
  }

  lemma OutTakesNothing(cfg: Config, c: CallId)
    requires c < |cfg.messages|
    ensures forall i :: 0 <= i < |Out(cfg, c)| ==> !Out(cfg, c)[i].Take?
  {
    hide Encode;
  }

  lemma OnlyReply<S>(sv: Service<S>, initial: S, m: seq<byte>, reply: seq<byte>)
    requires sv.Handle(initial, m).1 == Some(reply)
    ensures Replies(sv, initial, [m]) == [reply]
  {
    hide HandleBytes;
    OneMore(sv, initial, [], m);
    assert [] + [m] == [m] && [] + [reply] == [reply];
  }

  /** The request of a client's only call, and the response it is owed. */
  function OneClientCall(be: Backend, f: Framing, name: string, params: Json): Config {
    ClientConfig(be, f, [Call(name, params, 0)])
  }

  function ResponseTo<S>(sv: Service<S>, initial: S, name: string, params: Json): Response {
    Respond(NthId(0), Invoke(sv.router, initial, Request(name, NonNull(Some(params)), Some(NthId(0))), sv.ctx).result)
  }

  lemma ClientCallIsHandled<S>(be: Backend, f: Framing, sv: Service<S>, initial: S, name: string, params: Json)
    requires Lawful(be) && sv.be == be
    ensures var cfg := OneClientCall(be, f, name, params);
            var reply := be.render(EncodeResponse(ResponseTo(sv, initial, name, params)));
            && IsCallUnder(cfg, 0, NthId(0)) && cfg.idOf(reply) == Some(NthId(0))
            && cfg.messages[0].bytes == be.render(EncodeRequest(Request(name, Some(params), Some(NthId(0)))))
            && sv.Handle(initial, cfg.messages[0].bytes).1 == Some(reply)
  {
    var cfg := OneClientCall(be, f, name, params);
    ClientCallsSpeak(be, f, [Call(name, params, 0)]);
    CallArrives(be, name, params, Some(NthId(0)));
    ResponseArrives(be, ResponseTo(sv, initial, name, params));
    SpeaksOf(be, cfg, 0);
    hide Speaks, NthId, Invoke, DistinctIds, Lawful, Parse, ParseId, EncodeRequest, EncodeResponse, HandleBytes;
    HandleMessage(sv, cfg, initial, 0);
  }

  /** Any call of a client that its framing can carry, and whose reply the framing can carry back, can be
      answered; and the run that does it meets every premise of `CallGetsItsOwnReply`. */
  lemma ACallCanBeAnswered<S>(be: Backend, f: Framing, sv: Service<S>, initial: S, name: string, params: Json)
    returns (events: seq<Event>)
    requires Lawful(be) && sv.be == be
    requires Encodable(f, be.render(EncodeRequest(Request(name, Some(params), Some(NthId(0))))))
    requires Encodable(f, be.render(EncodeResponse(ResponseTo(sv, initial, name, params))))
    ensures var cfg := OneClientCall(be, f, name, params);
            && AllEncodable(cfg) && Speaks(be, cfg)
            && After(cfg, sv, initial, events).Some? && PromptReuse(cfg, sv, initial, events)
            && var w := After(cfg, sv, initial, events).value;
            FairFor(cfg, sv, initial, w, 0) && Answered(w.mux, 0)
  {
    var cfg := OneClientCall(be, f, name, params);
    ClientCallsSpeak(be, f, [Call(name, params, 0)]);
    ClientCallIsHandled(be, f, sv, initial, name, params);
    hide After, Speaks, Encodable, FairFor, NthId, DistinctIds, PromptReuse, Lawful, ResponseTo, EncodeRequest, EncodeResponse,
         HandleBytes;
    events := AnsweredRun(cfg, sv, initial, 0, NthId(0), be.render(EncodeResponse(ResponseTo(sv, initial, name, params))));
    DistinctIdsArePrompt(cfg, sv, initial, events);
    SpeaksNames(be, cfg, After(cfg, sv, initial, events).value, 0);
  }

  // ----- An id reused too early -----

  /** Two calls under one id. */
  ghost predicate Clash(cfg: Config, c: CallId, d: CallId, id: Id) {
    c != d && IsCallUnder(cfg, c, id) && IsCallUnder(cfg, d, id)
  }

  /** The first call is given up after its write, and then the second sends under the same id. */
  function TooEarly(cfg: Config, c: CallId, d: CallId): seq<Action>
    requires c < |cfg.messages| && d < |cfg.messages|
  {
    Out(cfg, c) + ([] + [Cancel(c)] + [DropGuard(c)]) + Out(cfg, d)
  }

  lemma SecondWaitsForFirst(cfg: Config, c: CallId, d: CallId, id: Id) returns (s: State)
    requires Clash(cfg, c, d, id) && cfg.FrameOf(c) != [] && cfg.FrameOf(d) != []
    ensures RunFrom(cfg, Init(cfg), TooEarly(cfg, c, d)) == Some(s)
    ensures |s.phases| == |s.channels| == |cfg.messages| && s.phases[d].Waiting? && s.channels[d].Open? && s.reader.Receiving?
    ensures id in s.pending && s.pending[id] == d && cfg.FrameOf(c) <= s.wire && s.writer.None? && s.taken == []
    ensures s.written == [(c, |cfg.FrameOf(c)|), (d, |cfg.FrameOf(d)|)]
  {
    hide Encode;
    var s0 := Init(cfg);
    var s1 := AfterSend(cfg, s0, c, id);
    var s2 := s1.(phases := s1.phases[c := Done(Cancelled)], pending := s1.pending - {id});
    s := AfterSend(cfg, s2, d, id);
    GoesOut(cfg, s0, c, id);
    GivesUp(cfg, s1, c, id);
    GoesOut(cfg, s2, d, id);
    assert [] + cfg.FrameOf(c) == cfg.FrameOf(c);
    hide RunFrom, Out, AfterSend;
    var given := [] + [Cancel(c)] + [DropGuard(c)];
    RunThenRun(cfg, s0, Out(cfg, c), given);
    RunThenRun(cfg, s0, Out(cfg, c) + given, Out(cfg, d));
  }

  lemma TwoWriters(s: State, c: CallId, n: nat, d: CallId, m: nat)
    requires s.written == [(c, n), (d, m)] && n > 0 && m > 0 && s.writer.None?
    ensures LockOrder(s) == [c, d]
  {
    assert s.written[..1] == [(c, n)] && s.written[..1][..0] == [];
    assert Writers([(c, n)]) == [] + [c];
  }

  /** A call that reuses the id of one given up before its reply was taken can return the other's reply: here
      the peer has handled only the other's message, and not its own. */
  lemma ReusedTooEarly<S>(cfg: Config, sv: Service<S>, initial: S, c: CallId, d: CallId, id: Id, reply: seq<byte>)
    returns (events: seq<Event>)
    requires Clash(cfg, c, d, id) && Encodable(cfg.framing, cfg.messages[c].bytes) && Encodable(cfg.framing, cfg.messages[d].bytes)
    requires sv.Handle(initial, cfg.messages[c].bytes).1 == Some(reply) && Encodable(cfg.framing, reply)
    requires cfg.idOf(reply) == Some(id)
    ensures After(cfg, sv, initial, events).Some?
    ensures var w := After(cfg, sv, initial, events).value;
            && Untorn(cfg, w.mux) && RepliesCarried(cfg, sv, initial, w.handled) && !w.peerTookRest
            && Answered(w.mux, d) && w.mux.phases[d].outcome.frame == reply && w.mux.taken == [(reply, Some(d))]
            && w.handled == [cfg.messages[c].bytes] && LockOrder(w.mux) == [c, d]
            && AnsweredBy(sv, initial, w.handled, 0, 0)
            && AtPosition(w, c, 0) && forall k: nat :: !AtPosition(w, d, k)
  {
    hide HandleBytes, Decode, RunFrom, Acts;
    EncodeIsFrame(cfg.framing, cfg.messages[c].bytes);
    EncodeIsFrame(cfg.framing, cfg.messages[d].bytes);
    hide Encode, Encodable, IsFrame;
    var s := SecondWaitsForFirst(cfg, c, d, id);
    assert After(cfg, sv, initial, []) == Some(Start(cfg, initial));
    TooEarlyTakesNothing(cfg, c, d);
    hide Out;
    ClientRuns(cfg, sv, initial, [], Start(cfg, initial), TooEarly(cfg, c, d));
    hide After, TooEarly;
    events := FirstIsAnswered(cfg, sv, initial, [] + Acts(TooEarly(cfg, c, d)), Start(cfg, initial).(mux := s),
                              cfg.messages[c].bytes, reply);
    events := WaiterReturns(cfg, sv, initial, events, d, id, reply);
    var w := After(cfg, sv, initial, events).value;
    OnlyReply(sv, initial, cfg.messages[c].bytes, reply);
    TwoWriters(w.mux, c, |cfg.FrameOf(c)|, d, |cfg.FrameOf(d)|);
    OnlyAnswer(sv, initial, cfg.messages[c].bytes, reply);
    hide LockOrder;
    assert [] + [(reply, Some(d))] == [(reply, Some(d))];
  }

  lemma TooEarlyTakesNothing(cfg: Config, c: CallId, d: CallId)
    requires c < |cfg.messages| && d < |cfg.messages|
    ensures forall i :: 0 <= i < |TooEarly(cfg, c, d)| ==> !TooEarly(cfg, c, d)[i].Take?
  {
    OutTakesNothing(cfg, c);
    OutTakesNothing(cfg, d);
    hide Out;
  }

  lemma OnlyAnswer<S>(sv: Service<S>, initial: S, m: seq<byte>, reply: seq<byte>)
    requires sv.Handle(initial, m).1 == Some(reply)
    ensures AnsweredBy(sv, initial, [m], 0, 0)
  {
    hide HandleBytes;
    assert [m][..0] == [];
  }

  /** The framing can carry the answer that each call would get first. */
  ghost predicate AnswersCarried<S>(cfg: Config, sv: Service<S>, initial: S) {
    forall c :: 0 <= c < |cfg.messages| && sv.Handle(initial, cfg.messages[c].bytes).1.Some? ==>
      Encodable(cfg.framing, sv.Handle(initial, cfg.messages[c].bytes).1.value)
  }

  /** A single request sent as a call is answered under its id. */
  lemma CallIsAnswerable<S>(cfg: Config, sv: Service<S>, state: S, c: CallId) returns (reply: seq<byte>)
    requires Lawful(sv.be) && Speaks(sv.be, cfg) && c < |cfg.messages| && cfg.IsCall(c)
    ensures sv.Handle(state, cfg.messages[c].bytes).1 == Some(reply) && cfg.IdOfCall(c).Some? && cfg.idOf(reply) == cfg.IdOfCall(c)
  {
    SpeaksOf(sv.be, cfg, c);
    HandleMessage(sv, cfg, state, c);
    var req := RequestOf(sv.be, cfg, c);
    var response := Respond(req.id.value, Invoke(sv.router, state, req, sv.ctx).result);
    RespondsUnder(req.id.value, Invoke(sv.router, state, req, sv.ctx).result);
    ResponseArrives(sv.be, response);
    reply := sv.be.render(EncodeResponse(response));
  }

  /** A clash of ids can cost a call its own reply. */
  lemma ClashCostsReply<S>(cfg: Config, sv: Service<S>, initial: S, c: CallId, d: CallId, id: Id) returns (events: seq<Event>)
    requires AllEncodable(cfg) && Lawful(sv.be) && Speaks(sv.be, cfg) && AnswersCarried(cfg, sv, initial) && Clash(cfg, c, d, id)
    ensures After(cfg, sv, initial, events).Some?
    ensures var w := After(cfg, sv, initial, events).value;
            FairFor(cfg, sv, initial, w, d) && Answered(w.mux, d) && !Owns(cfg, sv, initial, w, d)
  {
    var reply := CallIsAnswerable(cfg, sv, initial, c);
    hide HandleBytes, Encodable, Lawful, After, LockOrder, Untorn;
    events := ReusedTooEarly(cfg, sv, initial, c, d, id, reply);
    hide Speaks;
    SpeaksNames(sv.be, cfg, After(cfg, sv, initial, events).value, d);
    hide AtPosition, TakenForAnswering;
  }

  /** Ownership is exact: calls get the replies to their own messages, in every run that is fair to them, if
      and only if their ids are distinct. */
  lemma OwnershipIsExact<S>(cfg: Config, sv: Service<S>, initial: S)
    requires AllEncodable(cfg) && Lawful(sv.be) && Speaks(sv.be, cfg) && AnswersCarried(cfg, sv, initial)
    ensures (forall events: seq<Event>, c: CallId ::
               After(cfg, sv, initial, events).Some?
               && FairFor(cfg, sv, initial, After(cfg, sv, initial, events).value, c)
               && Answered(After(cfg, sv, initial, events).value.mux, c) ==>
                 Owns(cfg, sv, initial, After(cfg, sv, initial, events).value, c))
            <==> DistinctIds(cfg)
  {
    hide After, FairFor, Owns, AnswersCarried, AllEncodable, Lawful;
    if DistinctIds(cfg) {
      forall events: seq<Event>, c: CallId |
          After(cfg, sv, initial, events).Some?
          && FairFor(cfg, sv, initial, After(cfg, sv, initial, events).value, c)
          && Answered(After(cfg, sv, initial, events).value.mux, c)
        ensures Owns(cfg, sv, initial, After(cfg, sv, initial, events).value, c)
      {
        DistinctIdsArePrompt(cfg, sv, initial, events);
        var k := CallGetsItsOwnReply(cfg, sv, initial, events, c, (v: Json) => Some(v));
      }
    } else {
      var c: CallId, d: CallId :|
        c < d && cfg.IsCall(c) && cfg.IsCall(d) && cfg.IdOfCall(c).Some? && cfg.IdOfCall(c) == cfg.IdOfCall(d);
      var events := ClashCostsReply(cfg, sv, initial, c, d, cfg.IdOfCall(c).value);
    }
  }
}
