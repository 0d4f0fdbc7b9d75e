/** The theorem the whole library is for: a call that gets a reply gets the router's reply to its own
    request, with the handlers' state threaded in the order in which the writer lock was taken. */
module Calls {
  import opened Wrappers
  import opened Bytes
  import opened Json
  import opened Protocol
  import opened Framing
  import opened Multiplex
  import opened Correlation
  import opened Wire
  import opened Client
  import opened Server
  import opened Peer
  import opened RoundTrip
  import opened EndToEnd
  import opened Origins
  import opened IdReuse

  /** The frame a call has returned was taken for it, under its id. */
  lemma TakenForCall(cfg: Config, s: State, c: CallId) returns (i: nat)
    requires Inv(cfg, s) && c < |s.phases| && s.phases[c].Done? && s.phases[c].outcome.Reply?
    ensures i < |s.taken| && s.taken[i] == (s.phases[c].outcome.frame, Some(c))
    ensures c < |cfg.messages| && cfg.IsCall(c) && cfg.IdOfCall(c).Some? && cfg.idOf(s.taken[i].0) == cfg.IdOfCall(c)
  {
    assert CallOk(cfg, s, c);
    i := s.answeredBy[c];
    assert s.taken[i].1 == Some(c);
  }

  /** Call `c` has returned a reply. */
  predicate Answered(s: State, c: CallId) {
    c < |s.phases| && s.phases[c].Done? && s.phases[c].outcome.Reply?
  }

  /** The premises about the connection: no write ended inside its frame, the framing can carry the replies,
      and the call's id names its request. */
  ghost predicate FairFor<S>(cfg: Config, sv: Service<S>, initial: S, w: World<S>, c: CallId) {
    Untorn(cfg, w.mux) && RepliesCarried(cfg, sv, initial, w.handled) && Names(sv.be, cfg, w, c)
  }

  /** The frame that the call has returned answers the call's own message. */
  ghost predicate Owns<S>(cfg: Config, sv: Service<S>, initial: S, w: World<S>, c: CallId) {
    exists i: nat, k: nat :: TakenForAnswering(cfg, sv, initial, w, i, c, k) && AtPosition(w, c, k)
  }

  /** With no premise on ids: a call that returns a reply returns the router's answer to a request that was
      sent under the call's id. */
  lemma CallGetsAReplyUnderItsId<S>(cfg: Config, sv: Service<S>, initial: S, w: World<S>, c: CallId) returns (i: nat, k: nat)
    requires Lawful(sv.be) && Correlates(sv.be, cfg) && WorldOk(cfg, sv, initial, w)
    requires FairFor(cfg, sv, initial, w, c) && Answered(w.mux, c)
    ensures c < |cfg.messages| && cfg.IsCall(c) && k < |w.handled| && k < |LockOrder(w.mux)| && LockOrder(w.mux)[k] < |cfg.messages|
    ensures var d := LockOrder(w.mux)[k];
            && Parse(sv.be, cfg.messages[d].bytes).Some? && RequestOf(sv.be, cfg, d).id.Some?
            && RequestOf(sv.be, cfg, d).id == cfg.IdOfCall(d) == cfg.IdOfCall(c)
            && w.mux.phases[c].outcome.frame == sv.be.render(EncodeResponse(
                 Respond(RequestOf(sv.be, cfg, d).id.value, HandlerResult(sv, cfg, initial, LockOrder(w.mux)[..k], d))))
    ensures TakenForAnswering(cfg, sv, initial, w, i, c, k)
  {
    i := TakenForCall(cfg, w.mux, c);
    assert i < |FramesTaken(w.mux)| <= |Replies(sv, initial, w.handled)|;
    k := ReplyHasOrigin(sv, initial, w.handled, i);
    hide Inv, WireOk, LockOrder, HandleBytes, Parse, EncodeResponse, Untorn, RepliesCarried, InTransit, Replies, RequestsOk, RepliesOk;
    TakenFrom(cfg, sv, initial, w, i, c, k);
  }

  /** The end-to-end theorem. In every interleaving of calls, notifications, cancellations and write errors,
      whatever else is sent, under every chunking both ways, however either end of the stream is reached: if
      ids are reused only once their earlier calls are settled, a call that returns a reply returns the
      router's answer to its own request, computed in the state that the messages before it in writer-lock
      order left; and a typed caller gets the handler's value, or its error. */
  lemma CallGetsItsOwnReply<S, T>(
    cfg: Config, sv: Service<S>, initial: S, events: seq<Event>, c: CallId, read: Json -> Option<T>)
    returns (k: nat)
    requires AllEncodable(cfg) && Lawful(sv.be) && Correlates(sv.be, cfg)
    requires After(cfg, sv, initial, events).Some? && PromptReuse(cfg, sv, initial, events)
    requires FairFor(cfg, sv, initial, After(cfg, sv, initial, events).value, c)
    requires Answered(After(cfg, sv, initial, events).value.mux, c)
    ensures Owns(cfg, sv, initial, After(cfg, sv, initial, events).value, c)
    ensures c < |cfg.messages| && Parse(sv.be, cfg.messages[c].bytes).Some? && RequestOf(sv.be, cfg, c).id.Some?
    ensures var w := After(cfg, sv, initial, events).value;
            var reply := w.mux.phases[c].outcome.frame;
            var id := RequestOf(sv.be, cfg, c).id.value;
            && k < |w.handled| && k < |LockOrder(w.mux)| && LockOrder(w.mux)[k] == c
            && var result := HandlerResult(sv, cfg, initial, LockOrder(w.mux)[..k], c);
            && reply == sv.be.render(EncodeResponse(Respond(id, result)))
            && DecodeResult(sv.be, read, reply, id) == Delivered(read, result)
  {
    var w := After(cfg, sv, initial, events).value;
    ReusedPromptly(cfg, sv, initial, events);
    hide After, WorldOk, LockOrder, HandleBytes, StateAfter, DecodeResult, Parse, Invoke, Delivered, EncodeResponse,
         Untorn, RepliesCarried, PromptReuse, EntriesOk, Correlates, Lawful, AnsweredBy, Names;
    var i;
    i, k := CallGetsAReplyUnderItsId(cfg, sv, initial, w, c);
    assert AtPosition(w, c, k);
    ReplyDecodes(sv.be, read, RequestOf(sv.be, cfg, c).id.value, HandlerResult(sv, cfg, initial, LockOrder(w.mux)[..k], c));
  }

  // ----- Client calls meet the premises -----

  /** What a `Client` sends: calls under ids of its generator, each `k` at most once, and notifications. */
  datatype Sending = Call(name: string, params: Json, k: nat) | Notify(name: string, params: Json)

  function ClientConfig(be: Backend, f: Framing, sendings: seq<Sending>): Config {
    Config(f, bytes => ParseId(be, bytes),
           seq(|sendings|, i requires 0 <= i < |sendings| =>
                 match sendings[i]
                 case Call(name, params, k) => Outgoing(EncodeCall(be, name, Some(params), NthId(k)).value.0, true)
                 case Notify(name, params) => Outgoing(EncodeNotification(be, name, Some(params)).value, false)))
  }

  /** Calls made through a client, fewer than 2^64 of them apart, meet the premises of the theorem. */
  lemma ClientCallsSpeak(be: Backend, f: Framing, sendings: seq<Sending>)
    requires Lawful(be)
    requires forall i, j :: 0 <= i < j < |sendings| && sendings[i].Call? && sendings[j].Call? ==>
               sendings[i].k < sendings[j].k < sendings[i].k + U64_MOD
    ensures Speaks(be, ClientConfig(be, f, sendings)) && DistinctIds(ClientConfig(be, f, sendings))
  {
    var cfg := ClientConfig(be, f, sendings);
    forall c | 0 <= c < |cfg.messages|
      ensures IsRequest(be, cfg, c)
      ensures cfg.IdOfCall(c) == if sendings[c].Call? then Some(NthId(sendings[c].k)) else None
    {
      match sendings[c]
      case Call(name, params, k) => CallArrives(be, name, params, Some(NthId(k)));
      case Notify(name, params) => CallArrives(be, name, params, None);
    }
    hide NthId, ParseId;
    forall c: CallId, d: CallId | c < d && cfg.IsCall(c) && cfg.IsCall(d) && cfg.IdOfCall(c).Some?
      ensures cfg.IdOfCall(c) != cfg.IdOfCall(d)
    {
      IdsDistinct(sendings[c].k, sendings[d].k);
    }
  }
}
