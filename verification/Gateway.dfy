/** The id-rewriting gateway: callers that may all use the same ids share one upstream connection. */
module Gateway {
  import opened Wrappers
  import opened Bytes
  import opened Json
  import opened Protocol
  import opened Framing
  import opened Multiplex
  import opened Correlation
  import opened Wire
  import opened Client
  import opened Server
  import opened Peer
  import opened RoundTrip
  import opened EndToEnd
  import opened Origins
  import opened IdReuse
  import opened Calls
  import opened Witness

  /** What the caller is answered when the upstream call ends; `reply` is `None` when it fails. */
  function Restore(be: Backend, original: Id, reply: Option<seq<byte>>): Response {
    match reply
    case None => ErrorResponse(original, InternalError())
    case Some(bytes) =>
      match be.parse(bytes)
      case None => ErrorResponse(original, InternalError())
      case Some(v) =>
        match DecodeResponse(v)
        case None => ErrorResponse(original, InternalError())
        case Some(resp) => resp.SetId(original)
  }

  /** The bytes that go upstream: a call under a gateway id, a notification as it is. */
  function Forwarded(be: Backend, req: Request, k: nat): seq<byte> {
    be.render(EncodeRequest(if req.IsNotification() then req else req.SetId(NthId(k))))
  }

  /** The gateway's counter and its proxy step; `upstream` answers for the shared client connection, and
      `forwarded` is everything that has been handed to it. */
  class Proxy {
    var nextId: nat
    ghost var handedOut: nat
    ghost var forwarded: seq<seq<byte>>

    ghost predicate Valid()
      reads this
    {
      nextId == (1 + handedOut) % U64_MOD
    }

    constructor ()
      ensures Valid() && handedOut == 0 && forwarded == []
    {
      nextId, handedOut, forwarded := 1, 0, [];
    }

    /** Hand bytes to the upstream client. */
    method Forward(upstream: seq<byte> -> Option<seq<byte>>, bytes: seq<byte>) returns (reply: Option<seq<byte>>)
      modifies `forwarded
      ensures forwarded == old(forwarded) + [bytes] && reply == upstream(bytes)
    {
      forwarded := forwarded + [bytes];
      reply := upstream(bytes);
    }

    /** Every request goes upstream, once: a notification as it is and without an answer, a call under the
        next gateway id and answered under its own. */
    method ProxyOne(be: Backend, request: Request, upstream: seq<byte> -> Option<seq<byte>>) returns (r: Option<Response>)
      requires Valid()
      modifies this
      ensures Valid() && forwarded == old(forwarded) + [Forwarded(be, request, old(handedOut))]
      ensures request.IsNotification() ==> r == None && handedOut == old(handedOut)
      ensures !request.IsNotification() ==>
                && handedOut == old(handedOut) + 1
                && r == Some(Restore(be, request.id.value, upstream(Forwarded(be, request, old(handedOut)))))
    {
      CountOn(1 + handedOut);
      hide Restore, EncodeRequest, AsI64;
      var req := request;
      if req.id.None? {
        var _ := Forward(upstream, be.render(EncodeRequest(req)));
        return None;
      }
      var original := req.id.value;
      var gwId := NumberId(AsI64(nextId));
      nextId := (nextId + 1) % U64_MOD;
      handedOut := handedOut + 1;
      req := req.SetId(gwId);
      var reply := Forward(upstream, be.render(EncodeRequest(req)));
      r := Some(Restore(be, original, reply));
    }
  }

  // ----- Many callers on one connection -----

  /** A caller's request as the gateway parsed it, with the counter value it drew. */
  datatype Proxied = Proxied(req: Request, k: nat)

  function GatewayConfig(be: Backend, f: Framing, calls: seq<Proxied>): Config {
    Config(f, bytes => ParseId(be, bytes),
           seq(|calls|, i requires 0 <= i < |calls| =>
                 Outgoing(Forwarded(be, calls[i].req, calls[i].k), !calls[i].req.IsNotification())))
  }

  /** Counter values are drawn once each, fewer than 2^64 apart, and the parser has normalized the params. */
  ghost predicate Drawn(calls: seq<Proxied>) {
    && (forall i :: 0 <= i < |calls| ==> calls[i].req.params != Some(Null))
    && (forall i, j :: 0 <= i < j < |calls| ==>
          calls[i].k != calls[j].k && calls[i].k < calls[j].k + U64_MOD && calls[j].k < calls[i].k + U64_MOD)
  }

  lemma ForwardedArrives(be: Backend, req: Request, k: nat)
    requires Lawful(be) && req.params != Some(Null)
    ensures var bytes := Forwarded(be, req, k);
            && Parse(be, bytes) == Some(if req.IsNotification() then req else req.SetId(NthId(k)))
            && ParseId(be, bytes) == (if req.IsNotification() then None else Some(NthId(k)))
            && FirstByte(bytes) == Some(OPEN_BRACE)
  {
    var sent := if req.IsNotification() then req else req.SetId(NthId(k));
    RequestRoundTrip(sent);
    assert be.parse(be.render(EncodeRequest(sent))) == Some(EncodeRequest(sent));
    assert sent.(params := NonNull(sent.params)) == sent;
  }

  /** Rewritten ids are distinct on the shared connection, whatever ids the callers chose. */
  lemma GatewaySpeaks(be: Backend, f: Framing, calls: seq<Proxied>)
    requires Lawful(be) && Drawn(calls)
    ensures Speaks(be, GatewayConfig(be, f, calls)) && DistinctIds(GatewayConfig(be, f, calls))
  {
    var cfg := GatewayConfig(be, f, calls);
    forall c | 0 <= c < |cfg.messages|
      ensures IsRequest(be, cfg, c)
      ensures cfg.IdOfCall(c) == if calls[c].req.IsNotification() then None else Some(NthId(calls[c].k))
    {
      ForwardedArrives(be, calls[c].req, calls[c].k);
    }
    hide NthId, ParseId;
    forall c: CallId, d: CallId | c < d && cfg.IsCall(c) && cfg.IsCall(d) && cfg.IdOfCall(c).Some?
      ensures cfg.IdOfCall(c) != cfg.IdOfCall(d)
    {
      IdsDistinct(calls[c].k, calls[d].k);
      IdsDistinct(calls[d].k, calls[c].k);
    }
  }

  /** A response as it looks after one more trip over the wire. */
  function OnWire(r: Response): Response {
    Response(NonNull(r.result), if r.error.Some? then Some(ErrorOnWire(r.error.value)) else None, r.id)
  }

  lemma RestoreUndoesRewrite(be: Backend, original: Id, gwId: Id, result: Result<Json, RpcError>)
    requires Lawful(be)
    ensures Restore(be, original, Some(be.render(EncodeResponse(Respond(gwId, result))))) == OnWire(Respond(original, result))
  {
    ResponseArrives(be, Respond(gwId, result));
    ResponseRoundTrip(Respond(gwId, result));
  }

  /** The upstream handler's result for a request, after the calls of `before`. */
  function UpstreamResult<S>(sv: Service<S>, cfg: Config, initial: S, before: seq<CallId>, req: Request): Result<Json, RpcError> {
    Invoke(sv.router, StateAfter(sv, initial, PayloadsOf(cfg, before)), req, sv.ctx).result
  }

  /** The answer owed to a caller: the upstream's to the caller's own request, under the caller's own id. */
  function Owed<S>(sv: Service<S>, cfg: Config, initial: S, before: seq<CallId>, req: Request): Response
    requires req.id.Some?
  {
    Respond(req.id.value, UpstreamResult(sv, cfg, initial, before, req))
  }

  /** The answer as sent: the upstream's to the rewritten request. */
  function Sent<S>(sv: Service<S>, cfg: Config, initial: S, before: seq<CallId>, call: Proxied): Response
    requires call.req.id.Some?
  {
    Respond(call.req.id.value, UpstreamResult(sv, cfg, initial, before, call.req.SetId(NthId(call.k))))
  }

  /** What the caller of an answered call is given. */
  function Given(be: Backend, call: Proxied, s: State, c: CallId): Response
    requires call.req.id.Some? && Answered(s, c)
  {
    Restore(be, call.req.id.value, Some(s.phases[c].outcome.frame))
  }

  lemma ValidUnlessNull(id: Id, result: Result<Json, RpcError>)
    ensures OnWire(Respond(id, result)).IsValid() <==> result != Ok(Null)
  {
  }

  /** The handlers' results do not depend on the ids of requests. */
  ghost predicate IdBlind<S(!new)>(router: Router<S>) {
    forall name: string, state: S, req: Request, id: Id, ctx: RequestContext :: name in router.methods ==>
      router.methods[name].Call(state, req.SetId(id), ctx).result == router.methods[name].Call(state, req, ctx).result
  }

  lemma IdBlindIsOwed<S(!new)>(sv: Service<S>, cfg: Config, initial: S, before: seq<CallId>, call: Proxied)
    requires IdBlind(sv.router) && call.req.id.Some?
    ensures Sent(sv, cfg, initial, before, call) == Owed(sv, cfg, initial, before, call.req)
  {
    hide StateAfter, NthId;
  }

  /** Transparency. For any number of callers, under any ids, in every interleaving and chunking with no torn
      write: a proxied call that is answered is given the upstream's answer to its own request, rewritten
      only in its id, in the state its predecessors left, under the caller's own id. The answer is valid
      exactly when the result is not `null`; and when handlers do not look at ids it is the one owed. */
  lemma GatewayIsTransparent<S(!new)>(
    be: Backend, f: Framing, calls: seq<Proxied>, sv: Service<S>, initial: S, events: seq<Event>, c: CallId)
    returns (k: nat)
    requires Lawful(be) && Drawn(calls) && sv.be == be
    requires AllEncodable(GatewayConfig(be, f, calls))
    requires After(GatewayConfig(be, f, calls), sv, initial, events).Some?
    requires var w := After(GatewayConfig(be, f, calls), sv, initial, events).value;
             Untorn(GatewayConfig(be, f, calls), w.mux) && RepliesCarried(GatewayConfig(be, f, calls), sv, initial, w.handled)
    requires c < |calls| && Answered(After(GatewayConfig(be, f, calls), sv, initial, events).value.mux, c)
    ensures calls[c].req.id.Some?
    ensures var cfg := GatewayConfig(be, f, calls);
            var s := After(cfg, sv, initial, events).value.mux;
            && k < |LockOrder(s)| && LockOrder(s)[k] == c
            && var before := LockOrder(s)[..k];
            && Given(be, calls[c], s, c) == OnWire(Sent(sv, cfg, initial, before, calls[c]))
            && (Given(be, calls[c], s, c).IsValid() <==> Sent(sv, cfg, initial, before, calls[c]).result != Some(Null))
            && (IdBlind(sv.router) ==> Given(be, calls[c], s, c) == OnWire(Owed(sv, cfg, initial, before, calls[c].req)))
  {
    var cfg := GatewayConfig(be, f, calls);
    GatewaySpeaks(be, f, calls);
    DistinctIdsArePrompt(cfg, sv, initial, events);
    AlwaysOk(cfg, sv, initial, events);
    var w := After(cfg, sv, initial, events).value;
    var taken := TakenForCall(cfg, w.mux, c);
    GatewayIdsName(be, f, calls, w, c);
    hide Names, WorldOk, AllEncodable, IdBlind;
    k := CallGetsItsOwnReply(cfg, sv, initial, events, c, (v: Json) => Some(v));
    ForwardedArrives(be, calls[c].req, calls[c].k);
    var order := LockOrder(w.mux);
    var req := RequestOf(be, cfg, c);
    var result := HandlerResult(sv, cfg, initial, order[..k], c);
    hide After, LockOrder, StateAfter, Restore, EncodeResponse, NthId, Untorn, DecodeResult, Parse, Speaks, Forwarded, OnWire,
         PromptReuse, RepliesCarried, Invoke, Respond, Owns;
    assert req == calls[c].req.SetId(NthId(calls[c].k));
    RestoreUndoesRewrite(be, calls[c].req.id.value, req.id.value, result);
    ValidUnlessNull(calls[c].req.id.value, result);
    ResultOf(calls[c].req.id.value, result);
    if IdBlind(sv.router) {
      IdBlindIsOwed(sv, cfg, initial, order[..k], calls[c]);
    }
  }

  lemma ResultOf(id: Id, result: Result<Json, RpcError>)
    ensures Respond(id, result).result == Some(Null) <==> result == Ok(Null)
  {
  }

  /** Gateway ids are numbers. */
  lemma GatewayIdsName<S>(be: Backend, f: Framing, calls: seq<Proxied>, w: World<S>, c: CallId)
    requires Lawful(be) && Drawn(calls) && c < |calls| && !calls[c].req.IsNotification()
    ensures Names(be, GatewayConfig(be, f, calls), w, c)
  {
    GatewaySpeaks(be, f, calls);
    ForwardedArrives(be, calls[c].req, calls[c].k);
    assert GatewayConfig(be, f, calls).IdOfCall(c) == Some(NthId(calls[c].k));
    hide Speaks, Parse, ParseId, Forwarded;
    SpeaksNames(be, GatewayConfig(be, f, calls), w, c);
  }

  // ----- Handlers that do look -----

  /** A caller alone on the gateway, when the upstream is in state `initial`. */
  function Alone(be: Backend, f: Framing, call: Proxied): Config { GatewayConfig(be, f, [call]) }

  lemma AloneIsFirst<S>(be: Backend, f: Framing, call: Proxied, sv: Service<S>, initial: S, events: seq<Event>)
    requires Lawful(be) && call.req.params != Some(Null) && AllEncodable(Alone(be, f, call))
    requires After(Alone(be, f, call), sv, initial, events).Some?
    ensures |LockOrder(After(Alone(be, f, call), sv, initial, events).value.mux)| <= 1
  {
    var cfg := Alone(be, f, call);
    AlwaysOk(cfg, sv, initial, events);
    var s := After(cfg, sv, initial, events).value.mux;
    hide After, PeerOk, RepliesOk, RequestsOk, RepliesCarried, Untorn;
    LockOrderDistinct(cfg, s);
    LockOrderInRange(cfg, s);
    hide Inv, WireOk, LockOrder;
    AtMostOne(LockOrder(s));
  }

  lemma FirstTwoDiffer(order: seq<CallId>)
    requires Distinct(order)
    ensures |order| > 1 ==> order[0] != order[1]
  {
  }

  lemma AtMostOne(order: seq<CallId>)
    requires Distinct(order) && forall i :: 0 <= i < |order| ==> order[i] < 1
    ensures |order| <= 1
  {
    FirstTwoDiffer(order);
  }

  lemma RewrittenIsHandled<S>(be: Backend, f: Framing, call: Proxied, sv: Service<S>, initial: S)
    requires Lawful(be) && sv.be == be && call.req.params != Some(Null) && call.req.id.Some?
    ensures var cfg := Alone(be, f, call);
            var result := UpstreamResult(sv, cfg, initial, [], call.req.SetId(NthId(call.k)));
            var reply := be.render(EncodeResponse(Respond(NthId(call.k), result)));
            && IsCallUnder(cfg, 0, NthId(call.k)) && cfg.idOf(reply) == Some(NthId(call.k))
            && sv.Handle(initial, cfg.messages[0].bytes).1 == Some(reply)
  {
    var cfg := Alone(be, f, call);
    ForwardedArrives(be, call.req, call.k);
    GatewaySpeaks(be, f, [call]);
    SpeaksOf(be, cfg, 0);
    HandleMessage(sv, cfg, initial, 0);
    hide HandleBytes, Parse, Invoke, NthId, Speaks, Forwarded;
    assert StateAfter(sv, initial, PayloadsOf(cfg, [])) == initial;
    var result := UpstreamResult(sv, cfg, initial, [], call.req.SetId(NthId(call.k)));
    ResponseArrives(be, Respond(NthId(call.k), result));
    RespondsUnder(NthId(call.k), result);
  }

  /** Some run answers the caller. */
  lemma AloneCanBeAnswered<S>(be: Backend, f: Framing, call: Proxied, sv: Service<S>, initial: S) returns (events: seq<Event>)
    requires Lawful(be) && sv.be == be && call.req.params != Some(Null) && call.req.id.Some?
    requires AllEncodable(Alone(be, f, call)) && AnswersCarried(Alone(be, f, call), sv, initial)
    ensures var cfg := Alone(be, f, call);
            && After(cfg, sv, initial, events).Some?
            && var w := After(cfg, sv, initial, events).value;
            && Untorn(cfg, w.mux) && RepliesCarried(cfg, sv, initial, w.handled) && Answered(w.mux, 0)
            && Given(be, call, w.mux, 0) == OnWire(Sent(sv, cfg, initial, [], call))
  {
    var cfg := Alone(be, f, call);
    RewrittenIsHandled(be, f, call, sv, initial);
    var result := UpstreamResult(sv, cfg, initial, [], call.req.SetId(NthId(call.k)));
    var reply := be.render(EncodeResponse(Respond(NthId(call.k), result)));
    assert Encodable(f, cfg.messages[0].bytes) && Encodable(f, reply) by { assert cfg.framing == f && 0 < |cfg.messages|; }
    hide After, Encodable, NthId, Forwarded, Restore, OnWire, EncodeResponse, HandleBytes, ParseId, Parse, UpstreamResult,
         Untorn, RepliesCarried, AllEncodable, AnswersCarried, Respond;
    events := AnsweredRun(cfg, sv, initial, 0, NthId(call.k), reply);
    RestoreUndoesRewrite(be, call.req.id.value, NthId(call.k), result);
  }

  /** Exactly when the gateway shows: a caller is given the answer owed, in every run, if and only if the
      handler's result for the rewritten request looks, on the wire, like that for the caller's own. */
  lemma TransparencyIsExact<S(!new)>(be: Backend, f: Framing, call: Proxied, sv: Service<S>, initial: S)
    requires Lawful(be) && sv.be == be && call.req.params != Some(Null) && call.req.id.Some?
    requires AllEncodable(Alone(be, f, call)) && AnswersCarried(Alone(be, f, call), sv, initial)
    ensures var cfg := Alone(be, f, call);
            (forall events: seq<Event> ::
               After(cfg, sv, initial, events).Some?
               && Untorn(cfg, After(cfg, sv, initial, events).value.mux)
               && RepliesCarried(cfg, sv, initial, After(cfg, sv, initial, events).value.handled)
               && Answered(After(cfg, sv, initial, events).value.mux, 0) ==>
                 Given(be, call, After(cfg, sv, initial, events).value.mux, 0) == OnWire(Owed(sv, cfg, initial, [], call.req)))
            <==> OnWire(Sent(sv, cfg, initial, [], call)) == OnWire(Owed(sv, cfg, initial, [], call.req))
  {
    var cfg := Alone(be, f, call);
    hide After, Untorn, RepliesCarried, Given, OnWire, Owed, Sent, AllEncodable, AnswersCarried, IdBlind, LockOrder;
    var run := AloneCanBeAnswered(be, f, call, sv, initial);
    forall events: seq<Event> |
        After(cfg, sv, initial, events).Some?
        && Untorn(cfg, After(cfg, sv, initial, events).value.mux)
        && RepliesCarried(cfg, sv, initial, After(cfg, sv, initial, events).value.handled)
        && Answered(After(cfg, sv, initial, events).value.mux, 0)
      ensures Given(be, call, After(cfg, sv, initial, events).value.mux, 0) == OnWire(Sent(sv, cfg, initial, [], call))
    {
      AloneIsFirst(be, f, call, sv, initial, events);
      var k := GatewayIsTransparent(be, f, [call], sv, initial, events, 0);
      assert k == 0;
    }
  }


  /** A router whose one method returns the id of its request. */
  function EchoRouter(): Router<int> {
    Router(map["echo" := Handler((state: int, req: Request) =>
                 Handled(state, Ok(if req.id.Some? then EncodeId(req.id.value) else Null)))], None)
  }

  function EchoCall(original: Id, k: nat): Proxied { Proxied(Request("echo", None, Some(original)), k) }

  lemma EchoSent(be: Backend, original: Id, k: nat, cfg: Config, before: seq<CallId>, initial: int)
    ensures var sv := Service(be, EchoRouter(), RequestContext(map[]));
            && Sent(sv, cfg, initial, before, EchoCall(original, k)) == Respond(original, Ok(EncodeId(NthId(k))))
            && Owed(sv, cfg, initial, before, EchoCall(original, k).req) == Respond(original, Ok(EncodeId(original)))
  {
    hide StateAfter, NthId;
  }

  lemma EchoDiffers(original: Id, id: Id)
    requires id.NumberId?
    ensures OnWire(Respond(original, Ok(EncodeId(id)))) == OnWire(Respond(original, Ok(EncodeId(original)))) <==> original == id
  {
    IdRoundTrip(original);
    IdRoundTrip(id);
  }

  /** The gateway shows through it: there is a run in which the caller is given the gateway's id, which is
      the answer owed only when the two ids agree. */
  lemma IdEchoShowsThrough(be: Backend, f: Framing, original: Id, k: nat, initial: int) returns (events: seq<Event>)
    requires Lawful(be)
    requires var sv := Service(be, EchoRouter(), RequestContext(map[]));
             AllEncodable(Alone(be, f, EchoCall(original, k))) && AnswersCarried(Alone(be, f, EchoCall(original, k)), sv, initial)
    ensures var call := EchoCall(original, k);
            var cfg, sv := Alone(be, f, call), Service(be, EchoRouter(), RequestContext(map[]));
            && After(cfg, sv, initial, events).Some?
            && var s := After(cfg, sv, initial, events).value.mux;
            && Answered(s, 0)
            && Given(be, call, s, 0) == OnWire(Respond(original, Ok(EncodeId(NthId(k)))))
            && (Given(be, call, s, 0) == OnWire(Owed(sv, cfg, initial, [], call.req)) <==> original == NthId(k))
  {
    var call := EchoCall(original, k);
    var cfg, sv := Alone(be, f, call), Service(be, EchoRouter(), RequestContext(map[]));
    EchoSent(be, original, k, cfg, [], initial);
    EchoDiffers(original, NthId(k));
    hide After, AllEncodable, AnswersCarried, NthId, OnWire, Untorn, RepliesCarried, Given, Sent, Owed, EchoRouter;
    events := AloneCanBeAnswered(be, f, call, sv, initial);
  }
}
