/** Method dispatch: from message bytes to handler invocations and a reply. Handlers act on shared
    state, so each is a function from the state and the request to the new state and a result. */
module Server {
  import opened Wrappers
  import opened Bytes
  import opened Json
  import opened Protocol
  import Decimal

  /** What the transport layer passes along with a request. */
  datatype RequestContext = RequestContext(headers: map<string, string>)

  datatype Handled<+S> = Handled(state: S, result: Result<Json, RpcError>)

  datatype Method<!S> =
    | Handler(run: (S, Request) -> Handled<S>)
    | WithContext(runWith: (S, Request, RequestContext) -> Handled<S>)
  {
    function Call(state: S, req: Request, ctx: RequestContext): Handled<S> {
      match this
      case Handler(run) => run(state, req)
      case WithContext(runWith) => runWith(state, req, ctx)
    }
  }

  datatype Router<!S> = Router(methods: map<string, Method<S>>, maxBatchLen: Option<nat>)

  datatype Output = Empty | Single(response: Response) | Batch(responses: seq<Response>)

  /** The wire bytes of an output, if there are any to send. */
  function ToBytes(be: Backend, out: Output): Option<seq<byte>> {
    match out
    case Empty => None
    case Single(r) => Some(be.render(EncodeResponse(r)))
    case Batch(rs) => Some(be.render(Arr(seq(|rs|, i requires 0 <= i < |rs| => EncodeResponse(rs[i])))))
  }

  /** The effect of one request: the handler, if there is one, runs once. */
  function Invoke<S>(router: Router<S>, state: S, req: Request, ctx: RequestContext): Handled<S> {
    if req.name in router.methods then router.methods[req.name].Call(state, req, ctx)
    else Handled(state, Err(MethodNotFound()))
  }

  function Respond(id: Id, result: Result<Json, RpcError>): Response {
    match result
    case Ok(v) => ResultResponse(id, v)
    case Err(e) => ErrorResponse(id, e)
  }

  function HandleRequest<S>(router: Router<S>, state: S, req: Request, ctx: RequestContext): (S, Option<Response>) {
    var h := Invoke(router, state, req, ctx);
    (h.state, match req.id { case None => None case Some(id) => Some(Respond(id, h.result)) })
  }

  function Parse(be: Backend, bytes: seq<byte>): Option<Request> {
    match be.parse(bytes)
    case None => None
    case Some(v) => DecodeRequest(v)
  }

  /** One batch element: an entry that is not a request still gets an answer. */
  function HandleElement<S>(router: Router<S>, state: S, entry: Option<Request>, ctx: RequestContext): (S, Option<Response>) {
    match entry
    case Some(req) => HandleRequest(router, state, req, ctx)
    case None => (state, Some(ErrorResponse(NullId, InvalidRequest())))
  }

  /** Batch elements one after another, the state threaded through. */
  function HandleElements<S>(router: Router<S>, state: S, entries: seq<Option<Request>>, ctx: RequestContext): (S, seq<Response>) {
    if entries == [] then (state, [])
    else
      var (before, responses) := HandleElements(router, state, entries[..|entries| - 1], ctx);
      var (after, response) := HandleElement(router, before, entries[|entries| - 1], ctx);
      (after, match response { case None => responses case Some(r) => responses + [r] })
  }

  function ParseFailure(be: Backend, bytes: seq<byte>): Output {
    Single(ErrorResponse(NullId, if be.parse(bytes).Some? then InvalidRequest() else ParseError()))
  }

  function BatchTooLong(n: nat, max: nat): RpcError {
    InvalidRequest().(data := Some(Str(
      "batch of " + Text(Decimal.Print(n)) + " entries exceeds maximum of " + Text(Decimal.Print(max)))))
  }

  function ParseAll(be: Backend, items: seq<seq<byte>>): seq<Option<Request>> {
    seq(|items|, i requires 0 <= i < |items| => Parse(be, items[i]))
  }

  function HandleBatch<S>(be: Backend, router: Router<S>, state: S, bytes: seq<byte>, ctx: RequestContext): (S, Output) {
    match be.split(bytes)
    case None => (state, ParseFailure(be, bytes))
    case Some(items) =>
      if items == [] then (state, Single(ErrorResponse(NullId, InvalidRequest())))
      else if router.maxBatchLen.Some? && |items| > router.maxBatchLen.value then
        (state, Single(ErrorResponse(NullId, BatchTooLong(|items|, router.maxBatchLen.value))))
      else
        var (after, responses) := HandleElements(router, state, ParseAll(be, items), ctx);
        (after, if responses == [] then Empty else Batch(responses))
  }

  lemma NoEntries<S>(router: Router<S>, state: S, ctx: RequestContext)
    ensures HandleElements(router, state, [], ctx) == (state, [])
  {
  }

  lemma OneMoreEntry<S>(router: Router<S>, state: S, entries: seq<Option<Request>>, ctx: RequestContext, i: nat)
    requires i < |entries|
    ensures var (before, responses) := HandleElements(router, state, entries[..i], ctx);
            var (after, response) := HandleElement(router, before, entries[i], ctx);
            HandleElements(router, state, entries[..i + 1], ctx)
            == (after, match response { case None => responses case Some(r) => responses + [r] })
  {
    hide HandleElement;
    assert entries[..i + 1][..i] == entries[..i];
  }

  /** The batch handler as the source runs it, pushing into `responses`. */
  method HandleBatchInPlace<S>(be: Backend, router: Router<S>, initial: S, bytes: seq<byte>, ctx: RequestContext)
    returns (state: S, out: Output)
    ensures (state, out) == HandleBatch(be, router, initial, bytes, ctx)
  {
    hide HandleElements, HandleElement, Parse, ParseFailure, BatchTooLong;
    assert HandleElements(router, initial, [], ctx) == (initial, []) by { NoEntries(router, initial, ctx); }
    state := initial;
    var split := be.split(bytes);
    if split.None? {
      return state, ParseFailure(be, bytes);
    }
    var items := split.value;
    if items == [] {
      return state, Single(ErrorResponse(NullId, InvalidRequest()));
    }
    if router.maxBatchLen.Some? && |items| > router.maxBatchLen.value {
      return state, Single(ErrorResponse(NullId, BatchTooLong(|items|, router.maxBatchLen.value)));
    }
    var responses: seq<Response> := [];
    var entries := ParseAll(be, items);
    for i := 0 to |items|
      invariant (state, responses) == HandleElements(router, initial, entries[..i], ctx)
    {
      OneMoreEntry(router, initial, entries, ctx, i);
      var (after, response) := HandleElement(router, state, Parse(be, items[i]), ctx);
      state := after;
      if response.Some? {
        responses := responses + [response.value];
      }
    }
    assert entries[..|items|] == entries;
    out := if responses == [] then Empty else Batch(responses);
  }

  /** Dispatch on the first byte, as the source does, without a full parse. */
  function HandleBytes<S>(be: Backend, router: Router<S>, state: S, bytes: seq<byte>, ctx: RequestContext): (S, Output) {
    match FirstByte(bytes)
    case None => (state, Single(ErrorResponse(NullId, InvalidRequest())))
    case Some(b) =>
      if b == OPEN_BRACKET then HandleBatch(be, router, state, bytes, ctx)
      else if b == OPEN_BRACE then
        match Parse(be, bytes)
        case None => (state, ParseFailure(be, bytes))
        case Some(req) =>
          var (after, response) := HandleRequest(router, state, req, ctx);
          (after, match response { case None => Empty case Some(r) => Single(r) })
      else (state, ParseFailure(be, bytes))
  }
}
