/** A typed call, from the client's arguments through the server and back to the client's result. */
module RoundTrip {
  import opened Wrappers
  import opened Bytes
  import opened Json
  import opened Protocol
  import opened Client
  import opened Server

  /** The bytes of a call or notification parse to the request that was meant. */
  lemma CallArrives(be: Backend, name: string, params: Json, id: Option<Id>)
    requires Lawful(be)
    ensures var req := Request(name, Some(params), id);
            var bytes := be.render(EncodeRequest(req));
            && Parse(be, bytes) == Some(req.(params := NonNull(Some(params))))
            && Parse(be, bytes).value.ParamsAs() == params
            && Parse(be, bytes).value.IsNotification() == id.None?
            && ParseId(be, bytes) == id
            && FirstByte(bytes) == Some(OPEN_BRACE)
  {
    var req := Request(name, Some(params), id);
    RequestRoundTrip(req);
    assert be.parse(be.render(EncodeRequest(req))) == Some(EncodeRequest(req));
  }

  /** The bytes of a response parse to it, and its id can be read off them. */
  lemma ResponseArrives(be: Backend, r: Response)
    requires Lawful(be)
    ensures be.parse(be.render(EncodeResponse(r))) == Some(EncodeResponse(r))
    ensures ParseId(be, be.render(EncodeResponse(r))) == Some(r.id)
  {
    ResponseRoundTrip(r);
  }

  /** What the caller gets for what the handler returned. */
  function Delivered<T>(read: Json -> Option<T>, result: Result<Json, RpcError>): Result<T, ClientError> {
    match result
    case Err(e) => Err(Rpc(ErrorOnWire(e)))
    case Ok(v) =>
      if v == Null then Err(Malformed)
      else if read(v).Some? then Ok(read(v).value)
      else Err(WrongType)
  }

  lemma ReplyDecodes<T>(be: Backend, read: Json -> Option<T>, id: Id, result: Result<Json, RpcError>)
    requires Lawful(be)
    ensures DecodeResult(be, read, be.render(EncodeResponse(Respond(id, result))), id) == Delivered(read, result)
  {
    ResponseArrives(be, Respond(id, result));
    ResponseRoundTrip(Respond(id, result));
  }

  /** The reply to a call, decoded by the caller, is the handler's value, or its error with the same code
      and message; the handler has run once, on the request the caller meant. */
  lemma TypedCall<S, T>(
    be: Backend, router: Router<S>, state: S, ctx: RequestContext,
    read: Json -> Option<T>, name: string, params: Json, id: Id)
    requires Lawful(be)
    ensures var bytes := EncodeCall(be, name, Some(params), id).value.0;
            var seen := Request(name, NonNull(Some(params)), Some(id));
            var (after, out) := HandleBytes(be, router, state, bytes, ctx);
            var h := Invoke(router, state, seen, ctx);
            && after == h.state
            && out == Single(Respond(id, h.result))
            && DecodeResult(be, read, ToBytes(be, out).value, id) == Delivered(read, h.result)
  {
    CallArrives(be, name, params, Some(id));
    var seen := Request(name, NonNull(Some(params)), Some(id));
    ReplyDecodes(be, read, id, Invoke(router, state, seen, ctx).result);
  }

  /** The handler's value reaches a caller whose type reads it exactly when it is not `null`. */
  lemma NullResultIsLost<T>(be: Backend, read: Json -> Option<T>, id: Id, v: Json)
    requires Lawful(be) && read(v).Some?
    ensures DecodeResult(be, read, be.render(EncodeResponse(ResultResponse(id, v))), id) == Ok(read(v).value) <==> v != Null
  {
    ReplyDecodes(be, read, id, Ok(v));
  }

  /** A reply to somebody else's request is refused. */
  lemma ForeignReplyRefused<T>(be: Backend, read: Json -> Option<T>, r: Response, expected: Id)
    requires Lawful(be)
    ensures DecodeResult(be, read, be.render(EncodeResponse(r)), expected) == Err(IdMismatch) <==> r.id != expected
  {
    ResponseArrives(be, r);
    ResponseRoundTrip(r);
  }
}
