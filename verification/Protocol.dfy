/** The JSON-RPC 2.0 data model and its wire form. */
module Protocol {
  import opened Wrappers
  import opened Bytes
  import opened Json
  import Decimal

  // ----- Identifiers -----

  /** A request or response identifier; the wire type is kept. */
  datatype Id = NullId | NumberId(n: i64) | StringId(s: string)

  function EncodeId(id: Id): Json {
    match id
    case NullId => Null
    case NumberId(n) => Int(n)
    case StringId(s) => Str(s)
  }

  /** Decimal digits as text. */
  function Text(s: seq<byte>): string { seq(|s|, i requires 0 <= i < |s| => s[i] as char) }

  /** An integer beyond `i64::MAX` becomes the string of its digits. */
  function DecodeId(v: Json): Option<Id> {
    match v
    case Null => Some(NullId)
    case Int(n) => Some(if n <= 0x7FFF_FFFF_FFFF_FFFF then NumberId(n) else StringId(Text(Decimal.Print(n))))
    case Str(s) => Some(StringId(s))
    case _ => None
  }

  /** Every identifier survives the wire. */
  lemma IdRoundTrip(id: Id)
    ensures DecodeId(EncodeId(id)) == Some(id)
  {
  }

  /** Every accepted wire identifier re-reads from its echo as the same identifier, and the echo is the
      very value received unless that was an integer too large for `i64`. */
  lemma WireIdEcho(v: Json)
    requires DecodeId(v).Some?
    ensures DecodeId(EncodeId(DecodeId(v).value)) == DecodeId(v)
    ensures EncodeId(DecodeId(v).value) == v <==> !(v.Int? && v.n > 0x7FFF_FFFF_FFFF_FFFF)
  {
  }

  lemma TextInjective(a: seq<byte>, b: seq<byte>)
    requires Text(a) == Text(b)
    ensures a == b
  {
    assert |a| == |Text(a)| == |b|;
    assert forall i :: 0 <= i < |a| ==> Text(a)[i] == a[i] as char && Text(b)[i] == b[i] as char;
  }

  /** Distinct wire integers stay distinct identifiers. */
  lemma WireIntegersStayDistinct(m: jsonint, n: jsonint)
    requires DecodeId(Int(m)) == DecodeId(Int(n))
    ensures m == n
  {
    if m > 0x7FFF_FFFF_FFFF_FFFF {
      TextInjective(Decimal.Print(m), Decimal.Print(n));
      Decimal.PrintInjective(m, n);
    }
  }

  // ----- Errors -----

  /** The protocol error object. */
  datatype RpcError = RpcError(code: i64, message: string, data: Option<Json>)

  function ParseError(): RpcError { RpcError(-32700, "Parse error", None) }
  function InvalidRequest(): RpcError { RpcError(-32600, "Invalid Request", None) }
  function MethodNotFound(): RpcError { RpcError(-32601, "Method not found", None) }
  function InternalError(): RpcError { RpcError(-32603, "Internal error", None) }

  /** A member that is left out when there is no value. */
  function Member(name: string, v: Option<Json>): seq<(string, Json)> {
    match v
    case None => []
    case Some(j) => [(name, j)]
  }

  function EncodeError(e: RpcError): Json {
    Obj([("code", Int(e.code)), ("message", Str(e.message))] + Member("data", e.data))
  }

  function DecodeError(v: Json): Option<RpcError> {
    match StructFields(v, ["code", "message", "data"])
    case None => None
    case Some(f) =>
      match (f[0], f[1]) {
        case (Some(Int(code)), Some(Str(message))) =>
          if code <= 0x7FFF_FFFF_FFFF_FFFF then Some(RpcError(code, message, NonNull(f[2]))) else None
        case _ => None
      }
  }

  /** Error data that is `null` reads back as no data. */
  function ErrorOnWire(e: RpcError): RpcError { e.(data := NonNull(e.data)) }

  // ----- Requests -----

  const VERSION: string := "2.0"

  /** A request, or a notification when it has no id. */
  datatype Request = Request(name: string, params: Option<Json>, id: Option<Id>) {
    predicate IsNotification() { id.None? }

    /** The params as a handler sees them: missing params read as `null`. */
    function ParamsAs(): Json {
      match params
      case Some(v) => v
      case None => Null
    }

    function SetId(id: Id): Request { this.(id := Some(id)) }
  }

  function EncodeRequest(r: Request): Json {
    Obj([("jsonrpc", Str(VERSION)), ("method", Str(r.name))]
        + Member("params", r.params)
        + Member("id", if r.id.Some? then Some(EncodeId(r.id.value)) else None))
  }

  /** A present `id` is decoded even when it is `null`; an absent one marks a notification. */
  function DecodePresentId(field: Option<Json>): Option<Option<Id>> {
    match field
    case None => Some(None)
    case Some(v) => if DecodeId(v).Some? then Some(DecodeId(v)) else None
  }

  function DecodeRequest(v: Json): Option<Request> {
    match StructFields(v, ["jsonrpc", "method", "params", "id"])
    case None => None
    case Some(f) =>
      match (f[0], f[1], DecodePresentId(f[3])) {
        case (Some(Str(version)), Some(Str(name)), Some(id)) =>
          if version == VERSION then Some(Request(name, NonNull(f[2]), id)) else None
        case _ => None
      }
  }

  // ----- Responses -----

  datatype Response = Response(result: Option<Json>, error: Option<RpcError>, id: Id) {
    /** Exactly one of result and error is present. */
    predicate IsValid() { result.Some? != error.Some? }

    function SetId(id: Id): Response { this.(id := id) }
  }

  function ResultResponse(id: Id, result: Json): Response { Response(Some(result), None, id) }

  function ErrorResponse(id: Id, error: RpcError): Response { Response(None, Some(error), id) }

  function EncodeResponse(r: Response): Json {
    Obj([("jsonrpc", Str(VERSION))]
        + Member("result", r.result)
        + Member("error", if r.error.Some? then Some(EncodeError(r.error.value)) else None)
        + [("id", EncodeId(r.id))])
  }

  function DecodeResponse(v: Json): Option<Response> {
    match StructFields(v, ["jsonrpc", "result", "error", "id"])
    case None => None
    case Some(f) =>
      match (f[0], f[3]) {
        case (Some(Str(version)), Some(id)) =>
          if version != VERSION || DecodeId(id).None? then None
          else
            (match NonNull(f[2])
             case None => Some(Response(NonNull(f[1]), None, DecodeId(id).value))
             case Some(e) =>
               if DecodeError(e).None? then None
               else Some(Response(NonNull(f[1]), DecodeError(e), DecodeId(id).value)))
        case _ => None
      }
  }

  /** `parse_id`: just the `id` field. A missing one is an error, not a null id. */
  function DecodeIdOnly(v: Json): Option<Id> {
    match StructFields(v, ["id"])
    case None => None
    case Some(f) =>
      match f[0]
      case None => None
      case Some(id) => DecodeId(id)
  }

  // ----- Round trips -----

  lemma LookupOf(head: seq<(string, Json)>, tail: seq<(string, Json)>, name: string)
    ensures Count(head + tail, name) == Count(head, name) + Count(tail, name)
    ensures Lookup(head + tail, name) == if Count(head, name) > 0 then Lookup(head, name) else Lookup(tail, name)
    ensures Count(head, name) == 0 <==> Lookup(head, name).None?
  {
    if head == [] {
      assert head + tail == tail;
    } else {
      LookupOf(head[1..], tail, name);
      assert (head + tail)[1..] == head[1..] + tail;
    }
  }

  /** The names, of the ones asked for, that a list of members mentions, each at most once. */
  lemma FieldsOf(members: seq<(string, Json)>, names: seq<string>)
    requires forall i :: 0 <= i < |names| ==> Count(members, names[i]) <= 1
    ensures var r := StructFields(Obj(members), names);
            r.Some? && forall i :: 0 <= i < |names| ==> r.value[i] == Lookup(members, names[i])
  {
  }

  lemma MemberOf(name: string, v: Option<Json>, asked: string)
    ensures Count(Member(name, v), asked) == if name == asked && v.Some? then 1 else 0
    ensures Lookup(Member(name, v), asked) == if name == asked then v else None
  {
  }

  lemma RequestMembers(r: Request, asked: string)
    ensures var ms := EncodeRequest(r).members;
            && Count(ms, asked) <= 1
            && Lookup(ms, asked) ==
                 if asked == "jsonrpc" then Some(Str(VERSION))
                 else if asked == "method" then Some(Str(r.name))
                 else if asked == "params" then r.params
                 else if asked == "id" && r.id.Some? then Some(EncodeId(r.id.value))
                 else None
  {
    var id := if r.id.Some? then Some(EncodeId(r.id.value)) else None;
    var a, b := Member("jsonrpc", Some(Str(VERSION))), Member("method", Some(Str(r.name)));
    var c, d := Member("params", r.params), Member("id", id);
    assert EncodeRequest(r).members == a + (b + (c + d));
    LookupOf(a, b + (c + d), asked);
    LookupOf(b, c + d, asked);
    LookupOf(c, d, asked);
    MemberOf("jsonrpc", Some(Str(VERSION)), asked);
    MemberOf("method", Some(Str(r.name)), asked);
    MemberOf("params", r.params, asked);
    MemberOf("id", id, asked);
  }

  /** A request survives the wire, except that `null` params become missing ones. */
  lemma RequestRoundTrip(r: Request)
    ensures DecodeRequest(EncodeRequest(r)) == Some(r.(params := NonNull(r.params)))
    ensures DecodeRequest(EncodeRequest(r)).value.ParamsAs() == r.ParamsAs()
    ensures DecodeIdOnly(EncodeRequest(r)) == r.id
  {
    var names := ["jsonrpc", "method", "params", "id"];
    forall i | 0 <= i < |names|
      ensures Count(EncodeRequest(r).members, names[i]) <= 1
    {
      RequestMembers(r, names[i]);
    }
    FieldsOf(EncodeRequest(r).members, names);
    RequestMembers(r, names[0]);
    RequestMembers(r, names[1]);
    RequestMembers(r, names[2]);
    RequestMembers(r, names[3]);
    FieldsOf(EncodeRequest(r).members, ["id"]);
  }

  lemma ErrorRoundTrip(e: RpcError)
    ensures DecodeError(EncodeError(e)) == Some(ErrorOnWire(e))
  {
    var names := ["code", "message", "data"];
    var a, b, c := Member("code", Some(Int(e.code))), Member("message", Some(Str(e.message))), Member("data", e.data);
    assert EncodeError(e).members == a + (b + c);
    forall i | 0 <= i < |names|
      ensures Count(EncodeError(e).members, names[i]) <= 1
      ensures Lookup(EncodeError(e).members, names[i]) == [Some(Int(e.code)), Some(Str(e.message)), e.data][i]
    {
      LookupOf(a, b + c, names[i]);
      LookupOf(b, c, names[i]);
      MemberOf("code", Some(Int(e.code)), names[i]);
      MemberOf("message", Some(Str(e.message)), names[i]);
      MemberOf("data", e.data, names[i]);
    }
    FieldsOf(EncodeError(e).members, names);
  }

  lemma ResponseMembers(r: Response, asked: string)
    ensures var ms := EncodeResponse(r).members;
            && Count(ms, asked) <= 1
            && Lookup(ms, asked) ==
                 if asked == "jsonrpc" then Some(Str(VERSION))
                 else if asked == "result" then r.result
                 else if asked == "error" && r.error.Some? then Some(EncodeError(r.error.value))
                 else if asked == "id" then Some(EncodeId(r.id))
                 else None
  {
    var e := if r.error.Some? then Some(EncodeError(r.error.value)) else None;
    var a, b := Member("jsonrpc", Some(Str(VERSION))), Member("result", r.result);
    var c, d := Member("error", e), Member("id", Some(EncodeId(r.id)));
    assert EncodeResponse(r).members == a + (b + (c + d));
    LookupOf(a, b + (c + d), asked);
    LookupOf(b, c + d, asked);
    LookupOf(c, d, asked);
    MemberOf("jsonrpc", Some(Str(VERSION)), asked);
    MemberOf("result", r.result, asked);
    MemberOf("error", e, asked);
    MemberOf("id", Some(EncodeId(r.id)), asked);
  }

  /** A response survives the wire, except that a `null` result or `null` error data is lost. */
  lemma ResponseRoundTrip(r: Response)
    ensures DecodeResponse(EncodeResponse(r)) ==
            Some(Response(NonNull(r.result), if r.error.Some? then Some(ErrorOnWire(r.error.value)) else None, r.id))
    ensures DecodeIdOnly(EncodeResponse(r)) == Some(r.id)
  {
    var names := ["jsonrpc", "result", "error", "id"];
    forall i | 0 <= i < |names|
      ensures Count(EncodeResponse(r).members, names[i]) <= 1
    {
      ResponseMembers(r, names[i]);
    }
    FieldsOf(EncodeResponse(r).members, names);
    ResponseMembers(r, names[0]);
    ResponseMembers(r, names[1]);
    ResponseMembers(r, names[2]);
    ResponseMembers(r, names[3]);
    if r.error.Some? {
      ErrorRoundTrip(r.error.value);
    }
    FieldsOf(EncodeResponse(r).members, ["id"]);
  }
}
