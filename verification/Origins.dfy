/** Where a frame that reaches a call comes from: it is the router's answer to a message sent under the
    call's id, whatever else is sent on the connection. */
module Origins {
  import opened Wrappers
  import opened Bytes
  import opened Json
  import opened Protocol
  import opened Framing
  import opened Multiplex
  import opened Correlation
  import opened Wire
  import opened Client
  import opened Server
  import opened Peer
  import opened RoundTrip
  import opened EndToEnd

  /** Message `c` is a single request object; it is a call exactly when it has an id. */
  ghost predicate IsRequest(be: Backend, cfg: Config, c: CallId)
    requires c < |cfg.messages|
  {
    var m := cfg.messages[c];
    && FirstByte(m.bytes) == Some(OPEN_BRACE) && Parse(be, m.bytes).Some?
    && Parse(be, m.bytes).value.id == ParseId(be, m.bytes)
    && (m.isCall <==> Parse(be, m.bytes).value.id.Some?)
  }

  /** The client correlates by `parse_id`. */
  ghost predicate Correlates(be: Backend, cfg: Config) {
    forall bytes: seq<byte> :: cfg.idOf(bytes) == ParseId(be, bytes)
  }

  /** Every message sent is a single request or notification. */
  ghost predicate Speaks(be: Backend, cfg: Config) {
    Correlates(be, cfg) && AllRequests(be, cfg)
  }

  ghost predicate AllRequests(be: Backend, cfg: Config) {
    forall c :: 0 <= c < |cfg.messages| ==> IsRequest(be, cfg, c)
  }

  /** What the messages of a connection must be for the id of call `c` to name its request: nothing goes out
      under that id as a notification; the null id, which is on every error that names no request, is asked
      for only where no such error can arise; and a message that the peer has taken unfinished, at end
      of stream, is the beginning of a single request. Nothing is asked of other messages: they may be
      batches, or no JSON at all. */
  ghost predicate Names<S>(be: Backend, cfg: Config, w: World<S>, c: CallId) {
    && c < |cfg.messages| && cfg.IdOfCall(c).Some?
    && (forall d :: 0 <= d < |cfg.messages| && cfg.IdOfCall(d) == cfg.IdOfCall(c) ==> cfg.IsCall(d))
    && (cfg.IdOfCall(c) == Some(NullId) ==> AllRequests(be, cfg) && !w.peerTookRest)
    && (w.peerTookRest ==> CutIsRequest(be, cfg, w))
  }

  ghost predicate CutIsRequest<S>(be: Backend, cfg: Config, w: World<S>) {
    var k := |w.handled| - 1;
    0 <= k < |LockOrder(w.mux)| && LockOrder(w.mux)[k] < |cfg.messages| ==> IsRequest(be, cfg, LockOrder(w.mux)[k])
  }

  /** Single requests name theirs. */
  lemma SpeaksNames<S>(be: Backend, cfg: Config, w: World<S>, c: CallId)
    requires Speaks(be, cfg) && c < |cfg.messages| && cfg.IsCall(c)
    requires cfg.IdOfCall(c) != Some(NullId) || !w.peerTookRest
    ensures Names(be, cfg, w, c)
  {
    hide Parse, ParseId;
    assert IsRequest(be, cfg, c);
    forall d | 0 <= d < |cfg.messages| && cfg.IdOfCall(d) == cfg.IdOfCall(c)
      ensures cfg.IsCall(d)
    {
      assert IsRequest(be, cfg, d);
    }
  }

  function RequestOf(be: Backend, cfg: Config, c: CallId): Request
    requires c < |cfg.messages| && Parse(be, cfg.messages[c].bytes).Some?
  {
    Parse(be, cfg.messages[c].bytes).value
  }

  /** What the router's handler makes of message `c` after the messages of `before` have been handled. */
  function HandlerResult<S>(sv: Service<S>, cfg: Config, initial: S, before: seq<CallId>, c: CallId): Result<Json, RpcError>
    requires c < |cfg.messages| && Parse(sv.be, cfg.messages[c].bytes).Some?
  {
    Invoke(sv.router, StateAfter(sv, initial, PayloadsOf(cfg, before)), RequestOf(sv.be, cfg, c), sv.ctx).result
  }

  lemma HandleMessage<S>(sv: Service<S>, cfg: Config, state: S, c: CallId)
    requires c < |cfg.messages| && IsRequest(sv.be, cfg, c)
    ensures var req := RequestOf(sv.be, cfg, c);
            var h := Invoke(sv.router, state, req, sv.ctx);
            sv.Handle(state, cfg.messages[c].bytes) ==
            (h.state, if req.id.None? then None else Some(sv.be.render(EncodeResponse(Respond(req.id.value, h.result)))))
  {
  }

  // ----- A message cut short -----

  lemma {:induction false} FirstByteOfBeginning(s: seq<byte>, n: nat)
    requires n <= |s| && FirstByte(s[..n]).Some?
    ensures FirstByte(s[..n]) == FirstByte(s)
  {
    if IsAsciiWhitespace(s[0]) {
      assert s[..n][1..] == s[1..][..n - 1];
      FirstByteOfBeginning(s[1..], n - 1);
    }
  }

  lemma BeginningParses(be: Backend, cfg: Config, c: CallId, n: nat)
    requires Lawful(be) && c < |cfg.messages| && IsRequest(be, cfg, c) && n <= |cfg.messages[c].bytes|
    ensures var m := cfg.messages[c].bytes;
            && (be.parse(m[..n]).Some? ==> be.parse(m[..n]) == be.parse(m) && FirstByte(m[..n]) == FirstByte(m))
            && (be.parse(m[..n]).None? ==> FirstByte(m[..n]).None? || FirstByte(m[..n]) == Some(OPEN_BRACE))
  {
    var m := cfg.messages[c].bytes;
    assert be.parse(m).Some? && be.parse(m).value.Obj?;
    if FirstByte(m[..n]).Some? {
      FirstByteOfBeginning(m, n);
    }
  }

  /** The beginning of a request is handled as the request itself, when only white space is missing, or else
      leaves the state alone and is answered by an error that names no id. */
  lemma HandleBeginning<S>(sv: Service<S>, cfg: Config, state: S, c: CallId, part: seq<byte>)
    requires Lawful(sv.be) && c < |cfg.messages| && IsRequest(sv.be, cfg, c) && part <= cfg.messages[c].bytes
    ensures var r := sv.Handle(state, part);
            if Parse(sv.be, part).Some? then r == sv.Handle(state, cfg.messages[c].bytes)
            else r.0 == state && exists e :: r == (state, Some(NamelessError(sv.be, e)))
  {
    var m := cfg.messages[c].bytes;
    assert part == m[..|part|];
    BeginningParses(sv.be, cfg, c, |part|);
    if Parse(sv.be, part).None? {
      var e := if FirstByte(part).None? then InvalidRequest() else ParseError();
      assert sv.Handle(state, part) == (state, Some(NamelessError(sv.be, e)));
    }
  }

  function NamelessError(be: Backend, e: RpcError): seq<byte> {
    be.render(EncodeResponse(ErrorResponse(NullId, e)))
  }

  lemma BeginningOfRendered(be: Backend, v: Json, part: seq<byte>)
    requires Lawful(be) && (v.Obj? || v.Arr?) && part <= be.render(v) && be.parse(part).Some?
    ensures part == be.render(v)
  {
    var whole := be.render(v);
    assert part == whole[..|part|];
  }

  /** A frame that has an id and is the beginning of a response is all of it. */
  lemma BeginningOfResponse(be: Backend, r: Response, part: seq<byte>)
    requires Lawful(be) && part <= be.render(EncodeResponse(r)) && ParseId(be, part).Some?
    ensures part == be.render(EncodeResponse(r)) && ParseId(be, part) == Some(r.id)
  {
    BeginningOfRendered(be, EncodeResponse(r), part);
    ResponseArrives(be, r);
  }

  // ----- What any message can be answered with -----

  function ArrayReply(be: Backend, rs: seq<Response>): seq<byte> {
    be.render(Arr(seq(|rs|, i requires 0 <= i < |rs| => EncodeResponse(rs[i]))))
  }

  /** The answer to a request that has an id. */
  predicate IsAnswerTo<S>(sv: Service<S>, state: S, m: seq<byte>, reply: seq<byte>) {
    && Parse(sv.be, m).Some? && Parse(sv.be, m).value.id.Some?
    && var req := Parse(sv.be, m).value;
    reply == sv.be.render(EncodeResponse(Respond(req.id.value, Invoke(sv.router, state, req, sv.ctx).result)))
  }

  /** A reply is the answer to one request, or an error that names none, or the array that answers a batch. */
  lemma ReplyShapes<S>(sv: Service<S>, state: S, m: seq<byte>)
    requires sv.Handle(state, m).1.Some?
    ensures var reply := sv.Handle(state, m).1.value;
            || (FirstByte(m) == Some(OPEN_BRACE) && IsAnswerTo(sv, state, m, reply))
            || (exists e :: reply == NamelessError(sv.be, e))
            || (exists rs: seq<Response> :: reply == ArrayReply(sv.be, rs))
  {
    hide HandleElements, Invoke, EncodeResponse, BatchTooLong, Parse;
    var out := HandleBytes(sv.be, sv.router, state, m, sv.ctx).1;
    var reply := sv.Handle(state, m).1.value;
    if out.Batch? {
      assert reply == ArrayReply(sv.be, out.responses);
    } else if !(FirstByte(m) == Some(OPEN_BRACE) && Parse(sv.be, m).Some?) {
      assert reply == NamelessError(sv.be, out.response.error.value);
    }
  }

  /** A batch answer names no id, and neither does any beginning of one. */
  lemma ArraysNameNothing(be: Backend, rs: seq<Response>, part: seq<byte>)
    requires Lawful(be) && part <= ArrayReply(be, rs)
    ensures ParseId(be, part).None?
  {
    var v := Arr(seq(|rs|, i requires 0 <= i < |rs| => EncodeResponse(rs[i])));
    if be.parse(part).Some? {
      BeginningOfRendered(be, v, part);
      assert be.parse(be.render(v)) == Some(v);
    }
  }

  /** The id a request carries is the one the client finds in its bytes. */
  lemma RequestNamesItsId(be: Backend, m: seq<byte>)
    requires Lawful(be) && FirstByte(m) == Some(OPEN_BRACE) && Parse(be, m).Some? && Parse(be, m).value.id.Some?
    ensures ParseId(be, m) == Parse(be, m).value.id
  {
    var v := be.parse(m).value;
    assert v.Obj?;
    var names := ["jsonrpc", "method", "params", "id"];
    assert names[3] == "id" && Count(v.members, names[3]) <= 1;
    FieldsOf(v.members, ["id"]);
  }

  /** Under an id that is not null, only the answer to a request with that id goes out. */
  lemma NamedReply<S>(sv: Service<S>, state: S, m: seq<byte>, part: seq<byte>, id: Id)
    requires Lawful(sv.be) && sv.Handle(state, m).1.Some? && part <= sv.Handle(state, m).1.value
    requires ParseId(sv.be, part) == Some(id) && id != NullId
    ensures IsAnswerTo(sv, state, m, part) && Parse(sv.be, m).value.id == Some(id) && ParseId(sv.be, m) == Some(id)
  {
    var reply := sv.Handle(state, m).1.value;
    ReplyShapes(sv, state, m);
    hide HandleBytes, Parse, ParseId, Invoke, EncodeResponse, NamelessError, ArrayReply;
    if e :| reply == NamelessError(sv.be, e) {
      NamelessIsNull(sv.be, e, part);
      assert false;
    } else if rs: seq<Response> :| reply == ArrayReply(sv.be, rs) {
      ArraysNameNothing(sv.be, rs, part);
      assert false;
    } else {
      var req := Parse(sv.be, m).value;
      RespondsUnder(req.id.value, Invoke(sv.router, state, req, sv.ctx).result);
      BeginningOfResponse(sv.be, Respond(req.id.value, Invoke(sv.router, state, req, sv.ctx).result), part);
      RequestNamesItsId(sv.be, m);
    }
  }

  lemma NamelessIsNull(be: Backend, e: RpcError, part: seq<byte>)
    requires Lawful(be) && part <= NamelessError(be, e) && ParseId(be, part).Some?
    ensures ParseId(be, part) == Some(NullId)
  {
    BeginningOfResponse(be, ErrorResponse(NullId, e), part);
  }

  lemma RespondsUnder(id: Id, result: Result<Json, RpcError>)
    ensures Respond(id, result).id == id
  {
  }

  // ----- What the peer has handled -----

  lemma {:induction false} WritersDistinct(cfg: Config, s: State, n: nat)
    requires WrittenOk(cfg, s) && n <= |s.written|
    ensures forall i :: 0 <= i < |Writers(s.written[..n])| ==> WrittenBy(s, n, Writers(s.written[..n])[i])
    ensures Distinct(Writers(s.written[..n]))
  {
    if n > 0 {
      WritersDistinct(cfg, s, n - 1);
      assert s.written[..n][..n - 1] == s.written[..n - 1];
      var before, c := Writers(s.written[..n - 1]), s.written[n - 1].0;
      assert WrittenBy(s, n, c);
      forall i | 0 <= i < |before|
        ensures WrittenBy(s, n, before[i]) && before[i] != c
      {
        var j :| 0 <= j < n - 1 && s.written[j].0 == before[i];
      }
    }
  }

  ghost predicate WrittenBy(s: State, n: nat, c: CallId)
    requires n <= |s.written|
  {
    exists j :: 0 <= j < n && s.written[j].0 == c
  }

  predicate Distinct(calls: seq<CallId>) {
    forall i, j :: 0 <= i < j < |calls| ==> calls[i] != calls[j]
  }

  /** No message is sent, hence none handled, twice; and who is in the order has begun to write. */
  lemma LockOrderDistinct(cfg: Config, s: State)
    requires Inv(cfg, s) && WireOk(cfg, s)
    ensures Distinct(LockOrder(s))
    ensures forall i :: 0 <= i < |LockOrder(s)| ==>
              LockOrder(s)[i] < |s.phases| && (s.phases[LockOrder(s)[i]].Writing? || PastWrite(s.phases[LockOrder(s)[i]]))
  {
    hide Encode, Segments, Concat, Partial;
    WritersDistinct(cfg, s, |s.written|);
    assert s.written[..|s.written|] == s.written;
    assert s.writer.Some? ==> s.writer.value < |s.phases| && s.phases[s.writer.value].Writing?;
    hide Inv, Writers;
    var before := Writers(s.written);
    forall i | 0 <= i < |before|
      ensures before[i] < |s.phases| && PastWrite(s.phases[before[i]])
    {
      assert WrittenBy(s, |s.written|, before[i]);
    }
  }

  lemma PayloadsOfFirst(cfg: Config, calls: seq<CallId>, n: nat)
    requires n <= |calls|
    ensures PayloadsOf(cfg, calls)[..n] == PayloadsOf(cfg, calls[..n])
  {
  }

  lemma FirstOfExact(xs: seq<seq<byte>>, all: seq<seq<byte>>, cut: bool, n: nat)
    requires FirstOf(xs, all, cut) && n <= |xs| && (cut ==> n < |xs|)
    ensures xs[..n] == all[..n]
  {
  }

  /** The state after messages of which the last may be only a beginning, which counts when it parses. */
  lemma StateOfFirst<S>(cfg: Config, sv: Service<S>, initial: S, handled: seq<seq<byte>>, order: seq<CallId>) returns (n: nat)
    requires Lawful(sv.be) && handled != []
    requires forall i :: 0 <= i < |order| ==> order[i] < |cfg.messages|
    requires FirstOf(handled, PayloadsOf(cfg, order), true) && IsRequest(sv.be, cfg, order[|handled| - 1])
    ensures n == |handled| || (n == |handled| - 1 && Parse(sv.be, handled[n]).None?)
    ensures StateAfter(sv, initial, handled) == StateAfter(sv, initial, PayloadsOf(cfg, order[..n]))
  {
    hide HandleBytes, Parse;
    var last := |handled| - 1;
    FirstOfExact(handled, PayloadsOf(cfg, order), true, last);
    PayloadsOfFirst(cfg, order, last);
    PayloadsOfFirst(cfg, order, last + 1);
    assert handled[last] <= PayloadsOf(cfg, order)[last] == cfg.messages[order[last]].bytes;
    HandleBeginning(sv, cfg, StateAfter(sv, initial, handled[..last]), order[last], handled[last]);
    assert PayloadsOf(cfg, order[..last + 1])[..last] == PayloadsOf(cfg, order[..last]);
    n := if Parse(sv.be, handled[last]).None? then last else last + 1;
  }

  lemma SpeaksOf(be: Backend, cfg: Config, c: CallId)
    requires Speaks(be, cfg) && c < |cfg.messages|
    ensures IsRequest(be, cfg, c)
  {
  }

  /** In every interleaving, under every chunking in both directions, as long as no write has been torn: the
      peer has handled the first so many of the messages, once each and in writer-lock order, and its
      state is theirs; at end of stream the last may be only a beginning, which counts when it parses. */
  lemma HandledInLockOrder<S>(cfg: Config, sv: Service<S>, initial: S, events: seq<Event>) returns (n: nat)
    requires AllEncodable(cfg) && Lawful(sv.be) && After(cfg, sv, initial, events).Some?
    requires var w := After(cfg, sv, initial, events).value;
             Untorn(cfg, w.mux) && (w.peerTookRest ==> CutIsRequest(sv.be, cfg, w))
    ensures var w := After(cfg, sv, initial, events).value;
            var order := LockOrder(w.mux);
            && Distinct(order)
            && FirstOf(w.handled, PayloadsOf(cfg, order), w.peerTookRest)
            && n <= |w.handled| <= |order|
            && (n == |w.handled| || (n == |w.handled| - 1 && w.peerTookRest && Parse(sv.be, w.handled[n]).None?))
            && w.state == StateAfter(sv, initial, PayloadsOf(cfg, order[..n]))
  {
    AlwaysOk(cfg, sv, initial, events);
    var w := After(cfg, sv, initial, events).value;
    var order := LockOrder(w.mux);
    LockOrderDistinct(cfg, w.mux);
    LockOrderInRange(cfg, w.mux);
    hide Inv, WireOk, After, LockOrder, HandleBytes, Parse, InTransit, RepliesOk, Distinct, IsRequest, Lawful, StateAfter;
    if w.peerTookRest && w.handled != [] {
      n := StateOfFirst(cfg, sv, initial, w.handled, order);
    } else {
      n := |w.handled|;
      FirstOfExact(w.handled, PayloadsOf(cfg, order), false, n);
      PayloadsOfFirst(cfg, order, n);
      assert w.handled[..n] == w.handled;
    }
  }

  // ----- Where a frame comes from -----

  /** Message `k` as it was sent, if it was handled whole. */
  lemma HandledWhole<S>(cfg: Config, sv: Service<S>, initial: S, w: World<S>, k: nat)
    requires RequestsOk(cfg, w) && Inv(cfg, w.mux) && WireOk(cfg, w.mux) && k < |w.handled|
    ensures k < |LockOrder(w.mux)| && LockOrder(w.mux)[k] < |cfg.messages|
    ensures w.handled[k] <= cfg.messages[LockOrder(w.mux)[k]].bytes
    ensures !w.peerTookRest || k < |w.handled| - 1 ==> w.handled[k] == cfg.messages[LockOrder(w.mux)[k]].bytes
    ensures w.handled[..k] == PayloadsOf(cfg, LockOrder(w.mux)[..k])
  {
    var order := LockOrder(w.mux);
    LockOrderInRange(cfg, w.mux);
    hide Inv, WireOk, LockOrder, InTransit;
    FirstOfExact(w.handled, PayloadsOf(cfg, order), w.peerTookRest, k);
    PayloadsOfFirst(cfg, order, k);
    assert PayloadsOf(cfg, order)[k] == cfg.messages[order[k]].bytes;
  }

  /** The answer to a single request, whole or not, that goes out under an id. */
  lemma AnswerToRequest<S>(sv: Service<S>, cfg: Config, state: S, d: CallId, m: seq<byte>, part: seq<byte>, id: Id)
    requires Lawful(sv.be) && d < |cfg.messages| && IsRequest(sv.be, cfg, d) && m <= cfg.messages[d].bytes
    requires sv.Handle(state, m).1.Some? && part <= sv.Handle(state, m).1.value && ParseId(sv.be, part) == Some(id)
    requires id != NullId || m == cfg.messages[d].bytes
    ensures IsAnswerTo(sv, state, cfg.messages[d].bytes, part)
    ensures Parse(sv.be, cfg.messages[d].bytes).value.id == Some(id) == ParseId(sv.be, cfg.messages[d].bytes)
  {
    hide HandleBytes, Parse, ParseId, Invoke, EncodeResponse, NamelessError;
    HandleMessage(sv, cfg, state, d);
    HandleBeginning(sv, cfg, state, d, m);
    if m != cfg.messages[d].bytes && Parse(sv.be, m).None? {
      var e :| sv.Handle(state, m) == (state, Some(NamelessError(sv.be, e)));
      NamelessIsNull(sv.be, e, part);
      assert false;
    } else {
      var req := RequestOf(sv.be, cfg, d);
      RespondsUnder(req.id.value, Invoke(sv.router, state, req, sv.ctx).result);
      BeginningOfResponse(sv.be, Respond(req.id.value, Invoke(sv.router, state, req, sv.ctx).result), part);
    }
  }

  lemma AnswerUnderId<S>(sv: Service<S>, cfg: Config, state: S, d: CallId, m: seq<byte>, part: seq<byte>, id: Id)
    requires Lawful(sv.be) && d < |cfg.messages| && m <= cfg.messages[d].bytes
    requires id == NullId || m != cfg.messages[d].bytes ==> IsRequest(sv.be, cfg, d)
    requires id == NullId ==> m == cfg.messages[d].bytes
    requires sv.Handle(state, m).1.Some? && part <= sv.Handle(state, m).1.value && ParseId(sv.be, part) == Some(id)
    ensures IsAnswerTo(sv, state, cfg.messages[d].bytes, part)
    ensures Parse(sv.be, cfg.messages[d].bytes).value.id == Some(id) == ParseId(sv.be, cfg.messages[d].bytes)
  {
    hide HandleBytes, Parse, ParseId, Invoke, EncodeResponse, IsRequest, IsAnswerTo, Lawful;
    if id == NullId || m != cfg.messages[d].bytes {
      AnswerToRequest(sv, cfg, state, d, m, part, id);
    } else {
      NamedReply(sv, state, m, part, id);
    }
  }

  lemma FrameTaken<S>(cfg: Config, sv: Service<S>, initial: S, w: World<S>, i: nat)
    requires RepliesOk(cfg, sv, initial, w) && i < |w.mux.taken|
    ensures i < |Replies(sv, initial, w.handled)| && w.mux.taken[i].0 <= Replies(sv, initial, w.handled)[i]
  {
    hide Replies, InTransit;
    assert FramesTaken(w.mux)[i] == w.mux.taken[i].0;
  }

  /** What is asked of the message that an answer under the call's id answers. */
  lemma NamesAsked<S>(be: Backend, cfg: Config, w: World<S>, c: CallId, k: nat)
    requires Names(be, cfg, w, c) && k < |w.handled| && k < |LockOrder(w.mux)| && LockOrder(w.mux)[k] < |cfg.messages|
    ensures var d := LockOrder(w.mux)[k];
            && (cfg.IdOfCall(c) == Some(NullId) ==> IsRequest(be, cfg, d) && !w.peerTookRest)
            && (w.peerTookRest && k == |w.handled| - 1 ==> IsRequest(be, cfg, d))
            && (cfg.IdOfCall(d) == cfg.IdOfCall(c) ==> cfg.IsCall(d))
    ensures cfg.IdOfCall(c).Some?
  {
    hide IsRequest, LockOrder;
  }

  /** A frame that the client has taken under the id of a call, which names that call's request, is the
      router's answer, under that id, to the message that it answers: all of it, and to all of that message. */
  lemma TakenFrom<S>(cfg: Config, sv: Service<S>, initial: S, w: World<S>, i: nat, c: CallId, k: nat)
    requires Lawful(sv.be) && Correlates(sv.be, cfg) && Inv(cfg, w.mux) && WireOk(cfg, w.mux)
    requires RequestsOk(cfg, w) && RepliesOk(cfg, sv, initial, w)
    requires Names(sv.be, cfg, w, c) && i < |w.mux.taken| && cfg.idOf(w.mux.taken[i].0) == cfg.IdOfCall(c)
    requires AnsweredBy(sv, initial, w.handled, k, i)
    ensures k < |LockOrder(w.mux)| && LockOrder(w.mux)[k] < |cfg.messages|
    ensures Parse(sv.be, cfg.messages[LockOrder(w.mux)[k]].bytes).Some?
    ensures var d := LockOrder(w.mux)[k];
            && RequestOf(sv.be, cfg, d).id == cfg.IdOfCall(d) == cfg.IdOfCall(c) && cfg.IsCall(d)
            && w.mux.taken[i].0 == sv.be.render(EncodeResponse(
                 Respond(cfg.IdOfCall(c).value, HandlerResult(sv, cfg, initial, LockOrder(w.mux)[..k], d))))
  {
    AnswerIsReply(sv, initial, w.handled, k, i);
    HandledWhole(cfg, sv, initial, w, k);
    FrameTaken(cfg, sv, initial, w, i);
    hide Inv, WireOk, LockOrder, RequestsOk, RepliesOk;
    NamesAsked(sv.be, cfg, w, c, k);
    hide HandleBytes, Parse, ParseId, Invoke, EncodeResponse, Replies, StateAfter, IsRequest, CutIsRequest, Lawful, Names;
    var d := LockOrder(w.mux)[k];
    AnswerUnderId(sv, cfg, StateAfter(sv, initial, w.handled[..k]), d, w.handled[k], w.mux.taken[i].0, cfg.IdOfCall(c).value);
  }
}
