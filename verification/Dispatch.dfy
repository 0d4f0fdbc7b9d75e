/** What JSON-RPC 2.0 asks of the dispatcher, proved of `Server`. */
module Dispatch {
  import opened Wrappers
  import opened Bytes
  import opened Json
  import opened Protocol
  import opened Server

  // ----- The reference: which handlers run, and who is answered -----

  /** The requests whose handlers must run for these entries: the well-formed ones with a registered method. */
  function Invocations<S>(router: Router<S>, entries: seq<Option<Request>>): seq<Request> {
    if entries == [] then []
    else
      var rest := Invocations(router, entries[..|entries| - 1]);
      match entries[|entries| - 1]
      case Some(req) => if req.name in router.methods then rest + [req] else rest
      case None => rest
  }

  /** Running the handlers of `reqs` once each, in order. */
  function RunAll<S>(router: Router<S>, state: S, reqs: seq<Request>, ctx: RequestContext): S
    requires forall i :: 0 <= i < |reqs| ==> reqs[i].name in router.methods
  {
    if reqs == [] then state
    else
      var last := reqs[|reqs| - 1];
      router.methods[last.name].Call(RunAll(router, state, reqs[..|reqs| - 1], ctx), last, ctx).state
  }

  predicate IsAnswered(entry: Option<Request>) { entry.None? || entry.value.id.Some? }

  /** The positions of the entries that are answered: all but the well-formed notifications. */
  function Answered(entries: seq<Option<Request>>): (r: seq<nat>)
    ensures forall k :: 0 <= k < |r| ==> r[k] < |entries| && IsAnswered(entries[r[k]])
    ensures forall j, k :: 0 <= j < k < |r| ==> r[j] < r[k]
    ensures forall i :: 0 <= i < |entries| && IsAnswered(entries[i]) ==> i in r
  {
    if entries == [] then []
    else
      var n := |entries| - 1;
      var rest := Answered(entries[..n]);
      if IsAnswered(entries[n]) then
        assert forall i: nat :: i in rest + [n] <==> i in rest || i == n;
        rest + [n]
      else rest
  }

  function Notifications(entries: seq<Option<Request>>): nat {
    if entries == [] then 0
    else Notifications(entries[..|entries| - 1]) + if IsAnswered(entries[|entries| - 1]) then 0 else 1
  }

  /** The answer due to one entry in a given state. */
  function AnswerTo<S>(router: Router<S>, state: S, entry: Option<Request>, ctx: RequestContext): Response
    requires IsAnswered(entry)
  {
    match entry
    case None => ErrorResponse(NullId, InvalidRequest())
    case Some(req) => Respond(req.id.value, Invoke(router, state, req, ctx).result)
  }

  /** The id an answer must carry: the entry's own, or null when the entry is not a request. */
  function IdDue(entry: Option<Request>): Id
    requires IsAnswered(entry)
  {
    match entry case None => NullId case Some(req) => req.id.value
  }

  lemma InvocationsAreRegistered<S>(router: Router<S>, entries: seq<Option<Request>>)
    ensures forall i :: 0 <= i < |Invocations(router, entries)| ==> Invocations(router, entries)[i].name in router.methods
  {
  }

  /** The state while a batch runs is what the due handlers, once each and in order, make of it. */
  lemma {:induction false} BatchState<S>(router: Router<S>, state: S, entries: seq<Option<Request>>, ctx: RequestContext)
    ensures (InvocationsAreRegistered(router, entries);
             HandleElements(router, state, entries, ctx).0 == RunAll(router, state, Invocations(router, entries), ctx))
  {
    InvocationsAreRegistered(router, entries);
    if entries != [] {
      var n := |entries| - 1;
      BatchState(router, state, entries[..n], ctx);
      InvocationsAreRegistered(router, entries[..n]);
      var before := Invocations(router, entries[..n]);
      if entries[n].Some? && entries[n].value.name in router.methods {
        assert (before + [entries[n].value])[..|before|] == before;
      }
    }
  }

  lemma ElementAnswer<S>(router: Router<S>, state: S, entry: Option<Request>, ctx: RequestContext)
    ensures HandleElement(router, state, entry, ctx).1
            == if IsAnswered(entry) then Some(AnswerTo(router, state, entry, ctx)) else None
    ensures IsAnswered(entry) ==>
              AnswerTo(router, state, entry, ctx).id == IdDue(entry) && AnswerTo(router, state, entry, ctx).IsValid()
  {
  }

  /** The state in which entry `i` of a batch is handled: its predecessors have run. */
  function StateBefore<S>(router: Router<S>, state: S, entries: seq<Option<Request>>, ctx: RequestContext, i: nat): S
    requires i <= |entries|
  {
    InvocationsAreRegistered(router, entries[..i]);
    RunAll(router, state, Invocations(router, entries[..i]), ctx)
  }

  lemma {:induction false} BatchCount(entries: seq<Option<Request>>)
    ensures |Answered(entries)| + Notifications(entries) == |entries|
  {
    if entries != [] {
      BatchCount(entries[..|entries| - 1]);
    }
  }

  lemma {:induction false} BatchLength<S>(router: Router<S>, state: S, entries: seq<Option<Request>>, ctx: RequestContext)
    ensures |HandleElements(router, state, entries, ctx).1| == |Answered(entries)|
  {
    hide HandleElement;
    if entries != [] {
      var n := |entries| - 1;
      BatchLength(router, state, entries[..n], ctx);
      ElementAnswer(router, HandleElements(router, state, entries[..n], ctx).0, entries[n], ctx);
    }
  }

  lemma {:induction false} BatchAnswer<S>(
    router: Router<S>, state: S, entries: seq<Option<Request>>, ctx: RequestContext, k: nat)
    requires k < |Answered(entries)|
    ensures |HandleElements(router, state, entries, ctx).1| == |Answered(entries)|
    ensures var i := Answered(entries)[k];
            HandleElements(router, state, entries, ctx).1[k]
            == AnswerTo(router, StateBefore(router, state, entries, ctx, i), entries[i], ctx)
  {
    hide HandleElement, AnswerTo, RunAll, Invocations;
    BatchLength(router, state, entries, ctx);
    var n := |entries| - 1;
    var due := Answered(entries[..n]);
    BatchLength(router, state, entries[..n], ctx);
    if k < |due| {
      BatchAnswer(router, state, entries[..n], ctx, k);
      assert entries[..n][..due[k]] == entries[..due[k]];
    } else {
      BatchState(router, state, entries[..n], ctx);
      ElementAnswer(router, StateBefore(router, state, entries, ctx, n), entries[n], ctx);
    }
  }

  /** The answers of a batch: in request order, one for each entry that is due one, each computed in the
      state its predecessors left, each valid and under its own entry's id. */
  lemma BatchAnswers<S>(router: Router<S>, state: S, entries: seq<Option<Request>>, ctx: RequestContext)
    ensures var responses := HandleElements(router, state, entries, ctx).1;
            var due := Answered(entries);
            && |responses| == |due| == |entries| - Notifications(entries)
            && (forall k :: 0 <= k < |due| ==>
                  && responses[k] == AnswerTo(router, StateBefore(router, state, entries, ctx, due[k]), entries[due[k]], ctx)
                  && responses[k].id == IdDue(entries[due[k]])
                  && responses[k].IsValid())
  {
    hide HandleElements, HandleElement, AnswerTo, RunAll, Invocations, StateBefore, IdDue;
    BatchCount(entries);
    BatchLength(router, state, entries, ctx);
    var due := Answered(entries);
    forall k | 0 <= k < |due|
      ensures HandleElements(router, state, entries, ctx).1[k]
              == AnswerTo(router, StateBefore(router, state, entries, ctx, due[k]), entries[due[k]], ctx)
      ensures HandleElements(router, state, entries, ctx).1[k].id == IdDue(entries[due[k]])
      ensures HandleElements(router, state, entries, ctx).1[k].IsValid()
    {
      BatchAnswer(router, state, entries, ctx, k);
      ElementAnswer(router, StateBefore(router, state, entries, ctx, due[k]), entries[due[k]], ctx);
    }
  }

  /** What a whole message must be answered with, decided on the parsed value. */
  function HandleValue<S>(be: Backend, router: Router<S>, state: S, bytes: seq<byte>, ctx: RequestContext): (S, Output) {
    match be.parse(bytes)
    case None =>
      (state, Single(ErrorResponse(NullId, if FirstByte(bytes).None? then InvalidRequest() else ParseError())))
    case Some(Arr(items)) =>
      if items == [] then (state, Single(ErrorResponse(NullId, InvalidRequest())))
      else if router.maxBatchLen.Some? && |items| > router.maxBatchLen.value then
        (state, Single(ErrorResponse(NullId, BatchTooLong(|items|, router.maxBatchLen.value))))
      else
        var r := HandleElements(router, state, seq(|items|, i requires 0 <= i < |items| => DecodeRequest(items[i])), ctx);
        (r.0, if r.1 == [] then Empty else Batch(r.1))
    case Some(v) =>
      if v.Obj? && DecodeRequest(v).Some? then
        var r := HandleRequest(router, state, DecodeRequest(v).value, ctx);
        (r.0, if r.1.Some? then Single(r.1.value) else Empty)
      else (state, Single(ErrorResponse(NullId, InvalidRequest())))
  }

  /** Peeking at the first byte and splitting the array text does what dispatching on the value would. */
  lemma PeekingIsSound<S>(be: Backend, router: Router<S>, state: S, bytes: seq<byte>, ctx: RequestContext)
    requires Lawful(be)
    ensures HandleBytes(be, router, state, bytes, ctx) == HandleValue(be, router, state, bytes, ctx)
  {
    var v := be.parse(bytes);
    if v.Some? && v.value.Arr? {
      var texts, items := be.split(bytes).value, v.value.items;
      assert ParseAll(be, texts) == seq(|items|, i requires 0 <= i < |items| => DecodeRequest(items[i]));
    } else {
      assert be.split(bytes).None?;
    }
  }

  lemma NobodyAnswered(entries: seq<Option<Request>>)
    ensures Answered(entries) == [] <==> forall i :: 0 <= i < |entries| ==> !IsAnswered(entries[i])
  {
    var due := Answered(entries);
    if due != [] {
      assert IsAnswered(entries[due[0]]);
    }
  }

  /** The batch is accepted: it is an array, it has elements, and no more than the cap. */
  predicate BatchAccepted<S>(be: Backend, router: Router<S>, bytes: seq<byte>) {
    && be.split(bytes).Some? && be.split(bytes).value != []
    && (router.maxBatchLen.Some? ==> |be.split(bytes).value| <= router.maxBatchLen.value)
  }

  /** What a batch is rejected with: a parse error exactly when its text does not parse; the bare invalid
      request when it is empty; and the invalid request that names the limit when it is too long. */
  function Rejection<S>(be: Backend, router: Router<S>, bytes: seq<byte>): RpcError
    requires !BatchAccepted(be, router, bytes)
  {
    match be.parse(bytes)
    case None => ParseError()
    case Some(_) =>
      if be.split(bytes).None? || be.split(bytes).value == [] then InvalidRequest()
      else BatchTooLong(|be.split(bytes).value|, router.maxBatchLen.value)
  }

  /** A batch that is not accepted runs no handler and gets one error under a null id. */
  lemma RejectedBatch<S>(be: Backend, router: Router<S>, state: S, bytes: seq<byte>, ctx: RequestContext)
    requires FirstByte(bytes) == Some(OPEN_BRACKET) && !BatchAccepted(be, router, bytes)
    ensures var r := HandleBytes(be, router, state, bytes, ctx);
            && r.0 == state && r.1.Single? && r.1.response.error.Some? && r.1.response.id == NullId
            && (Lawful(be) ==> r.1.response == ErrorResponse(NullId, Rejection(be, router, bytes)))
            && (Lawful(be) ==> (r.1.response.error.value.code == ParseError().code <==> be.parse(bytes).None?))
  {
    if Lawful(be) && be.parse(bytes).None? {
      assert be.split(bytes).None?;
    }
  }

  /** A batch answer is never empty; a batch is silent exactly when it is accepted and all its entries
      are well-formed notifications. */
  lemma BatchNeverEmpty<S>(be: Backend, router: Router<S>, state: S, bytes: seq<byte>, ctx: RequestContext)
    requires FirstByte(bytes) == Some(OPEN_BRACKET)
    ensures var out := HandleBytes(be, router, state, bytes, ctx).1;
            && out != Batch([])
            && (out == Empty <==>
                BatchAccepted(be, router, bytes)
                && forall i :: 0 <= i < |be.split(bytes).value| ==> !IsAnswered(Parse(be, be.split(bytes).value[i])))
  {
    hide HandleElements, Answered, IsAnswered, Parse;
    if BatchAccepted(be, router, bytes) {
      var items := be.split(bytes).value;
      var entries := ParseAll(be, items);
      BatchLength(router, state, entries, ctx);
      NobodyAnswered(entries);
      assert forall i :: 0 <= i < |entries| ==> entries[i] == Parse(be, items[i]);
    } else {
      RejectedBatch(be, router, state, bytes, ctx);
    }
  }

  /** The batch can be split by the caller: an element that is not itself an array is answered, and moves
      the state, exactly as it would be as a message of its own. */
  lemma ElementAsMessage<S>(be: Backend, router: Router<S>, state: S, item: seq<byte>, ctx: RequestContext)
    requires Lawful(be) && be.parse(item).Some? && !be.parse(item).value.Arr?
    ensures var alone := HandleBytes(be, router, state, item, ctx);
            var element := HandleElement(router, state, Parse(be, item), ctx);
            && alone.0 == element.0
            && alone.1 == match element.1 { case None => Empty case Some(r) => Single(r) }
  {
  }
}
