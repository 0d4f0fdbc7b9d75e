/** The peer of a connection: receive a message, dispatch it, send the reply if there is one, repeat. */
module Peer {
  import opened Wrappers
  import opened Bytes
  import opened Json
  import opened Framing
  import opened Receive
  import opened FramedStreams
  import opened FramedIo
  import opened Server

  datatype Service<!S> = Service(be: Backend, router: Router<S>, ctx: RequestContext) {
    function Handle(state: S, message: seq<byte>): (S, Option<seq<byte>>) {
      var (after, out) := HandleBytes(be, router, state, message, ctx);
      (after, ToBytes(be, out))
    }
  }

  /** The handler state once `messages` have been handled in order. */
  function StateAfter<S>(sv: Service<S>, initial: S, messages: seq<seq<byte>>): S {
    if messages == [] then initial
    else sv.Handle(StateAfter(sv, initial, messages[..|messages| - 1]), messages[|messages| - 1]).0
  }

  /** The reply to message `i`, if it gets one. */
  function ReplyTo<S>(sv: Service<S>, initial: S, messages: seq<seq<byte>>, i: nat): Option<seq<byte>>
    requires i < |messages|
  {
    sv.Handle(StateAfter(sv, initial, messages[..i]), messages[i]).1
  }

  /** All replies, in order. */
  function Replies<S>(sv: Service<S>, initial: S, messages: seq<seq<byte>>): seq<seq<byte>> {
    if messages == [] then []
    else
      var n := |messages| - 1;
      Replies(sv, initial, messages[..n]) +
      match ReplyTo(sv, initial, messages, n) { case None => [] case Some(bytes) => [bytes] }
  }

  lemma OneMore<S>(sv: Service<S>, initial: S, messages: seq<seq<byte>>, m: seq<byte>)
    ensures var r := sv.Handle(StateAfter(sv, initial, messages), m);
            && StateAfter(sv, initial, messages + [m]) == r.0
            && Replies(sv, initial, messages + [m])
               == Replies(sv, initial, messages) + match r.1 { case None => [] case Some(bytes) => [bytes] }
  {
    assert (messages + [m])[..|messages|] == messages;
  }

  /** Message `i` is answered, and by reply `k`. */
  predicate AnsweredBy<S>(sv: Service<S>, initial: S, messages: seq<seq<byte>>, i: nat, k: nat) {
    i < |messages| && ReplyTo(sv, initial, messages, i).Some? && |Replies(sv, initial, messages[..i])| == k
  }

  lemma {:induction false} RepliesOfBeginning<S>(sv: Service<S>, initial: S, messages: seq<seq<byte>>, n: nat)
    requires n <= |messages|
    ensures Replies(sv, initial, messages[..n]) <= Replies(sv, initial, messages)
  {
    hide HandleBytes;
    if n == |messages| {
      assert messages[..n] == messages;
    } else {
      RepliesOfBeginning(sv, initial, messages[..|messages| - 1], n);
      assert messages[..|messages| - 1][..n] == messages[..n];
    }
  }

  /** The reply that answers a message is the one it was owed, in the state its predecessors left. */
  lemma AnswerIsReply<S>(sv: Service<S>, initial: S, messages: seq<seq<byte>>, i: nat, k: nat)
    requires AnsweredBy(sv, initial, messages, i, k)
    ensures k < |Replies(sv, initial, messages)| && Replies(sv, initial, messages)[k] == ReplyTo(sv, initial, messages, i).value
  {
    hide HandleBytes;
    var upto := messages[..i + 1];
    assert upto[..i] == messages[..i];
    RepliesOfBeginning(sv, initial, messages, i + 1);
    assert Replies(sv, initial, upto)[k] == ReplyTo(sv, initial, messages, i).value;
  }

  /** Every reply answers some message. */
  lemma {:induction false} ReplyHasOrigin<S>(sv: Service<S>, initial: S, messages: seq<seq<byte>>, k: nat)
    returns (i: nat)
    requires k < |Replies(sv, initial, messages)|
    ensures AnsweredBy(sv, initial, messages, i, k)
  {
    hide HandleBytes;
    var n := |messages| - 1;
    if k < |Replies(sv, initial, messages[..n])| {
      i := ReplyHasOrigin(sv, initial, messages[..n], k);
      assert messages[..n][..i] == messages[..i];
    } else {
      i := n;
    }
  }

  lemma EncodeAllSnoc(f: Framing, ps: seq<seq<byte>>, p: seq<byte>)
    ensures Concat(EncodeAll(f, ps + [p])) == Concat(EncodeAll(f, ps)) + Encode(f, p)
  {
    hide Encode;
    assert EncodeAll(f, ps + [p]) == EncodeAll(f, ps) + [Encode(f, p)];
    ConcatSnoc(EncodeAll(f, ps), Encode(f, p));
  }

  lemma SessionUnfolds(f: Framing, cap: nat, buf: seq<byte>, events: seq<ReadEvent>, handled: seq<seq<byte>>, all: seq<seq<byte>>)
    requires all == handled + RecvAll(f, cap, buf, events).messages
    requires Receive.Recv(f, cap, buf, events).outcome.Message?
    ensures var r := Receive.Recv(f, cap, buf, events);
            all == handled + [r.outcome.payload] + RecvAll(f, cap, r.buf, r.rest).messages
  {
    hide Receive.Recv;
    SessionStep(f, cap, buf, events);
  }

  /** The framed replies to `messages`: what the loop owes its writer. */
  function Output<S>(f: Framing, sv: Service<S>, initial: S, messages: seq<seq<byte>>): seq<byte> {
    Concat(EncodeAll(f, Replies(sv, initial, messages)))
  }

  lemma OutputSnoc<S>(f: Framing, sv: Service<S>, initial: S, messages: seq<seq<byte>>, m: seq<byte>)
    ensures var reply := sv.Handle(StateAfter(sv, initial, messages), m).1;
            Output(f, sv, initial, messages + [m])
            == Output(f, sv, initial, messages) + match reply { case None => [] case Some(bytes) => Encode(f, bytes) }
  {
    hide HandleBytes, Encode;
    OneMore(sv, initial, messages, m);
    var replies := Replies(sv, initial, messages);
    var reply := sv.Handle(StateAfter(sv, initial, messages), m).1;
    if reply.Some? {
      EncodeAllSnoc(f, replies, reply.value);
    } else {
      assert replies + [] == replies;
      assert Output(f, sv, initial, messages) + [] == Output(f, sv, initial, messages);
    }
  }

  /** Send the reply if there is one: all of the frame on success, a beginning of it otherwise. */
  method SendReply(writer: FramedWriter, reply: Option<seq<byte>>) returns (ok: bool)
    modifies writer, writer.inner
    ensures var framed := match reply { case None => [] case Some(bytes) => Encode(writer.framing, bytes) };
            && old(writer.inner.written) <= writer.inner.written <= old(writer.inner.written) + framed
            && (ok ==> writer.inner.written == old(writer.inner.written) + framed)
  {
    hide Encode;
    if reply.None? {
      return true;
    }
    ok := writer.Send(reply.value);
    assert writer.writeBuf[..|writer.writeBuf|] == writer.writeBuf;
  }

  /** The connection loop: it handles the messages `recv` yields, in order and each once, and unless a
      send fails all of them; what it has written is exactly the framed replies, or if a send has failed a
      beginning of them. */
  method Serve<S>(sv: Service<S>, initial: S, core: ReadCore, inner: ByteSource, writer: FramedWriter)
    returns (state: S, ghost handled: seq<seq<byte>>, broken: bool)
    requires core.Valid()
    modifies core, inner, writer, writer.inner
    ensures handled <= RecvAll(writer.framing, core.maxFrameSize, old(core.readBuf), old(inner.events)).messages
    ensures !broken ==>
              handled == RecvAll(writer.framing, core.maxFrameSize, old(core.readBuf), old(inner.events)).messages
    ensures state == StateAfter(sv, initial, handled)
    ensures !broken ==> writer.inner.written == old(writer.inner.written) + Output(writer.framing, sv, initial, handled)
    ensures old(writer.inner.written) <= writer.inner.written
            <= old(writer.inner.written) + Output(writer.framing, sv, initial, handled)
  {
    hide Receive.Recv, Encode, HandleBytes, Decode, Flatten;
    state, handled, broken := initial, [], false;
    ghost var all := RecvAll(writer.framing, core.maxFrameSize, core.readBuf, inner.events).messages;
    assert [] + all == all;
    ghost var base := writer.inner.written;
    assert base + Output(writer.framing, sv, initial, []) == base;
    hide Output, RecvAll;
    while true
      invariant core.Valid()
      invariant all == handled + RecvAll(writer.framing, core.maxFrameSize, core.readBuf, inner.events).messages
      invariant state == StateAfter(sv, initial, handled)
      invariant writer.inner.written == base + Output(writer.framing, sv, initial, handled)
      decreases |core.readBuf| + |Flatten(inner.events)|
    {
      RecvShrinks(writer.framing, core.maxFrameSize, core.readBuf, inner.events);
      ghost var buf, events := core.readBuf, inner.events;
      var got := core.Recv(inner, writer.framing);
      if !got.Message? {
        SessionStep(writer.framing, core.maxFrameSize, buf, events);
        assert handled + [] == handled;
        return;
      }
      SessionUnfolds(writer.framing, core.maxFrameSize, buf, events, handled, all);
      OutputSnoc(writer.framing, sv, initial, handled, got.payload);
      OneMore(sv, initial, handled, got.payload);
      ghost var before := Output(writer.framing, sv, initial, handled);
      var (after, reply) := sv.Handle(state, got.payload);
      handled := handled + [got.payload];
      state := after;
      ghost var framed := match reply { case None => [] case Some(bytes) => Encode(writer.framing, bytes) };
      Regroup(base, before, framed);
      var ok := SendReply(writer, reply);
      if !ok {
        return state, handled, true;
      }
    }
  }
}
