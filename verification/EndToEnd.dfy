/** One connection, both ends: the multiplexing client, the framed bytes each way cut into arbitrary reads,
    and the peer's loop. What holds in every run: the peer handles what was sent first, in lock order, and
    the client takes the peer's replies, in order. Whose reply a call gets is the matter of `Calls`. */
module EndToEnd {
  import opened Wrappers
  import opened Bytes
  import opened Json
  import opened Protocol
  import opened Codec
  import opened Framing
  import opened FramedStreams
  import opened Multiplex
  import opened Correlation
  import opened Wire
  import opened Client
  import opened Server
  import opened Peer

  /** The client's state; what the peer has read and not yet decoded, has handled, and has become; the
      bytes the peer has sent; what the client has read of them and not yet decoded; whether the peer has
      ended, and by taking an unfinished message; whether the client's reader has done so. */
  datatype World<+S> = World(
    mux: State,
    peerRead: nat, peerBuf: seq<byte>, handled: seq<seq<byte>>, state: S,
    sent: seq<byte>,
    clientRead: nat, clientBuf: seq<byte>,
    peerDone: bool, peerTookRest: bool, clientTookRest: bool)

  /** Events of the client other than the reader's taking of frames; reads of either side, of any length; and
      what a `recv` then yields: a frame, or at end of stream, under a framing that allows it, the rest of
      the buffer. `out` is how much of the framed reply the peer's send gets out. */
  datatype Event =
    | ClientActs(a: Action)
    | PeerReads(n: nat)
    | PeerHandles(out: nat)
    | PeerTakesRest(out: nat)
    | ClientReads(n: nat)
    | ClientTakes
    | ClientTakesRest

  /** The bytes a send of `reply` would put on the stream. */
  function Framed(f: Framing, reply: Option<seq<byte>>): seq<byte> {
    match reply case None => [] case Some(bytes) => Encode(f, bytes)
  }

  /** The peer's next message. */
  predicate PeerHas(cfg: Config, peerBuf: seq<byte>, e: Event) {
    match e
    case PeerHandles(_) => Decode(cfg.framing, peerBuf).Frame?
    case PeerTakesRest(_) => TakeOnEof(cfg.framing) && Decode(cfg.framing, peerBuf).NeedMore? && peerBuf != []
    case _ => false
  }

  function PeerMessage(cfg: Config, peerBuf: seq<byte>, e: Event): seq<byte>
    requires PeerHas(cfg, peerBuf, e)
  {
    if e.PeerHandles? then Decode(cfg.framing, peerBuf).message else peerBuf
  }

  predicate ClientCanTakeRest(cfg: Config, clientBuf: seq<byte>) {
    TakeOnEof(cfg.framing) && Decode(cfg.framing, clientBuf).NeedMore? && clientBuf != []
  }

  predicate CanHappen<S>(cfg: Config, sv: Service<S>, w: World<S>, e: Event) {
    match e
    case ClientActs(a) => !a.Take? && Enabled(cfg, w.mux, a)
    case PeerReads(n) => !w.peerDone && 1 <= n && w.peerRead + n <= |w.mux.wire|
    case PeerHandles(out) =>
      && !w.peerDone && PeerHas(cfg, w.peerBuf, e)
      && out <= |Framed(cfg.framing, sv.Handle(w.state, PeerMessage(cfg, w.peerBuf, e)).1)|
    case PeerTakesRest(out) =>
      && !w.peerDone && w.peerRead == |w.mux.wire| && PeerHas(cfg, w.peerBuf, e)
      && out <= |Framed(cfg.framing, sv.Handle(w.state, PeerMessage(cfg, w.peerBuf, e)).1)|
    case ClientReads(n) => !w.clientTookRest && 1 <= n && w.clientRead + n <= |w.sent|
    case ClientTakes =>
      var d := Decode(cfg.framing, w.clientBuf);
      !w.clientTookRest && d.Frame? && Enabled(cfg, w.mux, Take(d.message))
    case ClientTakesRest =>
      && !w.clientTookRest && w.clientRead == |w.sent|
      && ClientCanTakeRest(cfg, w.clientBuf) && Enabled(cfg, w.mux, Take(w.clientBuf))
  }

  /** The peer handles `m` and sends `out` bytes of the reply; a send cut short ends it. */
  function Answer<S>(cfg: Config, sv: Service<S>, w: World<S>, m: seq<byte>, out: nat): World<S>
    requires out <= |Framed(cfg.framing, sv.Handle(w.state, m).1)|
  {
    var (after, reply) := sv.Handle(w.state, m);
    var whole := Framed(cfg.framing, reply);
    w.(handled := w.handled + [m], state := after, sent := w.sent + whole[..out], peerDone := out < |whole|)
  }

  function Happen<S>(cfg: Config, sv: Service<S>, w: World<S>, e: Event): World<S>
    requires CanHappen(cfg, sv, w, e)
  {
    match e
    case ClientActs(a) => w.(mux := Next(cfg, w.mux, a))
    case PeerReads(n) =>
      w.(peerRead := w.peerRead + n, peerBuf := w.peerBuf + w.mux.wire[w.peerRead..w.peerRead + n])
    case PeerHandles(out) =>
      var d := Decode(cfg.framing, w.peerBuf);
      Answer(cfg, sv, w, d.message, out).(peerBuf := w.peerBuf[d.consumed..])
    case PeerTakesRest(out) =>
      Answer(cfg, sv, w, w.peerBuf, out).(peerBuf := [], peerDone := true, peerTookRest := true)
    case ClientReads(n) =>
      w.(clientRead := w.clientRead + n, clientBuf := w.clientBuf + w.sent[w.clientRead..w.clientRead + n])
    case ClientTakes =>
      var d := Decode(cfg.framing, w.clientBuf);
      w.(mux := Next(cfg, w.mux, Take(d.message)), clientBuf := w.clientBuf[d.consumed..])
    case ClientTakesRest =>
      w.(mux := Next(cfg, w.mux, Take(w.clientBuf)), clientBuf := [], clientTookRest := true)
  }

  function Start<S>(cfg: Config, initial: S): World<S> {
    World(Init(cfg), 0, [], [], initial, [], 0, [], false, false, false)
  }

  /** The world after these events, if each could happen in its turn. */
  function After<S>(cfg: Config, sv: Service<S>, initial: S, events: seq<Event>): Option<World<S>> {
    if events == [] then Some(Start(cfg, initial))
    else
      match After(cfg, sv, initial, events[..|events| - 1])
      case None => None
      case Some(w) =>
        var e := events[|events| - 1];
        if CanHappen(cfg, sv, w, e) then Some(Happen(cfg, sv, w, e)) else None
  }

  // ----- A byte stream in transit -----

  /** Of the frames of `ps`, sent in order, the receiver has decoded the first `k` and holds `buf`, having
      read `n` of the bytes. */
  ghost predicate InTransit(ws: seq<seq<byte>>, k: nat, buf: seq<byte>, stream: seq<byte>, n: nat) {
    && k <= |ws| && n <= |stream|
    && stream[..n] == Concat(ws[..k]) + buf
    && stream <= Concat(ws)
  }

  lemma ConcatTake(ws: seq<seq<byte>>, k: nat)
    requires k < |ws|
    ensures Concat(ws[..k + 1]) == Concat(ws[..k]) + ws[k]
  {
    hide Concat;
    assert ws[..k + 1] == ws[..k] + [ws[k]];
    ConcatSnoc(ws[..k], ws[k]);
  }

  lemma SplitConcat(ws: seq<seq<byte>>, k: nat)
    requires k < |ws|
    ensures Concat(ws) == Concat(ws[..k]) + (ws[k] + Concat(ws[k + 1..]))
  {
    hide Concat;
    assert ws == ws[..k + 1] + ws[k + 1..];
    ConcatAppend(ws[..k + 1], ws[k + 1..]);
    ConcatTake(ws, k);
    Regroup(Concat(ws[..k]), ws[k], Concat(ws[k + 1..]));
  }

  /** What decodes next in the receiver's buffer is the next frame sent. */
  lemma NextFrameDecodes(
    f: Framing, ws: seq<seq<byte>>, ps: seq<seq<byte>>, k: nat, buf: seq<byte>, stream: seq<byte>, n: nat)
    requires AreFrames(f, ws, ps) && InTransit(ws, k, buf, stream, n)
    requires Decode(f, buf).Frame?
    ensures k < |ws| && Decode(f, buf).message == ps[k]
    ensures InTransit(ws, k + 1, buf[Decode(f, buf).consumed..], stream, n)
  {
    hide Decode;
    var whole := Concat(ws);
    var more := whole[n..];
    assert whole == stream[..n] + more;
    NothingDecodes(f);
    assert ws[..|ws|] == ws;
    if k == |ws| {
      assert false;
    }
    ConcatTake(ws, k);
    var rest := ws[k] + Concat(ws[k + 1..]);
    BufferStarts(ws, k, buf, stream, n);
    DecodeFramePrefix(f, ws[k], ps[k], buf, more, Concat(ws[k + 1..]));
    assert buf == ws[k] + buf[|ws[k]|..] by {
      assert (buf + more)[..|ws[k]|] == rest[..|ws[k]|] == ws[k];
    }
    Regroup(Concat(ws[..k]), ws[k], buf[|ws[k]|..]);
  }

  /** What is left in the receiver's buffer when nothing decodes is the beginning of the next frame sent. */
  lemma RestIsBeginning(
    f: Framing, ws: seq<seq<byte>>, ps: seq<seq<byte>>, k: nat, buf: seq<byte>, stream: seq<byte>, n: nat)
    requires AreFrames(f, ws, ps) && InTransit(ws, k, buf, stream, n)
    requires Decode(f, buf).NeedMore? && buf != []
    ensures k < |ws| && |buf| < |ws[k]| && buf == ws[k][..|buf|]
  {
    hide Decode;
    var whole := Concat(ws);
    var more := whole[n..];
    assert whole == stream[..n] + more;
    assert ws[..|ws|] == ws;
    if k == |ws| {
      assert false;
    }
    var rest := ws[k] + Concat(ws[k + 1..]);
    BufferStarts(ws, k, buf, stream, n);
    DecodeFramePrefix(f, ws[k], ps[k], buf, more, Concat(ws[k + 1..]));
    assert buf == (buf + more)[..|buf|] == rest[..|buf|];
  }

  /** The buffer and what is still to come are the frames not yet decoded. */
  lemma BufferStarts(ws: seq<seq<byte>>, k: nat, buf: seq<byte>, stream: seq<byte>, n: nat)
    requires InTransit(ws, k, buf, stream, n) && k < |ws|
    ensures n <= |Concat(ws)| && buf + Concat(ws)[n..] == ws[k] + Concat(ws[k + 1..])
  {
    var whole := Concat(ws);
    var more := whole[n..];
    assert whole == stream[..n] + more;
    SplitConcat(ws, k);
    hide Concat;
    var rest := ws[k] + Concat(ws[k + 1..]);
    assert Concat(ws[..k]) + (buf + more) == Concat(ws[..k]) + rest by { Regroup(Concat(ws[..k]), buf, more); }
    assert (Concat(ws[..k]) + (buf + more))[|Concat(ws[..k])|..] == buf + more;
    assert (Concat(ws[..k]) + rest)[|Concat(ws[..k])|..] == rest;
  }

  lemma NothingDecodes(f: Framing)
    ensures Decode(f, []) == NeedMore
  {
  }

  lemma ReadMore(ws: seq<seq<byte>>, k: nat, buf: seq<byte>, stream: seq<byte>, n: nat, m: nat)
    requires InTransit(ws, k, buf, stream, n) && n + m <= |stream|
    ensures InTransit(ws, k, buf + stream[n..n + m], stream, n + m)
  {
    assert stream[..n + m] == stream[..n] + stream[n..n + m];
    Regroup(Concat(ws[..k]), buf, stream[n..n + m]);
  }

  /** The sender goes on sending: frames already sent stay where they are. */
  lemma SendMore(ws: seq<seq<byte>>, ws': seq<seq<byte>>, k: nat, buf: seq<byte>, stream: seq<byte>, stream': seq<byte>, n: nat)
    requires InTransit(ws, k, buf, stream, n)
    requires ws <= ws' && stream <= stream' && stream' <= Concat(ws')
    ensures InTransit(ws', k, buf, stream', n)
  {
    assert ws'[..k] == ws[..k];
    assert stream'[..n] == stream[..n];
  }

  // ----- The writer's side -----

  lemma ReleaseKeepsOrder(cfg: Config, s: State, a: Action)
    requires Inv(cfg, s) && Enabled(cfg, s, a) && EndsWrite(s, a)
    ensures LockOrder(s) == LockOrder(Next(cfg, s, a))
    ensures s.written <= Next(cfg, s, a).written && s.wire == Next(cfg, s, a).wire
  {
    hide Encode;
    assert CallOk(cfg, s, a.c);
    hide Inv;
    var t := Next(cfg, s, a);
    assert t.written[..|s.written|] == s.written;
    assert LockOrder(t) == Writers(t.written) + [] == Writers(t.written);
  }

  lemma OthersKeepWritten(cfg: Config, s: State, a: Action)
    requires Enabled(cfg, s, a) && !EndsWrite(s, a)
    ensures s.wire <= Next(cfg, s, a).wire && s.written == Next(cfg, s, a).written
  {
    hide Encode;
  }

  /** The lock holder, once it has got a byte out, stays first in line; nobody else gets there. */
  lemma OthersKeepOrder(cfg: Config, s: State, a: Action)
    requires Inv(cfg, s) && Enabled(cfg, s, a) && !EndsWrite(s, a)
    ensures LockOrder(s) <= LockOrder(Next(cfg, s, a))
  {
    OthersKeepWritten(cfg, s, a);
    hide Encode;
    assert a.Write? ==> CallOk(cfg, s, a.c);
    assert s.writer.Some? ==> s.writer.value < |s.phases| && s.phases[s.writer.value].Writing?;
    hide Inv, Writers;
  }

  lemma LockOrderGrows(cfg: Config, s: State, a: Action)
    requires Inv(cfg, s) && Enabled(cfg, s, a)
    ensures LockOrder(s) <= LockOrder(Next(cfg, s, a))
    ensures s.wire <= Next(cfg, s, a).wire && s.written <= Next(cfg, s, a).written
  {
    hide Encode, Inv, Next, LockOrder;
    if EndsWrite(s, a) {
      ReleaseKeepsOrder(cfg, s, a);
    } else {
      OthersKeepWritten(cfg, s, a);
      OthersKeepOrder(cfg, s, a);
    }
  }

  lemma TakeWritesNothing(cfg: Config, s: State, frame: seq<byte>)
    requires Enabled(cfg, s, Take(frame))
    ensures var t := Next(cfg, s, Take(frame));
            && t.wire == s.wire && t.written == s.written && LockOrder(t) == LockOrder(s)
            && FramesTaken(t) == FramesTaken(s) + [frame]
  {
    hide Encode;
  }

  lemma LockOrderInRange(cfg: Config, s: State)
    requires Inv(cfg, s) && WireOk(cfg, s)
    ensures forall i :: 0 <= i < |LockOrder(s)| ==> LockOrder(s)[i] < |cfg.messages|
  {
    hide Encode, Segments, Concat;
    WritersInRange(cfg, s.written);
  }

  lemma {:induction false} WritersInRange(cfg: Config, written: seq<(CallId, nat)>)
    requires forall i :: 0 <= i < |written| ==> written[i].0 < |cfg.messages|
    ensures forall i :: 0 <= i < |Writers(written)| ==> Writers(written)[i] < |cfg.messages|
  {
    if written != [] {
      WritersInRange(cfg, written[..|written| - 1]);
    }
  }

  ghost predicate AllEncodable(cfg: Config) {
    forall c :: 0 <= c < |cfg.messages| ==> Encodable(cfg.framing, cfg.messages[c].bytes)
  }

  lemma FramesOfAreFrames(cfg: Config, calls: seq<CallId>)
    requires AllEncodable(cfg)
    requires forall i :: 0 <= i < |calls| ==> calls[i] < |cfg.messages|
    ensures AreFrames(cfg.framing, FramesOf(cfg, calls), PayloadsOf(cfg, calls))
  {
    forall i | 0 <= i < |calls|
      ensures IsFrame(cfg.framing, FramesOf(cfg, calls)[i], PayloadsOf(cfg, calls)[i])
    {
      EncodeIsFrame(cfg.framing, cfg.messages[calls[i]].bytes);
    }
  }

  // ----- The invariant of the whole connection -----

  function FramesTaken(s: State): seq<seq<byte>> {
    seq(|s.taken|, i requires 0 <= i < |s.taken| => s.taken[i].0)
  }

  /** `xs` are the first of `all`, in order; if `cut`, the last may be only the beginning of its message. */
  ghost predicate FirstOf(xs: seq<seq<byte>>, all: seq<seq<byte>>, cut: bool) {
    && |xs| <= |all|
    && (forall i :: 0 <= i < |xs| ==> xs[i] <= all[i])
    && (forall i :: 0 <= i < (if cut then |xs| - 1 else |xs|) ==> xs[i] == all[i])
  }

  /** The framing can carry every reply to these messages. */
  ghost predicate RepliesCarried<S>(cfg: Config, sv: Service<S>, initial: S, handled: seq<seq<byte>>) {
    forall i :: 0 <= i < |Replies(sv, initial, handled)| ==> Encodable(cfg.framing, Replies(sv, initial, handled)[i])
  }

  /** The peer's state is that of the messages it has handled, and its output their framed replies, all of
      them while it goes on. */
  ghost predicate PeerOk<S>(cfg: Config, sv: Service<S>, initial: S, w: World<S>) {
    var all := Concat(EncodeAll(cfg.framing, Replies(sv, initial, w.handled)));
    && w.state == StateAfter(sv, initial, w.handled)
    && w.sent <= all && (!w.peerDone ==> w.sent == all)
    && (w.peerTookRest ==> w.peerDone)
  }

  /** From peer to client: the frames the client has taken are the first of the replies. */
  ghost predicate RepliesOk<S>(cfg: Config, sv: Service<S>, initial: S, w: World<S>) {
    var replies := Replies(sv, initial, w.handled);
    && FirstOf(FramesTaken(w.mux), replies, w.clientTookRest)
    && (!w.clientTookRest ==> InTransit(EncodeAll(cfg.framing, replies), |w.mux.taken|, w.clientBuf, w.sent, w.clientRead))
  }

  /** From client to peer: what the peer has handled are the first of the messages, in lock order. */
  ghost predicate RequestsOk<S>(cfg: Config, w: World<S>) {
    && FirstOf(w.handled, PayloadsOf(cfg, LockOrder(w.mux)), w.peerTookRest)
    && (!w.peerTookRest ==> InTransit(FramesOf(cfg, LockOrder(w.mux)), |w.handled|, w.peerBuf, w.mux.wire, w.peerRead))
  }

  ghost predicate WorldOk<S>(cfg: Config, sv: Service<S>, initial: S, w: World<S>) {
    && Inv(cfg, w.mux) && WireOk(cfg, w.mux)
    && PeerOk(cfg, sv, initial, w)
    && (RepliesCarried(cfg, sv, initial, w.handled) ==> RepliesOk(cfg, sv, initial, w))
    && (Untorn(cfg, w.mux) ==> RequestsOk(cfg, w))
  }

  // ----- The client's own steps -----

  lemma RequestsStay<S>(cfg: Config, v: World<S>, w: World<S>)
    requires RequestsOk(cfg, v)
    requires w.handled == v.handled && w.peerBuf == v.peerBuf && w.peerRead == v.peerRead && w.peerTookRest == v.peerTookRest
    requires LockOrder(v.mux) <= LockOrder(w.mux) && v.mux.wire <= w.mux.wire
    requires w.mux.wire <= Concat(FramesOf(cfg, LockOrder(w.mux)))
    ensures RequestsOk(cfg, w)
  {
    hide Encode, LockOrder, Concat;
    var before, after := LockOrder(v.mux), LockOrder(w.mux);
    assert forall i :: 0 <= i < |before| ==> before[i] == after[i];
    if !v.peerTookRest {
      SendMore(FramesOf(cfg, before), FramesOf(cfg, after), |v.handled|, v.peerBuf, v.mux.wire, w.mux.wire, v.peerRead);
    }
  }

  lemma UntornBefore(cfg: Config, s: State, t: State)
    requires s.written <= t.written && Untorn(cfg, t)
    ensures Untorn(cfg, s)
  {
    assert forall i :: 0 <= i < |s.written| ==> t.written[i] == s.written[i];
  }

  lemma TakenOnlyByTake(cfg: Config, s: State, a: Action)
    requires Enabled(cfg, s, a) && !a.Take?
    ensures Next(cfg, s, a).taken == s.taken
  {
    hide Encode;
  }

  lemma ClientActsOk<S>(cfg: Config, sv: Service<S>, initial: S, w: World<S>, a: Action)
    requires WorldOk(cfg, sv, initial, w) && CanHappen(cfg, sv, w, ClientActs(a))
    ensures WorldOk(cfg, sv, initial, Happen(cfg, sv, w, ClientActs(a)))
  {
    hide HandleBytes, Decode, Encode;
    var v := Happen(cfg, sv, w, ClientActs(a));
    StepInv(cfg, w.mux, a);
    StepWire(cfg, w.mux, a);
    LockOrderGrows(cfg, w.mux, a);
    TakenOnlyByTake(cfg, w.mux, a);
    hide Inv, WireOk, Next, Enabled, LockOrder, Concat, Untorn, InTransit, EncodeAll, Replies, RepliesCarried;
    if Untorn(cfg, v.mux) {
      UntornBefore(cfg, w.mux, v.mux);
      WholeFramesInLockOrder(cfg, v.mux);
      RequestsStay(cfg, w, v);
    }
  }

  // ----- The peer's steps -----

  /** The next message the peer decodes is the next one in lock order. */
  lemma RequestDecodes<S>(cfg: Config, w: World<S>)
    requires AllEncodable(cfg) && Inv(cfg, w.mux) && WireOk(cfg, w.mux)
    requires RequestsOk(cfg, w) && !w.peerTookRest && Decode(cfg.framing, w.peerBuf).Frame?
    ensures var d := Decode(cfg.framing, w.peerBuf);
            var calls := LockOrder(w.mux);
            && |w.handled| < |calls| && d.message == PayloadsOf(cfg, calls)[|w.handled|]
            && InTransit(FramesOf(cfg, calls), |w.handled| + 1, w.peerBuf[d.consumed..], w.mux.wire, w.peerRead)
  {
    var calls := LockOrder(w.mux);
    LockOrderInRange(cfg, w.mux);
    FramesOfAreFrames(cfg, calls);
    hide Inv, WireOk, Encode, Decode, LockOrder, Concat, InTransit;
    NextFrameDecodes(cfg.framing, FramesOf(cfg, calls), PayloadsOf(cfg, calls), |w.handled|, w.peerBuf, w.mux.wire, w.peerRead);
  }

  /** A proper beginning of a delimited frame is a beginning of its payload. */
  lemma BeginningOfPayload(f: Framing, payload: seq<byte>, buf: seq<byte>)
    requires TakeOnEof(f) && |buf| < |Encode(f, payload)| && buf == Encode(f, payload)[..|buf|]
    ensures buf <= payload
  {
  }

  /** And what the peer takes at end of stream is the beginning of the next one. */
  lemma RequestBegins<S>(cfg: Config, w: World<S>)
    requires AllEncodable(cfg) && Inv(cfg, w.mux) && WireOk(cfg, w.mux)
    requires RequestsOk(cfg, w) && !w.peerTookRest && PeerHas(cfg, w.peerBuf, PeerTakesRest(0))
    ensures |w.handled| < |LockOrder(w.mux)| && w.peerBuf <= PayloadsOf(cfg, LockOrder(w.mux))[|w.handled|]
  {
    var calls := LockOrder(w.mux);
    LockOrderInRange(cfg, w.mux);
    FramesOfAreFrames(cfg, calls);
    hide Inv, WireOk, Encode, Decode, LockOrder, Concat, InTransit;
    RestIsBeginning(cfg.framing, FramesOf(cfg, calls), PayloadsOf(cfg, calls), |w.handled|, w.peerBuf, w.mux.wire, w.peerRead);
    BeginningOfPayload(cfg.framing, PayloadsOf(cfg, calls)[|w.handled|], w.peerBuf);
  }

  lemma FirstOfSnoc(xs: seq<seq<byte>>, all: seq<seq<byte>>, x: seq<byte>, cut: bool)
    requires FirstOf(xs, all, false) && |xs| < |all| && x <= all[|xs|] && (!cut ==> x == all[|xs|])
    ensures FirstOf(xs + [x], all, cut)
  {
  }

  lemma RequestHandled<S>(cfg: Config, sv: Service<S>, w: World<S>, out: nat)
    requires AllEncodable(cfg) && Inv(cfg, w.mux) && WireOk(cfg, w.mux) && (w.peerTookRest ==> w.peerDone)
    requires RequestsOk(cfg, w) && CanHappen(cfg, sv, w, PeerHandles(out))
    ensures RequestsOk(cfg, Happen(cfg, sv, w, PeerHandles(out)))
  {
    RequestDecodes(cfg, w);
    hide Inv, WireOk, Encode, Decode, LockOrder, Concat, Encodable, HandleBytes, InTransit, FramesOf, PayloadsOf, FirstOf;
    FirstOfSnoc(w.handled, PayloadsOf(cfg, LockOrder(w.mux)), Decode(cfg.framing, w.peerBuf).message, false);
  }

  lemma BeginningHandled<S>(cfg: Config, sv: Service<S>, w: World<S>, out: nat)
    requires AllEncodable(cfg) && Inv(cfg, w.mux) && WireOk(cfg, w.mux) && (w.peerTookRest ==> w.peerDone)
    requires RequestsOk(cfg, w) && CanHappen(cfg, sv, w, PeerTakesRest(out))
    ensures RequestsOk(cfg, Happen(cfg, sv, w, PeerTakesRest(out)))
  {
    RequestBegins(cfg, w);
    hide Inv, WireOk, Encode, Decode, LockOrder, Concat, Encodable, HandleBytes, InTransit, FramesOf, PayloadsOf, FirstOf;
    FirstOfSnoc(w.handled, PayloadsOf(cfg, LockOrder(w.mux)), w.peerBuf, true);
  }

  lemma RepliesGrow<S>(sv: Service<S>, initial: S, handled: seq<seq<byte>>, m: seq<byte>)
    ensures Replies(sv, initial, handled) <= Replies(sv, initial, handled + [m])
  {
    hide HandleBytes;
    OneMore(sv, initial, handled, m);
  }

  lemma AnswerOk<S>(cfg: Config, sv: Service<S>, initial: S, w: World<S>, m: seq<byte>, out: nat)
    requires PeerOk(cfg, sv, initial, w) && !w.peerDone
    requires out <= |Framed(cfg.framing, sv.Handle(w.state, m).1)|
    ensures PeerOk(cfg, sv, initial, Answer(cfg, sv, w, m, out))
  {
    hide Encode, Concat, HandleBytes, StateAfter, Replies;
    var replies := Replies(sv, initial, w.handled);
    OneMore(sv, initial, w.handled, m);
    var reply := sv.Handle(w.state, m).1;
    var whole := Framed(cfg.framing, reply);
    if reply.None? {
      assert replies + [] == replies;
      assert w.sent + [] == w.sent;
    } else {
      EncodeAllSnoc(cfg.framing, replies, reply.value);
      assert w.sent + whole[..out] <= w.sent + whole;
      assert out == |whole| ==> w.sent + whole[..out] == w.sent + whole;
    }
  }

  /** What is on its way to the client is not disturbed by one more reply. */
  lemma ArrivalsStay<S>(cfg: Config, sv: Service<S>, initial: S, w: World<S>, m: seq<byte>, out: nat)
    requires PeerOk(cfg, sv, initial, w) && !w.peerDone
    requires out <= |Framed(cfg.framing, sv.Handle(w.state, m).1)|
    requires RepliesCarried(cfg, sv, initial, w.handled) ==> RepliesOk(cfg, sv, initial, w)
    requires RepliesCarried(cfg, sv, initial, w.handled + [m])
    ensures RepliesOk(cfg, sv, initial, Answer(cfg, sv, w, m, out))
  {
    AnswerOk(cfg, sv, initial, w, m, out);
    RepliesGrow(sv, initial, w.handled, m);
    hide Encode, Concat, HandleBytes, StateAfter, Replies, Encodable;
    var f, replies, more := cfg.framing, Replies(sv, initial, w.handled), Replies(sv, initial, w.handled + [m]);
    assert forall i :: 0 <= i < |replies| ==> replies[i] == more[i];
    assert EncodeAll(f, replies) <= EncodeAll(f, more);
    var v := Answer(cfg, sv, w, m, out);
    if !w.clientTookRest {
      SendMore(EncodeAll(f, replies), EncodeAll(f, more), |w.mux.taken|, w.clientBuf, w.sent, v.sent, w.clientRead);
    }
  }

  lemma PeerActsOk<S>(cfg: Config, sv: Service<S>, initial: S, w: World<S>, e: Event)
    requires AllEncodable(cfg) && WorldOk(cfg, sv, initial, w) && CanHappen(cfg, sv, w, e) && (e.PeerHandles? || e.PeerTakesRest?)
    ensures WorldOk(cfg, sv, initial, Happen(cfg, sv, w, e))
  {
    hide Inv, WireOk, Encode, Decode, Encodable, HandleBytes, Untorn, RequestsOk, AllEncodable, RepliesCarried, Concat, Replies, EncodeAll,
         FirstOf, InTransit, StateAfter;
    var m := PeerMessage(cfg, w.peerBuf, e);
    var v := Happen(cfg, sv, w, e);
    if Untorn(cfg, w.mux) {
      if e.PeerHandles? { RequestHandled(cfg, sv, w, e.out); } else { BeginningHandled(cfg, sv, w, e.out); }
    }
    AnswerOk(cfg, sv, initial, w, m, e.out);
    if RepliesCarried(cfg, sv, initial, v.handled) {
      ArrivalsStay(cfg, sv, initial, w, m, e.out);
    }
  }

  lemma PeerReadsOk<S>(cfg: Config, sv: Service<S>, initial: S, w: World<S>, n: nat)
    requires WorldOk(cfg, sv, initial, w) && CanHappen(cfg, sv, w, PeerReads(n))
    ensures WorldOk(cfg, sv, initial, Happen(cfg, sv, w, PeerReads(n)))
  {
    hide Inv, WireOk, Encode, Decode, Concat, LockOrder, Untorn, Replies, FirstOf, RepliesCarried, HandleBytes, EncodeAll;
    if Untorn(cfg, w.mux) && !w.peerTookRest {
      ReadMore(FramesOf(cfg, LockOrder(w.mux)), |w.handled|, w.peerBuf, w.mux.wire, w.peerRead, n);
    }
  }

  // ----- The client's reader -----

  lemma ClientReadsOk<S>(cfg: Config, sv: Service<S>, initial: S, w: World<S>, n: nat)
    requires WorldOk(cfg, sv, initial, w) && CanHappen(cfg, sv, w, ClientReads(n))
    ensures WorldOk(cfg, sv, initial, Happen(cfg, sv, w, ClientReads(n)))
  {
    hide Inv, WireOk, Encode, Decode, Concat, LockOrder, Untorn, Replies, FirstOf, RepliesCarried, HandleBytes, EncodeAll;
    if RepliesCarried(cfg, sv, initial, w.handled) {
      ReadMore(EncodeAll(cfg.framing, Replies(sv, initial, w.handled)), |w.mux.taken|, w.clientBuf, w.sent, w.clientRead, n);
    }
  }

  /** The next frame the client decodes is the next reply. */
  lemma ReplyDecodesNext<S>(cfg: Config, sv: Service<S>, initial: S, w: World<S>)
    requires RepliesCarried(cfg, sv, initial, w.handled) && RepliesOk(cfg, sv, initial, w) && !w.clientTookRest
    requires Decode(cfg.framing, w.clientBuf).Frame?
    ensures var d := Decode(cfg.framing, w.clientBuf);
            var replies := Replies(sv, initial, w.handled);
            && |w.mux.taken| < |replies| && d.message == replies[|w.mux.taken|]
            && InTransit(EncodeAll(cfg.framing, replies), |w.mux.taken| + 1, w.clientBuf[d.consumed..], w.sent, w.clientRead)
  {
    var replies := Replies(sv, initial, w.handled);
    hide Encode, Decode, Concat, Encodable, Replies, StateAfter, InTransit, EncodeAll;
    EncodeAllAreFrames(cfg.framing, replies);
    NextFrameDecodes(cfg.framing, EncodeAll(cfg.framing, replies), replies, |w.mux.taken|, w.clientBuf, w.sent, w.clientRead);
  }

  /** And what it takes at end of stream is the beginning of the next reply. */
  lemma ReplyBegins<S>(cfg: Config, sv: Service<S>, initial: S, w: World<S>)
    requires RepliesCarried(cfg, sv, initial, w.handled) && RepliesOk(cfg, sv, initial, w) && !w.clientTookRest
    requires ClientCanTakeRest(cfg, w.clientBuf)
    ensures var replies := Replies(sv, initial, w.handled);
            |w.mux.taken| < |replies| && w.clientBuf <= replies[|w.mux.taken|]
  {
    var replies := Replies(sv, initial, w.handled);
    hide Decode, Concat, Encodable, Replies, StateAfter, InTransit;
    EncodeAllAreFrames(cfg.framing, replies);
    hide Encode;
    RestIsBeginning(cfg.framing, EncodeAll(cfg.framing, replies), replies, |w.mux.taken|, w.clientBuf, w.sent, w.clientRead);
    BeginningOfPayload(cfg.framing, replies[|w.mux.taken|], w.clientBuf);
  }

  /** The frame of the taking event. */
  function FrameToTake(cfg: Config, clientBuf: seq<byte>, e: Event): seq<byte> {
    if e.ClientTakes? && Decode(cfg.framing, clientBuf).Frame? then Decode(cfg.framing, clientBuf).message else clientBuf
  }

  lemma ReplyTaken<S>(cfg: Config, sv: Service<S>, initial: S, w: World<S>, e: Event)
    requires RepliesCarried(cfg, sv, initial, w.handled) && RepliesOk(cfg, sv, initial, w)
    requires CanHappen(cfg, sv, w, e) && (e.ClientTakes? || e.ClientTakesRest?)
    ensures RepliesOk(cfg, sv, initial, Happen(cfg, sv, w, e))
  {
    if e.ClientTakes? { ReplyDecodesNext(cfg, sv, initial, w); } else { ReplyBegins(cfg, sv, initial, w); }
    var m := FrameToTake(cfg, w.clientBuf, e);
    TakeWritesNothing(cfg, w.mux, m);
    hide Encode, Decode, Concat, Encodable, Replies, StateAfter, Next, Enabled, LockOrder, InTransit, EncodeAll, FirstOf, HandleBytes, RepliesCarried;
    assert |FramesTaken(Next(cfg, w.mux, Take(m)))| == |w.mux.taken| + 1;
    FirstOfSnoc(FramesTaken(w.mux), Replies(sv, initial, w.handled), m, e.ClientTakesRest?);
  }

  lemma ClientTakesOk<S>(cfg: Config, sv: Service<S>, initial: S, w: World<S>, e: Event)
    requires WorldOk(cfg, sv, initial, w) && CanHappen(cfg, sv, w, e) && (e.ClientTakes? || e.ClientTakesRest?)
    ensures WorldOk(cfg, sv, initial, Happen(cfg, sv, w, e))
  {
    hide Encode, Decode, HandleBytes;
    var m := FrameToTake(cfg, w.clientBuf, e);
    StepInv(cfg, w.mux, Take(m));
    StepWire(cfg, w.mux, Take(m));
    TakeWritesNothing(cfg, w.mux, m);
    hide Inv, WireOk, Concat, RepliesOk, LockOrder, Next, Enabled, RepliesCarried, InTransit, FirstOf, Replies, EncodeAll, StateAfter, FramesOf, PayloadsOf;
    if RepliesCarried(cfg, sv, initial, w.handled) {
      ReplyTaken(cfg, sv, initial, w, e);
    }
    if Untorn(cfg, w.mux) {
      assert RequestsOk(cfg, Happen(cfg, sv, w, e));
    }
  }

  lemma StepOk<S>(cfg: Config, sv: Service<S>, initial: S, w: World<S>, e: Event)
    requires AllEncodable(cfg) && WorldOk(cfg, sv, initial, w) && CanHappen(cfg, sv, w, e)
    ensures WorldOk(cfg, sv, initial, Happen(cfg, sv, w, e))
  {
    hide WorldOk, CanHappen, Happen;
    match e
    case ClientActs(a) => ClientActsOk(cfg, sv, initial, w, a);
    case PeerReads(n) => PeerReadsOk(cfg, sv, initial, w, n);
    case PeerHandles(_) => PeerActsOk(cfg, sv, initial, w, e);
    case PeerTakesRest(_) => PeerActsOk(cfg, sv, initial, w, e);
    case ClientReads(n) => ClientReadsOk(cfg, sv, initial, w, n);
    case ClientTakes => ClientTakesOk(cfg, sv, initial, w, e);
    case ClientTakesRest => ClientTakesOk(cfg, sv, initial, w, e);
  }

  lemma {:induction false} AlwaysOk<S>(cfg: Config, sv: Service<S>, initial: S, events: seq<Event>)
    requires AllEncodable(cfg) && After(cfg, sv, initial, events).Some?
    ensures WorldOk(cfg, sv, initial, After(cfg, sv, initial, events).value)
  {
    if events == [] {
      InitInv(cfg);
    } else {
      hide WorldOk, CanHappen, Happen;
      var n := |events| - 1;
      AlwaysOk(cfg, sv, initial, events[..n]);
      StepOk(cfg, sv, initial, After(cfg, sv, initial, events[..n]).value, events[n]);
    }
  }
}
