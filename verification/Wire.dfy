/** The writer lock at byte granularity: what is on the wire in every reachable state. */
module Wire {
  import opened Wrappers
  import opened Bytes
  import opened Framing
  import opened Multiplex
  import opened Correlation

  /** The part of its frame that a finished write got onto the wire. */
  function Segment(cfg: Config, w: (CallId, nat)): seq<byte> {
    if w.0 < |cfg.messages| && w.1 <= |cfg.FrameOf(w.0)| then cfg.FrameOf(w.0)[..w.1] else []
  }

  function Segments(cfg: Config, written: seq<(CallId, nat)>): seq<seq<byte>> {
    seq(|written|, i requires 0 <= i < |written| => Segment(cfg, written[i]))
  }

  /** What the holder of the lock has written so far. */
  function Partial(cfg: Config, s: State): seq<byte> {
    match s.writer
    case None => []
    case Some(c) => if c < |s.phases| && s.phases[c].Writing? then Segment(cfg, (c, s.phases[c].sent)) else []
  }

  /** The call is past its write. */
  predicate PastWrite(p: Phase) { p.Waiting? || p.Unwinding? || p.Done? }

  /** The finished writes are of calls past their write, each within its frame, no call twice. */
  ghost predicate WrittenOk(cfg: Config, s: State) {
    && (forall i :: 0 <= i < |s.written| ==>
          var c := s.written[i].0;
          c < |s.phases| && c < |cfg.messages| && s.written[i].1 <= |cfg.FrameOf(c)| && PastWrite(s.phases[c]))
    && (forall i, j :: 0 <= i < j < |s.written| ==> s.written[i].0 != s.written[j].0)
  }

  /** The wire is the segments in lock order, then the lock holder's. */
  ghost predicate WireOk(cfg: Config, s: State) {
    WrittenOk(cfg, s) && s.wire == Concat(Segments(cfg, s.written)) + Partial(cfg, s)
  }

  lemma AppendSegment(cfg: Config, written: seq<(CallId, nat)>, w: (CallId, nat))
    ensures Concat(Segments(cfg, written + [w])) == Concat(Segments(cfg, written)) + Segment(cfg, w)
  {
    hide Segment;
    assert Segments(cfg, written + [w]) == Segments(cfg, written) + [Segment(cfg, w)];
    ConcatSnoc(Segments(cfg, written), Segment(cfg, w));
  }

  /** An action of one call moves no other call, and an action of the reader moves none. */
  lemma OthersStay(cfg: Config, s: State, a: Action, c: CallId)
    requires Enabled(cfg, s, a) && c < |s.phases|
    requires a.Take? || a.Deliver? || a.Stop? || a.Clear? || a.c != c
    ensures c < |Next(cfg, s, a).phases| && Next(cfg, s, a).phases[c] == s.phases[c]
  {
    hide Encode;
  }

  /** Past its write, a call stays past it. */
  lemma PastWriteStays(cfg: Config, s: State, a: Action, c: CallId)
    requires Enabled(cfg, s, a) && c < |s.phases| && PastWrite(s.phases[c])
    ensures c < |Next(cfg, s, a).phases| && PastWrite(Next(cfg, s, a).phases[c])
  {
    hide Encode;
    if a.Take? || a.Deliver? || a.Stop? || a.Clear? || a.c != c {
      OthersStay(cfg, s, a, c);
      hide Next, Enabled;
    } else {
      assert a.Cancel? || a.DropGuard? || a.Receive?;
    }
  }

  /** The books of finished writes survive an action that finishes none. */
  lemma WrittenStays(cfg: Config, s: State, a: Action)
    requires WrittenOk(cfg, s) && Enabled(cfg, s, a) && Next(cfg, s, a).written == s.written
    ensures WrittenOk(cfg, Next(cfg, s, a))
  {
    hide Encode, Next, Enabled, PastWrite;
    forall i | 0 <= i < |s.written|
      ensures s.written[i].0 < |Next(cfg, s, a).phases| && PastWrite(Next(cfg, s, a).phases[s.written[i].0])
    {
      PastWriteStays(cfg, s, a, s.written[i].0);
    }
  }

  /** And one that finishes the lock holder's. */
  lemma WrittenGrows(cfg: Config, s: State, a: Action, sent: nat)
    requires WrittenOk(cfg, s) && Enabled(cfg, s, a)
    requires a.Finish? || a.Fail? || a.Cancel?
    requires s.phases[a.c] == Writing(sent) && sent <= |cfg.FrameOf(a.c)|
    ensures Next(cfg, s, a).written == s.written + [(a.c, sent)] && WrittenOk(cfg, Next(cfg, s, a))
  {
    hide Encode;
    var t := Next(cfg, s, a);
    assert t.written == s.written + [(a.c, sent)] && PastWrite(t.phases[a.c]);
    hide Next, Enabled;
    forall i | 0 <= i < |s.written|
      ensures s.written[i].0 < |t.phases| && PastWrite(t.phases[s.written[i].0]) && s.written[i].0 != a.c
    {
      PastWriteStays(cfg, s, a, s.written[i].0);
    }
  }

  predicate EndsWrite(s: State, a: Action) {
    a.Finish? || a.Fail? || (a.Cancel? && a.c < |s.phases| && s.phases[a.c].Writing?)
  }

  lemma WriteOk(cfg: Config, s: State, a: Action)
    requires Inv(cfg, s) && WireOk(cfg, s) && Enabled(cfg, s, a) && a.Write?
    ensures WireOk(cfg, Next(cfg, s, a))
  {
    hide Encode, Segments, Concat, WrittenOk;
    var frame, sent := cfg.FrameOf(a.c), s.phases[a.c].sent;
    assert CallOk(cfg, s, a.c);
    WrittenStays(cfg, s, a);
    hide Inv;
    assert frame[..sent] + frame[sent..sent + a.n] == frame[..sent + a.n];
    Regroup(Concat(Segments(cfg, s.written)), frame[..sent], frame[sent..sent + a.n]);
  }

  lemma ReleaseOk(cfg: Config, s: State, a: Action)
    requires Inv(cfg, s) && WireOk(cfg, s) && Enabled(cfg, s, a) && EndsWrite(s, a)
    ensures WireOk(cfg, Next(cfg, s, a))
  {
    hide Encode, WrittenOk, Concat, Segments;
    assert CallOk(cfg, s, a.c);
    hide Inv;
    var t := Next(cfg, s, a);
    var sent := s.phases[a.c].sent;
    WrittenGrows(cfg, s, a, sent);
    AppendSegment(cfg, s.written, (a.c, sent));
    assert t.wire == s.wire && Partial(cfg, t) == [] && Partial(cfg, s) == Segment(cfg, (a.c, sent));
    hide Next, Enabled, Partial, Segment;
    assert s.wire + [] == s.wire;
  }

  /** Any other action leaves the wire and the lock holder's part of it alone. */
  lemma WireStays(cfg: Config, s: State, a: Action)
    requires Enabled(cfg, s, a) && !a.Write? && !EndsWrite(s, a)
    ensures Next(cfg, s, a).wire == s.wire && Next(cfg, s, a).written == s.written
  {
    hide Encode;
  }

  lemma PartialStays(cfg: Config, s: State, a: Action)
    requires Enabled(cfg, s, a) && !a.Write? && !EndsWrite(s, a)
    ensures Partial(cfg, Next(cfg, s, a)) == Partial(cfg, s)
  {
    hide Encode;
    assert a.Lock? ==> Segment(cfg, (a.c, 0)) == [];
    hide Segment;
  }

  lemma {:induction false} RunWire(cfg: Config, actions: seq<Action>)
    requires Run(cfg, actions).Some?
    ensures Inv(cfg, Run(cfg, actions).value) && WireOk(cfg, Run(cfg, actions).value)
  {
    RunInv(cfg, actions);
    if actions == [] {
      assert Init(cfg).wire == Concat([]) + [];
    } else {
      hide Inv, Enabled, Next, WireOk;
      var n := |actions| - 1;
      RunWire(cfg, actions[..n]);
      StepWire(cfg, Run(cfg, actions[..n]).value, actions[n]);
    }
  }

  lemma StepWire(cfg: Config, s: State, a: Action)
    requires Inv(cfg, s) && WireOk(cfg, s) && Enabled(cfg, s, a)
    ensures WireOk(cfg, Next(cfg, s, a))
  {
    hide Inv, Next, Enabled, Concat, Segments, WrittenOk, Partial;
    if a.Write? {
      WriteOk(cfg, s, a);
    } else if EndsWrite(s, a) {
      ReleaseOk(cfg, s, a);
    } else {
      WireStays(cfg, s, a);
      PartialStays(cfg, s, a);
      WrittenStays(cfg, s, a);
    }
  }

  // ----- Whole frames -----

  /** No write has ended inside its frame: none was cancelled or failed with part of it out. */
  ghost predicate Untorn(cfg: Config, s: State) {
    forall i :: 0 <= i < |s.written| ==>
      s.written[i].0 < |cfg.messages| && (s.written[i].1 == 0 || s.written[i].1 == |cfg.FrameOf(s.written[i].0)|)
  }

  function Writers(written: seq<(CallId, nat)>): seq<CallId> {
    if written == [] then []
    else Writers(written[..|written| - 1]) + if written[|written| - 1].1 > 0 then [written[|written| - 1].0] else []
  }

  /** The calls that have got anything onto the wire, in writer-lock order. */
  function LockOrder(s: State): seq<CallId> {
    Writers(s.written) +
    match s.writer {
      case None => []
      case Some(c) => if c < |s.phases| && s.phases[c].Writing? && s.phases[c].sent > 0 then [c] else []
    }
  }

  function FramesOf(cfg: Config, calls: seq<CallId>): seq<seq<byte>> {
    seq(|calls|, i requires 0 <= i < |calls| => if calls[i] < |cfg.messages| then cfg.FrameOf(calls[i]) else [])
  }

  function PayloadsOf(cfg: Config, calls: seq<CallId>): seq<seq<byte>> {
    seq(|calls|, i requires 0 <= i < |calls| => if calls[i] < |cfg.messages| then cfg.messages[calls[i]].bytes else [])
  }

  lemma {:induction false} WholeSegments(cfg: Config, written: seq<(CallId, nat)>)
    requires forall i :: 0 <= i < |written| ==>
               written[i].0 < |cfg.messages| && (written[i].1 == 0 || written[i].1 == |cfg.FrameOf(written[i].0)|)
    ensures Concat(Segments(cfg, written)) == Concat(FramesOf(cfg, Writers(written)))
  {
    hide Encode;
    if written != [] {
      var n := |written| - 1;
      var w := written[n];
      WholeSegments(cfg, written[..n]);
      assert written[..n] + [w] == written;
      AppendSegment(cfg, written[..n], w);
      var before := FramesOf(cfg, Writers(written[..n]));
      if w.1 > 0 {
        assert FramesOf(cfg, Writers(written)) == before + [cfg.FrameOf(w.0)];
        ConcatSnoc(before, cfg.FrameOf(w.0));
        assert cfg.FrameOf(w.0)[..w.1] == cfg.FrameOf(w.0);
      } else {
        assert FramesOf(cfg, Writers(written)) == before;
        assert Segment(cfg, w) == [];
      }
    }
  }

  /** What the lock holder has written is a beginning of its frame. */
  lemma PartialIsBeginning(cfg: Config, s: State)
    requires Inv(cfg, s)
    ensures s.writer.None? ==> Partial(cfg, s) == []
    ensures s.writer.Some? ==>
              var c := s.writer.value;
              && c < |s.phases| == |cfg.messages| && s.phases[c].Writing? && s.phases[c].sent <= |cfg.FrameOf(c)|
              && Partial(cfg, s) == cfg.FrameOf(c)[..s.phases[c].sent]
  {
    hide Encode;
    if s.writer.Some? {
      assert CallOk(cfg, s, s.writer.value);
    }
  }

  lemma OneMoreFrame(cfg: Config, calls: seq<CallId>, c: CallId)
    requires c < |cfg.messages|
    ensures Concat(FramesOf(cfg, calls + [c])) == Concat(FramesOf(cfg, calls)) + cfg.FrameOf(c)
  {
    hide Encode, Concat;
    assert FramesOf(cfg, calls + [c]) == FramesOf(cfg, calls) + [cfg.FrameOf(c)];
    ConcatSnoc(FramesOf(cfg, calls), cfg.FrameOf(c));
  }

  lemma LongerByBeginning(base: seq<byte>, frame: seq<byte>, n: nat)
    requires n <= |frame|
    ensures base + frame[..n] <= base + frame
    ensures n == 0 ==> base + frame[..n] == base
  {
  }

  /** Frames never interleave: in every reachable state in which no write has been torn, the wire is whole
      frames in lock order, then a prefix of the lock holder's frame. */
  lemma WholeFramesInLockOrder(cfg: Config, s: State)
    requires Inv(cfg, s) && WireOk(cfg, s) && Untorn(cfg, s)
    ensures s.wire == Concat(FramesOf(cfg, Writers(s.written))) + Partial(cfg, s)
    ensures s.writer.None? ==> Partial(cfg, s) == []
    ensures s.writer.Some? ==> Partial(cfg, s) <= cfg.FrameOf(s.writer.value)
    ensures s.wire <= Concat(FramesOf(cfg, LockOrder(s)))
  {
    WholeSegments(cfg, s.written);
    PartialIsBeginning(cfg, s);
    hide Encode, Concat, Segments, FramesOf, Partial, Untorn, Inv, Writers, WrittenOk;
    var whole := Writers(s.written);
    var base := Concat(FramesOf(cfg, whole));
    if s.writer.Some? {
      var c := s.writer.value;
      LongerByBeginning(base, cfg.FrameOf(c), s.phases[c].sent);
      OneMoreFrame(cfg, whole, c);
    }
    assert whole + [] == whole && base + [] == base;
  }
}
