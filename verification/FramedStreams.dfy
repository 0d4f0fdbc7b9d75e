/** Receiving a stream of whole frames: what `recv` returns, and exactly which size cap is enough. */
module FramedStreams {
  import opened Bytes
  import opened Codec
  import opened Framing
  import opened Receive

  /** `ws[i]` is on the wire one frame carrying `ps[i]`. */
  ghost predicate AreFrames(f: Framing, ws: seq<seq<byte>>, ps: seq<seq<byte>>) {
    |ws| == |ps| && forall i :: 0 <= i < |ws| ==> IsFrame(f, ws[i], ps[i])
  }

  function EncodeAll(f: Framing, ps: seq<seq<byte>>): seq<seq<byte>> {
    seq(|ps|, i requires 0 <= i < |ps| => Encode(f, ps[i]))
  }

  lemma EncodeAllAreFrames(f: Framing, ps: seq<seq<byte>>)
    requires forall i :: 0 <= i < |ps| ==> Encodable(f, ps[i])
    ensures AreFrames(f, EncodeAll(f, ps), ps)
  {
    forall i | 0 <= i < |ps|
      ensures IsFrame(f, EncodeAll(f, ps)[i], ps[i])
    {
      EncodeIsFrame(f, ps[i]);
    }
  }

  /** A frame on its way in: the decoder waits for the last byte and then takes exactly the frame. */
  lemma DecodeFramePrefix(f: Framing, w: seq<byte>, p: seq<byte>, buf: seq<byte>, more: seq<byte>, t: seq<byte>)
    requires IsFrame(f, w, p) && buf + more == w + t
    ensures Decode(f, buf) == if |buf| < |w| then NeedMore else Frame(p, |w|)
    ensures |buf| >= |w| ==> buf[|w|..] + more == t
  {
    hide Decode;
    if |buf| < |w| {
      assert buf == (buf + more)[..|buf|] == w[..|buf|];
    } else {
      assert buf == w + buf[|w|..] by {
        assert buf[..|w|] == (buf + more)[..|w|] == w;
      }
      assert buf[|w|..] + more == (buf + more)[|w|..] == t;
    }
  }

  lemma FirstAndRest(f: Framing, ws: seq<seq<byte>>, ps: seq<seq<byte>>)
    requires AreFrames(f, ws, ps) && ws != []
    ensures ps != [] && IsFrame(f, ws[0], ps[0]) && AreFrames(f, ws[1..], ps[1..])
    ensures Concat(ws) == ws[0] + Concat(ws[1..])
  {
    hide IsFrame;
  }

  /** A session with one more message in front. */
  lemma InFront(ps: seq<seq<byte>>, more: seq<seq<byte>>, fin: Outcome)
    requires ps != []
    ensures Session(ps[1..] + more, fin).After(ps[0]) == Session(ps + more, fin)
  {
    assert [ps[0]] + (ps[1..] + more) == ps + more;
  }

  lemma {:induction false} ReferenceOfFrames(f: Framing, ws: seq<seq<byte>>, ps: seq<seq<byte>>, t: seq<byte>)
    requires AreFrames(f, ws, ps)
    ensures Reference(f, Concat(ws) + t) == Session(ps + Reference(f, t).messages, Reference(f, t).fin)
  {
    hide Decode, Reference;
    if ws == [] {
      assert Concat(ws) + t == t;
    } else {
      FirstAndRest(f, ws, ps);
      hide AreFrames, Concat;
      var rest := Concat(ws[1..]) + t;
      Regroup(ws[0], Concat(ws[1..]), t);
      assert Decode(f, ws[0] + rest) == Frame(ps[0], |ws[0]|);
      hide IsFrame;
      ReferenceOfFrames(f, ws[1..], ps[1..], t);
      ReferenceStep(f, ws[0] + rest);
      assert (ws[0] + rest)[|ws[0]|..] == rest;
      InFront(ps, Reference(f, t).messages, Reference(f, t).fin);
    }
  }

  function Min(a: nat, b: nat): nat { if a <= b then a else b }

  /** The cap lets frame `w` through with `behind` more bytes to come: the last read that completes the
      frame may bring all of them, or as many as fit in a chunk. */
  predicate CapAdmits(cap: nat, w: seq<byte>, behind: nat) {
    cap == 0 || |w| + Min(behind, CHUNK_SIZE - 1) <= cap
  }

  /** The cap lets every frame of the stream through, each with the rest of the stream behind it. */
  ghost predicate CapAdmitsAll(cap: nat, ws: seq<seq<byte>>) {
    forall i :: 0 <= i < |ws| ==> CapAdmits(cap, ws[i], |Concat(ws[i + 1..])|)
  }

  lemma AdmitsRest(cap: nat, ws: seq<seq<byte>>)
    requires ws != []
    ensures CapAdmitsAll(cap, ws) <==> CapAdmits(cap, ws[0], |Concat(ws[1..])|) && CapAdmitsAll(cap, ws[1..])
  {
    hide Concat;
    forall i | 0 <= i < |ws[1..]|
      ensures CapAdmits(cap, ws[1..][i], |Concat(ws[1..][i + 1..])|) <==> CapAdmits(cap, ws[i + 1], |Concat(ws[i + 2..])|)
    {
      assert ws[1..][i + 1..] == ws[i + 2..];
    }
    if CapAdmits(cap, ws[0], |Concat(ws[1..])|) && CapAdmitsAll(cap, ws[1..]) {
      forall i | 0 <= i < |ws|
        ensures CapAdmits(cap, ws[i], |Concat(ws[i + 1..])|)
      {
        if i > 0 { assert CapAdmits(cap, ws[1..][i - 1], |Concat(ws[1..][i..])|); }
      }
    }
  }

  /** While frames are arriving, one `recv` returns the first of them, whole, and leaves the rest. */
  lemma {:induction false} RecvFrame(
    f: Framing, cap: nat, buf: seq<byte>, events: seq<ReadEvent>, w: seq<byte>, p: seq<byte>, t: seq<byte>)
    requires Sound(events) && IsFrame(f, w, p) && CapAdmits(cap, w, |t|)
    requires buf + Flatten(events) == w + t
    ensures var r := Recv(f, cap, buf, events);
            r.outcome == Message(p) && Sound(r.rest) && r.buf + Flatten(r.rest) == t
    decreases |events|
  {
    hide Decode;
    DecodeFramePrefix(f, w, p, buf, Flatten(events), t);
    if |buf| < |w| {
      assert events != [];
      var b := events[0].bytes;
      Regroup(buf, b, Flatten(events[1..]));
      RecvFrame(f, cap, buf + b, events[1..], w, p, t);
    }
  }

  lemma {:induction false} EveryReadDelivers(events: seq<ReadEvent>)
    requires Sound(events)
    ensures |Flatten(events)| >= |events|
  {
    if events != [] {
      EveryReadDelivers(events[1..]);
    }
  }

  /** A stream of whole frames is received exactly, whatever the chunking, under a sufficient cap. */
  lemma {:induction false} FramesAreReceived(
    f: Framing, cap: nat, buf: seq<byte>, events: seq<ReadEvent>, ws: seq<seq<byte>>, ps: seq<seq<byte>>)
    requires Sound(events) && AreFrames(f, ws, ps) && CapAdmitsAll(cap, ws)
    requires buf + Flatten(events) == Concat(ws)
    ensures RecvAll(f, cap, buf, events) == Session(ps, End)
    decreases |ws|
  {
    hide Decode, Recv;
    if ws == [] {
      assert buf == [];
      EveryReadDelivers(events);
      NothingLeft(f, cap);
    } else {
      AdmitsRest(cap, ws);
      FirstAndRest(f, ws, ps);
      hide CapAdmitsAll, Concat, IsFrame, AreFrames, CapAdmits;
      RecvFrame(f, cap, buf, events, ws[0], ps[0], Concat(ws[1..]));
      var r := Recv(f, cap, buf, events);
      hide Flatten, Sound;
      FramesAreReceived(f, cap, r.buf, r.rest, ws[1..], ps[1..]);
      SessionStep(f, cap, buf, events);
      hide RecvAll;
      InFront(ps, [], End);
      assert ps[1..] + [] == ps[1..] && ps + [] == ps;
    }
  }

  // ----- The cap is exact -----

  /** The bytes of `s`, one read at a time. */
  function Drip(s: seq<byte>): seq<ReadEvent> {
    if s == [] then [] else [Data(s[..1])] + Drip(s[1..])
  }

  lemma {:induction false} DripDelivers(s: seq<byte>, events: seq<ReadEvent>)
    requires Sound(events)
    ensures Sound(Drip(s) + events)
    ensures Flatten(Drip(s) + events) == s + Flatten(events)
  {
    if s == [] {
      assert Drip(s) + events == events;
    } else {
      DripDelivers(s[1..], events);
      assert Drip(s) + events == [Data(s[..1])] + (Drip(s[1..]) + events);
      Regroup(s[..1], s[1..], Flatten(events));
      assert s[..1] + s[1..] == s;
    }
  }

  /** All but the last byte of a frame arrive one by one; then the last with bytes behind it that overrun
      the cap. */
  lemma {:induction false} DripOverruns(
    f: Framing, cap: nat, w: seq<byte>, p: seq<byte>, k: nat, chunk: seq<byte>, events: seq<ReadEvent>)
    requires IsFrame(f, w, p) && k < |w| && 1 <= |chunk| <= CHUNK_SIZE
    requires 0 < cap < |w| - 1 + |chunk|
    ensures Recv(f, cap, w[..k], Drip(w[k..|w| - 1]) + ([Data(chunk)] + events)).outcome == Failed(TooLarge)
    decreases |w| - k
  {
    hide Decode;
    assert Decode(f, w[..k]) == NeedMore;
    var s := w[k..|w| - 1];
    if s == [] {
      assert Drip(s) + ([Data(chunk)] + events) == [Data(chunk)] + events;
    } else {
      DripOverruns(f, cap, w, p, k + 1, chunk, events);
      assert s[1..] == w[k + 1..|w| - 1];
      assert Drip(s) + ([Data(chunk)] + events) == [Data(s[..1])] + (Drip(s[1..]) + ([Data(chunk)] + events));
      assert w[..k] + s[..1] == w[..k + 1];
    }
  }

  /** All of a frame arrives one byte at a time. */
  lemma {:induction false} DripDeliversFrame(
    f: Framing, cap: nat, w: seq<byte>, p: seq<byte>, k: nat, events: seq<ReadEvent>)
    requires IsFrame(f, w, p) && k <= |w| && (cap == 0 || |w| <= cap)
    ensures Recv(f, cap, w[..k], Drip(w[k..]) + events) == Received(Message(p), [], events)
    decreases |w| - k
  {
    hide Decode;
    var s := w[k..];
    if s == [] {
      assert Drip(s) + events == events;
      assert w[..k] == w + [];
    } else {
      assert Decode(f, w[..k]) == NeedMore;
      hide IsFrame;
      DripDeliversFrame(f, cap, w, p, k + 1, events);
      assert s[1..] == w[k + 1..];
      assert Drip(s) + events == [Data(s[..1])] + (Drip(s[1..]) + events);
      hide Drip;
      assert w[..k] + s[..1] == w[..k + 1];
      assert |s[..1]| == 1 && !Over(cap, k + 1) && !Full(cap, k);
      var first, rest := Data(s[..1]), Drip(s[1..]) + events;
      assert ([first] + rest)[0] == first && ([first] + rest)[1..] == rest;
    }
  }

  lemma ChunkInFront(chunk: seq<byte>, tail: seq<ReadEvent>)
    requires 1 <= |chunk| <= CHUNK_SIZE && Sound(tail)
    ensures Sound([Data(chunk)] + tail) && Flatten([Data(chunk)] + tail) == chunk + Flatten(tail)
  {
    assert ([Data(chunk)] + tail)[1..] == tail;
  }

  lemma FrameNotEmpty(f: Framing, w: seq<byte>, p: seq<byte>)
    requires IsFrame(f, w, p)
    ensures w != []
  {
    hide Decode;
  }

  lemma Reassemble(w: seq<byte>, n: nat, t: seq<byte>, m: nat)
    requires n <= |w| && m <= |t|
    ensures w[..n] + ((w[n..] + t[..m]) + (t[m..] + [])) == w + t
  {
  }

  /** A chunking that a smaller cap does not survive. */
  lemma OverrunningReads(f: Framing, cap: nat, w: seq<byte>, p: seq<byte>, t: seq<byte>) returns (events: seq<ReadEvent>)
    requires IsFrame(f, w, p) && !CapAdmits(cap, w, |t|)
    ensures Sound(events) && Flatten(events) == w + t
    ensures Recv(f, cap, [], events).outcome == Failed(TooLarge)
  {
    hide Decode, Recv, IsFrame;
    assert w != [] by { FrameNotEmpty(f, w, p); }
    var n, m := |w| - 1, Min(|t|, CHUNK_SIZE - 1);
    var chunk := w[n..] + t[..m];
    DripDelivers(t[m..], []);
    var tail := Drip(t[m..]) + [];
    ChunkInFront(chunk, tail);
    assert Flatten([]) == [];
    hide Flatten, Drip, Sound;
    DripDelivers(w[..n], [Data(chunk)] + tail);
    events := Drip(w[..n]) + ([Data(chunk)] + tail);
    Reassemble(w, n, t, m);
    DripOverruns(f, cap, w, p, 0, chunk, tail);
    assert w[0..n] == w[..n] && w[..0] == [];
  }

  /** A frame gets through every chunking exactly when the cap is zero or at least the frame plus what is
      behind it, up to 4095 bytes of that: the cap bounds the whole buffer, not the frame. */
  lemma CapIsExact(f: Framing, cap: nat, w: seq<byte>, p: seq<byte>, t: seq<byte>)
    requires IsFrame(f, w, p)
    ensures (forall events: seq<ReadEvent> :: Sound(events) && Flatten(events) == w + t ==>
               Recv(f, cap, [], events).outcome == Message(p))
            <==> CapAdmits(cap, w, |t|)
  {
    hide Decode, Recv;
    if CapAdmits(cap, w, |t|) {
      forall events: seq<ReadEvent> | Sound(events) && Flatten(events) == w + t
        ensures Recv(f, cap, [], events).outcome == Message(p)
      {
        assert [] + Flatten(events) == w + t;
        RecvFrame(f, cap, [], events, w, p, t);
      }
    } else {
      var events := OverrunningReads(f, cap, w, p, t);
    }
  }

  /** A chunking of a stream of frames that a cap too small for one of them does not survive. */
  lemma {:induction false} OverrunningSession(f: Framing, cap: nat, ws: seq<seq<byte>>, ps: seq<seq<byte>>)
    returns (events: seq<ReadEvent>)
    requires AreFrames(f, ws, ps) && !CapAdmitsAll(cap, ws)
    ensures Sound(events) && Flatten(events) == Concat(ws)
    ensures RecvAll(f, cap, [], events) != Session(ps, End)
    decreases |ws|
  {
    hide Decode, Recv;
    AdmitsRest(cap, ws);
    if !CapAdmits(cap, ws[0], |Concat(ws[1..])|) {
      events := OverrunningReads(f, cap, ws[0], ps[0], Concat(ws[1..]));
    } else {
      hide CapAdmitsAll;
      var rest := OverrunningSession(f, cap, ws[1..], ps[1..]);
      DripDelivers(ws[0], rest);
      events := Drip(ws[0]) + rest;
      DripDeliversFrame(f, cap, ws[0], ps[0], 0, rest);
      assert ws[0][..0] == [] && ws[0][0..] == ws[0];
      assert RecvAll(f, cap, [], events) == RecvAll(f, cap, [], rest).After(ps[0]);
    }
  }

  /** A whole stream of frames gets through every chunking exactly when the cap admits each of them. */
  lemma StreamCapIsExact(f: Framing, cap: nat, ws: seq<seq<byte>>, ps: seq<seq<byte>>)
    requires AreFrames(f, ws, ps)
    ensures (forall events: seq<ReadEvent> :: Sound(events) && Flatten(events) == Concat(ws) ==>
               RecvAll(f, cap, [], events) == Session(ps, End))
            <==> CapAdmitsAll(cap, ws)
  {
    hide Decode, Recv, AreFrames, CapAdmitsAll, RecvAll;
    if CapAdmitsAll(cap, ws) {
      forall events: seq<ReadEvent> | Sound(events) && Flatten(events) == Concat(ws)
        ensures RecvAll(f, cap, [], events) == Session(ps, End)
      {
        assert [] + Flatten(events) == Concat(ws);
        FramesAreReceived(f, cap, [], events, ws, ps);
      }
    } else {
      var events := OverrunningSession(f, cap, ws, ps);
    }
  }
}
