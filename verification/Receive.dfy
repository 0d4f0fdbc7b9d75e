/** What `ReadCore::recv` computes, as a function of the buffer and of the reads still to come, and
    the theorems about whole receiving sessions. */
module Receive {
  import opened Bytes
  import opened Codec
  import opened Framing

  /** Size of each read into the buffer tail. */
  const CHUNK_SIZE: nat := 4096

  /** One answer of the underlying stream: some bytes (none of them means end of stream) or an I/O error. */
  datatype ReadResult = Data(bytes: seq<byte>) | Fault

  type ReadEvent = e: ReadResult | e.Data? ==> |e.bytes| <= CHUNK_SIZE witness Fault

  datatype TransportError = Codec(error: FrameError) | TooLarge | MidFrame | Io

  datatype Outcome = Message(payload: seq<byte>) | End | Failed(error: TransportError)

  /** The result of one `recv`: what it returned, the buffer it left, the reads it did not make. */
  datatype Received = Received(outcome: Outcome, buf: seq<byte>, rest: seq<ReadEvent>)

  /** At end of stream the buffer is the last message, nothing, or a torn frame. */
  function AtEof(f: Framing, buf: seq<byte>, rest: seq<ReadEvent>): Received {
    if buf == [] then Received(End, [], rest)
    else if TakeOnEof(f) then Received(Message(buf), [], rest)
    else Received(Failed(MidFrame), buf, rest)
  }

  predicate Full(cap: nat, n: nat) { cap > 0 && n >= cap }

  predicate Over(cap: nat, n: nat) { cap > 0 && n > cap }

  function Recv(f: Framing, cap: nat, buf: seq<byte>, events: seq<ReadEvent>): Received
    decreases |events|
  {
    match Decode(f, buf)
    case Bad(e) => Received(Failed(Codec(e)), buf, events)
    case Frame(m, n) => Received(Message(m), buf[n..], events)
    case NeedMore =>
      if Full(cap, |buf|) then Received(Failed(TooLarge), buf, events)
      else if events == [] then AtEof(f, buf, [])
      else
        match events[0]
        case Fault => Received(Failed(Io), buf, events[1..])
        case Data(b) =>
          if b == [] then AtEof(f, buf, events[1..])
          else if Over(cap, |buf + b|) then Received(Failed(TooLarge), buf + b, events[1..])
          else Recv(f, cap, buf + b, events[1..])
  }

  /** All the bytes the reads will deliver. */
  function Flatten(events: seq<ReadEvent>): seq<byte> {
    if events == [] then []
    else (if events[0].Data? then events[0].bytes else []) + Flatten(events[1..])
  }

  /** Every read delivers at least one byte, or fails: no early end of stream. */
  ghost predicate Live(events: seq<ReadEvent>) {
    forall i :: 0 <= i < |events| ==> events[i] != Data([])
  }

  /** No read fails either. */
  ghost predicate Sound(events: seq<ReadEvent>) {
    forall i :: 0 <= i < |events| ==> events[i].Data? && events[i].bytes != []
  }

  /** What one `recv` does to the bytes it has and will have: a decoded message is the first frame of
      them, and nothing but that frame is consumed, however the bytes were cut into reads. */
  lemma {:induction false} RecvTakesFirstFrame(f: Framing, cap: nat, buf: seq<byte>, events: seq<ReadEvent>)
    requires Live(events)
    ensures var r := Recv(f, cap, buf, events);
            && Live(r.rest) && |r.rest| <= |events|
            && match r.outcome {
                 case Message(m) =>
                   var whole := buf + Flatten(events);
                   || (Decode(f, whole).Frame? && m == Decode(f, whole).message
                       && r.buf + Flatten(r.rest) == whole[Decode(f, whole).consumed..])
                   || (TakeOnEof(f) && m == whole && m != [] && Decode(f, whole).NeedMore? && r.buf == [] && r.rest == [])
                 case End => buf == [] && events == [] && Decode(f, []).NeedMore?
                 case Failed(Codec(e)) => !IsLengthGuard(e) ==> Decode(f, buf + Flatten(events)) == Bad(e)
                 case Failed(MidFrame) =>
                   var whole := buf + Flatten(events);
                   whole != [] && !TakeOnEof(f) && Decode(f, whole).NeedMore?
                 case Failed(_) => true
               }
    decreases |events|
  {
    hide Decode;
    var d := Decode(f, buf);
    if d.Frame? {
      DecodeAppend(f, buf, Flatten(events));
      assert (buf + Flatten(events))[d.consumed..] == buf[d.consumed..] + Flatten(events);
    } else if d.Bad? {
      if !IsLengthGuard(d.error) {
        DecodeAppend(f, buf, Flatten(events));
      }
    } else if events == [] {
      assert buf + Flatten(events) == buf;
    } else if events[0].Data? {
      RecvTakesFirstFrame(f, cap, buf + events[0].bytes, events[1..]);
      Regroup(buf, events[0].bytes, Flatten(events[1..]));
    }
  }

  // ----- Whole sessions -----

  /** The messages a `while let Ok(Some(..)) = recv()` loop sees, and the answer that ended it. */
  datatype Session = Session(messages: seq<seq<byte>>, fin: Outcome) {
    function After(m: seq<byte>): Session { Session([m] + messages, fin) }
  }

  lemma {:induction false} RecvShrinks(f: Framing, cap: nat, buf: seq<byte>, events: seq<ReadEvent>)
    ensures var r := Recv(f, cap, buf, events);
            && |r.rest| <= |events|
            && (r.outcome.Message? ==> |r.buf| + |Flatten(r.rest)| < |buf| + |Flatten(events)|)
    decreases |events|
  {
    if Decode(f, buf).NeedMore? && events != [] && events[0].Data? {
      RecvShrinks(f, cap, buf + events[0].bytes, events[1..]);
    }
  }

  function RecvAll(f: Framing, cap: nat, buf: seq<byte>, events: seq<ReadEvent>): Session
    decreases |buf| + |Flatten(events)|
  {
    var r := Recv(f, cap, buf, events);
    if r.outcome.Message? then
      RecvShrinks(f, cap, buf, events);
      RecvAll(f, cap, r.buf, r.rest).After(r.outcome.payload)
    else Session([], r.outcome)
  }

  /** The reference reader: decode the whole stream from the front, with no reads, buffer or cap. */
  function Messages(f: Framing, stream: seq<byte>): seq<seq<byte>>
    decreases |stream|
  {
    match Decode(f, stream)
    case Frame(m, n) => [m] + Messages(f, stream[n..])
    case _ => []
  }

  /** What the reference reader cannot decode. */
  function Leftover(f: Framing, stream: seq<byte>): seq<byte>
    decreases |stream|
  {
    match Decode(f, stream)
    case Frame(m, n) => Leftover(f, stream[n..])
    case _ => stream
  }

  /** The reference session: the reference messages, then what the framing says about the leftover. */
  function Reference(f: Framing, stream: seq<byte>): Session {
    var rest := Leftover(f, stream);
    match Decode(f, rest)
    case Bad(e) => Session(Messages(f, stream), Failed(Codec(e)))
    case _ =>
      if rest == [] then Session(Messages(f, stream), End)
      else if TakeOnEof(f) then Session(Messages(f, stream) + [rest], End)
      else Session(Messages(f, stream), Failed(MidFrame))
  }

  /** Ended by what the bytes are, not by how many had arrived when, nor by a failed read. */
  predicate Conclusive(fin: Outcome) {
    match fin
    case End => true
    case Failed(MidFrame) => true
    case Failed(Codec(e)) => !IsLengthGuard(e)
    case _ => false
  }

  lemma ReferenceStep(f: Framing, stream: seq<byte>)
    ensures var d := Decode(f, stream);
            Reference(f, stream) ==
            match d {
              case Frame(m, n) => Reference(f, stream[n..]).After(m)
              case Bad(e) => Session([], Failed(Codec(e)))
              case NeedMore =>
                if stream == [] then Session([], End)
                else if TakeOnEof(f) then Session([stream], End)
                else Session([], Failed(MidFrame))
            }
  {
    hide Decode;
    var d := Decode(f, stream);
    if d.Frame? {
      assert Messages(f, stream) == [d.message] + Messages(f, stream[d.consumed..]);
      assert Leftover(f, stream) == Leftover(f, stream[d.consumed..]);
    }
  }

  /** After the stream has been taken as the last message, the next `recv` reports the end. */
  lemma NothingLeft(f: Framing, cap: nat)
    ensures RecvAll(f, cap, [], []) == Session([], End)
  {
    assert Decode(f, []).NeedMore?;
    assert Recv(f, cap, [], []) == Received(End, [], []);
  }

  lemma SessionStep(f: Framing, cap: nat, buf: seq<byte>, events: seq<ReadEvent>)
    ensures var r := Recv(f, cap, buf, events);
            if r.outcome.Message? then RecvAll(f, cap, buf, events) == RecvAll(f, cap, r.buf, r.rest).After(r.outcome.payload)
            else RecvAll(f, cap, buf, events) == Session([], r.outcome)
  {
    hide Recv;
    RecvShrinks(f, cap, buf, events);
  }

  /** Whatever the chunking and whatever went wrong, nothing is delivered that the stream does not say. */
  lemma {:induction false} SessionIsPrefix(f: Framing, cap: nat, buf: seq<byte>, events: seq<ReadEvent>)
    requires Live(events)
    ensures RecvAll(f, cap, buf, events).messages <= Reference(f, buf + Flatten(events)).messages
    decreases |buf| + |Flatten(events)|
  {
    var r := Recv(f, cap, buf, events);
    RecvTakesFirstFrame(f, cap, buf, events);
    ReferenceStep(f, buf + Flatten(events));
    SessionStep(f, cap, buf, events);
    RecvShrinks(f, cap, buf, events);
    hide Decode, Recv, Reference, RecvAll, Flatten;
    if r.outcome.Message? {
      if Decode(f, buf + Flatten(events)).Frame? {
        SessionIsPrefix(f, cap, r.buf, r.rest);
      } else {
        NothingLeft(f, cap);
      }
    }
  }

  /** A session that ends at once, and conclusively, ends as the reference session does. */
  lemma EndIsReference(f: Framing, cap: nat, buf: seq<byte>, events: seq<ReadEvent>)
    requires Live(events)
    requires !Recv(f, cap, buf, events).outcome.Message? && Conclusive(Recv(f, cap, buf, events).outcome)
    ensures Reference(f, buf + Flatten(events)) == Session([], Recv(f, cap, buf, events).outcome)
  {
    hide Decode, Recv, Reference, IsLengthGuard;
    assert buf == [] && events == [] ==> buf + Flatten(events) == [];
    hide Flatten;
    RecvTakesFirstFrame(f, cap, buf, events);
    ReferenceStep(f, buf + Flatten(events));
  }

  /** A session that ends conclusively is the reference session: it depends on the bytes alone. */
  lemma {:induction false} SessionIsReference(f: Framing, cap: nat, buf: seq<byte>, events: seq<ReadEvent>)
    requires Live(events)
    requires Conclusive(RecvAll(f, cap, buf, events).fin)
    ensures RecvAll(f, cap, buf, events) == Reference(f, buf + Flatten(events))
    decreases |buf| + |Flatten(events)|
  {
    var r := Recv(f, cap, buf, events);
    SessionStep(f, cap, buf, events);
    if r.outcome.Message? {
      RecvTakesFirstFrame(f, cap, buf, events);
      ReferenceStep(f, buf + Flatten(events));
      RecvShrinks(f, cap, buf, events);
      hide Decode, Recv, Reference, RecvAll, Flatten;
      if Decode(f, buf + Flatten(events)).Frame? {
        SessionIsReference(f, cap, r.buf, r.rest);
      } else {
        NothingLeft(f, cap);
      }
    } else {
      hide Decode, Recv, Reference, RecvAll, Flatten;
      EndIsReference(f, cap, buf, events);
    }
  }

  /** Two ways of cutting the same bytes into reads, under any caps, give the same session, unless one
      of them is stopped by a cap, a length guard or an I/O error. */
  lemma ChunkingsAgree(f: Framing, cap1: nat, cap2: nat, events1: seq<ReadEvent>, events2: seq<ReadEvent>)
    requires Live(events1) && Live(events2) && Flatten(events1) == Flatten(events2)
    requires Conclusive(RecvAll(f, cap1, [], events1).fin)
    requires Conclusive(RecvAll(f, cap2, [], events2).fin)
    ensures RecvAll(f, cap1, [], events1) == RecvAll(f, cap2, [], events2)
  {
    SessionIsReference(f, cap1, [], events1);
    SessionIsReference(f, cap2, [], events2);
  }
}
