/** The I/O drivers over a framing: the incremental reader and the writer, with the buffers they
    update in place. The streams underneath are oracles: a list of the answers they will give. */
module FramedIo {
  import opened Wrappers
  import opened Bytes
  import opened Codec
  import opened Framing
  import opened Receive

  /** A byte stream to read from. */
  class ByteSource {
    var events: seq<ReadEvent>

    constructor (events: seq<ReadEvent>)
      ensures this.events == events
    {
      this.events := events;
    }

    method Read() returns (r: ReadEvent)
      modifies this
      ensures old(events) == [] ==> r == Data([]) && events == []
      ensures old(events) != [] ==> r == old(events)[0] && events == old(events)[1..]
      ensures Flatten(old(events)) == (if r.Data? then r.bytes else []) + Flatten(events)
    {
      if events == [] { return Data([]); }
      r := events[0];
      events := events[1..];
    }
  }

  /** The decode and read-buffer machinery shared by the reader and the duplex connection. */
  class ReadCore {
    var readBuf: seq<byte>
    const maxFrameSize: nat
    /** Every byte read so far, every byte handed out so far, and the longest the buffer has been. */
    ghost var received: seq<byte>
    ghost var drained: seq<byte>
    ghost var peak: nat

    /** Nothing is lost or invented between the stream and the frames, and the buffer stays bounded. */
    ghost predicate Valid()
      reads this
    {
      && received == drained + readBuf
      && |readBuf| <= peak
      && (maxFrameSize > 0 ==> peak <= maxFrameSize + CHUNK_SIZE - 1)
    }

    constructor (maxFrameSize: nat)
      ensures Valid() && readBuf == [] && received == [] && this.maxFrameSize == maxFrameSize
    {
      readBuf := [];
      this.maxFrameSize := maxFrameSize;
      received, drained, peak := [], [], 0;
    }

    /** Growing the buffer, reading into the tail and shrinking back appends what was read. */
    static lemma ReadInPlace(buf: seq<byte>, room: seq<byte>, got: seq<byte>)
      requires |got| <= |room|
      ensures var start, grown := |buf|, buf + room;
              (grown[..start] + got + grown[start + |got|..])[..start + |got|] == buf + got
    {
      assert (buf + room)[..|buf|] == buf;
    }

    /** Read one chunk into the tail of the buffer. The number of bytes read; zero is end of stream. */
    method Fill(inner: ByteSource) returns (r: Result<nat, TransportError>)
      requires Valid()
      modifies this, inner
      ensures Valid() && drained == old(drained)
      ensures received + Flatten(inner.events) == old(received) + Flatten(old(inner.events))
      ensures Full(maxFrameSize, |old(readBuf)|) ==>
                r == Err(TooLarge) && readBuf == old(readBuf) && received == old(received) && inner.events == old(inner.events)
      ensures !Full(maxFrameSize, |old(readBuf)|) ==>
                var e: ReadEvent := if old(inner.events) == [] then Data([]) else old(inner.events)[0];
                && inner.events == (if old(inner.events) == [] then [] else old(inner.events)[1..])
                && match e {
                     case Fault => r == Err(Io) && readBuf == old(readBuf) && received == old(received)
                     case Data(b) =>
                       && readBuf == old(readBuf) + b && received == old(received) + b
                       && r == if Over(maxFrameSize, |readBuf|) then Err(TooLarge) else Ok(|b|)
                   }
    {
      hide Flatten;
      var start := |readBuf|;
      if maxFrameSize > 0 && start >= maxFrameSize {
        return Err(TooLarge);
      }
      readBuf := readBuf + seq(CHUNK_SIZE, _ => 0);
      peak := if |readBuf| > peak then |readBuf| else peak;
      var e := inner.Read();
      if e.Fault? {
        readBuf := readBuf[..start];
        return Err(Io);
      }
      var n := |e.bytes|;
      readBuf := readBuf[..start] + e.bytes + readBuf[start + n..];
      readBuf := readBuf[..start + n];
      ReadInPlace(old(readBuf), seq(CHUNK_SIZE, _ => 0), e.bytes);
      received := received + e.bytes;
      Regroup(old(received), e.bytes, Flatten(inner.events));
      Regroup(drained, old(readBuf), e.bytes);
      if maxFrameSize > 0 && |readBuf| > maxFrameSize {
        return Err(TooLarge);
      }
      return Ok(n);
    }

    /** One complete payload, or the end of the stream. */
    method Recv(inner: ByteSource, framing: Framing) returns (r: Outcome)
      requires Valid()
      modifies this, inner
      ensures Valid()
      ensures Received(r, readBuf, inner.events) == Receive.Recv(framing, maxFrameSize, old(readBuf), old(inner.events))
      ensures received + Flatten(inner.events) == old(received) + Flatten(old(inner.events))
      ensures old(drained) <= drained
    {
      hide Decode, Flatten;
      while true
        invariant Valid() && drained == old(drained)
        invariant received + Flatten(inner.events) == old(received) + Flatten(old(inner.events))
        invariant Receive.Recv(framing, maxFrameSize, readBuf, inner.events)
                  == Receive.Recv(framing, maxFrameSize, old(readBuf), old(inner.events))
        decreases |inner.events|
      {
        var d := Decode(framing, readBuf);
        if d.Bad? {
          return Failed(TransportError.Codec(d.error));
        }
        if d.Frame? {
          drained := drained + readBuf[..d.consumed];
          readBuf := readBuf[d.consumed..];
          return Message(d.message);
        }
        ghost var before := readBuf;
        var n := Fill(inner);
        if n.Err? {
          return Failed(n.error);
        }
        if n.value == 0 {
          assert readBuf == before + [] == before;
          if TakeOnEof(framing) {
            if readBuf == [] {
              return End;
            }
            r := Message(readBuf);
            drained := drained + readBuf;
            readBuf := [];
            return;
          }
          return if readBuf == [] then End else Failed(MidFrame);
        }
      }
    }
  }

  /** What a byte sink answers to one `write`: how many bytes it takes at most, or an I/O error. */
  datatype WriteResult = Takes(n: nat) | WriteFault

  /** A byte stream to write to; once its answers run out it takes everything. */
  class ByteSink {
    var written: seq<byte>
    var answers: seq<WriteResult>
    const flushes: bool

    constructor (answers: seq<WriteResult>, flushes: bool)
      ensures written == [] && this.answers == answers && this.flushes == flushes
    {
      written := [];
      this.answers := answers;
      this.flushes := flushes;
    }

    method Write(buf: seq<byte>) returns (r: Option<nat>)
      modifies this
      ensures r.Some? ==> r.value <= |buf| && written == old(written) + buf[..r.value]
      ensures r.None? ==> written == old(written)
    {
      if answers == [] {
        written := written + buf;
        assert buf[..|buf|] == buf;
        return Some(|buf|);
      }
      var a := answers[0];
      answers := answers[1..];
      if a.WriteFault? { return None; }
      var n := if a.n < |buf| then a.n else |buf|;
      written := written + buf[..n];
      r := Some(n);
    }
  }

  /** The write half of a framed connection. */
  class FramedWriter {
    var writeBuf: seq<byte>
    const framing: Framing
    const inner: ByteSink

    constructor (inner: ByteSink, framing: Framing)
      ensures this.inner == inner && this.framing == framing
    {
      writeBuf := [];
      this.inner, this.framing := inner, framing;
    }

    /** A write that takes more bytes extends the part that is out. */
    static lemma OneMoreWrite(base: seq<byte>, frame: seq<byte>, sent: nat, n: nat)
      requires sent + n <= |frame|
      ensures base + frame[..sent] + frame[sent..][..n] == base + frame[..sent + n]
    {
      assert frame[..sent] + frame[sent..][..n] == frame[..sent + n];
      Regroup(base, frame[..sent], frame[sent..][..n]);
    }

    /** Frame and write one payload: the whole frame on success, some prefix of it on failure. */
    method Send(payload: seq<byte>) returns (ok: bool)
      modifies this, inner
      ensures writeBuf == Encode(framing, payload)
      ensures exists n :: 0 <= n <= |writeBuf| && inner.written == old(inner.written) + writeBuf[..n] && (ok ==> n == |writeBuf|)
    {
      hide Encode;
      writeBuf := [];
      writeBuf := writeBuf + Encode(framing, payload);
      ghost var base, frame := inner.written, writeBuf;
      var sent := 0;
      assert base + frame[..0] == base;
      while sent < |writeBuf|
        invariant sent <= |frame| && writeBuf == frame && frame == Encode(framing, payload)
        invariant inner.written == base + frame[..sent]
      {
        var n := inner.Write(writeBuf[sent..]);
        if n.None? || n.value == 0 {
          return false;
        }
        OneMoreWrite(base, frame, sent, n.value);
        sent := sent + n.value;
      }
      return inner.flushes;
    }
  }
}
