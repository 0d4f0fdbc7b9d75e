/** The framings of the transport module and the laws every one of them obeys. */
module Framing {
  import opened Wrappers
  import opened Bytes
  import opened Codec
  import ContentLength
  import Delimited
  import Netstring

  datatype Framing = DelimitedFraming(delimiter: byte) | NewlineFraming | NetstringFraming | ContentLengthFraming

  /** The bytes `encode` appends to its destination. */
  function Encode(f: Framing, payload: seq<byte>): seq<byte> {
    match f
    case DelimitedFraming(d) => Delimited.Encode(d, payload)
    case NewlineFraming => Delimited.Encode(LF, payload)
    case NetstringFraming => Netstring.Encode(payload)
    case ContentLengthFraming => ContentLength.Encode(payload)
  }

  function Decode(f: Framing, src: seq<byte>): (r: Decoded)
    ensures r.Frame? ==> 1 <= r.consumed <= |src|
  {
    match f
    case DelimitedFraming(d) => Delimited.Decode(d, src)
    case NewlineFraming => Delimited.Decode(LF, src)
    case NetstringFraming => Netstring.Decode(src)
    case ContentLengthFraming => ContentLength.Decode(src)
  }

  predicate TakeOnEof(f: Framing) { f.DelimitedFraming? || f.NewlineFraming? }

  /** Payloads the framing can carry: a delimiter may not occur in them, and they fit in a `Vec`. */
  predicate Encodable(f: Framing, payload: seq<byte>) {
    && |payload| <= VEC_MAX
    && (f.DelimitedFraming? ==> f.delimiter !in payload)
    && (f.NewlineFraming? ==> LF !in payload)
  }

  /** `w` is on the wire exactly one frame carrying `payload`: it decodes to it whatever follows, and
      no part of it decodes to anything. */
  ghost predicate IsFrame(f: Framing, w: seq<byte>, payload: seq<byte>) {
    && w != []
    && (forall t: seq<byte> :: Decode(f, w + t) == Frame(payload, |w|))
    && (forall k :: 0 <= k < |w| ==> Decode(f, w[..k]) == NeedMore)
  }

  /** Success is stable under arrival of more bytes, and so is every error but the length guards. */
  lemma DecodeAppend(f: Framing, src: seq<byte>, t: seq<byte>)
    requires !Decode(f, src).NeedMore?
    requires Decode(f, src).Bad? ==> !IsLengthGuard(Decode(f, src).error)
    ensures Decode(f, src + t) == Decode(f, src)
  {
    match f
    case NetstringFraming => Netstring.DecodeAppend(src, t);
    case ContentLengthFraming => ContentLength.DecodeAppend(src, t);
    case DelimitedFraming(d) => Delimited.DecodeAppend(d, src, t);
    case NewlineFraming => Delimited.DecodeAppend(LF, src, t);
  }

  /** An error survives every continuation of the stream exactly when it is not a length guard. */
  lemma ErrorStability(f: Framing, src: seq<byte>)
    requires Decode(f, src).Bad?
    ensures (forall t: seq<byte> :: Decode(f, src + t) == Decode(f, src)) <==> !IsLengthGuard(Decode(f, src).error)
  {
    if IsLengthGuard(Decode(f, src).error) {
      if f.NetstringFraming? {
        assert COLON in src + [COLON] by { assert (src + [COLON])[|src|] == COLON; }
        assert Decode(f, src + [COLON]) != Decode(f, src);
      } else {
        var s := src + ContentLength.SEPARATOR;
        assert s[|src|..][..4] == ContentLength.SEPARATOR;
        ContentLength.StartsWithSeparator(s, |src|);
        assert ContentLength.HeaderEnd(s).Some?;
        assert Decode(f, s) != Decode(f, src);
      }
    } else {
      forall t: seq<byte>
        ensures Decode(f, src + t) == Decode(f, src)
      {
        DecodeAppend(f, src, t);
      }
    }
  }

  /** A frame that decodes is a frame by itself: the bytes after it play no part. */
  lemma FrameIsLocal(f: Framing, src: seq<byte>)
    requires Decode(f, src).Frame?
    ensures Decode(f, src[..Decode(f, src).consumed]) == Decode(f, src)
  {
    match f
    case DelimitedFraming(d) => Delimited.FrameIsLocal(d, src);
    case NewlineFraming => Delimited.FrameIsLocal(LF, src);
    case NetstringFraming => Netstring.FrameIsLocal(src);
    case ContentLengthFraming => ContentLength.FrameIsLocal(src);
  }

  lemma DecodeEncoded(f: Framing, payload: seq<byte>, t: seq<byte>)
    requires Encodable(f, payload)
    ensures Decode(f, Encode(f, payload) + t) == Frame(payload, |Encode(f, payload)|)
  {
    match f
    case NetstringFraming => Netstring.DecodeEncoded(payload, t);
    case ContentLengthFraming =>
      ContentLength.EncodeIsMessage(payload);
      ContentLength.DecodeMessage([ContentLength.LengthLine(payload)], payload, t);
    case DelimitedFraming(d) => Delimited.DecodeEncoded(d, payload, t);
    case NewlineFraming => Delimited.DecodeEncoded(LF, payload, t);
  }

  lemma DecodePrefix(f: Framing, payload: seq<byte>, k: nat)
    requires Encodable(f, payload)
    requires k < |Encode(f, payload)|
    ensures Decode(f, Encode(f, payload)[..k]) == NeedMore
  {
    match f
    case NetstringFraming => Netstring.DecodePrefix(payload, k);
    case ContentLengthFraming =>
      ContentLength.EncodeIsMessage(payload);
      ContentLength.DecodeMessagePrefix([ContentLength.LengthLine(payload)], payload, k);
    case DelimitedFraming(d) => Delimited.DecodePrefix(d, payload, k);
    case NewlineFraming => Delimited.DecodePrefix(LF, payload, k);
  }

  /** What the encoder writes is one frame carrying the payload. */
  lemma EncodeIsFrame(f: Framing, payload: seq<byte>)
    requires Encodable(f, payload)
    ensures IsFrame(f, Encode(f, payload), payload)
  {
    forall t: seq<byte>
      ensures Decode(f, Encode(f, payload) + t) == Frame(payload, |Encode(f, payload)|)
    {
      DecodeEncoded(f, payload, t);
    }
    forall k | 0 <= k < |Encode(f, payload)|
      ensures Decode(f, Encode(f, payload)[..k]) == NeedMore
    {
      DecodePrefix(f, payload, k);
    }
  }

  /** So is any Content-Length message, whatever other headers it has and in whatever order. */
  lemma MessageIsFrame(lines: seq<seq<byte>>, payload: seq<byte>)
    requires lines != [] && ContentLength.Announces(lines, |payload|)
    requires |ContentLength.Message(lines, payload)| <= USIZE_MAX
    requires |ContentLength.Join(lines)| + 3 <= ContentLength.MAX_HEADER_BYTES
    ensures IsFrame(ContentLengthFraming, ContentLength.Message(lines, payload), payload)
  {
    var w := ContentLength.Message(lines, payload);
    forall t: seq<byte>
      ensures Decode(ContentLengthFraming, w + t) == Frame(payload, |w|)
    {
      ContentLength.DecodeMessage(lines, payload, t);
    }
    forall k | 0 <= k < |w|
      ensures Decode(ContentLengthFraming, w[..k]) == NeedMore
    {
      ContentLength.DecodeMessagePrefix(lines, payload, k);
    }
  }
}
