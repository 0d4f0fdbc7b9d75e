/** Byte-delimited framing: each message is followed by one delimiter byte. */
module Delimited {
  import opened Wrappers
  import opened Bytes
  import opened Codec

  function Encode(d: byte, payload: seq<byte>): seq<byte> { payload + [d] }

  function Decode(d: byte, src: seq<byte>): (r: Decoded)
    ensures r.Frame? ==> 1 <= r.consumed <= |src|
  {
    match IndexOf(d, src)
    case None => NeedMore
    case Some(i) => Frame(src[..i], i + 1)
  }

  lemma DecodeAppend(d: byte, src: seq<byte>, t: seq<byte>)
    requires Decode(d, src).Frame?
    ensures Decode(d, src + t) == Decode(d, src)
  {
    IndexOfAppend(d, src, t);
    var i := IndexOf(d, src).value;
    assert (src + t)[..i] == src[..i];
  }

  lemma FrameIsLocal(d: byte, src: seq<byte>)
    requires Decode(d, src).Frame?
    ensures Decode(d, src[..Decode(d, src).consumed]) == Decode(d, src)
  {
    var i := IndexOf(d, src).value;
    IndexOfIs(d, src[..i + 1], i);
    assert src[..i + 1][..i] == src[..i];
  }

  lemma DecodeEncoded(d: byte, payload: seq<byte>, t: seq<byte>)
    requires d !in payload
    ensures Decode(d, Encode(d, payload) + t) == Frame(payload, |payload| + 1)
  {
    var src := Encode(d, payload) + t;
    assert forall j :: 0 <= j < |payload| ==> src[j] == payload[j] && payload[j] in payload;
    IndexOfIs(d, src, |payload|);
    assert src[..|payload|] == payload;
  }

  lemma DecodePrefix(d: byte, payload: seq<byte>, k: nat)
    requires d !in payload && k <= |payload|
    ensures Decode(d, Encode(d, payload)[..k]) == NeedMore
  {
    assert forall j :: 0 <= j < k ==> Encode(d, payload)[..k][j] == payload[j] && payload[j] in payload;
  }

  /** A delimiter inside the payload ends the frame early, so the payload comes back exactly without one. */
  lemma DelimiterMustBeAbsent(d: byte, payload: seq<byte>)
    ensures Decode(d, Encode(d, payload)) == Frame(payload, |payload| + 1) <==> d !in payload
  {
    if d in payload {
      IndexOfAppend(d, payload, [d]);
    } else {
      DecodeEncoded(d, payload, []);
      assert Encode(d, payload) + [] == Encode(d, payload);
    }
  }
}
