/** Netstring framing: `<len>:<payload>,`. */
module Netstring {
  import opened Wrappers
  import opened Bytes
  import opened Decimal
  import opened Codec

  const MAX_PREFIX: nat := 20

  function Encode(payload: seq<byte>): seq<byte> {
    Decimal.Print(|payload|) + [COLON] + payload + [COMMA]
  }

  /** The answer once the length before the colon is known. */
  function TakePayload(src: seq<byte>, colon: nat, len: nat): Decoded {
    var end := colon + 1 + len;
    if end > USIZE_MAX then Bad(LengthOverflow)
    else if |src| <= end then NeedMore
    else if src[end] != COMMA then Bad(MissingComma)
    else Frame(src[colon + 1..end], end + 1)
  }

  function Decode(src: seq<byte>): (r: Decoded)
    ensures r.Frame? ==> 1 <= r.consumed <= |src|
  {
    match IndexOf(COLON, src)
    case None => if |src| > MAX_PREFIX then Bad(PrefixTooLong) else NeedMore
    case Some(colon) =>
      match ParseUsize(src[..colon])
      case None => Bad(InvalidLength)
      case Some(len) => TakePayload(src, colon, len)
  }

  lemma TakePayloadAppend(src: seq<byte>, colon: nat, len: nat, t: seq<byte>)
    requires !TakePayload(src, colon, len).NeedMore?
    ensures TakePayload(src + t, colon, len) == TakePayload(src, colon, len)
  {
    var d := TakePayload(src, colon, len);
    if d.Frame? {
      assert (src + t)[colon + 1..d.consumed - 1] == src[colon + 1..d.consumed - 1];
    }
  }

  lemma DecodeAppend(src: seq<byte>, t: seq<byte>)
    requires !Decode(src).NeedMore?
    requires Decode(src).Bad? ==> !IsLengthGuard(Decode(src).error)
    ensures Decode(src + t) == Decode(src)
  {
    var colon := IndexOf(COLON, src).value;
    IndexOfAppend(COLON, src, t);
    assert (src + t)[..colon] == src[..colon];
    var len := ParseUsize(src[..colon]);
    if len.Some? {
      TakePayloadAppend(src, colon, len.value, t);
    }
  }

  lemma FrameIsLocal(src: seq<byte>)
    requires Decode(src).Frame?
    ensures Decode(src[..Decode(src).consumed]) == Decode(src)
  {
    var colon, n := IndexOf(COLON, src).value, Decode(src).consumed;
    var w := src[..n];
    IndexOfIs(COLON, w, colon);
    assert w[..colon] == src[..colon];
    TakePayloadAppend(w, colon, ParseUsize(w[..colon]).value, src[n..]);
    assert w + src[n..] == src;
  }

  /** What the decoder sees once the colon after the length has arrived. */
  lemma ReadLength(n: nat, src: seq<byte>)
    requires n <= VEC_MAX
    requires Decimal.Print(n) + [COLON] <= src
    ensures IndexOf(COLON, src) == Some(|Decimal.Print(n)|)
    ensures ParseUsize(src[..|Decimal.Print(n)|]) == Some(n)
    ensures |Decimal.Print(n)| <= MAX_PREFIX
  {
    var digits := Decimal.Print(n);
    var h := digits + [COLON];
    assert forall k :: 0 <= k < |digits| ==> src[k] == h[k] == digits[k] && IsDigit(digits[k]);
    assert src[|digits|] == h[|digits|];
    IndexOfIs(COLON, src, |digits|);
    assert src[..|digits|] == digits;
    ParsePrint(n);
    UsizeDigits(n);
  }

  lemma DecodeEncoded(payload: seq<byte>, t: seq<byte>)
    requires |payload| <= VEC_MAX
    ensures Decode(Encode(payload) + t) == Frame(payload, |Encode(payload)|)
  {
    var head := Decimal.Print(|payload|) + [COLON];
    var src := Encode(payload) + t;
    assert src == head + payload + ([COMMA] + t);
    assert head <= src;
    ReadLength(|payload|, src);
    Middle(head, payload, [COMMA] + t);
  }

  lemma DecodePrefix(payload: seq<byte>, k: nat)
    requires |payload| <= VEC_MAX
    requires k < |Encode(payload)|
    ensures Decode(Encode(payload)[..k]) == NeedMore
  {
    var digits, src := Decimal.Print(|payload|), Encode(payload)[..k];
    UsizeDigits(|payload|);
    if k > |digits| {
      assert digits + [COLON] <= src;
      ReadLength(|payload|, src);
    } else {
      assert forall i :: 0 <= i < k ==> src[i] == digits[i] && IsDigit(digits[i]);
    }
  }
}
