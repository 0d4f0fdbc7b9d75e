/** `Content-Length` header framing, as the Language Server Protocol's header part defines it. */
module ContentLength {
  import opened Wrappers
  import opened Bytes
  import opened Decimal
  import opened Codec

  const MAX_HEADER_BYTES: nat := 8 * 1024
  const SEPARATOR: seq<byte> := [CR, LF, CR, LF]
  /** `content-length` in lower case. */
  const NAME: seq<byte> := [99, 111, 110, 116, 101, 110, 116, 45, 108, 101, 110, 103, 116, 104]
  /** `Content-Length: `. */
  const PREFIX: seq<byte> := [67, 111, 110, 116, 101, 110, 116, 45, 76, 101, 110, 103, 116, 104, COLON, SPACE]

  function Encode(payload: seq<byte>): seq<byte> {
    PREFIX + Decimal.Print(|payload|) + SEPARATOR + payload
  }

  // ----- The end of the header block -----

  /** A blank line (CRLF CRLF) starts at index `i`. */
  predicate SeparatorAt(src: seq<byte>, i: nat) {
    i + 4 <= |src| && src[i] == CR && src[i + 1] == LF && src[i + 2] == CR && src[i + 3] == LF
  }

  /** `r` is the least index at which a blank line starts, if there is one. */
  ghost predicate IsHeaderEnd(src: seq<byte>, r: Option<nat>) {
    match r
    case None => forall i: nat :: !SeparatorAt(src, i)
    case Some(end) => SeparatorAt(src, end) && forall i: nat :: i < end ==> !SeparatorAt(src, i)
  }

  function HeaderEnd(src: seq<byte>): (r: Option<nat>)
    ensures IsHeaderEnd(src, r)
  {
    if |src| < 4 then None
    else if SeparatorAt(src, 0) then Some(0)
    else
      assert forall i: nat :: i > 0 && SeparatorAt(src, i) ==> SeparatorAt(src[1..], i - 1);
      match HeaderEnd(src[1..])
      case None => None
      case Some(i) =>
        assert forall j: nat :: j < i ==> (SeparatorAt(src, j + 1) <==> SeparatorAt(src[1..], j));
        Some(i + 1)
  }

  lemma HeaderEndIs(src: seq<byte>, r: Option<nat>)
    requires IsHeaderEnd(src, r)
    ensures HeaderEnd(src) == r
  {
    var h := HeaderEnd(src);
    assert IsHeaderEnd(src, h);
    assert r.Some? ==> SeparatorAt(src, r.value);
  }

  lemma HeaderEndAppend(src: seq<byte>, t: seq<byte>)
    requires HeaderEnd(src).Some?
    ensures HeaderEnd(src + t) == HeaderEnd(src)
  {
    var end := HeaderEnd(src).value;
    forall i: nat | i < end
      ensures !SeparatorAt(src + t, i)
    {
      assert SeparatorAt(src + t, i) ==> SeparatorAt(src, i);
    }
    HeaderEndIs(src + t, Some(end));
  }

  lemma StartsWithSeparator(src: seq<byte>, i: nat)
    requires i <= |src|
    ensures SEPARATOR <= src[i..] <==> SeparatorAt(src, i)
  {
    if i + 4 <= |src| {
      assert src[i..][..4] == [src[i], src[i + 1], src[i + 2], src[i + 3]];
    }
  }

  /** The source's scan: hop from carriage return to carriage return. */
  method FindHeaderEnd(src: seq<byte>) returns (r: Option<nat>)
    ensures r == HeaderEnd(src)
    ensures IsHeaderEnd(src, r)
  {
    var from := 0;
    var rel := IndexOf(CR, src);
    while rel.Some?
      invariant from <= |src| && rel == IndexOf(CR, src[from..])
      invariant forall i: nat :: i < from ==> !SeparatorAt(src, i)
      decreases |src| - from
    {
      var i := from + rel.value;
      assert forall j: nat :: from <= j < i ==> src[j] == src[from..][j - from] != CR;
      StartsWithSeparator(src, i);
      if SEPARATOR <= src[i..] {
        HeaderEndIs(src, Some(i));
        return Some(i);
      }
      from := i + 1;
      rel := IndexOf(CR, src[from..]);
    }
    assert forall i: nat :: from <= i < |src| ==> src[i] == src[from..][i - from] != CR;
    HeaderEndIs(src, None);
    r := None;
  }

  // ----- Header lines -----

  function StripCr(line: seq<byte>): seq<byte> {
    if line != [] && line[|line| - 1] == CR then line[..|line| - 1] else line
  }

  function Keep(line: seq<byte>): seq<seq<byte>> { if line == [] then [] else [line] }

  /** `split_crlf`: split at LF, strip one trailing CR from each piece, skip empty lines. */
  function HeaderLines(headers: seq<byte>): seq<seq<byte>>
    decreases |headers|
  {
    match IndexOf(LF, headers)
    case None => Keep(StripCr(headers))
    case Some(i) => Keep(StripCr(headers[..i])) + HeaderLines(headers[i + 1..])
  }

  function Lower(b: byte): byte { if 65 <= b <= 90 then b + 32 else b }

  predicate IsContentLength(name: seq<byte>) {
    |name| == |NAME| && forall i :: 0 <= i < |name| ==> Lower(name[i]) == NAME[i]
  }

  predicate IsSpace(b: byte) { 9 <= b <= 13 || b == SPACE }

  function TrimStart(s: seq<byte>): seq<byte> {
    if s != [] && IsSpace(s[0]) then TrimStart(s[1..]) else s
  }

  function TrimEnd(s: seq<byte>): seq<byte> {
    if s != [] && IsSpace(s[|s| - 1]) then TrimEnd(s[..|s| - 1]) else s
  }

  /** What one header line contributes. */
  datatype Header = NoColon | Other | BadLength | Length(value: nat)

  function ReadHeader(line: seq<byte>): Header {
    match IndexOf(COLON, line)
    case None => NoColon
    case Some(colon) =>
      if !IsContentLength(line[..colon]) then Other
      else
        match ParseUsize(TrimEnd(TrimStart(line[colon + 1..])))
        case None => BadLength
        case Some(n) => Length(n)
  }

  /** The scan over the header lines: the last Content-Length wins, the first bad line ends it. */
  function ScanHeaders(lines: seq<seq<byte>>, found: Option<nat>): (r: Result<Option<nat>, FrameError>)
    ensures r.Err? ==> r.error.MalformedHeader? || r.error.BadContentLength?
  {
    if lines == [] then Ok(found)
    else
      match ReadHeader(lines[0])
      case NoColon => Err(MalformedHeader)
      case BadLength => Err(BadContentLength)
      case Other => ScanHeaders(lines[1..], found)
      case Length(n) => ScanHeaders(lines[1..], Some(n))
  }

  // ----- Decoding -----

  /** The answer once the header block has been located at `sep` and scanned. */
  function TakeBody(src: seq<byte>, sep: nat, scanned: Result<Option<nat>, FrameError>): Decoded
    requires sep + 4 <= |src|
  {
    match scanned
    case Err(e) => Bad(e)
    case Ok(None) => Bad(MissingContentLength)
    case Ok(Some(len)) =>
      var end := sep + 4 + len;
      if end > USIZE_MAX then Bad(ContentLengthOverflow)
      else if |src| < end then NeedMore
      else Frame(src[sep + 4..end], end)
  }

  function Decode(src: seq<byte>): (r: Decoded)
    ensures r.Frame? ==> 1 <= r.consumed <= |src|
  {
    match HeaderEnd(src)
    case None => if |src| > MAX_HEADER_BYTES then Bad(HeaderTooLong) else NeedMore
    case Some(sep) => TakeBody(src, sep, ScanHeaders(HeaderLines(src[..sep]), None))
  }

  /** The source's decoder, with its loop over the header lines. */
  method DecodeInPlace(src: seq<byte>) returns (r: Decoded)
    ensures r == Decode(src)
  {
    var sep := FindHeaderEnd(src);
    if sep.None? {
      return if |src| > MAX_HEADER_BYTES then Bad(HeaderTooLong) else NeedMore;
    }
    var lines := HeaderLines(src[..sep.value]);
    var contentLen: Option<nat> := None;
    for i := 0 to |lines|
      invariant ScanHeaders(lines, None) == ScanHeaders(lines[i..], contentLen)
    {
      assert lines[i..][1..] == lines[i + 1..];
      var line := lines[i];
      var colon := IndexOf(COLON, line);
      if colon.None? {
        return Bad(MalformedHeader);
      }
      if IsContentLength(line[..colon.value]) {
        var parsed := ParseUsize(TrimEnd(TrimStart(line[colon.value + 1..])));
        if parsed.None? {
          return Bad(BadContentLength);
        }
        contentLen := parsed;
      }
    }
    assert lines[|lines|..] == [];
    r := TakeBody(src, sep.value, Ok(contentLen));
  }

  lemma TakeBodyAppend(src: seq<byte>, sep: nat, scanned: Result<Option<nat>, FrameError>, t: seq<byte>)
    requires sep + 4 <= |src|
    requires !TakeBody(src, sep, scanned).NeedMore?
    ensures TakeBody(src + t, sep, scanned) == TakeBody(src, sep, scanned)
  {
    var d := TakeBody(src, sep, scanned);
    if d.Frame? {
      assert (src + t)[sep + 4..d.consumed] == src[sep + 4..d.consumed];
    }
  }

  lemma DecodeAppend(src: seq<byte>, t: seq<byte>)
    requires !Decode(src).NeedMore?
    requires Decode(src).Bad? ==> !IsLengthGuard(Decode(src).error)
    ensures Decode(src + t) == Decode(src)
  {
    HeaderEndAppend(src, t);
    var sep := HeaderEnd(src).value;
    assert (src + t)[..sep] == src[..sep];
    TakeBodyAppend(src, sep, ScanHeaders(HeaderLines(src[..sep]), None), t);
  }

  lemma HeaderEndPrefix(src: seq<byte>, n: nat)
    requires HeaderEnd(src).Some? && HeaderEnd(src).value + 4 <= n <= |src|
    ensures HeaderEnd(src[..n]) == HeaderEnd(src)
  {
    assert forall i: nat :: SeparatorAt(src[..n], i) <==> SeparatorAt(src, i) && i + 4 <= n;
    HeaderEndIs(src[..n], HeaderEnd(src));
  }

  lemma FrameIsLocal(src: seq<byte>)
    requires Decode(src).Frame?
    ensures Decode(src[..Decode(src).consumed]) == Decode(src)
  {
    var sep, n := HeaderEnd(src).value, Decode(src).consumed;
    HeaderEndPrefix(src, n);
    assert src[..n][..sep] == src[..sep];
    TakeBodyAppend(src[..n], sep, ScanHeaders(HeaderLines(src[..sep]), None), src[n..]);
    assert src[..n] + src[n..] == src;
  }

  // ----- Header blocks -----

  /** A header line a peer may send: not empty, and free of CR and LF. */
  ghost predicate PlainLine(line: seq<byte>) {
    line != [] && CR !in line && LF !in line
  }

  ghost predicate AllPlain(lines: seq<seq<byte>>) {
    forall i :: 0 <= i < |lines| ==> PlainLine(lines[i])
  }

  /** Header lines with CRLF between them. */
  function Join(lines: seq<seq<byte>>): seq<byte>
    requires lines != []
  {
    if |lines| == 1 then lines[0] else lines[0] + CRLF + Join(lines[1..])
  }

  /** A whole message: header lines, the blank line, the payload. */
  function Message(lines: seq<seq<byte>>, payload: seq<byte>): seq<byte>
    requires lines != []
  {
    Join(lines) + SEPARATOR + payload
  }

  /** Line `i` announces a payload of `n` bytes, and no line after it is a Content-Length line. */
  predicate LastLength(lines: seq<seq<byte>>, n: nat, i: nat) {
    i < |lines| && ReadHeader(lines[i]) == Length(n) && forall j :: i < j < |lines| ==> ReadHeader(lines[j]).Other?
  }

  /** Header lines announcing a payload of `n` bytes: every line is plain and has a colon, every
      Content-Length line has a number, and the last of them says `n`. */
  ghost predicate Announces(lines: seq<seq<byte>>, n: nat) {
    && AllPlain(lines)
    && (forall i :: 0 <= i < |lines| ==> ReadHeader(lines[i]).Other? || ReadHeader(lines[i]).Length?)
    && (exists i: nat :: LastLength(lines, n, i))
  }

  lemma JoinStart(lines: seq<seq<byte>>)
    requires lines != [] && AllPlain(lines)
    ensures Join(lines) != [] && Join(lines)[0] != CR
  {
    assert lines[0][0] in lines[0];
  }

  /** A blank line cannot start inside a plain line, nor at its line end when more text follows. */
  lemma NoBlankLineInLine(line: seq<byte>, rest: seq<byte>, j: nat)
    requires PlainLine(line) && rest != []
    requires j < |line| || (rest[0] != CR && j < |line| + 2)
    ensures !SeparatorAt(line + CRLF + rest, j)
  {
    var src, n := line + CRLF + rest, |line|;
    assert src[n] == CR && src[n + 1] == LF && src[n + 2] == rest[0];
    if j < n {
      assert src[j] == line[j] && line[j] in line;
    }
  }

  /** No blank line starts before the one that closes the header lines. */
  lemma {:induction false} NoBlankLineInHeaders(lines: seq<seq<byte>>, rest: seq<byte>, j: nat)
    requires lines != [] && AllPlain(lines)
    requires j < |Join(lines)|
    ensures !SeparatorAt(Join(lines) + SEPARATOR + rest, j)
  {
    var line, tail := lines[0], lines[1..];
    var src := Join(lines) + SEPARATOR + rest;
    if tail == [] {
      NoBlankLineInLine(line, CRLF + rest, j);
      assert src == line + CRLF + (CRLF + rest);
    } else {
      JoinStart(tail);
      var after := Join(tail) + SEPARATOR + rest;
      assert src == line + CRLF + after;
      if j < |line| + 2 {
        NoBlankLineInLine(line, after, j);
      } else {
        NoBlankLineInHeaders(tail, rest, j - (|line| + 2));
        assert SeparatorAt(src, j) ==> SeparatorAt(src[|line| + 2..], j - (|line| + 2));
        assert src[|line| + 2..] == after;
      }
    }
  }

  lemma MessageHeaderEnd(lines: seq<seq<byte>>, rest: seq<byte>)
    requires lines != [] && AllPlain(lines)
    ensures HeaderEnd(Join(lines) + SEPARATOR + rest) == Some(|Join(lines)|)
  {
    var src, sep := Join(lines) + SEPARATOR + rest, |Join(lines)|;
    assert src[sep..][..4] == SEPARATOR;
    StartsWithSeparator(src, sep);
    forall j: nat | j < sep
      ensures !SeparatorAt(src, j)
    {
      NoBlankLineInHeaders(lines, rest, j);
    }
    HeaderEndIs(src, Some(sep));
  }

  lemma SplitFirstLine(line: seq<byte>, rest: seq<byte>)
    requires PlainLine(line)
    ensures HeaderLines(line + CRLF + rest) == [line] + HeaderLines(rest)
  {
    var headers, n := line + CRLF + rest, |line|;
    assert forall k :: 0 <= k < n ==> headers[k] == line[k] && line[k] in line;
    IndexOfIs(LF, headers, n + 1);
    assert headers[..n + 1] == line + [CR];
    assert StripCr(line + [CR]) == line;
    assert headers[n + 2..] == rest;
  }

  /** Splitting the joined lines gives them back. */
  lemma {:induction false} JoinLines(lines: seq<seq<byte>>)
    requires lines != [] && AllPlain(lines)
    ensures HeaderLines(Join(lines)) == lines
  {
    var line := lines[0];
    if |lines| == 1 {
      assert line[|line| - 1] in line;
    } else {
      JoinLines(lines[1..]);
      SplitFirstLine(line, Join(lines[1..]));
    }
  }

  lemma {:induction false} ScanOthers(lines: seq<seq<byte>>, found: Option<nat>)
    requires forall i :: 0 <= i < |lines| ==> ReadHeader(lines[i]).Other?
    ensures ScanHeaders(lines, found) == Ok(found)
  {
    if lines != [] {
      ScanOthers(lines[1..], found);
    }
  }

  /** The last Content-Length line decides. */
  lemma {:induction false} ScanAnnounced(lines: seq<seq<byte>>, n: nat, i: nat, found: Option<nat>)
    requires forall k :: 0 <= k < |lines| ==> ReadHeader(lines[k]).Other? || ReadHeader(lines[k]).Length?
    requires LastLength(lines, n, i)
    ensures ScanHeaders(lines, found) == Ok(Some(n))
  {
    if i == 0 {
      ScanOthers(lines[1..], Some(n));
    } else {
      var next := match ReadHeader(lines[0]) { case Length(m) => Some(m) case _ => found };
      assert LastLength(lines[1..], n, i - 1);
      ScanAnnounced(lines[1..], n, i - 1, next);
    }
  }

  lemma ScanJoined(lines: seq<seq<byte>>, n: nat)
    requires lines != [] && Announces(lines, n)
    ensures ScanHeaders(HeaderLines(Join(lines)), None) == Ok(Some(n))
  {
    JoinLines(lines);
    var i: nat :| LastLength(lines, n, i);
    ScanAnnounced(lines, n, i, None);
  }

  /** What the decoder sees once the blank line of a message has arrived. */
  lemma ReadMessageHeaders(lines: seq<seq<byte>>, payload: seq<byte>, rest: seq<byte>)
    requires lines != [] && Announces(lines, |payload|)
    ensures var src := Join(lines) + SEPARATOR + rest;
            Decode(src) == TakeBody(src, |Join(lines)|, Ok(Some(|payload|)))
  {
    var src := Join(lines) + SEPARATOR + rest;
    MessageHeaderEnd(lines, rest);
    assert src[..|Join(lines)|] == Join(lines);
    ScanJoined(lines, |payload|);
  }

  lemma TakeWholeBody(head: seq<byte>, payload: seq<byte>, t: seq<byte>)
    requires |head| >= 4 && |head| + |payload| <= USIZE_MAX
    ensures TakeBody(head + payload + t, |head| - 4, Ok(Some(|payload|))) == Frame(payload, |head| + |payload|)
  {
    Middle(head, payload, t);
  }

  /** Whatever other headers surround it and in whatever order, the announced payload comes out. */
  lemma DecodeMessage(lines: seq<seq<byte>>, payload: seq<byte>, t: seq<byte>)
    requires lines != [] && Announces(lines, |payload|)
    requires |Message(lines, payload)| <= USIZE_MAX
    ensures Decode(Message(lines, payload) + t) == Frame(payload, |Message(lines, payload)|)
  {
    ReadMessageHeaders(lines, payload, payload + t);
    TakeWholeBody(Join(lines) + SEPARATOR, payload, t);
    Regroup(Join(lines) + SEPARATOR, payload, t);
  }

  /** Until the whole message is there the decoder waits, provided the headers are within the cap. */
  lemma DecodeMessagePrefix(lines: seq<seq<byte>>, payload: seq<byte>, k: nat)
    requires lines != [] && Announces(lines, |payload|)
    requires |Message(lines, payload)| <= USIZE_MAX
    requires |Join(lines)| + 3 <= MAX_HEADER_BYTES
    requires k < |Message(lines, payload)|
    ensures Decode(Message(lines, payload)[..k]) == NeedMore
  {
    var whole, sep := Message(lines, payload), |Join(lines)|;
    var src := whole[..k];
    if k >= sep + 4 {
      assert src == Join(lines) + SEPARATOR + payload[..k - (sep + 4)];
      ReadMessageHeaders(lines, payload, payload[..k - (sep + 4)]);
    } else {
      MessageHeaderEnd(lines, payload);
      assert forall i: nat :: SeparatorAt(src, i) ==> SeparatorAt(whole, i);
      HeaderEndIs(src, None);
    }
  }

  /** The header cap is exactly what decides whether every partial message is waited for. */
  lemma HeaderCapIsExact(lines: seq<seq<byte>>, payload: seq<byte>)
    requires lines != [] && Announces(lines, |payload|)
    requires |Message(lines, payload)| <= USIZE_MAX
    ensures (forall k :: 0 <= k < |Message(lines, payload)| ==> Decode(Message(lines, payload)[..k]) == NeedMore)
            <==> |Join(lines)| + 3 <= MAX_HEADER_BYTES
  {
    var whole, n := Message(lines, payload), |Join(lines)| + 3;
    if n <= MAX_HEADER_BYTES {
      forall k | 0 <= k < |whole|
        ensures Decode(whole[..k]) == NeedMore
      {
        DecodeMessagePrefix(lines, payload, k);
      }
    } else {
      MessageHeaderEnd(lines, payload);
      assert forall i: nat :: SeparatorAt(whole[..n], i) ==> SeparatorAt(whole, i);
      HeaderEndIs(whole[..n], None);
      assert Decode(whole[..n]) == Bad(HeaderTooLong);
    }
  }

  // ----- The encoder's own frames -----

  lemma TrimDigits(s: seq<byte>)
    requires s != [] && AllDigits(s)
    ensures TrimEnd(TrimStart([SPACE] + s)) == s
  {
    assert IsDigit(s[0]) && IsDigit(s[|s| - 1]);
    assert ([SPACE] + s)[1..] == s;
    assert TrimStart(s) == s;
  }

  /** The one header line the encoder writes. */
  function LengthLine(payload: seq<byte>): seq<byte> { PREFIX + Decimal.Print(|payload|) }

  lemma LengthLineIsPlain(payload: seq<byte>)
    ensures PlainLine(LengthLine(payload))
  {
    var digits, line := Decimal.Print(|payload|), LengthLine(payload);
    forall k | 0 <= k < |line|
      ensures line[k] != CR && line[k] != LF
    {
      if k >= |PREFIX| { assert line[k] == digits[k - |PREFIX|] && IsDigit(digits[k - |PREFIX|]); }
    }
  }

  lemma LengthLineReads(payload: seq<byte>)
    requires |payload| <= VEC_MAX
    ensures ReadHeader(LengthLine(payload)) == Length(|payload|)
  {
    var digits, line := Decimal.Print(|payload|), LengthLine(payload);
    assert line[14] == COLON;
    IndexOfIs(COLON, line, 14);
    assert IsContentLength(line[..14]);
    assert line[15..] == [SPACE] + digits;
    TrimDigits(digits);
    ParsePrint(|payload|);
  }

  lemma EncodeIsMessage(payload: seq<byte>)
    requires |payload| <= VEC_MAX
    ensures Encode(payload) == Message([LengthLine(payload)], payload)
    ensures Announces([LengthLine(payload)], |payload|)
    ensures |Join([LengthLine(payload)])| + 3 <= MAX_HEADER_BYTES
  {
    var line := LengthLine(payload);
    LengthLineIsPlain(payload);
    LengthLineReads(payload);
    UsizeDigits(|payload|);
    assert LastLength([line], |payload|, 0);
  }
}
