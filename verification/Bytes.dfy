/** Byte strings, the first-occurrence search behind `memchr`, and concatenation of pieces. */
module Bytes {
  import opened Wrappers

  type byte = x: int | 0 <= x < 256

  const TAB: byte := 9
  const LF: byte := 10
  const CR: byte := 13
  const SPACE: byte := 32
  const PLUS: byte := 43
  const COMMA: byte := 44
  const COLON: byte := 58
  const CRLF: seq<byte> := [CR, LF]

  /** The largest value of the source's `usize` on a 64-bit target. */
  const USIZE_MAX: nat := 0xFFFF_FFFF_FFFF_FFFF
  /** No `Vec<u8>` is longer than `isize::MAX` bytes. */
  const VEC_MAX: nat := 0x7FFF_FFFF_FFFF_FFFF

  /** Index `i` holds the first occurrence of `b` in `s`. */
  ghost predicate FirstAt(b: byte, s: seq<byte>, i: nat) {
    i < |s| && s[i] == b && forall j :: 0 <= j < i ==> s[j] != b
  }

  /** `memchr`: the first index holding `b`. */
  function IndexOf(b: byte, s: seq<byte>): (r: Option<nat>)
    ensures r.None? <==> b !in s
    ensures r.Some? ==> FirstAt(b, s, r.value)
  {
    if s == [] then None
    else if s[0] == b then Some(0)
    else
      match IndexOf(b, s[1..])
      case None => None
      case Some(i) => Some(i + 1)
  }

  lemma IndexOfIs(b: byte, s: seq<byte>, i: nat)
    requires FirstAt(b, s, i)
    ensures IndexOf(b, s) == Some(i)
  {
    assert b in s;
    assert FirstAt(b, s, IndexOf(b, s).value);
  }

  lemma IndexOfAppend(b: byte, s: seq<byte>, t: seq<byte>)
    requires b in s
    ensures IndexOf(b, s + t) == IndexOf(b, s)
  {
    IndexOfIs(b, s + t, IndexOf(b, s).value);
  }

  lemma Middle(a: seq<byte>, b: seq<byte>, c: seq<byte>)
    ensures (a + b + c)[|a|..|a| + |b|] == b
  {
  }

  lemma Regroup(a: seq<byte>, b: seq<byte>, c: seq<byte>)
    ensures a + (b + c) == a + b + c
  {
  }

  /** The concatenation of `pieces`, in order. */
  function Concat(pieces: seq<seq<byte>>): seq<byte> {
    if pieces == [] then [] else pieces[0] + Concat(pieces[1..])
  }

  lemma {:induction false} ConcatAppend(xs: seq<seq<byte>>, ys: seq<seq<byte>>)
    ensures Concat(xs + ys) == Concat(xs) + Concat(ys)
  {
    if xs == [] {
      assert xs + ys == ys;
    } else {
      ConcatAppend(xs[1..], ys);
      assert (xs + ys)[1..] == xs[1..] + ys;
      Regroup(xs[0], Concat(xs[1..]), Concat(ys));
    }
  }

  lemma ConcatSnoc(xs: seq<seq<byte>>, y: seq<byte>)
    ensures Concat(xs + [y]) == Concat(xs) + y
  {
    ConcatAppend(xs, [y]);
    assert [y][1..] == [];
    assert Concat([y]) == y + Concat([]) == y;
  }
}
