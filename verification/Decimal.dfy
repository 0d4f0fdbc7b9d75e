/** Decimal numbers as the codecs write (`itoa`) and read (`str::parse::<usize>`) them. */
module Decimal {
  import opened Wrappers
  import opened Bytes

  predicate IsDigit(b: byte) { 48 <= b <= 57 }

  predicate AllDigits(s: seq<byte>) { forall i :: 0 <= i < |s| ==> IsDigit(s[i]) }

  function Print(n: nat): (s: seq<byte>)
    ensures s != [] && AllDigits(s)
  {
    if n < 10 then [48 + n] else Print(n / 10) + [48 + n % 10]
  }

  /** The number a digit string denotes; leading zeros are allowed. */
  function Value(s: seq<byte>): nat
    requires AllDigits(s)
  {
    if s == [] then 0 else Value(s[..|s| - 1]) * 10 + (s[|s| - 1] - 48)
  }

  /** `parse::<usize>()`: an optional `+`, at least one digit, nothing else, and no overflow. */
  function ParseUsize(s: seq<byte>): (r: Option<nat>)
    ensures r.Some? ==> r.value <= USIZE_MAX
  {
    var digits := if s != [] && s[0] == PLUS then s[1..] else s;
    if digits == [] || !AllDigits(digits) || Value(digits) > USIZE_MAX then None
    else Some(Value(digits))
  }

  lemma {:induction false} ValuePrint(n: nat)
    ensures Value(Print(n)) == n
  {
    if n < 10 {
      assert Print(n)[..0] == [];
    } else {
      ValuePrint(n / 10);
      var s := Print(n);
      assert s[..|s| - 1] == Print(n / 10);
    }
  }

  /** Reading back what was written gives the number, and only overflow can lose it. */
  lemma ParsePrint(n: nat)
    ensures ParseUsize(Print(n)) == if n <= USIZE_MAX then Some(n) else None
  {
    ValuePrint(n);
    assert Print(n)[0] != PLUS;
  }

  /** Distinct numbers have distinct spellings. */
  lemma PrintInjective(m: nat, n: nat)
    requires Print(m) == Print(n)
    ensures m == n
  {
    ValuePrint(m);
    ValuePrint(n);
  }

  function Pow10(k: nat): nat { if k == 0 then 1 else 10 * Pow10(k - 1) }

  lemma {:induction false} PrintLength(n: nat, k: nat)
    requires k >= 1 && n < Pow10(k)
    ensures |Print(n)| <= k
  {
    assert Pow10(1) == 10 * Pow10(0);
    if n >= 10 {
      PrintLength(n / 10, k - 1);
    }
  }

  lemma {:induction false} Pow10Add(j: nat, k: nat)
    ensures Pow10(j + k) == Pow10(j) * Pow10(k)
  {
    if j > 0 {
      Pow10Add(j - 1, k);
    }
  }

  /** A `usize` has at most 20 decimal digits. */
  lemma UsizeDigits(n: nat)
    requires n <= USIZE_MAX
    ensures |Print(n)| <= 20
  {
    assert Pow10(5) == 10 * 10 * 10 * 10 * 10 * Pow10(0);
    Pow10Add(5, 5);
    Pow10Add(10, 10);
    PrintLength(n, 20);
  }
}
