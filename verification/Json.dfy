/** JSON values, and the backend that turns them into bytes and back, as a record of functions with
    the laws the rest of the library relies on. */
module Json {
  import opened Wrappers
  import opened Bytes

  /** The integers JSON backends hand over as integers: `i64::MIN` to `u64::MAX`. */
  type jsonint = n: int | -0x8000_0000_0000_0000 <= n <= 0xFFFF_FFFF_FFFF_FFFF

  type i64 = n: int | -0x8000_0000_0000_0000 <= n <= 0x7FFF_FFFF_FFFF_FFFF

  // ----- The texts of numbers that are not handed over as integers -----

  predicate IsDigitChar(c: char) { '0' <= c <= '9' }

  predicate AllDigitChars(s: string) { forall i :: 0 <= i < |s| ==> IsDigitChar(s[i]) }

  /** How many digits `s` starts with. */
  function DigitRun(s: string): (n: nat)
    ensures n <= |s| && AllDigitChars(s[..n])
  {
    if s == [] || !IsDigitChar(s[0]) then 0 else 1 + DigitRun(s[1..])
  }

  function NumberOf(s: string): nat
    requires AllDigitChars(s)
  {
    if s == [] then 0 else NumberOf(s[..|s| - 1]) * 10 + (s[|s| - 1] as int - '0' as int)
  }

  /** `e`, a sign if any, digits. */
  predicate IsExponent(s: string) {
    && s != [] && (s[0] == 'e' || s[0] == 'E')
    && var digits := if |s| > 1 && (s[1] == '+' || s[1] == '-') then s[2..] else s[1..];
    digits != [] && AllDigitChars(digits)
  }

  /** A point, digits, and an exponent if any. */
  predicate IsFraction(s: string) {
    && s != [] && s[0] == '.'
    && var n := DigitRun(s[1..]);
    n > 0 && (s[1 + n..] == [] || IsExponent(s[1 + n..]))
  }

  /** A JSON number with a fraction or an exponent, or an integer out of range, or `-0`. */
  predicate IsFloatText(s: string) {
    var negative := s != [] && s[0] == '-';
    var t := if negative then s[1..] else s;
    var n := DigitRun(t);
    && n > 0 && (t[0] == '0' ==> n == 1)
    && var rest := t[n..];
    || IsFraction(rest) || IsExponent(rest)
    || (rest == [] && if negative then NumberOf(t[..n]) == 0 || NumberOf(t[..n]) > 0x8000_0000_0000_0000
                      else NumberOf(t[..n]) > 0xFFFF_FFFF_FFFF_FFFF)
  }

  type floattext = s: string | IsFloatText(s) witness "1e1"

  /** A parsed value. Object members keep their order and their repetitions; `Float` is any number that
      is not handed over as an integer, by its text. */
  datatype Json =
    | Null
    | Bool(b: bool)
    | Int(n: jsonint)
    | Float(text: floattext)
    | Str(s: string)
    | Arr(items: seq<Json>)
    | Obj(members: seq<(string, Json)>)

  const OPEN_BRACKET: byte := 91
  const OPEN_BRACE: byte := 123

  predicate IsAsciiWhitespace(b: byte) { b == TAB || b == LF || b == 12 || b == CR || b == SPACE }

  /** The first byte that is not ASCII whitespace. */
  function FirstByte(s: seq<byte>): Option<byte> {
    if s == [] then None
    else if IsAsciiWhitespace(s[0]) then FirstByte(s[1..])
    else Some(s[0])
  }

  /** `from_slice`, `to_vec` and `split_array` of the selected backend. */
  datatype Backend = Backend(
    parse: seq<byte> -> Option<Json>,
    render: Json -> seq<byte>,
    split: seq<byte> -> Option<seq<seq<byte>>>)

  /** What is rendered parses back to itself. */
  ghost predicate RenderParses(be: Backend) {
    forall v: Json :: be.parse(be.render(v)) == Some(v)
  }

  /** The first byte tells arrays and objects from everything else. */
  ghost predicate FirstByteTells(be: Backend) {
    forall s: seq<byte> :: be.parse(s).Some? ==>
      && FirstByte(s).Some?
      && (be.parse(s).value.Arr? <==> FirstByte(s).value == OPEN_BRACKET)
      && (be.parse(s).value.Obj? <==> FirstByte(s).value == OPEN_BRACE)
  }

  /** Splitting an array yields the text of each element. */
  ghost predicate SplitsElements(be: Backend) {
    forall s: seq<byte> ::
      if be.parse(s).Some? && be.parse(s).value.Arr? then
        && be.split(s).Some?
        && |be.split(s).value| == |be.parse(s).value.items|
        && forall i :: 0 <= i < |be.split(s).value| ==>
             be.parse(be.split(s).value[i]) == Some(be.parse(s).value.items[i])
      else be.split(s).None?
  }

  /** What a text cut short can still mean: the beginning of an object's text parses only when nothing but
      white space is missing, and a rendered object or array has none to miss. */
  ghost predicate BeginningsTell(be: Backend) {
    && (forall s: seq<byte>, n :: 0 <= n <= |s| && be.parse(s).Some? && be.parse(s).value.Obj? && be.parse(s[..n]).Some? ==>
          be.parse(s[..n]) == be.parse(s))
    && (forall v: Json, n :: 0 <= n < |be.render(v)| && (v.Obj? || v.Arr?) ==> be.parse(be.render(v)[..n]).None?)
  }

  ghost predicate Lawful(be: Backend) {
    RenderParses(be) && FirstByteTells(be) && SplitsElements(be) && BeginningsTell(be)
  }

  // ----- Reading a struct, as the derived deserializers do -----

  function Count(members: seq<(string, Json)>, name: string): nat {
    if members == [] then 0
    else (if members[0].0 == name then 1 else 0) + Count(members[1..], name)
  }

  function Lookup(members: seq<(string, Json)>, name: string): Option<Json> {
    if members == [] then None
    else if members[0].0 == name then Some(members[0].1)
    else Lookup(members[1..], name)
  }

  /** The values of the named fields, in order. An object may have other members but none of these
      twice; an array gives the fields by position. */
  function StructFields(v: Json, names: seq<string>): (r: Option<seq<Option<Json>>>)
    ensures r.Some? ==> |r.value| == |names|
  {
    match v
    case Obj(members) =>
      if exists i :: 0 <= i < |names| && Count(members, names[i]) > 1 then None
      else Some(seq(|names|, i requires 0 <= i < |names| => Lookup(members, names[i])))
    case Arr(items) =>
      if |items| > |names| then None
      else Some(seq(|names|, i requires 0 <= i < |names| => if i < |items| then Some(items[i]) else None))
    case _ => None
  }

  /** An `Option` field: a `null` on the wire reads as absent. */
  function NonNull(field: Option<Json>): Option<Json> {
    if field == Some(Null) then None else field
  }
}
