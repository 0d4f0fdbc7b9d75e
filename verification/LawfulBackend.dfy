/** The laws asked of a JSON backend can be met: one rendering that does, with the parser that inverts it. */
module LawfulBackend {
  import opened Wrappers
  import opened Bytes
  import opened Json
  import Decimal

  // ----- Self-delimiting pieces -----

  function Escape(x: seq<byte>): seq<byte> { if x == [] then [0] else [1, x[0]] + Escape(x[1..]) }

  function Pieces(parts: seq<seq<byte>>): seq<byte> {
    if parts == [] then [0] else [1] + (Escape(parts[0]) + Pieces(parts[1..]))
  }

  lemma {:induction false} EscapeDelimits(x: seq<byte>, y: seq<byte>, s: seq<byte>, t: seq<byte>)
    requires Escape(x) + s == Escape(y) + t
    ensures x == y && s == t
  {
    assert (Escape(x) + s)[0] == Escape(x)[0] && (Escape(y) + t)[0] == Escape(y)[0];
    if x == [] {
      assert s == (Escape(x) + s)[1..] && t == (Escape(y) + t)[1..];
    } else {
      assert (Escape(x) + s)[1] == x[0] && (Escape(y) + t)[1] == y[0];
      assert Escape(x[1..]) + s == (Escape(x) + s)[2..];
      assert Escape(y[1..]) + t == (Escape(y) + t)[2..];
      EscapeDelimits(x[1..], y[1..], s, t);
    }
  }

  lemma {:induction false} PiecesDelimit(xs: seq<seq<byte>>, ys: seq<seq<byte>>, s: seq<byte>, t: seq<byte>)
    requires Pieces(xs) + s == Pieces(ys) + t
    ensures xs == ys && s == t
  {
    assert (Pieces(xs) + s)[0] == Pieces(xs)[0] && (Pieces(ys) + t)[0] == Pieces(ys)[0];
    assert Pieces(xs)[1..] + s == (Pieces(xs) + s)[1..] && Pieces(ys)[1..] + t == (Pieces(ys) + t)[1..];
    if xs == [] {
      assert s == Pieces(xs)[1..] + s && t == Pieces(ys)[1..] + t;
    } else {
      Regroup(Escape(xs[0]), Pieces(xs[1..]), s);
      Regroup(Escape(ys[0]), Pieces(ys[1..]), t);
      EscapeDelimits(xs[0], ys[0], Pieces(xs[1..]) + s, Pieces(ys[1..]) + t);
      PiecesDelimit(xs[1..], ys[1..], s, t);
    }
  }

  lemma PiecesInjective(xs: seq<seq<byte>>, ys: seq<seq<byte>>)
    requires Pieces(xs) == Pieces(ys)
    ensures xs == ys
  {
    assert Pieces(xs) + [] == Pieces(xs) && Pieces(ys) + [] == Pieces(ys);
    PiecesDelimit(xs, ys, [], []);
  }

  function Chars(s: string): seq<byte> { Pieces(seq(|s|, i requires 0 <= i < |s| => Decimal.Print(s[i] as int))) }

  lemma CharsInjective(s: string, t: string)
    requires Chars(s) == Chars(t)
    ensures s == t
  {
    var xs := seq(|s|, i requires 0 <= i < |s| => Decimal.Print(s[i] as int));
    var ys := seq(|t|, i requires 0 <= i < |t| => Decimal.Print(t[i] as int));
    PiecesInjective(xs, ys);
    assert |s| == |xs| == |ys| == |t|;
    forall i | 0 <= i < |s|
      ensures s[i] == t[i]
    {
      assert xs[i] == ys[i];
      Decimal.PrintInjective(s[i] as int, t[i] as int);
    }
  }

  // ----- The rendering -----

  function Render(v: Json): seq<byte> {
    match v
    case Null => [110]
    case Bool(b) => if b then [116] else [102]
    case Int(n) => if n < 0 then [45] + Decimal.Print(-n) else [48] + Decimal.Print(n)
    case Float(text) => [46] + Chars(text)
    case Str(s) => [34] + Chars(s)
    case Arr(items) => [OPEN_BRACKET] + Pieces(seq(|items|, i requires 0 <= i < |items| => Render(items[i])))
    case Obj(members) =>
      [OPEN_BRACE] + Pieces(seq(|members|, i requires 0 <= i < |members| => Pieces([Chars(members[i].0), Render(members[i].1)])))
  }

  lemma ItemsInjective(xs: seq<Json>, ys: seq<Json>)
    requires Render(Arr(xs)) == Render(Arr(ys))
    ensures |xs| == |ys| && forall i :: 0 <= i < |xs| ==> Render(xs[i]) == Render(ys[i])
  {
    var a := seq(|xs|, i requires 0 <= i < |xs| => Render(xs[i]));
    var b := seq(|ys|, i requires 0 <= i < |ys| => Render(ys[i]));
    assert Render(Arr(xs))[1..] == Pieces(a) && Render(Arr(ys))[1..] == Pieces(b);
    PiecesInjective(a, b);
    assert |xs| == |a| == |b| == |ys|;
    assert forall i :: 0 <= i < |xs| ==> Render(xs[i]) == a[i] == b[i] == Render(ys[i]);
  }

  lemma MembersInjective(xs: seq<(string, Json)>, ys: seq<(string, Json)>)
    requires Render(Obj(xs)) == Render(Obj(ys))
    ensures |xs| == |ys| && forall i :: 0 <= i < |xs| ==> xs[i].0 == ys[i].0 && Render(xs[i].1) == Render(ys[i].1)
  {
    var a := seq(|xs|, i requires 0 <= i < |xs| => Pieces([Chars(xs[i].0), Render(xs[i].1)]));
    var b := seq(|ys|, i requires 0 <= i < |ys| => Pieces([Chars(ys[i].0), Render(ys[i].1)]));
    assert Render(Obj(xs))[1..] == Pieces(a) && Render(Obj(ys))[1..] == Pieces(b);
    PiecesInjective(a, b);
    assert |xs| == |a| == |b| == |ys|;
    forall i | 0 <= i < |xs|
      ensures xs[i].0 == ys[i].0 && Render(xs[i].1) == Render(ys[i].1)
    {
      var m, n := [Chars(xs[i].0), Render(xs[i].1)], [Chars(ys[i].0), Render(ys[i].1)];
      assert a[i] == b[i];
      PiecesInjective(m, n);
      assert m[0] == n[0] && m[1] == n[1];
      CharsInjective(xs[i].0, ys[i].0);
    }
  }

  lemma {:induction false} RenderInjective(v: Json, w: Json)
    requires Render(v) == Render(w)
    ensures v == w
    decreases v
  {
    hide Pieces, Chars;
    assert Render(v)[0] == Render(w)[0];
    var rest := Render(v)[1..];
    match v
    case Int(m) =>
      assert rest == Decimal.Print(if m < 0 then -m else m);
      assert rest == Decimal.Print(if w.n < 0 then -w.n else w.n);
      Decimal.PrintInjective(if m < 0 then -m else m, if w.n < 0 then -w.n else w.n);
    case Float(text) =>
      assert rest == Chars(text) == Chars(w.text);
      CharsInjective(text, w.text);
    case Str(s) =>
      assert rest == Chars(s) == Chars(w.s);
      CharsInjective(s, w.s);
    case Arr(items) =>
      ItemsInjective(items, w.items);
      forall i | 0 <= i < |items| ensures items[i] == w.items[i] { RenderInjective(items[i], w.items[i]); }
    case Obj(members) =>
      MembersInjective(members, w.members);
      forall i | 0 <= i < |members| ensures members[i] == w.members[i] { RenderInjective(members[i].1, w.members[i].1); }
    case _ =>
  }

  ghost predicate Renders(v: Json, s: seq<byte>) { Render(v) == s }

  ghost function Parse(s: seq<byte>): Option<Json> {
    if exists v: Json :: Renders(v, s) then
      var v: Json :| Renders(v, s); Some(v)
    else None
  }

  lemma ParseRendered(v: Json)
    ensures Parse(Render(v)) == Some(v)
  {
    assert Renders(v, Render(v));
    RenderInjective(v, Parse(Render(v)).value);
  }

  ghost function Split(s: seq<byte>): Option<seq<seq<byte>>> {
    match Parse(s)
    case Some(Arr(items)) => Some(seq(|items|, i requires 0 <= i < |items| => Render(items[i])))
    case _ => None
  }

  /** The pieces an object's or an array's text consists of. */
  function Parts(v: Json): seq<seq<byte>>
    requires v.Obj? || v.Arr?
  {
    match v
    case Obj(members) =>
      seq(|members|, i requires 0 <= i < |members| => Pieces([Chars(members[i].0), Render(members[i].1)]))
    case Arr(items) => seq(|items|, i requires 0 <= i < |items| => Render(items[i]))
  }

  lemma RenderedInParts(v: Json)
    requires v.Obj? || v.Arr?
    ensures Render(v) == [Render(v)[0]] + Pieces(Parts(v))
  {
    hide Pieces, Chars;
  }

  /** Under one first byte, no row of pieces begins with another. */
  lemma RowsDelimit(a: seq<seq<byte>>, b: seq<seq<byte>>, first: byte, t: seq<byte>)
    requires [first] + Pieces(a) + t == [first] + Pieces(b)
    ensures t == []
  {
    hide Pieces;
    assert ([first] + Pieces(a) + t)[1..] == Pieces(a) + t;
    assert ([first] + Pieces(b))[1..] == Pieces(b) + [];
    PiecesDelimit(a, b, t, []);
  }

  /** No text of an object or array begins with another text. */
  lemma CompoundsDelimit(v: Json, w: Json, t: seq<byte>)
    requires (v.Obj? || v.Arr?) && Render(w) + t == Render(v)
    ensures t == []
  {
    FirstByteOfRendered(v);
    FirstByteOfRendered(w);
    hide Pieces, Render, FirstByte, Parts;
    assert Render(w)[0] == (Render(w) + t)[0];
    RenderedInParts(v);
    RenderedInParts(w);
    RowsDelimit(Parts(w), Parts(v), Render(v)[0], t);
  }

  lemma BeginningsOfCompounds(s: seq<byte>, n: nat)
    requires n <= |s| && Parse(s).Some? && (Parse(s).value.Obj? || Parse(s).value.Arr?) && Parse(s[..n]).Some?
    ensures n == |s|
  {
    var v, w := Parse(s).value, Parse(s[..n]).value;
    assert Renders(v, s) && Renders(w, s[..n]);
    assert s[..n] + s[n..] == s;
    CompoundsDelimit(v, w, s[n..]);
  }

  lemma BackendBeginningsTell(be: Backend)
    requires be == Backend(Parse, Render, Split)
    ensures BeginningsTell(be)
  {
    forall s: seq<byte>, n | 0 <= n <= |s| && be.parse(s).Some? && be.parse(s).value.Obj? && be.parse(s[..n]).Some?
      ensures be.parse(s[..n]) == be.parse(s)
    {
      BeginningsOfCompounds(s, n);
      assert s[..n] == s;
    }
    forall v: Json, n | 0 <= n < |be.render(v)| && (v.Obj? || v.Arr?)
      ensures be.parse(be.render(v)[..n]).None?
    {
      ParseRendered(v);
      if Parse(Render(v)[..n]).Some? {
        BeginningsOfCompounds(Render(v), n);
      }
    }
  }

  lemma FirstByteOfRendered(v: Json)
    ensures Render(v) != [] && FirstByte(Render(v)) == Some(Render(v)[0])
    ensures v.Arr? <==> Render(v)[0] == OPEN_BRACKET
    ensures v.Obj? <==> Render(v)[0] == OPEN_BRACE
  {
    hide Pieces, Chars;
  }

  lemma BackendFirstByteTells(be: Backend)
    requires be == Backend(Parse, Render, Split)
    ensures FirstByteTells(be)
  {
    forall s: seq<byte> | be.parse(s).Some?
      ensures FirstByte(s).Some?
      ensures be.parse(s).value.Arr? <==> FirstByte(s).value == OPEN_BRACKET
      ensures be.parse(s).value.Obj? <==> FirstByte(s).value == OPEN_BRACE
    {
      assert Renders(Parse(s).value, s);
      FirstByteOfRendered(Parse(s).value);
    }
  }

  lemma BackendSplitsElements(be: Backend)
    requires be == Backend(Parse, Render, Split)
    ensures SplitsElements(be)
  {
    hide Parse, Render;
    forall s: seq<byte>, i | be.parse(s).Some? && be.parse(s).value.Arr? && 0 <= i < |be.parse(s).value.items|
      ensures be.parse(Render(be.parse(s).value.items[i])) == Some(be.parse(s).value.items[i])
    {
      ParseRendered(be.parse(s).value.items[i]);
    }
  }

  /** Some backend is lawful. */
  lemma SomeBackendIsLawful() returns (be: Backend)
    ensures Lawful(be)
  {
    be := Backend(Parse, Render, Split);
    forall v: Json
      ensures be.parse(be.render(v)) == Some(v)
    {
      ParseRendered(v);
    }
    BackendFirstByteTells(be);
    BackendSplitsElements(be);
    BackendBeginningsTell(be);
    hide Parse, Render, Split, FirstByteTells, SplitsElements, BeginningsTell;
  }
}
