/** Any number of router handles, made, cloned, registered on and dropped in any order: each dispatches by
    its own registrations. */
module Routers {
  import opened Wrappers
  import opened Server
  import opened RouterTable

  /** What a program does with routers; handles are named in the order in which they come into being. */
  datatype Op<!S> =
    | Create
    | CloneOf(i: nat)
    | RegisterOn(i: nat, name: string, m: Method<S>)
    | DropOf(i: nat)

  /** The registrations of a handle, while it lives. */
  type History<!S> = Option<seq<(string, Method<S>)>>

  predicate Lives<S>(hs: seq<History<S>>, i: nat) { i < |hs| && hs[i].Some? }

  /** What each operation means: a clone starts from the registrations of its original; a registration adds
      to one handle, or costs it its life when the name is taken. An operation on a handle that does not
      live cannot be written down in the source, and does nothing. */
  function Apply<S>(hs: seq<History<S>>, op: Op<S>): seq<History<S>> {
    match op
    case Create => hs + [Some([])]
    case CloneOf(i) => if Lives(hs, i) then hs + [hs[i]] else hs
    case RegisterOn(i, name, m) =>
      if !Lives(hs, i) then hs
      else if name in Replay(hs[i].value) then hs[i := None]
      else hs[i := Some(hs[i].value + [(name, m)])]
    case DropOf(i) => if Lives(hs, i) then hs[i := None] else hs
  }

  function ApplyAll<S>(ops: seq<Op<S>>): seq<History<S>> {
    if ops == [] then [] else Apply(ApplyAll(ops[..|ops| - 1]), ops[|ops| - 1])
  }

  /** The handles of a program, dropped ones by null. */
  class Program<!S> {
    var handles: seq<Handle?<S>>
    ghost var live: set<Handle<S>>
    ghost var histories: seq<History<S>>

    /** The slots and the live handles agree. */
    ghost predicate Slots()
      reads this, live
    {
      && |histories| == |handles|
      && (forall i :: 0 <= i < |handles| ==> SlotOk(i))
      && (forall i, j :: 0 <= i < j < |handles| && handles[i] != null ==> handles[i] != handles[j])
    }

    ghost predicate SlotOk(i: nat)
      reads this, live
      requires i < |handles| == |histories|
    {
      && (handles[i] != null <==> histories[i].Some?)
      && (handles[i] != null ==> handles[i] in live && handles[i].history == histories[i].value)
    }

    ghost predicate Valid()
      reads this, live, set h | h in live :: h.methods
    {
      Counted(live) && Faithful(live) && Slots()
    }

    constructor ()
      ensures Valid() && histories == [] && live == {}
    {
      handles, histories, live := [], [], {};
    }

    method Create()
      requires Valid()
      modifies this
      ensures Valid() && histories == Apply(old(histories), Op.Create)
      ensures forall h :: h in live && h !in old(live) ==> fresh(h) && fresh(h.methods)
    {
      hide Counted, Faithful;
      var h := new Handle.New(live);
      handles := handles + [h];
      histories := histories + [Some([])];
      live := live + {h};
      assert old(Slots());
      forall j | 0 <= j < |handles|
        ensures SlotOk(j)
      {
        assert j < |old(handles)| ==> old(SlotOk(j)) && handles[j] == old(handles)[j] && handles[j] != h;
      }
    }

    /** Every handle and table touched is one of the program's, or new. */
    method CloneOne(i: nat)
      requires Valid() && Lives(histories, i)
      modifies this, set h | h in live :: h.methods
      ensures Valid() && histories == Apply(old(histories), CloneOf(i))
      ensures forall h :: h in live ==>
                h in old(live) || (fresh(h) && exists g :: g in old(live) && h.methods == old(g.methods))
      ensures forall h :: h in old(live) ==> h in live && h.methods == old(h.methods)
    {
      hide Counted, Faithful;
      assert SlotOk(i);
      var c := handles[i].Clone(live);
      assert c.history == histories[i].value;
      handles := handles + [c];
      histories := histories + [histories[i]];
      live := live + {c};
      assert old(Slots());
      forall j | 0 <= j < |handles|
        ensures SlotOk(j)
      {
        assert j < |old(handles)| ==> old(SlotOk(j)) && handles[j] == old(handles)[j] && handles[j] != c;
      }
    }

    method DropOne(i: nat)
      requires Valid() && Lives(histories, i)
      modifies this, set h | h in live :: h.methods
      ensures Valid() && histories == Apply(old(histories), DropOf(i))
      ensures forall h :: h in live ==> h in old(live) && h.methods == old(h.methods)
    {
      hide Counted, Faithful;
      assert SlotOk(i);
      var h := handles[i];
      h.Drop(live);
      forall j | 0 <= j < |handles| && j != i
        ensures SlotOk(j)
      {
        assert old(SlotOk(j));
      }
      Vacate(i);
    }

    /** The registration itself; the slot of the handle is still to be brought up to date. */
    method RegisterThere(i: nat, name: string, m: Method<S>) returns (panicked: bool)
      requires Valid() && Lives(histories, i)
      modifies live, set h | h in live :: h.methods
      ensures handles[i] == old(handles[i]) && handles[i] != null && handles[i] in live && |histories| == |handles|
      ensures panicked <==> name in Replay(histories[i].value)
      ensures handles[i].history == histories[i].value + [(name, m)]
      ensures forall j :: 0 <= j < |handles| && j != i ==> SlotOk(j)
      ensures var left := if panicked then live - {handles[i]} else live; Counted(left) && Faithful(left)
      ensures forall h :: h in live ==> h.methods == old(h.methods) || fresh(h.methods)
    {
      hide Counted;
      assert SlotOk(i);
      var h := handles[i];
      assert h.methods.entries == Replay(h.history);
      hide Faithful, Replay;
      label before:
      panicked := h.Register(live, name, m);
      OthersUnmoved@before(i);
    }

    method RegisterOne(i: nat, name: string, m: Method<S>)
      requires Valid() && Lives(histories, i)
      modifies this, live, set h | h in live :: h.methods
      ensures Valid() && histories == Apply(old(histories), RegisterOn(i, name, m))
      ensures forall h :: h in live ==> h in old(live) && (h.methods == old(h.methods) || fresh(h.methods))
    {
      hide Counted, Faithful, Replay;
      assert forall j, k :: 0 <= j < k < |handles| && handles[j] != null ==> handles[j] != handles[k];
      var panicked := RegisterThere(i, name, m);
      if panicked {
        Vacate(i);
      } else {
        Record(i, name, m);
      }
    }

    /** The slot of a handle that has registered one more. */
    method Record(i: nat, name: string, m: Method<S>)
      requires i < |handles| == |histories| && handles[i] != null && handles[i] in live && histories[i].Some?
      requires handles[i].history == histories[i].value + [(name, m)]
      requires forall j :: 0 <= j < |handles| && j != i ==> SlotOk(j)
      requires forall j, k :: 0 <= j < k < |handles| && handles[j] != null ==> handles[j] != handles[k]
      modifies `histories
      ensures histories == old(histories)[i := Some(old(histories)[i].value + [(name, m)])] && Slots()
    {
      histories := histories[i := Some(histories[i].value + [(name, m)])];
      forall j | 0 <= j < |handles|
        ensures SlotOk(j)
      {
        assert j != i ==> old(SlotOk(j));
      }
    }

    /** Registering on one handle leaves the slots of the others as they were. */
    twostate lemma OthersUnmoved(i: nat)
      requires old(Slots()) && i < |handles| && handles == old(handles) && live == old(live) && |histories| == |handles|
      requires forall j :: 0 <= j < |handles| && j != i ==> histories[j] == old(histories)[j]
      requires handles[i] != null
      requires forall h :: h in live && h != handles[i] ==> h.history == old(h.history)
      ensures forall j :: 0 <= j < |handles| && j != i ==> SlotOk(j)
    {
      forall j | 0 <= j < |handles| && j != i
        ensures SlotOk(j)
      {
        assert old(SlotOk(j));
      }
    }

    /** A handle that is gone leaves an empty slot. */
    method Vacate(i: nat)
      requires i < |handles| == |histories| && handles[i] != null
      requires forall j :: 0 <= j < |handles| && j != i ==> SlotOk(j)
      requires forall j, k :: 0 <= j < k < |handles| && handles[j] != null ==> handles[j] != handles[k]
      modifies this
      ensures handles == old(handles)[i := null] && histories == old(histories)[i := None] && live == old(live) - {old(handles)[i]}
      ensures Slots()
    {
      ghost var h := handles[i];
      live := live - {h};
      handles := handles[i := null];
      histories := histories[i := None];
      forall j | 0 <= j < |handles|
        ensures SlotOk(j)
      {
        assert j != i ==> old(SlotOk(j)) && handles[j] != h;
      }
    }
  }

  /** What each handle must dispatch by: the registrations of its own history, and nobody else's. */
  function Tables<S>(hs: seq<History<S>>): seq<Option<map<string, Method<S>>>> {
    seq(|hs|, i requires 0 <= i < |hs| => match hs[i] case None => None case Some(h) => Some(Replay(h)))
  }

  /** One operation, carried out on the heap when its handle lives. */
  method Perform<S>(p: Program<S>, op: Op<S>)
    requires p.Valid()
    modifies p, p.live, set h | h in p.live :: h.methods
    ensures p.Valid() && p.histories == Apply(old(p.histories), op)
    ensures forall h :: h in p.live ==> h in old(p.live) || fresh(h)
    ensures forall h :: h in p.live ==> fresh(h.methods) || exists g :: g in old(p.live) && h.methods == old(g.methods)
  {
    hide Counted, Faithful, Replay;
    if op.Create? {
      p.Create();
    } else if op.i < |p.handles| {
      assert p.SlotOk(op.i);
      if p.handles[op.i] != null {
        match op
        case CloneOf(i) => p.CloneOne(i);
        case RegisterOn(i, name, m) => p.RegisterOne(i, name, m);
        case DropOf(i) => p.DropOne(i);
      }
    }
  }

  /** Over any sequence of operations each handle that lives dispatches by the map of its own registration
      history; sharing and copying of tables never shows. */
  method Execute<S>(ops: seq<Op<S>>) returns (tables: seq<Option<map<string, Method<S>>>>)
    ensures tables == Tables(ApplyAll(ops))
  {
    hide Counted, Replay, Apply;
    var p := new Program();
    for n := 0 to |ops|
      invariant fresh(p) && p.Valid() && p.histories == ApplyAll(ops[..n])
      invariant forall h :: h in p.live ==> fresh(h) && fresh(h.methods)
    {
      Perform(p, ops[n]);
      assert ops[..n + 1][..n] == ops[..n];
    }
    assert ops[..|ops|] == ops;
    tables := [];
    for i := 0 to |p.handles|
      invariant tables == Tables(p.histories)[..i]
    {
      assert p.SlotOk(i);
      var h := p.handles[i];
      tables := tables + [if h == null then None else Some(h.methods.entries)];
    }
  }
}
