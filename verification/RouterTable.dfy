/** The shared method table of a router: handles are aliased, and registration copies on write. */
module RouterTable {
  import opened Server

  /** The table behind the reference count. */
  class Table<!S> {
    var entries: map<string, Method<S>>
    var strong: nat

    constructor (entries: map<string, Method<S>>)
      ensures this.entries == entries && strong == 1
    {
      this.entries := entries;
      strong := 1;
    }
  }

  /** What a handle should dispatch by: its own registrations, in order, and nobody else's. */
  function Replay<S>(history: seq<(string, Method<S>)>): map<string, Method<S>> {
    if history == [] then map[]
    else Replay(history[..|history| - 1])[history[|history| - 1].0 := history[|history| - 1].1]
  }

  lemma ReplayOne<S>(history: seq<(string, Method<S>)>, name: string, m: Method<S>)
    ensures Replay(history + [(name, m)]) == Replay(history)[name := m]
  {
    assert (history + [(name, m)])[..|history|] == history;
  }

  // ----- Who shares which table -----

  ghost function Owners<S>(live: set<Handle<S>>): map<Handle<S>, Table<S>>
    reads live`methods
  {
    map h | h in live :: h.methods
  }

  ghost function Sharers<S>(owners: map<Handle<S>, Table<S>>, t: Table<S>): set<Handle<S>> {
    set h | h in owners && owners[h] == t
  }

  lemma OwnerAdded<S>(owners: map<Handle<S>, Table<S>>, h: Handle<S>, t: Table<S>, u: Table<S>)
    requires h !in owners
    ensures |Sharers(owners[h := t], u)| == |Sharers(owners, u)| + if u == t then 1 else 0
  {
    assert Sharers(owners[h := t], u) == Sharers(owners, u) + if u == t then {h} else {};
  }

  lemma OwnerRemoved<S>(owners: map<Handle<S>, Table<S>>, h: Handle<S>, u: Table<S>)
    requires h in owners
    ensures |Sharers(owners - {h}, u)| == |Sharers(owners, u)| - if u == owners[h] then 1 else 0
  {
    OwnerAdded(owners - {h}, h, owners[h], u);
    assert (owners - {h})[h := owners[h]] == owners;
  }

  lemma SingleSharer<S>(owners: map<Handle<S>, Table<S>>, h: Handle<S>)
    requires h in owners && |Sharers(owners, owners[h])| == 1
    ensures forall g :: g in owners && owners[g] == owners[h] ==> g == h
  {
    var s := Sharers(owners, owners[h]);
    assert |s - {h}| == 0;
    forall g | g in owners && owners[g] == owners[h]
      ensures g == h
    {
      assert g in s && g !in s - {h};
    }
  }

  /** Every live handle counts once in its table's reference count. */
  ghost predicate Counted<S>(live: set<Handle<S>>)
    reads live`methods, (set h | h in live :: h.methods)`strong
  {
    forall h :: h in live ==> h.methods.strong == |Sharers(Owners(live), h.methods)|
  }

  /** A table is counted once exactly when one live handle is alone on it. */
  lemma OnlySharer<S>(live: set<Handle<S>>, h: Handle<S>)
    requires h in live && Counted(live)
    ensures h.methods.strong == 1 <==> forall g :: g in live && g.methods == h.methods ==> g == h
  {
    var owners := Owners(live);
    if h.methods.strong == 1 {
      SingleSharer(owners, h);
    }
    assert forall g :: g in live ==> owners[g] == g.methods;
    assert h in Sharers(owners, h.methods);
    assert (forall g :: g in live && g.methods == h.methods ==> g == h) ==> Sharers(owners, h.methods) == {h};
  }

  /** Every live handle shows exactly its own history. */
  ghost predicate Faithful<S>(live: set<Handle<S>>)
    reads live, set h | h in live :: h.methods
  {
    forall h :: h in live ==> h.methods.entries == Replay(h.history)
  }

  /** A `Router` value: one of possibly many handles on a table. */
  class Handle<!S> {
    var methods: Table<S>
    ghost var history: seq<(string, Method<S>)>

    /** A new router has a table of its own, empty and counted once. */
    constructor New(ghost live: set<Handle<S>>)
      requires Counted(live) && Faithful(live)
      ensures this !in live && fresh(methods) && history == []
      ensures Counted(live + {this}) && Faithful(live + {this})
    {
      methods := new Table(map[]);
      history := [];
      new;
      ghost var owners := Owners(live);
      assert Owners(live + {this}) == owners[this := methods];
      assert Sharers(owners, methods) == {};
      forall h | h in live + {this}
        ensures h.methods.strong == |Sharers(owners[this := methods], h.methods)|
      {
        OwnerAdded(owners, this, methods, h.methods);
      }
    }

    /** A handle on an existing table, before it has been counted. */
    constructor Share(t: Table<S>, ghost history: seq<(string, Method<S>)>)
      ensures methods == t && this.history == history
    {
      methods := t;
      this.history := history;
    }

    /** A clone shares the table and bumps its count. */
    method Clone(ghost live: set<Handle<S>>) returns (c: Handle<S>)
      requires this in live && Counted(live) && Faithful(live)
      modifies methods`strong
      ensures fresh(c) && c.methods == methods && c.history == history
      ensures Counted(live + {c}) && Faithful(live + {c})
    {
      hide Replay;
      ghost var owners := Owners(live);
      c := new Handle.Share(methods, history);
      methods.strong := methods.strong + 1;
      assert Owners(live + {c}) == owners[c := methods];
      forall h | h in live + {c}
        ensures h.methods.strong == |Sharers(owners[c := methods], h.methods)|
      {
        OwnerAdded(owners, c, methods, h.methods);
      }
    }

    /** The handle goes away and is no longer counted. */
    method Drop(ghost live: set<Handle<S>>)
      requires this in live && Counted(live) && Faithful(live)
      modifies methods`strong
      ensures Counted(live - {this}) && Faithful(live - {this})
    {
      hide Replay;
      ghost var owners := Owners(live);
      assert this in Sharers(owners, methods);
      methods.strong := methods.strong - 1;
      assert Owners(live - {this}) == owners - {this};
      forall h | h in live - {this}
        ensures h.methods.strong == |Sharers(owners - {this}, h.methods)|
      {
        OwnerRemoved(owners, this, h.methods);
      }
    }

    /** `Arc::make_mut`: afterwards this handle is alone on its table, whose entries are the same; a
        table that was shared is left to the others. */
    method MakeMut(ghost live: set<Handle<S>>)
      requires this in live && Counted(live)
      modifies `methods, methods`strong
      ensures Counted(live)
      ensures forall h :: h in live && h.methods == methods ==> h == this
      ensures methods.entries == old(methods.entries)
      ensures methods == old(methods) || fresh(methods)
      ensures methods == old(methods) <==> old(methods.strong) == 1
    {
      ghost var owners := Owners(live);
      if methods.strong == 1 {
        OnlySharer(live, this);
        return;
      }
      var shared := methods;
      var copy := new Table(shared.entries);
      assert this in Sharers(owners, shared);
      shared.strong := shared.strong - 1;
      methods := copy;
      ghost var others := owners - {this};
      assert Owners(live) == others[this := copy];
      forall h | h in live
        ensures h.methods.strong == |Sharers(others[this := copy], h.methods)|
      {
        OwnerRemoved(owners, this, h.methods);
        OwnerAdded(others, this, copy, h.methods);
        assert h == this ==> Sharers(owners, copy) == {};
      }
    }

    /** The insertion itself, once this handle is alone on its table. */
    method Insert(ghost live: set<Handle<S>>, name: string, m: Method<S>)
      requires this in live && Counted(live) && Faithful(live)
      requires forall h :: h in live && h.methods == methods ==> h == this
      modifies methods`entries, `history
      ensures Counted(live) && Faithful(live)
      ensures history == old(history) + [(name, m)] && methods.entries == old(methods.entries)[name := m]
    {
      ReplayOne(history, name, m);
      methods.entries := methods.entries[name := m];
      history := history + [(name, m)];
      hide Replay;
      assert Owners(live) == old(Owners(live));
      forall h | h in live
        ensures h.methods.strong == |Sharers(Owners(live), h.methods)|
      {
        assert old(h.methods.strong) == |Sharers(Owners(live), h.methods)|;
      }
    }

    /** Register a method. A name already taken panics, and the handle is dropped in the unwinding. No
        other handle notices either way. */
    method Register(ghost live: set<Handle<S>>, name: string, m: Method<S>) returns (panicked: bool)
      requires this in live && Counted(live) && Faithful(live)
      modifies this, methods
      ensures panicked <==> name in old(methods.entries)
      ensures history == old(history) + [(name, m)] && methods.entries == old(methods.entries)[name := m]
      ensures var left := if panicked then live - {this} else live; Counted(left) && Faithful(left)
      ensures methods == old(methods) || fresh(methods)
      ensures forall h :: h in live && h != this ==>
                && h.methods == old(h.methods) && h.methods.entries == old(h.methods.entries) && h.history == old(h.history)
    {
      hide Replay, Counted, Sharers;
      MakeMut(live);
      panicked := name in methods.entries;
      assert Faithful(live);
      Insert(live, name, m);
      if panicked {
        Drop(live);
      }
    }
  }
}
