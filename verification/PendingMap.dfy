/** What distinct ids among the calls in flight buy: the pending map holds exactly the calls that still
    need it, and close-down fails exactly the calls that registered in time. */
module PendingMap {
  import opened Wrappers
  import opened Bytes
  import opened Framing
  import opened Protocol
  import opened Multiplex
  import opened Correlation

  /** The call's entry is in the map. */
  predicate Registered(cfg: Config, s: State, c: CallId)
    requires c < |cfg.messages|
  {
    cfg.IdOfCall(c).Some? && cfg.IdOfCall(c).value in s.pending && s.pending[cfg.IdOfCall(c).value] == c
  }

  /** The clear came after the call registered, if it ever did. */
  predicate Cleared(s: State, c: CallId) { s.reader.Exited? && c !in s.late }

  ghost predicate ExactOk(cfg: Config, s: State, c: CallId)
    requires c < |s.phases| == |s.channels| == |cfg.messages|
  {
    var p := s.phases[c];
    cfg.IsCall(c) && cfg.IdOfCall(c).Some? ==>
      && (Registered(cfg, s, c) <==> Guarded(p) && c !in s.answeredBy && !Cleared(s, c))
      && (Listening(p) ==>
            && (s.channels[c].Open? <==> Registered(cfg, s, c) || (s.reader.Delivering? && s.reader.to == c))
            && (s.channels[c].Dropped? <==> Cleared(s, c) && c !in s.answeredBy))
      && (c in s.late ==>
            && s.reader.Exited? && c !in s.answeredBy && !p.NotStarted? && !p.Checked?
            && (p.Unwinding? || p.Done? ==> p.outcome == WriteError || p.outcome == Cancelled))
  }

  /** No two calls that hold a guard, or are about to use it, have the same id. */
  ghost predicate DistinctInFlight(cfg: Config, s: State)
    requires |s.phases| == |cfg.messages|
  {
    forall c: CallId, d: CallId :: c < d < |s.phases| && InFlight(cfg, s, c) && InFlight(cfg, s, d) ==>
      cfg.IdOfCall(c) != cfg.IdOfCall(d)
  }

  predicate InFlight(cfg: Config, s: State, c: CallId)
    requires c < |s.phases| == |cfg.messages|
  {
    cfg.IsCall(c) && Guarded(s.phases[c])
  }

  ghost predicate Exact(cfg: Config, s: State) {
    && Inv(cfg, s) && DistinctInFlight(cfg, s)
    && forall c :: 0 <= c < |s.phases| ==> ExactOk(cfg, s, c)
  }

  lemma SameIdSameCall(cfg: Config, s: State, c: CallId)
    requires |s.phases| == |cfg.messages| && DistinctInFlight(cfg, s)
    requires c < |s.phases| && InFlight(cfg, s, c)
    ensures forall d :: 0 <= d < |s.phases| && InFlight(cfg, s, d) && cfg.IdOfCall(d) == cfg.IdOfCall(c) ==> d == c
  {
  }

  lemma InsertExact(cfg: Config, s: State, c: CallId, id: Id)
    requires Exact(cfg, s) && Enabled(cfg, s, Register(c)) && cfg.IsCall(c) && cfg.IdOfCall(c) == Some(id)
    requires DistinctInFlight(cfg, Insert(s, c, id).SetPhase(c, Ready))
    ensures forall d :: 0 <= d < |s.phases| ==> ExactOk(cfg, Insert(s, c, id).SetPhase(c, Ready), d)
  {
    hide Encode;
    var t := Insert(s, c, id).SetPhase(c, Ready);
    assert CallOk(cfg, s, c) && ExactOk(cfg, s, c);
    SameIdSameCall(cfg, t, c);
    assert id !in s.pending by {
      assert id in s.pending ==> PendingEntryOk(cfg, s, id);
    }
    hide DistinctInFlight, PendingOk, TakenOk;
    forall d | 0 <= d < |s.phases|
      ensures ExactOk(cfg, t, d)
    {
      assert CallOk(cfg, s, d) && ExactOk(cfg, s, d);
      assert d != c ==> InFlight(cfg, t, d) == InFlight(cfg, s, d);
    }
  }

  lemma RemoveExact(cfg: Config, s: State, c: CallId)
    requires Exact(cfg, s) && Enabled(cfg, s, DropGuard(c))
    ensures forall d :: 0 <= d < |s.phases| ==> ExactOk(cfg, Next(cfg, s, DropGuard(c)), d)
  {
    hide Encode;
    assert CallOk(cfg, s, c);
    var id := cfg.IdOfCall(c).value;
    SameIdSameCall(cfg, s, c);
    assert id in s.pending ==> PendingEntryOk(cfg, s, id) && s.pending[id] == c;
    hide DistinctInFlight, PendingOk, TakenOk;
    forall d | 0 <= d < |s.phases|
      ensures ExactOk(cfg, Next(cfg, s, DropGuard(c)), d)
    {
      assert ExactOk(cfg, s, d);
      assert InFlight(cfg, s, d) == (cfg.IsCall(d) && Guarded(s.phases[d]));
    }
  }

  lemma TakeExact(cfg: Config, s: State, frame: seq<byte>)
    requires Exact(cfg, s) && Enabled(cfg, s, Take(frame))
    ensures forall d :: 0 <= d < |s.phases| ==> ExactOk(cfg, Next(cfg, s, Take(frame)), d)
  {
    hide Encode;
    var id := cfg.idOf(frame);
    assert id.Some? && id.value in s.pending ==> PendingEntryOk(cfg, s, id.value);
    forall d | 0 <= d < |s.phases|
      ensures ExactOk(cfg, Next(cfg, s, Take(frame)), d)
    {
      assert CallOk(cfg, s, d) && ExactOk(cfg, s, d);
    }
  }

  lemma ReaderExact(cfg: Config, s: State, a: Action)
    requires Exact(cfg, s) && Enabled(cfg, s, a)
    requires a.Deliver? || a.Stop? || a.Clear?
    ensures forall d :: 0 <= d < |s.phases| ==> ExactOk(cfg, Next(cfg, s, a), d)
  {
    hide Encode;
    forall d | 0 <= d < |s.phases|
      ensures ExactOk(cfg, Next(cfg, s, a), d)
    {
      assert CallOk(cfg, s, d) && ExactOk(cfg, s, d);
      assert Registered(cfg, s, d) ==> d in s.pending.Values;
      assert d in s.pending.Values ==> exists id :: id in s.pending && s.pending[id] == d && PendingEntryOk(cfg, s, id);
    }
  }

  /** The actions of a call that touch no other call and leave the map alone. */
  predicate StaysOut(cfg: Config, a: Action) {
    || a.Check? || a.Lock? || a.Receive? || a.Write? || a.Finish? || a.Fail? || a.Cancel?
    || (a.Register? && (!cfg.IsCall(a.c) || cfg.IdOfCall(a.c).None?))
  }

  lemma StaysOutStep(cfg: Config, s: State, a: Action)
    requires Enabled(cfg, s, a) && StaysOut(cfg, a)
    ensures var t := Next(cfg, s, a);
            && a.c < |s.phases| == |t.phases|
            && t == s.(phases := s.phases[a.c := t.phases[a.c]], writer := t.writer, wire := t.wire, written := t.written)
    ensures var p, q := s.phases[a.c], Next(cfg, s, a).phases[a.c];
            && (a.Check? ==> p.NotStarted? && (q.Checked? || q == Done(ConnectionClosed)))
            && (a.Lock? || a.Write? || (a.Finish? && cfg.IsCall(a.c)) ==> Listening(p) && Listening(q))
            && (a.Receive? ==> p.Waiting? && !s.channels[a.c].Open? && q.Done? && (s.channels[a.c].Holds? ==> q.outcome.Reply?))
            && (a.Receive? && s.channels[a.c].Dropped? ==> q == Done(ConnectionClosed))
            && ((a.Fail? || a.Cancel?) && cfg.IsCall(a.c) ==>
                  Listening(p) && q.Unwinding? && (q.outcome == WriteError || q.outcome == Cancelled))
  {
    hide Encode;
  }

  lemma CallExactHere(cfg: Config, s: State, a: Action)
    requires Exact(cfg, s) && Enabled(cfg, s, a) && StaysOut(cfg, a)
    ensures ExactOk(cfg, Next(cfg, s, a), a.c)
  {
    hide Encode, DistinctInFlight;
    StaysOutStep(cfg, s, a);
    assert CallOk(cfg, s, a.c) && ExactOk(cfg, s, a.c);
    if Registered(cfg, s, a.c) {
      assert PendingEntryOk(cfg, s, cfg.IdOfCall(a.c).value);
    }
    hide Inv, Next, Enabled;
  }

  lemma CallExact(cfg: Config, s: State, a: Action)
    requires Exact(cfg, s) && Enabled(cfg, s, a) && StaysOut(cfg, a)
    ensures forall d :: 0 <= d < |s.phases| ==> ExactOk(cfg, Next(cfg, s, a), d)
  {
    CallExactHere(cfg, s, a);
    StaysOutStep(cfg, s, a);
    hide Inv, Encode, Next, Enabled, DistinctInFlight;
    forall d | 0 <= d < |s.phases| && d != a.c
      ensures ExactOk(cfg, Next(cfg, s, a), d)
    {
      assert ExactOk(cfg, s, d);
    }
  }

  lemma StepExact(cfg: Config, s: State, a: Action)
    requires Exact(cfg, s) && Enabled(cfg, s, a)
    requires |Next(cfg, s, a).phases| == |cfg.messages| && DistinctInFlight(cfg, Next(cfg, s, a))
    ensures Exact(cfg, Next(cfg, s, a))
  {
    StepInv(cfg, s, a);
    hide Inv, ExactOk, Insert, DistinctInFlight;
    if a.DropGuard? {
      RemoveExact(cfg, s, a.c);
    } else if a.Take? {
      TakeExact(cfg, s, a.frame);
    } else if a.Deliver? || a.Stop? || a.Clear? {
      ReaderExact(cfg, s, a);
    } else if a.Register? && cfg.IsCall(a.c) && cfg.IdOfCall(a.c).Some? {
      InsertExact(cfg, s, a.c, cfg.IdOfCall(a.c).value);
    } else {
      CallExact(cfg, s, a);
    }
  }

  // ----- Orderly runs: ids are distinct among the calls in flight, and may be used again afterwards -----

  /** The run can be made, and in every state it goes through the ids of the calls in flight are distinct. */
  ghost predicate Orderly(cfg: Config, actions: seq<Action>) {
    forall n :: 0 <= n <= |actions| ==> OrderlyAt(cfg, actions[..n])
  }

  ghost predicate OrderlyAt(cfg: Config, actions: seq<Action>) {
    && Run(cfg, actions).Some?
    && |Run(cfg, actions).value.phases| == |cfg.messages| && DistinctInFlight(cfg, Run(cfg, actions).value)
  }

  lemma OrderlyBefore(cfg: Config, actions: seq<Action>, n: nat)
    requires Orderly(cfg, actions) && n <= |actions|
    ensures Orderly(cfg, actions[..n])
  {
    hide OrderlyAt;
    forall k | 0 <= k <= n
      ensures OrderlyAt(cfg, actions[..n][..k])
    {
      assert actions[..n][..k] == actions[..k];
    }
  }

  lemma OrderlyEnd(cfg: Config, actions: seq<Action>)
    requires Orderly(cfg, actions)
    ensures OrderlyAt(cfg, actions)
  {
    hide OrderlyAt;
    assert actions[..|actions|] == actions;
  }

  lemma {:induction false} RunExact(cfg: Config, actions: seq<Action>)
    requires Orderly(cfg, actions)
    ensures Run(cfg, actions).Some? && Exact(cfg, Run(cfg, actions).value)
  {
    OrderlyEnd(cfg, actions);
    hide Inv, Enabled, Next, Orderly, DistinctInFlight;
    if actions == [] {
      InitInv(cfg);
      assert forall c :: 0 <= c < |cfg.messages| ==> ExactOk(cfg, Init(cfg), c);
    } else {
      var before := actions[..|actions| - 1];
      OrderlyBefore(cfg, actions, |actions| - 1);
      RunExact(cfg, before);
      StepExact(cfg, Run(cfg, before).value, actions[|actions| - 1]);
    }
  }

  ghost predicate OrderlyReachable(cfg: Config, s: State) {
    exists actions: seq<Action> :: Orderly(cfg, actions) && Run(cfg, actions) == Some(s)
  }

  lemma ReachableExact(cfg: Config, s: State)
    requires OrderlyReachable(cfg, s)
    ensures Exact(cfg, s)
  {
    hide Orderly;
    var actions: seq<Action> :| Orderly(cfg, actions) && Run(cfg, actions) == Some(s);
    RunExact(cfg, actions);
  }

  lemma {:induction false} RunPrefix(cfg: Config, actions: seq<Action>, n: nat)
    requires Run(cfg, actions).Some? && n <= |actions|
    ensures Run(cfg, actions[..n]).Some?
  {
    hide Enabled, Next;
    if n == |actions| {
      assert actions[..n] == actions;
    } else {
      RunPrefix(cfg, actions[..|actions| - 1], n);
      assert actions[..|actions| - 1][..n] == actions[..n];
    }
  }

  /** When all ids are distinct every run is orderly. */
  lemma DistinctIdsSuffice(cfg: Config, actions: seq<Action>)
    requires DistinctIds(cfg) && Run(cfg, actions).Some?
    ensures Orderly(cfg, actions) && OrderlyReachable(cfg, Run(cfg, actions).value)
  {
    forall n | 0 <= n <= |actions|
      ensures OrderlyAt(cfg, actions[..n])
    {
      RunPrefix(cfg, actions, n);
      RunInv(cfg, actions[..n]);
      var s := Run(cfg, actions[..n]).value;
      hide RunFrom;
      forall c: CallId, d: CallId | c < d < |s.phases| && InFlight(cfg, s, c) && InFlight(cfg, s, d)
        ensures cfg.IdOfCall(c) != cfg.IdOfCall(d)
      {
        assert CallOk(cfg, s, c);
      }
    }
  }
}
