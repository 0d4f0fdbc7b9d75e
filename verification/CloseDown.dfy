/** What a caller may rely on over whole runs of the multiplexing client, and what it may not. */
module CloseDown {
  import opened Wrappers
  import opened Bytes
  import opened Framing
  import opened Protocol
  import opened Multiplex
  import opened Correlation
  import opened PendingMap

  lemma InitReachable(cfg: Config)
    ensures Reachable(cfg, Init(cfg))
  {
    assert Run(cfg, []) == Some(Init(cfg));
  }

  lemma StepReachable(cfg: Config, s: State, a: Action)
    requires Reachable(cfg, s) && Enabled(cfg, s, a)
    ensures Reachable(cfg, Next(cfg, s, a))
  {
    hide Enabled, Next;
    var actions :| Run(cfg, actions) == Some(s);
    assert (actions + [a])[..|actions|] == actions;
    assert Run(cfg, actions + [a]) == Some(Next(cfg, s, a));
  }

  lemma {:induction false} RunThenRun(cfg: Config, s: State, before: seq<Action>, after: seq<Action>)
    requires RunFrom(cfg, s, before).Some?
    ensures RunFrom(cfg, s, before + after) == RunFrom(cfg, RunFrom(cfg, s, before).value, after)
  {
    hide Enabled, Next;
    if after == [] {
      assert before + after == before;
    } else {
      var n := |after| - 1;
      RunThenRun(cfg, s, before, after[..n]);
      assert (before + after)[..|before| + n] == before + after[..n];
    }
  }

  // ----- The pending map -----

  /** With distinct ids in flight, in every reachable state, the map is exactly the calls that have
      registered, have not given up their guard, have not had their sender taken and were not cleared. */
  lemma PendingIsExact(cfg: Config, s: State, id: Id, c: CallId)
    requires OrderlyReachable(cfg, s)
    ensures id in s.pending && s.pending[id] == c <==>
            && cfg.IsCall(c) && c < |s.phases| && cfg.IdOfCall(c) == Some(id)
            && Guarded(s.phases[c]) && c !in s.answeredBy && !Cleared(s, c)
  {
    ReachableExact(cfg, s);
    assert id in s.pending ==> PendingEntryOk(cfg, s, id);
    assert c < |s.phases| ==> ExactOk(cfg, s, c);
  }

  /** The call is in flight under this id and no reply has been taken for it yet. */
  predicate Awaits(cfg: Config, s: State, c: CallId, id: Id)
    requires c < |s.phases| == |cfg.messages|
  {
    InFlight(cfg, s, c) && cfg.IdOfCall(c) == Some(id) && c !in s.answeredBy
  }

  /** Whom a frame reaches: the call in flight under its id that has not been answered. */
  lemma FrameReachesItsWaiter(cfg: Config, s: State, frame: seq<byte>, c: CallId)
    requires OrderlyReachable(cfg, s) && Enabled(cfg, s, Take(frame)) && c < |s.phases|
    ensures Next(cfg, s, Take(frame)).taken == s.taken + [(frame, Some(c))]
            <==> cfg.idOf(frame).Some? && Awaits(cfg, s, c, cfg.idOf(frame).value)
  {
    ReachableExact(cfg, s);
    hide Exact, Inv;
    if cfg.idOf(frame).Some? {
      PendingIsExact(cfg, s, cfg.idOf(frame).value, c);
    }
    ReceivingIsOpen(cfg, s);
    hide OrderlyReachable;
    var taken := Next(cfg, s, Take(frame)).taken;
    assert taken[|s.taken|] == (frame, Some(c)) ==> taken == s.taken + [(frame, Some(c))];
  }

  lemma ReceivingIsOpen(cfg: Config, s: State)
    requires s.reader.Receiving?
    ensures forall c :: !Cleared(s, c)
  {
  }

  /** Every other frame changes nothing but the record of arrivals: a frame without an id, a frame under an
      id that is nobody's, and a second reply to a call that has been answered. */
  lemma StrayFramesIgnored(cfg: Config, s: State, frame: seq<byte>)
    requires OrderlyReachable(cfg, s) && Enabled(cfg, s, Take(frame))
    ensures Next(cfg, s, Take(frame)) == s.(taken := s.taken + [(frame, None)])
            <==> cfg.idOf(frame).None? || forall c :: 0 <= c < |s.phases| ==> !Awaits(cfg, s, c, cfg.idOf(frame).value)
  {
    NobodyTakes(cfg, s, frame);
    ReachableExact(cfg, s);
    if cfg.idOf(frame).Some? {
      InMapIffAwaited(cfg, s, cfg.idOf(frame).value);
    }
    hide Next, Inv, Exact, Awaits, OrderlyReachable;
  }

  lemma InMapIffAwaited(cfg: Config, s: State, id: Id)
    requires OrderlyReachable(cfg, s) && s.reader.Receiving? && |s.phases| == |cfg.messages|
    ensures id in s.pending <==> exists c :: 0 <= c < |s.phases| && Awaits(cfg, s, c, id)
  {
    if id in s.pending {
      PendingIsExact(cfg, s, id, s.pending[id]);
      assert Awaits(cfg, s, s.pending[id], id);
    }
    forall c | 0 <= c < |s.phases| && Awaits(cfg, s, c, id)
      ensures id in s.pending
    {
      PendingIsExact(cfg, s, id, c);
    }
  }

  lemma NobodyTakes(cfg: Config, s: State, frame: seq<byte>)
    requires Enabled(cfg, s, Take(frame))
    ensures Next(cfg, s, Take(frame)) == s.(taken := s.taken + [(frame, None)])
            <==> cfg.idOf(frame).None? || cfg.idOf(frame).value !in s.pending
  {
    hide Encode;
    assert Next(cfg, s, Take(frame)).taken[|s.taken|].1.None? <==> cfg.idOf(frame).None? || cfg.idOf(frame).value !in s.pending;
  }

  /** In particular a duplicate reply, while its call is in flight; and afterwards too, unless the id has
      been taken up by another call. */
  lemma DuplicateReplyIgnored(cfg: Config, s: State, frame: seq<byte>, c: CallId)
    requires OrderlyReachable(cfg, s) && Enabled(cfg, s, Take(frame))
    requires c < |s.phases| && cfg.IsCall(c) && c in s.answeredBy
    requires cfg.idOf(frame).Some? && cfg.idOf(frame) == cfg.IdOfCall(c)
    requires InFlight(cfg, s, c) || forall d :: 0 <= d < |s.phases| && InFlight(cfg, s, d) ==> cfg.IdOfCall(d) != cfg.IdOfCall(c)
    ensures Next(cfg, s, Take(frame)) == s.(taken := s.taken + [(frame, None)])
  {
    ReachableExact(cfg, s);
    if InFlight(cfg, s, c) {
      SameIdSameCall(cfg, s, c);
    }
    hide Next, Enabled, Inv, OrderlyReachable;
    StrayFramesIgnored(cfg, s, frame);
  }

  /** Two calls under one id: the second registration costs the first its waiter. */
  lemma DuplicateDisplaces(cfg: Config, c: CallId, d: CallId) returns (s: State)
    requires c < d && cfg.IsCall(c) && cfg.IsCall(d)
    requires cfg.IdOfCall(c).Some? && cfg.IdOfCall(c) == cfg.IdOfCall(d)
    ensures Reachable(cfg, s) && s.connected && IsWaiter(cfg, s, c) && s.channels[c].Dropped?
  {
    hide Encode, Reachable;
    InitReachable(cfg);
    StepReachable(cfg, Init(cfg), Check(c));
    var s1 := Next(cfg, Init(cfg), Check(c));
    StepReachable(cfg, s1, Register(c));
    var s2 := Next(cfg, s1, Register(c));
    StepReachable(cfg, s2, Check(d));
    var s3 := Next(cfg, s2, Check(d));
    StepReachable(cfg, s3, Register(d));
    s := Next(cfg, s3, Register(d));
  }

  /** A registered call that can still be answered. */
  ghost predicate IsWaiter(cfg: Config, s: State, c: CallId) {
    c < |s.phases| == |s.channels| && cfg.IsCall(c) && cfg.IdOfCall(c).Some? && Listening(s.phases[c])
  }

  /** While the connection lives and ids in flight are distinct, no waiter is dropped. */
  lemma WaiterKeepsItsSender(cfg: Config, s: State, c: CallId)
    requires OrderlyReachable(cfg, s) && s.connected && IsWaiter(cfg, s, c)
    ensures !s.channels[c].Dropped?
  {
    ReachableExact(cfg, s);
    assert ExactOk(cfg, s, c);
  }

  /** So in every run, exactly when all ids are distinct: no waiter is dropped while the connection lives. */
  lemma NoSpuriousFailure(cfg: Config)
    ensures (forall s: State, c: CallId :: Reachable(cfg, s) && s.connected && IsWaiter(cfg, s, c) ==> !s.channels[c].Dropped?)
            <==> DistinctIds(cfg)
  {
    hide Encode, Next, Enabled, RunFrom;
    if DistinctIds(cfg) {
      forall s: State, c: CallId | Reachable(cfg, s) && s.connected && IsWaiter(cfg, s, c)
        ensures !s.channels[c].Dropped?
      {
        var actions :| Run(cfg, actions) == Some(s);
        DistinctIdsSuffice(cfg, actions);
        WaiterKeepsItsSender(cfg, s, c);
      }
    } else {
      var c: CallId, d: CallId :|
        c < d && cfg.IsCall(c) && cfg.IsCall(d) && cfg.IdOfCall(c).Some? && cfg.IdOfCall(c) == cfg.IdOfCall(d);
      var s := DuplicateDisplaces(cfg, c, d);
    }
  }

  // ----- After the reader has exited -----

  /** Once the reader has cleared the map, a waiting call can finish exactly when it registered before the
      clear; if no reply had been taken for it, it finishes with `ConnectionClosed`. */
  lemma WaiterResolvesIffInTime(cfg: Config, s: State, c: CallId)
    requires OrderlyReachable(cfg, s) && s.reader.Exited?
    requires c < |s.phases| && s.phases[c].Waiting?
    ensures Enabled(cfg, s, Receive(c)) <==> c !in s.late
    ensures c !in s.late && c !in s.answeredBy ==> Next(cfg, s, Receive(c)).phases[c] == Done(ConnectionClosed)
  {
    hide Encode;
    ReachableExact(cfg, s);
    assert CallOk(cfg, s, c) && ExactOk(cfg, s, c);
  }

  lemma {:induction false} LateIsForever(cfg: Config, s: State, actions: seq<Action>)
    requires RunFrom(cfg, s, actions).Some?
    ensures s.late <= RunFrom(cfg, s, actions).value.late
  {
    hide Next, Enabled;
    if actions != [] {
      LateIsForever(cfg, s, actions[..|actions| - 1]);
      LateGrows(cfg, RunFrom(cfg, s, actions[..|actions| - 1]).value, actions[|actions| - 1]);
    }
  }

  lemma LateGrows(cfg: Config, s: State, a: Action)
    requires Enabled(cfg, s, a)
    ensures s.late <= Next(cfg, s, a).late
  {
    hide Encode;
  }

  /** A call that registered after the clear is never answered and never told that the connection is
      closed, however the run goes on: it ends by its caller's cancellation, by a write error, or not at all. */
  lemma LateCallNeverResolves(cfg: Config, before: seq<Action>, after: seq<Action>, c: CallId)
    requires Orderly(cfg, before + after)
    requires Run(cfg, before).Some? && c in Run(cfg, before).value.late
    requires cfg.IsCall(c) && cfg.IdOfCall(c).Some?
    ensures Run(cfg, before + after).Some?
    ensures var t := Run(cfg, before + after).value;
            && c < |t.phases|
            && (t.phases[c].Done? ==> t.phases[c].outcome == WriteError || t.phases[c].outcome == Cancelled)
  {
    RunExact(cfg, before + after);
    RunThenRun(cfg, Init(cfg), before, after);
    LateIsForever(cfg, Run(cfg, before).value, after);
    assert ExactOk(cfg, Run(cfg, before + after).value, c);
  }

  /** And it can happen to any call: check, then the reader stops and clears, then register. */
  lemma AnyCallCanBeLate(cfg: Config, c: CallId) returns (s: State)
    requires cfg.IsCall(c) && cfg.IdOfCall(c).Some?
    ensures Reachable(cfg, s) && s.reader.Exited? && c in s.late && c < |s.phases| && s.phases[c].Ready?
  {
    hide Encode, Reachable;
    InitReachable(cfg);
    StepReachable(cfg, Init(cfg), Check(c));
    var s1 := Next(cfg, Init(cfg), Check(c));
    StepReachable(cfg, s1, Stop);
    var s2 := Next(cfg, s1, Stop);
    StepReachable(cfg, s2, Clear);
    var s3 := Next(cfg, s2, Clear);
    StepReachable(cfg, s3, Register(c));
    s := Next(cfg, s3, Register(c));
  }

  ghost function CheckedCalls(s: State): set<CallId> {
    set c | 0 <= c < |s.phases| && s.phases[c].Checked?
  }

  /** What holds from the store on, of the state `s` at the store and a later state `t`. */
  ghost predicate StaysDown(cfg: Config, s: State, t: State) {
    && !t.connected && |t.phases| == |t.channels| == |cfg.messages|
    && CheckedCalls(t) <= CheckedCalls(s)
    && t.late <= s.late + CheckedCalls(s)
    && (forall id :: id in t.pending ==> t.pending[id] in s.pending.Values + CheckedCalls(s))
  }

  lemma StaysOutDown(cfg: Config, s: State, t: State, a: Action)
    requires StaysDown(cfg, s, t) && Enabled(cfg, t, a) && StaysOut(cfg, a)
    ensures StaysDown(cfg, s, Next(cfg, t, a))
  {
    StaysOutStep(cfg, t, a);
    assert a.Check? ==> Next(cfg, t, a).phases[a.c] == Done(ConnectionClosed) by { hide Encode; }
    hide Encode, Next, Enabled;
    var u := Next(cfg, t, a);
    forall c | c in CheckedCalls(u)
      ensures c in CheckedCalls(t)
    {
      assert c != a.c ==> u.phases[c] == t.phases[c];
    }
  }

  lemma StaysDownStep(cfg: Config, s: State, t: State, a: Action)
    requires StaysDown(cfg, s, t) && Enabled(cfg, t, a)
    ensures StaysDown(cfg, s, Next(cfg, t, a))
  {
    if StaysOut(cfg, a) {
      hide Encode, Next, Enabled;
      StaysOutDown(cfg, s, t, a);
    } else {
      hide Encode;
      assert a.Register? ==> a.c in CheckedCalls(t);
    }
  }

  /** After `store(false)`: the connection stays down; the calls past the check but not yet registered
      only become fewer; and only they can still enter the map. */
  lemma {:induction false} AfterStore(cfg: Config, s: State, actions: seq<Action>)
    requires !s.connected && |s.phases| == |s.channels| == |cfg.messages|
    requires RunFrom(cfg, s, actions).Some?
    ensures StaysDown(cfg, s, RunFrom(cfg, s, actions).value)
  {
    hide Next, Enabled;
    if actions != [] {
      var n := |actions| - 1;
      AfterStore(cfg, s, actions[..n]);
      StaysDownStep(cfg, s, RunFrom(cfg, s, actions[..n]).value, actions[n]);
    }
  }

  /** After the store, a call that had not begun has not begun or has failed, and has written nothing. */
  ghost predicate KeptOut(s: State, t: State, c: CallId) {
    && !t.connected
    && c < |t.phases| && (t.phases[c].NotStarted? || t.phases[c] == Done(ConnectionClosed))
    && t.writer != Some(c) && (forall id :: id in t.pending ==> t.pending[id] != c)
    && s.written <= t.written && (forall i :: |s.written| <= i < |t.written| ==> t.written[i].0 != c)
  }

  lemma WrittenByItsWriter(cfg: Config, t: State, a: Action)
    requires Enabled(cfg, t, a)
    ensures var u := Next(cfg, t, a);
            || u.written == t.written
            || ((a.Finish? || a.Fail? || a.Cancel?) && a.c < |t.phases| && t.phases[a.c].Writing?
                && u.written == t.written + [(a.c, t.phases[a.c].sent)])
  {
    hide Encode;
  }

  lemma KeptOutStep(cfg: Config, s: State, t: State, c: CallId, a: Action)
    requires KeptOut(s, t, c) && Enabled(cfg, t, a)
    ensures KeptOut(s, Next(cfg, t, a), c)
  {
    WrittenByItsWriter(cfg, t, a);
    hide Encode;
    var u := Next(cfg, t, a);
    assert u.phases[c].NotStarted? || u.phases[c] == Done(ConnectionClosed);
    assert !u.connected && u.writer != Some(c);
    assert forall id :: id in u.pending ==> u.pending[id] != c;
    hide Next, Enabled;
  }

  /** After `store(false)`, a call that begins fails at once and writes nothing. */
  lemma {:induction false} NewCallsFailFast(cfg: Config, s: State, c: CallId, actions: seq<Action>)
    requires Inv(cfg, s) && !s.connected && c < |s.phases| && s.phases[c].NotStarted?
    requires RunFrom(cfg, s, actions).Some?
    ensures KeptOut(s, RunFrom(cfg, s, actions).value, c)
  {
    hide Next, Enabled;
    if actions == [] {
      assert forall id :: id in s.pending ==> PendingEntryOk(cfg, s, id);
    } else {
      var n := |actions| - 1;
      NewCallsFailFast(cfg, s, c, actions[..n]);
      KeptOutStep(cfg, s, RunFrom(cfg, s, actions[..n]).value, c, actions[n]);
    }
  }
}
