/** The reconnect gate over all interleavings of callers, dials and connection deaths. Connections are
    numbered in the order in which they are made; number 0 is the one the client started with. */
module ReconnectGate {
  import opened Wrappers
  import opened Counting
  import Backoff

  type Task = nat
  type Gen = nat

  /** Where a request is: not begun; holding a snapshot it has not checked; queueing for the gate; inside
      it; inside with a second snapshot; dialing there, after so many refusals; holding a connection not
      yet installed; holding the transport it will use; finished, with the connection it was sent on. */
  datatype Phase =
    | Idle
    | Snapped(g: Gen)
    | Queued
    | Inside
    | Rechecking(g: Gen)
    | Dialing(g: Gen, refusals: nat)
    | Installing(g: Gen, made: Gen)
    | Using(g: Gen)
    | Finished(sentOn: Option<Gen>)

  /** `began` records the current connection at a request's first look; `sends` the writes, in order. */
  datatype State = State(
    current: Gen, alive: seq<bool>, gate: Option<Task>, tasks: seq<Phase>, began: seq<Gen>, sends: seq<(Task, Gen)>)
  {
    function Put(t: Task, p: Phase): State
      requires t < |tasks|
    {
      this.(tasks := tasks[t := p])
    }
  }

  datatype Action =
    | Snapshot(t: Task) | CheckAlive(t: Task) | EnterGate(t: Task) | SnapshotAgain(t: Task) | Recheck(t: Task)
    | DialRefused(t: Task) | DialUp(t: Task) | Install(t: Task) | Send(t: Task) | Cancel(t: Task)
    | Die(g: Gen)

  function Init(tasks: nat): State {
    State(0, [true], None, seq(tasks, _ => Idle), seq(tasks, _ => 0), [])
  }

  predicate Known(s: State, g: Gen) { g < |s.alive| }

  predicate Enabled(s: State, a: Action) {
    && |s.began| == |s.tasks|
    && match a {
         case Snapshot(t) => t < |s.tasks| && s.tasks[t].Idle?
         case CheckAlive(t) => t < |s.tasks| && s.tasks[t].Snapped? && Known(s, s.tasks[t].g)
         case EnterGate(t) => t < |s.tasks| && s.tasks[t].Queued? && s.gate.None?
         case SnapshotAgain(t) => t < |s.tasks| && s.tasks[t].Inside?
         case Recheck(t) => t < |s.tasks| && s.tasks[t].Rechecking? && Known(s, s.tasks[t].g)
         case DialRefused(t) => t < |s.tasks| && s.tasks[t].Dialing?
         case DialUp(t) => t < |s.tasks| && s.tasks[t].Dialing?
         case Install(t) => t < |s.tasks| && s.tasks[t].Installing?
         case Send(t) => t < |s.tasks| && s.tasks[t].Using? && Known(s, s.tasks[t].g)
         case Cancel(t) => t < |s.tasks| && (s.tasks[t].Queued? || s.tasks[t].Dialing?)
         case Die(g) => Known(s, g)
       }
  }

  function Next(policy: Backoff.RetryPolicy, s: State, a: Action): State
    requires Enabled(s, a)
  {
    match a
    case Snapshot(t) => s.Put(t, Snapped(s.current)).(began := s.began[t := s.current])
    case CheckAlive(t) => s.Put(t, if s.alive[s.tasks[t].g] then Using(s.tasks[t].g) else Queued)
    case EnterGate(t) => s.Put(t, Inside).(gate := Some(t))
    case SnapshotAgain(t) => s.Put(t, Rechecking(s.current))
    case Recheck(t) =>
      var g := s.tasks[t].g;
      if s.alive[g] then s.Put(t, Using(g)).(gate := None) else s.Put(t, Dialing(g, 0))
    case DialRefused(t) =>
      var n := s.tasks[t].refusals + 1;
      if n < Backoff.Attempts(policy) then s.Put(t, Dialing(s.tasks[t].g, n))
      else s.Put(t, Finished(None)).(gate := None)
    case DialUp(t) => s.Put(t, Installing(s.tasks[t].g, |s.alive|)).(alive := s.alive + [true])
    case Install(t) => s.Put(t, Using(s.tasks[t].made)).(current := s.tasks[t].made, gate := None)
    case Send(t) =>
      var g := s.tasks[t].g;
      if s.alive[g] then s.Put(t, Finished(Some(g))).(sends := s.sends + [(t, g)]) else s.Put(t, Finished(None))
    case Cancel(t) => s.Put(t, Finished(None)).(gate := if s.tasks[t].Dialing? then None else s.gate)
    case Die(g) => s.(alive := s.alive[g := false])
  }

  function RunFrom(policy: Backoff.RetryPolicy, s: State, actions: seq<Action>): Option<State> {
    if actions == [] then Some(s)
    else
      match RunFrom(policy, s, actions[..|actions| - 1])
      case None => None
      case Some(t) =>
        var a := actions[|actions| - 1];
        if Enabled(t, a) then Some(Next(policy, t, a)) else None
  }

  // ----- The invariant -----

  predicate HoldsGate(p: Phase) { p.Inside? || p.Rechecking? || p.Dialing? || p.Installing? }

  predicate BeingInstalled(s: State) {
    s.gate.Some? && s.gate.value < |s.tasks| && s.tasks[s.gate.value].Installing?
  }

  predicate TaskOk(policy: Backoff.RetryPolicy, s: State, t: Task)
    requires t < |s.tasks| == |s.began|
  {
    && (HoldsGate(s.tasks[t]) <==> s.gate == Some(t))
    && s.began[t] <= s.current
    && match s.tasks[t] {
         case Snapped(g) => s.began[t] <= g <= s.current
         case Using(g) => s.began[t] <= g <= s.current
         case Rechecking(g) => g == s.current
         case Dialing(g, refusals) => g == s.current && Known(s, g) && !s.alive[g] && refusals < Backoff.Attempts(policy)
         case Installing(g, made) => g == s.current && Known(s, g) && !s.alive[g] && made == g + 1
         case Finished(Some(g)) => s.began[t] <= g <= s.current
         case _ => true
       }
  }

  ghost predicate SendsOk(s: State) {
    && (forall i :: 0 <= i < |s.sends| ==> s.sends[i].0 < |s.tasks| && s.tasks[s.sends[i].0] == Finished(Some(s.sends[i].1)))
    && (forall i, j :: 0 <= i < j < |s.sends| ==> s.sends[i].0 != s.sends[j].0)
  }

  ghost predicate Inv(policy: Backoff.RetryPolicy, s: State) {
    && |s.began| == |s.tasks|
    && (s.gate.Some? ==> s.gate.value < |s.tasks|)
    && |s.alive| == s.current + (if BeingInstalled(s) then 2 else 1)
    && (forall g :: 0 <= g < s.current ==> !s.alive[g])
    && (forall t :: 0 <= t < |s.tasks| ==> TaskOk(policy, s, t))
    && SendsOk(s)
  }

  lemma OwnStep(policy: Backoff.RetryPolicy, s: State, a: Action)
    requires Inv(policy, s) && Enabled(s, a) && !a.Die?
    ensures TaskOk(policy, Next(policy, s, a), a.t)
  {
    assert TaskOk(policy, s, a.t);
    hide SendsOk;
  }

  lemma OtherStep(policy: Backoff.RetryPolicy, s: State, a: Action, t: Task)
    requires Inv(policy, s) && Enabled(s, a) && t < |s.tasks| && (!a.Die? ==> a.t != t)
    ensures TaskOk(policy, Next(policy, s, a), t)
  {
    assert TaskOk(policy, s, t);
    assert !a.Die? ==> TaskOk(policy, s, a.t);
    hide SendsOk;
    assert Next(policy, s, a).tasks[t] == s.tasks[t] && Next(policy, s, a).began[t] == s.began[t];
  }

  lemma TasksStep(policy: Backoff.RetryPolicy, s: State, a: Action, t: Task)
    requires Inv(policy, s) && Enabled(s, a) && t < |s.tasks|
    ensures TaskOk(policy, Next(policy, s, a), t)
  {
    hide Inv, Next, TaskOk;
    if !a.Die? && a.t == t {
      OwnStep(policy, s, a);
    } else {
      OtherStep(policy, s, a, t);
    }
  }

  lemma SendsStep(policy: Backoff.RetryPolicy, s: State, a: Action)
    requires SendsOk(s) && Enabled(s, a)
    ensures SendsOk(Next(policy, s, a))
  {
  }

  /** Only the dialer makes a connection, and only it replaces the current one, having found that dead. */
  lemma ConnectionsStep(policy: Backoff.RetryPolicy, s: State, a: Action)
    requires Inv(policy, s) && Enabled(s, a)
    ensures var u := Next(policy, s, a);
            && |u.began| == |u.tasks| && (u.gate.Some? ==> u.gate.value < |u.tasks|)
            && |u.alive| == u.current + (if BeingInstalled(u) then 2 else 1)
            && (forall g :: 0 <= g < u.current ==> !u.alive[g])
  {
    assert !a.Die? ==> TaskOk(policy, s, a.t);
    hide SendsOk;
  }

  lemma StepInv(policy: Backoff.RetryPolicy, s: State, a: Action)
    requires Inv(policy, s) && Enabled(s, a)
    ensures Inv(policy, Next(policy, s, a))
  {
    ConnectionsStep(policy, s, a);
    SendsStep(policy, s, a);
    var u := Next(policy, s, a);
    assert |u.tasks| == |s.tasks|;
    forall t | 0 <= t < |u.tasks|
      ensures TaskOk(policy, u, t)
    {
      TasksStep(policy, s, a, t);
    }
    hide Next, SendsOk, TaskOk;
  }

  lemma {:induction false} RunInv(policy: Backoff.RetryPolicy, tasks: nat, actions: seq<Action>)
    requires RunFrom(policy, Init(tasks), actions).Some?
    ensures Inv(policy, RunFrom(policy, Init(tasks), actions).value)
  {
    hide Next, Enabled;
    if actions != [] {
      var n := |actions| - 1;
      RunInv(policy, tasks, actions[..n]);
      hide Inv;
      StepInv(policy, RunFrom(policy, Init(tasks), actions[..n]).value, actions[n]);
    }
  }

  // ----- What holds in every run -----

  ghost predicate Reachable(policy: Backoff.RetryPolicy, s: State) {
    exists tasks: nat, actions: seq<Action> :: RunFrom(policy, Init(tasks), actions) == Some(s)
  }

  lemma ReachableInv(policy: Backoff.RetryPolicy, s: State)
    requires Reachable(policy, s)
    ensures Inv(policy, s)
  {
    var tasks: nat, actions: seq<Action> :| RunFrom(policy, Init(tasks), actions) == Some(s);
    RunInv(policy, tasks, actions);
  }

  /** At most one task dials, or holds a connection it has dialed. */
  lemma OneDialer(policy: Backoff.RetryPolicy, s: State, t: Task, u: Task)
    requires Reachable(policy, s) && t < |s.tasks| && u < |s.tasks|
    requires HoldsGate(s.tasks[t]) && HoldsGate(s.tasks[u])
    ensures t == u
  {
    ReachableInv(policy, s);
    assert TaskOk(policy, s, t) && TaskOk(policy, s, u);
  }

  /** The current connection changes only when the gate's holder installs the one it has made, and the
      one replaced is dead. */
  lemma ReplacedOnlyWhenDead(policy: Backoff.RetryPolicy, s: State, a: Action)
    requires Reachable(policy, s) && Enabled(s, a)
    ensures Known(s, s.current)
    ensures Next(policy, s, a).current != s.current <==> a.Install?
    ensures a.Install? ==>
              s.gate == Some(a.t) && !s.alive[s.current] && Next(policy, s, a).current == s.current + 1 == |s.alive| - 1
  {
    ReachableInv(policy, s);
    assert a.Install? ==> TaskOk(policy, s, a.t);
  }

  /** Inside the gate a task dials exactly when the current connection is still dead: whoever queued
      behind a successful dial uses its result. */
  lemma DialsOnlyIfStillDead(policy: Backoff.RetryPolicy, s: State, t: Task)
    requires Reachable(policy, s) && Enabled(s, Recheck(t))
    ensures Known(s, s.current)
    ensures Next(policy, s, Recheck(t)).tasks[t] == if s.alive[s.current] then Using(s.current) else Dialing(s.current, 0)
  {
    ReachableInv(policy, s);
    assert TaskOk(policy, s, t);
  }

  function Dead(s: State): set<Gen> { set g: Gen | 0 <= g < |s.alive| && !s.alive[g] }

  /** Connections made by re-dialing, hence replacements, never outnumber connections that have died. */
  lemma RedialsWithinDeaths(policy: Backoff.RetryPolicy, s: State)
    requires Reachable(policy, s)
    ensures s.current <= |s.alive| - 1 <= |Dead(s)|
  {
    ReachableInv(policy, s);
    assert BeingInstalled(s) ==> TaskOk(policy, s, s.gate.value);
    var n := |s.alive| - 1;
    SubsetCount(Below(n), Dead(s));
  }

  /** A request is written at most once, on one connection, and never on one older than the connection
      that was current when the request began. */
  lemma SentAtMostOnce(policy: Backoff.RetryPolicy, s: State, i: nat, j: nat)
    requires Reachable(policy, s) && i < |s.sends| && j < |s.sends| && s.sends[i].0 == s.sends[j].0
    ensures i == j
    ensures s.sends[i].0 < |s.tasks| == |s.began|
    ensures s.tasks[s.sends[i].0] == Finished(Some(s.sends[i].1))
    ensures s.began[s.sends[i].0] <= s.sends[i].1 <= s.current
  {
    ReachableInv(policy, s);
    assert TaskOk(policy, s, s.sends[i].0);
  }

  lemma {:induction false} SendsStay(policy: Backoff.RetryPolicy, s: State, actions: seq<Action>)
    requires RunFrom(policy, s, actions).Some?
    ensures s.sends <= RunFrom(policy, s, actions).value.sends
  {
    hide Next, Enabled;
    if actions != [] {
      var n := |actions| - 1;
      SendsStay(policy, s, actions[..n]);
      SendsStayStep(policy, RunFrom(policy, s, actions[..n]).value, actions[n]);
    }
  }

  lemma SendsStayStep(policy: Backoff.RetryPolicy, s: State, a: Action)
    requires Enabled(s, a)
    ensures s.sends <= Next(policy, s, a).sends
  {
  }

  lemma {:induction false} RunThenRun(policy: Backoff.RetryPolicy, s: State, before: seq<Action>, after: seq<Action>)
    requires RunFrom(policy, s, before).Some?
    ensures RunFrom(policy, s, before + after) == RunFrom(policy, RunFrom(policy, s, before).value, after)
  {
    hide Enabled, Next;
    if after == [] {
      assert before + after == before;
    } else {
      var n := |after| - 1;
      RunThenRun(policy, s, before, after[..n]);
      assert (before + after)[..|before| + n] == before + after[..n];
    }
  }

  /** A request that has been written is never written again, however the run goes on: it fails or it is
      answered, but it is not replayed. */
  lemma NeverReplayed(policy: Backoff.RetryPolicy, s: State, actions: seq<Action>, i: nat, j: nat)
    requires Reachable(policy, s) && RunFrom(policy, s, actions).Some?
    requires i < |s.sends| <= j < |RunFrom(policy, s, actions).value.sends|
    ensures RunFrom(policy, s, actions).value.sends[j].0 != s.sends[i].0
  {
    var u := RunFrom(policy, s, actions).value;
    var tasks: nat, before: seq<Action> :| RunFrom(policy, Init(tasks), before) == Some(s);
    RunThenRun(policy, Init(tasks), before, actions);
    assert Reachable(policy, u);
    SendsStay(policy, s, actions);
    assert u.sends[i] == s.sends[i];
    if u.sends[j].0 == s.sends[i].0 {
      SentAtMostOnce(policy, u, i, j);
    }
  }

  lemma {:induction false} Trace(policy: Backoff.RetryPolicy, states: seq<State>, actions: seq<Action>)
    requires |states| == |actions| + 1
    requires forall i :: 0 <= i < |actions| ==> Enabled(states[i], actions[i]) && states[i + 1] == Next(policy, states[i], actions[i])
    ensures RunFrom(policy, states[0], actions) == Some(states[|actions|])
  {
    hide Next, Enabled;
    if actions != [] {
      var n := |actions| - 1;
      Trace(policy, states[..n + 1], actions[..n]);
    }
  }

  /** The steps of a request that finds the connection dead, up to its first dial, and from there on when
      the socket answers. */
  function ToTheDial(t: Task): seq<Action> { [Snapshot(t), CheckAlive(t), EnterGate(t), SnapshotAgain(t), Recheck(t)] }

  function FromTheDial(t: Task): seq<Action> { [DialUp(t), Install(t), Send(t)] }

  lemma ReachesTheDial(policy: Backoff.RetryPolicy, s: State, t: Task)
    requires |s.began| == |s.tasks| && s.gate.None? && t < |s.tasks| && s.tasks[t].Idle?
    requires Known(s, s.current) && !s.alive[s.current]
    ensures RunFrom(policy, s, ToTheDial(t))
            == Some(s.Put(t, Dialing(s.current, 0)).(began := s.began[t := s.current], gate := Some(t)))
  {
    var g := s.current;
    var s1 := s.Put(t, Snapped(g)).(began := s.began[t := g]);
    var s2 := s1.Put(t, Queued);
    var s3 := s1.Put(t, Inside).(gate := Some(t));
    var s4 := s3.Put(t, Rechecking(g));
    var s5 := s3.Put(t, Dialing(g, 0));
    assert s5.tasks == s.tasks[t := Dialing(g, 0)];
    Trace(policy, [s, s1, s2, s3, s4, s5], ToTheDial(t));
  }

  lemma SendsFromTheDial(policy: Backoff.RetryPolicy, s: State, t: Task)
    requires |s.began| == |s.tasks| && t < |s.tasks| && s.tasks[t] == Dialing(s.current, 0)
    ensures RunFrom(policy, s, FromTheDial(t)).Some?
    ensures RunFrom(policy, s, FromTheDial(t)).value.sends == s.sends + [(t, |s.alive|)]
  {
    var g := |s.alive|;
    var s1 := s.Put(t, Installing(s.current, g)).(alive := s.alive + [true]);
    var s2 := s1.Put(t, Using(g)).(current := g, gate := None);
    var s3 := s2.Put(t, Finished(Some(g))).(sends := s.sends + [(t, g)]);
    Trace(policy, [s, s1, s2, s3], FromTheDial(t));
  }

  /** Under every policy, the one that is documented never to reconnect included, a request that finds the
      connection dead can be sent on a new one. */
  lemma EveryPolicyReconnects(policy: Backoff.RetryPolicy, s: State, t: Task)
    requires Reachable(policy, s) && s.gate.None? && t < |s.tasks| && s.tasks[t].Idle?
    requires Known(s, s.current) && !s.alive[s.current]
    ensures RunFrom(policy, s, ToTheDial(t) + FromTheDial(t)).Some?
    ensures RunFrom(policy, s, ToTheDial(t) + FromTheDial(t)).value.sends == s.sends + [(t, s.current + 1)]
  {
    ReachableInv(policy, s);
    hide RunFrom, ToTheDial, FromTheDial;
    ReachesTheDial(policy, s, t);
    SendsFromTheDial(policy, RunFrom(policy, s, ToTheDial(t)).value, t);
    RunThenRun(policy, s, ToTheDial(t), FromTheDial(t));
  }
}
