/** The re-dialing client as a whole: the reconnect gate and every connection it has made, each with both its
    ends. A connection counts as alive until its reader stops; a call goes to the connection the gate gives
    it; and all connections share one numbering of calls, hence one supply of ids. */
module Reconnecting {
  import opened Wrappers
  import opened Bytes
  import opened Json
  import opened Protocol
  import opened Framing
  import opened Multiplex
  import opened Wire
  import opened Server
  import opened Peer
  import opened EndToEnd
  import opened Origins
  import opened IdReuse
  import opened Calls
  import opened Gateway
  import opened Witness
  import opened Client
  import Backoff
  import Gate = ReconnectGate

  /** The gate; the connections in the order in which they were made; and what has happened: the state in
      which each connection found its peer, its events, and the connection each call has gone to. */
  datatype Redialer<+S> = Redialer(
    gate: Gate.State, conns: seq<World<S>>, initials: seq<S>, logs: seq<seq<Event>>, on: map<CallId, nat>)

  /** A step of the gate that concerns no connection; a dial that gets through; a call beginning on the
      connection it was given; any other event of a connection. */
  datatype Step<+S> =
    | GateActs(a: Gate.Action)
    | Dials(t: CallId, initial: S)
    | Begins(t: CallId)
    | Goes(g: nat, e: Event)

  predicate Internal(a: Gate.Action) { !a.DialUp? && !a.Send? && !a.Die? }

  predicate CanStep<S>(cfg: Config, sv: Service<S>, r: Redialer<S>, st: Step<S>) {
    match st
    case GateActs(a) => Internal(a) && Gate.Enabled(r.gate, a)
    case Dials(t, _) => Gate.Enabled(r.gate, Gate.DialUp(t))
    case Begins(t) =>
      && Gate.Enabled(r.gate, Gate.Send(t)) && |r.conns| == |r.logs|
      && r.gate.tasks[t].g < |r.conns| && CanHappen(cfg, sv, r.conns[r.gate.tasks[t].g], ClientActs(Check(t)))
    case Goes(g, e) =>
      && g < |r.conns| == |r.logs| && CanHappen(cfg, sv, r.conns[g], e) && !(e.ClientActs? && e.a.Check?)
      && Gate.Enabled(r.gate, Gate.Die(g))
  }

  function AtConnection<S>(cfg: Config, sv: Service<S>, r: Redialer<S>, g: nat, e: Event): Redialer<S>
    requires g < |r.conns| == |r.logs| && CanHappen(cfg, sv, r.conns[g], e)
  {
    r.(conns := r.conns[g := Happen(cfg, sv, r.conns[g], e)], logs := r.logs[g := r.logs[g] + [e]])
  }

  function Do<S>(policy: Backoff.RetryPolicy, cfg: Config, sv: Service<S>, r: Redialer<S>, st: Step<S>): Redialer<S>
    requires CanStep(cfg, sv, r, st)
  {
    match st
    case GateActs(a) => r.(gate := Gate.Next(policy, r.gate, a))
    case Dials(t, initial) =>
      r.(gate := Gate.Next(policy, r.gate, Gate.DialUp(t)),
         conns := r.conns + [Start(cfg, initial)], initials := r.initials + [initial], logs := r.logs + [[]])
    case Begins(t) =>
      var g := r.gate.tasks[t].g;
      AtConnection(cfg, sv, r, g, ClientActs(Check(t)))
        .(gate := Gate.Next(policy, r.gate, Gate.Send(t)), on := r.on[t := g])
    case Goes(g, e) =>
      AtConnection(cfg, sv, r, g, e)
        .(gate := if e == ClientActs(Stop) then Gate.Next(policy, r.gate, Gate.Die(g)) else r.gate)
  }

  function Connected<S>(cfg: Config, initial: S): Redialer<S> {
    Redialer(Gate.Init(|cfg.messages|), [Start(cfg, initial)], [initial], [[]], map[])
  }

  function AfterSteps<S>(policy: Backoff.RetryPolicy, cfg: Config, sv: Service<S>, initial: S, steps: seq<Step<S>>): Option<Redialer<S>> {
    if steps == [] then Some(Connected(cfg, initial))
    else
      match AfterSteps(policy, cfg, sv, initial, steps[..|steps| - 1])
      case None => None
      case Some(r) =>
        var st := steps[|steps| - 1];
        if CanStep(cfg, sv, r, st) then Some(Do(policy, cfg, sv, r, st)) else None
  }

  // ----- The invariant -----

  ghost predicate Sizes<S>(cfg: Config, r: Redialer<S>) {
    && |r.conns| == |r.initials| == |r.logs| == |r.gate.alive| && |r.gate.tasks| == |cfg.messages|
    && forall g :: 0 <= g < |r.conns| ==> |r.conns[g].mux.phases| == |cfg.messages|
  }

  /** Connection `g` is a run of its own, alive until its reader stops. */
  ghost predicate ConnectionOk<S>(cfg: Config, sv: Service<S>, r: Redialer<S>, g: nat)
    requires Sizes(cfg, r) && g < |r.conns|
  {
    && After(cfg, sv, r.initials[g], r.logs[g]) == Some(r.conns[g])
    && (r.gate.alive[g] <==> r.conns[g].mux.connected)
  }

  /** Whoever has begun on connection `g` has gone there. */
  ghost predicate BegunOk<S>(cfg: Config, r: Redialer<S>, g: nat, t: CallId)
    requires Sizes(cfg, r) && g < |r.conns| && t < |cfg.messages|
  {
    !r.conns[g].mux.phases[t].NotStarted? ==> t in r.on && r.on[t] == g && r.gate.tasks[t].Finished?
  }

  ghost predicate ClientOk<S>(policy: Backoff.RetryPolicy, cfg: Config, sv: Service<S>, r: Redialer<S>) {
    && Gate.Inv(policy, r.gate) && Sizes(cfg, r)
    && (forall g :: 0 <= g < |r.conns| ==> ConnectionOk(cfg, sv, r, g))
    && (forall g, t :: 0 <= g < |r.conns| && 0 <= t < |cfg.messages| ==> BegunOk(cfg, r, g, t))
  }

  /** What an event of a connection can do to its flag and to calls that have not begun. */
  lemma EventTouches<S>(cfg: Config, sv: Service<S>, w: World<S>, e: Event)
    requires CanHappen(cfg, sv, w, e)
    ensures var v := Happen(cfg, sv, w, e);
            && |v.mux.phases| == |w.mux.phases|
            && v.mux.connected == (w.mux.connected && e != ClientActs(Stop))
            && (forall t :: 0 <= t < |w.mux.phases| ==>
                  (v.mux.phases[t].NotStarted? <==> w.mux.phases[t].NotStarted? && e != ClientActs(Check(t))))
            && (e.ClientActs? && e.a.Check? ==> e.a.c < |w.mux.phases| && w.mux.phases[e.a.c].NotStarted?)
  {
    HappensToClient(cfg, sv, w, e);
    var a := ActionOf(cfg, w, e);
    assert e.ClientActs? && e.a.Check? ==> Enabled(cfg, w.mux, e.a);
    hide Happen, CanHappen, HandleBytes;
    if a.Some? { ActionTouches(cfg, w.mux, a.value); }
  }

  lemma ActionTouches(cfg: Config, s: State, a: Action)
    requires Enabled(cfg, s, a)
    ensures var t := Next(cfg, s, a);
            && |t.phases| == |s.phases| && t.connected == (s.connected && !a.Stop?)
            && (forall c :: 0 <= c < |s.phases| ==>
                  (t.phases[c].NotStarted? <==> s.phases[c].NotStarted? && a != Check(c)))
  {
    hide Encode;
    if a.Take? || a.Deliver? || a.Stop? || a.Clear? {
      assert Next(cfg, s, a).phases == s.phases;
    } else {
      assert Next(cfg, s, a).phases == s.phases[a.c := Next(cfg, s, a).phases[a.c]];
    }
  }

  lemma OneMoreLogged<S>(cfg: Config, sv: Service<S>, initial: S, events: seq<Event>, w: World<S>, e: Event)
    requires After(cfg, sv, initial, events) == Some(w) && CanHappen(cfg, sv, w, e)
    ensures After(cfg, sv, initial, events + [e]) == Some(Happen(cfg, sv, w, e))
  {
    hide CanHappen, Happen;
    assert (events + [e])[..|events|] == events;
  }

  /** What the gate does to the flags and to finished requests. */
  lemma GateTouches(policy: Backoff.RetryPolicy, s: Gate.State, a: Gate.Action)
    requires Gate.Enabled(s, a)
    ensures var u := Gate.Next(policy, s, a);
            && |u.tasks| == |s.tasks|
            && u.alive == (match a { case DialUp(_) => s.alive + [true] case Die(g) => s.alive[g := false] case _ => s.alive })
            && (forall t :: 0 <= t < |s.tasks| && s.tasks[t].Finished? ==> u.tasks[t].Finished?)
            && (a.Send? ==> u.tasks[a.t].Finished?)
  {
  }

  lemma ConnectionStep<S>(policy: Backoff.RetryPolicy, cfg: Config, sv: Service<S>, r: Redialer<S>, g: nat, e: Event, gate: Gate.State, on: map<CallId, nat>)
    requires ClientOk(policy, cfg, sv, r) && g < |r.conns| && CanHappen(cfg, sv, r.conns[g], e)
    requires Gate.Inv(policy, gate) && |gate.tasks| == |r.gate.tasks|
    requires gate.alive == if e == ClientActs(Stop) then r.gate.alive[g := false] else r.gate.alive
    requires forall t :: 0 <= t < |r.gate.tasks| && r.gate.tasks[t].Finished? ==> gate.tasks[t].Finished?
    requires forall t :: t in r.on && t < |cfg.messages| && r.gate.tasks[t].Finished? ==> t in on && on[t] == r.on[t]
    requires e.ClientActs? && e.a.Check? ==> e.a.c in on && on[e.a.c] == g && e.a.c < |gate.tasks| && gate.tasks[e.a.c].Finished?
    ensures ClientOk(policy, cfg, sv, AtConnection(cfg, sv, r, g, e).(gate := gate, on := on))
  {
    EventTouches(cfg, sv, r.conns[g], e);
    assert ConnectionOk(cfg, sv, r, g);
    OneMoreLogged(cfg, sv, r.initials[g], r.logs[g], r.conns[g], e);
    hide After, Happen, CanHappen, Gate.Inv;
    var v := AtConnection(cfg, sv, r, g, e).(gate := gate, on := on);
    assert Sizes(cfg, v);
    forall h | 0 <= h < |v.conns|
      ensures ConnectionOk(cfg, sv, v, h)
    {
      assert ConnectionOk(cfg, sv, r, h);
    }
    forall h, t | 0 <= h < |v.conns| && 0 <= t < |cfg.messages|
      ensures BegunOk(cfg, v, h, t)
    {
      assert BegunOk(cfg, r, h, t);
    }
  }

  lemma GateStep<S>(policy: Backoff.RetryPolicy, cfg: Config, sv: Service<S>, r: Redialer<S>, a: Gate.Action)
    requires ClientOk(policy, cfg, sv, r) && Internal(a) && Gate.Enabled(r.gate, a)
    ensures ClientOk(policy, cfg, sv, r.(gate := Gate.Next(policy, r.gate, a)))
  {
    Gate.StepInv(policy, r.gate, a);
    GateTouches(policy, r.gate, a);
    hide After, Gate.Inv, Gate.Next, Gate.Enabled;
    var v := r.(gate := Gate.Next(policy, r.gate, a));
    forall g | 0 <= g < |v.conns|
      ensures ConnectionOk(cfg, sv, v, g)
    {
      assert ConnectionOk(cfg, sv, r, g);
    }
    forall g, t | 0 <= g < |v.conns| && 0 <= t < |cfg.messages|
      ensures BegunOk(cfg, v, g, t)
    {
      assert BegunOk(cfg, r, g, t);
    }
  }

  lemma DialStep<S>(policy: Backoff.RetryPolicy, cfg: Config, sv: Service<S>, r: Redialer<S>, c: CallId, initial: S)
    requires ClientOk(policy, cfg, sv, r) && CanStep(cfg, sv, r, Dials(c, initial))
    ensures ClientOk(policy, cfg, sv, Do(policy, cfg, sv, r, Dials(c, initial)))
  {
    Gate.StepInv(policy, r.gate, Gate.DialUp(c));
    GateTouches(policy, r.gate, Gate.DialUp(c));
    assert After(cfg, sv, initial, []) == Some(Start(cfg, initial));
    hide After, Gate.Inv, Gate.Next, Gate.Enabled, HandleBytes;
    var v := Do(policy, cfg, sv, r, Dials(c, initial));
    assert Sizes(cfg, v);
    forall g | 0 <= g < |v.conns|
      ensures ConnectionOk(cfg, sv, v, g)
    {
      assert g < |r.conns| ==> ConnectionOk(cfg, sv, r, g);
    }
    forall g, t | 0 <= g < |v.conns| && 0 <= t < |cfg.messages|
      ensures BegunOk(cfg, v, g, t)
    {
      assert g < |r.conns| ==> BegunOk(cfg, r, g, t);
    }
  }

  lemma BeginStep<S>(policy: Backoff.RetryPolicy, cfg: Config, sv: Service<S>, r: Redialer<S>, t: CallId)
    requires ClientOk(policy, cfg, sv, r) && CanStep(cfg, sv, r, Begins(t))
    ensures ClientOk(policy, cfg, sv, Do(policy, cfg, sv, r, Begins(t)))
  {
    Gate.StepInv(policy, r.gate, Gate.Send(t));
    GateTouches(policy, r.gate, Gate.Send(t));
    var g := r.gate.tasks[t].g;
    assert !r.gate.tasks[t].Finished?;
    hide After, Gate.Inv, Gate.Next, HandleBytes, Happen, ConnectionOk, BegunOk;
    ConnectionStep(policy, cfg, sv, r, g, ClientActs(Check(t)), Gate.Next(policy, r.gate, Gate.Send(t)), r.on[t := g]);
  }

  lemma GoStep<S>(policy: Backoff.RetryPolicy, cfg: Config, sv: Service<S>, r: Redialer<S>, g: nat, e: Event)
    requires ClientOk(policy, cfg, sv, r) && CanStep(cfg, sv, r, Goes(g, e))
    ensures ClientOk(policy, cfg, sv, Do(policy, cfg, sv, r, Goes(g, e)))
  {
    if e == ClientActs(Stop) {
      Gate.StepInv(policy, r.gate, Gate.Die(g));
      GateTouches(policy, r.gate, Gate.Die(g));
    }
    hide After, Gate.Inv, Gate.Next, HandleBytes, Happen, ConnectionOk, BegunOk;
    ConnectionStep(policy, cfg, sv, r, g, e,
                   if e == ClientActs(Stop) then Gate.Next(policy, r.gate, Gate.Die(g)) else r.gate, r.on);
  }

  lemma {:induction false} StepsOk<S>(policy: Backoff.RetryPolicy, cfg: Config, sv: Service<S>, initial: S, steps: seq<Step<S>>)
    requires AfterSteps(policy, cfg, sv, initial, steps).Some?
    ensures ClientOk(policy, cfg, sv, AfterSteps(policy, cfg, sv, initial, steps).value)
  {
    if steps == [] {
      hide HandleBytes;
      assert After(cfg, sv, initial, []) == Some(Start(cfg, initial));
      var r := Connected(cfg, initial);
      assert Gate.RunFrom(policy, Gate.Init(|cfg.messages|), []) == Some(Gate.Init(|cfg.messages|));
      Gate.RunInv(policy, |cfg.messages|, []);
      hide After, Gate.Inv;
      assert Sizes(cfg, r) && ConnectionOk(cfg, sv, r, 0);
      assert forall t :: 0 <= t < |cfg.messages| ==> BegunOk(cfg, r, 0, t);
    } else {
      var n := |steps| - 1;
      StepsOk(policy, cfg, sv, initial, steps[..n]);
      var r := AfterSteps(policy, cfg, sv, initial, steps[..n]).value;
      hide ClientOk, CanStep, Do;
      match steps[n]
      case GateActs(a) => OneGateStep(policy, cfg, sv, r, a);
      case Dials(t, i) => DialStep(policy, cfg, sv, r, t, i);
      case Begins(t) => BeginStep(policy, cfg, sv, r, t);
      case Goes(g, e) => GoStep(policy, cfg, sv, r, g, e);
    }
  }

  lemma OneGateStep<S>(policy: Backoff.RetryPolicy, cfg: Config, sv: Service<S>, r: Redialer<S>, a: Gate.Action)
    requires ClientOk(policy, cfg, sv, r) && CanStep(cfg, sv, r, GateActs(a))
    ensures ClientOk(policy, cfg, sv, Do(policy, cfg, sv, r, GateActs(a)))
  {
    hide ClientOk, Gate.Next, Gate.Enabled;
    GateStep(policy, cfg, sv, r, a);
  }

  // ----- What a caller may rely on across connections -----

  /** The gate takes a connection for alive exactly while its reader is. */
  lemma AliveWhileReading<S>(policy: Backoff.RetryPolicy, cfg: Config, sv: Service<S>, initial: S, steps: seq<Step<S>>, g: nat)
    requires AfterSteps(policy, cfg, sv, initial, steps).Some?
    ensures var r := AfterSteps(policy, cfg, sv, initial, steps).value;
            |r.conns| == |r.gate.alive| && (g < |r.conns| ==> (r.gate.alive[g] <==> r.conns[g].mux.connected))
  {
    StepsOk(policy, cfg, sv, initial, steps);
    var r := AfterSteps(policy, cfg, sv, initial, steps).value;
    hide AfterSteps, Gate.Inv, After;
    assert g < |r.conns| ==> ConnectionOk(cfg, sv, r, g);
  }

  /** No call begins on two connections. */
  lemma BegunOnOneConnection<S>(
    policy: Backoff.RetryPolicy, cfg: Config, sv: Service<S>, initial: S, steps: seq<Step<S>>, t: CallId, g: nat, h: nat)
    requires AfterSteps(policy, cfg, sv, initial, steps).Some? && t < |cfg.messages|
    requires var r := AfterSteps(policy, cfg, sv, initial, steps).value;
             && g < |r.conns| && h < |r.conns| && t < |r.conns[g].mux.phases| && t < |r.conns[h].mux.phases|
             && !r.conns[g].mux.phases[t].NotStarted? && !r.conns[h].mux.phases[t].NotStarted?
    ensures g == h
  {
    StepsOk(policy, cfg, sv, initial, steps);
    var r := AfterSteps(policy, cfg, sv, initial, steps).value;
    hide AfterSteps, Gate.Inv, After;
    assert BegunOk(cfg, r, g, t) && BegunOk(cfg, r, h, t);
  }

  /** Ownership across connections. However often the client re-dials, a call that is answered is answered on
      the one connection it has begun on, by the frame that answers its own message there. */
  lemma AnsweredByItsOwnReply<S>(
    policy: Backoff.RetryPolicy, cfg: Config, sv: Service<S>, initial: S, steps: seq<Step<S>>, g: nat, c: CallId)
    requires AllEncodable(cfg) && Lawful(sv.be) && Correlates(sv.be, cfg) && DistinctIds(cfg)
    requires AfterSteps(policy, cfg, sv, initial, steps).Some?
    requires var r := AfterSteps(policy, cfg, sv, initial, steps).value;
             g < |r.conns| == |r.initials| && Answered(r.conns[g].mux, c) && FairFor(cfg, sv, r.initials[g], r.conns[g], c)
    ensures var r := AfterSteps(policy, cfg, sv, initial, steps).value;
            && Owns(cfg, sv, r.initials[g], r.conns[g], c)
            && forall h :: 0 <= h < |r.conns| && h != g ==>
                 c < |r.conns[h].mux.phases| && r.conns[h].mux.phases[c].NotStarted?
  {
    StepsOk(policy, cfg, sv, initial, steps);
    var r := AfterSteps(policy, cfg, sv, initial, steps).value;
    hide AfterSteps, Gate.Inv, After, Owns, FairFor, Lawful, AllEncodable;
    assert ConnectionOk(cfg, sv, r, g);
    DistinctIdsArePrompt(cfg, sv, r.initials[g], r.logs[g]);
    var k := CallGetsItsOwnReply(cfg, sv, r.initials[g], r.logs[g], c, (v: Json) => Some(v));
    forall h | 0 <= h < |r.conns| && h != g
      ensures r.conns[h].mux.phases[c].NotStarted?
    {
      assert BegunOk(cfg, r, g, c) && BegunOk(cfg, r, h, c);
    }
  }

  /** Transparency across connections. The gateway's upstream client re-dials; whichever connection a proxied
      call is answered on, its caller is given the upstream's answer to its own request, as on a single one. */
  lemma ReconnectingGatewayIsTransparent<S(!new)>(
    policy: Backoff.RetryPolicy, be: Backend, f: Framing, calls: seq<Proxied>, sv: Service<S>, initial: S,
    steps: seq<Step<S>>, g: nat, c: CallId)
    returns (k: nat)
    requires Lawful(be) && Drawn(calls) && sv.be == be && AllEncodable(GatewayConfig(be, f, calls))
    requires AfterSteps(policy, GatewayConfig(be, f, calls), sv, initial, steps).Some?
    requires var r := AfterSteps(policy, GatewayConfig(be, f, calls), sv, initial, steps).value;
             && g < |r.conns| == |r.initials| && c < |calls| && Answered(r.conns[g].mux, c)
             && Untorn(GatewayConfig(be, f, calls), r.conns[g].mux)
             && RepliesCarried(GatewayConfig(be, f, calls), sv, r.initials[g], r.conns[g].handled)
    ensures calls[c].req.id.Some?
    ensures var cfg := GatewayConfig(be, f, calls);
            var r := AfterSteps(policy, cfg, sv, initial, steps).value;
            var s := r.conns[g].mux;
            && k < |LockOrder(s)| && LockOrder(s)[k] == c
            && var before := LockOrder(s)[..k];
            && Given(be, calls[c], s, c) == OnWire(Gateway.Sent(sv, cfg, r.initials[g], before, calls[c]))
            && (IdBlind(sv.router) ==> Given(be, calls[c], s, c) == OnWire(Owed(sv, cfg, r.initials[g], before, calls[c].req)))
            && (forall h :: 0 <= h < |r.conns| && h != g ==>
                  c < |r.conns[h].mux.phases| && r.conns[h].mux.phases[c].NotStarted?)
  {
    var cfg := GatewayConfig(be, f, calls);
    StepsOk(policy, cfg, sv, initial, steps);
    var r := AfterSteps(policy, cfg, sv, initial, steps).value;
    hide AfterSteps, Gate.Inv, After, Lawful, AllEncodable, Drawn, IdBlind, Untorn, RepliesCarried, LockOrder, Given, OnWire, Gateway.Sent, Owed;
    assert ConnectionOk(cfg, sv, r, g);
    k := GatewayIsTransparent(be, f, calls, sv, r.initials[g], r.logs[g], c);
    forall h | 0 <= h < |r.conns| && h != g
      ensures r.conns[h].mux.phases[c].NotStarted?
    {
      assert BegunOk(cfg, r, g, c) && BegunOk(cfg, r, h, c);
    }
  }

  // ----- Every run of a connection is one of a connection that was re-dialed -----

  /** The client's step for an event of connection `g`. */
  function AsStep<S>(g: nat, e: Event): Step<S> {
    if e.ClientActs? && e.a.Check? then Begins(e.a.c) else Goes(g, e)
  }

  function AsSteps<S>(g: nat, events: seq<Event>): seq<Step<S>> {
    seq(|events|, i requires 0 <= i < |events| => AsStep(g, events[i]))
  }

  /** Whoever has not begun has been given connection `g`. */
  predicate AllGiven<S>(cfg: Config, r: Redialer<S>, g: nat) {
    && g < |r.conns| == |r.logs| && g < |r.gate.alive|
    && |r.conns[g].mux.phases| == |r.gate.tasks| == |r.gate.began| == |cfg.messages|
    && forall t :: 0 <= t < |r.gate.tasks| && r.conns[g].mux.phases[t].NotStarted? ==> r.gate.tasks[t] == Gate.Using(g)
  }

  /** A request's write and the death of a connection leave other requests where they are. */
  lemma GateKeepsOthers(policy: Backoff.RetryPolicy, s: Gate.State, a: Gate.Action)
    requires Gate.Enabled(s, a) && (a.Send? || a.Die?)
    ensures var u := Gate.Next(policy, s, a);
            && |u.tasks| == |s.tasks| == |u.began| && |u.alive| == |s.alive|
            && forall t :: 0 <= t < |s.tasks| && a != Gate.Send(t) ==> u.tasks[t] == s.tasks[t]
  {
  }

  lemma EventIsStep<S>(policy: Backoff.RetryPolicy, cfg: Config, sv: Service<S>, r: Redialer<S>, g: nat, e: Event)
    requires AllGiven(cfg, r, g) && CanHappen(cfg, sv, r.conns[g], e)
    ensures CanStep(cfg, sv, r, AsStep(g, e))
    ensures var u := Do(policy, cfg, sv, r, AsStep(g, e));
            AllGiven(cfg, u, g) && u.conns[g] == Happen(cfg, sv, r.conns[g], e) && u.initials == r.initials
  {
    EventTouches(cfg, sv, r.conns[g], e);
    if e.ClientActs? && e.a.Check? {
      GateKeepsOthers(policy, r.gate, Gate.Send(e.a.c));
    } else {
      GateKeepsOthers(policy, r.gate, Gate.Die(g));
    }
    hide Happen, CanHappen, Gate.Next;
  }

  lemma OneMoreStep<S>(policy: Backoff.RetryPolicy, cfg: Config, sv: Service<S>, initial: S, steps: seq<Step<S>>, r: Redialer<S>, st: Step<S>)
    requires AfterSteps(policy, cfg, sv, initial, steps) == Some(r) && CanStep(cfg, sv, r, st)
    ensures AfterSteps(policy, cfg, sv, initial, steps + [st]) == Some(Do(policy, cfg, sv, r, st))
  {
    hide CanStep, Do;
    assert (steps + [st])[..|steps|] == steps;
  }

  /** These steps leave connection `g` in state `w`, given to every caller that has not begun. */
  ghost predicate LeadTo<S>(policy: Backoff.RetryPolicy, cfg: Config, sv: Service<S>, initials: seq<S>, steps: seq<Step<S>>, g: nat, w: World<S>)
    requires initials != []
  {
    match AfterSteps(policy, cfg, sv, initials[0], steps)
    case None => false
    case Some(r) => AllGiven(cfg, r, g) && r.conns[g] == w && r.initials == initials
  }

  lemma LeadToOneMore<S>(
    policy: Backoff.RetryPolicy, cfg: Config, sv: Service<S>, initials: seq<S>, steps: seq<Step<S>>, g: nat, w: World<S>, e: Event)
    requires initials != [] && LeadTo(policy, cfg, sv, initials, steps, g, w) && CanHappen(cfg, sv, w, e)
    ensures LeadTo(policy, cfg, sv, initials, steps + [AsStep(g, e)], g, Happen(cfg, sv, w, e))
  {
    hide CanStep, Do, CanHappen, Happen, AfterSteps;
    var r := AfterSteps(policy, cfg, sv, initials[0], steps).value;
    EventIsStep(policy, cfg, sv, r, g, e);
    OneMoreStep(policy, cfg, sv, initials[0], steps, r, AsStep(g, e));
  }

  /** Once every caller has been given a fresh connection, whatever can happen on one can happen on it. */
  lemma {:induction false} RunsOnConnection<S>(
    policy: Backoff.RetryPolicy, cfg: Config, sv: Service<S>, initials: seq<S>, steps: seq<Step<S>>, g: nat, found: S, events: seq<Event>)
    requires initials != [] && LeadTo(policy, cfg, sv, initials, steps, g, Start(cfg, found))
    requires After(cfg, sv, found, events).Some?
    ensures LeadTo(policy, cfg, sv, initials, steps + AsSteps(g, events), g, After(cfg, sv, found, events).value)
  {
    hide LeadTo, CanHappen, Happen, Start;
    if events == [] {
      assert steps + AsSteps(g, events) == steps;
    } else {
      var n := |events| - 1;
      RunsOnConnection(policy, cfg, sv, initials, steps, g, found, events[..n]);
      var before := steps + AsSteps(g, events[..n]);
      LeadToOneMore(policy, cfg, sv, initials, before, g, After(cfg, sv, found, events[..n]).value, events[n]);
      assert before + [AsStep(g, events[n])] == steps + AsSteps(g, events);
    }
  }

  function AsGateSteps<S>(actions: seq<Gate.Action>): seq<Step<S>> {
    seq(|actions|, i requires 0 <= i < |actions| => GateActs(actions[i]))
  }

  lemma {:induction false} GateRunIsSteps<S>(
    policy: Backoff.RetryPolicy, cfg: Config, sv: Service<S>, initial: S, steps: seq<Step<S>>, r: Redialer<S>, actions: seq<Gate.Action>)
    requires AfterSteps(policy, cfg, sv, initial, steps) == Some(r)
    requires Gate.RunFrom(policy, r.gate, actions).Some? && forall i :: 0 <= i < |actions| ==> Internal(actions[i])
    ensures AfterSteps(policy, cfg, sv, initial, steps + AsGateSteps(actions))
            == Some(r.(gate := Gate.RunFrom(policy, r.gate, actions).value))
  {
    hide AfterSteps, Gate.Next, Gate.Enabled;
    if actions == [] {
      assert steps + AsGateSteps(actions) == steps;
    } else {
      var n := |actions| - 1;
      GateRunIsSteps(policy, cfg, sv, initial, steps, r, actions[..n]);
      var before, st := steps + AsGateSteps(actions[..n]), GateActs(actions[n]);
      var u := r.(gate := Gate.RunFrom(policy, r.gate, actions[..n]).value);
      OneMoreStep(policy, cfg, sv, initial, before, u, st);
      assert before + [st] == steps + AsGateSteps(actions);
    }
  }

  /** The first connection is lost, and the one caller re-dials. */
  function Redialing<S>(second: S): seq<Step<S>> {
    [Goes(0, ClientActs(Stop))] + AsGateSteps(Gate.ToTheDial(0)) + [Dials(0, second)] + [GateActs(Gate.Install(0))]
  }

  lemma Redialed<S>(policy: Backoff.RetryPolicy, cfg: Config, sv: Service<S>, first: S, second: S)
    requires |cfg.messages| == 1
    ensures LeadTo(policy, cfg, sv, [first, second], Redialing(second), 1, Start(cfg, second))
  {
    var r0: Redialer<S> := Connected(cfg, first);
    var stop: Step<S> := Goes(0, ClientActs(Stop));
    assert AfterSteps(policy, cfg, sv, first, []) == Some(r0);
    OneMoreStep(policy, cfg, sv, first, [], r0, stop);
    var r1 := Do(policy, cfg, sv, r0, stop);
    assert [] + [stop] == [stop];
    Gate.ReachesTheDial(policy, r1.gate, 0);
    hide AfterSteps, HandleBytes, Encode, Gate.RunFrom;
    GateRunIsSteps(policy, cfg, sv, first, [stop], r1, Gate.ToTheDial(0));
    Installed(policy, cfg, sv, first, second, [stop] + AsGateSteps(Gate.ToTheDial(0)),
              r1.(gate := Gate.RunFrom(policy, r1.gate, Gate.ToTheDial(0)).value));
  }

  lemma Installed<S>(policy: Backoff.RetryPolicy, cfg: Config, sv: Service<S>, first: S, second: S, steps: seq<Step<S>>, r: Redialer<S>)
    requires |cfg.messages| == 1 == |r.gate.tasks| == |r.gate.began| == |r.gate.alive| == |r.conns| == |r.logs|
    requires AfterSteps(policy, cfg, sv, first, steps) == Some(r) && r.gate.tasks[0] == Gate.Dialing(0, 0) && r.initials == [first]
    ensures LeadTo(policy, cfg, sv, [first, second], steps + [Dials(0, second)] + [GateActs(Gate.Install(0))], 1, Start(cfg, second))
  {
    DialedNext(policy, cfg, sv, r, second);
    var u := Do(policy, cfg, sv, r, Dials(0, second));
    hide AfterSteps, Do, CanStep, AllGiven, Start;
    InstalledNext(policy, cfg, sv, u);
    OneMoreStep(policy, cfg, sv, first, steps, r, Dials(0, second));
    OneMoreStep(policy, cfg, sv, first, steps + [Dials(0, second)], u, GateActs(Gate.Install(0)));
  }

  lemma DialedNext<S>(policy: Backoff.RetryPolicy, cfg: Config, sv: Service<S>, r: Redialer<S>, second: S)
    requires 1 == |r.gate.tasks| == |r.gate.began| == |r.gate.alive| == |r.conns| == |r.logs| == |r.initials|
    requires r.gate.tasks[0] == Gate.Dialing(0, 0)
    ensures CanStep(cfg, sv, r, Dials(0, second))
    ensures var u := Do(policy, cfg, sv, r, Dials(0, second));
            && 2 == |u.gate.alive| == |u.conns| == |u.logs| && 1 == |u.gate.tasks| == |u.gate.began|
            && u.gate.tasks[0] == Gate.Installing(0, 1) && u.conns[1] == Start(cfg, second) && u.initials == r.initials + [second]
  {
    hide Start;
  }

  lemma InstalledNext<S>(policy: Backoff.RetryPolicy, cfg: Config, sv: Service<S>, u: Redialer<S>)
    requires 2 == |u.gate.alive| == |u.conns| == |u.logs| && 1 == |u.gate.tasks| == |u.gate.began|
    requires u.gate.tasks[0] == Gate.Installing(0, 1) && |u.conns[1].mux.phases| == 1 == |cfg.messages|
    ensures CanStep(cfg, sv, u, GateActs(Gate.Install(0)))
    ensures var v := Do(policy, cfg, sv, u, GateActs(Gate.Install(0)));
            AllGiven(cfg, v, 1) && v.conns == u.conns && v.initials == u.initials
  {
  }

  /** A client that has lost its connection before its call gets the answer over a new one, under any policy,
      in a run that meets the premises of `AnsweredByItsOwnReply`. */
  lemma ACallCanBeAnsweredAnew<S>(
    policy: Backoff.RetryPolicy, be: Backend, f: Framing, sv: Service<S>, first: S, second: S, name: string, params: Json)
    returns (steps: seq<Step<S>>)
    requires Lawful(be) && sv.be == be
    requires Encodable(f, be.render(EncodeRequest(Request(name, Some(params), Some(NthId(0))))))
    requires Encodable(f, be.render(EncodeResponse(ResponseTo(sv, second, name, params))))
    ensures var cfg := OneClientCall(be, f, name, params);
            && AllEncodable(cfg) && Correlates(be, cfg) && DistinctIds(cfg)
            && AfterSteps(policy, cfg, sv, first, steps).Some?
            && var r := AfterSteps(policy, cfg, sv, first, steps).value;
            && r.initials == [first, second] && |r.conns| == 2
            && Answered(r.conns[1].mux, 0) && FairFor(cfg, sv, second, r.conns[1], 0)
  {
    var cfg := OneClientCall(be, f, name, params);
    ClientCallsSpeak(be, f, [Call(name, params, 0)]);
    var events := ACallCanBeAnswered(be, f, sv, second, name, params);
    assert |cfg.messages| == 1;
    hide OneClientCall, Lawful, Encodable, AllEncodable, FairFor, DistinctIds, Answered, AfterSteps, After, Redialing, AsSteps,
         ResponseTo, EncodeRequest, EncodeResponse, NthId, HandleBytes;
    Redialed(policy, cfg, sv, first, second);
    steps := Redialing(second) + AsSteps(1, events);
    RunsOnConnection(policy, cfg, sv, [first, second], Redialing(second), 1, second, events);
    StepsOk(policy, cfg, sv, first, steps);
  }
}
