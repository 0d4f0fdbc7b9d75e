/** The multiplexing client as a transition system: calls and notifications sharing one connection, its
    pending map, writer lock and reader task. Every point at which another task may run is a boundary
    between two actions. */
module Multiplex {
  import opened Wrappers
  import opened Bytes
  import opened Framing
  import opened Protocol

  /** Calls are named by their position in the configuration. */
  type CallId = nat

  /** Bytes handed to `round_trip` (a call) or to `send_notification`. */
  datatype Outgoing = Outgoing(bytes: seq<byte>, isCall: bool)

  datatype Config = Config(framing: Framing, idOf: seq<byte> -> Option<Id>, messages: seq<Outgoing>) {
    predicate IsCall(c: CallId) { c < |messages| && messages[c].isCall }

    function FrameOf(c: CallId): seq<byte>
      requires c < |messages|
    {
      Encode(framing, messages[c].bytes)
    }

    /** The id a call is correlated by. */
    function IdOfCall(c: CallId): Option<Id>
      requires c < |messages|
    {
      idOf(messages[c].bytes)
    }
  }

  datatype Outcome = Reply(frame: seq<byte>) | Sent | ConnectionClosed | MissingId | WriteError | Cancelled

  /** Where a call is: not begun; past the connected check; registered (or, for a notification, ready) and
      waiting for the writer lock; writing; waiting for its reply; about to drop its guard; finished. */
  datatype Phase =
    | NotStarted
    | Checked
    | Ready
    | Writing(sent: nat)
    | Waiting
    | Unwinding(outcome: Outcome)
    | Done(outcome: Outcome)

  /** A call's one-shot channel: nothing yet, a reply, or a dropped sender. */
  datatype Channel = Open | Holds(frame: seq<byte>) | Dropped

  /** The reader task: receiving; holding a sender it has removed; past `store(false)`; past `clear()`. */
  datatype Reader = Receiving | Delivering(to: CallId, frame: seq<byte>) | Stopping | Exited

  /** The shared state, and what has happened so far: the writes that have ended, in lock order, with the
      number of bytes each got out; the frames the reader has taken and whom for; which of them answered
      which call; the calls that registered after the map was cleared. */
  datatype State = State(
    connected: bool,
    pending: map<Id, CallId>,
    phases: seq<Phase>,
    channels: seq<Channel>,
    writer: Option<CallId>,
    wire: seq<byte>,
    reader: Reader,
    written: seq<(CallId, nat)>,
    taken: seq<(seq<byte>, Option<CallId>)>,
    answeredBy: map<CallId, nat>,
    late: set<CallId>)
  {
    function SetPhase(c: CallId, p: Phase): State
      requires c < |phases|
    {
      this.(phases := phases[c := p])
    }

    /** The writer lock is released after `sent` bytes of the holder's frame. */
    function Release(c: CallId, sent: nat): State {
      this.(writer := None, written := written + [(c, sent)])
    }
  }

  datatype Action =
    | Check(c: CallId) | Register(c: CallId) | Lock(c: CallId) | Write(c: CallId, n: nat)
    | Finish(c: CallId) | Fail(c: CallId) | Cancel(c: CallId) | DropGuard(c: CallId) | Receive(c: CallId)
    | Take(frame: seq<byte>) | Deliver | Stop | Clear

  function Init(cfg: Config): State {
    State(true, map[], seq(|cfg.messages|, _ => NotStarted), seq(|cfg.messages|, _ => Open),
          None, [], Receiving, [], [], map[], {})
  }

  predicate Enabled(cfg: Config, s: State, a: Action) {
    && |s.phases| == |s.channels| == |cfg.messages|
    && match a {
         case Check(c) => c < |s.phases| && s.phases[c].NotStarted?
         case Register(c) => c < |s.phases| && s.phases[c].Checked?
         case Lock(c) => c < |s.phases| && s.phases[c].Ready? && s.writer.None?
         case Write(c, n) => c < |s.phases| && s.phases[c].Writing? && 1 <= n <= |cfg.FrameOf(c)| - s.phases[c].sent
         case Finish(c) => c < |s.phases| && s.phases[c].Writing? && s.phases[c].sent == |cfg.FrameOf(c)|
         case Fail(c) => c < |s.phases| && s.phases[c].Writing?
         case Cancel(c) => c < |s.phases| && (s.phases[c].Ready? || s.phases[c].Writing? || s.phases[c].Waiting?)
         case DropGuard(c) => c < |s.phases| && s.phases[c].Unwinding?
         case Receive(c) => c < |s.phases| && s.phases[c].Waiting? && !s.channels[c].Open?
         case Take(frame) => s.reader.Receiving?
         case Deliver => s.reader.Delivering? && s.reader.to < |s.phases|
         case Stop => s.reader.Receiving?
         case Clear => s.reader.Stopping?
       }
  }

  /** A call that must give up its guard unwinds first; a notification has none. */
  function Leave(cfg: Config, c: CallId, outcome: Outcome): Phase {
    if cfg.IsCall(c) then Unwinding(outcome) else Done(outcome)
  }

  /** The receiver is still there to take a reply. */
  predicate Listening(p: Phase) { p.Ready? || p.Writing? || p.Waiting? }

  function Next(cfg: Config, s: State, a: Action): State
    requires Enabled(cfg, s, a)
  {
    match a
    case Check(c) => s.SetPhase(c, if s.connected then Checked else Done(ConnectionClosed))
    case Register(c) =>
      if !cfg.IsCall(c) then s.SetPhase(c, Ready)
      else
        (match cfg.IdOfCall(c)
         case None => s.SetPhase(c, Done(MissingId))
         case Some(id) => Insert(s, c, id).SetPhase(c, Ready))
    case Lock(c) => s.SetPhase(c, Writing(0)).(writer := Some(c))
    case Write(c, n) =>
      var sent := s.phases[c].sent;
      s.SetPhase(c, Writing(sent + n)).(wire := s.wire + cfg.FrameOf(c)[sent..sent + n])
    case Finish(c) =>
      s.SetPhase(c, if cfg.IsCall(c) then Waiting else Done(Sent)).Release(c, s.phases[c].sent)
    case Fail(c) => s.SetPhase(c, Leave(cfg, c, WriteError)).Release(c, s.phases[c].sent)
    case Cancel(c) =>
      var left := s.SetPhase(c, Leave(cfg, c, Cancelled));
      if s.phases[c].Writing? then left.Release(c, s.phases[c].sent) else left
    case DropGuard(c) =>
      var left := s.SetPhase(c, Done(s.phases[c].outcome));
      if cfg.IdOfCall(c).Some? then Remove(left, c, cfg.IdOfCall(c).value) else left
    case Receive(c) =>
      s.SetPhase(c, Done(if s.channels[c].Holds? then Reply(s.channels[c].frame) else ConnectionClosed))
    case Take(frame) =>
      var id := cfg.idOf(frame);
      if id.Some? && id.value in s.pending then
        var c := s.pending[id.value];
        s.(pending := s.pending - {id.value}, reader := Delivering(c, frame),
           taken := s.taken + [(frame, Some(c))], answeredBy := s.answeredBy[c := |s.taken|])
      else s.(taken := s.taken + [(frame, None)])
    case Deliver =>
      var c := s.reader.to;
      s.(reader := Receiving,
         channels := if Listening(s.phases[c]) then s.channels[c := Holds(s.reader.frame)] else s.channels)
    case Stop => s.(connected := false, reader := Stopping)
    case Clear =>
      s.(pending := map[], reader := Exited,
         channels := seq(|s.channels|, c requires 0 <= c < |s.channels| =>
                           if c in s.pending.Values then Dropped else s.channels[c]))
  }

  /** `insert`: a waiter already registered under the same id loses its sender. */
  function Insert(s: State, c: CallId, id: Id): State {
    s.(pending := s.pending[id := c],
       channels := if id in s.pending && s.pending[id] < |s.channels| then s.channels[s.pending[id] := Dropped] else s.channels,
       late := if s.reader.Exited? then s.late + {c} else s.late)
  }

  /** The guard's `remove`: it removes whatever is registered under the id, its own entry or not. */
  function Remove(s: State, c: CallId, id: Id): State {
    s.(pending := s.pending - {id},
       channels := if id in s.pending && s.pending[id] != c && s.pending[id] < |s.channels|
                   then s.channels[s.pending[id] := Dropped] else s.channels)
  }

  /** The state after `actions`, if each was enabled in its turn. */
  function RunFrom(cfg: Config, s: State, actions: seq<Action>): Option<State> {
    if actions == [] then Some(s)
    else
      match RunFrom(cfg, s, actions[..|actions| - 1])
      case None => None
      case Some(t) =>
        var a := actions[|actions| - 1];
        if Enabled(cfg, t, a) then Some(Next(cfg, t, a)) else None
  }

  function Run(cfg: Config, actions: seq<Action>): Option<State> { RunFrom(cfg, Init(cfg), actions) }

  ghost predicate Reachable(cfg: Config, s: State) {
    exists actions: seq<Action> :: Run(cfg, actions) == Some(s)
  }

  /** Every two calls have different ids. */
  ghost predicate DistinctIds(cfg: Config) {
    forall c: CallId, d: CallId :: c < d && cfg.IsCall(c) && cfg.IsCall(d) && cfg.IdOfCall(c).Some? ==>
      cfg.IdOfCall(c) != cfg.IdOfCall(d)
  }
}
