/** The multiplexing client as the object it is: shared fields that callers and the reader task update in
    place. Each method is one section that runs without interruption, and moves the abstract state by
    exactly one action of the transition system; so what holds of its runs holds of the object. */
module Connection {
  import opened Wrappers
  import opened Bytes
  import opened Framing
  import opened Protocol
  import opened Multiplex
  import opened Correlation

  class MultiplexTransport {
    const cfg: Config
    var connected: bool
    /** The sender registered under each id, by the call whose receiver it feeds. */
    var pending: map<Id, CallId>
    /** The ids that live guards will remove. */
    var guards: map<CallId, Id>
    var channels: seq<Channel>
    var phases: seq<Phase>
    var writer: Option<CallId>
    var wire: seq<byte>
    var reader: Reader
    ghost var written: seq<(CallId, nat)>
    ghost var taken: seq<(seq<byte>, Option<CallId>)>
    ghost var answeredBy: map<CallId, nat>
    ghost var late: set<CallId>

    ghost function Abs(): State
      reads this
    {
      State(connected, pending, phases, channels, writer, wire, reader, written, taken, answeredBy, late)
    }

    /** A guard remembers the id its call registered under. */
    ghost predicate GuardsOk()
      reads `phases, `guards
    {
      forall c :: 0 <= c < |phases| && cfg.IsCall(c) && Guarded(phases[c]) ==> c in guards && cfg.IdOfCall(c) == Some(guards[c])
    }

    ghost predicate Valid()
      reads this
    {
      Inv(cfg, Abs()) && GuardsOk()
    }

    constructor (cfg: Config)
      ensures Valid() && this.cfg == cfg && Abs() == Init(cfg)
    {
      this.cfg := cfg;
      connected, pending, guards := true, map[], map[];
      phases, channels := seq(|cfg.messages|, _ => NotStarted), seq(|cfg.messages|, _ => Open);
      writer, wire, reader := None, [], Receiving;
      written, taken, answeredBy, late := [], [], map[], {};
      new;
      InitInv(cfg);
    }

    // ----- The callers -----

    method IsConnected() returns (b: bool)
      ensures b == connected
    {
      return connected;
    }

    /** The check at the head of `round_trip` and `send_notification`. */
    method CheckConnected(c: CallId)
      requires Valid() && Enabled(cfg, Abs(), Check(c))
      modifies `phases
      ensures Valid() && Abs() == Next(cfg, old(Abs()), Check(c))
    {
      StepInv(cfg, Abs(), Check(c));
      var b := IsConnected();
      phases := phases[c := if b then Checked else Done(ConnectionClosed)];
    }

    /** `insert` under the map's lock: a sender already there under this id is dropped. */
    method InsertSender(c: CallId, id: Id)
      modifies `pending, `channels, `late
      ensures Abs() == Insert(old(Abs()), c, id)
    {
      if id in pending && pending[id] < |channels| {
        channels := channels[pending[id] := Dropped];
      }
      pending := pending[id := c];
      late := if reader.Exited? then late + {c} else late;
    }

    /** `remove` under the map's lock, by the guard of `c`: what it removes is dropped. */
    method RemoveSender(c: CallId, id: Id)
      modifies `pending, `channels
      ensures Abs() == Remove(old(Abs()), c, id)
    {
      if id in pending && pending[id] != c && pending[id] < |channels| {
        channels := channels[pending[id] := Dropped];
      }
      pending := pending - {id};
    }

    /** The waiter is registered and its guard made. */
    method RegisterUnder(c: CallId, id: Id)
      requires c < |phases|
      modifies `pending, `guards, `channels, `phases, `late
      ensures Abs() == Insert(old(Abs()), c, id).SetPhase(c, Ready) && guards == old(guards)[c := id]
    {
      InsertSender(c, id);
      guards := guards[c := id];
      phases := phases[c := Ready];
    }

    /** From `parse_id` to the guard, for a call; a notification goes straight on to its write. */
    method RegisterCall(c: CallId)
      requires Valid() && Enabled(cfg, Abs(), Register(c))
      modifies `pending, `guards, `channels, `phases, `late
      ensures Valid() && Abs() == Next(cfg, old(Abs()), Register(c))
    {
      StepInv(cfg, Abs(), Register(c));
      hide Inv, Encode, Remove, Leave, Listening;
      var id := cfg.idOf(cfg.messages[c].bytes);
      if !cfg.messages[c].isCall {
        phases := phases[c := Ready];
      } else if id.None? {
        phases := phases[c := Done(MissingId)];
      } else {
        RegisterUnder(c, id.value);
      }
    }

    /** `self.writer.lock().await` is granted. */
    method LockWriter(c: CallId)
      requires Valid() && Enabled(cfg, Abs(), Lock(c))
      modifies `phases, `writer
      ensures Valid() && Abs() == Next(cfg, old(Abs()), Lock(c))
    {
      StepInv(cfg, Abs(), Lock(c));
      hide Inv;
      phases := phases[c := Writing(0)];
      writer := Some(c);
    }

    /** One write of `write_all` takes the next `n` bytes of the frame. */
    method WriteSome(c: CallId, n: nat)
      requires Valid() && Enabled(cfg, Abs(), Write(c, n))
      modifies `phases, `wire
      ensures Valid() && Abs() == Next(cfg, old(Abs()), Write(c, n))
    {
      StepInv(cfg, Abs(), Write(c, n));
      hide Inv, Encode;
      var frame, sent := Encode(cfg.framing, cfg.messages[c].bytes), phases[c].sent;
      wire := wire + frame[sent..sent + n];
      phases := phases[c := Writing(sent + n)];
    }

    /** The write has ended, for good or ill, and the lock is released: a failed call goes on to drop its
        guard, a successful one to wait. */
    method UnlockWriter(c: CallId, ok: bool)
      requires Valid() && Enabled(cfg, Abs(), if ok then Finish(c) else Fail(c))
      modifies `phases, `writer, `written
      ensures Valid() && Abs() == Next(cfg, old(Abs()), if ok then Finish(c) else Fail(c))
    {
      StepInv(cfg, Abs(), if ok then Finish(c) else Fail(c));
      hide Inv, Encode;
      var isCall := cfg.messages[c].isCall;
      written := written + [(c, phases[c].sent)];
      phases := phases[c := if ok then (if isCall then Waiting else Done(Sent))
                            else if isCall then Unwinding(WriteError) else Done(WriteError)];
      writer := None;
    }

    /** The caller drops the future; if it was writing, the lock goes first. */
    method CancelCall(c: CallId)
      requires Valid() && Enabled(cfg, Abs(), Cancel(c))
      modifies `phases, `writer, `written
      ensures Valid() && Abs() == Next(cfg, old(Abs()), Cancel(c))
    {
      StepInv(cfg, Abs(), Cancel(c));
      hide Inv, Encode;
      if phases[c].Writing? {
        written := written + [(c, phases[c].sent)];
        writer := None;
      }
      phases := phases[c := if cfg.messages[c].isCall then Unwinding(Cancelled) else Done(Cancelled)];
    }

    /** The guard's `drop`: it removes whatever is registered under its id. */
    method DropPendingGuard(c: CallId)
      requires Valid() && Enabled(cfg, Abs(), DropGuard(c))
      modifies `pending, `guards, `channels, `phases
      ensures Valid() && Abs() == Next(cfg, old(Abs()), DropGuard(c))
    {
      StepInv(cfg, Abs(), DropGuard(c));
      assert CallOk(cfg, Abs(), c);
      assert c in guards && cfg.IdOfCall(c) == Some(guards[c]);
      hide Inv, Encode, Remove;
      phases := phases[c := Done(phases[c].outcome)];
      RemoveSender(c, guards[c]);
      guards := guards - {c};
    }

    /** `rx.await` is ready; the guard is disarmed, whatever came. */
    method ReceiveReply(c: CallId)
      requires Valid() && Enabled(cfg, Abs(), Receive(c))
      modifies `guards, `phases
      ensures Valid() && Abs() == Next(cfg, old(Abs()), Receive(c))
    {
      StepInv(cfg, Abs(), Receive(c));
      hide Inv, Encode;
      var outcome := match channels[c] case Holds(frame) => Reply(frame) case _ => ConnectionClosed;
      guards := guards - {c};
      phases := phases[c := Done(outcome)];
    }

    // ----- The reader task -----

    /** `remove` under the map's lock, by the reader: the sender, if there was one, is now the reader's. */
    method TakeSender(id: Id, frame: seq<byte>)
      requires id in pending
      modifies `pending, `reader, `taken, `answeredBy
      ensures var s := old(Abs());
              Abs() == s.(pending := s.pending - {id}, reader := Delivering(s.pending[id], frame),
                          taken := s.taken + [(frame, Some(s.pending[id]))],
                          answeredBy := s.answeredBy[s.pending[id] := |s.taken|])
    {
      var c := pending[id];
      pending := pending - {id};
      reader := Delivering(c, frame);
      answeredBy := answeredBy[c := |taken|];
      taken := taken + [(frame, Some(c))];
    }

    method TakeFrame(frame: seq<byte>)
      requires Valid() && Enabled(cfg, Abs(), Take(frame))
      modifies `pending, `reader, `taken, `answeredBy
      ensures Valid() && Abs() == Next(cfg, old(Abs()), Take(frame))
    {
      StepInv(cfg, Abs(), Take(frame));
      hide Inv, Encode, GuardsOk;
      var id := cfg.idOf(frame);
      if id.None? || id.value !in pending {
        taken := taken + [(frame, None)];
      } else {
        TakeSender(id.value, frame);
      }
    }

    /** `tx.send`: nothing happens when the caller has gone away. */
    method DeliverFrame()
      requires Valid() && Enabled(cfg, Abs(), Deliver)
      modifies `reader, `channels
      ensures Valid() && Abs() == Next(cfg, old(Abs()), Deliver)
    {
      StepInv(cfg, Abs(), Deliver);
      hide Inv, Encode;
      if Listening(phases[reader.to]) {
        channels := channels[reader.to := Holds(reader.frame)];
      }
      reader := Receiving;
    }

    /** End of stream or an error: `connected.store(false)`. */
    method StoreDisconnected()
      requires Valid() && Enabled(cfg, Abs(), Stop)
      modifies `connected, `reader
      ensures Valid() && Abs() == Next(cfg, old(Abs()), Stop)
    {
      StepInv(cfg, Abs(), Stop);
      hide Inv, Encode;
      connected := false;
      reader := Stopping;
    }

    /** `clear` drops the senders one after another. */
    method DropSenders()
      modifies `pending, `channels
      ensures pending == map[] && |channels| == |old(channels)|
      ensures forall c :: 0 <= c < |channels| ==>
                channels[c] == if c in old(pending).Values then Dropped else old(channels)[c]
    {
      ghost var was := pending;
      while pending != map[]
        invariant forall id :: id in pending ==> id in was && pending[id] == was[id]
        invariant |channels| == |old(channels)|
        invariant forall c :: 0 <= c < |channels| ==>
                    channels[c] == if exists id :: id in was && id !in pending && was[id] == c then Dropped else old(channels)[c]
        decreases |pending|
      {
        var id :| id in pending;
        var c := pending[id];
        if c < |channels| {
          channels := channels[c := Dropped];
        }
        pending := pending - {id};
      }
      assert forall c :: c in was.Values <==> exists id :: id in was && was[id] == c;
    }

    method ClearPending()
      requires Valid() && Enabled(cfg, Abs(), Clear)
      modifies `pending, `channels, `reader
      ensures Valid() && Abs() == Next(cfg, old(Abs()), Clear)
    {
      StepInv(cfg, Abs(), Clear);
      hide Inv, Encode;
      DropSenders();
      reader := Exited;
      assert channels == Next(cfg, old(Abs()), Clear).channels;
    }

    /** Any schedule of callers and reader: the object goes through exactly the states of the run. */
    method Execute(actions: seq<Action>)
      requires Valid() && RunFrom(cfg, Abs(), actions).Some?
      modifies this
      ensures Valid() && Some(Abs()) == RunFrom(cfg, old(Abs()), actions)
    {
      hide Inv, Next, Enabled;
      for i := 0 to |actions|
        invariant Valid()
        invariant Some(Abs()) == RunFrom(cfg, old(Abs()), actions[..i])
      {
        Turn(cfg, old(Abs()), actions, i);
        match actions[i]
        case Check(c) => CheckConnected(c);
        case Register(c) => RegisterCall(c);
        case Lock(c) => LockWriter(c);
        case Write(c, n) => WriteSome(c, n);
        case Finish(c) => UnlockWriter(c, true);
        case Fail(c) => UnlockWriter(c, false);
        case Cancel(c) => CancelCall(c);
        case DropGuard(c) => DropPendingGuard(c);
        case Receive(c) => ReceiveReply(c);
        case Take(frame) => TakeFrame(frame);
        case Deliver => DeliverFrame();
        case Stop => StoreDisconnected();
        case Clear => ClearPending();
      }
      assert actions[..|actions|] == actions;
    }
  }

  /** A run that reaches its end could take each of its actions in turn. */
  lemma {:induction false} Turn(cfg: Config, s: State, actions: seq<Action>, i: nat)
    requires RunFrom(cfg, s, actions).Some? && i < |actions|
    ensures RunFrom(cfg, s, actions[..i]).Some? && Enabled(cfg, RunFrom(cfg, s, actions[..i]).value, actions[i])
    ensures RunFrom(cfg, s, actions[..i + 1]) == Some(Next(cfg, RunFrom(cfg, s, actions[..i]).value, actions[i]))
  {
    hide Next, Enabled;
    var n := |actions| - 1;
    if i == n {
      assert actions[..i + 1] == actions;
    } else {
      Turn(cfg, s, actions[..n], i);
      assert actions[..n][..i] == actions[..i] && actions[..n][..i + 1] == actions[..i + 1];
    }
  }
}
