/** What every action of the multiplexing client keeps, with no assumption on ids: a reply reaches a call
    of its own id, at most one reply reaches a call, and no reply reaches two. */
module Correlation {
  import opened Wrappers
  import opened Bytes
  import opened Protocol
  import opened Framing
  import opened Multiplex

  /** The call has a guard, or is about to use it. */
  predicate Guarded(p: Phase) { Listening(p) || p.Unwinding? }

  /** The frame taken for a call carries that call's id, and the books agree. */
  ghost predicate TakenOk(cfg: Config, s: State) {
    && (forall i :: 0 <= i < |s.taken| && s.taken[i].1.Some? ==>
          var c := s.taken[i].1.value;
          && cfg.IsCall(c) && cfg.IdOfCall(c).Some? && cfg.idOf(s.taken[i].0) == cfg.IdOfCall(c)
          && c in s.answeredBy && s.answeredBy[c] == i)
    && (forall c :: c in s.answeredBy ==> s.answeredBy[c] < |s.taken| && s.taken[s.answeredBy[c]].1 == Some(c))
  }

  /** The frame `f` is the one the reader took for `c`. */
  ghost predicate Answers(s: State, c: CallId, f: seq<byte>) {
    c in s.answeredBy && s.answeredBy[c] < |s.taken| && s.taken[s.answeredBy[c]].0 == f
  }

  ghost predicate PendingEntryOk(cfg: Config, s: State, id: Id)
    requires id in s.pending
  {
    var c := s.pending[id];
    && c < |s.phases| && c < |s.channels| && cfg.IsCall(c) && cfg.IdOfCall(c) == Some(id)
    && Guarded(s.phases[c]) && s.channels[c].Open? && c !in s.answeredBy
  }

  ghost predicate PendingOk(cfg: Config, s: State) {
    forall id :: id in s.pending ==> PendingEntryOk(cfg, s, id)
  }

  ghost predicate CallOk(cfg: Config, s: State, c: CallId)
    requires c < |s.phases| == |s.channels| == |cfg.messages|
  {
    var p := s.phases[c];
    && (p.NotStarted? || p.Checked? ==> s.channels[c].Open? && c !in s.answeredBy)
    && (p.Writing? ==> s.writer == Some(c) && p.sent <= |cfg.FrameOf(c)|)
    && (p.Waiting? || p.Unwinding? ==> cfg.IsCall(c))
    && (Guarded(p) && cfg.IsCall(c) ==> cfg.IdOfCall(c).Some?)
    && (s.channels[c].Holds? ==> Answers(s, c, s.channels[c].frame))
    && ((p.Done? || p.Unwinding?) && p.outcome.Reply? ==> Answers(s, c, p.outcome.frame))
  }

  ghost predicate Inv(cfg: Config, s: State) {
    && |s.phases| == |s.channels| == |cfg.messages|
    && (s.connected <==> s.reader.Receiving? || s.reader.Delivering?)
    && (s.writer.Some? ==> s.writer.value < |s.phases| && s.phases[s.writer.value].Writing?)
    && TakenOk(cfg, s)
    && PendingOk(cfg, s)
    && (s.reader.Delivering? ==> s.reader.to < |s.phases| && Answers(s, s.reader.to, s.reader.frame) && s.channels[s.reader.to].Open?)
    && (forall c :: 0 <= c < |s.phases| ==> CallOk(cfg, s, c))
  }

  lemma InitInv(cfg: Config)
    ensures Inv(cfg, Init(cfg))
  {
    var s := Init(cfg);
    assert forall c :: 0 <= c < |s.phases| ==> CallOk(cfg, s, c);
  }

  lemma InsertInv(cfg: Config, s: State, c: CallId, id: Id)
    requires Inv(cfg, s) && Enabled(cfg, s, Register(c)) && cfg.IsCall(c) && cfg.IdOfCall(c) == Some(id)
    ensures Inv(cfg, Insert(s, c, id).SetPhase(c, Ready))
  {
    hide Encode;
    var t := Insert(s, c, id).SetPhase(c, Ready);
    assert CallOk(cfg, s, c);
    forall d | 0 <= d < |s.phases|
      ensures CallOk(cfg, t, d)
    {
      assert CallOk(cfg, s, d);
    }
    forall i | i in t.pending
      ensures PendingEntryOk(cfg, t, i)
    {
      assert i in s.pending ==> PendingEntryOk(cfg, s, i);
    }
  }

  lemma RemoveInv(cfg: Config, s: State, c: CallId)
    requires Inv(cfg, s) && Enabled(cfg, s, DropGuard(c))
    ensures Inv(cfg, Next(cfg, s, DropGuard(c)))
  {
    hide Encode;
    var t := Next(cfg, s, DropGuard(c));
    assert CallOk(cfg, s, c);
    forall d | 0 <= d < |s.phases|
      ensures CallOk(cfg, t, d)
    {
      assert CallOk(cfg, s, d);
    }
    forall i | i in t.pending
      ensures PendingEntryOk(cfg, t, i)
    {
      assert PendingEntryOk(cfg, s, i);
    }
  }

  /** Moving one call to another phase, with the writer lock taken or released by it at most. */
  lemma PhaseInv(cfg: Config, s: State, t: State, c: CallId)
    requires Inv(cfg, s) && c < |s.phases| == |t.phases|
    requires t == s.(phases := s.phases[c := t.phases[c]], writer := t.writer, wire := t.wire, written := t.written)
    requires CallOk(cfg, t, c)
    requires s.writer.Some? && s.writer.value != c ==> t.writer == s.writer
    requires t.writer == s.writer || t.writer.None? || t.writer.value == c
    requires t.writer == Some(c) ==> t.phases[c].Writing?
    requires cfg.IsCall(c) && Guarded(s.phases[c]) && s.channels[c].Open? ==> Guarded(t.phases[c])
    ensures Inv(cfg, t)
  {
    hide Encode;
    forall d | 0 <= d < |s.phases|
      ensures CallOk(cfg, t, d)
    {
      assert CallOk(cfg, s, d);
    }
    forall i | i in t.pending
      ensures PendingEntryOk(cfg, t, i)
    {
      assert PendingEntryOk(cfg, s, i);
    }
  }

  lemma CallInv(cfg: Config, s: State, a: Action)
    requires Inv(cfg, s) && Enabled(cfg, s, a)
    requires a.Check? || a.Lock? || a.Receive?
             || (a.Register? && (!cfg.IsCall(a.c) || cfg.IdOfCall(a.c).None?))
    ensures Inv(cfg, Next(cfg, s, a))
  {
    hide Encode;
    assert CallOk(cfg, s, a.c);
    PhaseInv(cfg, s, Next(cfg, s, a), a.c);
  }

  lemma WriterInv(cfg: Config, s: State, a: Action)
    requires Inv(cfg, s) && Enabled(cfg, s, a)
    requires a.Write? || a.Finish? || a.Fail? || a.Cancel?
    ensures Inv(cfg, Next(cfg, s, a))
  {
    hide Encode;
    assert CallOk(cfg, s, a.c);
    PhaseInv(cfg, s, Next(cfg, s, a), a.c);
  }

  lemma TakeInv(cfg: Config, s: State, frame: seq<byte>)
    requires Inv(cfg, s) && Enabled(cfg, s, Take(frame))
    ensures Inv(cfg, Next(cfg, s, Take(frame)))
  {
    hide Encode;
    var t := Next(cfg, s, Take(frame));
    forall c | 0 <= c < |s.phases|
      ensures CallOk(cfg, t, c)
    {
      assert CallOk(cfg, s, c);
    }
    var id := cfg.idOf(frame);
    assert id.Some? && id.value in s.pending ==> PendingEntryOk(cfg, s, id.value);
    forall i | i in t.pending
      ensures PendingEntryOk(cfg, t, i)
    {
      assert PendingEntryOk(cfg, s, i);
    }
  }

  lemma ReaderInv(cfg: Config, s: State, a: Action)
    requires Inv(cfg, s) && Enabled(cfg, s, a)
    requires a.Deliver? || a.Stop? || a.Clear?
    ensures Inv(cfg, Next(cfg, s, a))
  {
    hide Encode;
    var t := Next(cfg, s, a);
    forall c | 0 <= c < |s.phases|
      ensures CallOk(cfg, t, c)
    {
      assert CallOk(cfg, s, c);
    }
    forall i | i in t.pending
      ensures PendingEntryOk(cfg, t, i)
    {
      assert PendingEntryOk(cfg, s, i);
    }
  }

  lemma StepInv(cfg: Config, s: State, a: Action)
    requires Inv(cfg, s) && Enabled(cfg, s, a)
    ensures Inv(cfg, Next(cfg, s, a))
  {
    if a.DropGuard? {
      RemoveInv(cfg, s, a.c);
    } else if a.Take? {
      TakeInv(cfg, s, a.frame);
    } else if a.Deliver? || a.Stop? || a.Clear? {
      ReaderInv(cfg, s, a);
    } else if a.Register? && cfg.IsCall(a.c) && cfg.IdOfCall(a.c).Some? {
      hide Inv, Insert;
      InsertInv(cfg, s, a.c, cfg.IdOfCall(a.c).value);
    } else if a.Write? || a.Finish? || a.Fail? || a.Cancel? {
      WriterInv(cfg, s, a);
    } else {
      CallInv(cfg, s, a);
    }
  }

  /** Every reachable state is correlated. */
  lemma {:induction false} RunInv(cfg: Config, actions: seq<Action>)
    requires Run(cfg, actions).Some?
    ensures Inv(cfg, Run(cfg, actions).value)
  {
    hide Inv, Enabled, Next, Init;
    if actions == [] {
      InitInv(cfg);
    } else {
      var before := actions[..|actions| - 1];
      RunInv(cfg, before);
      StepInv(cfg, Run(cfg, before).value, actions[|actions| - 1]);
    }
  }

  /** Correlation, in every reachable state and with no assumption on ids: what a call gets as its reply is
      a frame that arrived, carries the call's own id, and was taken for this call and no other; a call
      gets at most one. */
  lemma RepliesCorrelate(cfg: Config, s: State, c: CallId)
    requires Reachable(cfg, s)
    requires c < |s.phases| && s.phases[c].Done? && s.phases[c].outcome.Reply?
    ensures cfg.IsCall(c) && cfg.IdOfCall(c).Some?
    ensures cfg.idOf(s.phases[c].outcome.frame) == cfg.IdOfCall(c)
    ensures exists i :: 0 <= i < |s.taken| && s.taken[i] == (s.phases[c].outcome.frame, Some(c))
                        && forall j :: 0 <= j < |s.taken| && s.taken[j].1 == Some(c) ==> j == i
  {
    var actions :| Run(cfg, actions) == Some(s);
    RunInv(cfg, actions);
    assert CallOk(cfg, s, c);
    var i := s.answeredBy[c];
    assert s.taken[i].1 == Some(c);
  }
}
