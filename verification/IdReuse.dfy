/** Reusing ids. When a call registers, every other call under its id must be settled: not begun, over
    without a byte on the wire, or its reply taken. Then every reply reaches the call it answers. */
module IdReuse {
  import opened Wrappers
  import opened Bytes
  import opened Json
  import opened Protocol
  import opened Framing
  import opened Multiplex
  import opened Correlation
  import opened Wire
  import opened Server
  import opened Peer
  import opened EndToEnd
  import opened Origins

  predicate SameId(cfg: Config, c: CallId, d: CallId) {
    && c != d && cfg.IsCall(c) && cfg.IsCall(d)
    && cfg.IdOfCall(c).Some? && cfg.IdOfCall(c) == cfg.IdOfCall(d)
  }

  /** The reader has taken the reply to `d`, for whomever. */
  ghost predicate ReplyTaken<S>(sv: Service<S>, initial: S, w: World<S>, d: CallId) {
    exists k: nat :: AtPosition(w, d, k) && |Replies(sv, initial, w.handled[..k])| < |w.mux.taken|
  }

  /** Message `k` that the peer has handled was call `d`. */
  predicate AtPosition<S>(w: World<S>, d: CallId, k: nat) {
    k < |w.handled| && k < |LockOrder(w.mux)| && LockOrder(w.mux)[k] == d
  }

  ghost predicate Settled<S>(sv: Service<S>, initial: S, w: World<S>, d: CallId) {
    d < |w.mux.phases| ==>
      || w.mux.phases[d].NotStarted? || w.mux.phases[d].Checked?
      || (PastWrite(w.mux.phases[d]) && d !in LockOrder(w.mux))
      || ReplyTaken(sv, initial, w, d)
  }

  /** The event does not register a call while another one under its id is unsettled. */
  ghost predicate PromptAt<S>(cfg: Config, sv: Service<S>, initial: S, w: World<S>, e: Event) {
    e.ClientActs? && e.a.Register? ==> forall d :: 0 <= d < |cfg.messages| && SameId(cfg, e.a.c, d) ==> Settled(sv, initial, w, d)
  }

  /** Ids are reused, if at all, only after their earlier calls are settled. */
  ghost predicate PromptReuse<S>(cfg: Config, sv: Service<S>, initial: S, events: seq<Event>) {
    forall n :: 0 <= n < |events| && After(cfg, sv, initial, events[..n]).Some? ==>
      PromptAt(cfg, sv, initial, After(cfg, sv, initial, events[..n]).value, events[n])
  }

  // ----- What only grows -----

  /** Handled, sent and taken messages stay where they are. */
  ghost predicate Grows<S>(v: World<S>, w: World<S>) {
    v.handled <= w.handled && LockOrder(v.mux) <= LockOrder(w.mux) && v.mux.taken <= w.mux.taken
  }

  lemma TakenGrows(cfg: Config, s: State, a: Action)
    requires Enabled(cfg, s, a)
    ensures s.taken <= Next(cfg, s, a).taken
  {
    hide Encode;
  }

  lemma StepGrows<S>(cfg: Config, sv: Service<S>, w: World<S>, e: Event)
    requires Inv(cfg, w.mux) && CanHappen(cfg, sv, w, e)
    ensures Grows(w, Happen(cfg, sv, w, e))
  {
    hide HandleBytes, Decode, Encode;
    if e.ClientActs? {
      LockOrderGrows(cfg, w.mux, e.a);
      TakenGrows(cfg, w.mux, e.a);
      hide Next, Enabled, LockOrder, Inv;
    } else if e.ClientTakes? || e.ClientTakesRest? {
      LockOrderGrows(cfg, w.mux, Take(FrameToTake(cfg, w.clientBuf, e)));
      TakenGrows(cfg, w.mux, Take(FrameToTake(cfg, w.clientBuf, e)));
      hide Next, Enabled, LockOrder, Inv;
    } else {
      hide Next, Enabled, LockOrder, Inv;
    }
  }

  lemma TakenStaysTaken<S>(sv: Service<S>, initial: S, v: World<S>, w: World<S>, d: CallId)
    requires Grows(v, w) && ReplyTaken(sv, initial, v, d)
    ensures ReplyTaken(sv, initial, w, d)
  {
    hide LockOrder, Replies;
    var k: nat :| AtPosition(v, d, k) && |Replies(sv, initial, v.handled[..k])| < |v.mux.taken|;
    assert v.handled[..k] == w.handled[..k];
    assert AtPosition(w, d, k);
  }

  // ----- Entries and the calls settled under their ids -----

  /** Whoever has an entry, all other calls under the id are settled. */
  ghost predicate EntriesOk<S>(cfg: Config, sv: Service<S>, initial: S, w: World<S>) {
    forall id, d :: id in w.mux.pending && 0 <= d < |cfg.messages| && SameId(cfg, w.mux.pending[id], d) ==> Settled(sv, initial, w, d)
  }

  /** Only a call that is writing gets into the order. */
  lemma OrderedByWriting(cfg: Config, s: State, a: Action, d: CallId)
    requires Inv(cfg, s) && WireOk(cfg, s) && Enabled(cfg, s, a)
    requires d < |s.phases| && (PastWrite(s.phases[d]) && d !in LockOrder(s))
    ensures var t := Next(cfg, s, a); d < |t.phases| && PastWrite(t.phases[d]) && d !in LockOrder(t)
  {
    PastWriteStays(cfg, s, a, d);
    if EndsWrite(s, a) {
      ReleaseKeepsOrder(cfg, s, a);
    } else {
      OthersKeepWritten(cfg, s, a);
      hide Encode;
      hide Inv, WireOk, Writers;
    }
  }

  lemma BeginsUnsent(cfg: Config, s: State, a: Action, d: CallId)
    requires Inv(cfg, s) && WireOk(cfg, s) && Enabled(cfg, s, a) && d < |s.phases|
    requires s.phases[d].NotStarted? || s.phases[d].Checked?
    requires a != Register(d)
    ensures var t := Next(cfg, s, a);
            && d < |t.phases|
            && (t.phases[d].NotStarted? || t.phases[d].Checked? || (PastWrite(t.phases[d]) && d !in LockOrder(t)))
  {
    StepInv(cfg, s, a);
    StepWire(cfg, s, a);
    LockOrderDistinct(cfg, s);
    BeginPhase(cfg, s, a, d);
    BeginOrder(cfg, s, a, d);
    hide Inv, WireOk, Next, Enabled;
    hide LockOrder;
    assert d !in LockOrder(s);
  }

  lemma BeginPhase(cfg: Config, s: State, a: Action, d: CallId)
    requires Enabled(cfg, s, a) && d < |s.phases| && a != Register(d)
    requires s.phases[d].NotStarted? || s.phases[d].Checked?
    ensures var t := Next(cfg, s, a);
            d < |t.phases| && (t.phases[d].NotStarted? || t.phases[d].Checked? || t.phases[d].Done?)
  {
    hide Encode;
    if a.Take? || a.Deliver? || a.Stop? || a.Clear? || a.c != d {
      OthersStay(cfg, s, a, d);
      hide Next, Enabled;
    } else {
      assert a.Check?;
    }
  }

  lemma BeginOrder(cfg: Config, s: State, a: Action, d: CallId)
    requires Inv(cfg, s) && Enabled(cfg, s, a) && d < |s.phases|
    requires s.phases[d].NotStarted? || s.phases[d].Checked?
    ensures d !in LockOrder(s) ==> d !in LockOrder(Next(cfg, s, a))
  {
    if EndsWrite(s, a) {
      ReleaseKeepsOrder(cfg, s, a);
      hide LockOrder, Inv, Next, Enabled;
    } else {
      OthersKeepWritten(cfg, s, a);
      hide Encode;
      assert s.writer != Some(d);
      hide Inv, Writers;
    }
  }

  lemma SettledStays<S>(cfg: Config, sv: Service<S>, initial: S, w: World<S>, e: Event, d: CallId)
    requires Inv(cfg, w.mux) && WireOk(cfg, w.mux) && CanHappen(cfg, sv, w, e) && d < |cfg.messages|
    requires Settled(sv, initial, w, d) && e != ClientActs(Register(d))
    ensures Settled(sv, initial, Happen(cfg, sv, w, e), d)
  {
    StepGrows(cfg, sv, w, e);
    hide HandleBytes, Decode, Encode;
    var v := Happen(cfg, sv, w, e);
    if ReplyTaken(sv, initial, w, d) {
      TakenStaysTaken(sv, initial, w, v, d);
    } else if e.ClientActs? || e.ClientTakes? || e.ClientTakesRest? {
      var a := if e.ClientActs? then e.a else Take(FrameToTake(cfg, w.clientBuf, e));
      assert v.mux == Next(cfg, w.mux, a);
      if PastWrite(w.mux.phases[d]) {
        OrderedByWriting(cfg, w.mux, a, d);
      } else {
        BeginsUnsent(cfg, w.mux, a, d);
      }
      hide Next, Enabled, Inv, WireOk, LockOrder;
    }
  }

  lemma EntryOrigin(cfg: Config, s: State, a: Action, id: Id)
    requires Enabled(cfg, s, a) && id in Next(cfg, s, a).pending
    ensures (id in s.pending && s.pending[id] == Next(cfg, s, a).pending[id]) || a == Register(Next(cfg, s, a).pending[id])
  {
    hide Encode;
  }

  lemma RegisterTakesEntry(cfg: Config, s: State, d: CallId)
    requires Enabled(cfg, s, Register(d)) && cfg.IsCall(d) && cfg.IdOfCall(d).Some?
    ensures var t := Next(cfg, s, Register(d)); cfg.IdOfCall(d).value in t.pending && t.pending[cfg.IdOfCall(d).value] == d
  {
    hide Encode;
  }

  /** The client's action, if the event is one; any other leaves the map alone. */
  function ActionOf<S>(cfg: Config, w: World<S>, e: Event): Option<Action> {
    match e
    case ClientActs(a) => Some(a)
    case ClientTakes => Some(Take(FrameToTake(cfg, w.clientBuf, e)))
    case ClientTakesRest => Some(Take(FrameToTake(cfg, w.clientBuf, e)))
    case _ => None
  }

  lemma HappensToClient<S>(cfg: Config, sv: Service<S>, w: World<S>, e: Event)
    requires CanHappen(cfg, sv, w, e)
    ensures match ActionOf(cfg, w, e)
            case None => Happen(cfg, sv, w, e).mux == w.mux
            case Some(a) => Enabled(cfg, w.mux, a) && Happen(cfg, sv, w, e).mux == Next(cfg, w.mux, a)
  {
    hide HandleBytes, Decode, Encode, Next, Enabled;
  }

  lemma EntriesStep<S>(cfg: Config, sv: Service<S>, initial: S, w: World<S>, e: Event)
    requires Inv(cfg, w.mux) && WireOk(cfg, w.mux) && CanHappen(cfg, sv, w, e)
    requires EntriesOk(cfg, sv, initial, w) && PromptAt(cfg, sv, initial, w, e)
    ensures EntriesOk(cfg, sv, initial, Happen(cfg, sv, w, e))
  {
    HappensToClient(cfg, sv, w, e);
    var v, a := Happen(cfg, sv, w, e), ActionOf(cfg, w, e);
    hide Happen, CanHappen, WireOk, Next, Enabled, Settled;
    if a.Some? { StepInv(cfg, w.mux, a.value); }
    forall id, d | id in v.mux.pending && 0 <= d < |cfg.messages| && SameId(cfg, v.mux.pending[id], d)
      ensures Settled(sv, initial, v, d)
    {
      assert PendingEntryOk(cfg, v.mux, id);
      if a.Some? { EntryOrigin(cfg, w.mux, a.value, id); }
      if e == ClientActs(Register(d)) {
        RegisterTakesEntry(cfg, w.mux, d);
      } else {
        SettledStays(cfg, sv, initial, w, e, d);
      }
    }
  }

  // ----- Every frame taken for a call answers it -----

  /** Frame `i` was taken for `c`, and it is the answer to message `k`. */
  ghost predicate TakenForAnswering<S>(cfg: Config, sv: Service<S>, initial: S, w: World<S>, i: nat, c: CallId, k: nat) {
    && i < |w.mux.taken| && w.mux.taken[i].1 == Some(c) && Names(sv.be, cfg, w, c)
    && AnsweredBy(sv, initial, w.handled, k, i)
  }

  ghost predicate OwnOk<S>(cfg: Config, sv: Service<S>, initial: S, w: World<S>) {
    forall i: nat, c: CallId, k: nat :: TakenForAnswering(cfg, sv, initial, w, i, c, k) ==> AtPosition(w, c, k)
  }

  lemma OldAnswer<S>(sv: Service<S>, initial: S, before: seq<seq<byte>>, after: seq<seq<byte>>, k: nat, i: nat)
    requires before <= after && |after| <= |before| + 1
    requires AnsweredBy(sv, initial, after, k, i) && i < |Replies(sv, initial, before)|
    ensures AnsweredBy(sv, initial, before, k, i)
  {
    hide Replies, HandleBytes;
    assert after[..|before|] == before;
    assert k < |before|;
    assert after[..k] == before[..k];
  }

  /** An id that names its request now has done so before. */
  lemma NamedBefore<S>(be: Backend, cfg: Config, v: World<S>, w: World<S>, c: CallId)
    requires Grows(v, w) && Names(be, cfg, w, c) && (v.peerTookRest ==> w.peerTookRest && w.handled == v.handled)
    requires v.peerTookRest ==> |v.handled| <= |LockOrder(v.mux)|
    ensures Names(be, cfg, v, c)
  {
    hide LockOrder, IsRequest;
  }

  /** A frame taken earlier still answers what it answered. */
  lemma OldFramesStay<S>(cfg: Config, sv: Service<S>, initial: S, w: World<S>, e: Event, i: nat, c: CallId, k: nat)
    requires Inv(cfg, w.mux) && CanHappen(cfg, sv, w, e) && OwnOk(cfg, sv, initial, w)
    requires RepliesOk(cfg, sv, initial, w) && RequestsOk(cfg, w) && i < |w.mux.taken| && (w.peerTookRest ==> w.peerDone)
    requires TakenForAnswering(cfg, sv, initial, Happen(cfg, sv, w, e), i, c, k)
    ensures AtPosition(Happen(cfg, sv, w, e), c, k)
  {
    StepGrows(cfg, sv, w, e);
    HandlesAtMostOne(cfg, sv, w, e);
    var v := Happen(cfg, sv, w, e);
    hide Happen, CanHappen, Inv, LockOrder, HandleBytes, InTransit, Replies;
    assert |w.mux.taken| == |FramesTaken(w.mux)| <= |Replies(sv, initial, w.handled)|;
    assert |w.handled| <= |PayloadsOf(cfg, LockOrder(w.mux))| == |LockOrder(w.mux)|;
    hide RepliesOk, RequestsOk, Names;
    OldAnswer(sv, initial, w.handled, v.handled, k, i);
    NamedBefore(sv.be, cfg, w, v, c);
    assert TakenForAnswering(cfg, sv, initial, w, i, c, k);
  }

  lemma HandlesAtMostOne<S>(cfg: Config, sv: Service<S>, w: World<S>, e: Event)
    requires CanHappen(cfg, sv, w, e)
    ensures var v := Happen(cfg, sv, w, e);
            && |v.handled| <= |w.handled| + 1 && (w.peerTookRest ==> v.peerTookRest)
            && (w.peerDone ==> v.handled == w.handled)
  {
    hide HandleBytes, Decode, Encode, Next, Enabled;
  }

  /** The new frame, and the message it answers, have the id of the call it is taken for. */
  lemma NewFrameHasId<S>(cfg: Config, sv: Service<S>, initial: S, w: World<S>, v: World<S>, frame: seq<byte>, c: CallId, k: nat)
    requires Lawful(sv.be) && Correlates(sv.be, cfg) && Inv(cfg, w.mux) && WireOk(cfg, w.mux)
    requires Enabled(cfg, w.mux, Take(frame)) && v.mux == Next(cfg, w.mux, Take(frame)) && v.handled == w.handled
    requires RequestsOk(cfg, v) && RepliesOk(cfg, sv, initial, v)
    requires TakenForAnswering(cfg, sv, initial, v, |w.mux.taken|, c, k)
    ensures k < |LockOrder(w.mux)| && LockOrder(w.mux) == LockOrder(v.mux) && LockOrder(w.mux)[k] < |cfg.messages|
    ensures cfg.idOf(frame).Some? && cfg.idOf(frame).value in w.mux.pending && w.mux.pending[cfg.idOf(frame).value] == c
    ensures LockOrder(w.mux)[k] != c ==> SameId(cfg, c, LockOrder(w.mux)[k])
  {
    StepInv(cfg, w.mux, Take(frame));
    StepWire(cfg, w.mux, Take(frame));
    TakeWritesNothing(cfg, w.mux, frame);
    TakenMeansWaiting(cfg, w.mux, frame, c);
    var id := cfg.idOf(frame).value;
    assert PendingEntryOk(cfg, w.mux, id);
    hide Inv, WireOk, Next, Enabled, LockOrder, RequestsOk, RepliesOk, HandleBytes, Parse, Correlates, Lawful;
    TakenFrom(cfg, sv, initial, v, |w.mux.taken|, c, k);
  }

  /** A settled call whose message the peer has handled has had its reply taken. */
  lemma SettledIsTaken<S>(cfg: Config, sv: Service<S>, initial: S, w: World<S>, d: CallId, k: nat)
    requires Inv(cfg, w.mux) && WireOk(cfg, w.mux) && Settled(sv, initial, w, d) && AtPosition(w, d, k)
    ensures |Replies(sv, initial, w.handled[..k])| < |w.mux.taken|
  {
    LockOrderDistinct(cfg, w.mux);
    hide Inv, WireOk, LockOrder, HandleBytes;
    assert d in LockOrder(w.mux);
    var j: nat :| AtPosition(w, d, j) && |Replies(sv, initial, w.handled[..j])| < |w.mux.taken|;
    assert j == k;
  }

  /** The new frame goes to the call whose message it answers: nobody else under its id is still owed one. */
  lemma NewFrameIsOwn<S>(cfg: Config, sv: Service<S>, initial: S, w: World<S>, v: World<S>, frame: seq<byte>, c: CallId, k: nat)
    requires Lawful(sv.be) && Correlates(sv.be, cfg) && Inv(cfg, w.mux) && WireOk(cfg, w.mux)
    requires Enabled(cfg, w.mux, Take(frame)) && v.mux == Next(cfg, w.mux, Take(frame)) && v.handled == w.handled
    requires RequestsOk(cfg, v) && RepliesOk(cfg, sv, initial, v) && EntriesOk(cfg, sv, initial, w)
    requires TakenForAnswering(cfg, sv, initial, v, |w.mux.taken|, c, k)
    ensures AtPosition(v, c, k)
  {
    NewFrameHasId(cfg, sv, initial, w, v, frame, c, k);
    hide Inv, WireOk, Next, Enabled, LockOrder, RequestsOk, RepliesOk, HandleBytes, Correlates, Lawful, Settled, Replies;
    var d := LockOrder(w.mux)[k];
    if d != c {
      SettledIsTaken(cfg, sv, initial, w, d, k);
    }
  }

  lemma TakenMeansWaiting(cfg: Config, s: State, frame: seq<byte>, c: CallId)
    requires Enabled(cfg, s, Take(frame)) && Next(cfg, s, Take(frame)).taken[|s.taken|].1 == Some(c)
    ensures |Next(cfg, s, Take(frame)).taken| == |s.taken| + 1 && Next(cfg, s, Take(frame)).taken[|s.taken|].0 == frame
    ensures cfg.idOf(frame).Some? && cfg.idOf(frame).value in s.pending && s.pending[cfg.idOf(frame).value] == c
  {
    hide Encode;
  }

  lemma OwnStepAt<S>(cfg: Config, sv: Service<S>, initial: S, w: World<S>, e: Event, i: nat, c: CallId, k: nat)
    requires Lawful(sv.be) && Correlates(sv.be, cfg) && CanHappen(cfg, sv, w, e) && Inv(cfg, w.mux) && WireOk(cfg, w.mux)
    requires RepliesOk(cfg, sv, initial, w) && RequestsOk(cfg, w) && EntriesOk(cfg, sv, initial, w) && OwnOk(cfg, sv, initial, w)
    requires w.peerTookRest ==> w.peerDone
    requires RequestsOk(cfg, Happen(cfg, sv, w, e)) && RepliesOk(cfg, sv, initial, Happen(cfg, sv, w, e))
    requires TakenForAnswering(cfg, sv, initial, Happen(cfg, sv, w, e), i, c, k)
    ensures AtPosition(Happen(cfg, sv, w, e), c, k)
  {
    TakesAtMostOne(cfg, sv, w, e);
    hide Happen, CanHappen, Next, Enabled, RequestsOk, RepliesOk, Inv, WireOk, AtPosition, OwnOk, EntriesOk, Correlates, Lawful,
         HandleBytes, AnsweredBy, Names, Replies, LockOrder, FrameToTake, Decode;
    var v, frame := Happen(cfg, sv, w, e), FrameToTake(cfg, w.clientBuf, e);
    assert i < |v.mux.taken|;
    hide TakenForAnswering;
    if i < |w.mux.taken| {
      OldFramesStay(cfg, sv, initial, w, e, i, c, k);
    } else {
      assert i == |w.mux.taken|;
      NewFrameIsOwn(cfg, sv, initial, w, v, frame, c, k);
    }
  }

  lemma OwnStep<S>(cfg: Config, sv: Service<S>, initial: S, w: World<S>, e: Event)
    requires Lawful(sv.be) && Correlates(sv.be, cfg) && CanHappen(cfg, sv, w, e) && Inv(cfg, w.mux) && WireOk(cfg, w.mux)
    requires RepliesOk(cfg, sv, initial, w) && RequestsOk(cfg, w) && EntriesOk(cfg, sv, initial, w) && OwnOk(cfg, sv, initial, w)
    requires w.peerTookRest ==> w.peerDone
    requires RequestsOk(cfg, Happen(cfg, sv, w, e)) && RepliesOk(cfg, sv, initial, Happen(cfg, sv, w, e))
    ensures OwnOk(cfg, sv, initial, Happen(cfg, sv, w, e))
  {
    var v := Happen(cfg, sv, w, e);
    hide Happen, CanHappen, RequestsOk, RepliesOk, Inv, WireOk, AtPosition, EntriesOk, Correlates, Lawful, HandleBytes, TakenForAnswering;
    forall i: nat, c: CallId, k: nat | TakenForAnswering(cfg, sv, initial, v, i, c, k)
      ensures AtPosition(v, c, k)
    {
      OwnStepAt(cfg, sv, initial, w, e, i, c, k);
    }
  }

  /** Only taking makes `taken` longer, by one frame, and leaves everything handled as it is. */
  lemma TakesAtMostOne<S>(cfg: Config, sv: Service<S>, w: World<S>, e: Event)
    requires CanHappen(cfg, sv, w, e)
    ensures var v := Happen(cfg, sv, w, e);
            || v.mux.taken == w.mux.taken
            || (var frame := FrameToTake(cfg, w.clientBuf, e);
                && Enabled(cfg, w.mux, Take(frame)) && v.mux == Next(cfg, w.mux, Take(frame))
                && v.handled == w.handled && |v.mux.taken| == |w.mux.taken| + 1)
  {
    hide HandleBytes, Decode, Encode;
    if e.ClientActs? {
      TakenOnlyByTake(cfg, w.mux, e.a);
    } else if e.ClientTakes? || e.ClientTakesRest? {
      TakeWritesNothing(cfg, w.mux, FrameToTake(cfg, w.clientBuf, e));
      assert |FramesTaken(Next(cfg, w.mux, Take(FrameToTake(cfg, w.clientBuf, e))))| == |w.mux.taken| + 1;
    }
    hide Next, Enabled;
  }

  /** What holds of a run that reuses ids promptly. */
  ghost predicate ReuseOk<S>(cfg: Config, sv: Service<S>, initial: S, w: World<S>) {
    && WorldOk(cfg, sv, initial, w) && EntriesOk(cfg, sv, initial, w)
    && (Untorn(cfg, w.mux) && RepliesCarried(cfg, sv, initial, w.handled) ==> OwnOk(cfg, sv, initial, w))
  }

  lemma ReuseStep<S>(cfg: Config, sv: Service<S>, initial: S, w: World<S>, e: Event)
    requires AllEncodable(cfg) && Lawful(sv.be) && Correlates(sv.be, cfg)
    requires ReuseOk(cfg, sv, initial, w) && CanHappen(cfg, sv, w, e) && PromptAt(cfg, sv, initial, w, e)
    ensures ReuseOk(cfg, sv, initial, Happen(cfg, sv, w, e))
  {
    var v := Happen(cfg, sv, w, e);
    StepOk(cfg, sv, initial, w, e);
    EntriesStep(cfg, sv, initial, w, e);
    EarlierWasFine(cfg, sv, initial, w, e);
    hide Happen, CanHappen, Inv, WireOk, EntriesOk, OwnOk, Untorn, RepliesCarried, RepliesOk, RequestsOk, PeerOk, Correlates, Lawful;
    if Untorn(cfg, v.mux) && RepliesCarried(cfg, sv, initial, v.handled) {
      OwnStep(cfg, sv, initial, w, e);
    }
  }

  lemma CarriedBefore<S>(cfg: Config, sv: Service<S>, initial: S, before: seq<seq<byte>>, after: seq<seq<byte>>)
    requires before <= after && RepliesCarried(cfg, sv, initial, after)
    ensures RepliesCarried(cfg, sv, initial, before)
  {
    hide HandleBytes, Encodable;
    assert after[..|before|] == before;
    RepliesOfBeginning(sv, initial, after, |before|);
    hide Replies;
    var first, all := Replies(sv, initial, before), Replies(sv, initial, after);
    assert forall i :: 0 <= i < |first| ==> first[i] == all[i];
  }

  lemma EarlierWasFine<S>(cfg: Config, sv: Service<S>, initial: S, w: World<S>, e: Event)
    requires Inv(cfg, w.mux) && CanHappen(cfg, sv, w, e)
    ensures var v := Happen(cfg, sv, w, e);
            && (Untorn(cfg, v.mux) ==> Untorn(cfg, w.mux))
            && (RepliesCarried(cfg, sv, initial, v.handled) ==> RepliesCarried(cfg, sv, initial, w.handled))
  {
    var v := Happen(cfg, sv, w, e);
    StepGrows(cfg, sv, w, e);
    WrittenGrowsOnly(cfg, sv, w, e);
    hide Happen, CanHappen, Inv, LockOrder, HandleBytes, Encodable, Untorn, RepliesCarried, Replies;
    if Untorn(cfg, v.mux) { UntornBefore(cfg, w.mux, v.mux); }
    if RepliesCarried(cfg, sv, initial, v.handled) { CarriedBefore(cfg, sv, initial, w.handled, v.handled); }
  }

  lemma WrittenGrowsOnly<S>(cfg: Config, sv: Service<S>, w: World<S>, e: Event)
    requires Inv(cfg, w.mux) && CanHappen(cfg, sv, w, e)
    ensures w.mux.written <= Happen(cfg, sv, w, e).mux.written
  {
    HappensToClient(cfg, sv, w, e);
    var a := ActionOf(cfg, w, e);
    hide Happen, CanHappen;
    if a.Some? { LockOrderGrows(cfg, w.mux, a.value); }
  }

  lemma {:induction false} ReusedPromptly<S>(cfg: Config, sv: Service<S>, initial: S, events: seq<Event>)
    requires AllEncodable(cfg) && Lawful(sv.be) && Correlates(sv.be, cfg)
    requires After(cfg, sv, initial, events).Some? && PromptReuse(cfg, sv, initial, events)
    ensures ReuseOk(cfg, sv, initial, After(cfg, sv, initial, events).value)
  {
    if events == [] {
      AlwaysOk(cfg, sv, initial, []);
    } else {
      var n := |events| - 1;
      assert PromptAt(cfg, sv, initial, After(cfg, sv, initial, events[..n]).value, events[n]);
      PromptBefore(cfg, sv, initial, events);
      hide CanHappen, Happen, ReuseOk, PromptReuse, PromptAt;
      ReusedPromptly(cfg, sv, initial, events[..n]);
      ReuseStep(cfg, sv, initial, After(cfg, sv, initial, events[..n]).value, events[n]);
    }
  }

  lemma PromptBefore<S>(cfg: Config, sv: Service<S>, initial: S, events: seq<Event>)
    requires events != [] && PromptReuse(cfg, sv, initial, events)
    ensures PromptReuse(cfg, sv, initial, events[..|events| - 1])
  {
    hide After, PromptAt;
    var before := events[..|events| - 1];
    assert forall k :: 0 <= k < |before| ==> before[..k] == events[..k];
  }

  /** Distinct ids are never reused. */
  lemma DistinctIdsArePrompt<S>(cfg: Config, sv: Service<S>, initial: S, events: seq<Event>)
    requires DistinctIds(cfg)
    ensures PromptReuse(cfg, sv, initial, events)
  {
    assert forall c: CallId, d: CallId :: !SameId(cfg, c, d) by {
      forall c: CallId, d: CallId
        ensures !SameId(cfg, c, d)
      {
        assert c < d || d < c || c == d;
      }
    }
    hide After, SameId;
  }
}
