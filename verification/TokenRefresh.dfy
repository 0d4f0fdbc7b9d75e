/** The token manager of the OAuth example under the retry-once HTTP transport, over all interleavings of
    concurrent requests, the clock, rejections and abandoned calls. Tokens are numbered as they are minted. */
module TokenRefresh {
  import opened Wrappers
  import opened Counting

  type Task = nat
  type Tok = nat

  /** A token: when it is due for refresh, and who fetched it. */
  datatype Token = Token(refreshAt: int, minter: Task)

  /** What has become of a token: in the hand of its minter; cached; replaced by a later one; dropped from
      the cache after a rejection seen by a task; given up before it was cached. */
  datatype Fate = InHand | Cached | Replaced | Invalidated(task: Task) | Abandoned

  /** The first attempt of a request, or the retry after a token was rejected. */
  datatype Try = First | Retry(rejected: Tok)

  /** Why a header was handed out: just minted, or not due when it was checked. */
  datatype Grounds = Minted | ValidAt(now: int)

  /** Where a request is. From `Rechecking` to `Storing` it holds the refresh lock. */
  datatype Phase =
    | Idle
    | Checking(n: Try)
    | Queued(n: Try)
    | Rechecking(n: Try)
    | Fetching(n: Try)
    | Storing(n: Try, tok: Tok)
    | Posting(n: Try, tok: Tok, grounds: Grounds)
    | Awaiting(n: Try, tok: Tok)
    | Rejected(tok: Tok)
    | Finished

  /** `posts` and `rejections` count, for each task, its requests sent and its calls of `on_unauthorized`. */
  datatype State = State(
    clock: int, cache: Option<Tok>, minted: seq<Token>, fates: seq<Fate>, refreshLock: Option<Task>,
    tasks: seq<Phase>, posts: seq<nat>, rejections: seq<nat>)
  {
    function Put(t: Task, p: Phase): State
      requires t < |tasks|
    {
      this.(tasks := tasks[t := p])
    }

    /** `cached_valid`. */
    predicate CacheHit() { cache.Some? && cache.value < |minted| && clock < minted[cache.value].refreshAt }
  }

  /** `Answer` is the server's: unauthorized or not. `GiveUp` is any error, or the caller's cancellation. */
  datatype Action =
    | Begin(t: Task) | CheckCache(t: Task) | EnterLock(t: Task) | Recheck(t: Task)
    | FetchOk(t: Task, expiresIn: nat) | Store(t: Task) | Post(t: Task)
    | Answer(t: Task, unauthorized: bool) | OnUnauthorized(t: Task) | GiveUp(t: Task)
    | Tick(d: nat)

  function Init(tasks: nat, clock: int): State {
    State(clock, None, [], [], None, seq(tasks, _ => Idle), seq(tasks, _ => 0), seq(tasks, _ => 0))
  }

  predicate HoldsLock(p: Phase) { p.Rechecking? || p.Fetching? || p.Storing? }

  predicate Enabled(s: State, a: Action) {
    && |s.posts| == |s.rejections| == |s.tasks| && |s.fates| == |s.minted|
    && (s.cache.Some? ==> s.cache.value < |s.minted|)
    && match a {
         case Begin(t) => t < |s.tasks| && s.tasks[t].Idle?
         case CheckCache(t) => t < |s.tasks| && s.tasks[t].Checking?
         case EnterLock(t) => t < |s.tasks| && s.tasks[t].Queued? && s.refreshLock.None?
         case Recheck(t) => t < |s.tasks| && s.tasks[t].Rechecking?
         case FetchOk(t, _) => t < |s.tasks| && s.tasks[t].Fetching?
         case Store(t) => t < |s.tasks| && s.tasks[t].Storing? && s.tasks[t].tok < |s.minted|
         case Post(t) => t < |s.tasks| && s.tasks[t].Posting?
         case Answer(t, _) => t < |s.tasks| && s.tasks[t].Awaiting?
         case OnUnauthorized(t) => t < |s.tasks| && s.tasks[t].Rejected?
         case GiveUp(t) =>
           && t < |s.tasks| && !s.tasks[t].Idle? && !s.tasks[t].Finished?
           && (s.tasks[t].Storing? ==> s.tasks[t].tok < |s.minted|)
         case Tick(_) => true
       }
  }

  function Next(skew: nat, s: State, a: Action): State
    requires Enabled(s, a)
  {
    match a
    case Begin(t) => s.Put(t, Checking(First))
    case CheckCache(t) =>
      var n := s.tasks[t].n;
      s.Put(t, if s.CacheHit() then Posting(n, s.cache.value, ValidAt(s.clock)) else Queued(n))
    case EnterLock(t) => s.Put(t, Rechecking(s.tasks[t].n)).(refreshLock := Some(t))
    case Recheck(t) =>
      var n := s.tasks[t].n;
      if s.CacheHit() then s.Put(t, Posting(n, s.cache.value, ValidAt(s.clock))).(refreshLock := None)
      else s.Put(t, Fetching(n))
    case FetchOk(t, expiresIn) =>
      s.Put(t, Storing(s.tasks[t].n, |s.minted|))
       .(minted := s.minted + [Token(s.clock + expiresIn - skew, t)], fates := s.fates + [InHand])
    case Store(t) =>
      var k := s.tasks[t].tok;
      var fates := if s.cache.Some? then s.fates[s.cache.value := Replaced] else s.fates;
      s.Put(t, Posting(s.tasks[t].n, k, Minted)).(cache := Some(k), fates := fates[k := Cached], refreshLock := None)
    case Post(t) =>
      s.Put(t, Awaiting(s.tasks[t].n, s.tasks[t].tok)).(posts := s.posts[t := s.posts[t] + 1])
    case Answer(t, unauthorized) =>
      s.Put(t, if unauthorized && s.tasks[t].n.First? then Rejected(s.tasks[t].tok) else Finished)
    case OnUnauthorized(t) =>
      var fates := if s.cache.Some? then s.fates[s.cache.value := Invalidated(t)] else s.fates;
      s.Put(t, Checking(Retry(s.tasks[t].tok)))
       .(cache := None, fates := fates, rejections := s.rejections[t := s.rejections[t] + 1])
    case GiveUp(t) =>
      s.Put(t, Finished)
       .(refreshLock := if HoldsLock(s.tasks[t]) then None else s.refreshLock,
         fates := if s.tasks[t].Storing? then s.fates[s.tasks[t].tok := Abandoned] else s.fates)
    case Tick(d) => s.(clock := s.clock + d)
  }

  function Run(skew: nat, s: State, actions: seq<Action>): Option<State> {
    if actions == [] then Some(s)
    else
      match Run(skew, s, actions[..|actions| - 1])
      case None => None
      case Some(t) =>
        var a := actions[|actions| - 1];
        if Enabled(t, a) then Some(Next(skew, t, a)) else None
  }

  // ----- The invariant -----

  predicate Due(s: State, k: Tok) { k < |s.minted| && s.minted[k].refreshAt <= s.clock }

  /** The token is of no further use, and why. */
  predicate Spent(s: State, k: Tok) {
    Due(s, k) || (k < |s.fates| && (s.fates[k].Invalidated? || s.fates[k].Abandoned?))
  }

  /** The token has been in the cache, and is there or has left it for good. */
  predicate WasCached(s: State, k: Tok) {
    k < |s.fates| && (s.fates[k].Cached? || s.fates[k].Replaced? || s.fates[k].Invalidated?)
  }

  predicate TokenOk(s: State, k: Tok)
    requires k < |s.fates| == |s.minted|
  {
    && (s.fates[k].Cached? <==> s.cache == Some(k))
    && (s.fates[k].InHand? ==>
          k == |s.minted| - 1 && s.refreshLock.Some? && s.refreshLock.value < |s.tasks|
          && s.tasks[s.refreshLock.value].Storing? && s.tasks[s.refreshLock.value].tok == k)
    && (s.fates[k].Replaced? ==> Due(s, k))
    && (s.fates[k].Invalidated? ==> s.fates[k].task < |s.rejections| && s.rejections[s.fates[k].task] == 1)
    && (k < |s.minted| - 1 ==> Spent(s, k))
  }

  /** A retry is of a request whose first token was rejected and has left the cache. */
  predicate TryOk(s: State, t: Task, n: Try)
    requires t < |s.posts| == |s.rejections|
  {
    match n
    case First => s.posts[t] == 0 && s.rejections[t] == 0
    case Retry(k) => s.posts[t] == 1 && s.rejections[t] == 1 && WasCached(s, k) && s.cache != Some(k)
  }

  predicate HeaderOk(s: State, t: Task, n: Try, k: Tok, grounds: Grounds) {
    && k < |s.minted| && WasCached(s, k) && n != Retry(k)
    && match grounds {
         case Minted => s.minted[k].minter == t
         case ValidAt(now) => now < s.minted[k].refreshAt && now <= s.clock
       }
  }

  predicate TaskOk(s: State, t: Task)
    requires t < |s.tasks| == |s.posts| == |s.rejections|
  {
    && (HoldsLock(s.tasks[t]) <==> s.refreshLock == Some(t))
    && match s.tasks[t] {
         case Idle => s.posts[t] == 0 && s.rejections[t] == 0
         case Checking(n) => TryOk(s, t, n)
         case Queued(n) => TryOk(s, t, n)
         case Rechecking(n) => TryOk(s, t, n)
         case Fetching(n) => TryOk(s, t, n) && (s.cache.Some? ==> Due(s, s.cache.value))
         case Storing(n, k) =>
           && TryOk(s, t, n) && (s.cache.Some? ==> Due(s, s.cache.value))
           && k == |s.minted| - 1 && k < |s.fates| && s.fates[k].InHand? && s.minted[k].minter == t
         case Posting(n, k, grounds) => TryOk(s, t, n) && HeaderOk(s, t, n, k, grounds)
         case Awaiting(n, k) =>
           && WasCached(s, k)
           && s.posts[t] == (if n.First? then 1 else 2) && s.rejections[t] == (if n.First? then 0 else 1)
         case Rejected(k) => WasCached(s, k) && s.posts[t] == 1 && s.rejections[t] == 0
         case Finished => s.posts[t] <= 2 && s.rejections[t] <= 1 && s.rejections[t] <= s.posts[t] <= s.rejections[t] + 1
       }
  }

  ghost predicate Shape(s: State) {
    && |s.posts| == |s.rejections| == |s.tasks| && |s.fates| == |s.minted|
    && (s.cache.Some? ==> s.cache.value < |s.minted|)
    && (s.refreshLock.Some? ==> s.refreshLock.value < |s.tasks|)
  }

  /** No rejection costs two tokens. */
  ghost predicate OneEach(s: State) {
    forall j, k :: 0 <= j < k < |s.fates| && s.fates[j].Invalidated? && s.fates[k].Invalidated? ==> s.fates[j] != s.fates[k]
  }

  ghost predicate Inv(s: State) {
    && Shape(s) && OneEach(s)
    && (forall k :: 0 <= k < |s.minted| ==> TokenOk(s, k))
    && (forall t :: 0 <= t < |s.tasks| ==> TaskOk(s, t))
  }

  lemma TokenStep(skew: nat, s: State, a: Action, k: Tok)
    requires Inv(s) && Enabled(s, a) && k < |Next(skew, s, a).minted|
    ensures |Next(skew, s, a).fates| == |Next(skew, s, a).minted| && TokenOk(Next(skew, s, a), k)
  {
    hide OneEach;
    assert !a.Tick? ==> TaskOk(s, a.t);
    assert k < |s.minted| ==> TokenOk(s, k);
  }

  /** A token that has left the cache never comes back to it. */
  lemma CachedOnce(skew: nat, s: State, a: Action, k: Tok)
    requires Inv(s) && Enabled(s, a) && WasCached(s, k)
    ensures WasCached(Next(skew, s, a), k)
    ensures s.cache != Some(k) ==> Next(skew, s, a).cache != Some(k)
  {
    hide OneEach;
    assert !a.Tick? ==> TaskOk(s, a.t);
  }

  lemma LockStep(skew: nat, s: State, a: Action, t: Task)
    requires Inv(s) && Enabled(s, a) && t < |s.tasks|
    ensures var u := Next(skew, s, a);
            t < |u.tasks| == |u.posts| == |u.rejections| && (HoldsLock(u.tasks[t]) <==> u.refreshLock == Some(t))
  {
    hide OneEach, TokenOk;
    assert !a.Tick? ==> TaskOk(s, a.t);
    assert TaskOk(s, t);
  }

  lemma OwnTaskStep(skew: nat, s: State, a: Action)
    requires Inv(s) && Enabled(s, a) && !a.Tick?
    ensures var u := Next(skew, s, a); a.t < |u.tasks| == |u.posts| == |u.rejections| && TaskOk(u, a.t)
  {
    hide OneEach;
    LockStep(skew, s, a, a.t);
    assert TaskOk(s, a.t);
    assert s.cache.Some? ==> TokenOk(s, s.cache.value);
  }

  /** What a task relies on about tokens survives the steps of the others. */
  lemma TryStays(skew: nat, s: State, a: Action, t: Task, n: Try)
    requires Inv(s) && Enabled(s, a) && t < |s.tasks| && (!a.Tick? ==> a.t != t) && TryOk(s, t, n)
    ensures var u := Next(skew, s, a); t < |u.posts| == |u.rejections| && TryOk(u, t, n)
  {
    if n.Retry? {
      CachedOnce(skew, s, a, n.rejected);
    }
    hide Inv;
  }

  lemma HeaderStays(skew: nat, s: State, a: Action, t: Task, n: Try, k: Tok, grounds: Grounds)
    requires Inv(s) && Enabled(s, a) && HeaderOk(s, t, n, k, grounds)
    ensures HeaderOk(Next(skew, s, a), t, n, k, grounds)
  {
    CachedOnce(skew, s, a, k);
    hide Inv, WasCached;
  }

  /** While a task holds the refresh lock nobody else mints or caches. */
  lemma LockedStays(skew: nat, s: State, a: Action, t: Task)
    requires Inv(s) && Enabled(s, a) && t < |s.tasks| && (!a.Tick? ==> a.t != t)
    requires s.tasks[t].Fetching? || s.tasks[t].Storing?
    ensures var u := Next(skew, s, a);
            && |u.minted| == |u.fates| == |s.minted| && u.minted == s.minted
            && (u.cache.Some? ==> Due(u, u.cache.value))
            && (forall k :: 0 <= k < |s.fates| && s.fates[k].InHand? ==> u.fates[k].InHand?)
  {
    hide OneEach;
    assert TaskOk(s, t);
    assert !a.Tick? ==> TaskOk(s, a.t);
    assert s.cache.Some? ==> TokenOk(s, s.cache.value);
  }

  lemma OtherTaskStep(skew: nat, s: State, a: Action, t: Task)
    requires Inv(s) && Enabled(s, a) && t < |s.tasks| && (!a.Tick? ==> a.t != t)
    ensures var u := Next(skew, s, a); t < |u.tasks| == |u.posts| == |u.rejections| && TaskOk(u, t)
  {
    LockStep(skew, s, a, t);
    assert TaskOk(s, t);
    var u := Next(skew, s, a);
    assert u.tasks[t] == s.tasks[t] && u.posts[t] == s.posts[t] && u.rejections[t] == s.rejections[t];
    var p := s.tasks[t];
    if p.Posting? {
      HeaderStays(skew, s, a, t, p.n, p.tok, p.grounds);
    }
    if p.Awaiting? || p.Rejected? {
      CachedOnce(skew, s, a, p.tok);
    } else if !p.Idle? && !p.Finished? {
      TryStays(skew, s, a, t, p.n);
    }
    if p.Fetching? || p.Storing? {
      LockedStays(skew, s, a, t);
    }
    hide Inv, Next, Enabled, WasCached, TryOk, HeaderOk;
  }

  lemma OneEachStep(skew: nat, s: State, a: Action)
    requires Inv(s) && Enabled(s, a)
    ensures OneEach(Next(skew, s, a)) && Shape(Next(skew, s, a))
  {
    assert !a.Tick? ==> TaskOk(s, a.t);
    assert forall k :: 0 <= k < |s.fates| && s.fates[k].Invalidated? ==> TokenOk(s, k);
  }

  lemma StepInv(skew: nat, s: State, a: Action)
    requires Inv(s) && Enabled(s, a)
    ensures Inv(Next(skew, s, a))
  {
    OneEachStep(skew, s, a);
    var u := Next(skew, s, a);
    assert |u.tasks| == |s.tasks|;
    forall k | 0 <= k < |u.minted|
      ensures TokenOk(u, k)
    {
      TokenStep(skew, s, a, k);
    }
    forall t | 0 <= t < |u.tasks|
      ensures TaskOk(u, t)
    {
      if !a.Tick? && t == a.t { OwnTaskStep(skew, s, a); } else { OtherTaskStep(skew, s, a, t); }
    }
    hide Next, TokenOk, TaskOk, OneEach;
  }

  lemma {:induction false} RunInv(skew: nat, tasks: nat, clock: int, actions: seq<Action>)
    requires Run(skew, Init(tasks, clock), actions).Some?
    ensures Inv(Run(skew, Init(tasks, clock), actions).value)
  {
    hide Next, Enabled;
    if actions != [] {
      var n := |actions| - 1;
      RunInv(skew, tasks, clock, actions[..n]);
      hide Inv;
      StepInv(skew, Run(skew, Init(tasks, clock), actions[..n]).value, actions[n]);
    }
  }

  // ----- What holds in every run -----

  ghost predicate Reachable(skew: nat, s: State) {
    exists tasks: nat, clock: int, actions: seq<Action> :: Run(skew, Init(tasks, clock), actions) == Some(s)
  }

  lemma ReachableInv(skew: nat, s: State)
    requires Reachable(skew, s)
    ensures Inv(s)
  {
    var tasks: nat, clock: int, actions: seq<Action> :| Run(skew, Init(tasks, clock), actions) == Some(s);
    RunInv(skew, tasks, clock, actions);
  }

  /** At most one token fetch is in flight. */
  lemma SingleFlight(skew: nat, s: State, t: Task, u: Task)
    requires Reachable(skew, s) && t < |s.tasks| && u < |s.tasks|
    requires s.tasks[t].Fetching? && s.tasks[u].Fetching?
    ensures t == u
  {
    ReachableInv(skew, s);
    assert TaskOk(s, t) && TaskOk(s, u);
  }

  /** Every header a request goes out with was fetched by that very request, or was not yet due when it was
      looked up; and a retry never goes out with the header that was rejected. */
  lemma HeadersAreFresh(skew: nat, s: State, t: Task)
    requires Reachable(skew, s) && t < |s.tasks| && s.tasks[t].Posting?
    ensures var p := s.tasks[t];
            && p.tok < |s.minted|
            && (p.grounds.Minted? ==> s.minted[p.tok].minter == t)
            && (p.grounds.ValidAt? ==> p.grounds.now < s.minted[p.tok].refreshAt && p.grounds.now <= s.clock)
            && (p.n.Retry? ==> p.n.rejected != p.tok)
  {
    ReachableInv(skew, s);
    assert TaskOk(s, t);
  }

  /** An HTTP round trip sends at most two requests, and the second only after one rejection was reported. */
  lemma AtMostTwoPosts(skew: nat, s: State, t: Task)
    requires Reachable(skew, s) && t < |s.tasks|
    ensures |s.posts| == |s.rejections| == |s.tasks|
    ensures s.posts[t] <= 2 && s.rejections[t] <= 1
    ensures s.rejections[t] <= s.posts[t] <= s.rejections[t] + 1
  {
    ReachableInv(skew, s);
    assert TaskOk(s, t);
  }

  function Expired(s: State): set<Tok> { set k: Tok | 0 <= k < |s.minted| && Due(s, k) }

  function Invalid(s: State): set<Tok> { set k: Tok | 0 <= k < |s.fates| && s.fates[k].Invalidated? }

  function GivenUp(s: State): set<Tok> { set k: Tok | 0 <= k < |s.fates| && s.fates[k].Abandoned? }

  /** The tasks that have called `on_unauthorized`. */
  function Rejecters(s: State): set<Task> { set t: Task | 0 <= t < |s.rejections| && s.rejections[t] > 0 }

  lemma {:induction false} BlameCount(s: State, ks: set<Tok>)
    requires OneEach(s) && ks <= Invalid(s)
    ensures |set k | k in ks :: s.fates[k].task| == |ks|
  {
    var blamed := set k | k in ks :: s.fates[k].task;
    if ks != {} {
      var k :| k in ks;
      BlameCount(s, ks - {k});
      var others := set j | j in ks - {k} :: s.fates[j].task;
      assert s.fates[k].task !in others;
      hide OneEach, Invalid;
      assert blamed == others + {s.fates[k].task};
    }
  }

  /** Tokens invalidated are no more than tasks that reported a rejection. */
  lemma InvalidWithinRejections(s: State)
    requires Inv(s)
    ensures |Invalid(s)| <= |Rejecters(s)|
  {
    BlameCount(s, Invalid(s));
    var blamed := set k | k in Invalid(s) :: s.fates[k].task;
    forall t | t in blamed
      ensures t in Rejecters(s)
    {
      var k :| k in Invalid(s) && s.fates[k].task == t;
      assert TokenOk(s, k);
    }
    SubsetCount(blamed, Rejecters(s));
  }

  /** Successful fetches: one, and one more at most for each token that has expired, each request that
      was rejected, and each request abandoned with a token in its hand. */
  lemma FetchesAreEarned(skew: nat, s: State)
    requires Reachable(skew, s)
    ensures |s.minted| <= 1 + |Expired(s)| + |Rejecters(s)| + |GivenUp(s)|
  {
    ReachableInv(skew, s);
    InvalidWithinRejections(s);
    if s.minted != [] {
      var spent := Expired(s) + Invalid(s) + GivenUp(s);
      forall k | k in Below(|s.minted| - 1)
        ensures k in spent
      {
        assert TokenOk(s, k) && Spent(s, k);
      }
      SubsetCount(Below(|s.minted| - 1), spent);
      UnionCount(Expired(s) + Invalid(s), GivenUp(s));
      UnionCount(Expired(s), Invalid(s));
    }
  }
}
