/** Re-dialing with bounded exponential backoff: how often the socket is dialed, how long each wait is,
    and when the arithmetic on the delay overflows. Durations are whole nanoseconds. */
module Backoff {
  import opened Wrappers

  /** The largest duration. */
  const DURATION_MAX: nat := 0x1_0000_0000_0000_0000 * 1_000_000_000 - 1

  datatype RetryPolicy = RetryPolicy(maxAttempts: nat, baseBackoff: nat, maxBackoff: nat)

  /** How many dials a reconnect may make. */
  function Attempts(p: RetryPolicy): (n: nat)
    ensures n >= 1
  {
    if p.maxAttempts == 0 then 1 else p.maxAttempts
  }

  function Min(a: nat, b: nat): nat { if a <= b then a else b }

  function Pow2(n: nat): nat { if n == 0 then 1 else 2 * Pow2(n - 1) }

  /** The wait before attempt `k`, counted from zero: before attempt 1 it is the base, whatever the maximum. */
  function Delay(p: RetryPolicy, k: nat): nat {
    if k <= 1 then p.baseBackoff else Min(p.baseBackoff * Pow2(k - 1), p.maxBackoff)
  }

  /** The first `n` waits. */
  function Delays(p: RetryPolicy, n: nat): seq<nat> {
    seq(n, i requires 0 <= i < n => Delay(p, i + 1))
  }

  /** A wait before one of the attempts 1 to `n - 1` is too long to be doubled. */
  ghost predicate Overflows(p: RetryPolicy, n: nat) {
    exists k :: 1 <= k < n && TooLong(p, k)
  }

  predicate TooLong(p: RetryPolicy, k: nat) { 2 * Delay(p, k) > DURATION_MAX }

  /** What dialing the socket answers. */
  datatype Dial<+C, +E> = Up(connection: C) | Refused(error: E)

  /** How a reconnect ends; `Panicked` is the overflow. */
  datatype Redialed<+C, +E> = Connected(connection: C) | Failed(error: E) | ConnectionClosed | Panicked

  /** The number of dials: up to the first that gets through, or all that are allowed. */
  function DialsNeeded<C, E>(p: RetryPolicy, dial: nat -> Dial<C, E>, k: nat := 0): (n: nat)
    requires k < Attempts(p)
    ensures k < n <= Attempts(p)
    ensures forall j :: k <= j < n - 1 ==> dial(j).Refused?
    ensures dial(n - 1).Refused? ==> n == Attempts(p)
    decreases Attempts(p) - k
  {
    if dial(k).Up? || k + 1 == Attempts(p) then k + 1 else DialsNeeded(p, dial, k + 1)
  }

  lemma NeededBeyond<C, E>(p: RetryPolicy, dial: nat -> Dial<C, E>, k: nat)
    requires k < Attempts(p) && forall j :: 0 <= j < k ==> dial(j).Refused?
    ensures DialsNeeded(p, dial) > k
    ensures dial(k).Up? || k + 1 == Attempts(p) ==> DialsNeeded(p, dial) == k + 1
  {
  }

  lemma DoubleDelay(p: RetryPolicy, k: nat)
    requires k >= 1
    ensures Min(2 * Delay(p, k), p.maxBackoff) == Delay(p, k + 1)
  {
    assert Pow2(k) == 2 * Pow2(k - 1);
    assert p.baseBackoff * Pow2(k) == 2 * (p.baseBackoff * Pow2(k - 1));
    assert Pow2(0) == 1;
  }

  /** The loop of `reconnect`, the gate held: `waits` are the sleeps, in order, and `n` counts the dials.
      Unless doubling a wait overflows, exactly as many dials as needed are made, with the due wait
      before each but the first, and the result is that of the last one. */
  method Redial<C, E>(p: RetryPolicy, dial: nat -> Dial<C, E>) returns (r: Redialed<C, E>, waits: seq<nat>, n: nat)
    ensures r.Panicked? <==> Overflows(p, DialsNeeded(p, dial))
    ensures r.Panicked? ==> 1 <= n < DialsNeeded(p, dial) && TooLong(p, n) && !Overflows(p, n) && waits == Delays(p, n)
    ensures !r.Panicked? ==>
              && n == DialsNeeded(p, dial) && waits == Delays(p, n - 1)
              && r == match dial(n - 1) { case Up(c) => Connected(c) case Refused(e) => Failed(e) }
  {
    var backoff := p.baseBackoff;
    var lastErr: Option<E> := None;
    waits, n := [], 0;
    assert backoff == Delay(p, 1);
    hide Delay;
    while n < Attempts(p)
      invariant n <= Attempts(p)
      invariant waits == if n == 0 then [] else Delays(p, n - 1)
      invariant backoff == Delay(p, if n == 0 then 1 else n)
      invariant forall k :: 0 <= k < n ==> dial(k).Refused?
      invariant !Overflows(p, n)
      invariant lastErr == if n == 0 then None else Some(dial(n - 1).error)
    {
      NeededBeyond(p, dial, n);
      if n > 0 {
        waits := waits + [backoff];
        if 2 * backoff > DURATION_MAX {
          assert TooLong(p, n);
          return Panicked, waits, n;
        }
        DoubleDelay(p, n);
        backoff := Min(2 * backoff, p.maxBackoff);
      }
      match dial(n)
      case Up(c) => return Connected(c), waits, n + 1;
      case Refused(e) => lastErr := Some(e);
      n := n + 1;
    }
    r := if lastErr.Some? then Failed(lastErr.value) else ConnectionClosed;
  }

  /** The client around it, with the transport it replaces. `connected` is what a snapshot answers when
      it is asked; by the time the gate is entered the answer may have changed. */
  class ReconnectingUds<C> {
    const policy: RetryPolicy
    var current: C

    constructor (policy: RetryPolicy, current: C)
      ensures this.policy == policy && this.current == current
    {
      this.policy, this.current := policy, current;
    }

    /** The transport is replaced exactly by a connection dialed after it was seen dead in the gate. */
    method Reconnect<E>(connected: C -> bool, dial: nat -> Dial<C, E>) returns (r: Redialed<C, E>)
      modifies this
      ensures connected(old(current)) ==> r == Connected(old(current)) && current == old(current)
      ensures !connected(old(current)) ==>
                var n := DialsNeeded(policy, dial);
                && (r.Panicked? <==> Overflows(policy, n))
                && (!r.Panicked? && dial(n - 1).Up? ==> r == Connected(dial(n - 1).connection) && current == r.connection)
                && (!r.Panicked? && dial(n - 1).Refused? ==> r == Failed(dial(n - 1).error) && n == Attempts(policy))
                && (!r.Connected? ==> current == old(current))
    {
      if connected(current) {
        return Connected(current);
      }
      var waits, n;
      r, waits, n := Redial(policy, dial);
      if r.Connected? {
        current := r.connection;
      }
    }

    method EnsureConnected<E>(connected: C -> bool, connectedInGate: C -> bool, dial: nat -> Dial<C, E>)
      returns (r: Redialed<C, E>)
      modifies this
      ensures connected(old(current)) || connectedInGate(old(current)) ==> r == Connected(old(current)) && current == old(current)
      ensures !connected(old(current)) && !connectedInGate(old(current)) ==>
                var n := DialsNeeded(policy, dial);
                && (r.Panicked? <==> Overflows(policy, n))
                && (!r.Panicked? ==> r == match dial(n - 1) { case Up(c) => Connected(c) case Refused(e) => Failed(e) })
      ensures r.Connected? ==> current == r.connection
      ensures !r.Connected? ==> current == old(current)
      ensures r != ConnectionClosed
    {
      if connected(current) {
        return Connected(current);
      }
      r := Reconnect(connectedInGate, dial);
    }
  }

  // ----- What the waits add up to -----

  lemma {:induction false} Pow2Grows(j: nat, k: nat)
    requires j <= k
    ensures 1 <= Pow2(j) <= Pow2(k)
  {
    if j < k {
      Pow2Grows(j, k - 1);
    } else if j > 0 {
      Pow2Grows(j - 1, k - 1);
    }
  }

  /** From the second wait on the waits only grow, and none exceeds the maximum. */
  lemma DelaysGrow(p: RetryPolicy, j: nat, k: nat)
    requires 2 <= j <= k
    ensures Delay(p, j) <= Delay(p, k) <= p.maxBackoff
  {
    Pow2Grows(j - 1, k - 1);
    Scale(p.baseBackoff, Pow2(j - 1), Pow2(k - 1));
  }

  lemma Scale(a: nat, x: nat, y: nat)
    requires x <= y
    ensures a * x <= a * y
  {
  }

  /** The doubling overflows within `n` dials exactly when the base alone does, or the last wait does. */
  lemma OverflowIsExact(p: RetryPolicy, n: nat)
    ensures Overflows(p, n) <==> (n >= 2 && 2 * p.baseBackoff > DURATION_MAX) || (n >= 3 && TooLong(p, n - 1))
  {
    if n >= 2 && 2 * p.baseBackoff > DURATION_MAX {
      assert TooLong(p, 1);
    }
    forall k | 2 <= k < n && TooLong(p, k)
      ensures TooLong(p, n - 1)
    {
      DelaysGrow(p, k, n - 1);
    }
  }

  /** It never does, however many dials are made, when both bounds of the policy can be doubled. */
  lemma SafePolicies(p: RetryPolicy, n: nat)
    requires 2 * p.baseBackoff <= DURATION_MAX && 2 * p.maxBackoff <= DURATION_MAX
    ensures !Overflows(p, n)
  {
    OverflowIsExact(p, n);
    if n >= 3 {
      DelaysGrow(p, n - 1, n - 1);
    }
  }

  function Sum(ns: seq<nat>): nat { if ns == [] then 0 else Sum(ns[..|ns| - 1]) + ns[|ns| - 1] }

  lemma OneMoreWait(p: RetryPolicy, n: nat)
    ensures Sum(Delays(p, n + 1)) == Sum(Delays(p, n)) + Delay(p, n + 1)
  {
    hide Delay;
    assert Delays(p, n + 1)[..n] == Delays(p, n);
  }

  /** A reconnect that sleeps at all sleeps at least the base, and for `n` waits at most the base and
      `n - 1` times the maximum. */
  lemma {:induction false} TotalWait(p: RetryPolicy, n: nat)
    requires n >= 1
    ensures p.baseBackoff <= Sum(Delays(p, n)) <= p.baseBackoff + (n - 1) * p.maxBackoff
  {
    OneMoreWait(p, n - 1);
    if n == 1 {
      assert Delay(p, 1) == p.baseBackoff && Sum([]) == 0;
    } else {
      DelaysGrow(p, n, n);
      TotalWait(p, n - 1);
      hide Delay, Sum, Delays;
      assert (n - 1) * p.maxBackoff == (n - 2) * p.maxBackoff + p.maxBackoff;
    }
  }
}
