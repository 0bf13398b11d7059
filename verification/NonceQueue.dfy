/**
 The nonce allocator as one thread sees it: it hands out the least nonce not in
 use. The reconcile loop is verified with other threads moving the counter
 between its load and its exchange.
 */
module NonceQueue {
  import opened NonceProtocol

  /** The specification: the least number from `seed` on that is not in `used`. */
  ghost predicate LeastUnused(seed: nat, used: set<nat>, n: nat) {
    && seed <= n && n !in used
    && forall m :: seed <= m < n ==> m in used
  }

  class NonceQueue {
    ghost const seed: nat
    var current: nat
    var released: set<nat>

    constructor (seed: nat)
      ensures this.seed == seed && current == seed && Valid() && InUse() == {}
    {
      this.seed, current, released := seed, seed, {};
    }

    ghost predicate Valid()
      reads this
    {
      seed <= current && forall n :: n in released ==> seed <= n < current
    }

    ghost function InUse(): set<nat>
      reads this
    {
      Range(seed, current) - released
    }

    method Next() returns (n: nat)
      requires Valid() && (released == {} ==> current + 1 < U64)
      modifies this
      ensures Valid() && LeastUnused(seed, old(InUse()), n)
      ensures InUse() == old(InUse()) + {n}
      ensures released == old(released) - {n}
      ensures current == if old(released) == {} then old(current) + 1 else old(current)
    {
      if released != {} {
        n := Min(released);
        released := released - {n};
        return;
      }
      n := current;
      current := (current + 1) % U64;
    }

    /**
     Giving back a nonce in use frees it and giving back a free one changes
     nothing. A nonce never handed out goes into the pool just the same, and
     that alone makes the queue invalid.
     */
    method Release(n: nat)
      requires Valid()
      modifies this
      ensures released == old(released) + {n} && current == old(current)
      ensures Valid() <==> seed <= n < current
      ensures InUse() == old(InUse()) - {n}
    {
      released := released + {n};
    }

    method ReleasedCount() returns (n: nat)
      requires Valid()
      ensures n + |InUse()| == current - seed
    {
      n := |released|;
      RangeSize(seed, current);
      assert released + InUse() == Range(seed, current);
      assert |released + InUse()| == |released| + |InUse()|;
    }

    /**
     Brings the counter up to the chain's. Between the load and the exchange of
     attempt `i`, other threads add `others(i)` to the counter. It ends where
     the others brought it if that is far enough, and at the chain's otherwise.
     */
    method Reconcile(pending: nat, others: nat -> nat) returns (v: nat, ghost failed: nat)
      requires Valid() && pending < U64
      modifies this
      ensures Valid() && released == old(released) && v == current
      ensures failed <= if old(current) < pending then pending - old(current) else 0
      ensures forall i :: 0 <= i < failed ==> others(i) > 0
      ensures var grown := old(current) + Total(others, failed);
        if grown >= pending then current == grown else current == pending && others(failed) == 0
      ensures InUse() == old(InUse()) + Range(old(current), current)
    {
      var i := 0;
      while true
        invariant Valid() && released == old(released)
        invariant current == old(current) + Total(others, i)
        invariant forall j :: 0 <= j < i ==> others(j) > 0
        invariant i > 0 ==> i <= current - old(current) && i <= pending - old(current)
        decreases if current < pending then pending - current else 0, pending - i
      {
        var local := current;
        if local >= pending {
          return local, i;
        }
        current := current + others(i);
        if current == local {
          current := pending;
          return pending, i;
        }
        i := i + 1;
      }
    }
  }

  /** How much the other threads added during the first `n` attempts. */
  ghost function Total(others: nat -> nat, n: nat): nat {
    if n == 0 then 0 else Total(others, n - 1) + others(n - 1)
  }

  lemma {:induction false} RangeSize(lo: nat, hi: nat)
    requires lo <= hi
    ensures |Range(lo, hi)| == hi - lo
    decreases hi - lo
  {
    if lo < hi {
      RangeSize(lo + 1, hi);
      assert Range(lo, hi) == {lo} + Range(lo + 1, hi);
    }
  }

  /** In the shared allocator: the nonces handed out or jumped over and not in the pool. */
  ghost function InUse(s: Sys): set<nat> {
    Range(s.seed, s.current) - s.released
  }

  lemma PooledWasIssued(s: Sys)
    requires Inv(s)
    ensures forall n :: n in s.released ==> s.seed <= n < s.current
  {
    forall n | n in s.released ensures s.seed <= n < s.current {
      assert Places(s, n) == One(s.seed <= n < s.current);
    }
  }

  /** Popping the pool always yields the least unused nonce, whatever other threads are doing. */
  lemma PopIsLeast(s: Sys, t: Thread)
    requires Inv(s) && Enabled(s, Pop(t)) && s.released != {}
    ensures var n := Min(s.released);
      LeastUnused(s.seed, InUse(s), n) && Holds(Do(s, Pop(t)), t, n)
  {
    PooledWasIssued(s);
  }

  /**
   Taking from the counter does so exactly when no release came in since the
   pool was found empty: a `next` that loses that race skips a pooled nonce.
   */
  lemma FetchAddIsLeast(s: Sys, t: Thread)
    requires Inv(s) && Enabled(s, FetchAdd(t)) && Safe(s, FetchAdd(t))
    ensures Holds(Do(s, FetchAdd(t)), t, s.current)
    ensures LeastUnused(s.seed, InUse(s), s.current) <==> s.released == {}
  {
    PooledWasIssued(s);
    if s.released != {} {
      assert Min(s.released) !in InUse(s);
    }
  }

  /** The race happens: a release lands between a pool miss and its addition. */
  lemma LostRace()
    ensures var steps := [Pop(0), FetchAdd(0), Pop(1), Release(0, 0), FetchAdd(1)];
      SafeRun(Start(0), steps) && Holds(Exec(Start(0), steps), 1, 1) && 0 in Exec(Start(0), steps).released
  {
    var s1 := Do(Start(0), Pop(0));
    var s2 := Do(s1, FetchAdd(0));
    var s3 := Do(s2, Pop(1));
    var s4 := Do(s3, Release(0, 0));
    var s5 := Do(s4, FetchAdd(1));
    assert s5.current == 2 && SafeRun(s5, []) && Exec(s5, []) == s5;
    assert SafeRun(s3, [Release(0, 0), FetchAdd(1)]) && Exec(s3, [Release(0, 0), FetchAdd(1)]) == s5;
    assert SafeRun(s1, [FetchAdd(0), Pop(1), Release(0, 0), FetchAdd(1)]);
  }
}
