/**
 Reconnect delays: `agg::net::ReconnectPolicy`.

 The delay doubles from the initial backoff up to the maximum in unsigned 64-bit arithmetic and is
 returned as a signed 64-bit count of milliseconds; the attempt counter is an unsigned 32-bit
 number. Jitter is not part of the model.
 */
module Reconnect {
  import opened Decimals

  const TWO32: nat := 0x1_0000_0000

  function Pow2(n: nat): (p: nat)
    ensures p >= 1
  {
    if n == 0 then 1 else 2 * Pow2(n - 1)
  }

  function MinNat(a: nat, b: nat): (r: nat)
    ensures r <= a && r <= b && (r == a || r == b)
  {
    if b < a then b else a
  }

  /** The number doubled k times. */
  function Grown(x: nat, k: nat): (r: nat)
    ensures r >= x
  {
    if k == 0 then x else 2 * Grown(x, k - 1)
  }

  lemma {:induction false} GrownIsProduct(x: nat, k: nat)
    ensures Grown(x, k) == x * Pow2(k)
  {
    if k > 0 {
      GrownIsProduct(x, k - 1);
    }
  }

  /** The documented delay: min(initial * 2^attempt, max). */
  function Promised(initial: nat, max: nat, attempt: nat): nat {
    MinNat(Grown(initial, attempt), max)
  }

  /** What the doubling loop computes, with the wrap-around of unsigned multiplication. */
  function Doubled(delay: nat, max: nat, attempt: nat): nat
    decreases attempt
  {
    if attempt == 0 || delay >= max then delay else Doubled((delay * 2) % TWO64, max, attempt - 1)
  }

  /** The returned delay: the capped number as a signed count. */
  function BaseDelay(initial: nat, max: nat, attempt: nat): Int64 {
    Wrap64(MinNat(Doubled(initial, max, attempt), max))
  }

  // ------------------------------------------------------------ the policy's state

  /** The fields guarded by the policy's mutex. */
  datatype Policy = Policy(attempt: nat, stopRequested: bool) {

    /** A wait ends early exactly if stop is requested; otherwise the attempt counts. */
    function Waited(): Policy {
      if stopRequested then this else Policy((attempt + 1) % TWO32, false)
    }

    function Stopped(): Policy {
      Policy(attempt, true)
    }

    /** Besides the counter, a reset clears a stop request. */
    function Restarted(): Policy {
      Policy(0, false)
    }
  }

  class ReconnectPolicy {
    const initialBackoff: nat
    const maxBackoff: nat
    var attempt: nat
    var stopRequested: bool

    ghost predicate Valid()
      reads this
    {
      initialBackoff < TWO64 && maxBackoff < TWO64 && attempt < TWO32
    }

    ghost function Value(): Policy
      reads this
    {
      Policy(attempt, stopRequested)
    }

    constructor (initialBackoff: nat, maxBackoff: nat)
      requires initialBackoff < TWO64 && maxBackoff < TWO64
      ensures Valid() && this.initialBackoff == initialBackoff && this.maxBackoff == maxBackoff
      ensures Value() == Policy(0, false)
    {
      this.initialBackoff := initialBackoff;
      this.maxBackoff := maxBackoff;
      this.attempt := 0;
      this.stopRequested := false;
    }

    /** The doubling loop; it returns the documented delay exactly if that is below 2^63. */
    method BaseDelayForAttempt(attempt: nat) returns (delay: Int64)
      requires Valid()
      ensures delay == BaseDelay(initialBackoff, maxBackoff, attempt)
      ensures delay == Promised(initialBackoff, maxBackoff, attempt)
              <==> Promised(initialBackoff, maxBackoff, attempt) < TWO63
    {
      var delayMs: nat := initialBackoff;
      var i := 0;
      while i < attempt && delayMs < maxBackoff
        invariant 0 <= i <= attempt && delayMs < TWO64
        invariant Doubled(delayMs, maxBackoff, attempt - i) == Doubled(initialBackoff, maxBackoff, attempt)
        decreases attempt - i
      {
        delayMs := (delayMs * 2) % TWO64;
        i := i + 1;
      }
      delayMs := if maxBackoff < delayMs then maxBackoff else delayMs;
      delay := Wrap64(delayMs);
      DelayIff(initialBackoff, maxBackoff, attempt);
    }

    /** The end of a wait, under the mutex. */
    method FinishWait() returns (elapsed: bool)
      requires Valid()
      modifies this
      ensures Valid() && Value() == old(Value()).Waited() && elapsed == !stopRequested
    {
      if stopRequested {
        return false;
      }
      attempt := (attempt + 1) % TWO32;
      elapsed := true;
    }

    method Stop()
      requires Valid()
      modifies this
      ensures Valid() && Value() == old(Value()).Stopped()
    {
      stopRequested := true;
    }

    method Reset()
      requires Valid()
      modifies this
      ensures Valid() && Value() == old(Value()).Restarted()
    {
      attempt := 0;
      stopRequested := false;
    }
  }

  // ------------------------------------------------------------ when the promise is kept

  lemma {:induction false} DoubleFirst(x: nat, k: nat)
    ensures Grown(2 * x, k) == Grown(x, k + 1)
  {
    if k > 0 {
      DoubleFirst(x, k - 1);
    }
  }

  /** A promise below 2^63 is reached without any wrap-around. */
  lemma {:induction false} DelayAsPromised(initial: nat, max: nat, attempt: nat)
    requires max < TWO64 && Promised(initial, max, attempt) < TWO63
    ensures MinNat(Doubled(initial, max, attempt), max) == Promised(initial, max, attempt)
    decreases attempt
  {
    if initial < max && attempt > 0 {
      DoubleFirst(initial, attempt - 1);
      assert 2 * initial <= Grown(initial, attempt);
      assert (initial * 2) % TWO64 == 2 * initial;
      DelayAsPromised(2 * initial, max, attempt - 1);
    }
  }

  /** For each attempt, the documented delay is returned if and only if it is below 2^63. */
  lemma DelayIff(initial: nat, max: nat, attempt: nat)
    requires max < TWO64
    ensures BaseDelay(initial, max, attempt) == Promised(initial, max, attempt)
            <==> Promised(initial, max, attempt) < TWO63
  {
    if Promised(initial, max, attempt) < TWO63 {
      DelayAsPromised(initial, max, attempt);
    }
  }

  lemma {:induction false} GrownAtLeast(x: nat, k: nat)
    ensures x > 0 ==> Grown(x, k) >= Pow2(k)
    ensures x == 0 ==> Grown(x, k) == 0
  {
    if k > 0 {
      GrownAtLeast(x, k - 1);
    }
  }

  lemma NineDoublings(k: nat)
    ensures Pow2(k + 9) == 512 * Pow2(k)
  {
    assert Pow2(k + 2) == 4 * Pow2(k);
    assert Pow2(k + 4) == 4 * Pow2(k + 2);
    assert Pow2(k + 6) == 4 * Pow2(k + 4);
    assert Pow2(k + 8) == 4 * Pow2(k + 6);
  }

  lemma ManyDoublings(k: nat)
    ensures Pow2(k + 63) == TWO63 * Pow2(k)
  {
    hide Pow2;
    NineDoublings(k);
    NineDoublings(k + 9);
    NineDoublings(k + 18);
    NineDoublings(k + 27);
    NineDoublings(k + 36);
    NineDoublings(k + 45);
    NineDoublings(k + 54);
  }

  lemma Exceeds(initial: nat, max: nat, attempt: nat)
    requires initial > 0 && max >= TWO63 && attempt >= 63
    ensures Promised(initial, max, attempt) >= TWO63
  {
    ManyDoublings(attempt - 63);
    GrownAtLeast(initial, attempt);
  }

  /**
   The documented delay is returned for every attempt if and only if the maximum is below 2^63 or
   the initial backoff is zero.
   */
  lemma BaseDelayIff(initial: nat, max: nat)
    requires max < TWO64
    ensures (forall attempt: nat :: attempt < TWO32 ==>
               BaseDelay(initial, max, attempt) == Promised(initial, max, attempt))
            <==> max < TWO63 || initial == 0
  {
    forall attempt: nat
      ensures BaseDelay(initial, max, attempt) == Promised(initial, max, attempt)
              <==> Promised(initial, max, attempt) < TWO63
      ensures initial == 0 ==> Promised(initial, max, attempt) == 0
    {
      DelayIff(initial, max, attempt);
      GrownAtLeast(initial, attempt);
    }
    if max >= TWO63 && initial > 0 {
      Exceeds(initial, max, 63);
    }
  }

  /** A configuration the loader accepts: the first wait is over before it began. */
  lemma NegativeDelay()
    ensures BaseDelay(TWO63, TWO63, 0) == -TWO63 && Promised(TWO63, TWO63, 0) == TWO63
  {
    assert Grown(TWO63, 0) == TWO63;
  }

  lemma {:induction false} PromisedMonotone(initial: nat, max: nat, j: nat, k: nat)
    requires j <= k
    ensures Promised(initial, max, j) <= Promised(initial, max, k) <= max
    ensures Promised(initial, max, j) == max ==> Promised(initial, max, k) == max
    decreases k - j
  {
    if j < k {
      PromisedMonotone(initial, max, j, k - 1);
    }
  }

  /**
   The returned delay never shrinks with the attempt as long as the promise is below 2^63, and
   stays at the maximum once there.
   */
  lemma DelayMonotone(initial: nat, max: nat, j: nat, k: nat)
    requires max < TWO64 && j <= k && Promised(initial, max, k) < TWO63
    ensures 0 <= BaseDelay(initial, max, j) <= BaseDelay(initial, max, k) <= max
    ensures BaseDelay(initial, max, j) == max ==> BaseDelay(initial, max, k) == max
  {
    PromisedMonotone(initial, max, j, k);
    DelayIff(initial, max, j);
    DelayIff(initial, max, k);
  }
}
