/** The capacity-growth policy of the owning buffer (`ensure_alloced_size`):
    refuse to grow a preallocated buffer, keep a capacity that already fits,
    and otherwise double until the request fits. */
module Growth {

  function Pow2(k: nat): (r: nat)
    ensures r >= 1
  {
    if k == 0 then 1 else 2 * Pow2(k - 1)
  }

  /** The value the doubling loop ends with when it starts from `c`. */
  function GrowthTarget(c: nat, n: nat): (r: nat)
    requires c > 0
    ensures r >= n && r >= c
    ensures c < n ==> r < 2 * n
    decreases if c < n then n - c else 0
  {
    if c >= n then c else GrowthTarget(2 * c, n)
  }

  /** Doubling `c` multiplies `c * 2^k` by two. */
  lemma DoubledTimesPow2(c: nat, k: nat)
    ensures c * Pow2(k + 1) == 2 * c * Pow2(k)
  {
    calc {
      c * Pow2(k + 1);
      c * (2 * Pow2(k));
      2 * c * Pow2(k);
    }
  }

  /** The loop's result is the start value times a power of two, `2^k`
      for the `k` returned... */
  lemma {:induction false} GrowthTargetIsPowerMultiple(c: nat, n: nat) returns (k: nat)
    requires c > 0
    ensures GrowthTarget(c, n) == c * Pow2(k)
    decreases if c < n then n - c else 0
  {
    if c >= n {
      k := 0;
    } else {
      var j := GrowthTargetIsPowerMultiple(2 * c, n);
      DoubledTimesPow2(c, j);
      k := j + 1;
    }
  }

  /** ... and no smaller power-of-two multiple of the start value fits. */
  lemma {:induction false} GrowthTargetIsLeast(c: nat, n: nat, k: nat)
    requires c > 0 && c * Pow2(k) >= n
    ensures GrowthTarget(c, n) <= c * Pow2(k)
    decreases k
  {
    if c < n {
      assert k > 0;
      DoubledTimesPow2(c, k - 1);
      GrowthTargetIsLeast(2 * c, n, k - 1);
    }
  }

  /** What `ensure_alloced_size(n)` decides for a buffer of the given
      capacity: leave it, grow it to a new capacity, or raise the fault. */
  datatype Plan = Keep | Grow(capacity: nat) | Refuse

  function CapacityAfter(p: Plan, capacity: nat): nat
  {
    if p.Grow? then p.capacity else capacity
  }

  function PlanFor(preallocated: bool, capacity: nat, n: nat): (p: Plan)
    // only a preallocated buffer refuses, exactly when the request does not fit
    ensures p.Refuse? <==> preallocated && n > capacity
    // a preallocated buffer never changes capacity, nor does one that fits
    ensures !p.Refuse? && (preallocated || capacity >= n) ==> p == Keep
    // a request that is not refused fits afterwards
    ensures !p.Refuse? ==> CapacityAfter(p, capacity) >= n
    // growth is strict and stays below twice the request
    ensures p.Grow? ==> capacity < p.capacity < 2 * n
  {
    if preallocated && n > capacity then Refuse
    else if preallocated || capacity >= n then Keep
    else Grow(GrowthTarget(if capacity == 0 then n else capacity, n))
  }

  /** Capacity after appending `k` bytes one at a time to an empty growable
      buffer: the i-th append asks for `i` bytes. */
  function CapacityAfterAppends(k: nat): nat
  {
    if k == 0 then 0
    else CapacityAfter(PlanFor(false, CapacityAfterAppends(k - 1), k), CapacityAfterAppends(k - 1))
  }

  lemma CapacityAfterOneMoreAppend(i: nat)
    ensures CapacityAfterAppends(i + 1)
            == CapacityAfter(PlanFor(false, CapacityAfterAppends(i), i + 1), CapacityAfterAppends(i))
  {
  }

  /** Number of reallocations those `k` appends perform. */
  function GrowthsAfterAppends(k: nat): nat
  {
    if k == 0 then 0
    else GrowthsAfterAppends(k - 1)
         + (if PlanFor(false, CapacityAfterAppends(k - 1), k).Grow? then 1 else 0)
  }

  /** Geometric growth: after `k >= 1` one-byte appends the capacity is a
      power of two in `[k, 2k)`, and the number of reallocations `g`
      satisfies `2^g < 4k`, i.e. it is logarithmic in `k`. */
  lemma {:induction false} AppendsGrowGeometrically(k: nat)
    requires k >= 1
    ensures GrowthsAfterAppends(k) >= 1
    ensures CapacityAfterAppends(k) == Pow2(GrowthsAfterAppends(k) - 1)
    ensures k <= CapacityAfterAppends(k) < 2 * k
    ensures Pow2(GrowthsAfterAppends(k)) < 4 * k
  {
    if k == 1 {
      assert PlanFor(false, 0, 1) == Grow(1);
    } else {
      AppendsGrowGeometrically(k - 1);
      var c := CapacityAfterAppends(k - 1);
      var g := GrowthsAfterAppends(k - 1);
      if c < k {
        assert c == k - 1;
        assert GrowthTarget(c, k) == GrowthTarget(2 * c, k) == 2 * c;
        assert PlanFor(false, c, k) == Grow(2 * c);
        assert GrowthsAfterAppends(k) == g + 1;
        assert Pow2(g) == 2 * c;
      } else {
        assert PlanFor(false, c, k) == Keep;
      }
    }
  }
}
