/** Facts about multiplication and division the buckets and codecs rely on. */
module Arithmetic {
  function Min(x: nat, y: nat): nat { if x <= y then x else y }

  /** `saturating_sub` */
  function SatSub(x: nat, y: nat): nat { if x <= y then 0 else x - y }

  lemma DivBounds(x: nat, p: nat)
    requires p >= 1
    ensures x / p * p <= x < x / p * p + p
  {
  }

  lemma MulStep(x: nat, y: nat, p: nat)
    ensures x < y ==> (x + 1) * p <= y * p
  {
    if x < y {
      assert (y - (x + 1)) * p >= 0;
    }
  }

  lemma Distribute(x: int, y: int, p: int)
    ensures (x + y) * p == x * p + y * p
  {
  }

  lemma DivUnique(x: nat, p: nat, q: nat)
    requires p >= 1 && q * p <= x < q * p + p
    ensures x / p == q
  {
    DivBounds(x, p);
    MulStep(x / p, q, p);
    MulStep(q, x / p, p);
  }

  /** `q * p <= x` says that `q` whole periods fit. */
  lemma DivAtLeast(x: nat, p: nat, q: nat)
    requires p >= 1 && q * p <= x
    ensures q <= x / p
  {
    DivBounds(x, p);
    MulStep(x / p, q, p);
  }

  lemma DivMonotone(x: nat, y: nat, p: nat)
    requires p >= 1 && x <= y
    ensures x / p <= y / p
  {
    DivBounds(x, p);
    DivAtLeast(y, p, x / p);
  }

  lemma DivShift(x: nat, p: nat, q: nat)
    requires p >= 1 && q * p <= x
    ensures (x - q * p) / p == x / p - q
  {
    DivBounds(x, p);
    DivAtLeast(x, p, q);
    assert (x / p - q) * p == x / p * p - q * p;
    DivUnique(x - q * p, p, x / p - q);
  }

  /** From a balance in units of time to a count. */
  lemma CountFromWorth(f: nat, free: nat, t: nat, p: nat)
    requires p >= 1 && f * p <= free * p + t
    ensures f <= free + t / p
  {
    if f > free {
      Distribute(f - free, free, p);
      DivAtLeast(t, p, f - free);
    }
  }
}
