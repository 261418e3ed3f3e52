/** The cell of a ring buffer that an unbounded position falls on. */
module Ring {
  import opened Words

  /** `p` modulo `c`, by repeated subtraction so that proofs stay linear. */
  function Slot(p: nat, c: nat): (i: nat)
    requires c > 0
    ensures i < c
    decreases p
  {
    if p < c then p else Slot(p - c, c)
  }

  /** Positions less than a lap apart fall on different cells. */
  lemma {:induction false} SlotDistinct(p: nat, q: nat, c: nat)
    requires c > 0 && p < q < p + c
    ensures Slot(p, c) != Slot(q, c)
    decreases p
  {
    if p < c {
    } else {
      SlotDistinct(p - c, q - c, c);
    }
  }

  /** `Slot` is the remainder: the one number below `c` that differs from `p` by whole laps. */
  lemma {:induction false} SlotIsRemainder(p: nat, c: nat)
    requires c > 0
    ensures exists laps: nat :: p == laps * c + Slot(p, c)
    decreases p
  {
    if p < c {
      assert p == 0 * c + Slot(p, c);
    } else {
      SlotIsRemainder(p - c, c);
      var laps: nat :| p - c == laps * c + Slot(p - c, c);
      assert p == (laps + 1) * c + Slot(p, c);
    }
  }

  lemma {:induction false} SlotHalves(p: nat, n: nat)
    requires n > 0
    ensures Slot(p, 2 * n) == 2 * Slot(p / 2, n) + p % 2
    decreases p
  {
    if p < 2 * n {
    } else {
      SlotHalves(p - 2 * n, n);
      assert (p - 2 * n) / 2 == p / 2 - n;
    }
  }

  lemma MaskStep(p: nat, n: nat)
    requires n > 0
    ensures BitAnd(p, 2 * n - 1) == 2 * BitAnd(p / 2, n - 1) + p % 2
  {
    assert (2 * n - 1) / 2 == n - 1 && (2 * n - 1) % 2 == 1;
  }

  lemma MaskDouble(p: nat, n: nat)
    requires n > 0 && BitAnd(p / 2, n - 1) == Slot(p / 2, n)
    ensures BitAnd(p, 2 * n - 1) == Slot(p, 2 * n)
  {
    SlotHalves(p, n);
    MaskStep(p, n);
  }

  /** Masking with 2^k - 1 is the remainder modulo 2^k. */
  lemma {:induction false} MaskOfPow2(p: nat, k: nat)
    ensures BitAnd(p, Pow2(k) - 1) == Slot(p, Pow2(k))
    decreases k
  {
    if k == 0 {
      MaskOfOne(p);
    } else {
      MaskOfPow2(p / 2, k - 1);
      MaskDouble(p, Pow2(k - 1));
    }
  }

  lemma {:induction false} MaskOfOne(p: nat)
    ensures BitAnd(p, 0) == 0 == Slot(p, 1)
    decreases p
  {
    if p == 0 {
    } else {
      MaskOfOne(p - 1);
    }
  }

  /** For every capacity the containers accept, their mask picks the same cell as the remainder. */
  lemma SlotIsMask(p: nat, c: nat)
    requires c > 0 && BitAnd(c, c - 1) == 0
    ensures Slot(p, c) == BitAnd(p, c - 1)
  {
    PowerOfTwoTest(c);
    var k: nat :| Pow2(k) == c;
    MaskOfPow2(p, k);
  }
}
