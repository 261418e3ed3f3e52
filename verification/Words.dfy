/** 64-bit machine words as bounded naturals, and the bit tricks the containers use on them. */
module Words {

  const WORD: nat := 0x1_0000_0000_0000_0000
  const HALF: nat := 0x8000_0000_0000_0000

  function Pow2(k: nat): (r: nat)
    ensures r > 0
  {
    if k == 0 then 1 else 2 * Pow2(k - 1)
  }

  ghost predicate IsPow2(c: nat) {
    exists k: nat :: Pow2(k) == c
  }

  /** The bitwise `a & b`. */
  function BitAnd(a: nat, b: nat): (r: nat)
    ensures r <= a && r <= b
  {
    if a == 0 || b == 0 then 0
    else 2 * BitAnd(a / 2, b / 2) + (if a % 2 == 1 && b % 2 == 1 then 1 else 0)
  }

  /** `static_cast<intptr_t>(w)` for a word `w`. */
  function Signed(w: nat): (i: int)
  {
    if w < HALF then w else w - WORD
  }

  lemma {:induction false} BitAndSelf(a: nat)
    ensures BitAnd(a, a) == a
  {
    if a == 0 {
    } else {
      BitAndSelf(a / 2);
    }
  }

  lemma {:induction false} AndOfEven(d: nat)
    requires d > 0
    ensures BitAnd(2 * d, 2 * d - 1) == 2 * BitAnd(d, d - 1)
  {
    assert (2 * d) / 2 == d && (2 * d - 1) / 2 == d - 1 && (2 * d) % 2 == 0;
  }

  lemma {:induction false} AndOfOdd(d: nat)
    requires d > 0
    ensures BitAnd(2 * d + 1, 2 * d) == 2 * d
  {
    assert (2 * d + 1) / 2 == d && (2 * d) / 2 == d && (2 * d) % 2 == 0;
    BitAndSelf(d);
  }

  lemma OddIsNotPow2(d: nat)
    requires d > 0
    ensures !IsPow2(2 * d + 1)
  {
    forall k: nat ensures Pow2(k) != 2 * d + 1 {
      if k > 0 {
        assert Pow2(k) == 2 * Pow2(k - 1);
      }
    }
  }

  lemma EvenIsPow2(d: nat)
    requires d > 0
    ensures IsPow2(2 * d) <==> IsPow2(d)
  {
    if IsPow2(d) {
      var k: nat :| Pow2(k) == d;
      assert Pow2(k + 1) == 2 * d;
    }
    if IsPow2(2 * d) {
      var k: nat :| Pow2(k) == 2 * d;
      assert Pow2(k - 1) == d;
    }
  }

  /** The containers' static assertion `(c & (c - 1)) == 0 && c > 0` accepts exactly the powers of two. */
  lemma {:induction false} PowerOfTwoTest(c: nat)
    requires c > 0
    ensures BitAnd(c, c - 1) == 0 <==> IsPow2(c)
  {
    var d := c / 2;
    if c == 1 {
      assert Pow2(0) == 1;
    } else if c % 2 == 0 {
      assert c == 2 * d;
      AndOfEven(d);
      PowerOfTwoTest(d);
      EvenIsPow2(d);
    } else {
      assert c == 2 * d + 1;
      AndOfOdd(d);
      OddIsNotPow2(d);
    }
  }
}
