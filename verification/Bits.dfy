/** Bitwise operators of unsigned integers, written on their binary digits, and the powers of two they meet. */
module Bits {
  function Pow2(h: nat): (r: nat)
    ensures r >= 1
  {
    if h == 0 then 1 else 2 * Pow2(h - 1)
  }

  /** `q << h`. */
  function Shift(q: nat, h: nat): nat {
    if h == 0 then q else 2 * Shift(q, h - 1)
  }

  /** `x` ends in at least `h` zero digits: it starts a block of `Pow2(h)` numbers. */
  ghost predicate Aligned(x: nat, h: nat) {
    exists q: nat {:trigger Shift(q, h)} :: x == Shift(q, h)
  }

  function And(a: nat, b: nat): nat {
    if a == 0 || b == 0 then 0 else (a % 2) * (b % 2) + 2 * And(a / 2, b / 2)
  }

  function Or(a: nat, b: nat): nat {
    if a == 0 && b == 0 then 0 else (if a % 2 + b % 2 > 0 then 1 else 0) + 2 * Or(a / 2, b / 2)
  }

  function PopCount(a: nat): nat {
    if a == 0 then 0 else a % 2 + PopCount(a / 2)
  }

  lemma {:induction false} Pow2Monotone(h: nat, n: nat)
    requires h <= n
    ensures Pow2(h) <= Pow2(n)
  {
    if h < n {
      Pow2Monotone(h, n - 1);
    }
  }

  lemma {:induction false} Pow2StrictlyMonotone(h: nat, n: nat)
    requires h < n
    ensures Pow2(h) < Pow2(n)
  {
    Pow2Monotone(h, n - 1);
  }

  ghost predicate IsPow2(x: int) {
    exists h: nat :: x == Pow2(h)
  }

  lemma OneIsPow2()
    ensures IsPow2(1)
  {
    assert Pow2(0) == 1;
  }

  lemma HalfOfPow2(y: nat)
    requires y > 0
    ensures IsPow2(2 * y) <==> IsPow2(y)
  {
    if h: nat :| y == Pow2(h) {
      assert 2 * y == Pow2(h + 1);
    }
    if h: nat :| 2 * y == Pow2(h) {
      assert h > 0;
      assert Pow2(h) == 2 * Pow2(h - 1);
      assert y == Pow2(h - 1);
    }
  }

  /** `x & (x + 1)` is zero exactly for the numbers one below a power of two. */
  lemma {:induction false} NoCarryIffAllOnes(x: nat)
    ensures And(x, x + 1) == 0 <==> IsPow2(x + 1)
  {
    if x == 0 {
      OneIsPow2();
    } else if x % 2 == 0 {
      AndSelf(x / 2);
      assert (x + 1) / 2 == x / 2;
    } else {
      NoCarryIffAllOnes(x / 2);
      assert (x + 1) / 2 == x / 2 + 1 && x + 1 == 2 * (x / 2 + 1);
      HalfOfPow2(x / 2 + 1);
    }
  }

  /** Below `Pow2(n)`, those are the `Pow2(h) - 1` with `h <= n`. */
  lemma NoCarryIffLowRun(x: nat, n: nat)
    requires x < Pow2(n)
    ensures And(x, x + 1) == 0 <==> exists h: nat :: h <= n && x == Pow2(h) - 1
  {
    NoCarryIffAllOnes(x);
    if h: nat :| x + 1 == Pow2(h) {
      if h > n {
        Pow2StrictlyMonotone(n, h);
      }
      assert h <= n && x == Pow2(h) - 1;
    }
  }

  lemma {:induction false} AndSelf(x: nat)
    ensures And(x, x) == x
  {
    if x > 0 {
      AndSelf(x / 2);
    }
  }

  /** A run of `n - h` ones above `h` zeros has that many ones. */
  lemma {:induction false} PopCountOfMask(n: nat, h: nat)
    requires h <= n
    ensures Pow2(h) <= Pow2(n)
    ensures PopCount(Pow2(n) - Pow2(h)) == n - h
  {
    Pow2Monotone(h, n);
    if h < n {
      if h == 0 {
        PopCountOfMask(n - 1, 0);
        assert (Pow2(n) - 1) / 2 == Pow2(n - 1) - 1;
      } else {
        PopCountOfMask(n - 1, h - 1);
        assert (Pow2(n) - Pow2(h)) / 2 == Pow2(n - 1) - Pow2(h - 1);
      }
    }
  }

  /** Masking with such a run rounds down to the start of the aligned block of size `Pow2(h)`. */
  lemma {:induction false} AndMask(x: nat, n: nat, h: nat) returns (q: nat)
    requires h <= n && x < Pow2(n)
    ensures Pow2(h) <= Pow2(n)
    ensures And(x, Pow2(n) - Pow2(h)) == Shift(q, h)
    ensures Shift(q, h) <= x < Shift(q, h) + Pow2(h) <= Pow2(n)
  {
    Pow2Monotone(h, n);
    if h == n {
      q := 0;
      ShiftZero(h);
    } else if h == 0 {
      q := x;
      AndAllOnes(x, n);
    } else {
      q := AndMask(x / 2, n - 1, h - 1);
      assert (Pow2(n) - Pow2(h)) / 2 == Pow2(n - 1) - Pow2(h - 1);
      assert (Pow2(n) - Pow2(h)) % 2 == 0;
    }
  }

  lemma {:induction false} AndAllOnes(x: nat, n: nat)
    requires x < Pow2(n)
    ensures And(x, Pow2(n) - 1) == x
  {
    if n > 0 {
      AndAllOnes(x / 2, n - 1);
      assert (Pow2(n) - 1) / 2 == Pow2(n - 1) - 1;
    }
  }

  lemma {:induction false} ShiftZero(h: nat)
    ensures Shift(0, h) == 0
  {
    if h > 0 {
      ShiftZero(h - 1);
    }
  }

  /** A block start and a number below the block size have no common digit, so `|` adds them. */
  lemma {:induction false} OrIsSum(q: nat, h: nat, low: nat)
    requires low < Pow2(h)
    ensures Or(Shift(q, h), low) == Shift(q, h) + low
  {
    if h == 0 {
      OrZero(q);
    } else {
      OrIsSum(q, h - 1, low / 2);
    }
  }

  lemma {:induction false} OrZero(x: nat)
    ensures Or(x, 0) == x
  {
    if x > 0 {
      OrZero(x / 2);
    }
  }

  /** Both bounds of the block around `x`, computed with `&` and `|`. */
  lemma BlockBounds(x: nat, n: nat, h: nat)
    requires h <= n && x < Pow2(n)
    ensures Pow2(h) <= Pow2(n)
    ensures var start := And(x, Pow2(n) - Pow2(h));
            && Aligned(start, h) && start <= x < start + Pow2(h) <= Pow2(n)
            && Or(start, Pow2(h) - 1) == start + Pow2(h) - 1
  {
    var q := AndMask(x, n, h);
    OrIsSum(q, h, Pow2(h) - 1);
  }

  /** The integers from `lo` to `hi`. */
  function Interval(lo: int, hi: int): (s: set<int>)
    ensures forall x :: x in s <==> lo <= x <= hi
    ensures |s| == if lo <= hi then hi - lo + 1 else 0
    decreases hi - lo
  {
    if lo > hi then {} else Interval(lo, hi - 1) + {hi}
  }
}
