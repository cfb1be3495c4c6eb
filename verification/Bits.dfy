/** Unsigned integers as bits: shifts, masks and exclusive or (inc/msl/bits.h and the
    operators the address slices are built from). */
module Bits {
  function Pow2(n: nat): (p: nat)
    ensures p > 0
  {
    if n == 0 then 1 else 2 * Pow2(n - 1)
  }

  /** v >> n */
  function Shr(v: nat, n: nat): nat {
    if n == 0 then v else Shr(v / 2, n - 1)
  }

  /** v << n */
  function Shl(v: nat, n: nat): nat {
    if n == 0 then v else 2 * Shl(v, n - 1)
  }

  /** v & ((1 << n) - 1) */
  function Low(v: nat, n: nat): nat {
    if n == 0 then 0 else v % 2 + 2 * Low(v / 2, n - 1)
  }

  /** a ^ b */
  function Xor(a: nat, b: nat): nat
    decreases a + b
  {
    if a == 0 && b == 0 then 0 else (a % 2 + b % 2) % 2 + 2 * Xor(a / 2, b / 2)
  }

  function Bit(v: nat, k: nat): (b: nat)
    ensures b < 2
  {
    Shr(v, k) % 2
  }

  // ---- shifts and masks ----

  lemma {:induction false} ShrAdd(v: nat, m: nat, n: nat)
    ensures Shr(Shr(v, m), n) == Shr(v, m + n)
    decreases m
  {
    if m > 0 { ShrAdd(v / 2, m - 1, n); }
  }

  lemma {:induction false} LowBound(v: nat, n: nat)
    ensures Low(v, n) < Pow2(n)
  {
    if n > 0 { LowBound(v / 2, n - 1); }
  }

  /** A value that fits is its own low part, and shifts out to nothing. */
  lemma {:induction false} Fits(v: nat, n: nat, m: nat)
    requires v < Pow2(n) && n <= m
    ensures Low(v, m) == v && Shr(v, m) == 0
    decreases m
  {
    if n > 0 {
      Fits(v / 2, n - 1, m - 1);
    } else if m > 0 {
      Fits(0, 0, m - 1);
    }
  }

  lemma {:induction false} Pow2Grows(n: nat, m: nat)
    requires n <= m
    ensures Pow2(n) <= Pow2(m)
    decreases m
  {
    if n < m { Pow2Grows(n, m - 1); }
  }

  lemma {:induction false} ShrBound(v: nat, n: nat, m: nat)
    requires v < Pow2(n) && m <= n
    ensures Shr(v, m) < Pow2(n - m)
    decreases m
  {
    if m > 0 { ShrBound(v / 2, n - 1, m - 1); }
  }

  lemma {:induction false} LowLow(v: nat, m: nat, n: nat)
    ensures Low(Low(v, m), n) == Low(v, if m < n then m else n)
    decreases n
  {
    if m > 0 && n > 0 {
      assert Low(v, m) / 2 == Low(v / 2, m - 1);
      LowLow(v / 2, m - 1, n - 1);
    } else if n > 0 {
      LowLow(0, 0, n - 1);
    }
  }

  lemma {:induction false} ShrLow(v: nat, m: nat, n: nat)
    requires n <= m
    ensures Shr(Low(v, m), n) == Low(Shr(v, n), m - n)
    decreases n
  {
    if n > 0 {
      assert Low(v, m) / 2 == Low(v / 2, m - 1);
      ShrLow(v / 2, m - 1, n - 1);
    }
  }

  lemma {:induction false} ShrShl(v: nat, m: nat, n: nat)
    ensures Shr(Shl(v, m), m + n) == Shr(v, n)
    decreases m
  {
    if m > 0 {
      assert Shl(v, m) / 2 == Shl(v, m - 1);
      ShrShl(v, m - 1, n);
    }
  }

  lemma {:induction false} ShlShl(v: nat, m: nat, n: nat)
    ensures Shl(Shl(v, m), n) == Shl(v, m + n)
  {
    if n > 0 { ShlShl(v, m, n - 1); }
  }

  lemma {:induction false} Split(v: nat, n: nat)
    ensures v == Low(v, n) + Shl(Shr(v, n), n)
  {
    if n > 0 { Split(v / 2, n - 1); }
  }

  lemma {:induction false} Join(lo: nat, hi: nat, n: nat)
    requires lo < Pow2(n)
    ensures Low(lo + Shl(hi, n), n) == lo && Shr(lo + Shl(hi, n), n) == hi
  {
    if n > 0 {
      assert (lo + Shl(hi, n)) / 2 == lo / 2 + Shl(hi, n - 1) && (lo + Shl(hi, n)) % 2 == lo % 2;
      Join(lo / 2, hi, n - 1);
    }
  }

  lemma {:induction false} JoinBound(lo: nat, hi: nat, n: nat, m: nat)
    requires lo < Pow2(n) && hi < Pow2(m)
    ensures lo + Shl(hi, n) < Pow2(n + m)
    decreases n
  {
    if n > 0 { JoinBound(lo / 2, hi, n - 1, m); }
  }

  lemma TwiceProduct(q: nat, p: nat)
    ensures q * (2 * p) == 2 * (q * p)
  {
  }

  /** The shift and the mask are division and remainder by a power of two. */
  lemma {:induction false} ShiftIsDivision(v: nat, n: nat)
    ensures v == Shr(v, n) * Pow2(n) + Low(v, n) && Low(v, n) < Pow2(n)
  {
    if n > 0 {
      ShiftIsDivision(v / 2, n - 1);
      TwiceProduct(Shr(v, n), Pow2(n - 1));
    }
  }

  // ---- exclusive or ----

  lemma XorStep(a: nat, b: nat)
    ensures Xor(a, b) % 2 == (a % 2 + b % 2) % 2 && Xor(a, b) / 2 == Xor(a / 2, b / 2)
  {
    if a > 0 || b > 0 {
      var d, x: nat := (a % 2 + b % 2) % 2, Xor(a / 2, b / 2);
      assert Xor(a, b) == d + 2 * x;
      hide Xor;
    }
  }

  lemma {:induction false} XorZero(a: nat)
    ensures Xor(a, 0) == a
  {
    if a > 0 { XorZero(a / 2); }
  }

  lemma {:induction false} XorSymmetric(a: nat, b: nat)
    ensures Xor(a, b) == Xor(b, a)
    decreases a + b
  {
    if a > 0 || b > 0 { XorSymmetric(a / 2, b / 2); }
  }

  lemma {:induction false} XorSelf(a: nat)
    ensures Xor(a, a) == 0
  {
    if a > 0 { XorSelf(a / 2); }
  }

  lemma Parity(x: nat, y: nat, z: nat)
    requires x < 2 && y < 2 && z < 2
    ensures ((x + y) % 2 + z) % 2 == (x + (y + z) % 2) % 2
  {
  }

  lemma {:induction false} XorBound(a: nat, b: nat, n: nat)
    requires a < Pow2(n) && b < Pow2(n)
    ensures Xor(a, b) < Pow2(n)
  {
    if n > 0 {
      XorStep(a, b);
      XorBound(a / 2, b / 2, n - 1);
    }
  }

  lemma {:induction false} XorBit(a: nat, b: nat, k: nat)
    ensures Bit(Xor(a, b), k) == (Bit(a, k) + Bit(b, k)) % 2
    decreases k
  {
    XorStep(a, b);
    if k > 0 { XorBit(a / 2, b / 2, k - 1); }
  }

  lemma {:induction false} LowBit(v: nat, n: nat, k: nat)
    ensures Bit(Low(v, n), k) == if k < n then Bit(v, k) else 0
    decreases k
  {
    if n > 0 {
      assert Low(v, n) / 2 == Low(v / 2, n - 1) && Low(v, n) % 2 == v % 2;
      if k > 0 { LowBit(v / 2, n - 1, k - 1); }
    } else {
      Fits(0, 0, k);
    }
  }

  lemma {:induction false} ShrBit(v: nat, n: nat, k: nat)
    ensures Bit(Shr(v, n), k) == Bit(v, n + k)
  {
    ShrAdd(v, n, k);
  }

  /** Values with the same bits are equal. */
  lemma {:induction false} SameBits(a: nat, b: nat)
    requires forall k: nat :: Bit(a, k) == Bit(b, k)
    ensures a == b
    decreases a + b
  {
    if a > 0 || b > 0 {
      forall k: nat ensures Bit(a / 2, k) == Bit(b / 2, k) {
        assert Bit(a, k + 1) == Bit(b, k + 1);
      }
      SameBits(a / 2, b / 2);
      assert Bit(a, 0) == Bit(b, 0);
    }
  }

  lemma {:induction false} XorAssociative(a: nat, b: nat, c: nat)
    ensures Xor(Xor(a, b), c) == Xor(a, Xor(b, c))
  {
    hide Xor, Bit;
    var l, r := Xor(Xor(a, b), c), Xor(a, Xor(b, c));
    forall k: nat ensures Bit(l, k) == Bit(r, k) {
      XorBit(a, b, k);
      XorBit(Xor(a, b), c, k);
      XorBit(b, c, k);
      XorBit(a, Xor(b, c), k);
      Parity(Bit(a, k), Bit(b, k), Bit(c, k));
    }
    SameBits(l, r);
  }

  lemma XorTwice(a: nat, b: nat)
    ensures Xor(Xor(a, b), b) == a
  {
    XorAssociative(a, b, b);
    XorSelf(b);
    XorZero(a);
  }

  lemma XorFour(a: nat, b: nat, c: nat, d: nat)
    ensures Xor(Xor(a, c), Xor(b, d)) == Xor(Xor(a, b), Xor(c, d))
  {
    hide Xor;
    XorAssociative(a, c, Xor(b, d));
    XorAssociative(c, b, d);
    XorSymmetric(c, b);
    XorAssociative(b, c, d);
    XorAssociative(a, b, Xor(c, d));
  }

  lemma {:induction false} XorShr(a: nat, b: nat, n: nat)
    ensures Shr(Xor(a, b), n) == Xor(Shr(a, n), Shr(b, n))
    decreases n
  {
    if n > 0 {
      XorStep(a, b);
      XorShr(a / 2, b / 2, n - 1);
    }
  }

  lemma {:induction false} XorLow(a: nat, b: nat, n: nat)
    ensures Low(Xor(a, b), n) == Xor(Low(a, n), Low(b, n))
  {
    hide Xor, Bit, Low;
    var l, r := Low(Xor(a, b), n), Xor(Low(a, n), Low(b, n));
    forall k: nat ensures Bit(l, k) == Bit(r, k) {
      LowBit(Xor(a, b), n, k);
      XorBit(a, b, k);
      LowBit(a, n, k);
      LowBit(b, n, k);
      XorBit(Low(a, n), Low(b, n), k);
    }
    SameBits(l, r);
  }

  lemma ShrNothing(v: nat)
    ensures Shr(v, 0) == v
  {
  }

  // ---- lg2 ----

  /** The loop of champsim::msl::lg2. */
  method Lg2(v: nat) returns (r: nat)
    ensures v == 0 ==> r == 0
    ensures v > 0 ==> Pow2(r) <= v < Pow2(r + 1)
  {
    var n := v;
    r := 0;
    while n / 2 > 0
      invariant Shr(v, r) == n && (v > 0 ==> n > 0) && (v == 0 ==> n == 0 && r == 0)
      decreases n
    {
      ShrAdd(v, r, 1);
      n := n / 2;
      r := r + 1;
    }
    ShiftIsDivision(v, r);
  }
}
