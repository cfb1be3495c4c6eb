/** Folding a value: the exclusive or of its segments, and the parity that makes each bit. */
module Folding {
  import opened Bits

  /** Some bits of the lowest segment. */
  function Digit(row: nat, seg: nat, off: nat, bits: nat): nat {
    Low(Shr(Low(row, seg), off), bits)
  }

  /** The exclusive or of those bits over all segments. */
  function Fold(row: nat, seg: nat, off: nat, bits: nat): nat
    requires seg > 0
    decreases row
  {
    if row == 0 then 0 else
      ShrShrinks(row, seg);
      Xor(Digit(row, seg, off, bits), Fold(Shr(row, seg), seg, off, bits))
  }

  lemma {:induction false} ShrShrinks(v: nat, n: nat)
    requires n > 0
    ensures v > 0 ==> Shr(v, n) < v
    ensures v == 0 ==> Shr(v, n) == 0
  {
    if n > 1 { ShrShrinks(v / 2, n - 1); }
  }

  lemma FoldNothing(seg: nat, off: nat, bits: nat)
    requires seg > 0
    ensures Fold(0, seg, off, bits) == 0
  {
  }

  lemma FoldStep(r: nat, row: nat, seg: nat, off: nat, bits: nat)
    requires seg > 0
    ensures Xor(Xor(r, Digit(row, seg, off, bits)), Fold(Shr(row, seg), seg, off, bits)) ==
      Xor(r, Fold(row, seg, off, bits))
  {
    XorAssociative(r, Digit(row, seg, off, bits), Fold(Shr(row, seg), seg, off, bits));
    if row == 0 {
      Fits(0, 0, seg);
      Fits(0, 0, off);
      Fits(0, 0, bits);
      XorZero(0);
    }
  }

  lemma {:induction false} FoldBound(row: nat, seg: nat, off: nat, bits: nat)
    requires seg > 0
    ensures Fold(row, seg, off, bits) < Pow2(bits)
    decreases row
  {
    if row > 0 {
      ShrShrinks(row, seg);
      FoldBound(Shr(row, seg), seg, off, bits);
      LowBound(Shr(Low(row, seg), off), bits);
      XorBound(Digit(row, seg, off, bits), Fold(Shr(row, seg), seg, off, bits), bits);
    }
  }

  /** The parity of the bits of `row` at positions p, p + seg, p + 2 seg, ... */
  function ParityAt(row: nat, p: nat, seg: nat): (b: nat)
    requires seg > 0
    ensures b < 2
    decreases row
  {
    if row == 0 then 0 else
      ShrShrinks(row, seg);
      (Bit(row, p) + ParityAt(Shr(row, seg), p, seg)) % 2
  }

  /** Bit `k` of a hash is the parity of the row bits in its residue class. */
  lemma {:induction false} FoldBit(row: nat, seg: nat, off: nat, bits: nat, k: nat)
    requires 0 < seg && off + bits <= seg && k < bits
    ensures Bit(Fold(row, seg, off, bits), k) == ParityAt(row, off + k, seg)
    decreases row
  {
    if row > 0 {
      ShrShrinks(row, seg);
      var d := Digit(row, seg, off, bits);
      LowBit(Shr(Low(row, seg), off), bits, k);
      ShrBit(Low(row, seg), off, k);
      LowBit(row, seg, off + k);
      XorBit(d, Fold(Shr(row, seg), seg, off, bits), k);
      FoldBit(Shr(row, seg), seg, off, bits, k);
    } else {
      Fits(0, 0, k);
    }
  }

  lemma {:induction false} ZeroBits(k: nat)
    ensures Bit(0, k) == 0
  {
    Fits(0, 0, k);
  }

  lemma ParityStep(a: nat, q: nat, seg: nat)
    requires seg > 0
    ensures ParityAt(a, q, seg) == (Bit(a, q) + ParityAt(Shr(a, seg), q, seg)) % 2
  {
    ShrShrinks(a, seg);
    ZeroBits(q);
  }

  // ---- folding whole segments ----

  /** The exclusive or of all segments of `n` bits. */
  function Folded(v: nat, n: nat): nat
    requires n > 0
  {
    Fold(v, n, 0, n)
  }

  lemma {:induction false} FoldedStep(v: nat, n: nat)
    requires n > 0
    ensures Folded(v, n) == Xor(Low(v, n), Folded(Shr(v, n), n))
  {
    FoldStep(0, v, n, 0, n);
    LowLow(v, n, n);
    ShrNothing(Low(v, n));
    XorSymmetric(0, Low(v, n));
    XorZero(Low(v, n));
    XorSymmetric(0, Folded(v, n));
    XorZero(Folded(v, n));
  }

  lemma {:induction false} FoldedXor(a: nat, b: nat, n: nat)
    requires n > 0
    ensures Folded(Xor(a, b), n) == Xor(Folded(a, n), Folded(b, n))
    decreases a + b
  {
    if a == 0 && b == 0 {
      FoldNothing(n, 0, n);
      XorZero(0);
    } else {
      ShrShrinks(a, n);
      ShrShrinks(b, n);
      FoldedXor(Shr(a, n), Shr(b, n), n);
      hide Folded, Xor, Low, Shr;
      FoldedStep(a, n);
      FoldedStep(b, n);
      FoldedStep(Xor(a, b), n);
      XorShr(a, b, n);
      XorLow(a, b, n);
      XorFour(Low(a, n), Folded(Shr(a, n), n), Low(b, n), Folded(Shr(b, n), n));
    }
  }

  /** Folding by `n` may fold the low `m` segments and the rest apart. */
  lemma {:induction false} FoldedSplit(v: nat, n: nat, m: nat)
    requires n > 0
    ensures Folded(v, n) == Xor(Folded(Low(v, m * n), n), Folded(Shr(v, m * n), n))
    decreases m
  {
    if m == 0 {
      ShrNothing(v);
      FoldNothing(n, 0, n);
      XorSymmetric(0, Folded(v, n));
      XorZero(Folded(v, n));
    } else {
      assert m * n == n + (m - 1) * n;
      assert (m - 1) * n >= 0;
      var w := Shr(v, n);
      FoldedSplit(w, n, m - 1);
      hide Folded, Xor, Low, Shr;
      ShrAdd(v, n, (m - 1) * n);
      FoldedStep(v, n);
      FoldedStep(Low(v, m * n), n);
      LowLow(v, m * n, n);
      ShrLow(v, m * n, n);
      XorAssociative(Low(v, n), Folded(Low(w, (m - 1) * n), n), Folded(Shr(v, m * n), n));
    }
  }

  /** Folding in two stages, first by a multiple of `n`, is folding by `n`. */
  lemma {:induction false} FoldedTwice(v: nat, n: nat, m: nat)
    requires n > 0 && m > 0 && m * n > 0
    ensures Folded(Folded(v, m * n), n) == Folded(v, n)
    decreases v
  {
    if v == 0 {
      FoldNothing(m * n, 0, m * n);
      FoldNothing(n, 0, n);
    } else {
      ShrShrinks(v, m * n);
      FoldedTwice(Shr(v, m * n), n, m);
      hide Folded, Xor, Low, Shr;
      FoldedStep(v, m * n);
      FoldedXor(Low(v, m * n), Folded(Shr(v, m * n), m * n), n);
      FoldedSplit(v, n, m);
    }
  }

  /** Bit `k` of a fold is the parity of the bits in its residue class. */
  lemma FoldedBit(v: nat, n: nat, k: nat)
    requires k < n
    ensures Bit(Folded(v, n), k) == ParityAt(v, k, n)
  {
    FoldBit(v, n, 0, n, k);
  }
}
