/** The folded branch history (branch/hashed_perceptron/folded_shift_register.h). */
module FoldedHistory {
  import opened Bits
  import opened Folding

  /** The newest `length` bits of a history, newest in the lowest bit. */
  function Recent(history: seq<nat>, length: nat): nat
    decreases length
  {
    if length == 0 || history == [] then 0 else history[0] % 2 + 2 * Recent(history[1..], length - 1)
  }

  /** The number that a vector of values of `n` bits packs, first value lowest. */
  function Packed(words: seq<nat>, n: nat): nat {
    if words == [] then 0 else words[0] + Shl(Packed(words[1..], n), n)
  }

  /** The bits of `k` values. */
  function Width(k: nat, n: nat): nat {
    if k == 0 then 0 else n + Width(k - 1, n)
  }

  lemma {:induction false} WidthIsProduct(k: nat, n: nat)
    ensures Width(k, n) == k * n
  {
    if k > 0 { WidthIsProduct(k - 1, n); }
  }

  ghost predicate AllBelow(words: seq<nat>, n: nat) {
    forall i :: 0 <= i < |words| ==> words[i] < Pow2(n)
  }

  /** Bit `k` of the packed history is its `k`-th newest bit. */
  lemma {:induction false} RecentBit(history: seq<nat>, length: nat, k: nat)
    ensures Bit(Recent(history, length), k) == if k < length && k < |history| then history[k] % 2 else 0
    decreases length
  {
    if length > 0 && history != [] {
      if k > 0 { RecentBit(history[1..], length - 1, k - 1); }
    } else {
      Fits(0, 0, k);
    }
  }

  lemma {:induction false} RecentLow(history: seq<nat>, length: nat)
    requires length > 0
    ensures Recent(history, length - 1) == Low(Recent(history, length), length - 1)
    decreases length
  {
    if history == [] {
      Fits(0, 0, length - 1);
    } else if length > 1 {
      RecentLow(history[1..], length - 1);
    }
  }

  /** Pushing a bit shifts the packed history and drops its oldest bit. */
  lemma {:induction false} RecentPush(history: seq<nat>, length: nat, ins: nat)
    requires ins < 2
    ensures Recent([ins] + history, length) == Low(2 * Recent(history, length) + ins, length)
  {
    if length > 0 {
      RecentLow(history, length);
      assert ([ins] + history)[1..] == history;
    }
  }

  // ---- shifting packed words ----

  /** One value after a shift, taking the carry from the value below. */
  function Shifted(w: nat, carry: nat, n: nat): nat {
    Low(2 * w + carry, n)
  }

  function Msb(w: nat, n: nat): nat
    requires n > 0
  {
    Shr(w, n - 1)
  }

  function ShiftWords(words: seq<nat>, carry: nat, n: nat): (r: seq<nat>)
    requires n > 0
    ensures |r| == |words|
  {
    if words == [] then [] else [Shifted(words[0], carry, n)] + ShiftWords(words[1..], Msb(words[0], n), n)
  }

  lemma {:induction false} ShiftWordsAt(words: seq<nat>, carry: nat, n: nat, i: nat)
    requires n > 0 && i < |words|
    ensures ShiftWords(words, carry, n)[i] == Shifted(words[i], if i == 0 then carry else Msb(words[i - 1], n), n)
  {
    if i > 0 { ShiftWordsAt(words[1..], Msb(words[0], n), n, i - 1); }
  }

  lemma {:induction false} ShiftCarry(w: nat, carry: nat, n: nat)
    requires n > 0 && carry < 2 && w < Pow2(n)
    ensures 2 * w + carry == Shifted(w, carry, n) + Shl(Msb(w, n), n)
    ensures Shifted(w, carry, n) < Pow2(n) && Msb(w, n) < 2
    decreases n
  {
    Split(w, n - 1);
    LowBound(2 * w + carry, n);
    ShrBound(w, n, n - 1);
    assert (2 * w + carry) / 2 == w;
  }

  lemma {:induction false} ShlAdd(a: nat, b: nat, n: nat)
    ensures Shl(a + b, n) == Shl(a, n) + Shl(b, n) && Shl(2 * a, n) == 2 * Shl(a, n)
  {
    if n > 0 { ShlAdd(a, b, n - 1); }
  }

  /** The multi-word shift with carried bits is one shift of the packed history, except for
      the bit carried out of the last word. */
  lemma {:induction false} ShiftPacked(words: seq<nat>, carry: nat, n: nat) returns (out: nat)
    requires n > 0 && carry < 2 && AllBelow(words, n)
    ensures AllBelow(ShiftWords(words, carry, n), n) && out < 2
    ensures 2 * Packed(words, n) + carry == Packed(ShiftWords(words, carry, n), n) + Shl(out, Width(|words|, n))
    decreases |words|
  {
    if words == [] {
      out := carry;
    } else {
      var rest, m := words[1..], Msb(words[0], n);
      ShiftCarry(words[0], carry, n);
      out := ShiftPacked(rest, m, n);
      ShiftPackedStep(words[0], Packed(rest, n), Packed(ShiftWords(rest, m, n), n), carry, m, out, n, Width(|rest|, n));
    }
  }

  lemma {:induction false} ShiftPackedStep(w: nat, p: nat, q: nat, carry: nat, m: nat, out: nat, n: nat, width: nat)
    requires 2 * w + carry == Shifted(w, carry, n) + Shl(m, n)
    requires 2 * p + m == q + Shl(out, width)
    ensures 2 * (w + Shl(p, n)) + carry == Shifted(w, carry, n) + Shl(q, n) + Shl(out, n + width)
  {
    ShlAdd(p, p, n);
    ShlAdd(2 * p, m, n);
    ShlAdd(q, Shl(out, width), n);
    ShlShl(out, width, n);
  }

  lemma {:induction false} PackedBound(words: seq<nat>, n: nat)
    requires AllBelow(words, n)
    ensures Packed(words, n) < Pow2(Width(|words|, n))
  {
    if words != [] {
      PackedBound(words[1..], n);
      JoinBound(words[0], Packed(words[1..], n), n, Width(|words| - 1, n));
    }
  }

  /** Masking the last value masks the packed history. */
  lemma {:induction false} MaskLast(words: seq<nat>, n: nat, m: nat)
    requires words != [] && AllBelow(words, n) && m <= n
    ensures var k := |words| - 1; Packed(words[k := Low(words[k], m)], n) == Low(Packed(words, n), Width(k, n) + m)
    decreases |words|
  {
    var k := |words| - 1;
    var masked := words[k := Low(words[k], m)];
    if k > 0 {
      var rest := words[1..];
      MaskLast(rest, n, m);
      assert masked[1..] == rest[k - 1 := Low(rest[k - 1], m)];
      LowJoin(words[0], Packed(rest, n), n, Width(k - 1, n) + m);
    } else {
      ShlZero(n);
      assert words[1..] == [] && masked[1..] == [];
    }
  }

  lemma {:induction false} ShlZero(n: nat)
    ensures Shl(0, n) == 0
  {
    if n > 0 { ShlZero(n - 1); }
  }

  lemma {:induction false} LowJoin(lo: nat, hi: nat, n: nat, m: nat)
    requires lo < Pow2(n)
    ensures Low(lo + Shl(hi, n), n + m) == lo + Shl(Low(hi, m), n)
    decreases n
  {
    if n > 0 {
      assert (lo + Shl(hi, n)) / 2 == lo / 2 + Shl(hi, n - 1) && (lo + Shl(hi, n)) % 2 == lo % 2;
      LowJoin(lo / 2, hi, n - 1, m);
    }
  }

  lemma LowOverflow(v: nat, out: nat, n: nat)
    requires v < Pow2(n)
    ensures Low(v + Shl(out, n), n) == v
  {
    Join(v, out, n);
  }

  // ---- folding packed words ----

  function XorAll(words: seq<nat>): nat {
    if words == [] then 0 else Xor(words[0], XorAll(words[1..]))
  }

  /** The exclusive or of all values folds the packed history by the value length. */
  lemma {:induction false} XorAllFolds(words: seq<nat>, n: nat)
    requires n > 0 && AllBelow(words, n)
    ensures XorAll(words) == Folded(Packed(words, n), n)
  {
    if words == [] {
      FoldNothing(n, 0, n);
    } else {
      XorAllFolds(words[1..], n);
      Join(words[0], Packed(words[1..], n), n);
      FoldedStep(Packed(words, n), n);
    }
  }

  /** A whole number of words makes the value length. */
  lemma {:induction false} ShiftTimes(v: nat, w: nat, k: nat)
    requires w > 0
    ensures Shr(Shr(v, Width(k, w)), w) == Shr(v, Width(k + 1, w))
  {
    ShrAdd(v, Width(k, w), w);
  }

  class FoldedShiftRegister {
    /** The word length, how many words a value packs, and the length of the history. */
    const wordLen: nat
    const wordsPerValue: nat
    const length: nat
    const words: array<nat>
    ghost var history: seq<nat>

    function ValueLen(): nat { Width(wordsPerValue, wordLen) }

    /** How many bits of the last value are used; 0 when it is used in full. */
    const lastBits: nat

    ghost predicate Shaped() {
      && wordLen > 0 && wordsPerValue > 0 && ValueLen() > 0 && lastBits < ValueLen()
      && (lastBits > 0 ==> words.Length > 0)
      && length == (if lastBits == 0 then Width(words.Length, ValueLen())
        else Width(words.Length - 1, ValueLen()) + lastBits)
    }

    /** The words pack exactly the newest bits of everything ever pushed. */
    ghost predicate Valid()
      reads this, words
    {
      Shaped() && AllBelow(words[..], ValueLen()) && Packed(words[..], ValueLen()) == Recent(history, length)
    }

    constructor (wordLen: nat, length: nat)
      requires 0 < wordLen <= 64
      ensures Valid() && this.wordLen == wordLen && this.length == length && history == []
      ensures fresh(words)
    {
      PerValue(wordLen);
      var perValue := 64 / wordLen;
      var valueLen := Width(perValue, wordLen);
      WholeAndRest(length, valueLen);
      var count := length / valueLen;
      this.wordLen := wordLen;
      wordsPerValue := perValue;
      this.length := length;
      lastBits := length % valueLen;
      words := new nat[count + (if length % valueLen != 0 then 1 else 0)](_ => 0);
      history := [];
      new;
      Zeros(words[..], ValueLen());
    }

    /** The two passes of push_back: the carries are taken before any word changes. */
    method ShiftIn(bit: nat)
      requires Shaped()
      modifies words
      ensures words[..] == ShiftWords(old(words[..]), bit, ValueLen())
    {
      ghost var before, n := words[..], ValueLen();
      hide Shifted, Msb, Width;
      var msbs: seq<nat> := [bit];
      for i := 0 to words.Length
        invariant |msbs| == i + 1 && words[..] == before
        invariant forall k :: 0 <= k <= i ==> msbs[k] == if k == 0 then bit else Msb(before[k - 1], n)
      {
        msbs := msbs + [Msb(words[i], ValueLen())];
      }
      for i := 0 to words.Length
        invariant forall k :: 0 <= k < words.Length ==>
          words[k] == if k < i then Shifted(before[k], msbs[k], n) else before[k]
      {
        words[i] := Shifted(words[i], msbs[i], ValueLen());
      }
      forall i | 0 <= i < words.Length ensures words[i] == ShiftWords(before, bit, n)[i] {
        ShiftWordsAt(before, bit, n, i);
      }
    }

    /** push_back. */
    method PushBack(ins: bool)
      requires Valid()
      modifies this`history, words
      ensures Valid() && history == [if ins then 1 else 0] + old(history)
    {
      hide Low, Pow2, Shl, Width, ShiftWords, Recent, Packed, AllBelow;
      var bit: nat := if ins then 1 else 0;
      ghost var before := words[..];
      ShiftIn(bit);
      if lastBits != 0 {
        words[words.Length - 1] := Low(words[words.Length - 1], lastBits);
      }
      history := [bit] + history;
      PushPacks(before, bit, ValueLen(), lastBits, words[..]);
      RecentPush(old(history), length, bit);
    }

    /** The fold of the newest `length` bits in chunks of the word length. */
    method Value() returns (v: nat)
      requires Valid()
      ensures forall j :: 0 <= j < wordLen ==> Bit(v, j) == HistoryParity(history, length, j, wordLen)
      ensures v < Pow2(wordLen)
    {
      var joined: nat := 0;
      XorZero(XorAll(words[..]));
      XorSymmetric(0, XorAll(words[..]));
      assert words[0..] == words[..];
      for i := 0 to words.Length
        invariant Xor(joined, XorAll(words[i..])) == XorAll(words[..])
      {
        assert words[i..][1..] == words[i + 1..];
        XorAssociative(joined, words[i], XorAll(words[i + 1..]));
        joined := Xor(joined, words[i]);
      }
      assert words[words.Length..] == [];
      XorZero(joined);
      ghost var n := ValueLen();
      XorAllFolds(words[..], n);
      FoldBound(Packed(words[..], n), n, 0, n);
      v := FoldWords(joined);
      ghost var p := Packed(words[..], n);
      WidthIsProduct(wordsPerValue, wordLen);
      FoldedTwice(p, wordLen, wordsPerValue);
      FoldBound(p, wordLen, 0, wordLen);
      forall j | 0 <= j < wordLen ensures Bit(v, j) == HistoryParity(history, length, j, wordLen) {
        FoldedBit(p, wordLen, j);
        ParityOfHistory(history, length, j, wordLen);
      }
    }

    /** The shifting loop, which runs once more than there are words in a value. */
    method FoldWords(joined: nat) returns (v: nat)
      requires Shaped() && joined < Pow2(ValueLen())
      ensures v == Folded(joined, wordLen)
    {
      var w := wordLen;
      var result, rest := joined, joined;
      FoldedStep(joined, w);
      ShrNothing(joined);
      if wordsPerValue > 1 {
        for i := 0 to wordsPerValue + 1
          invariant rest == Shr(joined, Width(i, w))
          invariant Xor(Low(result, w), Folded(Shr(rest, w), w)) == Folded(joined, w)
        {
          ShiftTimes(joined, w, i);
          FoldWordsStep(result, Shr(rest, w), w);
          rest := Shr(rest, w);
          result := Xor(result, rest);
        }
        assert Shr(rest, w) == 0 by {
          ShiftTimes(joined, w, wordsPerValue + 1);
          Fits(joined, ValueLen(), Width(wordsPerValue + 2, w));
        }
      } else {
        assert Width(0, w) == 0;
        Fits(joined, ValueLen(), w);
      }
      FoldNothing(w, 0, w);
      XorZero(Low(result, w));
      v := Low(result, w);
    }
  }

  lemma FoldWordsStep(result: nat, rest: nat, w: nat)
    requires w > 0
    ensures Xor(Low(Xor(result, rest), w), Folded(Shr(rest, w), w)) == Xor(Low(result, w), Folded(rest, w))
  {
    hide Xor, Low, Folded, Shr;
    XorLow(result, rest, w);
    FoldedStep(rest, w);
    XorAssociative(Low(result, w), Low(rest, w), Folded(Shr(rest, w), w));
  }

  lemma PerValue(w: nat)
    requires 0 < w <= 64
    ensures 64 / w > 0 && Width(64 / w, w) > 0
  {
    assert 64 == (64 / w) * w + 64 % w;
  }

  lemma WholeAndRest(length: nat, n: nat)
    requires n > 0
    ensures length == Width(length / n, n) + length % n && length % n < n
  {
    WidthIsProduct(length / n, n);
  }

  lemma {:induction false} Zeros(words: seq<nat>, n: nat)
    requires forall i :: 0 <= i < |words| ==> words[i] == 0
    ensures Packed(words, n) == 0
  {
    if words != [] {
      Zeros(words[1..], n);
      ShlZero(n);
    }
  }

  /** The shift, the carries and the final mask together are one push on the packed history. */
  lemma {:induction false} PushPacks(before: seq<nat>, bit: nat, n: nat, last: nat, after: seq<nat>)
    requires n > 0 && bit < 2 && AllBelow(before, n) && last < n && (last > 0 ==> before != [])
    requires var s := ShiftWords(before, bit, n);
      after == if last == 0 then s else s[|s| - 1 := Low(s[|s| - 1], last)]
    ensures AllBelow(after, n)
    ensures Packed(after, n) == Low(2 * Packed(before, n) + bit, if last == 0 then Width(|before|, n)
      else Width(|before| - 1, n) + last)
  {
    var s, k := ShiftWords(before, bit, n), |before|;
    var out := ShiftPacked(before, bit, n);
    PackedBound(s, n);
    LowOverflow(Packed(s, n), out, Width(k, n));
    if last != 0 {
      MaskLast(s, n, last);
      LowBound(s[k - 1], last);
      Pow2Grows(last, n);
      LowLow(2 * Packed(before, n) + bit, Width(k, n), Width(k - 1, n) + last);
    }
  }

  /** The parity of the newest `length` bits at positions j, j + w, j + 2 w, ... */
  function HistoryParity(history: seq<nat>, length: nat, j: nat, w: nat): nat
    requires w > 0
    decreases if j < length then length - j else 0
  {
    if j >= length then 0
    else ((if j < |history| then history[j] % 2 else 0) + HistoryParity(history, length, j + w, w)) % 2
  }

  lemma {:induction false} ParityOfHistory(history: seq<nat>, length: nat, j: nat, w: nat)
    requires w > 0 && j < w
    ensures ParityAt(Recent(history, length), j, w) == HistoryParity(history, length, j, w)
  {
    ShrNothing(Recent(history, length));
    ParityFrom(history, length, j, w, 0);
  }

  lemma {:induction false} ParityFrom(history: seq<nat>, length: nat, j: nat, w: nat, at: nat)
    requires w > 0 && j < w
    ensures ParityAt(Shr(Recent(history, length), at), j, w) == HistoryParity(history, length, at + j, w)
    decreases if at < length then length - at else 0
  {
    var p := Recent(history, length);
    if at >= length {
      RecentBound(history, length);
      Fits(p, length, at);
    } else {
      ParityStep(Shr(p, at), j, w);
      ShrAdd(p, at, w);
      ShrBit(p, at, j);
      RecentBit(history, length, at + j);
      hide ParityAt, Bit, Shr;
      ParityFrom(history, length, j, w, at + w);
      if at + j >= length { NoParity(history, length, at + w + j, w); }
    }
  }

  lemma NoParity(history: seq<nat>, length: nat, j: nat, w: nat)
    requires w > 0 && j >= length
    ensures HistoryParity(history, length, j, w) == 0
  {
  }

  lemma {:induction false} RecentBound(history: seq<nat>, length: nat)
    ensures Recent(history, length) < Pow2(length)
    decreases length
  {
    if length > 0 && history != [] { RecentBound(history[1..], length - 1); }
  }
}
