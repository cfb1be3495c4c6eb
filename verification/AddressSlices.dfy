/** Address slices and contiguous extent sets (inc/address.h, inc/extent.h, inc/extent_set.h). */
module AddressSlices {
  import opened Bits

  /** Bits lower (inclusive) to upper (exclusive). */
  datatype Extent = Extent(upper: nat, lower: nat)
  {
    predicate Valid() { lower <= upper }
    function Size(): nat requires Valid() { upper - lower }
  }

  datatype Slice = Slice(extent: Extent, value: nat)
  {
    /** What every constructed slice satisfies: it fits its extent and the 64-bit word. */
    predicate Valid() { extent.Valid() && extent.upper <= 64 && value < Pow2(extent.Size()) }
  }

  function Least(a: nat, b: nat): nat { if a < b then a else b }

  /** A part of a superextent, clamped to its size. */
  function Relative(super: Extent, sub: Extent): (e: Extent)
    requires super.Valid() && sub.Valid()
    ensures e.Valid() && super.lower <= e.lower && e.upper <= super.upper
  {
    Extent(super.lower + Least(sub.upper, super.Size()), super.lower + Least(sub.lower, super.Size()))
  }

  /** The slicing constructor: move the value to its place in a 64-bit word, mask, and
      shift it down. The mask of a whole word is all ones. */
  function SliceOf(ext: Extent, s: Slice): (r: Slice)
    requires ext.Valid() && ext.upper <= 64 && s.Valid()
    ensures r.Valid() && r.extent == ext
  {
    LowBound(Shr(Low(Shl(s.value, s.extent.lower), 64), ext.lower), ext.Size());
    Slice(ext, Low(Shr(Low(Shl(s.value, s.extent.lower), 64), ext.lower), ext.Size()))
  }

  function Address(v: nat): (s: Slice)
    ensures s.Valid()
  {
    hide Pow2, Low;
    LowBound(v, 64);
    Slice(Extent(64, 0), Low(v, 64))
  }

  /** address_slice::slice: shift by the requested offset and mask to the clamped size. */
  function Part(s: Slice, sub: Extent): (r: Slice)
    requires s.Valid() && sub.Valid()
    ensures r.Valid() && r.extent == Relative(s.extent, sub)
  {
    var e := Relative(s.extent, sub);
    LowBound(Shr(s.value, sub.lower), e.Size());
    Slice(e, Low(Shr(s.value, sub.lower), e.Size()))
  }

  /** Slicing out of a word keeps exactly the named bits: no bit is lost to the word size, and
      bits below the slice are zero. */
  lemma SliceOfValue(ext: Extent, s: Slice)
    requires ext.Valid() && ext.upper <= 64 && s.Valid()
    ensures SliceOf(ext, s).value ==
      Low(if s.extent.lower <= ext.lower then Shr(s.value, ext.lower - s.extent.lower)
        else Shl(s.value, s.extent.lower - ext.lower), ext.Size())
  {
    hide Pow2, Shl, Shr, Low;
    var w := Shl(s.value, s.extent.lower);
    ShrLow(w, 64, ext.lower);
    LowLow(Shr(w, ext.lower), 64 - ext.lower, ext.Size());
    if s.extent.lower <= ext.lower {
      ShrShl(s.value, s.extent.lower, ext.lower - s.extent.lower);
    } else {
      var n: nat := s.extent.lower - ext.lower;
      ShlShl(s.value, n, ext.lower);
      ShrShl(Shl(s.value, n), ext.lower, 0);
      ShrNothing(Shl(s.value, n));
    }
  }

  /** The clamping of a relative extent never changes the value that is selected. */
  lemma PartValue(s: Slice, sub: Extent)
    requires s.Valid() && sub.Valid()
    ensures Part(s, sub).value == Low(Shr(s.value, sub.lower), sub.Size())
  {
    var n := s.extent.Size();
    var e := Relative(s.extent, sub);
    if sub.lower >= n {
      Fits(s.value, n, sub.lower);
      Fits(0, 0, e.Size());
      Fits(0, 0, sub.Size());
    } else if sub.upper > n {
      ShrBound(s.value, n, sub.lower);
      Fits(Shr(s.value, sub.lower), n - sub.lower, n - sub.lower);
      Fits(Shr(s.value, sub.lower), n - sub.lower, sub.Size());
    }
  }

  // ---- splicing ----

  function Union(l: Extent, r: Extent): (e: Extent)
    requires l.Valid() && r.Valid()
    ensures e.Valid()
  {
    Extent(if l.upper < r.upper then r.upper else l.upper, Least(l.lower, r.lower))
  }

  /** splice_bits: bits lower..upper from `lo`, the others from `hi`. */
  function SpliceBits(hi: nat, lo: nat, upper: nat, lower: nat): nat
    requires lower <= upper
  {
    Low(hi, lower) + Shl(Low(Shr(lo, lower), upper - lower), lower) + Shl(Shr(hi, upper), upper)
  }

  /** The two-operand splice: both values move to the union of the extents, and the second
      takes its own bits. */
  function Splice(l: Slice, r: Slice): Slice
    requires l.Valid() && r.Valid()
  {
    var e := Union(l.extent, r.extent);
    Slice(e, SpliceBits(Shl(l.value, l.extent.lower - e.lower), Shl(r.value, r.extent.lower - e.lower),
                        r.extent.upper - e.lower, r.extent.lower - e.lower))
  }

  /** Splicing a lower neighbour puts it below. */
  lemma SpliceBelow(l: Slice, r: Slice)
    requires l.Valid() && r.Valid() && l.extent.lower == r.extent.upper
    ensures Splice(l, r) == Slice(Extent(l.extent.upper, r.extent.lower), r.value + Shl(l.value, r.extent.Size()))
  {
    var n := r.extent.Size();
    var hi := Shl(l.value, n);
    Fits(r.value, n, n);
    ShrShl(l.value, n, 0);
    assert Low(hi, 0) == 0;
    assert Shl(r.value, 0) == r.value && Shr(r.value, 0) == r.value && Shl(Low(Shr(r.value, 0), n), 0) == r.value;
  }

  /** Splicing into an address replaces just the window. */
  lemma SpliceInto(a: nat, r: Slice)
    requires a < Pow2(64) && r.Valid()
    ensures Splice(Slice(Extent(64, 0), a), r)
         == Slice(Extent(64, 0), Low(a, r.extent.lower) + Shl(r.value, r.extent.lower)
           + Shl(Shr(a, r.extent.upper), r.extent.upper))
  {
    ShrShl(r.value, r.extent.lower, 0);
    Fits(r.value, r.extent.Size(), r.extent.Size());
    assert Shl(a, 0) == a;
  }

  // ---- contiguous extent sets ----

  /** The first bit of field `i`: the sizes before it. */
  function LowerOf(sizes: seq<nat>, i: nat): (n: nat)
    requires i <= |sizes|
  {
    if i == 0 then 0 else sizes[i - 1] + LowerOf(sizes, i - 1)
  }

  function ExtentAt(sizes: seq<nat>, i: nat): (e: Extent)
    requires i < |sizes|
    ensures e.Valid() && e.Size() == sizes[i]
  {
    Extent(LowerOf(sizes, i + 1), LowerOf(sizes, i))
  }

  /** make_contiguous_extent_set(0, sizes...): a partial sum, then pairs of neighbours. */
  method MakeContiguousExtentSet(sizes: seq<nat>) returns (extents: seq<Extent>)
    ensures |extents| == |sizes|
    ensures forall i :: 0 <= i < |sizes| ==> extents[i] == ExtentAt(sizes, i)
  {
    var lowers: seq<nat> := [0];
    for i := 0 to |sizes|
      invariant |lowers| == i + 1
      invariant forall k :: 0 <= k <= i ==> lowers[k] == LowerOf(sizes, k)
    {
      lowers := lowers + [lowers[i] + sizes[i]];
    }
    extents := [];
    for i := 0 to |sizes|
      invariant |extents| == i
      invariant forall k :: 0 <= k < i ==> extents[k] == ExtentAt(sizes, k)
    {
      extents := extents + [Extent(lowers[i + 1], lowers[i])];
    }
  }

  /** The fields of `v`, lowest first. */
  function Fields(v: nat, sizes: seq<nat>): (f: seq<nat>)
    ensures |f| == |sizes|
    decreases |sizes|
  {
    if sizes == [] then [] else [Low(v, sizes[0])] + Fields(Shr(v, sizes[0]), sizes[1..])
  }

  /** The value with the given fields, lowest first. */
  function Compose(f: seq<nat>, sizes: seq<nat>): nat
    requires |f| == |sizes|
    decreases |sizes|
  {
    if sizes == [] then 0 else f[0] + Shl(Compose(f[1..], sizes[1..]), sizes[0])
  }

  function Total(sizes: seq<nat>): nat
    decreases |sizes|
  {
    if sizes == [] then 0 else sizes[0] + Total(sizes[1..])
  }

  ghost predicate InRange(f: seq<nat>, sizes: seq<nat>) {
    |f| == |sizes| && forall i :: 0 <= i < |sizes| ==> f[i] < Pow2(sizes[i])
  }

  lemma {:induction false} LowerOfTail(sizes: seq<nat>, i: nat)
    requires i < |sizes|
    ensures LowerOf(sizes, i + 1) == sizes[0] + LowerOf(sizes[1..], i)
  {
    if i > 0 {
      LowerOfTail(sizes, i - 1);
      assert sizes[1..][i - 1] == sizes[i];
    }
  }

  lemma {:induction false} TotalIsLast(sizes: seq<nat>)
    ensures Total(sizes) == LowerOf(sizes, |sizes|)
  {
    if sizes != [] {
      TotalIsLast(sizes[1..]);
      LowerOfTail(sizes, |sizes| - 1);
    }
  }

  /** Applying an extent set selects exactly the fields. */
  lemma {:induction false} FieldAt(v: nat, sizes: seq<nat>, i: nat)
    requires i < |sizes|
    ensures Fields(v, sizes)[i] == Low(Shr(v, LowerOf(sizes, i)), sizes[i])
    decreases |sizes|
  {
    if i > 0 {
      FieldAt(Shr(v, sizes[0]), sizes[1..], i - 1);
      LowerOfTail(sizes, i - 1);
      ShrAdd(v, sizes[0], LowerOf(sizes[1..], i - 1));
    }
  }

  lemma {:induction false} FieldsInRange(v: nat, sizes: seq<nat>)
    ensures InRange(Fields(v, sizes), sizes)
    decreases |sizes|
  {
    if sizes != [] {
      LowBound(v, sizes[0]);
      FieldsInRange(Shr(v, sizes[0]), sizes[1..]);
      var f, g := Fields(v, sizes), Fields(Shr(v, sizes[0]), sizes[1..]);
      assert forall i :: 1 <= i < |sizes| ==> f[i] == g[i - 1] && sizes[i] == sizes[1..][i - 1];
    }
  }

  /** Splitting and composing undo each other, for any field sizes. */
  lemma {:induction false} ComposeFields(v: nat, sizes: seq<nat>)
    requires v < Pow2(Total(sizes))
    ensures Compose(Fields(v, sizes), sizes) == v
    decreases |sizes|
  {
    if sizes != [] {
      ShrBound(v, Total(sizes), sizes[0]);
      ComposeFields(Shr(v, sizes[0]), sizes[1..]);
      Split(v, sizes[0]);
      assert Fields(v, sizes)[1..] == Fields(Shr(v, sizes[0]), sizes[1..]);
    }
  }

  lemma {:induction false} FieldsCompose(f: seq<nat>, sizes: seq<nat>)
    requires InRange(f, sizes)
    ensures Compose(f, sizes) < Pow2(Total(sizes)) && Fields(Compose(f, sizes), sizes) == f
    decreases |sizes|
  {
    if sizes != [] {
      FieldsCompose(f[1..], sizes[1..]);
      Join(f[0], Compose(f[1..], sizes[1..]), sizes[0]);
      JoinBound(f[0], Compose(f[1..], sizes[1..]), sizes[0], Total(sizes[1..]));
      assert f == [f[0]] + f[1..];
    }
  }
}
