/** The DRAM address map (src/dram_controller.cc: DRAM_ADDRESS_MAPPING). */
module DramAddress {
  import opened Bits
  import opened AddressSlices
  import opened Folding

  /** How many bits each field takes, lowest field first. */
  datatype Geometry = Geometry(offset: nat, channel: nat, bankgroup: nat, bank: nat, column: nat, rank: nat, row: nat)
  {
    function Sizes(): (s: seq<nat>)
      ensures |s| == 7
    {
      [offset, channel, bankgroup, bank, column, rank, row]
    }

    function BitSize(): nat { Total(Sizes()) }

    function Segment(): nat { bankgroup + bank }

    /** The fields fit an address, and there are at least two banks in all: with only one
        the swizzle loop would not advance. */
    predicate Valid() { BitSize() <= 64 && Segment() >= 1 }
  }

  /** The coordinates of a byte. */
  datatype Location = Location(offset: nat, channel: nat, bankgroup: nat, bank: nat, column: nat, rank: nat, row: nat)
  {
    function Values(): (s: seq<nat>)
      ensures |s| == 7
    {
      [offset, channel, bankgroup, bank, column, rank, row]
    }

    ghost predicate InRange(g: Geometry) { AddressSlices.InRange(Values(), g.Sizes()) }
  }

  // ---- the hash of the row ----

  function RowOf(g: Geometry, a: nat): nat {
    Fields(a, g.Sizes())[6]
  }

  /** swizzle_bits. The loop runs while a segment ends within the row's own upper bound
      in the address, not its size. */
  method SwizzleBits(g: Geometry, address: nat, seg: nat, off: nat, field: nat, bits: nat) returns (r: nat)
    requires g.Valid() && 0 < seg <= LowerOf(g.Sizes(), 6) + 1
    ensures r == Xor(field, Fold(RowOf(g, address), seg, off, bits))
  {
    hide RowOf, Fold, Xor, Low, Fields, Pow2, LowerOf, Total, SliceOf, Part, Geometry.Sizes, Slice.Valid, Shr;
    RowSlice(g, address);
    var row := SliceOf(ExtentAt(g.Sizes(), 6), Address(address));
    r := field;
    var sub := Extent(seg, 0);
    ghost var rest := row.value;
    ShrNothing(row.value);
    while sub.upper <= row.extent.upper
      invariant sub.upper == sub.lower + seg
      invariant rest == Shr(row.value, sub.lower)
      invariant Xor(r, Fold(rest, seg, off, bits)) == Xor(field, Fold(row.value, seg, off, bits))
      decreases row.extent.upper + seg - sub.upper
    {
      PartIsDigit(row, sub, off, bits);
      FoldStep(r, rest, seg, off, bits);
      ShrAdd(row.value, sub.lower, seg);
      r := Xor(r, Part(Part(row, sub), Extent(off + bits, off)).value);
      rest := Shr(rest, seg);
      sub := Extent(sub.upper + seg, sub.upper);
    }
    SwizzleEnds(g, row, sub.lower, r, seg, off, bits);
  }

  lemma PartIsDigit(row: Slice, sub: Extent, off: nat, bits: nat)
    requires row.Valid() && sub.Valid()
    ensures Part(Part(row, sub), Extent(off + bits, off)).value ==
      Digit(Shr(row.value, sub.lower), sub.Size(), off, bits)
  {
    hide Low, Shr, SliceOf, Pow2, Part;
    PartValue(row, sub);
    PartValue(Part(row, sub), Extent(off + bits, off));
  }

  /** The loop's bound covers the last partial segment, because the row lies above
      the fields it is folded into: no row bit is left when it stops. */
  lemma SwizzleEnds(g: Geometry, row: Slice, j: nat, r: nat, seg: nat, off: nat, bits: nat)
    requires 0 < seg <= LowerOf(g.Sizes(), 6) + 1
    requires row.Valid() && row.extent == ExtentAt(g.Sizes(), 6) && j + seg > row.extent.upper
    ensures Xor(r, Fold(Shr(row.value, j), seg, off, bits)) == r
  {
    hide Xor, Pow2, Fold;
    assert row.extent.upper == LowerOf(g.Sizes(), 6) + g.row;
    Fits(row.value, row.extent.Size(), j);
    assert Fold(0, seg, off, bits) == 0 by { FoldNothing(seg, off, bits); }
    XorZero(r);
  }

  lemma RowSlice(g: Geometry, a: nat)
    requires g.Valid()
    ensures ExtentAt(g.Sizes(), 6).upper <= 64
    ensures SliceOf(ExtentAt(g.Sizes(), 6), Address(a)).value == RowOf(g, a)
  {
    var s := g.Sizes();
    TotalIsLast(s);
    var e := ExtentAt(s, 6);
    SliceOfValue(e, Address(a));
    FieldAt(a, s, 6);
    ShrLow(a, 64, e.lower);
    LowLow(Shr(a, e.lower), 64 - e.lower, e.Size());
  }

  // ---- the getters ----

  function GetChannel(g: Geometry, a: nat): nat {
    Xor(Fields(a, g.Sizes())[1], Fold(RowOf(g, a), 1, 0, g.channel))
  }

  function GetBankgroup(g: Geometry, a: nat): nat
    requires g.Segment() >= 1
  {
    Xor(Fields(a, g.Sizes())[2], Fold(RowOf(g, a), g.Segment(), 0, g.bankgroup))
  }

  function GetBank(g: Geometry, a: nat): nat
    requires g.Segment() >= 1
  {
    Xor(Fields(a, g.Sizes())[3], Fold(RowOf(g, a), g.Segment(), g.bankgroup, g.bank))
  }

  /** The coordinates every getter reports for an address. */
  function Locate(g: Geometry, a: nat): Location
    requires g.Segment() >= 1
  {
    var f := Fields(a, g.Sizes());
    Location(f[0], GetChannel(g, a), GetBankgroup(g, a), GetBank(g, a), f[4], f[5], f[6])
  }

  /** The address at given coordinates: the hashes are undone knowing the row. */
  function AddressAt(g: Geometry, l: Location): nat
    requires g.Segment() >= 1
  {
    Compose([l.offset,
             Xor(l.channel, Fold(l.row, 1, 0, g.channel)),
             Xor(l.bankgroup, Fold(l.row, g.Segment(), 0, g.bankgroup)),
             Xor(l.bank, Fold(l.row, g.Segment(), g.bankgroup, g.bank)),
             l.column, l.rank, l.row], g.Sizes())
  }

  lemma SwizzleBound(field: nat, row: nat, seg: nat, off: nat, bits: nat)
    requires seg > 0 && field < Pow2(bits)
    ensures Xor(field, Fold(row, seg, off, bits)) < Pow2(bits)
  {
    FoldBound(row, seg, off, bits);
    XorBound(field, Fold(row, seg, off, bits), bits);
  }

  /** Every address has in-range coordinates. */
  lemma LocateInRange(g: Geometry, a: nat)
    requires g.Segment() >= 1
    ensures Locate(g, a).InRange(g)
  {
    var f := Fields(a, g.Sizes());
    FieldsInRange(a, g.Sizes());
    SwizzleBound(f[1], f[6], 1, 0, g.channel);
    SwizzleBound(f[2], f[6], g.Segment(), 0, g.bankgroup);
    SwizzleBound(f[3], f[6], g.Segment(), g.bankgroup, g.bank);
    hide Fields, Fold, Xor, Pow2;
  }

  /** The map is a bijection between addresses and in-range coordinates: here, no address is lost. */
  lemma AddressOfLocation(g: Geometry, a: nat)
    requires g.Segment() >= 1 && a < Pow2(g.BitSize())
    ensures AddressAt(g, Locate(g, a)) == a
  {
    var f := Fields(a, g.Sizes());
    XorTwice(f[1], Fold(f[6], 1, 0, g.channel));
    XorTwice(f[2], Fold(f[6], g.Segment(), 0, g.bankgroup));
    XorTwice(f[3], Fold(f[6], g.Segment(), g.bankgroup, g.bank));
    ComposeFields(a, g.Sizes());
    hide Fields, Fold, Xor, Compose;
    assert f == [f[0], f[1], f[2], f[3], f[4], f[5], f[6]];
  }

  /** And here: every in-range location has an address, and no two share one. */
  lemma LocationOfAddress(g: Geometry, l: Location)
    requires g.Segment() >= 1 && l.InRange(g)
    ensures AddressAt(g, l) < Pow2(g.BitSize()) && Locate(g, AddressAt(g, l)) == l
  {
    hide Fields, Fold, Xor, Compose, Pow2;
    var c := Fold(l.row, 1, 0, g.channel);
    var bg := Fold(l.row, g.Segment(), 0, g.bankgroup);
    var bk := Fold(l.row, g.Segment(), g.bankgroup, g.bank);
    var v := [l.offset, Xor(l.channel, c), Xor(l.bankgroup, bg), Xor(l.bank, bk), l.column, l.rank, l.row];
    var w, s := l.Values(), g.Sizes();
    assert w[0] < Pow2(s[0]) && w[1] < Pow2(s[1]) && w[2] < Pow2(s[2]) && w[3] < Pow2(s[3]) && w[4] < Pow2(s[4])
      && w[5] < Pow2(s[5]) && w[6] < Pow2(s[6]);
    SwizzleBound(l.channel, l.row, 1, 0, g.channel);
    SwizzleBound(l.bankgroup, l.row, g.Segment(), 0, g.bankgroup);
    SwizzleBound(l.bank, l.row, g.Segment(), g.bankgroup, g.bank);
    XorTwice(l.channel, c);
    XorTwice(l.bankgroup, bg);
    XorTwice(l.bank, bk);
    FieldsCompose(v, s);
  }

  lemma BelowRow(g: Geometry)
    ensures LowerOf(g.Sizes(), 6) == g.offset + g.channel + g.bankgroup + g.bank + g.column + g.rank
  {
    var s := g.Sizes();
    assert LowerOf(s, 1) == g.offset;
    assert LowerOf(s, 2) == g.channel + LowerOf(s, 1);
    assert LowerOf(s, 3) == g.bankgroup + LowerOf(s, 2);
    assert LowerOf(s, 4) == g.bank + LowerOf(s, 3);
    assert LowerOf(s, 5) == g.column + LowerOf(s, 4);
  }

  /** All getters at once, through the loop they share. */
  method LookUp(g: Geometry, address: nat) returns (l: Location)
    requires g.Valid()
    ensures l == Locate(g, address)
  {
    BelowRow(g);
    var f := Fields(address, g.Sizes());
    var channel := SwizzleBits(g, address, 1, 0, f[1], g.channel);
    var bankgroup := SwizzleBits(g, address, g.Segment(), 0, f[2], g.bankgroup);
    var bank := SwizzleBits(g, address, g.Segment(), g.bankgroup, f[3], g.bank);
    l := Location(f[0], channel, bankgroup, bank, f[4], f[5], f[6]);
  }

  // ---- what the hashes are ----

  /** `b` is `a` with bit `p` flipped. */
  ghost predicate Flipped(a: nat, b: nat, p: nat) {
    forall k: nat :: Bit(b, k) == if k == p then 1 - Bit(a, k) else Bit(a, k)
  }

  lemma FlipBelow(a: nat, b: nat, p: nat, seg: nat)
    requires Flipped(a, b, p) && p < seg
    ensures Shr(a, seg) == Shr(b, seg)
  {
    var c, d := Shr(a, seg), Shr(b, seg);
    hide Bit;
    forall k: nat ensures Bit(c, k) == Bit(d, k) {
      ShrBit(a, seg, k);
      ShrBit(b, seg, k);
    }
    SameBits(c, d);
  }

  lemma FlipAbove(a: nat, b: nat, p: nat, seg: nat)
    requires Flipped(a, b, p) && seg <= p
    ensures Flipped(Shr(a, seg), Shr(b, seg), p - seg)
  {
    hide Bit;
    forall k: nat ensures Bit(Shr(b, seg), k) == if k == p - seg then 1 - Bit(Shr(a, seg), k) else Bit(Shr(a, seg), k) {
      ShrBit(a, seg, k);
      ShrBit(b, seg, k);
    }
  }

  /** A row bit counts in its own residue class and in no other. */
  lemma {:induction false} FlipParity(a: nat, b: nat, p: nat, q: nat, seg: nat)
    requires 0 < seg && q < seg && Flipped(a, b, p)
    ensures ParityAt(b, q, seg) == if p % seg == q then 1 - ParityAt(a, q, seg) else ParityAt(a, q, seg)
    decreases p
  {
    hide ParityAt, Bit;
    ParityStep(a, q, seg);
    ParityStep(b, q, seg);
    assert Bit(b, q) == if q == p then 1 - Bit(a, q) else Bit(a, q);
    if p < seg {
      FlipBelow(a, b, p, seg);
      SmallMod(p, seg);
      FlipSum(Bit(a, q), ParityAt(Shr(a, seg), q, seg));
    } else {
      FlipAbove(a, b, p, seg);
      hide Flipped;
      FlipParity(Shr(a, seg), Shr(b, seg), p - seg, q, seg);
      ModShift(p, seg);
      FlipSum(Bit(a, q), ParityAt(Shr(a, seg), q, seg));
    }
  }

  lemma FlipSum(x: nat, y: nat)
    requires x < 2 && y < 2
    ensures (1 - x + y) % 2 == 1 - (x + y) % 2 && (x + (1 - y)) % 2 == 1 - (x + y) % 2
  {
  }

  lemma SmallMod(p: nat, n: nat)
    requires p < n
    ensures p % n == p
  {
  }

  lemma ModShift(p: nat, seg: nat)
    requires 0 < seg <= p
    ensures (p - seg) % seg == p % seg
  {
    DigitsUnique(p / seg, p % seg, (p - seg) / seg + 1, (p - seg) % seg, seg);
  }

  lemma Multiples(a: nat, b: nat, n: nat)
    ensures a < b ==> a * n + n <= b * n
  {
    if a < b {
      var d: nat := b - a - 1;
      assert d * n >= 0;
      assert d * n == b * n - a * n - n;
    }
  }

  /** A quotient and a remainder are unique. */
  lemma DigitsUnique(hi: nat, lo: nat, hi': nat, lo': nat, n: nat)
    requires lo < n && lo' < n && hi * n + lo == hi' * n + lo'
    ensures hi == hi' && lo == lo'
  {
    Multiples(hi, hi', n);
    Multiples(hi', hi, n);
  }

  /** Every row bit is folded into exactly one of the two bank hashes: flipping bit `p` of
      the row flips the one bit of bankgroup or bank that `p` modulo the segment
      names, and nothing else of either. */
  lemma EachRowBitInOneHash(g: Geometry, a: nat, b: nat, p: nat, k: nat)
    requires g.Segment() >= 1 && Flipped(a, b, p)
    ensures var q := p % g.Segment();
      && (k < g.bankgroup ==>
            (Bit(Fold(b, g.Segment(), 0, g.bankgroup), k) != Bit(Fold(a, g.Segment(), 0, g.bankgroup), k) <==> q == k))
      && (k < g.bank ==>
            var c, d := Fold(b, g.Segment(), g.bankgroup, g.bank), Fold(a, g.Segment(), g.bankgroup, g.bank);
            (Bit(c, k) != Bit(d, k) <==> q == g.bankgroup + k))
  {
    var seg := g.Segment();
    hide Fold, ParityAt, Flipped, Bit;
    if k < g.bankgroup {
      FoldBit(a, seg, 0, g.bankgroup, k);
      FoldBit(b, seg, 0, g.bankgroup, k);
      FlipParity(a, b, p, k, seg);
    }
    if k < g.bank {
      FoldBit(a, seg, g.bankgroup, g.bank, k);
      FoldBit(b, seg, g.bankgroup, g.bank, k);
      FlipParity(a, b, p, g.bankgroup + k, seg);
    }
  }

  /** Every row bit flips the lowest channel bit, and only that one. */
  lemma ChannelHash(g: Geometry, row: nat)
    ensures Fold(row, 1, 0, g.channel) == if g.channel == 0 then 0 else ParityAt(row, 0, 1)
    decreases row
  {
    FoldBound(row, 1, 0, g.channel);
    if g.channel > 0 && row > 0 {
      ChannelHash(g, row / 2);
      assert Shr(row, 1) == row / 2;
      assert Low(row, 1) == row % 2;
      LowLow(row, 1, g.channel);
      assert Digit(row, 1, 0, g.channel) == row % 2;
      XorOneBit(row % 2, ParityAt(row / 2, 0, 1));
    }
  }

  lemma XorOneBit(x: nat, y: nat)
    requires x < 2 && y < 2
    ensures Xor(x, y) == (x + y) % 2
  {
    XorStep(x, y);
    XorZero(0);
  }

  // ---- collisions and bank indices ----

  /** is_collision. */
  predicate IsCollision(g: Geometry, a: nat, b: nat) {
    Shr(a, g.offset) == Shr(b, g.offset)
  }

  /** Two addresses collide exactly when they agree on everything but the offset. */
  lemma CollisionIsSameBlock(g: Geometry, a: nat, b: nat)
    requires g.Segment() >= 1 && a < Pow2(g.BitSize()) && b < Pow2(g.BitSize())
    ensures IsCollision(g, a, b) <==> Locate(g, a).(offset := 0) == Locate(g, b).(offset := 0)
  {
    if Locate(g, a).(offset := 0) == Locate(g, b).(offset := 0) {
      AddressOfLocation(g, a);
      AddressOfLocation(g, b);
      LocateInRange(g, a);
      LocateInRange(g, b);
      SameUpper(g, Locate(g, a), Locate(g, b));
    }
  }

  lemma SameUpper(g: Geometry, l: Location, m: Location)
    requires g.Segment() >= 1 && l.(offset := 0) == m.(offset := 0) && l.InRange(g) && m.InRange(g)
    ensures Shr(AddressAt(g, l), g.offset) == Shr(AddressAt(g, m), g.offset)
  {
    assert l.Values()[0] < Pow2(g.Sizes()[0]) && m.Values()[0] < Pow2(g.Sizes()[0]);
    var rest := [Xor(l.channel, Fold(l.row, 1, 0, g.channel)),
             Xor(l.bankgroup, Fold(l.row, g.Segment(), 0, g.bankgroup)),
             Xor(l.bank, Fold(l.row, g.Segment(), g.bankgroup, g.bank)),
             l.column, l.rank, l.row];
    hide Fold, Xor;
    var hi := Compose(rest, g.Sizes()[1..]);
    assert AddressAt(g, l) == l.offset + Shl(hi, g.offset) by { assert ([l.offset] + rest)[1..] == rest; }
    assert AddressAt(g, m) == m.offset + Shl(hi, g.offset) by { assert ([m.offset] + rest)[1..] == rest; }
    Join(l.offset, hi, g.offset);
    Join(m.offset, hi, g.offset);
  }

  function BankgroupIndex(g: Geometry, l: Location): nat {
    l.rank * Pow2(g.bankgroup) + l.bankgroup
  }

  /** bank_request_index. */
  function BankIndex(g: Geometry, l: Location): nat {
    BankgroupIndex(g, l) * Pow2(g.bank) + l.bank
  }

  function Banks(g: Geometry): nat { Pow2(g.rank) * Pow2(g.bankgroup) * Pow2(g.bank) }

  /** Bank indices stay in range, and name one bank each. */
  lemma BankIndexIsInjective(g: Geometry, l: Location, m: Location)
    requires l.InRange(g) && m.InRange(g)
    ensures BankIndex(g, l) < Banks(g)
    ensures BankIndex(g, l) == BankIndex(g, m) <==> l.rank == m.rank && l.bankgroup == m.bankgroup && l.bank == m.bank
  {
    var v, w, s := l.Values(), m.Values(), g.Sizes();
    assert v[2] < Pow2(s[2]) && v[3] < Pow2(s[3]) && v[5] < Pow2(s[5]) && w[2] < Pow2(s[2]) && w[3] < Pow2(s[3])
      && w[5] < Pow2(s[5]);
    hide Pow2;
    Multiples(l.rank, Pow2(g.rank), Pow2(g.bankgroup));
    Multiples(BankgroupIndex(g, l), Pow2(g.rank) * Pow2(g.bankgroup), Pow2(g.bank));
    if BankIndex(g, l) == BankIndex(g, m) {
      DigitsUnique(BankgroupIndex(g, l), l.bank, BankgroupIndex(g, m), m.bank, Pow2(g.bank));
      DigitsUnique(l.rank, l.bankgroup, m.rank, m.bankgroup, Pow2(g.bankgroup));
    }
  }

  lemma BankgroupInRange(g: Geometry, l: Location)
    requires l.InRange(g)
    ensures BankgroupIndex(g, l) < Pow2(g.rank) * Pow2(g.bankgroup)
  {
    var v, s := l.Values(), g.Sizes();
    assert v[2] < Pow2(s[2]) && v[5] < Pow2(s[5]);
    hide Pow2;
    Multiples(l.rank, Pow2(g.rank), Pow2(g.bankgroup));
  }
}
