/** The set-associative table with least-recently-used replacement (inc/msl/lru_table.h),
    refined by one recency list per set. */
module LruTables {
  import opened Sequences
  import Bits

  datatype Block<T> = Block(lastUsed: nat, data: T)

  // ---- recency lists: most recent first ----

  predicate Usable<T(!new)>(b: Block<T>) { b.lastUsed > 0 }

  ghost predicate Newer<T(!new)>(s: seq<Block<T>>) {
    forall i, j :: 0 <= i < j < |s| ==> s[i].lastUsed > s[j].lastUsed
  }

  ghost function Insert<T(!new)>(s: seq<Block<T>>, b: Block<T>): seq<Block<T>> {
    if s == [] || s[0].lastUsed < b.lastUsed then [b] + s else [s[0]] + Insert(s[1..], b)
  }

  /** The usable blocks of a set, by recency. */
  ghost function Recency<T(!new)>(ways: seq<Block<T>>): seq<Block<T>> {
    if ways == [] then []
    else
      var n := |ways| - 1;
      if Usable(ways[n]) then Insert(Recency(ways[..n]), ways[n]) else Recency(ways[..n])
  }

  /** Usable blocks of a set have different stamps and different tags. */
  ghost predicate Distinct<T(!new)>(ways: seq<Block<T>>, tag: T -> nat) {
    forall i, j :: 0 <= i < j < |ways| && Usable(ways[i]) && Usable(ways[j]) ==>
      ways[i].lastUsed != ways[j].lastUsed && tag(ways[i].data) != tag(ways[j].data)
  }

  lemma {:induction false} InsertMembers<T(!new)>(s: seq<Block<T>>, b: Block<T>)
    ensures forall x :: x in Insert(s, b) <==> x in s || x == b
    ensures |Insert(s, b)| == |s| + 1
  {
    if s != [] && s[0].lastUsed >= b.lastUsed {
      InsertMembers(s[1..], b);
      assert s == [s[0]] + s[1..];
    }
  }

  lemma {:induction false} InsertNewer<T(!new)>(s: seq<Block<T>>, b: Block<T>)
    requires Newer(s) && forall x :: x in s ==> x.lastUsed != b.lastUsed
    ensures Newer(Insert(s, b))
  {
    if s != [] && s[0].lastUsed >= b.lastUsed {
      assert s == [s[0]] + s[1..];
      InsertNewer(s[1..], b);
      InsertMembers(s[1..], b);
      var t := Insert(s[1..], b);
      forall i | 0 <= i < |t| ensures s[0].lastUsed > t[i].lastUsed {
        assert t[i] in t;
        assert s[0] in s;
      }
    }
  }

  lemma {:induction false} RecencyMembers<T(!new)>(ways: seq<Block<T>>)
    ensures forall x :: x in Recency(ways) <==> x in ways && Usable(x)
    ensures |Recency(ways)| == CountIf(ways, (b: Block<T>) => Usable(b))
  {
    if ways != [] {
      var n := |ways| - 1;
      RecencyMembers(ways[..n]);
      assert ways == ways[..n] + [ways[n]];
      InsertMembers(Recency(ways[..n]), ways[n]);
      CountIfAppend(ways[..n], [ways[n]], (b: Block<T>) => Usable(b));
    }
  }

  lemma {:induction false} RecencyNewer<T(!new)>(ways: seq<Block<T>>, tag: T -> nat)
    requires Distinct(ways, tag)
    ensures Newer(Recency(ways))
  {
    if ways != [] {
      var n := |ways| - 1;
      RecencyNewer(ways[..n], tag);
      RecencyMembers(ways[..n]);
      if Usable(ways[n]) {
        forall x | x in Recency(ways[..n]) ensures x.lastUsed != ways[n].lastUsed {
          var i :| 0 <= i < n && ways[..n][i] == x;
          assert ways[i] == x;
        }
        InsertNewer(Recency(ways[..n]), ways[n]);
      }
    }
  }

  /** A list ordered by recency is determined by its members. */
  lemma {:induction false} SameMembers<T(!new)>(s: seq<Block<T>>, t: seq<Block<T>>)
    requires Newer(s) && Newer(t) && forall x :: x in s <==> x in t
    ensures s == t
  {
    SameEmpty(s, t);
    SameEmpty(t, s);
    if s != [] && t != [] {
      Head(s);
      Head(t);
      assert s[0] in t && t[0] in s;
      SameMembers(s[1..], t[1..]);
    }
  }

  lemma SameEmpty<T(!new)>(s: seq<Block<T>>, t: seq<Block<T>>)
    requires forall x :: x in t ==> x in s
    ensures s == [] ==> t == []
  {
    if t != [] { assert t[0] in t; }
  }

  lemma Head<T(!new)>(s: seq<Block<T>>)
    requires Newer(s) && s != []
    ensures Newer(s[1..])
    ensures forall x :: x in s <==> x == s[0] || x in s[1..]
    ensures forall x :: x in s[1..] ==> x.lastUsed < s[0].lastUsed
  {
    assert s == [s[0]] + s[1..];
  }

  // ---- the operations on a recency list ----

  ghost function Without<T(!new)>(s: seq<Block<T>>, tag: T -> nat, t: nat): (r: seq<Block<T>>)
    ensures forall x :: x in r <==> x in s && tag(x.data) != t
    ensures |r| <= |s|
  {
    if s == [] then [] else (if tag(s[0].data) == t then [] else [s[0]]) + Without(s[1..], tag, t)
  }

  ghost predicate Holds<T(!new)>(s: seq<Block<T>>, tag: T -> nat, t: nat) {
    exists i :: 0 <= i < |s| && tag(s[i].data) == t
  }

  ghost function Lookup<T(!new)>(s: seq<Block<T>>, tag: T -> nat, t: nat): (d: T)
    requires Holds(s, tag, t)
    ensures tag(d) == t && exists i :: 0 <= i < |s| && s[i].data == d
  {
    var i :| 0 <= i < |s| && tag(s[i].data) == t; s[i].data
  }

  /** A fill puts the element first. It replaces the block with its tag if there is one,
      else the least recently used block if the set is full. */
  ghost function Filled<T(!new)>(s: seq<Block<T>>, ways: nat, tag: T -> nat, b: Block<T>): seq<Block<T>> {
    if ways == 0 then s
    else [b] + (if Holds(s, tag, tag(b.data)) then Without(s, tag, tag(b.data)) else if |s| == ways then s[..|s| - 1]
      else s)
  }

  /** A use brings the block with its tag to the front. */
  ghost function Touched<T(!new)>(s: seq<Block<T>>, tag: T -> nat, b: Block<T>): seq<Block<T>> {
    [b] + Without(s, tag, tag(b.data))
  }

  lemma {:induction false} WithoutNewer<T(!new)>(s: seq<Block<T>>, tag: T -> nat, t: nat)
    requires Newer(s)
    ensures Newer(Without(s, tag, t))
  {
    if s != [] {
      Head(s);
      WithoutNewer(s[1..], tag, t);
      var r := Without(s[1..], tag, t);
      forall i | 0 <= i < |r| ensures s[0].lastUsed > r[i].lastUsed { assert r[i] in r; }
    }
  }

  lemma {:induction false} ConsNewer<T(!new)>(b: Block<T>, s: seq<Block<T>>)
    requires Newer(s) && forall x :: x in s ==> x.lastUsed < b.lastUsed
    ensures Newer([b] + s)
  {
    forall i | 0 <= i < |s| ensures s[i].lastUsed < b.lastUsed { assert s[i] in s; }
  }

  // ---- what recency lists promise ----

  /** A use or a fill of another tag moves a block back by at most one place, and evicts
      it only from the last place. */
  lemma {:induction false} MovesBackByOne<T(!new)>(s: seq<Block<T>>, ways: nat, tag: T -> nat, b: Block<T>,
      p: nat) returns (q: nat)
    requires p < |s| <= ways && tag(s[p].data) != tag(b.data) && p + 1 < ways
    ensures var r := Filled(s, ways, tag, b); q < |r| <= ways && q <= p + 1 && r[q] == s[p]
  {
    var t := tag(b.data);
    if Holds(s, tag, t) {
      WithoutShorter(s, tag, t);
      q := WithoutPlace(s, tag, t, p);
      q := q + 1;
    } else {
      q := p + 1;
    }
  }

  lemma {:induction false} WithoutPlace<T(!new)>(s: seq<Block<T>>, tag: T -> nat, t: nat, p: nat) returns (q: nat)
    requires p < |s| && tag(s[p].data) != t
    ensures q < |Without(s, tag, t)| && q <= p && Without(s, tag, t)[q] == s[p]
  {
    if p == 0 {
      q := 0;
    } else {
      q := WithoutPlace(s[1..], tag, t, p - 1);
      if tag(s[0].data) != t { q := q + 1; }
    }
  }

  lemma {:induction false} WithoutShorter<T(!new)>(s: seq<Block<T>>, tag: T -> nat, t: nat)
    requires Holds(s, tag, t)
    ensures |Without(s, tag, t)| < |s|
  {
    if tag(s[0].data) != t {
      var i :| 0 <= i < |s| && tag(s[i].data) == t;
      assert tag(s[1..][i - 1].data) == t;
      WithoutShorter(s[1..], tag, t);
    }
  }

  ghost function FilledAll<T(!new)>(s: seq<Block<T>>, ways: nat, tag: T -> nat, bs: seq<Block<T>>): seq<Block<T>>
    decreases |bs|
  {
    if bs == [] then s else FilledAll(Filled(s, ways, tag, bs[0]), ways, tag, bs[1..])
  }

  /** A block that has just been used survives any `ways - 1` later fills of other tags. */
  lemma {:induction false} Survives<T(!new)>(s: seq<Block<T>>, ways: nat, tag: T -> nat, bs: seq<Block<T>>,
      p: nat) returns (q: nat)
    requires p < |s| <= ways && p + |bs| < ways
    requires forall i :: 0 <= i < |bs| ==> tag(bs[i].data) != tag(s[p].data)
    ensures var r := FilledAll(s, ways, tag, bs); q < |r| && r[q] == s[p]
    decreases |bs|
  {
    q := p;
    if bs != [] {
      q := MovesBackByOne(s, ways, tag, bs[0], p);
      q := Survives(Filled(s, ways, tag, bs[0]), ways, tag, bs[1..], q);
    }
  }

  // ---- writing one way of a set ----

  /** The members of a set after one way is written. */
  lemma {:induction false} WriteMembers<T(!new)>(ways: seq<Block<T>>, tag: T -> nat, k: nat, b: Block<T>)
    requires Distinct(ways, tag) && k < |ways|
    ensures forall x :: x in Recency(ways[k := b]) <==>
      (x == b && Usable(b)) || (x in Recency(ways) && x != ways[k])
  {
    var w := ways[k := b];
    RecencyMembers(ways);
    RecencyMembers(w);
    hide Recency;
    forall x | x in w && Usable(x) && x != b ensures x in ways && x != ways[k] {
      var i :| 0 <= i < |w| && w[i] == x;
      assert ways[i] == x;
    }
    forall x | x in ways && x != ways[k] ensures x in w {
      var i :| 0 <= i < |ways| && ways[i] == x;
      assert w[i] == x;
    }
    if Usable(b) { assert w[k] == b; }
  }

  /** `x` is taken over `y` only if it is usable no longer, or matches and was used no later. */
  ghost predicate AtMost<T(!new)>(x: Block<T>, y: Block<T>, tag: T -> nat, t: nat) {
    !Usable(x) || (Usable(y) &&
      ((tag(x.data) != t && tag(y.data) == t)
        || ((tag(x.data) == t) == (tag(y.data) == t) && x.lastUsed <= y.lastUsed)))
  }

  /** The comparator of fill. It calls two unused blocks smaller than each other. */
  predicate Below<T(!new)>(x: Block<T>, y: Block<T>, tag: T -> nat, t: nat) {
    var xm, ym := tag(x.data) == t, tag(y.data) == t;
    !Usable(x) || (Usable(y) && ((!xm && ym) || (xm == ym && x.lastUsed < y.lastUsed)))
  }

  /** Way `k` has the tag, or no way has it and `k` is an unused way or else the oldest. */
  ghost predicate Replaceable<T(!new)>(ways: seq<Block<T>>, tag: T -> nat, k: nat, t: nat)
    requires k < |ways|
  {
    || (Usable(ways[k]) && tag(ways[k].data) == t)
    || ((forall i :: 0 <= i < |ways| && Usable(ways[i]) ==> tag(ways[i].data) != t)
        && (forall i :: 0 <= i < |ways| ==> AtMost(ways[k], ways[i], tag, t)))
  }

  /** Writing the matching way, an unused way, or else the oldest way, refines a fill. */
  lemma {:induction false} FillRefines<T(!new)>(ways: seq<Block<T>>, tag: T -> nat, k: nat, b: Block<T>)
    requires Distinct(ways, tag) && k < |ways| && Usable(b)
    requires forall i :: 0 <= i < |ways| ==> ways[i].lastUsed < b.lastUsed
    requires Replaceable(ways, tag, k, tag(b.data))
    ensures Distinct(ways[k := b], tag) && Recency(ways[k := b]) == Filled(Recency(ways), |ways|, tag, b)
  {
    var w, t, s := ways[k := b], tag(b.data), Recency(ways);
    FillDistinct(ways, tag, k, b);
    WriteMembers(ways, tag, k, b);
    RecencyNewer(w, tag);
    RecencyNewer(ways, tag);
    RecencyMembers(ways);
    FilledMembers(ways, tag, k, b);
    hide Recency, Filled, Newer;
    SameMembers(Recency(w), Filled(s, |ways|, tag, b));
  }

  lemma {:induction false} FillDistinct<T(!new)>(ways: seq<Block<T>>, tag: T -> nat, k: nat, b: Block<T>)
    requires Distinct(ways, tag) && k < |ways|
    requires forall i :: 0 <= i < |ways| ==> ways[i].lastUsed < b.lastUsed
    requires (Usable(ways[k]) && tag(ways[k].data) == tag(b.data))
      || (forall i :: 0 <= i < |ways| && Usable(ways[i]) ==> tag(ways[i].data) != tag(b.data))
    ensures Distinct(ways[k := b], tag)
  {
  }

  lemma {:induction false} FilledMembers<T(!new)>(ways: seq<Block<T>>, tag: T -> nat, k: nat, b: Block<T>)
    requires Distinct(ways, tag) && k < |ways| && Usable(b) && Newer(Recency(ways))
    requires forall i :: 0 <= i < |ways| ==> ways[i].lastUsed < b.lastUsed
    requires Replaceable(ways, tag, k, tag(b.data))
    ensures var r := Filled(Recency(ways), |ways|, tag, b);
      Newer(r) && forall x :: x in r <==> x == b || (x in Recency(ways) && x != ways[k])
  {
    var t, s := tag(b.data), Recency(ways);
    RecencyMembers(ways);
    hide Recency;
    forall x | x in s ensures x.lastUsed < b.lastUsed && exists i :: 0 <= i < |ways| && ways[i] == x && Usable(x) {
      var i :| 0 <= i < |ways| && ways[i] == x;
    }
    if Usable(ways[k]) && tag(ways[k].data) == t {
      assert ways[k] in s;
      MatchedMembers(ways, tag, k, s);
      WithoutNewer(s, tag, t);
      ConsNewer(b, Without(s, tag, t));
    } else {
      forall i | 0 <= i < |s| ensures tag(s[i].data) != t { assert s[i] in s; }
      if Usable(ways[k]) {
        FullSet(ways, tag, k, t);
        OldestIsLast(ways, k, s);
        ConsNewer(b, s[..|s| - 1]);
      } else {
        NotFull(ways, k);
        ConsNewer(b, s);
      }
    }
  }

  lemma {:induction false} MatchedMembers<T(!new)>(ways: seq<Block<T>>, tag: T -> nat, k: nat, s: seq<Block<T>>)
    requires Distinct(ways, tag) && k < |ways| && Usable(ways[k])
    requires forall x :: x in s <==> x in ways && Usable(x)
    ensures Holds(s, tag, tag(ways[k].data))
    ensures forall x :: x in s ==> (x != ways[k] <==> tag(x.data) != tag(ways[k].data))
  {
    assert ways[k] in s;
    forall x | x in s ensures x != ways[k] <==> tag(x.data) != tag(ways[k].data) {
      var i :| 0 <= i < |ways| && ways[i] == x;
    }
  }

  /** If the way to replace is in use, every way is. */
  lemma {:induction false} FullSet<T(!new)>(ways: seq<Block<T>>, tag: T -> nat, k: nat, t: nat)
    requires k < |ways| && Usable(ways[k]) && forall i :: 0 <= i < |ways| ==> AtMost(ways[k], ways[i], tag, t)
    requires forall i :: 0 <= i < |ways| && Usable(ways[i]) ==> tag(ways[i].data) != t
    ensures |Recency(ways)| == |ways| && forall i :: 0 <= i < |ways| ==>
      Usable(ways[i]) && ways[k].lastUsed <= ways[i].lastUsed
  {
    RecencyMembers(ways);
    AllCounted(ways, (b: Block<T>) => Usable(b));
  }

  lemma {:induction false} AllCounted<T(!new)>(s: seq<T>, p: T -> bool)
    requires forall i :: 0 <= i < |s| ==> p(s[i])
    ensures CountIf(s, p) == |s|
  {
    if s != [] { AllCounted(s[1..], p); }
  }

  lemma {:induction false} NotFull<T(!new)>(ways: seq<Block<T>>, k: nat)
    requires k < |ways| && !Usable(ways[k])
    ensures |Recency(ways)| < |ways|
  {
    RecencyMembers(ways);
    CountBelow(ways, (b: Block<T>) => Usable(b), k);
  }

  lemma {:induction false} CountBelow<T(!new)>(s: seq<T>, p: T -> bool, k: nat)
    requires k < |s| && !p(s[k])
    ensures CountIf(s, p) < |s|
  {
    if k > 0 { CountBelow(s[1..], p, k - 1); }
  }

  lemma {:induction false} OldestIsLast<T(!new)>(ways: seq<Block<T>>, k: nat, s: seq<Block<T>>)
    requires Newer(s) && s != [] && k < |ways| && ways[k] in s
    requires forall x :: x in s ==> ways[k].lastUsed <= x.lastUsed
    ensures Newer(s[..|s| - 1]) && s[|s| - 1] == ways[k]
    ensures forall x :: x in s[..|s| - 1] <==> x in s && x != ways[k]
  {
    var n := |s| - 1;
    assert s == s[..n] + [s[n]];
    assert s[n] in s;
    var j :| 0 <= j <= n && s[j] == ways[k];
    forall i | 0 <= i < n ensures s[i] != ways[k] { assert s[i].lastUsed > s[n].lastUsed; }
  }

  /** Dropping one way refines removing its tag. */
  lemma {:induction false} DropRefines<T(!new)>(ways: seq<Block<T>>, tag: T -> nat, k: nat, b: Block<T>)
    requires Distinct(ways, tag) && k < |ways| && Usable(ways[k]) && !Usable(b)
    ensures Distinct(ways[k := b], tag) && Recency(ways[k := b]) == Without(Recency(ways), tag, tag(ways[k].data))
  {
    var s, t := Recency(ways), tag(ways[k].data);
    WriteMembers(ways, tag, k, b);
    RecencyNewer(ways[k := b], tag);
    RecencyNewer(ways, tag);
    RecencyMembers(ways);
    MatchedMembers(ways, tag, k, s);
    WithoutNewer(s, tag, t);
    hide Recency, Newer, Without;
    SameMembers(Recency(ways[k := b]), Without(s, tag, t));
  }

  lemma {:induction false} NothingRecent<T(!new)>(w: seq<Block<T>>)
    requires forall i :: 0 <= i < |w| ==> !Usable(w[i])
    ensures Recency(w) == []
  {
    if w != [] { NothingRecent(w[..|w| - 1]); }
  }

  lemma {:induction false} Matching<T(!new)>(ways: seq<Block<T>>, tag: T -> nat, k: nat, t: nat)
    requires k <= |ways|
    requires k < |ways| ==> Usable(ways[k]) && tag(ways[k].data) == t
    requires k == |ways| ==> forall i :: 0 <= i < |ways| && Usable(ways[i]) ==> tag(ways[i].data) != t
    ensures Holds(Recency(ways), tag, t) <==> k < |ways|
  {
    var s := Recency(ways);
    RecencyMembers(ways);
    hide Recency;
    if k < |ways| {
      assert ways[k] in s;
    } else {
      forall i | 0 <= i < |s| ensures tag(s[i].data) != t { assert s[i] in s; }
    }
  }

  lemma {:induction false} WithoutNothing<T(!new)>(s: seq<Block<T>>, tag: T -> nat, t: nat)
    requires !Holds(s, tag, t)
    ensures Without(s, tag, t) == s
  {
    if s != [] {
      assert tag(s[0].data) != t;
      forall i | 0 <= i < |s[1..]| ensures tag(s[1..][i].data) != t { assert s[1..][i] == s[i + 1]; }
      WithoutNothing(s[1..], tag, t);
    }
  }

  /** `lo` and `hi` are extreme among the first `n` blocks. */
  ghost predicate Extreme<T(!new)>(w: seq<Block<T>>, lo: nat, hi: nat, n: nat, tag: T -> nat, t: nat) {
    && lo < n <= |w| && hi < n
    && forall i :: 0 <= i < n ==> AtMost(w[lo], w[i], tag, t) && AtMost(w[i], w[hi], tag, t)
  }

  /** std::minmax_element, which takes the blocks in pairs and compares the later one of a pair
      with the earlier one. */
  method MinMaxElement<T(!new)>(w: seq<Block<T>>, tag: T -> nat, t: nat) returns (lo: nat, hi: nat)
    requires w != []
    ensures Extreme(w, lo, hi, |w|, tag, t)
  {
    lo, hi := 0, 0;
    if |w| == 1 {
      return;
    }
    if Below(w[1], w[0], tag, t) { lo := 1; } else { hi := 1; }
    var i := 2;
    while i < |w|
      invariant 2 <= i <= |w| && Extreme(w, lo, hi, i, tag, t)
    {
      if i + 1 == |w| {
        if Below(w[i], w[lo], tag, t) { lo := i; } else if !Below(w[i], w[hi], tag, t) { hi := i; }
        return;
      }
      if Below(w[i + 1], w[i], tag, t) {
        if Below(w[i + 1], w[lo], tag, t) { lo := i + 1; }
        if !Below(w[i], w[hi], tag, t) { hi := i; }
      } else {
        if Below(w[i], w[lo], tag, t) { lo := i; }
        if !Below(w[i + 1], w[hi], tag, t) { hi := i + 1; }
      }
      i := i + 2;
    }
  }

  /** The way a fill writes: the largest block if it has the tag, else the smallest. */
  lemma {:induction false} ChosenWay<T(!new)>(w: seq<Block<T>>, tag: T -> nat, miss: nat, hit: nat, t: nat)
    requires w != [] && Extreme(w, miss, hit, |w|, tag, t)
    ensures Replaceable(w, tag, if tag(w[hit].data) == t then hit else miss, t)
  {
  }

  // ---- the table ----

  lemma Apart(a: nat, b: nat, n: nat)
    requires a < b
    ensures a * n + n <= b * n
  {
    var d: nat := b - a - 1;
    assert d * n >= 0;
    assert d * n == b * n - a * n - n;
  }

  class LruTable<T(!new, ==)> {
    const setOf: T -> nat
    const tagOf: T -> nat
    const sets: nat
    const ways: nat
    const empty: T
    const block: array<Block<T>>
    var accessCount: nat

    ghost predicate Shaped() {
      sets > 0 && block.Length == sets * ways
    }

    lemma Span(s: nat)
      requires Shaped() && s < sets
      ensures 0 <= s * ways <= s * ways + ways <= block.Length
      ensures forall r: nat :: r < sets && r != s ==> r * ways + ways <= s * ways || s * ways + ways <= r * ways
    {
      Apart(s, sets, ways);
      forall r: nat | r < sets && r != s ensures r * ways + ways <= s * ways || s * ways + ways <= r * ways {
        if r < s { Apart(r, s, ways); } else { Apart(s, r, ways); }
      }
    }

    /** The ways of set `s`. */
    ghost function Ways(s: nat): (w: seq<Block<T>>)
      requires Shaped() && s < sets
      reads block
      ensures |w| == ways
    {
      Span(s);
      block[s * ways..s * ways + ways]
    }

    function SetOf(elem: T): (s: nat)
      requires sets > 0
      ensures s < sets
    {
      setOf(elem) % sets
    }

    /** What any sequence of operations keeps. */
    ghost predicate Valid()
      reads this, block
    {
      Shaped() && forall s :: 0 <= s < sets ==> SetValid(s)
    }

    ghost predicate SetValid(s: nat)
      requires Shaped() && s < sets
      reads this, block
    {
      && Distinct(Ways(s), tagOf)
      && (forall i :: 0 <= i < ways ==> Ways(s)[i].lastUsed <= accessCount)
      && (forall i :: 0 <= i < ways && Usable(Ways(s)[i]) ==> SetOf(Ways(s)[i].data) == s)
    }

    /** The table as recency lists. */
    ghost function Recent(s: nat): seq<Block<T>>
      requires Shaped() && s < sets
      reads block
    {
      Recency(Ways(s))
    }

    constructor (sets: nat, ways: nat, setOf: T -> nat, tagOf: T -> nat, empty: T)
      requires sets > 0
      ensures Valid() && this.sets == sets && this.ways == ways && this.setOf == setOf && this.tagOf == tagOf
      ensures forall s :: 0 <= s < sets ==> Recent(s) == []
      ensures fresh(block)
    {
      this.sets, this.ways, this.setOf, this.tagOf, this.empty := sets, ways, setOf, tagOf, empty;
      assert sets * ways >= 0;
      block := new Block<T>[sets * ways](_ => Block(0, empty));
      accessCount := 0;
      new;
      forall s | 0 <= s < sets ensures Recent(s) == [] && SetValid(s) {
        var w := Ways(s);
        Span(s);
        assert forall k :: 0 <= k < |w| ==> w[k] == Block(0, empty);
        NothingRecent(w);
      }
    }

    /** std::find_if with the matching predicate. */
    method FindMatch(s: nat, t: nat) returns (k: nat)
      requires Shaped() && s < sets
      ensures k <= ways
      ensures k < ways ==> Usable(Ways(s)[k]) && tagOf(Ways(s)[k].data) == t
      ensures k == ways ==> forall i :: 0 <= i < ways && Usable(Ways(s)[i]) ==> tagOf(Ways(s)[i].data) != t
    {
      Span(s);
      k := 0;
      while k < ways
        invariant k <= ways
        invariant forall i :: 0 <= i < k && Usable(Ways(s)[i]) ==> tagOf(Ways(s)[i].data) != t
      {
        var b := block[s * ways + k];
        assert b == Ways(s)[k];
        if Usable(b) && tagOf(b.data) == t {
          return;
        }
        k := k + 1;
      }
    }

    method Write(s: nat, k: nat, b: Block<T>)
      requires Shaped() && s < sets && k < ways
      modifies block
      ensures Ways(s) == old(Ways(s))[k := b]
      ensures forall r :: 0 <= r < sets && r != s ==> Ways(r) == old(Ways(r))
    {
      Span(s);
      block[s * ways + k] := b;
      forall r | 0 <= r < sets && r != s ensures Ways(r) == old(Ways(r)) { Span(r); }
    }

    /** Put `data` into way `k` as the most recently used. */
    method Place(s: nat, k: nat, data: T)
      requires Valid() && s < sets && k < ways && SetOf(data) == s && Replaceable(Ways(s), tagOf, k, tagOf(data))
      modifies this`accessCount, block
      ensures Valid() && accessCount == old(accessCount) + 1
      ensures Recent(s) == Filled(old(Recent(s)), ways, tagOf, Block(accessCount, data))
      ensures forall q :: 0 <= q < sets && q != s ==> Recent(q) == old(Recent(q))
    {
      hide Replaceable, Filled, Recency;
      assert SetValid(s);
      ghost var w := Ways(s);
      accessCount := accessCount + 1;
      var b := Block(accessCount, data);
      FillRefines(w, tagOf, k, b);
      Write(s, k, b);
      forall q | 0 <= q < sets ensures SetValid(q) { assert old(SetValid(q)) && old(SetValid(s)); }
    }

    /** A hit is remembered as the most recent use; a miss changes nothing. */
    method CheckHit(elem: T) returns (r: Option<T>)
      requires Valid()
      modifies this`accessCount, block
      ensures Valid()
      ensures r.Some? <==> Holds(old(Recent(SetOf(elem))), tagOf, tagOf(elem))
      ensures accessCount == old(accessCount) + (if r.Some? then 1 else 0)
      ensures Recent(SetOf(elem)) == (if r.Some?
        then Touched(old(Recent(SetOf(elem))), tagOf, Block(accessCount, r.value)) else old(Recent(SetOf(elem))))
      ensures r.Some? ==> tagOf(r.value) == tagOf(elem)
      ensures forall q :: 0 <= q < sets && q != SetOf(elem) ==> Recent(q) == old(Recent(q))
    {
      var s, t := SetOf(elem), tagOf(elem);
      assert SetValid(s);
      var k := FindMatch(s, t);
      Matching(Ways(s), tagOf, k, t);
      r := None;
      if k < ways {
        Span(s);
        var hit := block[s * ways + k];
        assert hit == Ways(s)[k];
        hide Recency;
        Place(s, k, hit.data);
        r := Some(hit.data);
      }
    }

    /** The element becomes the most recent of its set, in place of the block with its tag,
        of an unused block, or of exactly the least recently used one. */
    method Fill(elem: T)
      requires Valid()
      modifies this`accessCount, block
      ensures Valid() && accessCount == old(accessCount) + (if ways == 0 then 0 else 1)
      ensures Recent(SetOf(elem)) == Filled(old(Recent(SetOf(elem))), ways, tagOf, Block(accessCount, elem))
      ensures forall q :: 0 <= q < sets && q != SetOf(elem) ==> Recent(q) == old(Recent(q))
    {
      var s, t := SetOf(elem), tagOf(elem);
      if ways > 0 {
        Span(s);
        var miss, hit := MinMaxElement(block[s * ways..s * ways + ways], tagOf, t);
        ChosenWay(Ways(s), tagOf, miss, hit, t);
        var k := if tagOf(block[s * ways + hit].data) == t then hit else miss;
        hide Recency, Extreme, Filled;
        Place(s, k, elem);
      }
    }

    /** Invalidation removes the element's tag from its set, if it was there. */
    method Invalidate(elem: T) returns (r: Option<T>)
      requires Valid()
      modifies block
      ensures Valid()
      ensures var s, t := SetOf(elem), tagOf(elem);
        && (r.Some? <==> Holds(old(Recent(s)), tagOf, t))
        && (r.Some? ==> tagOf(r.value) == t)
        && Recent(s) == Without(old(Recent(s)), tagOf, t)
      ensures forall q :: 0 <= q < sets && q != SetOf(elem) ==> Recent(q) == old(Recent(q))
    {
      var s, t := SetOf(elem), tagOf(elem);
      assert SetValid(s);
      var k := FindMatch(s, t);
      ghost var w := Ways(s);
      Matching(w, tagOf, k, t);
      r := None;
      if k < ways {
        Span(s);
        var hit := block[s * ways + k];
        assert hit == w[k];
        DropRefines(w, tagOf, k, Block(0, empty));
        Write(s, k, Block(0, empty));
        forall q | 0 <= q < sets ensures SetValid(q) { assert old(SetValid(q)) && old(SetValid(s)); }
        r := Some(hit.data);
      } else {
        WithoutNothing(Recent(s), tagOf, t);
      }
    }
  }
}
