/** The pipeline delivers every instruction exactly once and in program order,
    although decoding splits it into two buffers and merges them again. */
module PipelineOrder {
  import opened Sequences
  import opened Instructions
  import opened FrontEnd

  /** What identifies an instruction throughout the pipeline: its id and operands. Once it has
      been read from the input queue none of it changes. */
  datatype Tag = Tag(id: nat, srcMem: seq<nat>, dstMem: seq<nat>, archSrc: seq<Reg>, archDst: seq<Reg>)

  function TagOf(x: Instr): Tag { Tag(x.id, x.srcMem, x.dstMem, x.archSrc, x.archDst) }

  function Tags(s: seq<Instr>): (r: seq<Tag>)
    ensures |r| == |s|
    ensures forall i :: 0 <= i < |s| ==> r[i] == TagOf(s[i])
  {
    seq(|s|, i requires 0 <= i < |s| => TagOf(s[i]))
  }

  ghost predicate Ordered(s: seq<Tag>) {
    forall i, j :: 0 <= i < j < |s| ==> s[i].id < s[j].id
  }

  function Merge(s: seq<Tag>, t: seq<Tag>): (r: seq<Tag>)
    ensures |r| == |s| + |t|
    decreases |s| + |t|
  {
    if s == [] then t else if t == [] then s
    else if t[0].id < s[0].id then [t[0]] + Merge(s, t[1..]) else [s[0]] + Merge(s[1..], t)
  }

  function Select(s: seq<Tag>, keep: seq<bool>, want: bool): (r: seq<Tag>)
    requires |s| == |keep|
    ensures |r| <= |s|
    ensures forall x :: x in r ==> x in s
  {
    if s == [] then [] else (if keep[0] == want then [s[0]] else []) + Select(s[1..], keep[1..], want)
  }

  lemma TagsAppend(s: seq<Instr>, t: seq<Instr>)
    ensures Tags(s + t) == Tags(s) + Tags(t)
  {
  }

  lemma {:induction false} MergeTags(s: seq<Instr>, t: seq<Instr>)
    ensures Tags(MergeById(s, t)) == Merge(Tags(s), Tags(t))
    decreases |s| + |t|
  {
    if s != [] && t != [] {
      if t[0].id < s[0].id {
        MergeTags(s, t[1..]);
        assert Tags(t)[1..] == Tags(t[1..]);
      } else {
        MergeTags(s[1..], t);
        assert Tags(s)[1..] == Tags(s[1..]);
      }
    }
  }

  lemma {:induction false} MergeMembers(s: seq<Tag>, t: seq<Tag>)
    ensures forall x :: x in Merge(s, t) <==> x in s || x in t
    decreases |s| + |t|
  {
    if s != [] && t != [] {
      if t[0].id < s[0].id {
        MergeMembers(s, t[1..]);
        assert t == [t[0]] + t[1..];
      } else {
        MergeMembers(s[1..], t);
        assert s == [s[0]] + s[1..];
      }
    }
  }

  /** If merging gives an ordered sequence, both parts were ordered and share no id. */
  lemma {:induction false} MergeOrdered(s: seq<Tag>, t: seq<Tag>)
    requires Ordered(Merge(s, t))
    ensures Ordered(s) && Ordered(t)
    ensures forall i, j :: 0 <= i < |s| && 0 <= j < |t| ==> s[i].id != t[j].id
    decreases |s| + |t|
  {
    if s != [] && t != [] {
      var m := Merge(s, t);
      MergeMembers(s, t);
      if t[0].id < s[0].id {
        assert m[1..] == Merge(s, t[1..]);
        MergeOrdered(s, t[1..]);
        MergeMembers(s, t[1..]);
        HeadBelow(m, s, t[1..]);
      } else {
        assert m[1..] == Merge(s[1..], t);
        MergeOrdered(s[1..], t);
        MergeMembers(s[1..], t);
        HeadBelow(m, s[1..], t);
      }
    }
  }

  lemma HeadBelow(m: seq<Tag>, s: seq<Tag>, t: seq<Tag>)
    requires Ordered(m) && m != [] && forall x :: x in m[1..] <==> x in s || x in t
    ensures forall i :: 0 <= i < |s| ==> m[0].id < s[i].id
    ensures forall i :: 0 <= i < |t| ==> m[0].id < t[i].id
  {
    forall x | x in m[1..] ensures m[0].id < x.id {
      var k :| 0 <= k < |m[1..]| && m[1..][k] == x;
      assert m[k + 1] == x;
    }
  }

  // ---- an ordered sequence is determined by its members ----

  ghost predicate Apart(s: seq<Tag>, t: seq<Tag>) {
    forall x, y :: x in s && y in t ==> x.id != y.id
  }

  /** Everything in `s` comes before everything in `t`. */
  ghost predicate AllBefore(s: seq<Tag>, t: seq<Tag>) {
    forall x, y :: x in s && y in t ==> x.id < y.id
  }

  lemma OrderedTail(s: seq<Tag>)
    requires Ordered(s) && s != []
    ensures Ordered(s[1..]) && AllBefore([s[0]], s[1..])
    ensures forall x :: x in s <==> x == s[0] || x in s[1..]
  {
    assert s == [s[0]] + s[1..];
  }

  lemma {:induction false} OrderedConcat(s: seq<Tag>, t: seq<Tag>)
    requires Ordered(s) && Ordered(t) && AllBefore(s, t)
    ensures Ordered(s + t)
  {
  }

  lemma {:induction false} SameMembers(s: seq<Tag>, t: seq<Tag>)
    requires Ordered(s) && Ordered(t) && forall x :: x in s <==> x in t
    ensures s == t
  {
    EmptyTogether(s, t);
    EmptyTogether(t, s);
    if s != [] && t != [] {
      OrderedTail(s);
      OrderedTail(t);
      assert s[0] in t && t[0] in s;
      assert s[0] == t[0];
      SameMembers(s[1..], t[1..]);
    }
  }

  lemma EmptyTogether(s: seq<Tag>, t: seq<Tag>)
    requires forall x :: x in t ==> x in s
    ensures s == [] ==> t == []
  {
    if t != [] { assert t[0] in t; }
  }

  lemma {:induction false} MergeIsOrdered(s: seq<Tag>, t: seq<Tag>)
    requires Ordered(s) && Ordered(t) && Apart(s, t)
    ensures Ordered(Merge(s, t))
    decreases |s| + |t|
  {
    if s != [] && t != [] {
      OrderedTail(s);
      OrderedTail(t);
      if t[0].id < s[0].id {
        MergeIsOrdered(s, t[1..]);
        MergeMembers(s, t[1..]);
        OrderedConcat([t[0]], Merge(s, t[1..]));
      } else {
        MergeIsOrdered(s[1..], t);
        MergeMembers(s[1..], t);
        assert s[0] in s && t[0] in t;
        OrderedConcat([s[0]], Merge(s[1..], t));
      }
    }
  }

  // ---- splitting a window over two buffers ----

  lemma {:induction false} SelectSplits(w: seq<Tag>, keep: seq<bool>)
    requires |keep| == |w| && Ordered(w)
    ensures Ordered(Select(w, keep, true)) && Ordered(Select(w, keep, false))
    ensures Apart(Select(w, keep, true), Select(w, keep, false))
    ensures forall x :: x in w <==> x in Select(w, keep, true) || x in Select(w, keep, false)
  {
    if w != [] {
      OrderedTail(w);
      SelectSplits(w[1..], keep[1..]);
      OrderedConcat([w[0]], Select(w[1..], keep[1..], keep[0]));
      assert Select(w, keep, !keep[0]) == Select(w[1..], keep[1..], !keep[0]);
    }
  }

  /** Entering a later window into both buffers extends their merge by the window. */
  lemma {:induction false} MergeExtends(s: seq<Tag>, t: seq<Tag>, w: seq<Tag>, keep: seq<bool>)
    requires |keep| == |w| && Ordered(w) && Ordered(s) && Ordered(t) && Apart(s, t) && AllBefore(s, w)
    requires AllBefore(t, w)
    ensures Merge(s + Select(w, keep, true), t + Select(w, keep, false)) == Merge(s, t) + w
  {
    var u, v := Select(w, keep, true), Select(w, keep, false);
    SelectSplits(w, keep);
    OrderedConcat(s, u);
    OrderedConcat(t, v);
    MergeIsOrdered(s, t);
    MergeMembers(s, t);
    OrderedConcat(Merge(s, t), w);
    MergeIsOrdered(s + u, t + v);
    MergeMembers(s + u, t + v);
    SameMembers(Merge(s + u, t + v), Merge(s, t) + w);
  }

  // ---- taking a prefix of both buffers ----

  /** The first `a` of `s` and `b` of `t` come before all the rest. */
  ghost predicate Earliest(s: seq<Tag>, t: seq<Tag>, a: nat, b: nat) {
    && a <= |s| && b <= |t|
    && (forall i, j :: 0 <= i < a && b <= j < |t| ==> s[i].id < t[j].id)
    && (forall i, j :: 0 <= i < b && a <= j < |s| ==> t[i].id < s[j].id)
  }

  lemma {:induction false} MergeConcat(s0: seq<Tag>, s1: seq<Tag>, t0: seq<Tag>, t1: seq<Tag>)
    requires Ordered(s0 + s1) && Ordered(t0 + t1) && Ordered(s0) && Ordered(s1) && Ordered(t0) && Ordered(t1)
    requires Apart(s0, t0) && Apart(s1, t1)
    requires AllBefore(s0, s1) && AllBefore(t0, t1) && AllBefore(s0, t1) && AllBefore(t0, s1)
    ensures Merge(s0 + s1, t0 + t1) == Merge(s0, t0) + Merge(s1, t1)
  {
    MergeIsOrdered(s0, t0);
    MergeMembers(s0, t0);
    MergeIsOrdered(s1, t1);
    MergeMembers(s1, t1);
    hide Ordered, Merge;
    OrderedConcat(Merge(s0, t0), Merge(s1, t1));
    assert Apart(s0 + s1, t0 + t1);
    MergeIsOrdered(s0 + s1, t0 + t1);
    MergeMembers(s0 + s1, t0 + t1);
    SameMembers(Merge(s0 + s1, t0 + t1), Merge(s0, t0) + Merge(s1, t1));
  }

  lemma PartsBefore(s: seq<Tag>, t: seq<Tag>, a: nat, b: nat)
    requires a <= |s| && b <= |t| && forall i, j :: 0 <= i < a && b <= j < |t| ==> s[i].id < t[j].id
    ensures AllBefore(s[..a], t[b..])
  {
    forall x, y | x in s[..a] && y in t[b..] ensures x.id < y.id {
      var i :| 0 <= i < a && s[..a][i] == x;
      var j :| 0 <= j < |t[b..]| && t[b..][j] == y;
      assert s[i] == x && t[b + j] == y;
    }
  }

  lemma {:induction false} MergeSplits(s: seq<Tag>, t: seq<Tag>, a: nat, b: nat)
    requires Ordered(s) && Ordered(t) && Apart(s, t) && Earliest(s, t, a, b)
    ensures Merge(s, t) == Merge(s[..a], t[..b]) + Merge(s[a..], t[b..])
  {
    PartsBefore(s, s, a, a);
    PartsBefore(t, t, b, b);
    PartsBefore(s, t, a, b);
    PartsBefore(t, s, b, a);
    hide Earliest, Merge, AllBefore;
    assert s == s[..a] + s[a..] && t == t[..b] + t[b..];
    assert Apart(s[..a], t[..b]);
    assert Apart(s[a..], t[b..]);
    MergeConcat(s[..a], s[a..], t[..b], t[b..]);
  }

  // ---- the three loops of decode_instruction ----

  lemma {:induction false} TakeDib(dib: seq<Instr>, dec: seq<Instr>, a: nat, b: nat)
    requires Earliest(Tags(dib), Tags(dec), a, b) && a < |dib| && Ordered(Tags(dec))
    requires b == |dec| || dib[a].id < dec[b].id
    ensures Earliest(Tags(dib), Tags(dec), a + 1, b)
  {
    forall j | b <= j < |dec| ensures Tags(dec)[b].id <= Tags(dec)[j].id { }
  }

  lemma {:induction false} TakeDec(dib: seq<Instr>, dec: seq<Instr>, a: nat, b: nat)
    requires Earliest(Tags(dib), Tags(dec), a, b) && b < |dec| && Ordered(Tags(dib))
    requires a == |dib| || dec[b].id < dib[a].id
    ensures Earliest(Tags(dib), Tags(dec), a, b + 1)
  {
    forall j | a <= j < |dib| ensures Tags(dib)[a].id <= Tags(dib)[j].id { }
  }

  ghost predicate Distinct(dib: seq<Instr>, dec: seq<Instr>) {
    && Ordered(Tags(dib)) && Ordered(Tags(dec))
    && forall i, j :: 0 <= i < |dib| && 0 <= j < |dec| ==> dib[i].id != dec[j].id
  }

  lemma {:induction false} BothLoopEarliest(dib: seq<Instr>, dec: seq<Instr>, c: Cursor, now: int)
    requires InRange(dib, dec, c) && Distinct(dib, dec) && Earliest(Tags(dib), Tags(dec), c.dib, c.dec)
    ensures var d := BothLoop(dib, dec, c, now); Earliest(Tags(dib), Tags(dec), d.dib, d.dec)
    decreases c.inorder
  {
    hide Earliest, Ordered, Tags;
    if c.dib < |dib| && c.dec < |dec| && c.inorder > 0 && c.decode > 0 {
      if dib[c.dib].id < dec[c.dec].id {
        TakeDib(dib, dec, c.dib, c.dec);
        BothLoopEarliest(dib, dec, c.(dib := c.dib + 1, inorder := c.inorder - 1), now);
      } else {
        TakeDec(dib, dec, c.dib, c.dec);
        BothLoopEarliest(dib, dec, c.(dec := c.dec + 1, inorder := c.inorder - 1, decode := c.decode - 1), now);
      }
    }
  }

  lemma {:induction false} DibLoopEarliest(dib: seq<Instr>, dec: seq<Instr>, c: Cursor, now: int)
    requires InRange(dib, dec, c) && Distinct(dib, dec) && Earliest(Tags(dib), Tags(dec), c.dib, c.dec)
    ensures var d := DibLoop(dib, dec, c, now); Earliest(Tags(dib), Tags(dec), d.dib, d.dec)
    decreases c.inorder
  {
    hide Earliest, Ordered, Tags;
    if c.dib < |dib| && c.inorder > 0 && (c.dec == |dec| || dib[c.dib].id < dec[c.dec].id) {
      TakeDib(dib, dec, c.dib, c.dec);
      DibLoopEarliest(dib, dec, c.(dib := c.dib + 1, inorder := c.inorder - 1), now);
    }
  }

  lemma {:induction false} DecodeLoopEarliest(dib: seq<Instr>, dec: seq<Instr>, c: Cursor, now: int)
    requires InRange(dib, dec, c) && Distinct(dib, dec) && Earliest(Tags(dib), Tags(dec), c.dib, c.dec)
    ensures var d := DecodeLoop(dib, dec, c, now); Earliest(Tags(dib), Tags(dec), d.dib, d.dec)
    decreases c.inorder
  {
    hide Earliest, Ordered, Tags;
    if c.dec < |dec| && c.inorder > 0 && c.decode > 0 && (c.dib == |dib| || dec[c.dec].id < dib[c.dib].id) {
      TakeDec(dib, dec, c.dib, c.dec);
      DecodeLoopEarliest(dib, dec, c.(dec := c.dec + 1, inorder := c.inorder - 1, decode := c.decode - 1), now);
    }
  }

  lemma {:induction false} MergedParts(dib: seq<Instr>, dec: seq<Instr>)
    requires Ordered(Merge(Tags(dib), Tags(dec)))
    ensures Distinct(dib, dec) && Apart(Tags(dib), Tags(dec))
  {
    var s, t := Tags(dib), Tags(dec);
    MergeOrdered(s, t);
    hide Merge, Ordered;
    forall i, j | 0 <= i < |dib| && 0 <= j < |dec| ensures dib[i].id != dec[j].id { assert s[i].id != t[j].id; }
  }

  lemma TagsSplit(s: seq<Instr>, k: nat)
    requires k <= |s|
    ensures Tags(s)[..k] == Tags(s[..k]) && Tags(s)[k..] == Tags(s[k..])
  {
  }

  /** What leaves the two buffers for dispatch is the oldest of them, in program order. */
  lemma {:induction false} DecodeTakesOldest(dib: seq<Instr>, dec: seq<Instr>, inorder: nat, decode: nat, now: int)
    requires Ordered(Merge(Tags(dib), Tags(dec)))
    ensures var c := DecodeSpan(dib, dec, inorder, decode, now);
      Merge(Tags(dib), Tags(dec)) == Merge(Tags(dib[..c.dib]), Tags(dec[..c.dec]))
        + Merge(Tags(dib[c.dib..]), Tags(dec[c.dec..]))
  {
    MergedParts(dib, dec);
    hide Merge, Ordered, Apart, Earliest, DecodeSpan, Tags;
    var c := DecodeSpan(dib, dec, inorder, decode, now);
    DecodeSpanEarliest(dib, dec, inorder, decode, now);
    MergeSplits(Tags(dib), Tags(dec), c.dib, c.dec);
    TagsSplit(dib, c.dib);
    TagsSplit(dec, c.dec);
  }

  lemma {:induction false} DecodeSpanEarliest(dib: seq<Instr>, dec: seq<Instr>, inorder: nat, decode: nat, now: int)
    requires Distinct(dib, dec)
    ensures var c := DecodeSpan(dib, dec, inorder, decode, now); Earliest(Tags(dib), Tags(dec), c.dib, c.dec)
  {
    var c0 := Cursor(0, 0, inorder, decode);
    var c1 := BothLoop(dib, dec, c0, now);
    assert Earliest(Tags(dib), Tags(dec), 0, 0);
    hide Earliest, BothLoop, DibLoop, DecodeLoop, Distinct;
    BothLoopEarliest(dib, dec, c0, now);
    DibLoopEarliest(dib, dec, c1, now);
    DecodeLoopEarliest(dib, dec, DibLoop(dib, dec, c1, now), now);
  }

  // ---- promote_to_decode ----

  function Decoded(s: seq<Instr>): (keep: seq<bool>)
    ensures |keep| == |s|
  {
    seq(|s|, i requires 0 <= i < |s| => s[i].front.decoded)
  }

  lemma {:induction false} FilterTags(s: seq<Instr>, decoded: bool)
    ensures Tags(Filter(s, decoded)) == Select(Tags(s), Decoded(s), decoded)
  {
    if s != [] {
      FilterTags(s[1..], decoded);
      assert Decoded(s)[1..] == Decoded(s[1..]);
      assert Tags(s)[1..] == Tags(s[1..]);
      TagsAppend(if s[0].front.decoded == decoded then [s[0]] else [], Filter(s[1..], decoded));
    }
  }

  lemma {:induction false} OrderedParts(m: seq<Tag>, u: seq<Tag>)
    requires Ordered(m + u)
    ensures Ordered(m) && Ordered(u) && AllBefore(m, u)
  {
    assert forall i :: 0 <= i < |m| ==> (m + u)[i] == m[i];
    assert forall i :: 0 <= i < |u| ==> (m + u)[|m| + i] == u[i];
    forall x, y | x in m && y in u ensures x.id < y.id {
      var k :| 0 <= k < |m| && m[k] == x;
      var l :| 0 <= l < |u| && u[l] == y;
      assert (m + u)[k] == x && (m + u)[|m| + l] == y;
    }
  }

  /** What is before a merge is before both its parts. */
  lemma {:induction false} MergePartsBefore(s: seq<Tag>, t: seq<Tag>, u: seq<Tag>)
    requires AllBefore(Merge(s, t), u)
    ensures AllBefore(s, u) && AllBefore(t, u)
  {
    MergeMembers(s, t);
    hide Merge;
  }

  lemma {:induction false} EnterTags(buffer: seq<Instr>, w: seq<Instr>, decoded: bool, at: int)
    ensures Tags(buffer + ReadyAt(Filter(w, decoded), at)) == Tags(buffer) + Select(Tags(w), Decoded(w), decoded)
  {
    FilterTags(w, decoded);
    hide Filter, Select;
    assert Tags(ReadyAt(Filter(w, decoded), at)) == Tags(Filter(w, decoded));
    TagsAppend(buffer, ReadyAt(Filter(w, decoded), at));
  }

  /** Promoting a window keeps the program order seen through the merge. */
  lemma {:induction false} PromoteKeepsOrder(dib: seq<Instr>, dec: seq<Instr>, w: seq<Instr>, at: int, later: int)
    requires Ordered(Merge(Tags(dib), Tags(dec)) + Tags(w))
    ensures Merge(Tags(dib + ReadyAt(Filter(w, true), at)), Tags(dec + ReadyAt(Filter(w, false), later)))
         == Merge(Tags(dib), Tags(dec)) + Tags(w)
  {
    var s, t, u := Tags(dib), Tags(dec), Tags(w);
    OrderedParts(Merge(s, t), u);
    MergedParts(dib, dec);
    MergePartsBefore(s, t, u);
    EnterTags(dib, w, true, at);
    EnterTags(dec, w, false, later);
    hide Merge, Ordered, Apart, AllBefore, Filter, ReadyAt, Tags, Select, Decoded;
    MergeExtends(s, t, u, Decoded(w));
  }
}
