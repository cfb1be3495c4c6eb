/** Sequence helpers shared by every model: the bandwidth-limited spans of
    inc/util/span.h, and counting. */
module Sequences {
  datatype Option<+T> = None | Some(value: T)

  function Min(a: int, b: int): int {
    if a < b then a else b
  }

  function Max(a: int, b: int): int {
    if a < b then b else a
  }

  /** The length of the span `get_span_p(begin, end, bandwidth, p)` selects:
      the longest prefix of at most `width` elements that all satisfy `p`. */
  function SpanLen<T>(s: seq<T>, width: nat, p: T -> bool): (n: nat)
    ensures n <= |s| && n <= width
    ensures forall i :: 0 <= i < n ==> p(s[i])
    ensures n < |s| && n < width ==> !p(s[n])
  {
    if s == [] || width == 0 || !p(s[0]) then 0 else 1 + SpanLen(s[1..], width - 1, p)
  }

  /** How many elements satisfy `p` (std::count_if). */
  function CountIf<T>(s: seq<T>, p: T -> bool): (n: nat)
    ensures n <= |s|
  {
    if s == [] then 0 else (if p(s[0]) then 1 else 0) + CountIf(s[1..], p)
  }

  lemma {:induction false} CountIfAppend<T>(s: seq<T>, t: seq<T>, p: T -> bool)
    ensures CountIf(s + t, p) == CountIf(s, p) + CountIf(t, p)
  {
    if s == [] {
      assert s + t == t;
    } else {
      assert (s + t)[1..] == s[1..] + t;
      CountIfAppend(s[1..], t, p);
    }
  }

  lemma {:induction false} CountIfUpdate<T>(s: seq<T>, i: nat, v: T, p: T -> bool)
    requires i < |s|
    ensures CountIf(s[i := v], p) == CountIf(s, p) - (if p(s[i]) then 1 else 0) + (if p(v) then 1 else 0)
  {
    if i > 0 {
      assert s[i := v][1..] == s[1..][i - 1 := v];
      CountIfUpdate(s[1..], i - 1, v, p);
    } else {
      assert s[i := v][1..] == s[1..];
    }
  }

  /** An element that satisfies `p` is counted. */
  lemma {:induction false} CountIfPositive<T>(s: seq<T>, i: nat, p: T -> bool)
    requires i < |s| && p(s[i])
    ensures CountIf(s, p) > 0
  {
    if i > 0 { CountIfPositive(s[1..], i - 1, p); }
  }

  lemma {:induction false} CountIfWitness<T>(s: seq<T>, p: T -> bool) returns (i: nat)
    requires CountIf(s, p) > 0
    ensures i < |s| && p(s[i])
  {
    if p(s[0]) {
      i := 0;
    } else {
      i := CountIfWitness(s[1..], p);
      i := i + 1;
    }
  }

  /** Two predicates that agree pointwise count the same. */
  lemma {:induction false} CountIfAgree<T>(s: seq<T>, t: seq<T>, p: T -> bool, q: T -> bool)
    requires |s| == |t|
    requires forall i :: 0 <= i < |s| ==> p(s[i]) == q(t[i])
    ensures CountIf(s, p) == CountIf(t, q)
  {
    if s != [] {
      assert forall i :: 0 <= i < |s[1..]| ==> s[1..][i] == s[i + 1] && t[1..][i] == t[i + 1];
      CountIfAgree(s[1..], t[1..], p, q);
    }
  }

  // ---- scans with a bandwidth ----

  /** Visit the elements in order from `i`; act on those that can, while bandwidth is left. */
  function Scan<T>(s: seq<T>, i: nat, bw: nat, can: (nat, T) -> bool, act: T -> T): (r: seq<T>)
    requires i <= |s|
    ensures |r| == |s|
    decreases |s| - i
  {
    if i == |s| || bw == 0 then s
    else if can(i, s[i]) then Scan(s[i := act(s[i])], i + 1, bw - 1, can, act)
    else Scan(s, i + 1, bw, can, act)
  }

  /** How many of the first `n` elements can. */
  ghost function Able<T>(s: seq<T>, n: nat, can: (nat, T) -> bool): (c: nat)
    requires n <= |s|
    ensures c <= n
  {
    if n == 0 then 0 else Able(s, n - 1, can) + (if can(n - 1, s[n - 1]) then 1 else 0)
  }

  /** A scan acts on exactly the first `bw` elements that can. */
  lemma {:induction false} ScanActs<T>(s: seq<T>, i: nat, bw: nat, can: (nat, T) -> bool, act: T -> T, s0: seq<T>,
      total: nat)
    requires i <= |s| == |s0| && s[i..] == s0[i..] && Able(s0, i, can) + bw >= total
    requires bw > 0 ==> Able(s0, i, can) + bw == total
    ensures var r := Scan(s, i, bw, can, act);
      && r[..i] == s[..i]
      && forall k :: i <= k < |s| ==> r[k] == if can(k, s0[k]) && Able(s0, k, can) < total then act(s0[k]) else s0[k]
    decreases |s| - i
  {
    if i < |s| {
      assert s[i] == s[i..][0] == s0[i..][0] == s0[i];
      assert s[i + 1..] == s[i..][1..] == s0[i..][1..] == s0[i + 1..];
      if bw > 0 {
        var u := if can(i, s[i]) then s[i := act(s[i])] else s;
        var next := if can(i, s[i]) then bw - 1 else bw;
        var r := Scan(u, i + 1, next, can, act);
        assert Scan(s, i, bw, can, act) == r;
        ScanActs(u, i + 1, next, can, act, s0, total);
        assert r[..i] == r[..i + 1][..i] == s[..i];
        assert r[i] == r[..i + 1][i] == u[i];
      } else {
        forall k | i <= k < |s| ensures s[k] == s0[k] && Able(s0, k, can) >= total {
          assert s[k] == s[i..][k - i] == s0[i..][k - i];
          AbleGrows(s0, i, k, can);
        }
      }
    }
  }

  lemma {:induction false} AbleGrows<T>(s: seq<T>, m: nat, n: nat, can: (nat, T) -> bool)
    requires m <= n <= |s|
    ensures Able(s, m, can) <= Able(s, n, can)
  {
    if m < n { AbleGrows(s, m, n - 1, can); }
  }
}
