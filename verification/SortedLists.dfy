/** Sorted lists without duplicates and their union (std::set_union), as used to merge
    dependent instructions and return targets. */
module SortedLists {
  ghost predicate Sorted(s: seq<nat>) {
    forall i, j :: 0 <= i < j < |s| ==> s[i] < s[j]
  }

  function SetUnion(s: seq<nat>, t: seq<nat>): (u: seq<nat>)
    decreases |s| + |t|
  {
    if s == [] then t else if t == [] then s
    else if s[0] < t[0] then [s[0]] + SetUnion(s[1..], t)
    else if t[0] < s[0] then [t[0]] + SetUnion(s, t[1..])
    else [s[0]] + SetUnion(s[1..], t[1..])
  }

  lemma {:induction false} UnionMembers(s: seq<nat>, t: seq<nat>)
    ensures forall x :: x in SetUnion(s, t) <==> x in s || x in t
    decreases |s| + |t|
  {
    if s != [] && t != [] {
      assert s == [s[0]] + s[1..] && t == [t[0]] + t[1..];
      if s[0] < t[0] { UnionMembers(s[1..], t); }
      else if t[0] < s[0] { UnionMembers(s, t[1..]); }
      else { UnionMembers(s[1..], t[1..]); }
    }
  }

  lemma {:induction false} UnionSorted(s: seq<nat>, t: seq<nat>)
    requires Sorted(s) && Sorted(t)
    ensures Sorted(SetUnion(s, t))
    decreases |s| + |t|
  {
    if s != [] && t != [] {
      var s1 := if s[0] <= t[0] then s[1..] else s;
      var t1 := if t[0] <= s[0] then t[1..] else t;
      UnionMembers(s1, t1);
      UnionSorted(s1, t1);
      var u := SetUnion(s1, t1);
      forall k | 0 <= k < |u| ensures SetUnion(s, t)[0] < u[k] { assert u[k] in u; }
    }
  }
}
