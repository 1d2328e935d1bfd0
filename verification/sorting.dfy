/** Ascending sort of real sequences: the meaning of sort_unstable and sort_by in the sources. */
module Sorting {

  predicate IsSorted(s: seq<real>) {
    forall i, j :: 0 <= i < j < |s| ==> s[i] <= s[j]
  }

  function Insert(x: real, s: seq<real>): (r: seq<real>)
    requires IsSorted(s)
    ensures IsSorted(r) && multiset(r) == multiset(s) + multiset{x}
    ensures |r| == |s| + 1
  {
    if s == [] then [x]
    else if x <= s[0] then
      [x] + s
    else
      var t := Insert(x, s[1..]);
      HeadStaysLeast(s[0], s[1..], x, t);
      MembersUnderHead(s, x, t);
      [s[0]] + t
  }

  /** The two cases of Insert. */
  lemma {:induction false} InsertShape(x: real, s: seq<real>)
    requires IsSorted(s)
    ensures s == [] || x <= s[0] ==> Insert(x, s)[0] == x && Insert(x, s)[1..] == s
    ensures s != [] && x > s[0] ==> Insert(x, s)[0] == s[0] && Insert(x, s)[1..] == Insert(x, s[1..])
  {
  }

  lemma MembersUnderHead(s: seq<real>, x: real, t: seq<real>)
    requires s != [] && multiset(t) == multiset(s[1..]) + multiset{x}
    ensures multiset([s[0]] + t) == multiset(s) + multiset{x}
  {
    assert s == [s[0]] + s[1..];
  }

  lemma HeadStaysLeast(head: real, s: seq<real>, x: real, t: seq<real>)
    requires head <= x && forall i :: 0 <= i < |s| ==> head <= s[i]
    requires multiset(t) == multiset(s) + multiset{x}
    ensures forall i :: 0 <= i < |t| ==> head <= t[i]
  {
    forall i | 0 <= i < |t| ensures head <= t[i] {
      assert t[i] in multiset(t);
      assert t[i] == x || t[i] in s;
    }
  }

  function Sorted(s: seq<real>): (r: seq<real>)
    ensures IsSorted(r) && multiset(r) == multiset(s) && |r| == |s|
  {
    if s == [] then []
    else
      assert s == s[..|s| - 1] + [s[|s| - 1]];
      Insert(s[|s| - 1], Sorted(s[..|s| - 1]))
  }

  /** Any ascending rearrangement is Sorted(s), so the sort algorithm and its stability do not matter. */
  lemma {:induction false} SortedIsUnique(s: seq<real>, t: seq<real>)
    requires IsSorted(t) && multiset(t) == multiset(s)
    ensures t == Sorted(s)
  {
    SortedSeqsAgree(t, Sorted(s));
  }

  lemma {:induction false} SortedSeqsAgree(s: seq<real>, t: seq<real>)
    requires IsSorted(s) && IsSorted(t) && multiset(s) == multiset(t)
    ensures s == t
  {
    assert |multiset(s)| == |multiset(t)|;
    if s != [] {
      SameHeads(s, t);
      SameTails(s, t);
      SortedSeqsAgree(s[1..], t[1..]);
      assert s == [s[0]] + s[1..] && t == [t[0]] + t[1..];
    }
  }

  lemma SameHeads(s: seq<real>, t: seq<real>)
    requires s != [] && t != [] && IsSorted(s) && IsSorted(t) && multiset(s) == multiset(t)
    ensures s[0] == t[0]
  {
    SameMembers(s, t, s[0]);
    SameMembers(t, s, t[0]);
  }

  lemma SameTails(s: seq<real>, t: seq<real>)
    requires s != [] && t != [] && multiset(s) == multiset(t) && s[0] == t[0]
    ensures multiset(s[1..]) == multiset(t[1..])
  {
    MembersOfTail(s);
    MembersOfTail(t);
  }

  lemma MembersOfTail(s: seq<real>)
    requires s != []
    ensures multiset(s[1..]) == multiset(s) - multiset{s[0]}
  {
    assert s == [s[0]] + s[1..];
  }

  /** A value that bounds every element and is one of them is the corresponding end of the sorted sequence. */
  lemma SortedEnds(s: seq<real>, lo: real, hi: real)
    requires |s| > 0 && lo in s && hi in s
    requires forall x :: x in s ==> lo <= x <= hi
    ensures Sorted(s)[0] == lo && Sorted(s)[|s| - 1] == hi
  {
    hide Sorted;
    EndsAreMembers(s, Sorted(s));
    EndsBound(s, Sorted(s), lo);
    EndsBound(s, Sorted(s), hi);
  }

  lemma EndsAreMembers(s: seq<real>, r: seq<real>)
    requires |s| == |r| > 0 && multiset(s) == multiset(r)
    ensures r[0] in s && r[|r| - 1] in s
  {
    SameMembers(r, s, r[0]);
    SameMembers(r, s, r[|r| - 1]);
  }

  lemma EndsBound(s: seq<real>, r: seq<real>, x: real)
    requires |s| == |r| && multiset(s) == multiset(r) && IsSorted(r) && x in s
    ensures r[0] <= x <= r[|r| - 1]
  {
    SameMembers(s, r, x);
  }

  lemma SameMembers(s: seq<real>, t: seq<real>, x: real)
    requires multiset(s) == multiset(t) && x in s
    ensures x in t
  {
    assert x in multiset(s);
  }
}
