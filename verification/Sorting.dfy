/** The contract of the library call `sort.Slice(slice, less)`: the slice is rearranged in place so that no
    element comes before one it should follow. Elements that compare equal may end up in any order. */
module Sorting {

  ghost predicate StrictOrder<T(!new)>(less: (T, T) -> bool)
  {
    && (forall x :: !less(x, x))
    && (forall x, y, z :: less(x, y) && less(y, z) ==> less(x, z))
  }

  ghost predicate SortedBy<T>(less: (T, T) -> bool, s: seq<T>)
  {
    forall i, j :: 0 <= i < j < |s| ==> !less(s[j], s[i])
  }

  /** `s` lists every element of `elements` once. */
  ghost predicate Lists<T(!new)>(s: seq<T>, elements: set<T>)
  {
    && (forall i, j :: 0 <= i < j < |s| ==> s[i] != s[j])
    && (forall x :: x in elements <==> x in s)
  }

  method SortSlice<T(!new)>(s: seq<T>, less: (T, T) -> bool) returns (r: seq<T>)
    requires StrictOrder(less)
    ensures SortedBy(less, r)
    ensures multiset(r) == multiset(s)
  {
    r := [];
    for n := 0 to |s|
      invariant SortedBy(less, r)
      invariant multiset(r) == multiset(s[..n])
    {
      assert s[..n + 1] == s[..n] + [s[n]];
      InsertKeepsOrder(less, r, s[n]);
      r := Insert(less, r, s[n]);
    }
    assert s[..|s|] == s;
  }

  function Insert<T>(less: (T, T) -> bool, s: seq<T>, x: T): seq<T>
  {
    if s == [] || less(x, s[0]) then [x] + s else [s[0]] + Insert(less, s[1..], x)
  }

  lemma {:induction false} InsertKeepsOrder<T(!new)>(less: (T, T) -> bool, s: seq<T>, x: T)
    requires StrictOrder(less)
    requires SortedBy(less, s)
    ensures SortedBy(less, Insert(less, s, x))
    ensures multiset(Insert(less, s, x)) == multiset(s) + multiset{x}
  {
    if s == [] {
    } else if less(x, s[0]) {
      assert forall j :: 0 <= j < |s| ==> less(s[j], x) ==> less(s[j], s[0]);
    } else {
      InsertKeepsOrder(less, s[1..], x);
      assert s == [s[0]] + s[1..];
      PrependKeepsOrder(less, s, Insert(less, s[1..], x), x);
    }
  }

  lemma {:induction false} PrependKeepsOrder<T(!new)>(less: (T, T) -> bool, s: seq<T>, t: seq<T>, x: T)
    requires 0 < |s| && SortedBy(less, s) && SortedBy(less, t)
    requires !less(x, s[0]) && multiset(t) == multiset(s[1..]) + multiset{x}
    ensures SortedBy(less, [s[0]] + t)
  {
    forall k | 0 <= k < |t| ensures !less(t[k], s[0]) {
      assert t[k] in multiset(t);
      assert t[k] == x || t[k] in s[1..];
    }
  }

  /** A rearrangement of a listing is a listing of the same elements. */
  lemma {:induction false} ListsPermuted<T(!new)>(s: seq<T>, t: seq<T>, elements: set<T>)
    requires Lists(s, elements)
    requires multiset(s) == multiset(t)
    ensures Lists(t, elements)
  {
    forall x ensures x in elements <==> x in t {
      assert x in s <==> x in multiset(s);
      assert x in t <==> x in multiset(t);
    }
    forall i, j | 0 <= i < j < |t| ensures t[i] != t[j] {
      if t[i] == t[j] {
        OccursTwice(t, i, j);
        OccursOnce(s, t[i]);
      }
    }
  }

  lemma {:induction false} OccursTwice<T(!new)>(t: seq<T>, i: nat, j: nat)
    requires i < j < |t| && t[i] == t[j]
    ensures 2 <= multiset(t)[t[i]]
  {
    assert t == t[..j] + [t[j]] + t[j + 1..];
    assert t[..j][i] == t[i];
    assert t[i] in t[..j];
  }

  lemma {:induction false} OccursOnce<T(!new)>(s: seq<T>, x: T)
    requires forall i, j :: 0 <= i < j < |s| ==> s[i] != s[j]
    ensures multiset(s)[x] <= 1
  {
    if s != [] {
      assert s == [s[0]] + s[1..];
      OccursOnce(s[1..], x);
      if s[0] == x {
        assert x !in s[1..];
      }
    }
  }
}
