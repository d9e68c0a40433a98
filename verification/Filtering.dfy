/** What it means for a list to be another one with some elements left out: the order stays. */
module Filtering {

  /** `f` says where in `s` each element of `r` stands. */
  ghost predicate Places<T>(f: seq<nat>, r: seq<T>, s: seq<T>)
  {
    && |f| == |r|
    && (forall i :: 0 <= i < |f| ==> f[i] < |s| && s[f[i]] == r[i])
    && (forall i, j :: 0 <= i < j < |f| ==> f[i] < f[j])
  }

  /** The elements of `r` stand in `s`, in the same order. */
  ghost predicate InOrder<T>(r: seq<T>, s: seq<T>) { exists f: seq<nat> :: Places(f, r, s) }

  lemma NothingInOrder<T>(s: seq<T>)
    ensures InOrder([], s)
  {
    assert Places([], [], s);
  }

  lemma {:induction false} OneMoreInOrder<T>(r: seq<T>, s: seq<T>)
    requires 0 < |s| && InOrder(r, s[1..])
    ensures InOrder(r, s) && InOrder([s[0]] + r, s)
  {
    var f :| Places(f, r, s[1..]);
    var g: seq<nat> := seq(|f|, i requires 0 <= i < |f| => f[i] + 1);
    assert Places(g, r, s);
    assert Places([0] + g, [s[0]] + r, s);
  }
}
