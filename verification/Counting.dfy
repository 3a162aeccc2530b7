/** Counting the elements of a sequence that satisfy a predicate. */
module Counting {

  function Count<T>(s: seq<T>, p: T -> bool): nat {
    if s == [] then 0 else Count(s[..|s| - 1], p) + if p(s[|s| - 1]) then 1 else 0
  }

  lemma CountAppend<T>(s: seq<T>, x: T, p: T -> bool)
    ensures Count(s + [x], p) == Count(s, p) + if p(x) then 1 else 0
  {
    assert (s + [x])[..|s|] == s;
  }

  lemma {:induction false} CountUpdate<T>(s: seq<T>, i: nat, x: T, p: T -> bool)
    requires i < |s|
    ensures Count(s[i := x], p) + (if p(s[i]) then 1 else 0) == Count(s, p) + if p(x) then 1 else 0
  {
    var n := |s| - 1;
    if i == n {
      assert s[i := x][..n] == s[..n];
    } else {
      assert s[i := x][..n] == s[..n][i := x];
      CountUpdate(s[..n], i, x, p);
    }
  }

  /** A set of positions that all satisfy p is no larger than the count. */
  lemma {:induction false} CountCovers<T>(s: seq<T>, ids: set<nat>, p: T -> bool)
    requires forall i :: i in ids ==> i < |s| && p(s[i])
    ensures |ids| <= Count(s, p)
  {
    if s == [] {
      assert ids == {};
    } else {
      var n := |s| - 1;
      CountCovers(s[..n], ids - {n}, p);
      assert n in ids ==> ids == (ids - {n}) + {n};
      assert n !in ids ==> ids == ids - {n};
    }
  }

  lemma {:induction false} CountAll<T>(s: seq<T>, p: T -> bool)
    ensures Count(s, p) <= |s|
    ensures Count(s, p) == |s| <==> forall i :: 0 <= i < |s| ==> p(s[i])
  {
    if s != [] {
      var n := |s| - 1;
      CountAll(s[..n], p);
      if forall i :: 0 <= i < |s| ==> p(s[i]) {
        assert forall i :: 0 <= i < n ==> p(s[..n][i]);
      }
      if Count(s, p) == |s| {
        assert forall i :: 0 <= i < n ==> s[i] == s[..n][i];
      }
    }
  }
}
