/** The ratio array `[2, 3, 5]` that every subdivision shuffles, and the total
    `ratios.reduce((a, b) => a + b, 0)` that scales each section. */
module Ratios {

  /** The left fold `reduce((a, b) => a + b, 0)`: the last element is added last. */
  function Sum(s: seq<int>): int
  {
    if |s| == 0 then 0 else Sum(s[..|s| - 1]) + s[|s| - 1]
  }

  /** The array literal that both axes start from before shuffling. */
  const Base: seq<int> := [2, 3, 5]

  /** `r` is some ordering of the three ratios 2, 3 and 5. */
  predicate IsRatioPerm(r: seq<int>)
  {
    |r| == 3 && multiset(r) == multiset(Base)
  }

  /** Three positive parts totalling 10: what the geometry relies on. */
  predicate Proportions(r: seq<int>)
  {
    |r| == 3 && Sum(r) == 10 && r[0] > 0 && r[1] > 0 && r[2] > 0
  }

  lemma {:induction false} SumConcat(a: seq<int>, b: seq<int>)
    ensures Sum(a + b) == Sum(a) + Sum(b)
    decreases |b|
  {
    if |b| == 0 {
      assert a + b == a;
    } else {
      var b' := b[..|b| - 1];
      assert (a + b)[..|a + b| - 1] == a + b';
      SumConcat(a, b');
    }
  }

  /** Summation ignores order: two orderings of the same multiset have the same sum. */
  lemma {:induction false} SumOfPermutation(a: seq<int>, b: seq<int>)
    requires multiset(a) == multiset(b)
    ensures Sum(a) == Sum(b)
    decreases |a|
  {
    if |a| == 0 {
      assert |b| == |multiset(b)| == 0;
    } else {
      var a' := a[..|a| - 1];
      var x := a[|a| - 1];
      assert a == a' + [x];
      assert x in multiset(b) by { assert x in multiset(a); }
      var i :| 0 <= i < |b| && b[i] == x;
      var b' := b[..i] + b[i + 1..];
      assert b == b[..i] + [x] + b[i + 1..];
      assert multiset(b) == multiset(b[..i]) + multiset{x} + multiset(b[i + 1..]);
      assert multiset(b') == multiset(b[..i]) + multiset(b[i + 1..]);
      assert multiset(a) == multiset(a') + multiset{x};
      assert multiset(a') == multiset(a) - multiset{x} == multiset(b) - multiset{x} == multiset(b');
      SumOfPermutation(a', b');
      SumConcat(b[..i] + [x], b[i + 1..]);
      SumConcat(b[..i], [x]);
      SumConcat(b[..i], b[i + 1..]);
      assert Sum([x]) == x by { assert [x][..0] == []; }
    }
  }

  /** Whatever the order, the ratios total 10, every entry is 2, 3 or 5, and
      exactly one entry is 5. */
  lemma RatioPermFacts(r: seq<int>)
    requires IsRatioPerm(r)
    ensures Sum(r) == 10
    ensures forall k :: 0 <= k < |r| ==> r[k] == 2 || r[k] == 3 || r[k] == 5
    ensures multiset(r)[5] == 1
    ensures Proportions(r)
  {
    SumOfPermutation(r, Base);
    assert Sum([2]) == 2 by { assert [2][..0] == []; }
    assert Sum([2, 3]) == 5 by { assert [2, 3][..1] == [2]; }
    assert Sum(Base) == 10 by { assert Base[..2] == [2, 3]; }
    forall k | 0 <= k < |r|
      ensures r[k] == 2 || r[k] == 3 || r[k] == 5
    {
      assert r[k] in multiset(r);
      assert r[k] in multiset(Base);
    }
    assert multiset(Base) == multiset{2, 3, 5};
  }

  /** An ordering of 2, 3, 5 holds three distinct entries from {2, 3, 5}. */
  lemma RatioPermElements(r: seq<int>)
    requires IsRatioPerm(r)
    ensures r[0] in {2, 3, 5} && r[1] in {2, 3, 5} && r[2] in {2, 3, 5}
    ensures r[0] != r[1] && r[1] != r[2] && r[0] != r[2]
  {
    RatioPermFacts(r);
    assert r == [r[0], r[1], r[2]];
    assert multiset(r) == multiset{r[0], r[1], r[2]};
    assert multiset(Base) == multiset{2, 3, 5};
  }
}
