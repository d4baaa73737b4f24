/** `shuffleArray`: Durstenfeld's in-place Fisher–Yates
    shuffle. `Math.random()` is replaced by an explicit stream of draws. */
module Shuffle {
  import opened Ratios

  /** The k-th value `Math.random()` returns during a run. */
  type Stream = nat -> real

  /** `Math.random()` only ever returns values in [0, 1). */
  ghost predicate ValidStream(rng: Stream)
  {
    forall k: nat :: 0.0 <= rng(k) < 1.0
  }

  /** `Math.floor(Math.random() * (i + 1))`: the partner swapped with index `i`
      always lies in [0, i]. */
  function SwapIndex(u: real, i: nat): (j: nat)
    requires 0.0 <= u < 1.0
    ensures j <= i
  {
    var n := (i + 1) as real;
    assert 0.0 <= u * n < n by {
      assert u * n < 1.0 * n;
    }
    (u * n).Floor
  }

  /** The destructuring swap `[a[i], a[j]] = [a[j], a[i]]`. */
  function Swap<T>(a: seq<T>, i: nat, j: nat): (b: seq<T>)
    requires i < |a| && j < |a|
    ensures |b| == |a|
    ensures b[i] == a[j] && b[j] == a[i]
    ensures forall k :: 0 <= k < |a| && k != i && k != j ==> b[k] == a[k]
  {
    a[i := a[j]][j := a[i]]
  }

  /** A swap only reorders: the multiset of elements is unchanged. */
  lemma SwapPermutes<T>(a: seq<T>, i: nat, j: nat)
    requires i < |a| && j < |a|
    ensures multiset(Swap(a, i, j)) == multiset(a)
  {
  }

  /** The shuffle loop from index `i` down to 1, reading draws from `pos` on.
      Returns the array and the position of the next unread draw. */
  function ShuffleFrom<T>(a: seq<T>, i: int, rng: Stream, pos: nat): (r: (seq<T>, nat))
    requires ValidStream(rng)
    requires i < |a|
    ensures |r.0| == |a|
    ensures r.1 == pos + (if i > 0 then i else 0)
    decreases i
  {
    if i <= 0 then (a, pos)
    else ShuffleFrom(Swap(a, i, SwapIndex(rng(pos), i)), i - 1, rng, pos + 1)
  }

  /** The loop only swaps, so its result is a permutation of its input. */
  lemma {:induction false} ShuffleFromPermutes<T>(a: seq<T>, i: int, rng: Stream, pos: nat)
    requires ValidStream(rng)
    requires i < |a|
    ensures multiset(ShuffleFrom(a, i, rng, pos).0) == multiset(a)
    decreases i
  {
    if i > 0 {
      var b := Swap(a, i, SwapIndex(rng(pos), i));
      SwapPermutes(a, i, SwapIndex(rng(pos), i));
      ShuffleFromPermutes(b, i - 1, rng, pos + 1);
    }
  }

  /** The whole shuffle: the loop starts at the last index. */
  function Shuffled<T>(a: seq<T>, rng: Stream, pos: nat): (r: (seq<T>, nat))
    requires ValidStream(rng)
    ensures |r.0| == |a|
    ensures r.1 == pos + (if |a| > 0 then |a| - 1 else 0)
  {
    ShuffleFrom(a, |a| - 1, rng, pos)
  }

  /** The shuffle returns a permutation of its input. */
  lemma ShuffledPermutes<T>(a: seq<T>, rng: Stream, pos: nat)
    requires ValidStream(rng)
    ensures multiset(Shuffled(a, rng, pos).0) == multiset(a)
  {
    ShuffleFromPermutes(a, |a| - 1, rng, pos);
  }

  /** The loop as the source writes it. The result is a permutation of the
      input and agrees with the recursive reading `Shuffled`. */
  method ShuffleArray<T>(a: seq<T>, rng: Stream, pos: nat) returns (r: seq<T>, next: nat)
    requires ValidStream(rng)
    ensures |r| == |a| && multiset(r) == multiset(a)
    ensures next == pos + (if |a| > 0 then |a| - 1 else 0)
    ensures (r, next) == Shuffled(a, rng, pos)
  {
    r := a;
    next := pos;
    var i := |a| - 1;
    while i > 0
      invariant i < |r| == |a|
      invariant multiset(r) == multiset(a)
      invariant next == pos + (|a| - 1 - i)
      invariant ShuffleFrom(r, i, rng, next) == Shuffled(a, rng, pos)
      decreases i
    {
      var j := SwapIndex(rng(next), i);
      SwapPermutes(r, i, j);
      assert ShuffleFrom(r, i, rng, next) == ShuffleFrom(Swap(r, i, j), i - 1, rng, next + 1);
      r := Swap(r, i, j);
      next := next + 1;
      i := i - 1;
    }
  }

  /** Shuffling the ratio array yields an ordering of 2, 3, 5 and reads
      exactly two draws. */
  lemma ShuffleRatios(rng: Stream, pos: nat)
    requires ValidStream(rng)
    ensures IsRatioPerm(Shuffled(Base, rng, pos).0)
    ensures Shuffled(Base, rng, pos).1 == pos + 2
  {
    ShuffledPermutes(Base, rng, pos);
  }

  /** Shuffled ratios are three positive parts totalling 10. */
  lemma ShuffleProportions(rng: Stream, pos: nat)
    requires ValidStream(rng)
    ensures Proportions(Shuffled(Base, rng, pos).0)
  {
    ShuffleRatios(rng, pos);
    RatioPermFacts(Shuffled(Base, rng, pos).0);
  }

  /** A stream whose first draw is `u0` and every later draw is `u1`. */
  function TwoDraws(u0: real, u1: real): Stream
  {
    (k: nat) => if k == 0 then u0 else u1
  }

  /** Shuffling three items reads two draws: first the partner of index 2,
      then the partner of index 1. */
  lemma ShuffleThree<T>(a: seq<T>, u0: real, u1: real)
    requires |a| == 3
    requires 0.0 <= u0 < 1.0 && 0.0 <= u1 < 1.0
    ensures ValidStream(TwoDraws(u0, u1))
    ensures Shuffled(a, TwoDraws(u0, u1), 0).0
      == Swap(Swap(a, 2, SwapIndex(u0, 2)), 1, SwapIndex(u1, 1))
  {
    var rng := TwoDraws(u0, u1);
    assert rng(0) == u0 && rng(1) == u1;
    var b := Swap(a, 2, SwapIndex(u0, 2));
    assert ShuffleFrom(a, 2, rng, 0) == ShuffleFrom(b, 1, rng, 1);
    assert ShuffleFrom(b, 1, rng, 1) == ShuffleFrom(Swap(b, 1, SwapIndex(u1, 1)), 0, rng, 2);
  }

  /** Each partner `j` in [0, i] is chosen by some draw, namely `j / (i + 1)`. */
  lemma EveryPartnerReachable(i: nat, j: nat)
    requires j <= i
    ensures 0.0 <= j as real / (i + 1) as real < 1.0
    ensures SwapIndex(j as real / (i + 1) as real, i) == j
  {
    var n := (i + 1) as real;
    var u := j as real / n;
    assert u * n == j as real;
  }

  /** Draws `u0`, `u1` shuffle the ratio array into `r`. */
  lemma DrawsReach(r: seq<int>, u0: real, u1: real)
    requires 0.0 <= u0 < 1.0 && 0.0 <= u1 < 1.0
    requires Swap(Swap(Base, 2, SwapIndex(u0, 2)), 1, SwapIndex(u1, 1)) == r
    ensures exists v0: real, v1: real ::
      0.0 <= v0 < 1.0 && 0.0 <= v1 < 1.0 && ValidStream(TwoDraws(v0, v1)) &&
      Shuffled(Base, TwoDraws(v0, v1), 0).0 == r
  {
    ShuffleThree(Base, u0, u1);
  }

  /** Partners `j2` (for index 2) and `j1` (for index 1) turn the ratio array
      into `r`, so some pair of draws shuffles it into `r`. */
  lemma PartnersReach(r: seq<int>, j2: nat, j1: nat)
    requires j2 <= 2 && j1 <= 1 && |r| == 3
    requires Swap(Swap(Base, 2, j2), 1, j1)[0] == r[0]
    requires Swap(Swap(Base, 2, j2), 1, j1)[1] == r[1]
    requires Swap(Swap(Base, 2, j2), 1, j1)[2] == r[2]
    ensures exists u0: real, u1: real ::
      0.0 <= u0 < 1.0 && 0.0 <= u1 < 1.0 && ValidStream(TwoDraws(u0, u1)) &&
      Shuffled(Base, TwoDraws(u0, u1), 0).0 == r
  {
    assert Swap(Swap(Base, 2, j2), 1, j1) == r;
    EveryPartnerReachable(2, j2);
    EveryPartnerReachable(1, j1);
    DrawsReach(r, j2 as real / (2 + 1) as real, j1 as real / (1 + 1) as real);
  }

  /** Every ordering of the three ratios can come out of the shuffle: some
      pair of draws produces it. */
  lemma EveryOrderReachable(r: seq<int>)
    requires IsRatioPerm(r)
    ensures exists u0: real, u1: real ::
      0.0 <= u0 < 1.0 && 0.0 <= u1 < 1.0 && ValidStream(TwoDraws(u0, u1)) &&
      Shuffled(Base, TwoDraws(u0, u1), 0).0 == r
  {
    RatioPermElements(r);
    if r[2] == 5 {
      if r[0] == 2 { PartnersReach(r, 2, 1); } else { PartnersReach(r, 2, 0); }
    } else if r[2] == 2 {
      if r[0] == 5 { PartnersReach(r, 0, 1); } else { PartnersReach(r, 0, 0); }
    } else {
      if r[0] == 2 { PartnersReach(r, 1, 1); } else { PartnersReach(r, 1, 0); }
    }
  }
}
