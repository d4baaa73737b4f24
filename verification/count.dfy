/** How many lines one call draws. The bonus rule looks at the shuffled
    ratios, yet the count does not depend on them: every ordering of 2, 3, 5
    has exactly one 5, so the bonus always reaches exactly one row of
    children. */
module Counting {
  import opened Ratios
  import opened Shuffle
  import opened Grid
  import opened Lines
  import opened Subdivide

  /** Lines drawn by a call at `level` with budget `splitsLeft`. Its children
      sit one level down. Below level 3 they all keep the budget. At level 3
      the three children of the row whose ratio is 5 keep it and the other
      six lose one. From level 4 on they all lose one. */
  function LineCount(level: int, splitsLeft: int): nat
    decreases Measure(splitsLeft, level)
  {
    if splitsLeft <= 0 then 0
    else if level + 1 < 3 then 4 + 9 * LineCount(level + 1, splitsLeft)
    else if level + 1 < 4 then 4 + 3 * LineCount(level + 1, splitsLeft) + 6 * LineCount(level + 1, splitsLeft - 1)
    else 4 + 9 * LineCount(level + 1, splitsLeft - 1)
  }

  /** Lines drawn by a run of calls at `level`. */
  function CountSum(calls: seq<Call>, level: int): nat
    decreases |calls|
  {
    if |calls| == 0 then 0 else LineCount(level, calls[0].splitsLeft) + CountSum(calls[1..], level)
  }

  lemma CountSumStep(calls: seq<Call>, level: int, k: nat)
    requires k < |calls|
    ensures CountSum(calls[k..], level) == LineCount(level, calls[k].splitsLeft) + CountSum(calls[k + 1..], level)
  {
    assert calls[k..][1..] == calls[k + 1..];
  }

  lemma CountSumNine(calls: seq<Call>, level: int)
    requires |calls| == 9
    ensures CountSum(calls, level) ==
      LineCount(level, calls[0].splitsLeft) + LineCount(level, calls[1].splitsLeft) +
      LineCount(level, calls[2].splitsLeft) + LineCount(level, calls[3].splitsLeft) +
      LineCount(level, calls[4].splitsLeft) + LineCount(level, calls[5].splitsLeft) +
      LineCount(level, calls[6].splitsLeft) + LineCount(level, calls[7].splitsLeft) +
      LineCount(level, calls[8].splitsLeft)
  {
    assert calls[0..] == calls;
    CountSumStep(calls, level, 0);
    CountSumStep(calls, level, 1);
    CountSumStep(calls, level, 2);
    CountSumStep(calls, level, 3);
    CountSumStep(calls, level, 4);
    CountSumStep(calls, level, 5);
    CountSumStep(calls, level, 6);
    CountSumStep(calls, level, 7);
    CountSumStep(calls, level, 8);
    assert calls[9..] == [];
  }

  /** The nine children of a call with a positive budget draw four lines
      fewer than the call itself. */
  lemma ChildrenCount<C>(rect: Rect, splitsLeft: int, palette: seq<C>, colourIndex: nat, rng: Stream, pos: nat)
    requires |palette| >= 1 && ValidStream(rng)
    requires splitsLeft > 0
    ensures CountSum(Local(rect, splitsLeft, palette, colourIndex, rng, pos).calls, rect.level + 1) + 4
      == LineCount(rect.level, splitsLeft)
  {
    LocalParts(rect, splitsLeft, palette, colourIndex, rng, pos);
    LocalRatios(rect, splitsLeft, palette, colourIndex, rng, pos);
    var st := Local(rect, splitsLeft, palette, colourIndex, rng, pos);
    var ratios := st.split.ratios;
    var kids := Sections(rect, st.split);
    RatioPermElements(ratios);
    CountSumNine(st.calls, rect.level + 1);
    var keep := LineCount(rect.level + 1, splitsLeft);
    var lose := LineCount(rect.level + 1, splitsLeft - 1);
    forall k | 0 <= k < 9
      ensures LineCount(rect.level + 1, st.calls[k].splitsLeft) ==
        if rect.level + 1 < 3 || (ratios[k % 3] == 5 && rect.level + 1 < 4) then keep else lose
    {
      assert st.calls[k].splitsLeft == ChildBudget(splitsLeft, ratios, k, kids[k]);
    }
  }

  /** A call draws exactly `LineCount` lines, whatever the random draws. */
  lemma {:induction false} DivideRectCount<C>(rect: Rect, splitsLeft: int, palette: seq<C>, colourIndex: nat,
                                              rng: Stream, pos: nat)
    requires |palette| >= 1 && ValidStream(rng)
    ensures |DivideRect(rect, splitsLeft, palette, colourIndex, rng, pos).strokes| == LineCount(rect.level, splitsLeft)
    decreases Measure(splitsLeft, rect.level), 1
  {
    if splitsLeft > 0 {
      var st := Local(rect, splitsLeft, palette, colourIndex, rng, pos);
      DivideRectUnfold(rect, splitsLeft, palette, colourIndex, rng, pos);
      ChildrenCount(rect, splitsLeft, palette, colourIndex, rng, pos);
      DivideEachCount(st.calls, rect.level + 1, colourIndex + 4, palette, rng, st.next,
                      Measure(splitsLeft, rect.level));
    }
  }

  /** A run of sibling calls draws the sum of their counts. */
  lemma {:induction false} DivideEachCount<C>(calls: seq<Call>, level: int, colourIndex: nat, palette: seq<C>,
                                              rng: Stream, pos: nat, bound: nat)
    requires |palette| >= 1 && ValidStream(rng)
    requires Siblings(calls, level, colourIndex, bound)
    ensures |DivideEach(calls, level, colourIndex, palette, rng, pos, bound).strokes| == CountSum(calls, level)
    decreases bound, 0, |calls|
  {
    if |calls| > 0 {
      var c := calls[0];
      var first := DivideRect(c.rect, c.splitsLeft, palette, c.colourIndex, rng, pos);
      DivideRectCount(c.rect, c.splitsLeft, palette, c.colourIndex, rng, pos);
      DivideEachCount(calls[1..], level, colourIndex, palette, rng, first.next, bound);
    }
  }
}
