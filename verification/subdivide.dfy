/** `divideRect`: one call shuffles the ratios of both axes,
    draws its four division lines, and recurses into the nine children with
    budgets set by the level/ratio bonus rule and the colour cursor as it
    stands after its own four lines. */
module Subdivide {
  import opened Ratios
  import opened Shuffle
  import opened Grid
  import opened Lines

  /** A recursive call `divideRect(section, newSplitsLeft, colorPalette, newColorIndex)`. */
  datatype Call = Call(rect: Rect, splitsLeft: int, colourIndex: nat)

  /** What a call leaves behind: the strokes it drew, in drawing order, and
      the position of the next unread random draw. */
  datatype Drawing<C> = Drawing(strokes: seq<Stroke<C>>, next: nat)

  /** What one call with a positive budget does before recursing: the split it
      chose, the lines it drew and the calls it makes next. */
  datatype Step<C> = Step(split: Split, lines: seq<Stroke<C>>, calls: seq<Call>, next: nat)

  /** Termination measure: the budget plus the levels left below 4, the level
      from which the bonus can no longer apply. */
  function Measure(splitsLeft: int, level: int): nat
  {
    (if splitsLeft > 0 then splitsLeft else 0) + (if level < 4 then 4 - level else 0)
  }

  /** The budget rule, kept literally: the bonus test looks up the HORIZONTAL
      ratio at index `k % 3`, which for the child in column i and row j is
      `ratios[j]`, not the ratio `ratios[i]` that sized its width. A child
      keeps the parent's budget when the bonus applies and loses one
      otherwise; either way the termination measure drops. */
  function ChildBudget(splitsLeft: int, ratios: seq<int>, k: nat, section: Rect): (s: int)
    requires |ratios| > 0
    ensures splitsLeft - 1 <= s <= splitsLeft
    ensures splitsLeft > 0 ==> Measure(s, section.level) < Measure(splitsLeft, section.level - 1)
  {
    var isFiveRatio := ratios[k % |ratios|] == 5;
    var newSplitsLeft := splitsLeft - 1;
    if section.level < 3 || (isFiveRatio && section.level < 4) then newSplitsLeft + 1 else newSplitsLeft
  }

  /** The recursive calls, one per section in order; every one receives
      the same colour cursor. */
  function ChildCalls(kids: seq<Rect>, ratios: seq<int>, splitsLeft: int, colourIndex: nat): (calls: seq<Call>)
    requires |ratios| > 0
    ensures |calls| == |kids|
    ensures forall k :: 0 <= k < |kids| ==>
      calls[k].rect == kids[k] && calls[k].colourIndex == colourIndex &&
      calls[k].splitsLeft == ChildBudget(splitsLeft, ratios, k, kids[k])
  {
    seq(|kids|, k requires 0 <= k < |kids| =>
      Call(kids[k], ChildBudget(splitsLeft, ratios, k, kids[k]), colourIndex))
  }

  /** The calls one parent makes: all at `level`, all starting from cursor
      `colourIndex`, each with a measure below `bound`. */
  predicate Siblings(calls: seq<Call>, level: int, colourIndex: nat, bound: int)
  {
    forall k :: 0 <= k < |calls| ==>
      calls[k].rect.level == level && calls[k].colourIndex == colourIndex &&
      Measure(calls[k].splitsLeft, level) < bound
  }

  /** One call with a positive budget, before it recurses: shuffle the horizontal
      ratios, then the vertical ones (two draws each), split, draw the four
      lines, and prepare nine calls that all start from the cursor as it
      stands after those lines. */
  function Local<C>(rect: Rect, splitsLeft: int, palette: seq<C>, colourIndex: nat, rng: Stream, pos: nat): (st: Step<C>)
    requires |palette| >= 1 && ValidStream(rng)
    ensures st.next == pos + 4
    ensures |st.lines| == 4
    ensures forall t :: 0 <= t < 4 ==>
      st.lines[t].cursor == colourIndex + t && st.lines[t].colour == PaletteEntry(palette, colourIndex + t) &&
      st.lines[t].level == rect.level
    ensures |st.calls| == 9
    ensures forall k :: 0 <= k < 9 ==>
      st.calls[k].rect.level == rect.level + 1 &&
      st.calls[k].colourIndex == colourIndex + 4 &&
      splitsLeft - 1 <= st.calls[k].splitsLeft <= splitsLeft
    ensures splitsLeft > 0 ==> Siblings(st.calls, rect.level + 1, colourIndex + 4, Measure(splitsLeft, rect.level))
  {
    var (ratios, afterX) := Shuffled(Base, rng, pos);
    var (vertRatios, afterY) := Shuffled(Base, rng, afterX);
    ShuffleProportions(rng, pos);
    ShuffleProportions(rng, afterX);
    SplitEnds(rect, ratios, vertRatios);
    var sp := MakeSplit(rect, ratios, vertRatios);
    var lines := DivisionLines(rect, sp, palette, colourIndex);
    LinesShape(rect, ratios, vertRatios, palette, colourIndex);
    Step(sp, lines, ChildCalls(Sections(rect, sp), ratios, splitsLeft, colourIndex + |lines|), afterY)
  }

  /** Both axes of the split are orderings of 2, 3, 5 drawn by consecutive
      shuffles: the horizontal one from the first two draws, the vertical one
      from the next two. */
  lemma LocalRatios<C>(rect: Rect, splitsLeft: int, palette: seq<C>, colourIndex: nat, rng: Stream, pos: nat)
    requires |palette| >= 1 && ValidStream(rng)
    ensures var sp := Local(rect, splitsLeft, palette, colourIndex, rng, pos).split;
      IsRatioPerm(sp.ratios) && IsRatioPerm(sp.vertRatios) &&
      sp.ratios == Shuffled(Base, rng, pos).0 && sp.vertRatios == Shuffled(Base, rng, pos + 2).0
  {
    ShuffleRatios(rng, pos);
    ShuffleRatios(rng, pos + 2);
  }

  /** How `Local` is built: the split is the one its shuffled ratios give,
      the lines are that split's division lines and the calls are its
      sections with their budgets. */
  lemma LocalParts<C>(rect: Rect, splitsLeft: int, palette: seq<C>, colourIndex: nat, rng: Stream, pos: nat)
    requires |palette| >= 1 && ValidStream(rng)
    ensures var st := Local(rect, splitsLeft, palette, colourIndex, rng, pos);
      Proportions(st.split.ratios) && Proportions(st.split.vertRatios) &&
      st.split == MakeSplit(rect, st.split.ratios, st.split.vertRatios) &&
      st.lines == DivisionLines(rect, st.split, palette, colourIndex) &&
      st.calls == ChildCalls(Sections(rect, st.split), st.split.ratios, splitsLeft, colourIndex + 4)
  {
    var (ratios, afterX) := Shuffled(Base, rng, pos);
    var (vertRatios, afterY) := Shuffled(Base, rng, afterX);
    ShuffleProportions(rng, pos);
    ShuffleProportions(rng, afterX);
    SplitEnds(rect, ratios, vertRatios);
  }

  /** The stroke shows the palette entry its cursor selects, modulo the
      palette's length. */
  ghost predicate Painted<C>(s: Stroke<C>, palette: seq<C>)
    requires |palette| >= 1
  {
    s.colour == PaletteEntry(palette, s.cursor)
  }

  /** The stroke was drawn `s.level - level` levels below a call at `level`
      that started from cursor `colourIndex`, fewer than `depth` levels down.
      Each level down starts its children four cursor steps further on, and a
      call's own four lines take the four cursors from where it started. */
  predicate Placed<C>(s: Stroke<C>, colourIndex: nat, level: int, depth: int)
  {
    level <= s.level < level + depth &&
    colourIndex + 4 * (s.level - level) <= s.cursor < colourIndex + 4 * (s.level - level) + 4
  }

  /** The whole recursion from one call. A call with no budget draws nothing.
      Otherwise it draws its own four lines first and then everything its
      children draw, in order. Each call reads four random draws and draws
      four lines, so the draws read equal the strokes drawn. Since siblings
      do not advance each other's cursor, a line drawn d levels down has one
      of the four cursors starting at `colourIndex + 4 * d`. */
  function DivideRect<C>(rect: Rect, splitsLeft: int, palette: seq<C>, colourIndex: nat, rng: Stream, pos: nat): (d: Drawing<C>)
    requires |palette| >= 1 && ValidStream(rng)
    ensures d.next == pos + |d.strokes|
    ensures splitsLeft <= 0 ==> d.strokes == []
    ensures splitsLeft > 0 ==>
      |d.strokes| >= 4 && d.strokes[..4] == Local(rect, splitsLeft, palette, colourIndex, rng, pos).lines
    ensures forall t :: 0 <= t < |d.strokes| ==>
      Painted(d.strokes[t], palette) &&
      Placed(d.strokes[t], colourIndex, rect.level, Measure(splitsLeft, rect.level))
    decreases Measure(splitsLeft, rect.level), 1
  {
    if splitsLeft <= 0 then Drawing([], pos)
    else
      var st := Local(rect, splitsLeft, palette, colourIndex, rng, pos);
      var rest := DivideEach(st.calls, rect.level + 1, colourIndex + 4, palette, rng, st.next,
                             Measure(splitsLeft, rect.level));
      Drawing(st.lines + rest.strokes, rest.next)
  }

  /** The loop over the sections: the calls run one after another, each
      reading the random draws where the previous one stopped. All calls are
      siblings: they share a level and a starting colour cursor, and each has
      a measure below `bound`. */
  function DivideEach<C>(calls: seq<Call>, level: int, colourIndex: nat, palette: seq<C>, rng: Stream,
                         pos: nat, bound: nat): (d: Drawing<C>)
    requires |palette| >= 1 && ValidStream(rng)
    requires Siblings(calls, level, colourIndex, bound)
    ensures d.next == pos + |d.strokes|
    ensures forall t :: 0 <= t < |d.strokes| ==>
      Painted(d.strokes[t], palette) && Placed(d.strokes[t], colourIndex, level, bound - 1)
    decreases bound, 0, |calls|
  {
    if |calls| == 0 then Drawing([], pos)
    else
      var first := DivideRect(calls[0].rect, calls[0].splitsLeft, palette, calls[0].colourIndex, rng, pos);
      var rest := DivideEach(calls[1..], level, colourIndex, palette, rng, first.next, bound);
      Drawing(first.strokes + rest.strokes, rest.next)
  }

  /** Every stroke lies in `r`. */
  predicate AllWithin<C>(strokes: seq<Stroke<C>>, r: Rect)
  {
    forall t :: 0 <= t < |strokes| ==> SegmentWithin(strokes[t].seg, r)
  }

  /** Every stroke belongs to a rectangle at level at most `level`. */
  predicate LevelsAtMost<C>(strokes: seq<Stroke<C>>, level: int)
  {
    forall t :: 0 <= t < |strokes| ==> strokes[t].level <= level
  }

  lemma WithinConcat<C>(a: seq<Stroke<C>>, b: seq<Stroke<C>>, r: Rect)
    requires AllWithin(a, r) && AllWithin(b, r)
    ensures AllWithin(a + b, r)
  {
    forall t | 0 <= t < |a + b|
      ensures SegmentWithin((a + b)[t].seg, r)
    {
      if t >= |a| {
        assert (a + b)[t] == b[t - |a|];
      }
    }
  }

  /** Strokes inside a rectangle lie inside every rectangle containing it. */
  lemma WithinWiden<C>(a: seq<Stroke<C>>, inner: Rect, outer: Rect)
    requires AllWithin(a, inner) && Within(inner, outer)
    ensures AllWithin(a, outer)
  {
    forall t | 0 <= t < |a|
      ensures SegmentWithin(a[t].seg, outer)
    {
      assert SegmentWithin(a[t].seg, inner);
    }
  }

  lemma LevelsConcat<C>(a: seq<Stroke<C>>, b: seq<Stroke<C>>, level: int)
    requires LevelsAtMost(a, level) && LevelsAtMost(b, level)
    ensures LevelsAtMost(a + b, level)
  {
    forall t | 0 <= t < |a + b|
      ensures (a + b)[t].level <= level
    {
      if t >= |a| {
        assert (a + b)[t] == b[t - |a|];
      }
    }
  }

  /** Every call is on a rectangle of positive size inside `outer`. */
  predicate CallsInside(calls: seq<Call>, outer: Rect)
  {
    forall k :: 0 <= k < |calls| ==>
      calls[k].rect.width > 0.0 && calls[k].rect.height > 0.0 && Within(calls[k].rect, outer)
  }

  /** One call on a rectangle of positive size draws its lines inside it and
      hands its children rectangles of positive size inside it. */
  lemma LocalInside<C>(rect: Rect, splitsLeft: int, palette: seq<C>, colourIndex: nat, rng: Stream, pos: nat)
    requires |palette| >= 1 && ValidStream(rng)
    requires rect.width > 0.0 && rect.height > 0.0
    ensures AllWithin(Local(rect, splitsLeft, palette, colourIndex, rng, pos).lines, rect)
    ensures CallsInside(Local(rect, splitsLeft, palette, colourIndex, rng, pos).calls, rect)
  {
    LocalParts(rect, splitsLeft, palette, colourIndex, rng, pos);
    var sp := Local(rect, splitsLeft, palette, colourIndex, rng, pos).split;
    LinesInside(rect, sp.ratios, sp.vertRatios, palette, colourIndex);
    GridInside(rect, sp.ratios, sp.vertRatios);
  }

  /** A call with a budget draws its own lines, then its children's. */
  lemma DivideRectUnfold<C>(rect: Rect, splitsLeft: int, palette: seq<C>, colourIndex: nat, rng: Stream, pos: nat)
    requires |palette| >= 1 && ValidStream(rng) && splitsLeft > 0
    ensures var st := Local(rect, splitsLeft, palette, colourIndex, rng, pos);
      DivideRect(rect, splitsLeft, palette, colourIndex, rng, pos).strokes ==
      st.lines + DivideEach(st.calls, rect.level + 1, colourIndex + 4, palette, rng, st.next,
                            Measure(splitsLeft, rect.level)).strokes
  {
  }

  /** Every line drawn from a rectangle of positive size lies inside it. */
  lemma {:induction false} DivideRectInside<C>(rect: Rect, splitsLeft: int, palette: seq<C>, colourIndex: nat,
                                               rng: Stream, pos: nat)
    requires |palette| >= 1 && ValidStream(rng)
    requires rect.width > 0.0 && rect.height > 0.0
    ensures AllWithin(DivideRect(rect, splitsLeft, palette, colourIndex, rng, pos).strokes, rect)
    decreases Measure(splitsLeft, rect.level), 1
  {
    if splitsLeft > 0 {
      var st := Local(rect, splitsLeft, palette, colourIndex, rng, pos);
      var rest := DivideEach(st.calls, rect.level + 1, colourIndex + 4, palette, rng, st.next,
                             Measure(splitsLeft, rect.level));
      DivideRectUnfold(rect, splitsLeft, palette, colourIndex, rng, pos);
      LocalInside(rect, splitsLeft, palette, colourIndex, rng, pos);
      DivideEachInside(st.calls, rect.level + 1, colourIndex + 4, palette, rng, st.next,
                       Measure(splitsLeft, rect.level), rect);
      WithinConcat(st.lines, rest.strokes, rect);
    }
  }

  /** Every line drawn by a run of calls whose rectangles have positive size
      and lie in `outer` lies in `outer`. */
  lemma {:induction false} DivideEachInside<C>(calls: seq<Call>, level: int, colourIndex: nat, palette: seq<C>,
                                               rng: Stream, pos: nat, bound: nat, outer: Rect)
    requires |palette| >= 1 && ValidStream(rng)
    requires Siblings(calls, level, colourIndex, bound) && CallsInside(calls, outer)
    ensures AllWithin(DivideEach(calls, level, colourIndex, palette, rng, pos, bound).strokes, outer)
    decreases bound, 0, |calls|
  {
    if |calls| > 0 {
      var c := calls[0];
      var first := DivideRect(c.rect, c.splitsLeft, palette, c.colourIndex, rng, pos);
      var rest := DivideEach(calls[1..], level, colourIndex, palette, rng, first.next, bound);
      var d := DivideEach(calls, level, colourIndex, palette, rng, pos, bound);
      assert d.strokes == first.strokes + rest.strokes;
      DivideRectInside(c.rect, c.splitsLeft, palette, c.colourIndex, rng, pos);
      DivideEachInside(calls[1..], level, colourIndex, palette, rng, first.next, bound, outer);
      WithinWiden(first.strokes, c.rect, outer);
      WithinConcat(first.strokes, rest.strokes, outer);
    }
  }

  /** The budgets reachable from the entry call (level 1, budget 2): at most
      2, and from level 3 on the level plus the budget is at most 5. */
  predicate WithinDepth(level: int, splitsLeft: int)
  {
    splitsLeft <= 2 && (level >= 3 ==> level + splitsLeft <= 5)
  }

  predicate CallsWithinDepth(calls: seq<Call>, level: int)
  {
    forall k :: 0 <= k < |calls| ==> WithinDepth(level, calls[k].splitsLeft)
  }

  /** The bonus rule keeps every child within that bound. */
  lemma BudgetKeepsDepth(splitsLeft: int, ratios: seq<int>, k: nat, section: Rect)
    requires |ratios| > 0 && splitsLeft > 0
    requires WithinDepth(section.level - 1, splitsLeft)
    ensures WithinDepth(section.level, ChildBudget(splitsLeft, ratios, k, section))
  {
  }

  /** A call within the depth bound that draws anything is at level at most
      4, and passes the bound on to every child. */
  lemma LocalDepth<C>(rect: Rect, splitsLeft: int, palette: seq<C>, colourIndex: nat, rng: Stream, pos: nat)
    requires |palette| >= 1 && ValidStream(rng)
    requires splitsLeft > 0 && WithinDepth(rect.level, splitsLeft)
    ensures LevelsAtMost(Local(rect, splitsLeft, palette, colourIndex, rng, pos).lines, 4)
    ensures CallsWithinDepth(Local(rect, splitsLeft, palette, colourIndex, rng, pos).calls, rect.level + 1)
  {
    LocalParts(rect, splitsLeft, palette, colourIndex, rng, pos);
    var st := Local(rect, splitsLeft, palette, colourIndex, rng, pos);
    var kids := Sections(rect, st.split);
    forall k | 0 <= k < |st.calls|
      ensures WithinDepth(rect.level + 1, st.calls[k].splitsLeft)
    {
      BudgetKeepsDepth(splitsLeft, st.split.ratios, k, kids[k]);
    }
  }

  /** A call within the depth bound draws lines only for rectangles at level
      at most 4. */
  lemma {:induction false} DivideRectDepth<C>(rect: Rect, splitsLeft: int, palette: seq<C>, colourIndex: nat,
                                              rng: Stream, pos: nat)
    requires |palette| >= 1 && ValidStream(rng)
    requires WithinDepth(rect.level, splitsLeft)
    ensures LevelsAtMost(DivideRect(rect, splitsLeft, palette, colourIndex, rng, pos).strokes, 4)
    decreases Measure(splitsLeft, rect.level), 1
  {
    if splitsLeft > 0 {
      var st := Local(rect, splitsLeft, palette, colourIndex, rng, pos);
      var rest := DivideEach(st.calls, rect.level + 1, colourIndex + 4, palette, rng, st.next,
                             Measure(splitsLeft, rect.level));
      DivideRectUnfold(rect, splitsLeft, palette, colourIndex, rng, pos);
      LocalDepth(rect, splitsLeft, palette, colourIndex, rng, pos);
      DivideEachDepth(st.calls, rect.level + 1, colourIndex + 4, palette, rng, st.next,
                      Measure(splitsLeft, rect.level));
      LevelsConcat(st.lines, rest.strokes, 4);
    }
  }

  lemma {:induction false} DivideEachDepth<C>(calls: seq<Call>, level: int, colourIndex: nat, palette: seq<C>,
                                              rng: Stream, pos: nat, bound: nat)
    requires |palette| >= 1 && ValidStream(rng)
    requires Siblings(calls, level, colourIndex, bound) && CallsWithinDepth(calls, level)
    ensures LevelsAtMost(DivideEach(calls, level, colourIndex, palette, rng, pos, bound).strokes, 4)
    decreases bound, 0, |calls|
  {
    if |calls| > 0 {
      var c := calls[0];
      var first := DivideRect(c.rect, c.splitsLeft, palette, c.colourIndex, rng, pos);
      var rest := DivideEach(calls[1..], level, colourIndex, palette, rng, first.next, bound);
      var d := DivideEach(calls, level, colourIndex, palette, rng, pos, bound);
      assert d.strokes == first.strokes + rest.strokes;
      DivideRectDepth(c.rect, c.splitsLeft, palette, c.colourIndex, rng, pos);
      DivideEachDepth(calls[1..], level, colourIndex, palette, rng, first.next, bound);
      LevelsConcat(first.strokes, rest.strokes, 4);
    }
  }

  /** The child in column `i` and row `j` sits at position `3 * i + j`, so
      its bonus is decided by the horizontal ratio at index `j`. */
  lemma BonusByPosition(splitsLeft: int, ratios: seq<int>, i: nat, j: nat, section: Rect)
    requires |ratios| == 3 && i < 3 && j < 3
    ensures ChildBudget(splitsLeft, ratios, 3 * i + j, section) ==
      if section.level < 3 || (ratios[j] == 5 && section.level < 4) then splitsLeft else splitsLeft - 1
  {
    assert (3 * i + j) % 3 == j;
  }

  /** Child `k` of a dividing call is sized by the horizontal ratio of its
      column, `k / 3`, but keeps or loses its budget by the horizontal ratio
      at its row index, `k % 3`. */
  lemma LocalBonus<C>(rect: Rect, splitsLeft: int, palette: seq<C>, colourIndex: nat, rng: Stream, pos: nat,
                      k: nat)
    requires |palette| >= 1 && ValidStream(rng) && k < 9
    ensures var st := Local(rect, splitsLeft, palette, colourIndex, rng, pos);
      |st.split.ratios| == 3 &&
      st.calls[k].rect.width == Section(st.split.ratios[k / 3], 10, rect.width) &&
      st.calls[k].splitsLeft ==
        if rect.level + 1 < 3 || (st.split.ratios[k % 3] == 5 && rect.level + 1 < 4) then splitsLeft
        else splitsLeft - 1
  {
    LocalParts(rect, splitsLeft, palette, colourIndex, rng, pos);
    var sp := Local(rect, splitsLeft, palette, colourIndex, rng, pos).split;
    GridForm(rect, sp.ratios, sp.vertRatios);
    var kids := Sections(rect, sp);
    assert 3 * (k / 3) + k % 3 == k;
    BonusByPosition(splitsLeft, sp.ratios, k / 3, k % 3, kids[k]);
  }

  /** The bonus follows the row index, not the ratio that sized the child:
      when a level-2 rectangle draws horizontal ratios [5, 2, 3], its child
      in column 0, row 1 is the widest (ratio 5) yet loses a split, while
      its child in column 1, row 0 (ratio 2) keeps its budget. */
  lemma BonusFollowsRowIndex(rect: Rect, vertRatios: seq<int>, colourIndex: nat)
    requires rect.level == 2 && Proportions(vertRatios)
    ensures Sum([5, 2, 3]) == 10 &&
      var sp := MakeSplit(rect, [5, 2, 3], vertRatios);
      ValidSplit(sp) &&
      var kids := Sections(rect, sp);
      var calls := ChildCalls(kids, [5, 2, 3], 2, colourIndex);
      kids[1].width == Section(5, 10, rect.width) && calls[1].splitsLeft == 1 &&
      kids[3].width == Section(2, 10, rect.width) && calls[3].splitsLeft == 2
  {
    assert [5, 2, 3][..2] == [5, 2] && [5, 2][..1] == [5] && [5][..0] == [];
    assert Sum([5, 2, 3]) == 10;
    GridForm(rect, [5, 2, 3], vertRatios);
  }
}
