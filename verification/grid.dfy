/** The geometry of one subdivision: cumulative
    division points along each axis and the 3×3 grid of child rectangles.
    Coordinates are exact reals where the source uses floating point. */
module Grid {
  import opened Ratios

  /** A region of the canvas; `level` counts the subdivisions that produced it,
      starting at 1 for the whole canvas. */
  datatype Rect = Rect(x: real, y: real, width: real, height: real, level: int)

  /** The point (px, py) lies in `r`, taking the left and top edges as inside
      and the right and bottom edges as outside. */
  predicate Contains(r: Rect, px: real, py: real)
  {
    r.x <= px < r.x + r.width && r.y <= py < r.y + r.height
  }

  /** `inner` lies inside `outer`, edges included. */
  predicate Within(inner: Rect, outer: Rect)
  {
    outer.x <= inner.x && inner.x + inner.width <= outer.x + outer.width &&
    outer.y <= inner.y && inner.y + inner.height <= outer.y + outer.height
  }

  function Area(r: Rect): real
  {
    r.width * r.height
  }

  function AreaSum(rs: seq<Rect>): real
  {
    if |rs| == 0 then 0.0 else AreaSum(rs[..|rs| - 1]) + Area(rs[|rs| - 1])
  }

  /** The length of one section along an axis: `(ratio / total) * extent`. */
  function Section(ratio: int, total: int, extent: real): real
    requires total != 0
  {
    (ratio as real / total as real) * extent
  }

  lemma SectionsAdd(a: int, b: int, total: int, extent: real)
    requires total != 0
    ensures Section(a, total, extent) + Section(b, total, extent) == Section(a + b, total, extent)
  {
    var t := total as real;
    assert a as real / t + b as real / t == (a + b) as real / t;
  }

  lemma SectionPositive(ratio: int, total: int, extent: real)
    requires ratio > 0 && total > 0 && extent > 0.0
    ensures Section(ratio, total, extent) > 0.0
  {
    var f := ratio as real / total as real;
    assert f > 0.0;
  }

  /** The division points of one axis: starting from `current`, each section
      is added to the running coordinate and the new coordinate is recorded.
      The first point is the end of the first section, the last the end of
      the last section. */
  function DivisionPoints(current: real, extent: real, ratios: seq<int>, total: int): (pts: seq<real>)
    requires total != 0
    ensures |pts| == |ratios|
    ensures |ratios| > 0 ==> pts[0] == current + Section(ratios[0], total, extent)
    ensures forall k :: 0 < k < |ratios| ==> pts[k] == pts[k - 1] + Section(ratios[k], total, extent)
    decreases |ratios|
  {
    if |ratios| == 0 then []
    else
      var next := current + Section(ratios[0], total, extent);
      [next] + DivisionPoints(next, extent, ratios[1..], total)
  }

  /** Closed form: point `k` is the start plus the section of the first k+1
      ratios taken together. */
  lemma {:induction false} DivisionPointAt(current: real, extent: real, ratios: seq<int>, total: int, k: nat)
    requires total != 0 && k < |ratios|
    ensures DivisionPoints(current, extent, ratios, total)[k]
         == current + Section(Sum(ratios[..k + 1]), total, extent)
  {
    if k == 0 {
      assert ratios[..1][..0] == [];
    } else {
      DivisionPointAt(current, extent, ratios, total, k - 1);
      assert ratios[..k + 1][..k] == ratios[..k];
      SectionsAdd(Sum(ratios[..k]), ratios[k], total, extent);
    }
  }

  /** The shuffled ratios of both axes, the total taken from the horizontal
      ratios, and the division points of both axes. */
  datatype Split = Split(ratios: seq<int>, vertRatios: seq<int>, total: int, divX: seq<real>, divY: seq<real>)

  predicate ValidSplit(sp: Split)
  {
    |sp.ratios| == 3 && |sp.vertRatios| == 3 && |sp.divX| == 3 && |sp.divY| == 3 && sp.total != 0
  }

  /** Both axes of one subdivision. `total` is computed once, from the
      horizontal ratios, and scales the vertical ratios as well. */
  function MakeSplit(rect: Rect, ratios: seq<int>, vertRatios: seq<int>): (sp: Split)
    requires Sum(ratios) != 0
    ensures |sp.divX| == |ratios| && |sp.divY| == |vertRatios|
  {
    var total := Sum(ratios);
    Split(ratios, vertRatios, total,
          DivisionPoints(rect.x, rect.width, ratios, total),
          DivisionPoints(rect.y, rect.height, vertRatios, total))
  }

  /** The sub-rectangle in column `i` and row `j`: its near corner is the
      parent's near edge or the previous division point, its size the
      column's and the row's sections. */
  function Cell(rect: Rect, sp: Split, i: nat, j: nat): Rect
    requires ValidSplit(sp) && i < 3 && j < 3
  {
    Rect(if i == 0 then rect.x else sp.divX[i - 1],
         if j == 0 then rect.y else sp.divY[j - 1],
         Section(sp.ratios[i], sp.total, rect.width),
         Section(sp.vertRatios[j], sp.total, rect.height),
         rect.level + 1)
  }

  /** The nested loops over columns and rows: column `i` outside, row `j` inside, so
      the child at position `k` is cell (k / 3, k % 3). */
  function Sections(rect: Rect, sp: Split): (kids: seq<Rect>)
    requires ValidSplit(sp)
    ensures |kids| == 9
    ensures forall k :: 0 <= k < 9 ==> kids[k].level == rect.level + 1
  {
    seq(9, k requires 0 <= k < 9 => Cell(rect, sp, k / 3, k % 3))
  }

  /** `total` is 10 for every ordering, so the last division point of each axis
      is the far edge of the rectangle: the point `slice(0, -1)` leaves out. */
  lemma FarEdge(rect: Rect, ratios: seq<int>, vertRatios: seq<int>)
    requires IsRatioPerm(ratios) && IsRatioPerm(vertRatios)
    ensures Proportions(ratios) && Proportions(vertRatios)
    ensures var sp := MakeSplit(rect, ratios, vertRatios);
      ValidSplit(sp) && sp.total == 10 &&
      sp.divX[2] == rect.x + rect.width && sp.divY[2] == rect.y + rect.height
  {
    RatioPermFacts(ratios);
    RatioPermFacts(vertRatios);
    SplitEnds(rect, ratios, vertRatios);
  }

  lemma SplitEnds(rect: Rect, ratios: seq<int>, vertRatios: seq<int>)
    requires Proportions(ratios) && Proportions(vertRatios)
    ensures var sp := MakeSplit(rect, ratios, vertRatios);
      ValidSplit(sp) && sp.total == 10 &&
      sp.divX[2] == rect.x + rect.width && sp.divY[2] == rect.y + rect.height
  {
    DivisionPointAt(rect.x, rect.width, ratios, 10, 2);
    DivisionPointAt(rect.y, rect.height, vertRatios, 10, 2);
    assert ratios[..3] == ratios;
    assert vertRatios[..3] == vertRatios;
  }

  /** Every child in its explicit form: columns of widths w0, w1, w2 laid side
      by side from `rect.x`, rows of heights h0, h1, h2 from `rect.y`. */
  lemma GridForm(rect: Rect, ratios: seq<int>, vertRatios: seq<int>)
    requires Proportions(ratios) && Proportions(vertRatios)
    ensures var sp := MakeSplit(rect, ratios, vertRatios);
      var kids := Sections(rect, sp);
      var w := seq(3, i requires 0 <= i < 3 => Section(ratios[i], 10, rect.width));
      var h := seq(3, j requires 0 <= j < 3 => Section(vertRatios[j], 10, rect.height));
      ValidSplit(sp) &&
      w[0] + w[1] + w[2] == rect.width && h[0] + h[1] + h[2] == rect.height &&
      sp.divX == [rect.x + w[0], rect.x + w[0] + w[1], rect.x + w[0] + w[1] + w[2]] &&
      sp.divY == [rect.y + h[0], rect.y + h[0] + h[1], rect.y + h[0] + h[1] + h[2]] &&
      forall k :: 0 <= k < 9 ==>
        kids[k].width == w[k / 3] && kids[k].height == h[k % 3] &&
        kids[k].x == (if k / 3 == 0 then rect.x else sp.divX[k / 3 - 1]) &&
        kids[k].y == (if k % 3 == 0 then rect.y else sp.divY[k % 3 - 1])
  {
    SplitEnds(rect, ratios, vertRatios);
  }

  /** Neighbouring children meet edge to edge: the first column starts at the
      parent's left edge, each column starts where the previous one ends, the
      last one ends at the parent's right edge; the same holds for rows. The
      right edge of column i is division point i. */
  lemma GridEdges(rect: Rect, ratios: seq<int>, vertRatios: seq<int>)
    requires Proportions(ratios) && Proportions(vertRatios)
    ensures var sp := MakeSplit(rect, ratios, vertRatios);
      var kids := Sections(rect, sp);
      ValidSplit(sp) &&
      (forall k :: 0 <= k < 9 ==>
        kids[k].x + kids[k].width == sp.divX[k / 3] &&
        kids[k].y + kids[k].height == sp.divY[k % 3]) &&
      (forall k :: 0 <= k < 9 && k / 3 == 0 ==> kids[k].x == rect.x) &&
      (forall k :: 3 <= k < 9 ==> kids[k].x == kids[k - 3].x + kids[k - 3].width) &&
      (forall k :: 0 <= k < 9 && k / 3 == 2 ==> kids[k].x + kids[k].width == rect.x + rect.width) &&
      (forall k :: 0 <= k < 9 && k % 3 == 0 ==> kids[k].y == rect.y) &&
      (forall k :: 0 <= k < 9 && k % 3 != 0 ==> kids[k].y == kids[k - 1].y + kids[k - 1].height) &&
      (forall k :: 0 <= k < 9 && k % 3 == 2 ==> kids[k].y + kids[k].height == rect.y + rect.height)
  {
    GridForm(rect, ratios, vertRatios);
  }

  lemma AreaSumStep(rs: seq<Rect>, k: nat)
    requires k < |rs|
    ensures AreaSum(rs[..k + 1]) == AreaSum(rs[..k]) + Area(rs[k])
  {
    assert rs[..k + 1][..k] == rs[..k];
  }

  lemma AreaSumNine(rs: seq<Rect>)
    requires |rs| == 9
    ensures AreaSum(rs) == Area(rs[0]) + Area(rs[1]) + Area(rs[2]) + Area(rs[3]) + Area(rs[4])
                         + Area(rs[5]) + Area(rs[6]) + Area(rs[7]) + Area(rs[8])
  {
    assert rs[..0] == [];
    AreaSumStep(rs, 0);
    AreaSumStep(rs, 1);
    AreaSumStep(rs, 2);
    AreaSumStep(rs, 3);
    AreaSumStep(rs, 4);
    AreaSumStep(rs, 5);
    AreaSumStep(rs, 6);
    AreaSumStep(rs, 7);
    AreaSumStep(rs, 8);
    assert rs[..9] == rs;
  }

  /** The widths of the three children in a row add up to the parent's width,
      and the heights of the three children in a column add up to the
      parent's height. */
  lemma GridSums(rect: Rect, ratios: seq<int>, vertRatios: seq<int>)
    requires Proportions(ratios) && Proportions(vertRatios)
    ensures var sp := MakeSplit(rect, ratios, vertRatios);
      var kids := Sections(rect, sp);
      ValidSplit(sp) &&
      (forall k :: 0 <= k < 3 ==> kids[k].width + kids[k + 3].width + kids[k + 6].width == rect.width) &&
      (forall k :: 0 <= k < 9 && k % 3 == 0 ==>
        kids[k].height + kids[k + 1].height + kids[k + 2].height == rect.height)
  {
    GridForm(rect, ratios, vertRatios);
  }

  /** The nine areas add up to the parent's area. */
  lemma GridArea(rect: Rect, ratios: seq<int>, vertRatios: seq<int>)
    requires Proportions(ratios) && Proportions(vertRatios)
    ensures var sp := MakeSplit(rect, ratios, vertRatios);
      ValidSplit(sp) && AreaSum(Sections(rect, sp)) == Area(rect)
  {
    GridForm(rect, ratios, vertRatios);
    var sp := MakeSplit(rect, ratios, vertRatios);
    var kids := Sections(rect, sp);
    var w0, w1, w2 := kids[0].width, kids[3].width, kids[6].width;
    var h0, h1, h2 := kids[0].height, kids[1].height, kids[2].height;
    assert w0 + w1 + w2 == rect.width && h0 + h1 + h2 == rect.height;
    AreaSumNine(kids);
    assert kids[1].width == w0 && kids[2].width == w0 && kids[4].width == w1 && kids[5].width == w1;
    assert kids[7].width == w2 && kids[8].width == w2;
    assert kids[3].height == h0 && kids[6].height == h0 && kids[4].height == h1 && kids[7].height == h1;
    assert kids[5].height == h2 && kids[8].height == h2;
    assert AreaSum(kids) == w0 * h0 + w0 * h1 + w0 * h2 + w1 * h0 + w1 * h1 + w1 * h2
                            + w2 * h0 + w2 * h1 + w2 * h2;
    assert (w0 + w1 + w2) * (h0 + h1 + h2) == w0 * h0 + w0 * h1 + w0 * h2 + w1 * h0 + w1 * h1
                                             + w1 * h2 + w2 * h0 + w2 * h1 + w2 * h2;
  }

  /** A rectangle of positive size splits into nine children of positive size,
      each inside it. */
  lemma GridInside(rect: Rect, ratios: seq<int>, vertRatios: seq<int>)
    requires Proportions(ratios) && Proportions(vertRatios)
    requires rect.width > 0.0 && rect.height > 0.0
    ensures var kids := Sections(rect, MakeSplit(rect, ratios, vertRatios));
      forall k :: 0 <= k < 9 ==>
        kids[k].width > 0.0 && kids[k].height > 0.0 && Within(kids[k], rect)
  {
    GridForm(rect, ratios, vertRatios);
    forall i | 0 <= i < 3
      ensures Section(ratios[i], 10, rect.width) > 0.0
      ensures Section(vertRatios[i], 10, rect.height) > 0.0
    {
      SectionPositive(ratios[i], 10, rect.width);
      SectionPositive(vertRatios[i], 10, rect.height);
    }
  }

  /** For a parent of positive size the division points strictly increase
      from the near edge to the far edge. */
  lemma DivisionsIncrease(rect: Rect, ratios: seq<int>, vertRatios: seq<int>)
    requires Proportions(ratios) && Proportions(vertRatios)
    requires rect.width > 0.0 && rect.height > 0.0
    ensures var sp := MakeSplit(rect, ratios, vertRatios);
      ValidSplit(sp) &&
      rect.x < sp.divX[0] < sp.divX[1] < sp.divX[2] == rect.x + rect.width &&
      rect.y < sp.divY[0] < sp.divY[1] < sp.divY[2] == rect.y + rect.height
  {
    GridForm(rect, ratios, vertRatios);
    GridInside(rect, ratios, vertRatios);
    var kids := Sections(rect, MakeSplit(rect, ratios, vertRatios));
    assert kids[0].width > 0.0 && kids[3].width > 0.0 && kids[6].width > 0.0;
    assert kids[0].height > 0.0 && kids[1].height > 0.0 && kids[2].height > 0.0;
  }

  /** Child `k` spans [divX[i - 1], divX[i]) × [divY[j - 1], divY[j]) with
      i = k / 3, j = k % 3, and the parent's near edges standing in for
      divX[-1] and divY[-1]. */
  lemma CellBounds(rect: Rect, ratios: seq<int>, vertRatios: seq<int>, k: nat)
    requires Proportions(ratios) && Proportions(vertRatios) && k < 9
    ensures var sp := MakeSplit(rect, ratios, vertRatios);
      var kid := Sections(rect, sp)[k];
      ValidSplit(sp) &&
      kid.x == (if k / 3 == 0 then rect.x else sp.divX[k / 3 - 1]) &&
      kid.x + kid.width == sp.divX[k / 3] &&
      kid.y == (if k % 3 == 0 then rect.y else sp.divY[k % 3 - 1]) &&
      kid.y + kid.height == sp.divY[k % 3]
  {
    GridEdges(rect, ratios, vertRatios);
  }

  /** Every point of a parent of positive size lies in some child. */
  lemma GridCovers(rect: Rect, ratios: seq<int>, vertRatios: seq<int>)
    requires Proportions(ratios) && Proportions(vertRatios)
    requires rect.width > 0.0 && rect.height > 0.0
    ensures var kids := Sections(rect, MakeSplit(rect, ratios, vertRatios));
      forall px: real, py: real :: Contains(rect, px, py) ==>
        exists k :: 0 <= k < 9 && Contains(kids[k], px, py)
  {
    var sp := MakeSplit(rect, ratios, vertRatios);
    var kids := Sections(rect, sp);
    DivisionsIncrease(rect, ratios, vertRatios);
    forall px: real, py: real | Contains(rect, px, py)
      ensures exists k :: 0 <= k < 9 && Contains(kids[k], px, py)
    {
      var i := if px < sp.divX[0] then 0 else if px < sp.divX[1] then 1 else 2;
      var j := if py < sp.divY[0] then 0 else if py < sp.divY[1] then 1 else 2;
      var k := 3 * i + j;
      assert k / 3 == i && k % 3 == j;
      CellBounds(rect, ratios, vertRatios, k);
      assert Contains(kids[k], px, py);
    }
  }

  /** No point lies in two different children. */
  lemma GridDisjoint(rect: Rect, ratios: seq<int>, vertRatios: seq<int>)
    requires Proportions(ratios) && Proportions(vertRatios)
    requires rect.width > 0.0 && rect.height > 0.0
    ensures var kids := Sections(rect, MakeSplit(rect, ratios, vertRatios));
      forall k, k', px: real, py: real ::
        0 <= k < k' < 9 && Contains(kids[k], px, py) ==> !Contains(kids[k'], px, py)
  {
    var sp := MakeSplit(rect, ratios, vertRatios);
    var kids := Sections(rect, sp);
    DivisionsIncrease(rect, ratios, vertRatios);
    forall k, k', px: real, py: real | 0 <= k < k' < 9 && Contains(kids[k], px, py)
      ensures !Contains(kids[k'], px, py)
    {
      CellBounds(rect, ratios, vertRatios, k);
      CellBounds(rect, ratios, vertRatios, k');
      if k / 3 == k' / 3 {
        assert k % 3 < k' % 3;
        assert kids[k].y + kids[k].height <= kids[k'].y;
      } else {
        assert k / 3 < k' / 3;
        assert kids[k].x + kids[k].width <= kids[k'].x;
      }
    }
  }
}
