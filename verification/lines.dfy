/** The division lines one subdivision draws. Drawing is
    modelled as a trace of strokes: the canvas calls `stroke` and `line`
    become records of the segment and the colour it was drawn in. */
module Lines {
  import opened Ratios
  import opened Grid

  datatype Segment = Segment(x1: real, y1: real, x2: real, y2: real)

  /** One `line(...)` call: its segment, the colour cursor `colorIndex` at that
      moment, the palette entry selected by it, and the level of the rectangle
      being divided (a label for stating properties; the canvas never sees it). */
  datatype Stroke<C> = Stroke(seg: Segment, cursor: nat, colour: C, level: int)

  /** Both end points of `s` lie in `r`, edges included. */
  predicate SegmentWithin(s: Segment, r: Rect)
  {
    r.x <= s.x1 <= r.x + r.width && r.x <= s.x2 <= r.x + r.width &&
    r.y <= s.y1 <= r.y + r.height && r.y <= s.y2 <= r.y + r.height
  }

  /** `colorPalette[colorIndex % colorPalette.length]`: the cursor wraps around
      the palette. */
  function PaletteEntry<C>(palette: seq<C>, cursor: nat): C
    requires |palette| >= 1
  {
    palette[cursor % |palette|]
  }

  /** The cursor selects an entry of the palette: the entry at the cursor
      itself while it is in range, and the same entry again one full turn of
      the palette later. */
  lemma PaletteWraps<C>(palette: seq<C>, cursor: nat)
    requires |palette| >= 1
    ensures PaletteEntry(palette, cursor) in palette
    ensures cursor < |palette| ==> PaletteEntry(palette, cursor) == palette[cursor]
    ensures PaletteEntry(palette, cursor + |palette|) == PaletteEntry(palette, cursor)
  {
    ModShift(cursor, |palette|);
  }

  lemma MulAtLeast(k: int, n: int)
    requires k >= 1 && n > 0
    ensures k * n >= n
  {
  }

  /** Adding the modulus does not change the remainder. */
  lemma ModShift(a: nat, n: nat)
    requires n > 0
    ensures (a + n) % n == a % n
  {
    var q, r := a / n, a % n;
    var q', r' := (a + n) / n, (a + n) % n;
    var d := q' - q - 1;
    assert d * n == r - r' by {
      assert a == q * n + r;
      assert a + n == q' * n + r';
      assert q' * n == (q + 1) * n + d * n;
    }
    if d >= 1 {
      MulAtLeast(d, n);
    } else if d <= -1 {
      MulAtLeast(-d, n);
    }
  }

  /** `slice(0, -1)`: every element but the last; empty stays empty. */
  function AllButLast<T>(s: seq<T>): (r: seq<T>)
    ensures |s| > 0 ==> |r| == |s| - 1
    ensures |s| == 0 ==> r == []
    ensures forall k :: 0 <= k < |r| ==> r[k] == s[k]
  {
    if |s| == 0 then [] else s[..|s| - 1]
  }

  /** A vertical line at each x, spanning the rectangle's height. */
  function VerticalSegments(rect: Rect, xs: seq<real>): (segs: seq<Segment>)
    ensures |segs| == |xs|
    ensures forall t :: 0 <= t < |xs| ==>
      segs[t].x1 == segs[t].x2 == xs[t] && segs[t].y1 == rect.y && segs[t].y2 == rect.y + rect.height
  {
    seq(|xs|, t requires 0 <= t < |xs| => Segment(xs[t], rect.y, xs[t], rect.y + rect.height))
  }

  /** A horizontal line at each y, spanning the rectangle's width. */
  function HorizontalSegments(rect: Rect, ys: seq<real>): (segs: seq<Segment>)
    ensures |segs| == |ys|
    ensures forall t :: 0 <= t < |ys| ==>
      segs[t].y1 == segs[t].y2 == ys[t] && segs[t].x1 == rect.x && segs[t].x2 == rect.x + rect.width
  {
    seq(|ys|, t requires 0 <= t < |ys| => Segment(rect.x, ys[t], rect.x + rect.width, ys[t]))
  }

  /** Draws the segments in order, selecting `palette[colorIndex % length]`
      before each one and advancing `colorIndex` after it: the t-th segment is
      drawn with cursor `cursor + t`. */
  function Paint<C>(segs: seq<Segment>, palette: seq<C>, cursor: nat, level: int): (strokes: seq<Stroke<C>>)
    requires |palette| >= 1
    ensures |strokes| == |segs|
    ensures forall t :: 0 <= t < |segs| ==>
      strokes[t].seg == segs[t] && strokes[t].cursor == cursor + t &&
      strokes[t].colour == PaletteEntry(palette, cursor + t) && strokes[t].level == level
    decreases |segs|
  {
    if |segs| == 0 then []
    else [Stroke(segs[0], cursor, PaletteEntry(palette, cursor), level)]
         + Paint(segs[1..], palette, cursor + 1, level)
  }

  /** The two drawing loops: vertical lines at every division point of the x axis but
      the last, then horizontal lines at every division point of the y axis
      but the last; the colour cursor runs on from the first loop into the
      second. */
  function DivisionLines<C>(rect: Rect, sp: Split, palette: seq<C>, cursor: nat): seq<Stroke<C>>
    requires |palette| >= 1
  {
    Paint(VerticalSegments(rect, AllButLast(sp.divX)) + HorizontalSegments(rect, AllButLast(sp.divY)),
          palette, cursor, rect.level)
  }

  /** A subdivision draws exactly four lines: vertical ones at divX[0] and
      divX[1], then horizontal ones at divY[0] and divY[1], with consecutive
      colour cursors starting from the one it was given. The vertical lines
      run along the left edges of the second and third columns of children,
      the horizontal lines along the top edges of the second and third rows. */
  lemma LinesShape<C>(rect: Rect, ratios: seq<int>, vertRatios: seq<int>, palette: seq<C>, cursor: nat)
    requires Proportions(ratios) && Proportions(vertRatios) && |palette| >= 1
    ensures var sp := MakeSplit(rect, ratios, vertRatios);
      var lines := DivisionLines(rect, sp, palette, cursor);
      var kids := Sections(rect, sp);
      |lines| == 4 &&
      lines[0].seg == Segment(sp.divX[0], rect.y, sp.divX[0], rect.y + rect.height) &&
      lines[1].seg == Segment(sp.divX[1], rect.y, sp.divX[1], rect.y + rect.height) &&
      lines[2].seg == Segment(rect.x, sp.divY[0], rect.x + rect.width, sp.divY[0]) &&
      lines[3].seg == Segment(rect.x, sp.divY[1], rect.x + rect.width, sp.divY[1]) &&
      lines[0].seg.x1 == kids[3].x && lines[1].seg.x1 == kids[6].x &&
      lines[2].seg.y1 == kids[1].y && lines[3].seg.y1 == kids[2].y &&
      forall t :: 0 <= t < 4 ==>
        lines[t].cursor == cursor + t && lines[t].colour == PaletteEntry(palette, cursor + t) &&
        lines[t].level == rect.level
  {
    GridEdges(rect, ratios, vertRatios);
    var sp := MakeSplit(rect, ratios, vertRatios);
    CellBounds(rect, ratios, vertRatios, 3);
    CellBounds(rect, ratios, vertRatios, 6);
    CellBounds(rect, ratios, vertRatios, 1);
    CellBounds(rect, ratios, vertRatios, 2);
  }

  /** In a rectangle of positive size every division line lies inside it and
      strictly away from the edges it runs parallel to. */
  lemma LinesInside<C>(rect: Rect, ratios: seq<int>, vertRatios: seq<int>, palette: seq<C>, cursor: nat)
    requires Proportions(ratios) && Proportions(vertRatios) && |palette| >= 1
    requires rect.width > 0.0 && rect.height > 0.0
    ensures var lines := DivisionLines(rect, MakeSplit(rect, ratios, vertRatios), palette, cursor);
      (forall t :: 0 <= t < |lines| ==> SegmentWithin(lines[t].seg, rect)) &&
      (forall t :: 0 <= t < |lines| && t < 2 ==>
        rect.x < lines[t].seg.x1 < rect.x + rect.width) &&
      (forall t :: 0 <= t < |lines| && 2 <= t ==>
        rect.y < lines[t].seg.y1 < rect.y + rect.height)
  {
    LinesShape(rect, ratios, vertRatios, palette, cursor);
    DivisionsIncrease(rect, ratios, vertRatios);
  }
}
