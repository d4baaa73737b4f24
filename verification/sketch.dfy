/** `setup`: a 1500×1000 canvas, a palette of ten colours,
    and one call `divideRect(initialRect, 2, colorPalette, 0)` on the whole
    canvas at level 1. The canvas calls before it only configure drawing. */
module Sketch {
  import opened Shuffle
  import opened Grid
  import opened Lines
  import opened Subdivide
  import opened Counting

  /** `color(r, g, b)` in p5's default RGB mode. */
  datatype Colour = Colour(r: int, g: int, b: int)

  const Red: Colour := Colour(180, 0, 0)
  const Green: Colour := Colour(26, 128, 0)
  const Blue: Colour := Colour(0, 0, 180)

  /** The ten colours of `colorPalette`, in the order they are listed. */
  const Palette: seq<Colour> := [Red, Green, Blue, Red, Green, Blue, Green, Blue, Blue, Blue]

  /** The initial rectangle: the whole 1500×1000 canvas at level 1. */
  const Canvas: Rect := Rect(0.0, 0.0, 1500.0, 1000.0, 1)

  /** The one call that draws the sketch: budget 2, colour index 0. */
  function Setup(rng: Stream): (d: Drawing<Colour>)
    requires ValidStream(rng)
    ensures d.next == |d.strokes|
    ensures |d.strokes| >= 4
  {
    DivideRect(Canvas, 2, Palette, 0, rng, 0)
  }

  /** Every line of the sketch lies on the canvas. */
  lemma SetupInside(rng: Stream)
    requires ValidStream(rng)
    ensures AllWithin(Setup(rng).strokes, Canvas)
  {
    DivideRectInside(Canvas, 2, Palette, 0, rng, 0);
  }

  /** Lines are drawn only for rectangles at levels 1 to 4. A line drawn for a
      rectangle at level `l` uses one of the four cursors from `4 * (l - 1)`
      on, and shows the palette entry that cursor selects. */
  lemma SetupLevels(rng: Stream)
    requires ValidStream(rng)
    ensures forall t :: 0 <= t < |Setup(rng).strokes| ==>
      var s := Setup(rng).strokes[t];
      1 <= s.level <= 4 &&
      4 * (s.level - 1) <= s.cursor < 4 * (s.level - 1) + 4 &&
      s.colour == Palette[s.cursor % |Palette|]
  {
    var d := Setup(rng);
    DivideRectDepth(Canvas, 2, Palette, 0, rng, 0);
    forall t | 0 <= t < |d.strokes|
      ensures 1 <= d.strokes[t].level <= 4
      ensures 4 * (d.strokes[t].level - 1) <= d.strokes[t].cursor < 4 * (d.strokes[t].level - 1) + 4
      ensures d.strokes[t].colour == Palette[d.strokes[t].cursor % |Palette|]
    {
      assert Painted(d.strokes[t], Palette);
      assert Placed(d.strokes[t], 0, 1, Measure(2, 1));
    }
  }

  /** The sketch opens with the canvas's own four lines: vertical ones at the
      first two horizontal division points, then horizontal ones at the first
      two vertical division points. */
  lemma SetupOpens(rng: Stream)
    requires ValidStream(rng)
    ensures var d := Setup(rng);
      var sp := Local(Canvas, 2, Palette, 0, rng, 0).split;
      |d.strokes| >= 4 && |sp.divX| == 3 && |sp.divY| == 3 &&
      d.strokes[0].seg == Segment(sp.divX[0], 0.0, sp.divX[0], 1000.0) &&
      d.strokes[1].seg == Segment(sp.divX[1], 0.0, sp.divX[1], 1000.0) &&
      d.strokes[2].seg == Segment(0.0, sp.divY[0], 1500.0, sp.divY[0]) &&
      d.strokes[3].seg == Segment(0.0, sp.divY[1], 1500.0, sp.divY[1])
  {
    var d := Setup(rng);
    LocalParts(Canvas, 2, Palette, 0, rng, 0);
    var st := Local(Canvas, 2, Palette, 0, rng, 0);
    LinesShape(Canvas, st.split.ratios, st.split.vertRatios, Palette, 0);
    assert d.strokes[..4] == st.lines;
    assert d.strokes[0] == st.lines[0] && d.strokes[1] == st.lines[1];
    assert d.strokes[2] == st.lines[2] && d.strokes[3] == st.lines[3];
  }

  /** The first four palette entries: red, green, blue, red. */
  lemma OpeningEntries()
    ensures PaletteEntry(Palette, 0) == Red && PaletteEntry(Palette, 1) == Green
    ensures PaletteEntry(Palette, 2) == Blue && PaletteEntry(Palette, 3) == Red
  {
  }

  /** The canvas's own four lines are red, green, blue and red. */
  lemma SetupOpeningColours(rng: Stream)
    requires ValidStream(rng)
    ensures |Setup(rng).strokes| >= 4
    ensures Setup(rng).strokes[0].colour == Red && Setup(rng).strokes[1].colour == Green
    ensures Setup(rng).strokes[2].colour == Blue && Setup(rng).strokes[3].colour == Red
  {
    var d := Setup(rng);
    var st := Local(Canvas, 2, Palette, 0, rng, 0);
    OpeningEntries();
    forall t | 0 <= t < 4
      ensures d.strokes[t].colour == PaletteEntry(Palette, t)
    {
      assert d.strokes[t] == d.strokes[..4][t] == st.lines[t];
    }
  }

  /** The closed form of the count for the entry call, level by level. */
  lemma EntryCount()
    ensures LineCount(1, 2) == 1336
  {
    assert LineCount(4, 1) == 4;
    assert LineCount(3, 1) == 4;
    assert LineCount(3, 2) == 40;
    assert LineCount(2, 2) == 148;
  }

  /** Whatever the random draws, the sketch draws exactly 1336 lines and
      reads exactly 1336 draws: 4 for the canvas, 9 × 4 for its level-2
      children and 81 × 4 for the level-3 rectangles below them. Each level-2
      rectangle has three level-3 children that keep budget 2, those whose
      row index holds the 5 of its horizontal ratios, and only those 27 level-3 rectangles are divided
      again, into 243 level-4 rectangles that draw 4 lines each. */
  lemma SetupCount(rng: Stream)
    requires ValidStream(rng)
    ensures |Setup(rng).strokes| == 1336
    ensures Setup(rng).next == 1336
  {
    DivideRectCount(Canvas, 2, Palette, 0, rng, 0);
    EntryCount();
  }
}
