# Recursive 2:3:5 subdivision sketch, modelled in Dafny

The sketch is a p5.js drawing. `setup` opens a 1500×1000 canvas and calls
`divideRect` on the whole canvas at level 1, with a split budget of 2, a
palette of ten colours and colour index 0. `divideRect` then does four things:

- It shuffles the ratio array `[2, 3, 5]` once for each axis with
  `shuffleArray`, an in-place Fisher–Yates shuffle.
- It cuts the rectangle into a 3×3 grid in those proportions.
- It draws the two inner vertical and two inner horizontal division lines,
  advancing the colour index after each line.
- It recurses into the nine children. A child keeps the parent's budget when
  a level/ratio bonus applies and loses one otherwise.

The model is functional:

- `Math.random()` becomes an explicit stream of draws in [0, 1) plus a read
  position.
- Drawing becomes the returned trace of strokes. Each stroke records its
  segment, the colour cursor, the palette entry it selects, and the level of
  the rectangle that drew it.
- Coordinates are exact reals.

Modules:

- `Ratios`: the ratio array and its sum.
- `Shuffle`: `shuffleArray`, as a recursive function and as the loop itself.
- `Grid`: division points and the 3×3 grid of children.
- `Lines`: the four division lines and their colours.
- `Subdivide`: one call, the recursion, the budget rule and the termination
  measure.
- `Counting`: how many lines a call draws.
- `Sketch`: the palette, the canvas and the entry call.

### Termination and the bonus rule

`divideRect` terminates because `splitsLeft + max(0, 4 - level)` drops on
every recursive call. Children are one level deeper, and the bonus can keep
a child's budget only while its level is below 4.

The bonus test looks up `ratios[indexOf(section) % 3]`. The child in column
`i` and row `j` is at position `3 * i + j`, so the test reads the
horizontal ratio at index `j`. That is not the ratio `ratios[i]` that sized
the child's width. The model keeps this lookup literally. `ChildBudget`
implements it, and `BonusByPosition` states it per grid position.
`LocalBonus` states, for every child of every dividing call, that its width
comes from the ratio at its column index `k / 3` while its budget comes from
the ratio at its row index `k % 3`. `BonusFollowsRowIndex` shows a concrete
grid where the two readings differ: the widest child loses a split and a
narrow one keeps its budget.

The total is independent of the draws. Every ordering of 2, 3, 5 has exactly
one 5, so the bonus reaches exactly three of the nine children of each
level-2 rectangle. As a result the sketch always draws exactly 1336 lines
(`Sketch.SetupCount`).

## Model

| member | source | states |
|---|---|---|
| Ratios.Sum | sketch.js:48 | `reduce((a, b) => a + b, 0)`: the ratios added left to right, starting from 0. |
| Ratios.SumOfPermutation | sketch.js:48 | The `reduce` sum of the ratios does not depend on their order. |
| Ratios.RatioPermFacts | sketch.js:47-48 | Every ordering of `[2, 3, 5]` totals 10, holds only 2, 3 and 5, and holds exactly one 5. |
| Ratios.RatioPermElements | sketch.js:47 | An ordering of `[2, 3, 5]` has three distinct entries, each 2, 3 or 5. |
| Shuffle.SwapIndex | sketch.js:129 | `Math.floor(Math.random() * (i + 1))` picks a swap partner in [0, i]. |
| Shuffle.EveryPartnerReachable | sketch.js:129 | Every partner in [0, i] is picked by some draw in [0, 1), namely `j / (i + 1)`. |
| Shuffle.Swap | sketch.js:130 | The destructuring swap exchanges positions i and j and leaves every other position alone. |
| Shuffle.SwapPermutes | sketch.js:130 | A swap keeps the multiset of elements. |
| Shuffle.ShuffleFromPermutes | sketch.js:128-131 | The loop from index i down to 1 returns a permutation of its input. |
| Shuffle.ShuffleFrom | sketch.js:128-131 | The loop from index i keeps the length and reads exactly i draws. |
| Shuffle.Shuffled | sketch.js:127-133 | `shuffleArray` as a function of the draws: it keeps the length and reads one draw per index from the last down to 1. |
| Shuffle.ShuffledPermutes | sketch.js:127-133 | `shuffleArray` returns a permutation of its input. |
| Shuffle.ShuffleArray | sketch.js:127-133 | The loop as written keeps length and multiset, reads length − 1 draws, and agrees with the recursive reading `Shuffled`. |
| Shuffle.ShuffleRatios | sketch.js:47 | Shuffling `[2, 3, 5]` gives an ordering of 2, 3, 5 and reads two draws. |
| Shuffle.ShuffleProportions | sketch.js:47-48 | A shuffled ratio array is three positive parts totalling 10. |
| Shuffle.ShuffleThree | sketch.js:128-131 | On three items the shuffle swaps index 2 with the first draw's partner, then index 1 with the second draw's partner. |
| Shuffle.EveryOrderReachable | sketch.js:127-133 | Each of the six orderings of 2, 3, 5 comes out of the shuffle for some pair of draws. |
| Grid.Section | sketch.js:57 | One section along an axis: `(ratio / total) * extent`, as for section widths and section heights. |
| Grid.SectionsAdd | sketch.js:57 | Section lengths add: the section of a + b is the section of a plus the section of b. |
| Grid.SectionPositive | sketch.js:57 | A positive ratio of a positive extent gives a positive section. |
| Grid.DivisionPoints | sketch.js:55-60 | The first division point is the start plus the first section; each later one is the previous point plus the next section. |
| Grid.DivisionPointAt | sketch.js:55-60 | Division point k is the start plus the sum of the first k + 1 ratios, over the total, times the extent. |
| Grid.MakeSplit | sketch.js:48-69 | Each axis gets one division point per ratio. |
| Grid.Cell | sketch.js:94-100 | The `subRect` of column i, row j: near corner at the parent's near edge or at `divX[i − 1]`, `divY[j − 1]`; size the column's and the row's sections; one level down. |
| Grid.Sections | sketch.js:92-103 | There are exactly nine children, each one level below the parent. |
| Grid.FarEdge | sketch.js:48-69 | For any shuffles the total is 10 and the last division point of each axis is the parent's far edge, the point that `slice(0, -1)` drops. |
| Grid.SplitEnds | sketch.js:55-69 | Any ratios that are three positive parts totalling 10 end each axis at the far edge. |
| Grid.GridForm | sketch.js:92-103 | Child (i, j) has width `ratios[i]/10 · width` and height `vertRatios[j]/10 · height`. Its near corner is the parent's near edge or division point i − 1 (resp. j − 1). |
| Grid.GridEdges | sketch.js:92-103 | Children meet edge to edge: each column starts where the previous one ends, the first starts at the parent's left edge and the last ends at its right edge. The right edge of column i is `divX[i]`. Rows behave the same way with `divY`. |
| Grid.GridSums | sketch.js:97-98 | The widths of the three children in a row add up to the parent's width, and the heights in a column add up to its height. |
| Grid.GridArea | sketch.js:92-103 | The nine children's areas add up to the parent's area. |
| Grid.GridInside | sketch.js:92-103 | In a parent of positive size every child has positive size and lies inside the parent. |
| Grid.DivisionsIncrease | sketch.js:55-69 | In a parent of positive size the division points strictly increase up to the far edge. |
| Grid.CellBounds | sketch.js:95-98 | Child k spans [divX[i − 1], divX[i]) × [divY[j − 1], divY[j]), with i = k / 3 and j = k % 3. |
| Grid.GridCovers | sketch.js:92-103 | Every point of the parent lies in some child. |
| Grid.GridDisjoint | sketch.js:92-103 | No point lies in two different children. |
| Lines.AllButLast | sketch.js:76 | `slice(0, -1)` keeps every element but the last, in order. |
| Lines.PaletteEntry | sketch.js:77 | `colorPalette[colorIndex % colorPalette.length]`: the colour the cursor selects. |
| Lines.PaletteWraps | sketch.js:77 | The selected colour is always a palette entry, is the entry at the cursor while the cursor is in range, and repeats once the cursor has gone round the palette. |
| Lines.VerticalSegments | sketch.js:78 | One vertical segment per x, from the rectangle's top edge to its bottom edge. |
| Lines.HorizontalSegments | sketch.js:85 | One horizontal segment per y, from the rectangle's left edge to its right edge. |
| Lines.DivisionLines | sketch.js:76-87 | Both drawing loops: vertical lines at every x division point but the last, then horizontal lines at every y division point but the last, with one colour cursor running on through both. |
| Lines.Paint | sketch.js:76-87 | The t-th line is drawn with cursor `colorIndex + t` and colour `palette[(colorIndex + t) % length]`. |
| Lines.LinesShape | sketch.js:76-87 | A call draws exactly four lines: vertical at divX[0] and divX[1] spanning the height, then horizontal at divY[0] and divY[1] spanning the width. They use consecutive cursors and run along the near edges of the second and third columns and rows. |
| Lines.LinesInside | sketch.js:76-87 | Every division line lies inside the rectangle and strictly away from the edges it runs parallel to. |
| Subdivide.ChildBudget | sketch.js:107-113 | A child's budget is the parent's or one less. With a positive parent budget the termination measure strictly drops. |
| Subdivide.BonusByPosition | sketch.js:92-113 | The child in column i, row j keeps the budget iff its level is below 3, or its level is below 4 and `ratios[j]` is 5. |
| Subdivide.LocalBonus | sketch.js:92-113 | For every dividing call and every child k: the child's width is the section of `ratios[k / 3]`, and it keeps the parent's budget iff its level is below 3, or its level is below 4 and `ratios[k % 3]` is 5; otherwise it gets one less. |
| Subdivide.BonusFollowsRowIndex | sketch.js:92-113 | In the grid of a level-2 rectangle with horizontal ratios [5, 2, 3], child 1 has the width of ratio 5 yet its call gets budget 1, while child 3 has the width of ratio 2 and its call keeps budget 2. |
| Subdivide.ChildCalls | sketch.js:106-118 | One call per section, in order, each with that section's budget and the same colour cursor. |
| Subdivide.Local | sketch.js:46-118 | A dividing call reads four draws and draws four lines with cursors `colorIndex` to `colorIndex + 3`. It makes nine calls one level down, all starting from cursor `colorIndex + 4`, with budgets within one of its own and a smaller measure. |
| Subdivide.LocalRatios | sketch.js:47-64 | The horizontal ratios come from the first two draws and the vertical ones from the next two; both are orderings of 2, 3, 5. |
| Subdivide.LocalParts | sketch.js:46-118 | The lines are the split's division lines and the calls are its sections with their budgets. |
| Subdivide.DivideRect | sketch.js:43-120 | With no budget nothing is drawn and no draw is read. Otherwise the call's own four lines come first. Draws read equal lines drawn. Every line shows the palette entry its cursor selects. A line d levels down uses one of the cursors `colorIndex + 4d` to `colorIndex + 4d + 3`, and d is below the termination measure. |
| Subdivide.DivideEach | sketch.js:106-119 | Sibling calls run in order, each reading draws where the previous one stopped. The same cursor and level facts hold across the siblings. |
| Subdivide.LocalInside | sketch.js:76-103 | A call on a rectangle of positive size draws inside it and passes its children positive rectangles inside it. |
| Subdivide.DivideRectInside | sketch.js:43-120 | Every line drawn from a rectangle of positive size lies inside it. |
| Subdivide.DivideEachInside | sketch.js:106-119 | Every line drawn by sibling calls on positive rectangles inside `outer` lies inside `outer`. |
| Subdivide.BudgetKeepsDepth | sketch.js:108-113 | The bonus rule keeps the budgets reachable from the entry call bounded: at most 2, and level + budget at most 5 from level 3 on. |
| Subdivide.LocalDepth | sketch.js:99-113 | A dividing call within that bound is at level at most 4 and passes the bound to every child. |
| Subdivide.DivideRectDepth | sketch.js:33-113 | From within the bound, lines are drawn only for rectangles at level at most 4. |
| Subdivide.DivideEachDepth | sketch.js:106-119 | The same holds across sibling calls. |
| Counting.CountSumNine | sketch.js:106-119 | The lines of nine sibling calls are the sum of each call's lines. |
| Counting.ChildrenCount | sketch.js:106-119 | Whatever the shuffles, the nine children of a dividing call draw `LineCount` minus four lines, because exactly one row has ratio 5. |
| Counting.DivideRectCount | sketch.js:43-120 | A call draws exactly `LineCount(level, splitsLeft)` lines for every stream of draws. |
| Counting.DivideEachCount | sketch.js:106-119 | Sibling calls draw the sum of their counts. |
| Sketch.Setup | sketch.js:33 | The entry call draws at least four lines and reads one draw per line. |
| Sketch.SetupInside | sketch.js:24-33 | Every line of the sketch lies on the 1500×1000 canvas. |
| Sketch.SetupLevels | sketch.js:7-33 | Lines are drawn only for rectangles at levels 1 to 4. A line at level l uses one of the cursors 4(l − 1) to 4(l − 1) + 3 and shows `palette[cursor % 10]`. |
| Sketch.SetupOpens | sketch.js:33-87 | The sketch opens with two vertical lines across the full height of the canvas, then two horizontal lines across its full width, at the first two division points. |
| Sketch.SetupOpeningColours | sketch.js:7-87 | Those first four lines are red, green, blue and red. |
| Sketch.SetupCount | sketch.js:33-119 | Whatever the draws, the sketch draws exactly 1336 lines and reads exactly 1336 draws. |

## Left out

- The p5.js canvas calls are not modelled: `createCanvas`, `background`,
  `noLoop`, `noFill`, `strokeWeight`, `stroke` and `line`. Drawing is the
  returned trace of strokes; `stroke` before `line` becomes the stroke's
  colour.
- The `stroke` call at sketch.js:72 is not modelled. Every line is preceded
  by its own `stroke` call, so that one never colours a line.
- `color(...)` is modelled as a plain RGB triple, without p5's colour
  objects. The comment about HSB mode is not followed by a `colorMode`
  call, so the default RGB reading is used.
- `Math.random()` is modelled as an arbitrary stream of values in [0, 1).
  Uniformity, and hence the probabilities of the orderings, is out of scope.
- Floating-point rounding is not modelled. Coordinates are exact reals, so
  equalities such as "the last division point is the far edge" hold exactly
  in the model and only approximately in JavaScript.
- `sections.indexOf(section)` is modelled as the section's position.
  Sections are distinct objects, so the first match is the section itself.
- `shuffleArray` works in place and returns the same array. The model
  returns a new sequence; each call gets a fresh literal `[2, 3, 5]`, so no
  other reference can observe the difference.
- `colorIndex` is modelled as a natural number, since the entry call passes
  0 and the index only grows. The `%` therefore never sees a negative
  operand.
- The palette is a generic sequence of length at least 1 everywhere except
  `Sketch`, which uses the literal ten-colour palette.
- The canvas size enters only through the initial rectangle, with p5's
  `width` and `height` read as 1500 and 1000.
- Sketch.Setup: its own contract states only the lower bound and the
  draw count. The exact line count, the levels and the geometry are in the
  `Sketch` lemmas.
