# One-dimensional cellular automaton generator, modelled in Dafny

The generator draws a random row of cells. It then evolves the row generation
by generation under a local rule chosen by a rule number, and prints each
generation as a line of coloured blocks. This project models its core:

- **Cell alphabets and colours** (`cells.dfy`, module `Cells`). There are
  three kinds of cell: binary (one bit), quad (two bits `g`, `rb`) and RGB
  (three bits). Each has a total colour lookup. The RGB lookup accumulates the
  weighted sum `4r + 2g + b` and reads a `when` table that has a fallback arm.
  Independent inverse tables state the same maps. The lemmas prove that each
  lookup is a bijection onto its colours, and that the RGB fallback is never
  taken.
- **The elementary rule** (`rules.dfy`, module `Rules`). A 32-bit rule number
  becomes a closure over binary cells. It starts from mask 1 and shifts it
  left by 1, 2 and 4 for the left, middle and right cell. The result is the
  signed comparison `(ruleNumber and mask) > 0`.
  - The mask is `2^(l + 2m + 4r)`. That is the mirror image of the textbook
    `4l + 2m + r` numbering, and the model keeps the generator's order.
  - Only the low eight bits of the rule number matter, so rule 256 is rule 0.
  - The hand-unrolled quad and RGB rules appear here exactly as written, with
    their generation-by-generation value bindings.
- **Triangles** (`triangles.dfy`, module `Triangles`). The cell at the apex
  of a triangle of nested binary-rule applications. The lemmas prove that
  the unrolled quad and RGB rules read their output bits off these apexes.
- **Lifting** (`lifting.dfy`, module `Lifting`). A generic `k`-round
  triangular reduction of a bit row (no wraparound). The lemmas prove:
  - its bits are the triangle apexes;
  - the quad rule (`k = 2`) and the RGB rule (`k = 3`) are instances of it,
    for any binary rule;
  - with `k = 1` it is the elementary rule itself.
- **The automaton** (`automaton.dfy`, module `Automata`). A configuration
  holds `cols`, `rows`, a random-cell supplier and a rule.
  - The iterator class `AutomatonIterator` keeps `curRow` and `curCells`.
  - `Next` seeds an empty row with `cols` drawn cells. Otherwise it steps the
    row into a fresh sequence, reading each cell's neighbours with wraparound.
    It then renders the row and increments `curRow`.
  - `ToText` drains a fresh iterator, appending each line and a newline.
  - The methods are proved against specification functions (`NextGen`,
    `GenAfter`, `Rows`, `RenderRow`, `Lines`). Lemmas about those functions
    give:
    - width preservation;
    - the row count;
    - the seed-then-step evolution;
    - the number of cells drawn;
    - the wraparound of neighbour indices;
    - the rotation symmetry of a step.

The random-cell supplier is the function `randomCell: nat -> C`. The k-th
draw made by one iterator returns `randomCell(k)`, and the iterator keeps the
count of its draws in the field `draws`. Rendering a cell is the parameter
`render: C -> string`.

## Model

| member | source | states |
|---|---|---|
| `Cells.RgbSum` | bin/main/app.kt:34-37 | the accumulated sum lies in [0, 7] and each of r, g, b can be read back from it |
| `Cells.SumColor` | bin/main/app.kt:38-48 | on each sum in [0, 7] the colour cube reads the sum's three bits back from the colour, so the eight sums get eight distinct colours |
| `Cells.ColorOf` | bin/main/app.kt:5-50 | the colour getter of each alphabet; every cell is read back from its colour by its alphabet's reference table; an RGB cell never reaches the fallback arm because `Cells.RgbSum` keeps the sum in [0, 7], which the explicit arms cover |
| `Cells.BinaryColorBijection` | bin/main/app.kt:5-8 | a binary cell is White exactly when its state is set, Black otherwise; the colour map is a bijection onto {Black, White} |
| `Cells.QuadColorBijection` | bin/main/app.kt:10-25 | (F,F)→Blue, (F,T)→Red, (T,F)→Green, (T,T)→Yellow, and this is a bijection onto those four colours |
| `Cells.RgbColorBijection` | bin/main/app.kt:27-50 | the eight RGB cells map to eight distinct colours and every colour has its RGB cell; the fallback arm is never taken because `Cells.RgbSum` keeps the sum in [0, 7] |
| `Rules.ToSigned` | bin/main/app.kt:58 | reading a 32-bit pattern as a signed Int gives a value in the Int range that is positive exactly when the pattern is non-zero with the sign bit clear |
| `Rules.BitMask` | bin/main/app.kt:54-57 | the composed shifts give the single bit 2^(l + 2m + 4r), between 1 and 128 |
| `Rules.Elementary` | bin/main/app.kt:54-58 | the signed test `(ruleNumber and mask) > 0` holds exactly when bit l + 2m + 4r of the rule number is set: the sign bit is never reached |
| `Rules.CreateBinaryRule` | bin/main/app.kt:52-59 | the closure maps binary cells l, m, r to the cell that is on exactly when bit l + 2m + 4r of the rule number is set |
| `Rules.ElementaryIsMirroredTextbook` | bin/main/app.kt:54-58 | the generator's rule equals the textbook 4l + 2m + r rule with left and right exchanged |
| `Rules.ElementaryDiffersFromTextbook` | bin/main/app.kt:54-58 | for rule 2 on (false, false, true) the two numberings disagree |
| `Rules.ElementaryLowByteOnly` | bin/main/app.kt:54-58 | the output depends only on the low eight bits of the rule number |
| `Rules.Rule256IsRule0` | bin/main/app.kt:54-58 | rule 256 (reachable from the driver's draw in 0..256) behaves as rule 0 and kills every neighbourhood |
| `Rules.Rule102Examples` | bin/main/app.kt:54-58 | rule 102 on (F,F,F) uses mask 1 and gives false; on (T,F,F) uses mask 2 and gives true |
| `Rules.ConstantRules` | bin/main/app.kt:54-58 | rule 0 gives false and rule 255 gives true on every neighbourhood |
| `Rules.ConstantBinaryRules` | bin/main/app.kt:52-59 | the binary-cell closures for rules 0 and 255 return the off and on cell for every argument triple |
| `Rules.QuadRuleOfConstant` | bin/main/app.kt:63-77 | around a constant binary rule the unrolled quad rule returns that constant in both bits |
| `Rules.RgbRuleOfConstant` | bin/main/app.kt:82-108 | around a constant binary rule the unrolled RGB rule returns that constant in all three bits |
| `Rules.QuadRuleConstants` | bin/main/app.kt:61-78 | the quad rule for rule 0 yields Quad(false, false) and for rule 255 Quad(true, true), whatever the inputs |
| `Rules.RgbRuleConstants` | bin/main/app.kt:80-109 | the RGB rule for rule 0 yields all-false (black) cells and for rule 255 all-true (white) cells |
| `Rules.QuadRuleOf` | bin/main/app.kt:63-77 | the quad rule written out around a binary rule (6, 4, 2 binary cells per generation); `Triangles.QuadRuleIsTriangle` and `Lifting.QuadRuleIsLifted` state what it computes |
| `Rules.CreateQuadRule` | bin/main/app.kt:61-78 | the quad rule for a rule number, built on `CreateBinaryRule`; `Rules.QuadRuleConstants` states its constant cases |
| `Rules.RgbRuleOf` | bin/main/app.kt:82-108 | the RGB rule written out around a binary rule (9, 7, 5, 3 binary cells per generation); `Triangles.RgbRuleIsTriangle` and `Lifting.RgbRuleIsLifted` state what it computes |
| `Rules.CreateRgbRule` | bin/main/app.kt:80-109 | the RGB rule for a rule number, built on `CreateBinaryRule`; `Rules.RgbRuleConstants` states its constant cases |
| `Triangles.Triangle` | bin/main/app.kt:70-75 | the reference definition: the cell after k generations, computed by nested rule applications over the 2k + 1 cells above it; `Triangles.TriangleTwo` and `Triangles.TriangleNine` write it out for the unrolled rules |
| `Triangles.TriangleTwo` | bin/main/app.kt:70-75 | two generations over five consecutive cells are the rule applied to the three first-generation results |
| `Triangles.TriangleNine` | bin/main/app.kt:92-106 | the three third-generation cells over nine cells, written out generation by generation (7, 5, 3 cells) |
| `Triangles.QuadRuleIsTriangle` | bin/main/app.kt:64-76 | the quad rule's two output bits are the apexes of the height-2 triangles over the six laid-out cells |
| `Triangles.RgbRuleIsTriangle` | bin/main/app.kt:83-107 | the RGB rule's three output bits are the apexes of the height-3 triangles over the nine laid-out cells |
| `Lifting.Step` | bin/main/app.kt:70-73 | one generation over a window loses a cell at each end; bit i is the rule applied to bits i, i+1, i+2 |
| `Lifting.Reduce` | bin/main/app.kt:70-75 | k generations shrink a row by 2k bits |
| `Lifting.TriangleStep` | bin/main/app.kt:70-75 | a triangle of height k over one stepped row is the triangle of height k+1 over the original row |
| `Lifting.ReduceAt` | bin/main/app.kt:70-75 | every bit surviving k generations is the apex of the height-k triangle above it |
| `Lifting.LiftedRule` | bin/main/app.kt:64-76 | the lifted rule for k-bit cells returns k bits |
| `Lifting.SingleBitLiftIsElementary` | bin/main/app.kt:52-59 | with one bit per cell, lifting the binary rule gives the elementary rule itself |
| `Lifting.QuadLayout` | bin/main/app.kt:64-69 | three quad cells are flattened as l.g, l.rb, m.g, m.rb, r.g, r.rb |
| `Lifting.RgbLayout` | bin/main/app.kt:83-91 | three RGB cells are flattened as l.r, l.g, l.b, m.r, m.g, m.b, r.r, r.g, r.b |
| `Lifting.QuadRuleIsLifted` | bin/main/app.kt:61-78 | the hand-unrolled quad rule equals the generic 2-round triangular reduction, for any binary rule |
| `Lifting.RgbRuleIsLifted` | bin/main/app.kt:80-109 | the hand-unrolled RGB rule equals the generic 3-round triangular reduction, for any binary rule |
| `Automata.Left` | src/main/kotlin/automaton.kt:22 | the left-neighbour index lies in [0, cols); cell 0's left neighbour is cols-1, any other cell's is the one before |
| `Automata.Right` | src/main/kotlin/automaton.kt:24 | the right-neighbour index lies in [0, cols); the last cell's right neighbour is 0, any other cell's is the one after |
| `Automata.StepRow` | src/main/kotlin/automaton.kt:20-27 | the stepped row has as many cells as the old one |
| `Automata.StepRowWraps` | src/main/kotlin/automaton.kt:21-26 | new[i] = rule(old[i-1], old[i], old[i+1]) inside the row; the first cell reads the last as its left neighbour and the last reads the first as its right |
| `Automata.StepRowRotates` | src/main/kotlin/automaton.kt:21-26 | stepping a row rotated by one place gives the rotated step: no cell of the ring is distinguished |
| `Automata.Seed` | src/main/kotlin/automaton.kt:14-18 | a seeded row holds Width cells, the ones drawn next from the supplier, in call order |
| `Automata.NextGen` | src/main/kotlin/automaton.kt:13-28 | one call of next: an empty row is seeded with Width newly drawn cells; any other row is stepped, keeps its width and draws nothing |
| `Automata.GenAfter` | src/main/kotlin/automaton.kt:13-28 | the state after k calls of next on a fresh iterator; after any positive number of calls the row has Width cells and exactly Width cells have been drawn in all, so with cols ≤ 0 the row stays empty |
| `Automata.RowsUpTo` | src/main/kotlin/automaton.kt:33 | n calls of next yield n rows |
| `Automata.Rows` | src/main/kotlin/automaton.kt:11 | iteration yields max(rows, 0) rows |
| `Automata.RowsEvolve` | src/main/kotlin/automaton.kt:13-35 | every yielded row has Width cells; with cols > 0 the first is the seed and each later row is the step of the one before; with cols ≤ 0 every row is empty |
| `Automata.RenderRow` | src/main/kotlin/automaton.kt:29-32 | the reference definition of a line: the renderings of the row's cells in order; `Automata.RenderRowAppend` and `Automata.RenderRowLength` state its properties |
| `Automata.RenderRowAppend` | src/main/kotlin/automaton.kt:29-32 | rendering a row is the concatenation of rendering its parts, in order |
| `Automata.RenderRowLength` | src/main/kotlin/automaton.kt:29-32 | with a fixed-width renderer a line's length is that width times the number of cells |
| `Automata.Lines` | src/main/kotlin/automaton.kt:42-49 | the reference definition of the text: each rendered row followed by a newline, in order; `Automata.LinesAppend` states how it splits |
| `Automata.LinesAppend` | src/main/kotlin/automaton.kt:43-47 | the text of two row sequences is the two texts joined |
| `Automata.DrawRow` | src/main/kotlin/automaton.kt:15-18 | the loop draws exactly the seed row, in call order, and advances the draw count by Width |
| `Automata.StepCells` | src/main/kotlin/automaton.kt:20-27 | the loop builds exactly the stepped row in a fresh sequence from reads of the old row |
| `Automata.RenderLine` | src/main/kotlin/automaton.kt:29-32 | the loop returns the in-order concatenation of the renderings of the row's cells |
| `Automata.AutomatonIterator.constructor` | src/main/kotlin/automaton.kt:7-9 | a fresh iterator is at row 0 with an empty row and nothing drawn |
| `Automata.AutomatonIterator.HasNext` | src/main/kotlin/automaton.kt:11 | for an iterator in its invariant another row is due exactly while fewer rows have been produced than `Rows` holds, that is max(rows, 0) |
| `Automata.AutomatonIterator.Next` | src/main/kotlin/automaton.kt:13-35 | one call reseeds an empty row or steps a non-empty one, increments curRow by one and returns the rendered new row; the state stays the one reached from a fresh iterator |
| `Automata.ToText` | src/main/kotlin/automaton.kt:42-49 | the text is every row the iterator yields, rendered and followed by a newline, in order |

## Left out

- The driver (`main` below the rules: the board size, random choice of
  alphabet and rule number, the endless print loop and the one-second delay)
  is randomness, console output and timing.
- The per-cell rendering in `cell.kt` (terminal escape codes built from a
  colour code) is the parameter `render`. The colour codes are not part of
  this model, and neither is the `Color` enum's definition: `Color` is a
  plain enumeration of the eight names.
- The random-cell supplier is a fixed function of the draw number, not a
  random source.
- Every iterator restarts the draw count at 0, so two iterators over one
  automaton draw the same seed row. The model's `ToText` is therefore a
  function of the automaton. In the generator, `toString` and `forEach` each
  build a new iterator over a closure on the global random source, and each
  draws a fresh seed row.
- Kotlin generics and the `Cell` class hierarchy are replaced by one closed
  datatype with a subset type per alphabet. The rules are closures over the
  matching subset type.
- `Automata.AutomatonIterator.Next`: `curRow` is an unbounded integer. The
  wrap-around of the 32-bit counter after 2^31 calls is not modelled.
- `Automata.StepCells`: the index `cols + i - 1` is computed without 32-bit
  overflow. The generator would overflow only for rows of more than 2^30
  cells.
- `Automata.AutomatonIterator.Next` requires the iterator's invariant. An
  iterator that was not built by the constructor is not modelled.
- The iterator's `hasNext` is the predicate `HasNext`. `Next` does not
  require it, because the generator's `next` does not check it either.
