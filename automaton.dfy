/** The automaton: a ring of `cols` cells evolved row by row.

    The first row is drawn cell by cell from a random-cell supplier; every
    later row is computed from the previous one by applying the local rule to
    each cell and its two neighbours, with the row wrapping around at both
    ends. An iterator yields one rendered line per row while fewer than `rows`
    rows have been produced, and the text of the automaton is every line
    followed by a newline.

    The supplier is a source of fresh random cells; here it is the function
    `randomCell`, read at the number of cells the iterator has drawn so far,
    so that the k-th draw made by one iterator returns `randomCell(k)`. Every
    iterator starts counting at 0. Rendering a cell is the parameter
    `render`. */
module Automata {

  /** The automaton's configuration. `cols` and `rows` are the generator's
      signed integers; a non-positive value means "none". */
  datatype Automaton<!C> = Automaton(cols: int, rows: int, randomCell: nat -> C, rule: (C, C, C) -> C)

  /** The number of cells a row of the automaton holds once seeded: a
      repetition `cols` times runs no iteration when `cols` is not positive. */
  function Width<C>(a: Automaton<C>): nat
  {
    if a.cols > 0 then a.cols else 0
  }

  /** The number of rows the iterator yields. */
  function RowCount<C>(a: Automaton<C>): nat
  {
    if a.rows > 0 then a.rows else 0
  }

  /** The index of the left neighbour of cell i in a ring of n cells. */
  function Left(n: int, i: int): (j: int)
    requires 0 <= i < n
    ensures 0 <= j < n
    ensures j == if i == 0 then n - 1 else i - 1
  {
    (n + i - 1) % n
  }

  /** The index of the right neighbour of cell i in a ring of n cells. */
  function Right(n: int, i: int): (j: int)
    requires 0 <= i < n
    ensures 0 <= j < n
    ensures j == if i == n - 1 then 0 else i + 1
  {
    (i + 1) % n
  }

  /** One generation of the ring: every cell is replaced by the rule applied
      to its left neighbour, itself and its right neighbour, all read from
      the old row. */
  function StepRow<C>(rule: (C, C, C) -> C, row: seq<C>): (next: seq<C>)
    requires |row| > 0
    ensures |next| == |row|
  {
    seq(|row|, i requires 0 <= i < |row| => rule(row[Left(|row|, i)], row[i], row[Right(|row|, i)]))
  }

  /** Each cell of the next row reads the cells beside it in the old row,
      the first cell wrapping around to the last and the last to the first. */
  lemma StepRowWraps<C>(rule: (C, C, C) -> C, row: seq<C>)
    requires |row| > 0
    ensures StepRow(rule, row)[0] == rule(row[|row| - 1], row[0], row[if |row| == 1 then 0 else 1])
    ensures StepRow(rule, row)[|row| - 1] == rule(row[if |row| == 1 then 0 else |row| - 2], row[|row| - 1], row[0])
    ensures forall i :: 0 < i < |row| - 1 ==> StepRow(rule, row)[i] == rule(row[i - 1], row[i], row[i + 1])
  {
    var n, next := |row|, StepRow(rule, row);
    assert next[0] == rule(row[Left(n, 0)], row[0], row[Right(n, 0)]);
    assert next[n - 1] == rule(row[Left(n, n - 1)], row[n - 1], row[Right(n, n - 1)]);
    forall i | 0 < i < n - 1
      ensures next[i] == rule(row[i - 1], row[i], row[i + 1])
    {
      assert next[i] == rule(row[Left(n, i)], row[i], row[Right(n, i)]);
    }
  }

  /** The ring moved one place to the left. */
  function Rotate<C>(row: seq<C>): (rotated: seq<C>)
    requires |row| > 0
    ensures |rotated| == |row|
  {
    row[1..] + [row[0]]
  }

  /** The ring has no distinguished first cell: stepping a rotated row gives
      the rotated step. */
  lemma {:induction false} StepRowRotates<C>(rule: (C, C, C) -> C, row: seq<C>)
    requires |row| > 0
    ensures StepRow(rule, Rotate(row)) == Rotate(StepRow(rule, row))
  {
    var n := |row|;
    var r := Rotate(row);
    var lhs, rhs := StepRow(rule, r), Rotate(StepRow(rule, row));
    forall i | 0 <= i < n
      ensures lhs[i] == rhs[i]
    {
      var k := if i == n - 1 then 0 else i + 1;
      assert r[i] == row[k];
      assert r[Left(n, i)] == row[Left(n, k)];
      assert r[Right(n, i)] == row[Right(n, k)];
      assert rhs[i] == StepRow(rule, row)[k];
    }
  }

  /** The first row: `Width(a)` cells drawn in order, starting at draw
      number `draws`. */
  function Seed<C>(a: Automaton<C>, draws: nat): (row: seq<C>)
    ensures |row| == Width(a)
  {
    seq(Width(a), i requires 0 <= i < Width(a) => a.randomCell(draws + i))
  }

  /** The iterator's state as a value: the current row and how many cells
      have been drawn from the supplier so far. */
  datatype Generation<C> = Generation(cells: seq<C>, draws: nat)

  /** What one call of `next` does to the state: an empty row is (re)seeded
      with `Width(a)` newly drawn cells; any other row is stepped, keeping its
      width, and draws nothing. */
  function NextGen<C>(a: Automaton<C>, g: Generation<C>): (h: Generation<C>)
    ensures |g.cells| == 0 ==> |h.cells| == Width(a) && h.draws == g.draws + Width(a)
    ensures |g.cells| > 0 ==> |h.cells| == |g.cells| && h.draws == g.draws
  {
    if |g.cells| == 0 then Generation(Seed(a, g.draws), g.draws + Width(a))
    else Generation(StepRow(a.rule, g.cells), g.draws)
  }

  /** The state after k calls of `next` on a fresh iterator. After the
      first call every row has exactly `Width(a)` cells, and the supplier has
      been asked for exactly `Width(a)` cells in all: it is used for the
      first row only. */
  function GenAfter<C>(a: Automaton<C>, k: nat): (g: Generation<C>)
    ensures k == 0 ==> g.cells == [] && g.draws == 0
    ensures k > 0 ==> |g.cells| == Width(a) && g.draws == Width(a)
  {
    if k == 0 then Generation([], 0) else NextGen(a, GenAfter(a, k - 1))
  }

  /** The first n rows yielded by the iterator. */
  function RowsUpTo<C>(a: Automaton<C>, n: nat): (rows: seq<seq<C>>)
    ensures |rows| == n
  {
    seq(n, k requires 0 <= k < n => GenAfter(a, k + 1).cells)
  }

  /** All rows yielded by the iterator. */
  function Rows<C>(a: Automaton<C>): (rows: seq<seq<C>>)
    ensures |rows| == RowCount(a)
  {
    RowsUpTo(a, RowCount(a))
  }

  /** The evolution the iterator yields: `max(rows, 0)` rows; with a
      positive width the first is the seed and each later one the step of
      the one before; with no width every row is empty. */
  lemma RowsEvolve<C>(a: Automaton<C>)
    ensures forall k :: 0 <= k < |Rows(a)| ==> |Rows(a)[k]| == Width(a)
    ensures a.cols > 0 && |Rows(a)| > 0 ==> Rows(a)[0] == Seed(a, 0)
    ensures a.cols > 0 ==>
      forall k :: 0 < k < |Rows(a)| ==> Rows(a)[k] == StepRow(a.rule, Rows(a)[k - 1])
    ensures a.cols <= 0 ==> forall k :: 0 <= k < |Rows(a)| ==> Rows(a)[k] == []
  {
    assert GenAfter(a, 1) == NextGen(a, GenAfter(a, 0));
    forall k | 0 <= k < |Rows(a)|
      ensures |Rows(a)[k]| == Width(a)
      ensures a.cols > 0 && k > 0 ==> Rows(a)[k] == StepRow(a.rule, Rows(a)[k - 1])
    {
      assert Rows(a)[k] == GenAfter(a, k + 1).cells;
    }
  }

  /** The in-order concatenation of the renderings of a row's cells. */
  function RenderRow<C>(render: C -> string, row: seq<C>): string
  {
    if row == [] then "" else RenderRow(render, row[..|row| - 1]) + render(row[|row| - 1])
  }

  /** Rendering distributes over joining two pieces of a row. */
  lemma {:induction false} RenderRowAppend<C>(render: C -> string, x: seq<C>, y: seq<C>)
    ensures RenderRow(render, x + y) == RenderRow(render, x) + RenderRow(render, y)
    decreases |y|
  {
    if y == [] {
      assert x + y == x;
    } else {
      assert (x + y)[..|x + y| - 1] == x + y[..|y| - 1];
      RenderRowAppend(render, x, y[..|y| - 1]);
    }
  }

  /** With a renderer of fixed width w, a line is w times as long as its row. */
  lemma {:induction false} RenderRowLength<C>(render: C -> string, row: seq<C>, w: nat)
    requires forall c :: |render(c)| == w
    ensures |RenderRow(render, row)| == w * |row|
  {
    if row != [] {
      var n := |row|;
      RenderRowLength(render, row[..n - 1], w);
      assert |RenderRow(render, row)| == w * (n - 1) + w;
      assert w * (n - 1) + w == w * n;
    }
  }

  /** The text of a sequence of rows: each rendered row followed by a
      newline. */
  function Lines<C>(render: C -> string, rows: seq<seq<C>>): string
  {
    if rows == [] then "" else Lines(render, rows[..|rows| - 1]) + RenderRow(render, rows[|rows| - 1]) + "\n"
  }

  /** The text of joined row sequences is the joined texts. */
  lemma {:induction false} LinesAppend<C>(render: C -> string, x: seq<seq<C>>, y: seq<seq<C>>)
    ensures Lines(render, x + y) == Lines(render, x) + Lines(render, y)
    decreases |y|
  {
    if y == [] {
      assert x + y == x;
    } else {
      assert (x + y)[..|x + y| - 1] == x + y[..|y| - 1];
      LinesAppend(render, x, y[..|y| - 1]);
    }
  }

  /** Draws `Width(a)` cells from the supplier in call order, starting at
      draw number `draws`; returns them and the new draw count. */
  method DrawRow<C>(a: Automaton<C>, draws: nat) returns (cells: seq<C>, taken: nat)
    ensures cells == Seed(a, draws)
    ensures taken == draws + Width(a)
  {
    cells := [];
    taken := draws;
    var k := 0;
    while k < a.cols
      invariant 0 <= k <= Width(a)
      invariant taken == draws + k
      invariant cells == Seed(a, draws)[..k]
    {
      cells := cells + [a.randomCell(taken)];
      taken := taken + 1;
      k := k + 1;
    }
  }

  /** Builds the next row of a ring of `cols` cells in a fresh sequence,
      reading the neighbours of each cell with wraparound. */
  method StepCells<C>(rule: (C, C, C) -> C, cols: int, cells: seq<C>) returns (next: seq<C>)
    requires cols > 0 && |cells| == cols
    ensures next == StepRow(rule, cells)
  {
    next := [];
    var k := 0;
    while k < cols
      invariant 0 <= k <= cols
      invariant next == StepRow(rule, cells)[..k]
    {
      var left := cells[(cols + k - 1) % cols];
      var middle := cells[k];
      var right := cells[(k + 1) % cols];
      assert StepRow(rule, cells)[k] == rule(cells[Left(cols, k)], cells[k], cells[Right(cols, k)]);
      next := next + [rule(left, middle, right)];
      k := k + 1;
    }
  }

  /** Appends the renderings of a row's cells, in order. */
  method RenderLine<C>(render: C -> string, cells: seq<C>) returns (line: string)
    ensures line == RenderRow(render, cells)
  {
    line := "";
    var i := 0;
    while i < |cells|
      invariant 0 <= i <= |cells|
      invariant line == RenderRow(render, cells[..i])
    {
      assert cells[..i + 1][..i] == cells[..i];
      line := line + render(cells[i]);
      i := i + 1;
    }
    assert cells[..i] == cells;
  }

  /** The row iterator. `draws` counts the cells taken from the supplier. */
  class AutomatonIterator<C> {
    const automaton: Automaton<C>
    var curRow: int
    var curCells: seq<C>
    var draws: nat

    /** The iterator is always in the state reached by `curRow` calls of
        `next` from a fresh one. */
    ghost predicate Valid()
      reads this
    {
      curRow >= 0 && Generation(curCells, draws) == GenAfter(automaton, curRow)
    }

    constructor (automaton: Automaton<C>)
      ensures this.automaton == automaton
      ensures curRow == 0 && curCells == [] && draws == 0
      ensures Valid()
    {
      this.automaton := automaton;
      curRow := 0;
      curCells := [];
      draws := 0;
    }

    /** Whether another row is due: for an iterator in its invariant,
        exactly while fewer rows than `Rows` holds have been produced. */
    predicate HasNext(): (more: bool)
      reads this
      ensures Valid() ==> (more <==> curRow < |Rows(automaton)|)
    {
      curRow < automaton.rows
    }

    /** Produces the next row and returns it rendered. */
    method Next(render: C -> string) returns (line: string)
      requires Valid()
      modifies this
      ensures Valid()
      ensures curRow == old(curRow) + 1
      ensures Generation(curCells, draws) == NextGen(automaton, old(Generation(curCells, draws)))
      ensures line == RenderRow(render, curCells)
    {
      if |curCells| == 0 {
        curCells, draws := DrawRow(automaton, draws);
      } else {
        curCells := StepCells(automaton.rule, automaton.cols, curCells);
      }
      line := RenderLine(render, curCells);
      curRow := curRow + 1;
    }
  }

  /** The automaton's text: every row the iterator yields, rendered and
      followed by a newline. */
  method ToText<C>(a: Automaton<C>, render: C -> string) returns (text: string)
    ensures text == Lines(render, Rows(a))
  {
    var it := new AutomatonIterator(a);
    text := "";
    while it.HasNext()
      invariant it.Valid() && it.automaton == a
      invariant 0 <= it.curRow <= RowCount(a)
      invariant text == Lines(render, RowsUpTo(a, it.curRow))
      decreases a.rows - it.curRow
    {
      ghost var n := it.curRow;
      var line := it.Next(render);
      assert RowsUpTo(a, n + 1)[..n] == RowsUpTo(a, n);
      text := text + line + "\n";
    }
  }
}
