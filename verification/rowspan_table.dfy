/**
 * The report's table builder: a rectangular grid of cells in which the sentinel `↓`
 * means "merge me into the cell above".  The builder folds every sentinel below the
 * two header rows into the cell above it, adding up row spans, and then emits one
 * table row per grid row, leaving out the cells whose span was folded away.
 */
module RowspanTable {
  import opened Results
  import opened Text

  /**
   * A cell's content.  Percentages and fractions are rendered by number formatters
   * that are not part of this model; they are kept as the probability they show.
   */
  datatype Cell = Label(text: string) | Count(count: int) | Percentage(p: real) | Fraction(p: real)

  /** The merge sentinel. */
  const Down: Cell := Label("↓")

  /** What a folded sentinel is overwritten with. */
  const Blank: Cell := Label("")

  type Grid = seq<seq<Cell>>

  function Width<T>(g: seq<seq<T>>): nat {
    if g == [] then 0 else |g[0]|
  }

  predicate Rectangular<T>(g: seq<seq<T>>) {
    forall i :: 0 <= i < |g| ==> |g[i]| == Width(g)
  }

  /** A sentinel the merge loop reaches: one in row 2 or below. */
  predicate Folded(g: Grid, i: nat, j: nat)
    requires Rectangular(g) && i < |g| && j < Width(g)
  {
    i >= 2 && g[i][j] == Down
  }

  /** The number of reachable sentinels directly below one another from row `i` down in column `j`. */
  function Lead(g: Grid, i: nat, j: nat): nat
    requires Rectangular(g) && j < Width(g)
    decreases |g| - i
  {
    if i < |g| && Folded(g, i, j) then 1 + Lead(g, i + 1, j) else 0
  }

  /**
   * The row span a cell ends with: 0 for a reachable sentinel, otherwise one plus the
   * run of reachable sentinels directly beneath it.
   */
  function Weight(g: Grid, i: nat, j: nat): nat
    requires Rectangular(g) && i < |g| && j < Width(g)
  {
    if Folded(g, i, j) then 0 else 1 + Lead(g, i + 1, j)
  }

  /** The grid after merging: reachable sentinels are blanked, everything else is kept. */
  function MergedCells(g: Grid): (r: Grid)
    requires Rectangular(g)
    ensures |r| == |g| && forall i :: 0 <= i < |g| ==> |r[i]| == Width(g)
  {
    seq(|g|, i requires 0 <= i < |g| =>
      seq(Width(g), j requires 0 <= j < Width(g) => if Folded(g, i, j) then Blank else g[i][j]))
  }

  function Weights(g: Grid): (r: seq<seq<nat>>)
    requires Rectangular(g)
    ensures |r| == |g| && forall i :: 0 <= i < |g| ==> |r[i]| == Width(g)
  {
    seq(|g|, i requires 0 <= i < |g| =>
      seq(Width(g), j requires 0 <= j < Width(g) => Weight(g, i, j)))
  }

  // ---------------------------------------------------------------- conservation

  /** The weights of column `j` from row `i` down, added up. */
  function ColumnSum(g: Grid, i: nat, j: nat): int
    requires Rectangular(g) && j < Width(g)
    decreases |g| - i
  {
    if i >= |g| then 0 else Weight(g, i, j) + ColumnSum(g, i + 1, j)
  }

  lemma {:induction false} ColumnSumFrom(g: Grid, i: nat, j: nat)
    requires Rectangular(g) && j < Width(g) && i <= |g|
    ensures ColumnSum(g, i, j) == |g| - i - Lead(g, i, j)
    decreases |g| - i
  {
    if i < |g| {
      ColumnSumFrom(g, i + 1, j);
    }
  }

  /** Merging only moves span between cells: every column's spans add up to the number of rows. */
  lemma ColumnConservation(g: Grid, j: nat)
    requires Rectangular(g) && j < Width(g)
    ensures ColumnSum(g, 0, j) == |g|
  {
    ColumnSumFrom(g, 0, j);
  }

  /** A grid without reachable sentinels keeps all its cells, each with span 1. */
  lemma SentinelFreeWeights(g: Grid)
    requires Rectangular(g)
    requires forall i, j :: 2 <= i < |g| && 0 <= j < Width(g) ==> g[i][j] != Down
    ensures MergedCells(g) == g
    ensures forall i, j :: 0 <= i < |g| && 0 <= j < Width(g) ==> Weight(g, i, j) == 1
  {
    forall i, j | 0 <= i < |g| && 0 <= j < Width(g) ensures Weight(g, i, j) == 1 {
      assert Lead(g, i + 1, j) == 0;
    }
    forall i | 0 <= i < |g| ensures MergedCells(g)[i] == g[i] {
    }
  }

  /** A column without reachable sentinels keeps span 1 in every row. */
  lemma PlainColumn(g: Grid, j: nat)
    requires Rectangular(g) && j < Width(g)
    requires forall i :: 2 <= i < |g| ==> g[i][j] != Down
    ensures forall i :: 0 <= i < |g| ==> Weight(g, i, j) == 1
  {
    forall i | 0 <= i < |g| ensures Weight(g, i, j) == 1 {
      assert Lead(g, i + 1, j) == 0;
    }
  }

  /** The three header-and-sentinel column shape `A, ↓, ↓` in rows 1 to 3 gives `A` a span of 3. */
  lemma StackedSpan(g: Grid, j: nat)
    requires Rectangular(g) && |g| == 4 && j < Width(g)
    requires g[1][j] != Down && g[2][j] == Down && g[3][j] == Down
    ensures Weight(g, 1, j) == 3 && Weight(g, 2, j) == 0 && Weight(g, 3, j) == 0
    ensures Weight(g, 0, j) == 1
  {
    assert Lead(g, 4, j) == 0;
    assert Lead(g, 2, j) == 2;
  }

  // ---------------------------------------------------------------- the merge loop

  /** The first sentinel in `row` at or after column `j`, or `|row|` when there is none. */
  function FirstDown(row: seq<Cell>, j: nat): (k: nat)
    requires j <= |row|
    ensures j <= k <= |row|
    ensures k < |row| ==> row[k] == Down
    ensures forall l :: j <= l < k ==> row[l] != Down
    decreases |row| - j
  {
    if j == |row| || row[j] == Down then j else FirstDown(row, j + 1)
  }

  /**
   * The loop's scan: rows from `i` up to row 2, each from the left; the first sentinel
   * met, if any.
   */
  function Scan(c: Grid, i: int): (r: Option<(nat, nat)>)
    requires Rectangular(c) && i < |c|
    ensures r.None? ==> forall k, l :: 2 <= k <= i && 0 <= l < Width(c) ==> c[k][l] != Down
    ensures r.Some? ==> 2 <= r.value.0 <= i && r.value.1 < Width(c) && c[r.value.0][r.value.1] == Down
    ensures r.Some? ==> forall k, l :: r.value.0 < k <= i && 0 <= l < Width(c) ==> c[k][l] != Down
    ensures r.Some? ==> forall l :: 0 <= l < r.value.1 ==> c[r.value.0][l] != Down
    decreases i
  {
    if i < 2 then None
    else
      var j := FirstDown(c[i], 0);
      if j < |c[i]| then Some((i, j)) else Scan(c, i - 1)
  }

  /** A reachable sentinel of the original grid that the loop has already blanked. */
  predicate Done(g: Grid, c: Grid, i: nat, j: nat)
    requires Rectangular(g) && i < |g| && j < Width(g)
    requires |c| == |g| && i < |c| && j < |c[i]|
  {
    Folded(g, i, j) && c[i][j] != Down
  }

  predicate SameShape<T, U>(g: seq<seq<T>>, c: seq<seq<U>>) {
    |c| == |g| && forall i :: 0 <= i < |g| ==> |c[i]| == |g[i]|
  }

  /** The run of blanked sentinels directly below one another from row `i` down in column `j`. */
  function DoneRun(g: Grid, c: Grid, i: nat, j: nat): nat
    requires Rectangular(g) && j < Width(g) && SameShape(g, c)
    decreases |g| - i
  {
    if i < |g| && Done(g, c, i, j) then 1 + DoneRun(g, c, i + 1, j) else 0
  }

  /** The loop's picture of the grid: blanked sentinels are blank, all else is as given. */
  predicate CellsInvariant(g: Grid, c: Grid)
    requires Rectangular(g) && SameShape(g, c)
  {
    forall i, j :: 0 <= i < |g| && 0 <= j < Width(g) ==>
      c[i][j] == (if Done(g, c, i, j) then Blank else g[i][j])
  }

  /** Every sentinel still waiting lies no lower than any sentinel already blanked. */
  predicate Frontier(g: Grid, c: Grid)
    requires Rectangular(g) && SameShape(g, c)
  {
    forall i, j, k, l ::
      (0 <= i < |g| && 0 <= j < Width(g) && 2 <= k < |g| && 0 <= l < Width(g) && Done(g, c, i, j) && c[k][l] == Down)
      ==> k <= i
  }

  /** The spans so far: 0 where blanked, otherwise one plus the blanked run beneath. */
  predicate SpansInvariant(g: Grid, c: Grid, spans: seq<seq<nat>>)
    requires Rectangular(g) && SameShape(g, c) && SameShape(g, spans)
  {
    forall i, j :: 0 <= i < |g| && 0 <= j < Width(g) ==>
      spans[i][j] == (if Done(g, c, i, j) then 0 else 1 + DoneRun(g, c, i + 1, j))
  }

  function Waiting(c: Grid): set<(nat, nat)>
    requires Rectangular(c)
  {
    set i: nat, j: nat | 2 <= i < |c| && j < Width(c) && c[i][j] == Down :: (i, j)
  }

  /**
   * Blanking the sentinel at `(i, j)` lengthens the blanked run seen from row `i` by
   * one and changes no other run that the spans read.
   */
  lemma {:induction false} DoneRunStep(g: Grid, c: Grid, c2: Grid, i: nat, j: nat, k: nat, l: nat)
    requires Rectangular(g) && SameShape(g, c) && SameShape(g, c2)
    requires 2 <= i < |g| && j < Width(g) && l < Width(g) && k <= |g|
    requires Folded(g, i, j) && c[i][j] == Down && c2[i][j] == Blank
    requires forall a, b :: 0 <= a < |g| && 0 <= b < Width(g) && (a, b) != (i, j) ==> c2[a][b] == c[a][b]
    requires !Done(g, c, i - 1, j)
    ensures (k, l) == (i, j) ==> DoneRun(g, c2, k, l) == 1 + DoneRun(g, c, k + 1, l)
    ensures (k, l) != (i, j) ==> DoneRun(g, c2, k, l) == DoneRun(g, c, k, l)
    decreases |g| - k
  {
    if k < |g| {
      if (k, l) == (i, j) {
        DoneRunStep(g, c, c2, i, j, k + 1, l);
      } else if Done(g, c, k, l) {
        assert Done(g, c2, k, l);
        if l == j && k == i - 1 {
          assert false;
        }
        DoneRunStep(g, c, c2, i, j, k + 1, l);
      } else {
        assert !Done(g, c2, k, l);
      }
    }
  }

  /** With nothing left waiting, the blanked sentinels are exactly the reachable ones. */
  lemma {:induction false} DoneRunFinal(g: Grid, c: Grid, i: nat, j: nat)
    requires Rectangular(g) && SameShape(g, c) && j < Width(g)
    requires forall a, b :: 0 <= a < |g| && 0 <= b < Width(g) ==> (Done(g, c, a, b) <==> Folded(g, a, b))
    ensures DoneRun(g, c, i, j) == Lead(g, i, j)
    decreases |g| - i
  {
    if i < |g| {
      DoneRunFinal(g, c, i + 1, j);
    }
  }

  /** The loop's state: the grid as blanked so far and the spans accumulated so far. */
  predicate LoopInvariant(g: Grid, c: Grid, spans: seq<seq<nat>>)
  {
    && Rectangular(g) && SameShape(g, c) && SameShape(g, spans) && Rectangular(c) && Width(c) == Width(g)
    && CellsInvariant(g, c)
    && Frontier(g, c)
    && SpansInvariant(g, c, spans)
  }

  /** The cells after one merge: the sentinel at `(i, j)` blanked. */
  function BlankAt(c: Grid, i: nat, j: nat): Grid
    requires Rectangular(c) && i < |c| && j < Width(c)
  {
    c[i := c[i][j := Blank]]
  }

  /** The spans after one merge: the span at `(i, j)` added to the cell above and zeroed. */
  function MoveSpan(spans: seq<seq<nat>>, i: nat, j: nat): seq<seq<nat>>
    requires 1 <= i < |spans| && j < |spans[i]| && j < |spans[i - 1]|
  {
    var s1 := spans[i - 1 := spans[i - 1][j := spans[i - 1][j] + spans[i][j]]];
    s1[i := s1[i][j := 0]]
  }

  /** The sentinel the scan finds is a reachable one of the original grid, and the cell above it is not blanked. */
  lemma ScanFindsFolded(g: Grid, c: Grid, i: nat, j: nat)
    requires Rectangular(g) && SameShape(g, c) && Rectangular(c) && Width(c) == Width(g)
    requires CellsInvariant(g, c) && Frontier(g, c)
    requires 2 <= i < |c| && j < Width(c) && c[i][j] == Down
    ensures Folded(g, i, j) && !Done(g, c, i, j) && !Done(g, c, i - 1, j)
  {
  }

  /** Blanking changes that one cell. */
  lemma StepCells(g: Grid, c: Grid, spans: seq<seq<nat>>, i: nat, j: nat)
    requires Rectangular(g) && SameShape(g, c) && SameShape(g, spans) && Rectangular(c) && Width(c) == Width(g)
    requires CellsInvariant(g, c)
    requires 2 <= i < |c| && j < Width(c) && c[i][j] == Down && Folded(g, i, j)
    ensures var c2 := BlankAt(c, i, j);
      && SameShape(g, c2) && Rectangular(c2) && Width(c2) == Width(g)
      && (forall a, b :: 0 <= a < |g| && 0 <= b < Width(g) && (a, b) != (i, j) ==> c2[a][b] == c[a][b])
      && c2[i][j] == Blank
      && CellsInvariant(g, c2)
  {
  }

  /** The scan takes the lowest waiting sentinel, so the frontier moves up. */
  lemma StepFrontier(g: Grid, c: Grid, c2: Grid, i: nat, j: nat)
    requires Rectangular(g) && SameShape(g, c) && SameShape(g, c2) && Rectangular(c) && Width(c) == Width(g)
    requires Frontier(g, c)
    requires 2 <= i < |c| && j < Width(c) && c[i][j] == Down && c2[i][j] == Blank
    requires forall a, b :: 0 <= a < |g| && 0 <= b < Width(g) && (a, b) != (i, j) ==> c2[a][b] == c[a][b]
    requires forall k, l :: i < k < |c| && 0 <= l < Width(c) ==> c[k][l] != Down
    ensures Frontier(g, c2)
  {
    forall a, b, k, l |
      0 <= a < |g| && 0 <= b < Width(g) && 2 <= k < |g| && 0 <= l < Width(g) && Done(g, c2, a, b) && c2[k][l] == Down
      ensures k <= a
    {
      assert (k, l) != (i, j) && c[k][l] == Down;
      if (a, b) != (i, j) {
        assert Done(g, c, a, b);
      }
    }
  }

  /** The merge moves the span of `(i, j)` onto the cell above, as the closed form of the runs says. */
  lemma StepSpans(g: Grid, c: Grid, spans: seq<seq<nat>>, i: nat, j: nat)
    requires Rectangular(g) && SameShape(g, c) && SameShape(g, spans) && Rectangular(c) && Width(c) == Width(g)
    requires SpansInvariant(g, c, spans)
    requires 2 <= i < |c| && j < Width(c) && c[i][j] == Down && Folded(g, i, j) && !Done(g, c, i - 1, j)
    requires var c2 := BlankAt(c, i, j);
      && SameShape(g, c2)
      && (forall a, b :: 0 <= a < |g| && 0 <= b < Width(g) && (a, b) != (i, j) ==> c2[a][b] == c[a][b])
      && c2[i][j] == Blank
    ensures SameShape(g, MoveSpan(spans, i, j)) && SpansInvariant(g, BlankAt(c, i, j), MoveSpan(spans, i, j))
  {
    var c2, s2 := BlankAt(c, i, j), MoveSpan(spans, i, j);
    forall a, b | 0 <= a < |g| && 0 <= b < Width(g)
      ensures s2[a][b] == (if Done(g, c2, a, b) then 0 else 1 + DoneRun(g, c2, a + 1, b))
    {
      DoneRunStep(g, c, c2, i, j, a + 1, b);
      if (a, b) == (i - 1, j) {
        DoneRunStep(g, c, c2, i, j, i, j);
        DoneRunStep(g, c, c2, i, j, i + 1, j);
      } else if (a, b) != (i, j) {
        assert s2[a][b] == spans[a][b];
        assert Done(g, c2, a, b) == Done(g, c, a, b);
      }
    }
  }

  /** Merging the sentinel the scan finds keeps the loop's state and shrinks the waiting set. */
  lemma StepPreserves(g: Grid, c: Grid, spans: seq<seq<nat>>, i: nat, j: nat)
    requires LoopInvariant(g, c, spans)
    requires Scan(c, |c| - 1) == Some((i, j))
    ensures 2 <= i < |c| && j < Width(c)
    ensures LoopInvariant(g, BlankAt(c, i, j), MoveSpan(spans, i, j))
    ensures Waiting(BlankAt(c, i, j)) < Waiting(c)
  {
    ScanFindsFolded(g, c, i, j);
    StepCells(g, c, spans, i, j);
    var c2, s2 := BlankAt(c, i, j), MoveSpan(spans, i, j);
    StepFrontier(g, c, c2, i, j);
    StepSpans(g, c, spans, i, j);
    WaitingShrinks(c, i, j);
  }

  /** Blanking a waiting sentinel takes it, and only it, off the waiting set. */
  lemma WaitingShrinks(c: Grid, i: nat, j: nat)
    requires Rectangular(c) && 2 <= i < |c| && j < Width(c) && c[i][j] == Down
    ensures Waiting(BlankAt(c, i, j)) == Waiting(c) - {(i, j)}
  {
    var c2 := BlankAt(c, i, j);
    assert (i, j) in Waiting(c) && (i, j) !in Waiting(c2);
  }

  /** With nothing waiting, the blanked sentinels are exactly the reachable ones. */
  lemma FinalDone(g: Grid, c: Grid)
    requires Rectangular(g) && SameShape(g, c) && Rectangular(c) && Width(c) == Width(g)
    requires CellsInvariant(g, c)
    requires forall k, l :: 2 <= k < |c| && 0 <= l < Width(c) ==> c[k][l] != Down
    ensures forall a, b :: 0 <= a < |g| && 0 <= b < Width(g) ==> (Done(g, c, a, b) <==> Folded(g, a, b))
  {
  }

  /** Once the scan finds nothing, the loop's state is the closed form. */
  lemma FinalState(g: Grid, c: Grid, spans: seq<seq<nat>>)
    requires LoopInvariant(g, c, spans)
    requires Scan(c, |c| - 1).None?
    ensures c == MergedCells(g) && spans == Weights(g)
  {
    FinalDone(g, c);
    FinalCells(g, c);
    FinalSpans(g, c, spans);
  }

  /** With the blanked sentinels exactly the reachable ones, the loop's grid is the merged grid. */
  lemma FinalCells(g: Grid, c: Grid)
    requires Rectangular(g) && SameShape(g, c) && CellsInvariant(g, c)
    requires forall a, b :: 0 <= a < |g| && 0 <= b < Width(g) ==> (Done(g, c, a, b) <==> Folded(g, a, b))
    ensures c == MergedCells(g)
  {
    forall a | 0 <= a < |g| ensures c[a] == MergedCells(g)[a] {
      forall b | 0 <= b < Width(g) ensures c[a][b] == MergedCells(g)[a][b] {
      }
    }
  }

  /** With the blanked sentinels exactly the reachable ones, the loop's spans are the weights. */
  lemma FinalSpans(g: Grid, c: Grid, spans: seq<seq<nat>>)
    requires Rectangular(g) && SameShape(g, c) && SameShape(g, spans) && SpansInvariant(g, c, spans)
    requires forall a, b :: 0 <= a < |g| && 0 <= b < Width(g) ==> (Done(g, c, a, b) <==> Folded(g, a, b))
    ensures spans == Weights(g)
  {
    forall a | 0 <= a < |g| ensures spans[a] == Weights(g)[a] {
      forall b | 0 <= b < Width(g) ensures spans[a][b] == Weights(g)[a][b] {
        DoneRunFinal(g, c, a + 1, b);
      }
    }
  }

  /**
   * The merge loop as written: find the lowest, then leftmost, sentinel in rows 2 and
   * below; blank it, move its whole span onto the cell above and zero its own; repeat
   * until the scan finds none.  Its result is the closed form above.
   */
  method MergeRowspans(g: Grid) returns (cells: Grid, spans: seq<seq<nat>>)
    requires Rectangular(g)
    ensures cells == MergedCells(g)
    ensures spans == Weights(g)
  {
    cells := g;
    spans := seq(|g|, i requires 0 <= i < |g| => seq(Width(g), j => 1));
    while true
      invariant LoopInvariant(g, cells, spans)
      decreases Waiting(cells)
    {
      var found := Scan(cells, |cells| - 1);
      if found.None? {
        FinalState(g, cells, spans);
        return;
      }
      var (i, j) := found.value;
      StepPreserves(g, cells, spans, i, j);
      cells, spans := BlankAt(cells, i, j), MoveSpan(spans, i, j);
    }
  }

  // ---------------------------------------------------------------- rendering

  /** One `td`: its style, its `rowspan` attribute when it has one, and its content. */
  datatype Td = Td(style: string, rowspan: Option<nat>, content: Cell)

  /** A background-colour grid, as optional as in the builder's signature. */
  type Colors = Option<seq<seq<string>>>

  predicate Covers(colors: Colors, g: Grid) {
    colors.Some? ==> |colors.value| >= |g| && forall i :: 0 <= i < |g| ==> |colors.value[i]| >= Width(g)
  }

  function Style(colors: Colors, g: Grid, i: nat, j: nat): string
    requires Rectangular(g) && i < |g| && j < Width(g) && Covers(colors, g)
  {
    if colors.Some? && colors.value[i][j] != "" then "padding:5;background-color:" + colors.value[i][j]
    else "padding:5"
  }

  /** The columns, from `j` on, whose span is not zero. */
  function KeptColumns(spans: seq<nat>, j: nat): (r: seq<nat>)
    requires j <= |spans|
    ensures forall k :: 0 <= k < |r| ==> j <= r[k] < |spans| && spans[r[k]] != 0
    ensures forall k, m :: 0 <= k < m < |r| ==> r[k] < r[m]
    ensures forall l :: j <= l < |spans| && spans[l] != 0 ==> l in r
    decreases |spans| - j
  {
    if j == |spans| then []
    else if spans[j] == 0 then KeptColumns(spans, j + 1)
    else [j] + KeptColumns(spans, j + 1)
  }

  /** One `td`, as the builder writes it for a cell whose span is not zero. */
  function RenderCell(cells: Grid, spans: seq<seq<nat>>, colors: Colors, i: nat, j: nat): Td
    requires Rectangular(cells) && SameShape(cells, spans) && Covers(colors, cells)
    requires i < |cells| && j < Width(cells)
  {
    Td(Style(colors, cells, i, j), if spans[i][j] != 1 then Some(spans[i][j]) else None, cells[i][j])
  }

  /** The `tr` rows: per grid row, one `td` per column whose span is not zero, in column order. */
  function RenderRows(cells: Grid, spans: seq<seq<nat>>, colors: Colors): (rows: seq<seq<Td>>)
    requires Rectangular(cells) && SameShape(cells, spans) && Covers(colors, cells)
    ensures |rows| == |cells|
    ensures forall i :: 0 <= i < |cells| ==> |rows[i]| == |KeptColumns(spans[i], 0)|
  {
    seq(|cells|, i requires 0 <= i < |cells| =>
      var kept := KeptColumns(spans[i], 0);
      seq(|kept|, k requires 0 <= k < |kept| => RenderCell(cells, spans, colors, i, kept[k])))
  }

  /** The table the builder returns for grid `g`: the merged grid, rendered with its spans. */
  function Table(g: Grid, colors: Colors): (rows: seq<seq<Td>>)
    requires Rectangular(g) && Covers(colors, g)
  {
    RenderRows(MergedCells(g), Weights(g), colors)
  }

  /**
   * What a rendered cell says about its grid cell: it is one whose span is not zero, it
   * has a `rowspan` exactly when the span is not 1 and then with the span as value, its
   * style names a colour exactly when one is given and non-empty, and it shows the
   * merged content.
   */
  lemma RenderedCell(g: Grid, colors: Colors, i: nat, k: nat)
    requires Rectangular(g) && Covers(colors, g) && i < |g| && k < |Table(g, colors)[i]|
    ensures var j := KeptColumns(Weights(g)[i], 0)[k];
      var td := Table(g, colors)[i][k];
      && j < Width(g) && Weight(g, i, j) != 0
      && (td.rowspan.Some? <==> Weight(g, i, j) != 1)
      && (td.rowspan.Some? ==> td.rowspan.value == Weight(g, i, j))
      && td.content == (if Folded(g, i, j) then Blank else g[i][j])
      && (td.style == "padding:5" <==> colors.None? || colors.value[i][j] == "")
  {
    var j := KeptColumns(Weights(g)[i], 0)[k];
    var td := Table(g, colors)[i][k];
    if colors.Some? && colors.value[i][j] != "" {
      assert td.style == "padding:5;background-color:" + colors.value[i][j];
      assert |td.style| > 9;
    }
  }

  /** A grid without reachable sentinels renders every cell of every row, none with a span. */
  lemma SentinelFreeRender(g: Grid, colors: Colors, i: nat)
    requires Rectangular(g) && Covers(colors, g) && i < |g|
    requires forall a, b :: 2 <= a < |g| && 0 <= b < Width(g) ==> g[a][b] != Down
    ensures |Table(g, colors)[i]| == Width(g)
    ensures forall k :: 0 <= k < Width(g) ==> Table(g, colors)[i][k].rowspan.None?
    ensures forall k :: 0 <= k < Width(g) ==> Table(g, colors)[i][k].content == g[i][k]
  {
    SentinelFreeWeights(g);
    var spans := Weights(g)[i];
    assert forall l :: 0 <= l < |spans| ==> spans[l] == 1;
    AllKept(spans, 0);
    forall k | 0 <= k < Width(g)
      ensures Table(g, colors)[i][k].rowspan.None? && Table(g, colors)[i][k].content == g[i][k]
    {
      RenderedCell(g, colors, i, k);
    }
  }

  lemma {:induction false} AllKept(spans: seq<nat>, j: nat)
    requires j <= |spans|
    requires forall l :: j <= l < |spans| ==> spans[l] == 1
    ensures |KeptColumns(spans, j)| == |spans| - j
    ensures forall k :: 0 <= k < |spans| - j ==> KeptColumns(spans, j)[k] == j + k
    decreases |spans| - j
  {
    if j < |spans| {
      AllKept(spans, j + 1);
      var rest := KeptColumns(spans, j + 1);
      assert KeptColumns(spans, j) == [j] + rest;
    }
  }

  /** The builder: the merge loop, then the rendering of its grid and spans. */
  method CreateTable(g: Grid, colors: Colors) returns (rows: seq<seq<Td>>)
    requires Rectangular(g) && Covers(colors, g)
    ensures rows == Table(g, colors)
  {
    var cells, spans := MergeRowspans(g);
    rows := RenderRows(cells, spans, colors);
  }
}
