/**
 * The report's grid shapers: the count table (counts laid out side by side with their
 * share of the total), the yes/no table, and the mitites table (the chance of each
 * number of mitites sets), each a rectangular grid of cells plus a grid of background
 * colours for the rowspan table builder.
 */
module ReportGrids {
  import opened Results
  import opened Text
  import opened RowspanTable

  /** A grid of cells ready for the table builder, with its background colours. */
  datatype Sheet = Sheet(cells: Grid, colors: seq<seq<string>>)

  const HeaderColor: string := "#d0d0d0"
  const LabelColor: string := "#e0e0e0"

  // ---------------------------------------------------------------- small helpers

  /** How many elements at the front of `s` equal `zero`. */
  function LeadingRun<T(==)>(s: seq<T>, zero: T): (k: nat)
    ensures k <= |s|
    ensures forall i :: 0 <= i < k ==> s[i] == zero
    ensures k < |s| ==> s[k] != zero
  {
    if s == [] || s[0] != zero then 0
    else
      var k := LeadingRun(s[1..], zero);
      assert forall i :: 1 <= i < k + 1 ==> s[i] == s[1..][i - 1];
      1 + k
  }

  /** Python `sum` of a list of integers. */
  function Sum(s: seq<int>): int {
    if s == [] then 0 else s[0] + Sum(s[1..])
  }

  lemma {:induction false} SumAppend(s: seq<int>, t: seq<int>)
    ensures Sum(s + t) == Sum(s) + Sum(t)
    decreases |s|
  {
    if s == [] {
      assert s + t == t;
    } else {
      assert (s + t)[1..] == s[1..] + t;
      SumAppend(s[1..], t);
    }
  }

  /** Dropping leading zeros leaves the sum as it was. */
  lemma SkipKeepsSum(s: seq<int>)
    ensures Sum(s[LeadingRun(s, 0)..]) == Sum(s)
  {
    var k := LeadingRun(s, 0);
    SumAppend(s[..k], s[k..]);
    ZerosSum(s[..k]);
    assert s == s[..k] + s[k..];
  }

  lemma {:induction false} ZerosSum(s: seq<int>)
    requires forall i :: 0 <= i < |s| ==> s[i] == 0
    ensures Sum(s) == 0
    decreases |s|
  {
    if s != [] {
      ZerosSum(s[1..]);
    }
  }

  /** Every element of a list of non-negative numbers is at most their sum. */
  lemma {:induction false} PartBelowSum(s: seq<int>, i: nat)
    requires forall k :: 0 <= k < |s| ==> s[k] >= 0
    requires i < |s|
    ensures 0 <= s[i] <= Sum(s)
    decreases |s|
  {
    NonNegativeSum(s[1..]);
    if i > 0 {
      PartBelowSum(s[1..], i - 1);
    }
  }

  lemma {:induction false} NonNegativeSum(s: seq<int>)
    requires forall k :: 0 <= k < |s| ==> s[k] >= 0
    ensures Sum(s) >= 0
    decreases |s|
  {
    if s != [] {
      NonNegativeSum(s[1..]);
    }
  }

  /** A sum of non-negative numbers is zero only when every one of them is. */
  lemma {:induction false} ZeroSumAllZero(s: seq<int>, i: nat)
    requires forall k :: 0 <= k < |s| ==> s[k] >= 0
    requires Sum(s) == 0 && i < |s|
    ensures s[i] == 0
    decreases |s|
  {
    NonNegativeSum(s[1..]);
    if i > 0 {
      ZeroSumAllZero(s[1..], i - 1);
    }
  }

  // ---------------------------------------------------------------- probability cells

  /** The two probability cells, percentage then fraction, for a probability in [0, 1]. */
  function ProbTuple(p: real): (r: Result<seq<Cell>>)
    ensures r.Ok? <==> 0.0 <= p <= 1.0
    ensures r.Err? ==> r.error == AssertionError
    ensures r.Ok? ==> |r.value| == 2 && r.value[0] == Percentage(p) && r.value[1] == Fraction(p)
  {
    if !(0.0 <= p <= 1.0) then Err(AssertionError)
    else Ok([Percentage(p), Fraction(p)])
  }

  /**
   * The three cells for `count` out of `total`: the count, then its share as a
   * percentage and as a fraction.  A count outside [0, total] fails the assertion; a
   * zero total then fails the division.
   */
  function CountProbTuple(count: int, total: int): (r: Result<seq<Cell>>)
    ensures r.Ok? <==> 0 <= count <= total && total != 0
    ensures !(0 <= count <= total) ==> r == Err(AssertionError)
    ensures 0 <= count <= total && total == 0 ==> r == Err(ZeroDivisionError)
    ensures r.Ok? ==> |r.value| == 3 && r.value[0] == Count(count)
    ensures r.Ok? ==> r.value[1] == Percentage(Share(count, total)) && r.value[2] == Fraction(Share(count, total))
  {
    if !(0 <= count <= total) then Err(AssertionError)
    else if total == 0 then Err(ZeroDivisionError)
    else
      ShareBounds(count, total);
      Ok([Count(count)] + ProbTuple(Share(count, total)).value)
  }

  /** `count / total` as a probability. */
  function Share(count: int, total: int): real
    requires total != 0
  {
    count as real / total as real
  }

  /** A share of a positive total lies in [0, 1], is 1 for the whole and scales back to the count. */
  lemma ShareBounds(count: int, total: int)
    requires 0 <= count <= total && total != 0
    ensures 0.0 <= Share(count, total) <= 1.0
    ensures Share(count, total) * total as real == count as real
    ensures count == total ==> Share(count, total) == 1.0
  {
    if count == total {
      var t := total as real;
      assert t / t == 1.0;
    }
  }

  // ---------------------------------------------------------------- the count table

  /** The default labels "0", "1", ... */
  function IndexLabels(n: nat): (r: seq<string>)
    ensures |r| == n && forall i :: 0 <= i < n ==> r[i] == IntText(i)
  {
    seq(n, i => IntText(i))
  }

  /** Header rows shaded, the rest uncoloured. */
  function BandColors(rows: nat, width: nat, labelled: int -> bool, labelColumnOnly: bool): (colors: seq<seq<string>>)
    ensures |colors| == rows && forall r :: 0 <= r < rows ==> |colors[r]| == width
  {
    seq(rows, r =>
      seq(width, c =>
        if r == 0 then HeaderColor
        else if labelled(r) && (!labelColumnOnly || c == 0) then LabelColor
        else ""))
  }

  /** One cell of the count table's grid, given the shown columns' cells and the total's. */
  function CountCell(names: seq<string>, skip: nat, cols: seq<seq<Cell>>, totalCol: seq<Cell>, r: nat, c: nat): Cell
    requires r < 4 && c < |cols| + 2 && skip + |cols| <= |names|
    requires forall i :: 0 <= i < |cols| ==> |cols[i]| == 3
    requires |totalCol| == 3
  {
    var n := |cols|;
    if r == 0 then
      if c == 0 then Blank else if c <= n then Label(names[c - 1 + skip]) else Label("合計")
    else if c == 0 then
      if r == 1 then Label("件数／確率") else Down
    else if c <= n then cols[c - 1][r - 1]
    else totalCol[r - 1]
  }

  /** Row `r` of the count table's grid. */
  function CountRow(names: seq<string>, skip: nat, cols: seq<seq<Cell>>, totalCol: seq<Cell>, r: nat): (row: seq<Cell>)
    requires r < 4 && skip + |cols| <= |names|
    requires forall i :: 0 <= i < |cols| ==> |cols[i]| == 3
    requires |totalCol| == 3
    ensures |row| == |cols| + 2
    ensures forall c :: 0 <= c < |cols| + 2 ==> row[c] == CountCell(names, skip, cols, totalCol, r, c)
  {
    seq(|cols| + 2, c requires 0 <= c < |cols| + 2 => CountCell(names, skip, cols, totalCol, r, c))
  }

  /**
   * The count table's grid for the shown columns: column 0 holds the caption over two
   * sentinels, row 0 the labels of the shown counts and "合計", the rows below each
   * column's three cells, the last column the total's.
   */
  function CountSheet(names: seq<string>, skip: nat, cols: seq<seq<Cell>>, totalCol: seq<Cell>): (sheet: Sheet)
    requires skip + |cols| <= |names|
    requires forall i :: 0 <= i < |cols| ==> |cols[i]| == 3
    requires |totalCol| == 3
    ensures |sheet.cells| == 4 && Rectangular(sheet.cells) && Width(sheet.cells) == |cols| + 2
    ensures SameShape(sheet.cells, sheet.colors)
  {
    var cells := [CountRow(names, skip, cols, totalCol, 0), CountRow(names, skip, cols, totalCol, 1),
      CountRow(names, skip, cols, totalCol, 2), CountRow(names, skip, cols, totalCol, 3)];
    Sheet(cells, BandColors(4, |cols| + 2, r => r == 1, false))
  }

  /** The labels the count table reads its header from. */
  function Names(counts: seq<int>, labels: Option<seq<string>>): seq<string> {
    if labels.Some? then labels.value else IndexLabels(|counts|)
  }

  /** The counts the count table shows, after its leading zeros. */
  function Shown(counts: seq<int>): seq<int> {
    counts[LeadingRun(counts, 0)..]
  }

  /**
   * The count table: labels across the top (by default "0", "1", ...), the leading run
   * of zero counts dropped, then per remaining count its count, percentage and
   * fraction of the total, and a final total column.
   */
  function CountTable(counts: seq<int>, labels: Option<seq<string>>): (r: Result<Sheet>)
    ensures labels.Some? && |labels.value| != |counts| ==> r == Err(AssertionError)
    ensures r.Ok? <==> ((labels.None? || |labels.value| == |counts|)
      && (forall i :: 0 <= i < |counts| ==> 0 <= counts[i]) && Sum(counts) != 0)
    ensures ((labels.None? || |labels.value| == |counts|) && (forall i :: 0 <= i < |counts| ==> 0 <= counts[i])
      && Sum(counts) == 0) ==> r == Err(ZeroDivisionError)
    ensures (exists i :: 0 <= i < |counts| && counts[i] < 0) ==> r == Err(AssertionError)
    ensures r.Ok? ==> var skip := LeadingRun(counts, 0);
      && |r.value.cells| == 4 && Rectangular(r.value.cells) && Width(r.value.cells) == |counts| - skip + 2
      && SameShape(r.value.cells, r.value.colors)
  {
    if labels.Some? && |labels.value| != |counts| then Err(AssertionError)
    else
      CountTableOutcome(counts);
      var cols :- MapResult(Shown(counts), (c: int) => CountProbTuple(c, Sum(counts)));
      var totalCol :- CountProbTuple(Sum(counts), Sum(counts));
      Ok(CountSheet(Names(counts, labels), LeadingRun(counts, 0), cols, totalCol))
  }

  /**
   * Which counts pass the tuple's assertion: all of the shown ones and the total
   * exactly when no count is negative; with no negative count a zero total leaves
   * nothing shown; and the first shown count is never zero.
   */
  lemma CountTableOutcome(counts: seq<int>)
    ensures ((forall i :: 0 <= i < |Shown(counts)| ==> 0 <= Shown(counts)[i] <= Sum(counts)) && 0 <= Sum(counts))
      <==> forall i :: 0 <= i < |counts| ==> 0 <= counts[i]
    ensures (forall i :: 0 <= i < |counts| ==> 0 <= counts[i]) && Sum(counts) == 0 ==> |Shown(counts)| == 0
    ensures |Shown(counts)| > 0 ==> Shown(counts)[0] != 0
  {
    var total := Sum(counts);
    var skip := LeadingRun(counts, 0);
    var shown := Shown(counts);
    SkipKeepsSum(counts);
    if forall i :: 0 <= i < |counts| ==> 0 <= counts[i] {
      forall i | 0 <= i < |counts| ensures counts[i] <= total {
        PartBelowSum(counts, i);
      }
      NonNegativeSum(counts);
      if total == 0 && |shown| > 0 {
        ZeroSumAllZero(counts, skip);
      }
    } else {
      var i :| 0 <= i < |counts| && counts[i] < 0;
      assert shown[i - skip] == counts[i];
    }
  }

  /** The yes/no table: the count table with the labels "あり" and "なし". */
  function TrueFalseTable(counts: seq<int>): (r: Result<Sheet>)
    ensures |counts| != 2 ==> r == Err(AssertionError)
  {
    CountTable(counts, Some(["あり", "なし"]))
  }

  /**
   * With a positive yes-count, the yes/no table shows both counts under "あり" and
   * "なし", and their sum in the total column.
   */
  lemma TrueFalseBoth(yes: int, no: int)
    requires 0 < yes && 0 <= no
    ensures TrueFalseTable([yes, no]).Ok?
    ensures var cells := TrueFalseTable([yes, no]).value.cells;
      && Width(cells) == 4
      && cells[0][1] == Label("あり") && cells[0][2] == Label("なし")
      && cells[1][1] == Count(yes) && cells[1][2] == Count(no) && cells[1][3] == Count(yes + no)
  {
    TrueFalseYes(yes, no);
    TrueFalseNo(yes, no);
    TrueFalseCounts(yes, no);
    CountTableFrame([yes, no], Some(["あり", "なし"]));
  }

  /** Column 1 of the yes/no table for a positive yes-count: "あり" over the yes-count. */
  lemma TrueFalseYes(yes: int, no: int)
    requires 0 < yes && 0 <= no
    ensures TrueFalseTable([yes, no]).Ok?
    ensures var cells := TrueFalseTable([yes, no]).value.cells;
      1 < Width(cells) && cells[0][1] == Label("あり") && cells[1][1] == Count(yes)
  {
    TrueFalseCounts(yes, no);
    CountTableColumn([yes, no], Some(["あり", "なし"]), 1);
  }

  /** Column 2 of the yes/no table for a positive yes-count: "なし" over the no-count. */
  lemma TrueFalseNo(yes: int, no: int)
    requires 0 < yes && 0 <= no
    ensures TrueFalseTable([yes, no]).Ok?
    ensures var cells := TrueFalseTable([yes, no]).value.cells;
      2 < Width(cells) && cells[0][2] == Label("なし") && cells[1][2] == Count(no)
  {
    TrueFalseCounts(yes, no);
    CountTableColumn([yes, no], Some(["あり", "なし"]), 2);
  }

  /** Both counts are shown when the yes-count is positive, and they add up to the total. */
  lemma TrueFalseCounts(yes: int, no: int)
    requires 0 < yes && 0 <= no
    ensures Sum([yes, no]) == yes + no && LeadingRun([yes, no], 0) == 0 && Shown([yes, no]) == [yes, no]
    ensures CountTable([yes, no], Some(["あり", "なし"])).Ok?
  {
    var counts := [yes, no];
    assert counts[1..] == [no] && [no][1..] == [];
    assert Sum([no]) == no;
  }

  /** A zero yes-count is a leading zero: the "あり" column is dropped and "なし" comes first. */
  lemma TrueFalseNoOnly(no: int)
    requires 0 < no
    ensures TrueFalseTable([0, no]).Ok?
    ensures var cells := TrueFalseTable([0, no]).value.cells;
      && Width(cells) == 3 && cells[0][1] == Label("なし") && cells[1][1] == Count(no) && cells[1][2] == Count(no)
  {
    var counts := [0, no];
    var labels := Some(["あり", "なし"]);
    assert counts[1..] == [no] && [no][1..] == [];
    assert Sum([no]) == no;
    assert Sum(counts) == no;
    assert LeadingRun(counts, 0) == 1;
    assert Shown(counts) == [no];
    assert CountTable(counts, labels).Ok?;
    CountTableFrame(counts, labels);
    CountTableColumn(counts, labels, 1);
  }

  /** The count table, unpacked: the sheet is the grid of the shown counts' tuples and the total's. */
  lemma CountTableParts(counts: seq<int>, labels: Option<seq<string>>)
    requires CountTable(counts, labels).Ok?
    ensures |Names(counts, labels)| == |counts|
    ensures forall i :: 0 <= i < |Shown(counts)| ==> CountProbTuple(Shown(counts)[i], Sum(counts)).Ok?
    ensures CountProbTuple(Sum(counts), Sum(counts)).Ok?
    ensures CountTable(counts, labels).value == CountSheet(Names(counts, labels), LeadingRun(counts, 0),
      ShownColumns(counts), CountProbTuple(Sum(counts), Sum(counts)).value)
  {
    var f := (c: int) => CountProbTuple(c, Sum(counts));
    var cols := MapResult(Shown(counts), f).value;
    assert cols == ShownColumns(counts);
  }

  /** The three cells of every shown count. */
  function ShownColumns(counts: seq<int>): (cols: seq<seq<Cell>>)
    requires forall i :: 0 <= i < |Shown(counts)| ==> CountProbTuple(Shown(counts)[i], Sum(counts)).Ok?
    ensures |cols| == |Shown(counts)| && forall i :: 0 <= i < |cols| ==> |cols[i]| == 3
  {
    seq(|Shown(counts)|, i requires 0 <= i < |Shown(counts)| => CountProbTuple(Shown(counts)[i], Sum(counts)).value)
  }

  /** The caption column of a count grid: a blank corner over the caption and its two sentinels. */
  lemma CountGridCaption(cells: Grid, names: seq<string>, skip: nat, cols: seq<seq<Cell>>, totalCol: seq<Cell>)
    requires skip + |cols| <= |names|
    requires forall i :: 0 <= i < |cols| ==> |cols[i]| == 3
    requires |totalCol| == 3
    requires cells == CountSheet(names, skip, cols, totalCol).cells
    ensures |cells| == 4 && forall r :: 0 <= r < 4 ==> |cells[r]| == |cols| + 2
    ensures cells[0][0] == Blank && cells[1][0] == Label("件数／確率") && cells[2][0] == Down && cells[3][0] == Down
  {
  }

  /** The last column of a count grid: "合計" over the total's three cells. */
  lemma CountGridTotal(cells: Grid, names: seq<string>, skip: nat, cols: seq<seq<Cell>>, totalCol: seq<Cell>)
    requires skip + |cols| <= |names|
    requires forall i :: 0 <= i < |cols| ==> |cols[i]| == 3
    requires |totalCol| == 3
    requires cells == CountSheet(names, skip, cols, totalCol).cells
    ensures |cells| == 4 && forall r :: 0 <= r < 4 ==> |cells[r]| == |cols| + 2
    ensures var n := |cols|;
      && cells[0][n + 1] == Label("合計")
      && cells[1][n + 1] == totalCol[0] && cells[2][n + 1] == totalCol[1] && cells[3][n + 1] == totalCol[2]
  {
  }

  /** Column `c` of a count grid: the label of the `c`-th shown name over that column's three cells. */
  lemma CountGridColumn(cells: Grid, names: seq<string>, skip: nat, cols: seq<seq<Cell>>, totalCol: seq<Cell>, c: nat)
    requires skip + |cols| <= |names|
    requires forall i :: 0 <= i < |cols| ==> |cols[i]| == 3
    requires |totalCol| == 3
    requires 1 <= c <= |cols|
    requires cells == CountSheet(names, skip, cols, totalCol).cells
    ensures |cells| == 4 && forall r :: 0 <= r < 4 ==> |cells[r]| == |cols| + 2
    ensures cells[0][c] == Label(names[c - 1 + skip])
    ensures cells[1][c] == cols[c - 1][0] && cells[2][c] == cols[c - 1][1] && cells[3][c] == cols[c - 1][2]
  {
  }

  /** The count table's fixed cells: the caption with its two sentinels, and the total column. */
  lemma CountTableFrame(counts: seq<int>, labels: Option<seq<string>>)
    requires CountTable(counts, labels).Ok?
    ensures var cells := CountTable(counts, labels).value.cells;
      && cells[0][0] == Blank
      && cells[1][0] == Label("件数／確率") && cells[2][0] == Down && cells[3][0] == Down
      && cells[0][|Shown(counts)| + 1] == Label("合計")
      && cells[1][|Shown(counts)| + 1] == Count(Sum(counts))
      && cells[2][|Shown(counts)| + 1] == Percentage(1.0) && cells[3][|Shown(counts)| + 1] == Fraction(1.0)
  {
    CountTableParts(counts, labels);
    CountSheetFrame(CountTable(counts, labels).value.cells, counts, Names(counts, labels));
  }

  /** The fixed cells of the count sheet of `counts`: the caption column and the total column. */
  lemma CountSheetFrame(cells: Grid, counts: seq<int>, names: seq<string>)
    requires |names| == |counts|
    requires forall i :: 0 <= i < |Shown(counts)| ==> CountProbTuple(Shown(counts)[i], Sum(counts)).Ok?
    requires CountProbTuple(Sum(counts), Sum(counts)).Ok?
    requires cells == CountSheet(names, LeadingRun(counts, 0), ShownColumns(counts),
      CountProbTuple(Sum(counts), Sum(counts)).value).cells
    ensures |cells| == 4 && forall r :: 0 <= r < 4 ==> |cells[r]| == |Shown(counts)| + 2
    ensures var n := |Shown(counts)|;
      && cells[0][0] == Blank
      && cells[1][0] == Label("件数／確率") && cells[2][0] == Down && cells[3][0] == Down
      && cells[0][n + 1] == Label("合計")
      && cells[1][n + 1] == Count(Sum(counts))
      && cells[2][n + 1] == Percentage(1.0) && cells[3][n + 1] == Fraction(1.0)
  {
    var total := Sum(counts);
    var skip, cols, t := LeadingRun(counts, 0), ShownColumns(counts), CountProbTuple(total, total).value;
    CountGridCaption(cells, names, skip, cols, t);
    CountGridTotal(cells, names, skip, cols, t);
    ShareBounds(total, total);
  }

  /** Column `c` of the count table shows the label, count and share of the `c`-th shown count. */
  lemma CountTableColumn(counts: seq<int>, labels: Option<seq<string>>, c: nat)
    requires CountTable(counts, labels).Ok?
    requires 1 <= c <= |Shown(counts)|
    ensures var cells := CountTable(counts, labels).value.cells;
      var k := c - 1 + LeadingRun(counts, 0);
      && cells[0][c] == Label(Names(counts, labels)[k])
      && cells[1][c] == Count(counts[k])
      && cells[2][c] == Percentage(Share(counts[k], Sum(counts)))
      && cells[3][c] == Fraction(Share(counts[k], Sum(counts)))
  {
    CountTableParts(counts, labels);
    CountSheetColumn(CountTable(counts, labels).value.cells, counts, Names(counts, labels), c);
  }

  /**
   * Column `c` of the count sheet of `counts`: the label of the `c`-th shown name over
   * the count and share of the `c`-th shown count.
   */
  lemma CountSheetColumn(cells: Grid, counts: seq<int>, names: seq<string>, c: nat)
    requires |names| == |counts|
    requires forall i :: 0 <= i < |Shown(counts)| ==> CountProbTuple(Shown(counts)[i], Sum(counts)).Ok?
    requires CountProbTuple(Sum(counts), Sum(counts)).Ok?
    requires 1 <= c <= |Shown(counts)|
    requires cells == CountSheet(names, LeadingRun(counts, 0), ShownColumns(counts),
      CountProbTuple(Sum(counts), Sum(counts)).value).cells
    ensures var k := c - 1 + LeadingRun(counts, 0);
      && k < |counts|
      && cells[0][c] == Label(names[k])
      && cells[1][c] == Count(counts[k])
      && cells[2][c] == Percentage(Share(counts[k], Sum(counts)))
      && cells[3][c] == Fraction(Share(counts[k], Sum(counts)))
  {
    ShownColumnCells(counts, c - 1);
    CountGridColumn(cells, names, LeadingRun(counts, 0), ShownColumns(counts), CountProbTuple(Sum(counts), Sum(counts)).value, c);
  }

  /** Shown column `i` holds the count at `i` after the leading zeros, its percentage and fraction. */
  lemma ShownColumnCells(counts: seq<int>, i: nat)
    requires forall j :: 0 <= j < |Shown(counts)| ==> CountProbTuple(Shown(counts)[j], Sum(counts)).Ok?
    requires i < |Shown(counts)|
    ensures var k := i + LeadingRun(counts, 0);
      && k < |counts|
      && ShownColumns(counts)[i]
        == [Count(counts[k]), Percentage(Share(counts[k], Sum(counts))), Fraction(Share(counts[k], Sum(counts)))]
  {
    var k := i + LeadingRun(counts, 0);
    assert Shown(counts)[i] == counts[k];
    var col := ShownColumns(counts)[i];
    assert col == CountProbTuple(counts[k], Sum(counts)).value;
    assert |col| == 3 && col[0] == Count(counts[k]);
  }

  /**
   * How the count table merges: the caption in column 0 spans three rows, the two
   * sentinels under it vanish, and every other cell keeps span 1.
   */
  lemma CountTableSpans(counts: seq<int>, labels: Option<seq<string>>)
    requires CountTable(counts, labels).Ok?
    ensures var cells := CountTable(counts, labels).value.cells;
      && Weight(cells, 0, 0) == 1 && Weight(cells, 1, 0) == 3 && Weight(cells, 2, 0) == 0 && Weight(cells, 3, 0) == 0
    ensures var cells := CountTable(counts, labels).value.cells;
      forall r, c :: 0 <= r < 4 && 1 <= c < Width(cells) ==> Weight(cells, r, c) == 1
  {
    var cells := CountTable(counts, labels).value.cells;
    CountTableFrame(counts, labels);
    StackedSpan(cells, 0);
    forall r, c | 0 <= r < 4 && 1 <= c < Width(cells) ensures Weight(cells, r, c) == 1 {
      CountTableColumnSpans(counts, labels, c);
    }
  }

  lemma CountTableColumnSpans(counts: seq<int>, labels: Option<seq<string>>, c: nat)
    requires CountTable(counts, labels).Ok?
    requires 1 <= c < Width(CountTable(counts, labels).value.cells)
    ensures var cells := CountTable(counts, labels).value.cells;
      forall r :: 0 <= r < 4 ==> Weight(cells, r, c) == 1
  {
    if c <= |Shown(counts)| {
      ShownColumnSpans(counts, labels, c);
    } else {
      TotalColumnSpans(counts, labels, c);
    }
  }

  /** A column of a four-row table with a percentage and a fraction below its caption does not merge. */
  lemma NoDownBelowCaption(cells: Grid, c: nat)
    requires |cells| == 4 && Rectangular(cells) && c < Width(cells)
    requires cells[2][c].Percentage? && cells[3][c].Fraction?
    ensures forall r :: 0 <= r < 4 ==> Weight(cells, r, c) == 1
  {
    PlainColumn(cells, c);
  }

  lemma ShownColumnSpans(counts: seq<int>, labels: Option<seq<string>>, c: nat)
    requires CountTable(counts, labels).Ok?
    requires 1 <= c <= |Shown(counts)|
    ensures var cells := CountTable(counts, labels).value.cells;
      forall r :: 0 <= r < 4 ==> Weight(cells, r, c) == 1
  {
    var cells := CountTable(counts, labels).value.cells;
    CountTableColumn(counts, labels, c);
    NoDownBelowCaption(cells, c);
  }

  lemma TotalColumnSpans(counts: seq<int>, labels: Option<seq<string>>, c: nat)
    requires CountTable(counts, labels).Ok?
    requires c == |Shown(counts)| + 1
    ensures var cells := CountTable(counts, labels).value.cells;
      forall r :: 0 <= r < 4 ==> Weight(cells, r, c) == 1
  {
    var cells := CountTable(counts, labels).value.cells;
    CountTableFrame(counts, labels);
    NoDownBelowCaption(cells, c);
  }

  // ---------------------------------------------------------------- the mitites table

  /** `math.comb(n, k)`, by Pascal's rule. */
  function Binomial(n: nat, k: nat): (r: nat)
    ensures k > n ==> r == 0
    ensures k == 0 || k == n ==> r == 1
  {
    if k == 0 then 1 else if n == 0 then 0 else Binomial(n - 1, k - 1) + Binomial(n - 1, k)
  }

  function Power(x: real, k: nat): real {
    if k == 0 then 1.0 else x * Power(x, k - 1)
  }

  lemma {:induction false} PowerNonNegative(x: real, k: nat)
    requires x >= 0.0
    ensures Power(x, k) >= 0.0
  {
    if k > 0 {
      PowerNonNegative(x, k - 1);
    }
  }

  /** A mitites set is hidden in each egg with chance 1/20. */
  const MititesChance: real := 1.0 / 20.0

  /** The chance that exactly `mitites` of `eggs` eggs hold a mitites set. */
  function MititesProb(eggs: nat, mitites: nat): (r: real)
    ensures r >= 0.0
    ensures mitites > eggs ==> r == 0.0
  {
    if mitites > eggs then 0.0
    else
      PowerNonNegative(MititesChance, mitites);
      PowerNonNegative(1.0 - MititesChance, eggs - mitites);
      Binomial(eggs, mitites) as real * Power(MititesChance, mitites) * Power(1.0 - MititesChance, eggs - mitites)
  }

  /** `sum(eggProbs[e] * MititesProb(e, mitites) for e in range(from, len(eggProbs)))`. */
  function MixFrom(eggProbs: seq<real>, mitites: nat, from: nat): (r: real)
    requires from <= |eggProbs|
    ensures (forall e :: from <= e < |eggProbs| ==> eggProbs[e] >= 0.0) ==> r >= 0.0
    ensures (forall e :: from <= e < |eggProbs| ==> eggProbs[e] == 0.0) ==> r == 0.0
    decreases |eggProbs| - from
  {
    if from == |eggProbs| then 0.0
    else
      var rest := MixFrom(eggProbs, mitites, from + 1);
      eggProbs[from] * MititesProb(from, mitites) + rest
  }

  /** The mitites distribution mixed over the egg-count distribution. */
  function MititesFromEggs(eggProbs: seq<real>): (r: seq<real>)
    ensures |r| == |eggProbs|
    ensures forall m :: 0 <= m < |r| ==> r[m] == MixFrom(eggProbs, m, m)
    ensures (forall e :: 0 <= e < |eggProbs| ==> eggProbs[e] >= 0.0) ==> forall m :: 0 <= m < |r| ==> r[m] >= 0.0
  {
    seq(|eggProbs|, m requires 0 <= m < |eggProbs| => MixFrom(eggProbs, m, m))
  }

  function MititesCell(skip: nat, cols: seq<seq<Cell>>, r: nat, c: nat): Cell
    requires r < 3 && c < |cols| + 1
    requires forall i :: 0 <= i < |cols| ==> |cols[i]| == 2
  {
    if c == 0 then
      if r == 0 then Label("タマゴムシのセット数") else if r == 1 then Label("確率") else Down
    else if r == 0 then Count(c - 1 + skip)
    else cols[c - 1][r - 1]
  }

  /**
   * The mitites table's grid for the shown numbers of sets: column 0 holds the two
   * captions over a sentinel, row 0 the numbers of sets, the rows below each number's
   * percentage and fraction; the colour grid has `colorWidth` columns.
   */
  function MititesSheet(skip: nat, cols: seq<seq<Cell>>, colorWidth: nat): (sheet: Sheet)
    requires forall i :: 0 <= i < |cols| ==> |cols[i]| == 2
    ensures |sheet.cells| == 3 && Rectangular(sheet.cells) && Width(sheet.cells) == |cols| + 1
    ensures forall r, c :: 0 <= r < 3 && 0 <= c < |cols| + 1 ==> sheet.cells[r][c] == MititesCell(skip, cols, r, c)
    ensures |sheet.colors| == 3 && forall r :: 0 <= r < 3 ==> |sheet.colors[r]| == colorWidth
  {
    var cells := seq(3, r requires 0 <= r < 3 =>
      seq(|cols| + 1, c requires 0 <= c < |cols| + 1 => MititesCell(skip, cols, r, c)));
    Sheet(cells, BandColors(3, colorWidth, r => r == 1, true))
  }

  /** The chances the mitites table shows: the mixture when egg chances are given. */
  function MititesInput(eggProbs: Option<seq<real>>, mititesProbs: Option<seq<real>>): seq<real>
    requires eggProbs.Some? || mititesProbs.Some?
  {
    if eggProbs.Some? then MititesFromEggs(eggProbs.value) else mititesProbs.value
  }

  /**
   * The mitites table, from either an egg-count distribution or a mitites distribution
   * (exactly one must be given): the leading run of zero chances is dropped and each
   * remaining number of sets gets its percentage and fraction.  The colour grid keeps
   * the width before dropping.
   */
  function MititesTable(eggProbs: Option<seq<real>>, mititesProbs: Option<seq<real>>): (r: Result<Sheet>)
    ensures eggProbs.Some? == mititesProbs.Some? ==> r == Err(AssertionError)
    ensures r.Err? ==> r.error == AssertionError
    ensures r.Ok? <==> (eggProbs.Some? != mititesProbs.Some?
      && var probs := MititesInput(eggProbs, mititesProbs); forall m :: 0 <= m < |probs| ==> 0.0 <= probs[m] <= 1.0)
  {
    if eggProbs.Some? == mititesProbs.Some? then Err(AssertionError)
    else MititesGrid(MititesInput(eggProbs, mititesProbs))
  }

  /** The mitites table of the chances `probs`, once the input has been checked. */
  function MititesGrid(probs: seq<real>): (r: Result<Sheet>)
    ensures r.Err? ==> r.error == AssertionError
    ensures r.Ok? <==> forall m :: 0 <= m < |probs| ==> 0.0 <= probs[m] <= 1.0
  {
    var skip := LeadingRun(probs, 0.0);
    var shown := probs[skip..];
    assert forall m :: 0 <= m < |probs| && m < skip ==> probs[m] == 0.0;
    assert forall m :: skip <= m < |probs| ==> probs[m] == shown[m - skip];
    var cols :- MapResult(shown, ProbTuple);
    Ok(MititesSheet(skip, cols, |probs| + 1))
  }

  /**
   * The frame of the mitites table: three rows, one column per shown number of sets
   * after the caption column, a colour grid as wide as the unskipped input, and the
   * two captions over a sentinel.
   */
  lemma MititesTableFrame(eggProbs: Option<seq<real>>, mititesProbs: Option<seq<real>>)
    requires MititesTable(eggProbs, mititesProbs).Ok?
    ensures var sheet := MititesTable(eggProbs, mititesProbs).value;
      var probs := MititesInput(eggProbs, mititesProbs);
      && |sheet.cells| == 3 && Rectangular(sheet.cells) && Width(sheet.cells) == |probs| - LeadingRun(probs, 0.0) + 1
      && |sheet.colors| == 3 && (forall r :: 0 <= r < 3 ==> |sheet.colors[r]| == |probs| + 1)
      && sheet.cells[0][0] == Label("タマゴムシのセット数") && sheet.cells[1][0] == Label("確率") && sheet.cells[2][0] == Down
  {
    MititesGridFrame(MititesInput(eggProbs, mititesProbs));
  }

  /**
   * The columns of the mitites table: the shown numbers of sets start after the
   * leading zero chances, each with its chance as percentage and fraction.
   */
  lemma MititesTableColumns(eggProbs: Option<seq<real>>, mititesProbs: Option<seq<real>>)
    requires MititesTable(eggProbs, mititesProbs).Ok?
    ensures var probs := MititesInput(eggProbs, mititesProbs);
      MititesColumns(MititesTable(eggProbs, mititesProbs).value, probs, LeadingRun(probs, 0.0))
  {
    MititesGridColumns(MititesInput(eggProbs, mititesProbs));
  }

  /** The frame of the mitites table of the chances `probs`. */
  lemma MititesGridFrame(probs: seq<real>)
    requires MititesGrid(probs).Ok?
    ensures var sheet := MititesGrid(probs).value;
      && |sheet.cells| == 3 && Rectangular(sheet.cells) && Width(sheet.cells) == |probs| - LeadingRun(probs, 0.0) + 1
      && |sheet.colors| == 3 && (forall r :: 0 <= r < 3 ==> |sheet.colors[r]| == |probs| + 1)
      && sheet.cells[0][0] == Label("タマゴムシのセット数") && sheet.cells[1][0] == Label("確率") && sheet.cells[2][0] == Down
  {
    var skip := LeadingRun(probs, 0.0);
    var cols := MapResult(probs[skip..], ProbTuple).value;
    MititesSheetFrame(MititesGrid(probs).value, |probs|, skip, cols);
  }

  /** The columns of the mitites table of the chances `probs`. */
  lemma MititesGridColumns(probs: seq<real>)
    requires MititesGrid(probs).Ok?
    ensures MititesColumns(MititesGrid(probs).value, probs, LeadingRun(probs, 0.0))
  {
    var skip := LeadingRun(probs, 0.0);
    MititesGridValue(probs);
    var cols := MapResult(probs[skip..], ProbTuple).value;
    ProbColumns(probs, skip, cols);
    MititesSheetColumns(MititesGrid(probs).value, probs, skip, cols);
  }

  /** A checked mitites grid is the sheet of the chance columns after the leading zeros. */
  lemma MititesGridValue(probs: seq<real>)
    requires MititesGrid(probs).Ok?
    ensures var skip := LeadingRun(probs, 0.0);
      && MapResult(probs[skip..], ProbTuple).Ok?
      && MititesGrid(probs).value == MititesSheet(skip, MapResult(probs[skip..], ProbTuple).value, |probs| + 1)
  {
  }

  /** The chance columns of `probs` after `skip`: each shows its chance as percentage and fraction. */
  lemma ProbColumns(probs: seq<real>, skip: nat, cols: seq<seq<Cell>>)
    requires skip <= |probs| && MapResult(probs[skip..], ProbTuple) == Ok(cols)
    ensures |cols| == |probs| - skip
    ensures forall i :: 0 <= i < |cols| ==> cols[i] == [Percentage(probs[i + skip]), Fraction(probs[i + skip])]
  {
    forall i | 0 <= i < |cols|
      ensures cols[i] == [Percentage(probs[i + skip]), Fraction(probs[i + skip])]
    {
      var p := probs[skip..][i];
      assert p == probs[i + skip];
      assert cols[i] == ProbTuple(p).value;
      assert |cols[i]| == 2 && cols[i][0] == Percentage(p) && cols[i][1] == Fraction(p);
    }
  }

  /** The frame of a mitites sheet. */
  lemma MititesSheetFrame(sheet: Sheet, n: nat, skip: nat, cols: seq<seq<Cell>>)
    requires skip <= n && |cols| == n - skip
    requires forall i :: 0 <= i < |cols| ==> |cols[i]| == 2
    requires sheet == MititesSheet(skip, cols, n + 1)
    ensures |sheet.cells| == 3 && Rectangular(sheet.cells) && Width(sheet.cells) == n - skip + 1
    ensures |sheet.colors| == 3 && (forall r :: 0 <= r < 3 ==> |sheet.colors[r]| == n + 1)
    ensures sheet.cells[0][0] == Label("タマゴムシのセット数") && sheet.cells[1][0] == Label("確率") && sheet.cells[2][0] == Down
  {
    assert sheet.cells[0][0] == MititesCell(skip, cols, 0, 0);
    assert sheet.cells[1][0] == MititesCell(skip, cols, 1, 0);
    assert sheet.cells[2][0] == MititesCell(skip, cols, 2, 0);
  }

  /**
   * The columns of a mitites sheet: after the caption column, column `c` is headed by
   * the number of sets `c - 1 + skip` over that chance as percentage and fraction.
   */
  predicate MititesColumns(sheet: Sheet, probs: seq<real>, skip: nat)
  {
    && |sheet.cells| == 3 && skip <= |probs|
    && forall c :: 1 <= c < |probs| - skip + 1 ==>
      && c < |sheet.cells[0]| && c < |sheet.cells[1]| && c < |sheet.cells[2]|
      && sheet.cells[0][c] == Count(c - 1 + skip)
      && sheet.cells[1][c] == Percentage(probs[c - 1 + skip])
      && sheet.cells[2][c] == Fraction(probs[c - 1 + skip])
  }

  /** The columns of a mitites sheet whose column cells hold the chances `probs` after `skip`. */
  lemma MititesSheetColumns(sheet: Sheet, probs: seq<real>, skip: nat, cols: seq<seq<Cell>>)
    requires skip <= |probs| && |cols| == |probs| - skip
    requires forall i :: 0 <= i < |cols| ==> cols[i] == [Percentage(probs[i + skip]), Fraction(probs[i + skip])]
    requires sheet == MititesSheet(skip, cols, |probs| + 1)
    ensures MititesColumns(sheet, probs, skip)
  {
    forall c | 1 <= c < |probs| - skip + 1
      ensures && c < |sheet.cells[0]| && c < |sheet.cells[1]| && c < |sheet.cells[2]|
              && sheet.cells[0][c] == Count(c - 1 + skip)
              && sheet.cells[1][c] == Percentage(probs[c - 1 + skip])
              && sheet.cells[2][c] == Fraction(probs[c - 1 + skip])
    {
      assert sheet.cells[0][c] == MititesCell(skip, cols, 0, c);
      assert sheet.cells[1][c] == MititesCell(skip, cols, 1, c);
      assert sheet.cells[2][c] == MititesCell(skip, cols, 2, c);
    }
  }

  /** The caption of the mitites table spans its two data rows; nothing else merges. */
  lemma MititesTableSpans(eggProbs: Option<seq<real>>, mititesProbs: Option<seq<real>>)
    requires MititesTable(eggProbs, mititesProbs).Ok?
    ensures var cells := MititesTable(eggProbs, mititesProbs).value.cells;
      && Weight(cells, 1, 0) == 2 && Weight(cells, 2, 0) == 0
      && forall r, c :: 0 <= r < 3 && 1 <= c < Width(cells) ==> Weight(cells, r, c) == 1
  {
    var cells := MititesTable(eggProbs, mititesProbs).value.cells;
    MititesTableFrame(eggProbs, mititesProbs);
    MititesTableColumns(eggProbs, mititesProbs);
    ThreeRowSpans(cells);
  }

  /** A three-row table with a sentinel under its caption and fractions along the bottom row. */
  lemma ThreeRowSpans(cells: Grid)
    requires |cells| == 3 && Rectangular(cells) && Width(cells) >= 1
    requires cells[1][0] != Down && cells[2][0] == Down
    requires forall c :: 1 <= c < Width(cells) ==> cells[2][c].Fraction?
    ensures Weight(cells, 1, 0) == 2 && Weight(cells, 2, 0) == 0
    ensures forall r, c :: 0 <= r < 3 && 1 <= c < Width(cells) ==> Weight(cells, r, c) == 1
  {
    assert Lead(cells, 3, 0) == 0;
    forall r, c | 0 <= r < 3 && 1 <= c < Width(cells) ensures Weight(cells, r, c) == 1 {
      assert cells[2][c] != Down;
      assert Lead(cells, r + 1, c) == 0;
    }
  }

  // ---------------------------------------------------------------- convolution

  /** `sum(a[i] * b[k - i])` over `i < n` with `k - i` a valid index of `b`. */
  function ConvolutionAt(a: seq<real>, b: seq<real>, k: int, n: nat): real
    requires n <= |a|
  {
    if n == 0 then 0.0
    else ConvolutionAt(a, b, k, n - 1) + (if 0 <= k - (n - 1) < |b| then a[n - 1] * b[k - (n - 1)] else 0.0)
  }

  /** The distribution of the sum of two independent counts with distributions `a` and `b`. */
  function Convolution(a: seq<real>, b: seq<real>): (r: seq<real>)
    ensures |r| == if |a| + |b| >= 1 then |a| + |b| - 1 else 0
  {
    seq(if |a| + |b| >= 1 then |a| + |b| - 1 else 0, k => ConvolutionAt(a, b, k, |a|))
  }

  /**
   * The distribution of a sum of two independent counts, by the double loop that
   * adds each product `a[i] * b[j]` into entry `i + j`.
   */
  method Convolve(a: seq<real>, b: seq<real>) returns (r: seq<real>)
    ensures |r| == if |a| + |b| >= 1 then |a| + |b| - 1 else 0
    ensures forall k :: 0 <= k < |r| ==> r[k] == ConvolutionAt(a, b, k, |a|)
    ensures r == Convolution(a, b)
  {
    var len := if |a| + |b| >= 1 then |a| + |b| - 1 else 0;
    r := seq(len, k => 0.0);
    for i := 0 to |a|
      invariant |r| == len
      invariant forall k :: 0 <= k < len ==> r[k] == ConvolutionAt(a, b, k, i)
    {
      for j := 0 to |b|
        invariant |r| == len
        invariant forall k :: 0 <= k < len ==>
          r[k] == ConvolutionAt(a, b, k, i) + (if 0 <= k - i < j then a[i] * b[k - i] else 0.0)
      {
        r := r[i + j := r[i + j] + a[i] * b[j]];
      }
    }
  }
}
