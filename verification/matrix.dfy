/**
 * The 2-D container of `static/js/Matrix.js`: a width, a height and rows of cells,
 * built from ragged rows or by filling, with counting, reading and writing one cell,
 * searching in row-major order, and printing.
 */
module Matrices {
  import opened Results
  import opened Text

  /** The JavaScript values the pages keep in a matrix: `undefined`, integers and strings. */
  datatype Value = Undefined | Num(n: int) | Str(s: string)

  /** `Number(s)` for the strings the model covers: "" is 0, otherwise an optional sign and decimal digits. */
  function StringNumber(s: string): Option<int> {
    if s == "" then Some(0) else ParseInt(s)
  }

  /** JavaScript's loose `==` on these values: a string and a number meet through the string's numeric value. */
  predicate LooseEquals(a: Value, b: Value) {
    match (a, b)
    case (Undefined, Undefined) => true
    case (Num(m), Num(n)) => m == n
    case (Str(s), Str(t)) => s == t
    case (Num(m), Str(t)) => StringNumber(t) == Some(m)
    case (Str(s), Num(n)) => StringNumber(s) == Some(n)
    case _ => false
  }

  /**
   * A stored row: the indices written so far and their values.  The constructor writes
   * `0 .. width - 1`; `set` may write any other index, as a JavaScript array grows.
   */
  type Row = map<int, Value>

  datatype MatrixData = MatrixData(width: nat, height: nat, cell: seq<Row>)

  /** A matrix holds one row per unit of height. */
  type Matrix = m: MatrixData | |m.cell| == m.height witness MatrixData(0, 0, [])

  /** `this.cell[y][x]` for a row that exists: an index never written reads as `undefined`. */
  function At(m: Matrix, x: int, y: nat): Value
    requires y < m.height
  {
    if x in m.cell[y] then m.cell[y][x] else Undefined
  }

  // ---------------------------------------------------------------- construction

  /** The constructor's first loop: the greatest row length, 0 for no rows. */
  function MaxLength(rows: seq<seq<Value>>): (w: nat)
    ensures forall y :: 0 <= y < |rows| ==> |rows[y]| <= w
    ensures w == 0 || exists y :: 0 <= y < |rows| && |rows[y]| == w
  {
    if rows == [] then 0
    else
      var init := rows[..|rows| - 1];
      var last := |rows[|rows| - 1]|;
      var w := MaxLength(init);
      assert forall y :: 0 <= y < |init| ==> init[y] == rows[y];
      if last > w then last else w
  }

  /** The row the constructor stores: the first `width` entries of `row`, `undefined` past its end. */
  function Padded(row: seq<Value>, width: nat): (r: Row)
    ensures forall x :: x in r <==> 0 <= x < width
    ensures forall x :: 0 <= x < width ==> r[x] == if x < |row| then row[x] else Undefined
  {
    map x | 0 <= x < width :: if x < |row| then row[x] else Undefined
  }

  /** `new Matrix(array2d)`: as wide as the longest row, with shorter rows padded by `undefined`. */
  function FromRows(rows: seq<seq<Value>>): (m: Matrix)
    ensures m.height == |rows|
    ensures forall y :: 0 <= y < |rows| ==> |rows[y]| <= m.width
    ensures m.width == 0 || exists y :: 0 <= y < |rows| && |rows[y]| == m.width
    ensures forall y, x :: 0 <= y < |rows| && 0 <= x < m.width ==>
      At(m, x, y) == if x < |rows[y]| then rows[y][x] else Undefined
    ensures forall y, x :: 0 <= y < |rows| && !(0 <= x < m.width) ==> At(m, x, y) == Undefined
  {
    var w := MaxLength(rows);
    MatrixData(w, |rows|, seq(|rows|, y requires 0 <= y < |rows| => Padded(rows[y], w)))
  }

  /** The cells of row `y` from 0 to `width - 1`. */
  function RowValues(m: Matrix, y: nat): (r: seq<Value>)
    requires y < m.height
    ensures |r| == m.width && forall x :: 0 <= x < m.width ==> r[x] == At(m, x, y)
  {
    seq(m.width, x requires 0 <= x < m.width => At(m, x, y))
  }

  /** All rows, each read across the width. */
  function Rows(m: Matrix): (r: seq<seq<Value>>)
    ensures |r| == m.height && forall y :: 0 <= y < m.height ==> r[y] == RowValues(m, y)
  {
    seq(m.height, y requires 0 <= y < m.height => RowValues(m, y))
  }

  /** Rows of one length survive construction unchanged. */
  lemma FromRowsKeepsRows(rows: seq<seq<Value>>, width: nat)
    requires forall y :: 0 <= y < |rows| ==> |rows[y]| == width
    ensures |rows| > 0 ==> FromRows(rows).width == width
    ensures Rows(FromRows(rows)) == rows
  {
    var m := FromRows(rows);
    forall y | 0 <= y < |rows| ensures RowValues(m, y) == rows[y] {
      assert |rows[y]| <= m.width;
    }
  }

  /** What `makeFilled` writes at `(x, y)`: the function's value, or the value itself. */
  datatype Fill = Constant(value: Value) | Generated(f: (int, int) -> Value)

  function FillAt(fill: Fill, x: int, y: int): Value {
    match fill
    case Constant(v) => v
    case Generated(f) => f(x, y)
  }

  /** JavaScript's largest array length. */
  const MaxArrayLength: int := 0xFFFF_FFFF

  /**
   * `Matrix.makeFilled(width, height, fill)`: `height` rows of `width` filled cells.
   * A row of a negative or too-large length throws; with no rows the width is 0, since
   * the constructor measures the rows it is given.
   */
  function MakeFilled(width: int, height: int, fill: Fill): (r: Result<Matrix>)
    ensures r.Err? <==> height > 0 && !(0 <= width <= MaxArrayLength)
    ensures r.Err? ==> r.error == RangeError
    ensures r.Ok? ==> r.value.height == if height > 0 then height else 0
    ensures r.Ok? ==> r.value.width == if height > 0 then width else 0
    ensures r.Ok? ==> forall y, x :: 0 <= y < r.value.height && 0 <= x < r.value.width ==>
      At(r.value, x, y) == FillAt(fill, x, y)
  {
    if height <= 0 then Ok(FromRows([]))
    else if !(0 <= width <= MaxArrayLength) then Err(RangeError)
    else
      var rows := seq(height, y requires 0 <= y < height => seq(width, x requires 0 <= x < width => FillAt(fill, x, y)));
      var m := FromRows(rows);
      assert |rows[0]| == width;
      Ok(m)
  }

  // ---------------------------------------------------------------- reading and writing one cell

  /** `get(x, y)`: a missing row is a TypeError, a missing index in a row reads as `undefined`. */
  function Get(m: Matrix, x: int, y: int): (r: Result<Value>)
    ensures r.Err? <==> !(0 <= y < m.height)
    ensures r.Err? ==> r.error == TypeError
    ensures r.Ok? && !(0 <= x < m.width) && x !in m.cell[y] ==> r.value == Undefined
  {
    if 0 <= y < m.height then Ok(At(m, x, y)) else Err(TypeError)
  }

  /** `set(x, y, value)`: writes one index of an existing row; the width and height stay as they were. */
  function Set(m: Matrix, x: int, y: int, value: Value): (r: Result<Matrix>)
    ensures r.Err? <==> !(0 <= y < m.height)
    ensures r.Err? ==> r.error == TypeError
    ensures r.Ok? ==> r.value.width == m.width && r.value.height == m.height
  {
    if 0 <= y < m.height then Ok(MatrixData(m.width, m.height, m.cell[y := m.cell[y][x := value]]))
    else Err(TypeError)
  }

  /** After `set(x, y, v)`, `get(x, y)` is `v` and every other cell reads as before. */
  lemma GetAfterSet(m: Matrix, x: int, y: int, v: Value, x2: int, y2: int)
    requires Set(m, x, y, v).Ok?
    ensures Get(Set(m, x, y, v).value, x2, y2) == if x2 == x && y2 == y then Ok(v) else Get(m, x2, y2)
  {
  }

  // ---------------------------------------------------------------- counting

  /** What `count(arg)` tests each cell against: loose equality with a value, or a predicate. */
  datatype Query = Equal(value: Value) | Satisfies(p: Value -> bool)

  predicate Hit(q: Query, v: Value) {
    match q
    case Equal(w) => LooseEquals(v, w)
    case Satisfies(p) => p(v)
  }

  /** The cells of the first `y` rows in row-major order. */
  function Prefix(m: Matrix, y: nat): (s: seq<Value>)
    requires y <= m.height
    ensures |s| == y * m.width
  {
    if y == 0 then [] else Prefix(m, y - 1) + RowValues(m, y - 1)
  }

  /** Every cell in row-major order: `(x, y)` sits at `y * width + x`. */
  function Cells(m: Matrix): seq<Value> {
    Prefix(m, m.height)
  }

  lemma {:induction false} PrefixAt(m: Matrix, y: nat, x: nat, k: nat)
    requires k < y <= m.height && x < m.width
    ensures k * m.width + x < |Prefix(m, y)|
    ensures Prefix(m, y)[k * m.width + x] == At(m, x, k)
    decreases y
  {
    if k < y - 1 {
      PrefixAt(m, y - 1, x, k);
      assert k * m.width + x < (y - 1) * m.width by {
        assert (k + 1) * m.width <= (y - 1) * m.width by {
          MultiplyMonotone(k + 1, y - 1, m.width);
        }
      }
    } else {
      assert |Prefix(m, y - 1)| == k * m.width;
    }
  }

  lemma MultiplyMonotone(a: nat, b: nat, c: nat)
    requires a <= b
    ensures a * c <= b * c
  {
  }

  /** The cell of `(x, y)` is the `(y * width + x)`-th in row-major order. */
  lemma CellsAt(m: Matrix, x: nat, y: nat)
    requires x < m.width && y < m.height
    ensures y * m.width + x < |Cells(m)| && Cells(m)[y * m.width + x] == At(m, x, y)
  {
    PrefixAt(m, m.height, x, y);
  }

  /** The number of elements of `s` the query hits. */
  function CountIn(s: seq<Value>, q: Query): (n: nat)
    ensures n <= |s|
  {
    if s == [] then 0
    else CountIn(s[..|s| - 1], q) + (if Hit(q, s[|s| - 1]) then 1 else 0)
  }

  lemma {:induction false} CountInAppend(s: seq<Value>, t: seq<Value>, q: Query)
    ensures CountIn(s + t, q) == CountIn(s, q) + CountIn(t, q)
    decreases |t|
  {
    if t == [] {
      assert s + t == s;
    } else {
      var init := t[..|t| - 1];
      CountInAppend(s, init, q);
      assert (s + t)[..|s + t| - 1] == s + init;
    }
  }

  /** A count is zero exactly when the query hits nothing. */
  lemma {:induction false} CountInZero(s: seq<Value>, q: Query)
    ensures CountIn(s, q) == 0 <==> forall i :: 0 <= i < |s| ==> !Hit(q, s[i])
    decreases |s|
  {
    if s != [] {
      var init := s[..|s| - 1];
      CountInZero(init, q);
      assert forall i :: 0 <= i < |init| ==> init[i] == s[i];
    }
  }

  /** `count(arg)`: the two nested loops, rows outside, columns inside. */
  method Count(m: Matrix, q: Query) returns (n: nat)
    ensures n == CountIn(Cells(m), q)
    ensures n <= m.width * m.height
  {
    n := 0;
    var y := 0;
    while y < m.height
      invariant 0 <= y <= m.height
      invariant n == CountIn(Prefix(m, y), q)
    {
      var k := CountRow(m, y, q);
      CountInAppend(Prefix(m, y), RowValues(m, y), q);
      n := n + k;
      y := y + 1;
    }
    assert |Cells(m)| == m.height * m.width;
  }

  /** The inner loop of `count`: the hits along row `y`. */
  method CountRow(m: Matrix, y: nat, q: Query) returns (n: nat)
    requires y < m.height
    ensures n == CountIn(RowValues(m, y), q)
  {
    var row := RowValues(m, y);
    n := 0;
    var x := 0;
    while x < m.width
      invariant 0 <= x <= m.width
      invariant n == CountIn(row[..x], q)
    {
      CountSnoc(row[..x], row[x], q);
      assert row[..x + 1] == row[..x] + [row[x]];
      if Hit(q, At(m, x, y)) {
        n := n + 1;
      }
      x := x + 1;
    }
    assert row[..x] == row;
  }

  lemma CountSnoc(s: seq<Value>, v: Value, q: Query)
    ensures CountIn(s + [v], q) == CountIn(s, q) + if Hit(q, v) then 1 else 0
  {
    assert (s + [v])[..|s|] == s;
  }

  // ---------------------------------------------------------------- searching

  /** The position `(x, y)` is in the matrix and its cell loosely equals `v`. */
  predicate MatchAt(m: Matrix, v: Value, x: int, y: int) {
    0 <= x < m.width && 0 <= y < m.height && LooseEquals(At(m, x, y), v)
  }

  /** `(x2, y2)` comes before `(x, y)` in row-major order. */
  predicate Before(x2: int, y2: int, x: int, y: int) {
    y2 < y || (y2 == y && x2 < x)
  }

  /** `indexOf(value)`: the first match in row-major order, or `undefined` when nothing matches. */
  method IndexOf(m: Matrix, v: Value) returns (r: Option<(int, int)>)
    ensures r.Some? ==> MatchAt(m, v, r.value.0, r.value.1)
    ensures r.Some? ==> forall x2, y2 :: Before(x2, y2, r.value.0, r.value.1) ==> !MatchAt(m, v, x2, y2)
    ensures r.None? <==> forall x, y :: !MatchAt(m, v, x, y)
  {
    var y := 0;
    while y < m.height
      invariant 0 <= y <= m.height
      invariant forall x2, y2 :: y2 < y ==> !MatchAt(m, v, x2, y2)
    {
      var x := 0;
      while x < m.width
        invariant 0 <= x <= m.width
        invariant forall x2, y2 :: Before(x2, y2, x, y) ==> !MatchAt(m, v, x2, y2)
      {
        var got := Get(m, x, y);
        if LooseEquals(got.value, v) {
          assert MatchAt(m, v, x, y);
          return Some((x, y));
        }
        x := x + 1;
      }
      y := y + 1;
    }
    return None;
  }

  /** Nothing matches exactly when counting the value finds none. */
  lemma NoMatchCountsZero(m: Matrix, v: Value)
    ensures CountIn(Cells(m), Equal(v)) == 0 <==> forall x, y :: !MatchAt(m, v, x, y)
  {
    CountInZero(Cells(m), Equal(v));
    if CountIn(Cells(m), Equal(v)) == 0 {
      forall x, y | 0 <= x < m.width && 0 <= y < m.height ensures !MatchAt(m, v, x, y) {
        CellsAt(m, x, y);
      }
    } else {
      var i :| 0 <= i < |Cells(m)| && Hit(Equal(v), Cells(m)[i]);
      var x, y := RowMajorPosition(i, m.width, m.height);
      CellsAt(m, x, y);
      assert MatchAt(m, v, x, y);
    }
  }

  /** The row-major index `i` of a `width` by `height` grid names the cell `(i % width, i / width)`. */
  lemma RowMajorPosition(i: nat, width: nat, height: nat) returns (x: nat, y: nat)
    requires i < height * width
    ensures x < width && y < height && i == y * width + x
  {
    x := i % width;
    y := i / width;
    if y >= height {
      MultiplyMonotone(height, y, width);
    }
  }

  // ---------------------------------------------------------------- printing

  /** A cell as `toString` writes it: strings in single quotes, integers in decimal, `undefined` as such. */
  function CellText(v: Value): string {
    match v
    case Undefined => "undefined"
    case Num(n) => IntText(n)
    case Str(s) => "'" + s + "'"
  }

  /** One printed row, `  [a, b, c]`. */
  function RowText(m: Matrix, y: nat): string
    requires y < m.height
  {
    "  [" + Join(seq(m.width, x requires 0 <= x < m.width => CellText(At(m, x, y))), ", ") + "]"
  }

  /** The printed matrix: the rows between `[` and `]`, one per line, separated by commas. */
  function MatrixText(m: Matrix): string {
    "[\n" + Join(seq(m.height, y requires 0 <= y < m.height => RowText(m, y)), ",\n")
      + (if m.height > 0 then "\n" else "") + "]"
  }

  /** `toString()`: the loops that append each cell, each row and the separators. */
  method ToString(m: Matrix) returns (s: string)
    ensures s == MatrixText(m)
  {
    var rows := seq(m.height, y requires 0 <= y < m.height => RowText(m, y));
    var body := "";
    var y := 0;
    while y < m.height
      invariant 0 <= y <= m.height
      invariant body == Join(rows[..y], ",\n") + LineEnd(y, m.height)
    {
      var line := PrintRow(m, y);
      RowsStep(rows, y, m.height);
      body := body + line;
      if y != m.height - 1 {
        body := body + ",";
      }
      body := body + "\n";
      y := y + 1;
    }
    assert rows[..y] == rows;
    s := "[\n" + body + "]";
  }

  /** What follows the first `y` printed rows: nothing before the first, ",\n" between rows, "\n" after the last. */
  function LineEnd(y: nat, height: nat): string {
    if y == 0 then "" else if y < height then ",\n" else "\n"
  }

  lemma RowsStep(rows: seq<string>, y: nat, height: nat)
    requires y < height == |rows|
    ensures Join(rows[..y + 1], ",\n") + LineEnd(y + 1, height)
      == Join(rows[..y], ",\n") + LineEnd(y, height) + rows[y] + (if y != height - 1 then "," else "") + "\n"
  {
    JoinSnoc(rows[..y], rows[y], ",\n");
    assert rows[..y + 1] == rows[..y] + [rows[y]];
    assert "," + "\n" == ",\n";
  }

  /** The inner loop of `toString`: one row, a ", " after every cell but the last. */
  method PrintRow(m: Matrix, y: nat) returns (line: string)
    requires y < m.height
    ensures line == RowText(m, y)
  {
    var cells := seq(m.width, x requires 0 <= x < m.width => CellText(At(m, x, y)));
    var body := "";
    var x := 0;
    while x < m.width
      invariant 0 <= x <= m.width
      invariant body == Join(cells[..x], ", ") + CellEnd(x, m.width)
    {
      CellsStep(cells, x, m.width);
      body := body + cells[x];
      if x != m.width - 1 {
        body := body + ", ";
      }
      x := x + 1;
    }
    assert cells[..x] == cells;
    line := "  [" + body + "]";
  }

  /** What follows the first `x` printed cells of a row: ", " between cells, nothing at either end. */
  function CellEnd(x: nat, width: nat): string {
    if 0 < x < width then ", " else ""
  }

  lemma CellsStep(cells: seq<string>, x: nat, width: nat)
    requires x < width == |cells|
    ensures Join(cells[..x + 1], ", ") + CellEnd(x + 1, width)
      == Join(cells[..x], ", ") + CellEnd(x, width) + cells[x] + (if x != width - 1 then ", " else "")
  {
    JoinSnoc(cells[..x], cells[x], ", ");
    assert cells[..x + 1] == cells[..x] + [cells[x]];
  }

}
