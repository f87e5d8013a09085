/**
 * The egg lottery of `static/js/egg-lottery.js`: a 10 x 10 board of eggs that, once
 * breaking starts, turns one egg per frame into what hatched from it, in row-major
 * order, and a save button whose file name carries how many of each thing hatched.
 * The board is kept as its row-major cells: position `y * Width + x` holds `(y, x)`.
 */
module EggLottery {
  import opened Results
  import opened Text

  /** What a cell can show; `OBJECT_NAMES` in the page's order. */
  datatype Object = Egg | Nectar | WNectar | Spicy | Bitter | Mitites

  const ObjectNames: seq<Object> := [Egg, Nectar, WNectar, Spicy, Bitter, Mitites]

  /** The string the page stores for each object (also its image's file name). */
  function Name(o: Object): string {
    match o
    case Egg => "egg"
    case Nectar => "nectar"
    case WNectar => "wnectar"
    case Spicy => "spicy"
    case Bitter => "bitter"
    case Mitites => "mitites"
  }

  /** Distinct objects are stored as distinct strings, so `===` on names is equality of objects. */
  lemma NamesDistinct(a: Object, b: Object)
    ensures Name(a) == Name(b) <==> a == b
  {
    if a != b {
      assert Name(a)[..2] != Name(b)[..2] || |Name(a)| != |Name(b)| || Name(a)[2..] != Name(b)[2..];
    }
  }

  const Width: nat := 10
  const Height: nat := 10
  const Cells: nat := Width * Height

  type Board = b: seq<Object> | |b| == Cells witness seq(Cells, _ => Egg)

  /** `board.get(i, j)`. */
  function At(b: Board, i: nat, j: nat): Object
    requires i < Height && j < Width
  {
    b[i * Width + j]
  }

  /** `initBoard`: every cell an egg. */
  function InitBoard(): (b: Board)
    ensures forall i, j :: 0 <= i < Height && 0 <= j < Width ==> At(b, i, j) == Egg
    ensures multiset(b)[Egg] == Cells
  {
    var b := seq(Cells, _ => Egg);
    AllEggs(b);
    b
  }

  lemma {:induction false} AllEggs(s: seq<Object>)
    requires forall k :: 0 <= k < |s| ==> s[k] == Egg
    ensures multiset(s)[Egg] == |s|
  {
    if s != [] {
      AllEggs(s[..|s| - 1]);
      assert s == s[..|s| - 1] + [s[|s| - 1]];
    }
  }

  // ---------------------------------------------------------------- counting

  /** `count(board, value)`: the loops over rows and columns, counting cells equal to `v`. */
  method Count(b: Board, v: Object) returns (n: nat)
    ensures n == multiset(b)[v]
    ensures n <= Cells
  {
    n := 0;
    var i := 0;
    while i < Height
      invariant 0 <= i <= Height
      invariant n == multiset(b[..i * Width])[v] && n <= i * Width
    {
      var j := 0;
      while j < Width
        invariant 0 <= j <= Width
        invariant n == multiset(b[..i * Width + j])[v] && n <= i * Width + j
      {
        assert b[..i * Width + j + 1] == b[..i * Width + j] + [At(b, i, j)];
        if At(b, i, j) == v {
          n := n + 1;
        }
        j := j + 1;
      }
      i := i + 1;
    }
    assert b[..Cells] == b;
  }

  // ---------------------------------------------------------------- hatching

  /**
   * `spawnFromEgg` with the value `r` that `Math.random()` returned: nectar below 0.5,
   * double nectar below 0.85, then spicy, bitter and mitites in steps of 0.05.
   */
  function Spawn(r: real): (o: Object)
    requires 0.0 <= r < 1.0
    ensures o != Egg
  {
    if r < 0.5 then Nectar
    else if r < 0.85 then WNectar
    else if r < 0.9 then Spicy
    else if r < 0.95 then Bitter
    else Mitites
  }

  /** Every object but the egg can hatch. */
  lemma SpawnCovers(o: Object)
    requires o != Egg
    ensures exists r :: 0.0 <= r < 1.0 && Spawn(r) == o
  {
    match o
    case Nectar => assert Spawn(0.0) == o;
    case WNectar => assert Spawn(0.5) == o;
    case Spicy => assert Spawn(0.85) == o;
    case Bitter => assert Spawn(0.9) == o;
    case Mitites => assert Spawn(0.95) == o;
  }

  // ---------------------------------------------------------------- the page

  /**
   * The page: the board, `breakingStarted`, `broken`, and whether the break button is
   * disabled.  `broken` starts undefined in the page and is first read after the break
   * button sets it to 0; here it starts at 0.
   */
  datatype Lottery = Lottery(board: Board, breaking: bool, broken: nat, breakOff: bool)

  function Opening(): (s: Lottery)
    ensures Reachable(s)
  {
    Lottery(InitBoard(), false, 0, false)
  }

  /** The break button: start breaking from the first cell; a disabled button does nothing. */
  function Break(s: Lottery): (r: Lottery)
    ensures s.breakOff ==> r == s
    ensures !s.breakOff ==> r.breaking && r.broken == 0 && r.breakOff && r.board == s.board
  {
    if s.breakOff then s else s.(breaking := true, broken := 0, breakOff := true)
  }

  /** The reset button: stop breaking, a fresh board, break enabled again. */
  function Reset(s: Lottery): (r: Lottery)
    ensures !r.breaking && !r.breakOff && r.board == InitBoard() && r.broken == s.broken
  {
    s.(breaking := false, board := InitBoard(), breakOff := false)
  }

  /**
   * The breaking step at the top of `update`, with the random value drawn this frame:
   * while fewer than 100 cells are broken, the cell at row `broken / 10`, column
   * `broken % 10` takes what hatched and `broken` grows by one.
   */
  function Step(s: Lottery, r: real): (t: Lottery)
    requires 0.0 <= r < 1.0
  {
    if s.breaking && s.broken < Cells then
      var x, y := s.broken % Width, s.broken / Width;
      s.(board := s.board[y * Width + x := Spawn(r)], broken := s.broken + 1)
    else s
  }

  /**
   * A step writes exactly one cell, the next in row-major order, with something other
   * than an egg; once 100 cells are broken (or before breaking starts) nothing changes.
   */
  lemma StepWritesNextCell(s: Lottery, r: real)
    requires 0.0 <= r < 1.0
    ensures var t := Step(s, r);
      if s.breaking && s.broken < Cells then
        && t.broken == s.broken + 1
        && At(t.board, s.broken / Width, s.broken % Width) == Spawn(r) != Egg
        && (forall i, j :: 0 <= i < Height && 0 <= j < Width && i * Width + j != s.broken ==> At(t.board, i, j) == At(s.board, i, j))
        && t.breaking == s.breaking && t.breakOff == s.breakOff
      else t == s
  {
  }

  /**
   * What holds on every page the handlers reach: before breaking the board is fresh
   * and break is enabled; while breaking, break is disabled, at most 100 cells are
   * broken, and a cell is still an egg exactly when its position is not yet broken.
   */
  predicate Reachable(s: Lottery) {
    && (s.breakOff <==> s.breaking)
    && (!s.breaking ==> s.board == InitBoard())
    && (s.breaking ==> s.broken <= Cells && forall k :: 0 <= k < Cells ==> (s.board[k] == Egg <==> k >= s.broken))
  }

  lemma BreakKeepsReachable(s: Lottery)
    requires Reachable(s)
    ensures Reachable(Break(s))
  {
  }

  lemma ResetKeepsReachable(s: Lottery)
    requires Reachable(s)
    ensures Reachable(Reset(s))
  {
  }

  lemma StepKeepsReachable(s: Lottery, r: real)
    requires Reachable(s) && 0.0 <= r < 1.0
    ensures Reachable(Step(s, r))
  {
  }

  /** How many cells are broken on the board shown: 0 unless breaking. */
  function Progress(s: Lottery): nat {
    if s.breaking then s.broken else 0
  }

  const Spawned: seq<Object> := [Nectar, WNectar, Spicy, Bitter, Mitites]

  /** The five hatched counts of a board, in `OBJECT_NAMES` order. */
  function HatchedCounts(b: seq<Object>): seq<nat> {
    seq(|Spawned|, k requires 0 <= k < |Spawned| => multiset(b)[Spawned[k]])
  }

  /** All five hatched counts together. */
  function HatchedTotal(b: seq<Object>): nat {
    var m := multiset(b);
    m[Nectar] + m[WNectar] + m[Spicy] + m[Bitter] + m[Mitites]
  }

  /** Each object is an egg or one of the five hatched ones, so their counts add up to the length. */
  lemma {:induction false} CountsAddUp(s: seq<Object>)
    ensures multiset(s)[Egg] + HatchedTotal(s) == |s|
  {
    if s != [] {
      var init, last := s[..|s| - 1], s[|s| - 1];
      CountsAddUp(init);
      assert s == init + [last];
      assert multiset(s) == multiset(init) + multiset{last};
      forall o
        ensures multiset(s)[o] == multiset(init)[o] + if o == last then 1 else 0
      {
      }
    }
  }

  /**
   * The counting invariant: on a reachable page the eggs left number 100 minus the
   * cells broken, and the five hatched counts add up to the cells broken.
   */
  lemma {:induction false} EggsLeft(s: Lottery)
    requires Reachable(s)
    ensures multiset(s.board)[Egg] == Cells - Progress(s)
    ensures HatchedTotal(s.board) == Progress(s)
  {
    var b := s.board;
    var k := Progress(s);
    assert b == b[..k] + b[k..];
    var eggs := b[k..];
    assert forall i :: 0 <= i < |eggs| ==> eggs[i] == Egg;
    AllEggs(eggs);
    NoEggs(b[..k]);
    CountsAddUp(b);
  }

  lemma {:induction false} NoEggs(s: seq<Object>)
    requires forall k :: 0 <= k < |s| ==> s[k] != Egg
    ensures multiset(s)[Egg] == 0
  {
    if s != [] {
      NoEggs(s[..|s| - 1]);
      assert s == s[..|s| - 1] + [s[|s| - 1]];
    }
  }

  // ---------------------------------------------------------------- saving

  /** `OBJECT_NAMES.filter(name => name != "egg")`. */
  function WithoutEgg(names: seq<Object>): (r: seq<Object>)
    ensures forall k :: 0 <= k < |r| ==> r[k] != Egg && r[k] in names
    ensures forall o :: o in names && o != Egg ==> o in r
  {
    if names == [] then []
    else if names[0] == Egg then WithoutEgg(names[1..])
    else [names[0]] + WithoutEgg(names[1..])
  }

  /** Leaving the egg out of the object names leaves the five objects an egg can hatch into. */
  lemma FilterGivesSpawned()
    ensures WithoutEgg(ObjectNames) == Spawned
  {
    assert ObjectNames[0] == Egg && ObjectNames[1..] == Spawned;
    WithoutNoEgg(Spawned);
  }

  /** Names without the egg pass the filter unchanged. */
  lemma {:induction false} WithoutNoEgg(names: seq<Object>)
    requires Egg !in names
    ensures WithoutEgg(names) == names
  {
    if names != [] {
      WithoutNoEgg(names[1..]);
    }
  }

  function CountTexts(counts: seq<nat>): (texts: seq<string>)
    ensures |texts| == |counts|
  {
    seq(|counts|, k requires 0 <= k < |counts| => Decimal(counts[k]))
  }

  /** The save button's file name: the five hatched counts, joined by "-". */
  function FileName(b: Board): string {
    "egg-lottery-" + Join(CountTexts(HatchedCounts(b)), "-") + ".png"
  }

  /**
   * The save handler: count each hatched object with `count`, in the filtered order,
   * and join the counts.
   */
  method Save(b: Board) returns (name: string)
    ensures name == FileName(b)
  {
    var counts := CountHatched(b);
    name := "egg-lottery-" + Join(CountTexts(counts), "-") + ".png";
  }

  /** `.filter(name => name != "egg").map(name => count(board, name))`. */
  method CountHatched(b: Board) returns (counts: seq<nat>)
    ensures counts == HatchedCounts(b)
  {
    var names := WithoutEgg(ObjectNames);
    assert names == Spawned by {
      FilterGivesSpawned();
    }
    counts := CountEach(b, names);
  }

  /** `names.map(name => count(board, name))`. */
  method CountEach(b: Board, names: seq<Object>) returns (counts: seq<nat>)
    ensures |counts| == |names|
    ensures forall j :: 0 <= j < |names| ==> counts[j] == multiset(b)[names[j]]
  {
    counts := [];
    var k := 0;
    while k < |names|
      invariant 0 <= k <= |names| && |counts| == k
      invariant forall j :: 0 <= j < k ==> counts[j] == multiset(b)[names[j]]
    {
      var n := Count(b, names[k]);
      counts := counts + [n];
      k := k + 1;
    }
  }

  /** A numeral has no '-' in it. */
  lemma NumeralsHaveNoDash(texts: seq<string>)
    requires forall k :: 0 <= k < |texts| ==> IsDigits(texts[k], 10)
    ensures forall k :: 0 <= k < |texts| ==> '-' !in texts[k]
  {
  }

  /** Joining pieces free of '-' with "-" and splitting at '-' gives the pieces back. */
  lemma SplitDashJoin(texts: seq<string>)
    requires 1 <= |texts|
    requires forall k :: 0 <= k < |texts| ==> '-' !in texts[k]
    ensures Split(Join(texts, "-"), '-') == texts
  {
    SplitJoin(texts, '-', "");
    assert ['-'] + "" == "-";
    var parts := Split(Join(texts, "-"), '-');
    assert |parts| == |texts|;
    forall k | 0 <= k < |texts|
      ensures parts[k] == texts[k]
    {
      if k > 0 {
        assert parts[k] == "" + texts[k];
      }
    }
  }

  /**
   * The file name reads back: between "egg-lottery-" and ".png" lie five numerals,
   * separated by '-', giving the five hatched counts in order.
   */
  lemma FileNameReadsBack(b: Board)
    ensures var name := FileName(b);
      && |name| >= |"egg-lottery-"| + |".png"|
      && name[..12] == "egg-lottery-"
      && name[|name| - 4..] == ".png"
      && var parts := Split(name[12..|name| - 4], '-');
      && |parts| == 5
      && forall k :: 0 <= k < 5 ==> ParseNat(parts[k]) == Some(HatchedCounts(b)[k])
  {
    var counts := HatchedCounts(b);
    var texts := CountTexts(counts);
    var middle := Join(texts, "-");
    var name := FileName(b);
    assert name == "egg-lottery-" + middle + ".png";
    assert name[12..|name| - 4] == middle;
    NumeralsHaveNoDash(texts);
    SplitDashJoin(texts);
    forall k | 0 <= k < 5
      ensures ParseNat(texts[k]) == Some(counts[k])
    {
      DecimalReadsBack(counts[k]);
    }
  }
}
