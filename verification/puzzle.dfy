/**
 * The 30-parts sliding puzzle of `docs/static/js/30parts-puzzle.js`: a 5 x 6 board
 * holding the tiles 0 .. 29, where tile 0 is the one the arrows move.  The board is
 * kept as its row-major cells: position `x + y * Width` holds the tile at `(x, y)`.
 * The page's state is the board, the two game flags and the `disabled` property of
 * every button; each handler is a function from one such state to the next.
 */
module PartsPuzzle {
  import opened Results

  const Width: nat := 5
  const Height: nat := 6
  const Size: nat := Width * Height

  /** The row-major cells of the 5 x 6 matrix `cell`. */
  type Board = b: seq<int> | |b| == Size witness seq(Size, p => p)

  // ---------------------------------------------------------------- the board

  /** `isInner`: `(x, y)` lies on the board. */
  predicate IsInner(x: int, y: int) {
    0 <= x < Width && 0 <= y < Height
  }

  function Pos(x: int, y: int): int {
    x + y * Width
  }

  /** The solved arrangement that `cellInit` writes: position p holds tile p. */
  function Identity(): (b: Board)
    ensures forall p :: 0 <= p < Size ==> b[p] == p
  {
    seq(Size, p => p)
  }

  /** The board holds each tile 0 .. 29 exactly once. */
  predicate IsPermutation(b: seq<int>) {
    |b| == Size && multiset(b) == multiset(Identity())
  }

  /** Every position holds its own tile: the win condition of `update`. */
  predicate Solved(b: Board) {
    forall p :: 0 <= p < Size ==> b[p] == p
  }

  /** `cellInit`: the identity board, which is a permutation and already solved. */
  function CellInit(): (b: Board)
    ensures IsPermutation(b) && Solved(b)
    ensures forall x, y :: IsInner(x, y) ==> b[Pos(x, y)] == Pos(x, y)
  {
    Identity()
  }

  /** `swapCell` on row-major positions. */
  function Swap(b: Board, p: nat, q: nat): (r: Board)
    requires p < Size && q < Size
    ensures r[p] == b[q] && r[q] == b[p]
    ensures forall k :: 0 <= k < |b| && k != p && k != q ==> r[k] == b[k]
    ensures multiset(r) == multiset(b)
  {
    b[p := b[q]][q := b[p]]
  }

  /** Swapping the same two cells again restores the board. */
  lemma SwapTwice(b: Board, p: nat, q: nat)
    requires p < Size && q < Size
    ensures Swap(Swap(b, p, q), p, q) == b
  {
  }

  /** `cell.indexOf(v)`: the first position in row-major order holding `v`. */
  function Locate(b: seq<int>, v: int): (r: Option<nat>)
    ensures r.Some? ==> r.value < |b| && b[r.value] == v && forall q :: 0 <= q < r.value ==> b[q] != v
    ensures r.None? <==> v !in b
  {
    if b == [] then None
    else if b[0] == v then Some(0)
    else match Locate(b[1..], v)
      case None => None
      case Some(p) => Some(p + 1)
  }

  /** On a permutation every tile is found, at the only position holding it. */
  lemma LocateOnPermutation(b: Board, v: int)
    requires IsPermutation(b) && 0 <= v < Size
    ensures Locate(b, v).Some?
  {
    assert Identity()[v] == v;
    assert v in multiset(Identity());
  }

  // ---------------------------------------------------------------- moves

  datatype Direction = Up | Left | Right | Down

  function DeltaX(d: Direction): int {
    match d
    case Left => -1
    case Right => 1
    case _ => 0
  }

  function DeltaY(d: Direction): int {
    match d
    case Up => -1
    case Down => 1
    case _ => 0
  }

  function Opposite(d: Direction): Direction {
    match d
    case Up => Down
    case Down => Up
    case Left => Right
    case Right => Left
  }

  /** The key bindings of the page: w/a/d/s in either case. */
  function KeyDirection(c: char): (r: Option<Direction>)
    ensures r == Some(Up) <==> c in {'w', 'W'}
    ensures r == Some(Left) <==> c in {'a', 'A'}
    ensures r == Some(Right) <==> c in {'d', 'D'}
    ensures r == Some(Down) <==> c in {'s', 'S'}
  {
    if c == 'w' || c == 'W' then Some(Up)
    else if c == 'a' || c == 'A' then Some(Left)
    else if c == 'd' || c == 'D' then Some(Right)
    else if c == 's' || c == 'S' then Some(Down)
    else None
  }

  /** The `disabled` property of the four arrow buttons. */
  datatype Arrows = Arrows(up: bool, left: bool, right: bool, down: bool)

  function ArrowDisabled(a: Arrows, d: Direction): bool {
    match d
    case Up => a.up
    case Left => a.left
    case Right => a.right
    case Down => a.down
  }

  /** `setArrowDisabled(value)`: all four arrows alike. */
  function AllArrows(value: bool): (a: Arrows)
    ensures forall d :: ArrowDisabled(a, d) == value
  {
    Arrows(value, value, value, value)
  }

  /** The neighbour of position `p` in direction `d`, when that lies on the board. */
  function Neighbour(p: nat, d: Direction): (r: Option<nat>)
    requires p < Size
    ensures r.Some? <==> IsInner(p % Width + DeltaX(d), p / Width + DeltaY(d))
    ensures r.Some? ==> r.value < Size && r.value % Width == p % Width + DeltaX(d) && r.value / Width == p / Width + DeltaY(d)
  {
    var x, y := p % Width + DeltaX(d), p / Width + DeltaY(d);
    if IsInner(x, y) then Some(Pos(x, y)) else None
  }

  /** Neighbours are mutual: stepping back the other way returns to the start. */
  lemma NeighbourOpposite(p: nat, d: Direction)
    requires p < Size && Neighbour(p, d).Some?
    ensures Neighbour(Neighbour(p, d).value, Opposite(d)) == Some(p)
  {
  }

  /** The arrows `checkArrowEnable` sets when tile 0 sits at position `p`. */
  function ArrowsAt(p: nat): (a: Arrows)
    requires p < Size
    ensures forall d :: ArrowDisabled(a, d) <==> Neighbour(p, d).None?
  {
    var x, y := p % Width, p / Width;
    Arrows(!IsInner(x, y - 1), !IsInner(x - 1, y), !IsInner(x + 1, y), !IsInner(x, y + 1))
  }

  /** Where tile 0 sits on a permutation: the only position holding it. */
  function Blank(b: Board): (p: nat)
    requires IsPermutation(b)
    ensures p < Size && b[p] == 0
    ensures forall q :: 0 <= q < Size && b[q] == 0 ==> q == p
  {
    LocateOnPermutation(b, 0);
    var p := Locate(b, 0).value;
    forall q | 0 <= q < Size && b[q] == 0
      ensures q == p
    {
      if q != p {
        PermutationUnique(b, p, q);
      }
    }
    p
  }

  /** `checkArrowEnable`: reading the position of tile 0 fails when the board has none. */
  function CheckArrows(b: Board): (r: Result<Arrows>)
    ensures r.Err? <==> 0 !in b
    ensures IsPermutation(b) ==> r == Ok(ArrowsAt(Blank(b)))
  {
    match Locate(b, 0)
    case None => Err(TypeError)
    case Some(p) => Ok(ArrowsAt(p))
  }

  /** The page: the board, the two game flags and the buttons' `disabled` properties. */
  datatype Page = Page(
    board: Board,
    started: bool,
    ended: bool,
    arrows: Arrows,
    startOff: bool,
    resetOff: bool,
    saveOff: bool)

  /** The board after tile 0, at `p`, trades places with its neighbour in direction `d`, if any. */
  function Slide(b: Board, p: nat, d: Direction): (r: Board)
    requires p < Size
    ensures multiset(r) == multiset(b)
  {
    match Neighbour(p, d)
    case Some(q) => Swap(b, p, q)
    case None => b
  }

  /**
   * `moveUp` / `moveLeft` / `moveRight` / `moveDown`: nothing before the game starts;
   * otherwise tile 0 trades places with its neighbour in that direction when the
   * neighbour is on the board, and the arrows are checked again.
   */
  function Move(page: Page, d: Direction): (r: Result<Page>)
    ensures !page.started ==> r == Ok(page)
    ensures page.started ==> (r.Err? <==> 0 !in page.board)
  {
    if !page.started then Ok(page)
    else match Locate(page.board, 0)
      case None => Err(TypeError)
      case Some(p) =>
        var board := Slide(page.board, p, d);
        assert 0 in board by {
          assert board[if Neighbour(p, d).Some? then Neighbour(p, d).value else p] == 0;
        }
        match CheckArrows(board)
        case Err(e) => Err(e)
        case Ok(arrows) => Ok(page.(board := board, arrows := arrows))
  }

  /**
   * A move on a started board that is a permutation: it succeeds; tile 0 trades places
   * with its neighbour and lands there when there is one, and the board stays as it
   * is otherwise; the board remains a permutation; no flag or button changes but the
   * arrows, which are disabled exactly where tile 0's new position has no neighbour.
   */
  lemma MoveStep(page: Page, d: Direction)
    requires page.started && IsPermutation(page.board)
    ensures Move(page, d).Ok?
    ensures var p := Blank(page.board);
      var after := Move(page, d).value;
      && IsPermutation(after.board)
      && after == page.(board := after.board, arrows := after.arrows)
      && (Neighbour(p, d).Some? ==> after.board == Swap(page.board, p, Neighbour(p, d).value) && Blank(after.board) == Neighbour(p, d).value)
      && (Neighbour(p, d).None? ==> after.board == page.board)
      && forall d' :: ArrowDisabled(after.arrows, d') <==> Neighbour(Blank(after.board), d').None?
  {
    var p := Blank(page.board);
    assert Locate(page.board, 0) == Some(p);
    var board := Slide(page.board, p, d);
    assert IsPermutation(board);
    if Neighbour(p, d).Some? {
      assert board[Neighbour(p, d).value] == 0;
    }
  }

  /** A move that went through is undone by the opposite move. */
  lemma MoveUndo(page: Page, d: Direction)
    requires page.started && IsPermutation(page.board)
    requires Neighbour(Blank(page.board), d).Some?
    ensures Move(page, d).Ok?
    ensures Move(Move(page, d).value, Opposite(d)).Ok?
    ensures Move(Move(page, d).value, Opposite(d)).value.board == page.board
  {
    MoveStep(page, d);
    var p := Blank(page.board);
    var q := Neighbour(p, d).value;
    var after := Move(page, d).value;
    MoveStep(after, Opposite(d));
    NeighbourOpposite(p, d);
    SwapTwice(page.board, p, q);
    SwapSymmetric(after.board, p, q);
  }

  lemma SwapSymmetric(b: Board, p: nat, q: nat)
    requires p < Size && q < Size
    ensures Swap(b, p, q) == Swap(b, q, p)
  {
  }

  /** Two positions of a permutation never hold the same tile. */
  lemma PermutationUnique(b: Board, p: nat, q: nat)
    requires IsPermutation(b) && p < |b| && q < |b| && p != q
    ensures b[p] != b[q]
  {
    if b[p] == b[q] {
      var v := b[p];
      assert b == b[..p] + [v] + b[p + 1..];
      var rest := b[..p] + b[p + 1..];
      assert multiset(b) == multiset(rest) + multiset{v};
      if q < p {
        assert rest[q] == v;
      } else {
        assert rest[q - 1] == v;
      }
      assert v in multiset(rest);
      assert multiset(b)[v] >= 2;
      IdentityCountsOnce(v);
    }
  }

  /** Each tile occurs once in the identity board. */
  lemma IdentityCountsOnce(v: int)
    ensures multiset(Identity())[v] <= 1
  {
    var s := Identity();
    if 0 <= v < Size {
      assert s == s[..v] + [v] + s[v + 1..];
      assert v !in s[..v];
      assert v !in s[v + 1..];
    } else {
      assert v !in s;
    }
  }

  // ---------------------------------------------------------------- the handlers

  /** What `start` leaves: the identity board, no game, arrows, reset and save disabled. */
  function Opening(): (page: Page)
    ensures Reachable(page)
  {
    Page(CellInit(), false, false, AllArrows(true), false, true, true)
  }

  /** The reset button: back to the identity board with no game; a disabled button does nothing. */
  function Reset(page: Page): (r: Page)
    ensures page.resetOff ==> r == page
    ensures !page.resetOff ==> !r.started && !r.ended && r.board == CellInit() && r.arrows == AllArrows(true)
  {
    if page.resetOff then page
    else page.(board := CellInit(), started := false, ended := false, arrows := AllArrows(true),
      startOff := false, resetOff := true, saveOff := true)
  }

  /**
   * The win check at the top of `update`: a started game on the solved board ends,
   * enabling save and disabling the arrows; any other page is left as it is.
   */
  function Update(page: Page): (r: Page)
    ensures page.started && Solved(page.board) ==>
      && !r.started && r.ended && !r.saveOff && r.arrows == AllArrows(true)
      && r.board == page.board && r.startOff == page.startOff && r.resetOff == page.resetOff
    ensures !(page.started && Solved(page.board)) ==> r == page
  {
    if page.started && Solved(page.board) then
      page.(started := false, ended := true, saveOff := false, arrows := AllArrows(true))
    else page
  }

  /**
   * The loops of the win check: `ok` stays true until some `(x, y)` does not hold
   * `x + y * WIDTH`.
   */
  method WinCheck(b: Board) returns (ok: bool)
    ensures ok <==> Solved(b)
  {
    ok := true;
    var y := 0;
    while y < Height
      invariant 0 <= y <= Height
      invariant ok ==> forall p :: 0 <= p < Pos(0, y) ==> b[p] == p
      invariant !ok ==> !Solved(b)
      decreases Height - y, ok
    {
      var x := 0;
      while x < Width
        invariant 0 <= x <= Width
        invariant ok ==> forall p :: 0 <= p < Pos(x, y) ==> b[p] == p
        invariant !ok ==> !Solved(b)
      {
        if Pos(x, y) != b[Pos(x, y)] {
          ok := false;
          break;
        }
        x := x + 1;
      }
      if !ok {
        break;
      }
      y := y + 1;
    }
  }

  // ---------------------------------------------------------------- the shuffle

  /** No tile sits at its own position. */
  predicate FixedPointFree(s: seq<int>) {
    forall p :: 0 <= p < |s| ==> s[p] != p
  }

  predicate Increasing(s: seq<int>) {
    forall i, j :: 0 <= i < j < |s| ==> s[i] < s[j]
  }

  /**
   * The shuffle of the start handler.  Position i takes a value, other than i, out of
   * the values not yet placed; the page's retry loop becomes a choice among the
   * acceptable ones.  It can only get stuck at the last position, when the one value
   * left is 29 itself: then `r` is `None` (the page never returns from the loop) and
   * `placed` holds what the first 29 positions received.
   */
  method Shuffle() returns (r: Option<Board>, placed: seq<int>)
    ensures |placed| == Size || |placed| == Size - 1
    ensures FixedPointFree(placed)
    ensures forall p :: 0 <= p < |placed| ==> 0 <= placed[p] < Size
    ensures forall p, q :: 0 <= p < q < |placed| ==> placed[p] != placed[q]
    ensures r.Some? <==> |placed| == Size
    ensures r.Some? ==> r.value == placed && IsPermutation(placed)
    ensures r.None? ==> Size - 1 !in placed
  {
    var numList: seq<int> := Identity();
    placed := [];
    while |placed| < Size
      invariant ShuffleState(placed, numList)
      decreases Size - |placed|
    {
      var i := |placed|;
      if i == Size - 1 && numList[0] == i {
        assert numList == [Size - 1];
        NotPlaced(placed, numList, Size - 1);
        DistinctPlaced(placed, numList);
        RangePlaced(placed, numList);
        return None, placed;
      }
      assert numList[0] != i || numList[1] != i;
      var index :| 0 <= index < |numList| && numList[index] != i;
      ShuffleStep(placed, numList, index);
      placed := placed + [numList[index]];
      numList := Remove(numList, index);
    }
    DistinctPlaced(placed, numList);
    RangePlaced(placed, numList);
    return Some(placed), placed;
  }

  /** `numList.splice(index, 1)`. */
  function Remove(s: seq<int>, index: nat): (r: seq<int>)
    requires index < |s|
    ensures |r| == |s| - 1
    ensures multiset(r) + multiset{s[index]} == multiset(s)
  {
    assert s == s[..index] + [s[index]] + s[index + 1..];
    s[..index] + s[index + 1..]
  }

  /**
   * The shuffle's loop invariant: the values placed and the values left make up the
   * tiles; the list stays in ascending order; nothing placed sits at its own position.
   */
  predicate ShuffleState(placed: seq<int>, numList: seq<int>) {
    && |placed| + |numList| == Size
    && multiset(placed) + multiset(numList) == multiset(Identity())
    && Increasing(numList)
    && FixedPointFree(placed)
  }

  /** Placing an acceptable value keeps the invariant. */
  lemma ShuffleStep(placed: seq<int>, numList: seq<int>, index: nat)
    requires ShuffleState(placed, numList)
    requires index < |numList| && numList[index] != |placed|
    ensures ShuffleState(placed + [numList[index]], Remove(numList, index))
  {
    var r := Remove(numList, index);
    forall i, j | 0 <= i < j < |r|
      ensures r[i] < r[j]
    {
      var i' := if i < index then i else i + 1;
      var j' := if j < index then j else j + 1;
      assert r[i] == numList[i'] && r[j] == numList[j'];
    }
  }

  /** A value still in the list has not been placed. */
  lemma NotPlaced(placed: seq<int>, numList: seq<int>, v: int)
    requires multiset(placed) + multiset(numList) == multiset(Identity())
    requires v in numList
    ensures v !in placed
  {
    IdentityCountsOnce(v);
  }

  /** The placed values are distinct, since together with the rest they make the identity. */
  lemma DistinctPlaced(placed: seq<int>, numList: seq<int>)
    requires multiset(placed) + multiset(numList) == multiset(Identity())
    ensures forall p, q :: 0 <= p < q < |placed| ==> placed[p] != placed[q]
  {
    forall p, q | 0 <= p < q < |placed|
      ensures placed[p] != placed[q]
    {
      if placed[p] == placed[q] {
        var v := placed[p];
        var rest := placed[..p] + placed[p + 1..];
        assert placed == placed[..p] + [v] + placed[p + 1..];
        assert rest[q - 1] == v;
        assert multiset(placed) == multiset(rest) + multiset{v};
        assert multiset(placed)[v] >= 2;
        IdentityCountsOnce(v);
      }
    }
  }

  /** The placed values are tiles. */
  lemma RangePlaced(placed: seq<int>, numList: seq<int>)
    requires multiset(placed) + multiset(numList) == multiset(Identity())
    ensures forall p :: 0 <= p < |placed| ==> 0 <= placed[p] < Size
  {
    forall p | 0 <= p < |placed|
      ensures 0 <= placed[p] < Size
    {
      assert placed[p] in multiset(Identity());
      var s := Identity();
      var k :| 0 <= k < |s| && s[k] == placed[p];
    }
  }

  /** A fixed-point-free board is never solved, so the game does not end at once. */
  lemma ShuffledUnsolved(b: Board)
    requires FixedPointFree(b)
    ensures !Solved(b)
  {
    assert b[0] != 0;
  }

  /**
   * The start button: shuffle, start the game, enable reset and the arrows (then check
   * them against tile 0).  `None` is the page stuck in the shuffle; a disabled button
   * does nothing.
   */
  method Start(page: Page) returns (r: Option<Page>)
    ensures page.startOff ==> r == Some(page)
    ensures Reachable(page) && r.Some? ==> Reachable(r.value)
    ensures !page.startOff && r.Some? ==> var b := r.value.board;
      && IsPermutation(b) && FixedPointFree(b) && !Solved(b)
      && r.value == page.(board := b, started := true, arrows := ArrowsAt(Blank(b)),
        startOff := true, resetOff := false)
  {
    if page.startOff {
      return Some(page);
    }
    var shuffled, placed := Shuffle();
    if shuffled.None? {
      return None;
    }
    var b := shuffled.value;
    LocateOnPermutation(b, 0);
    ShuffledUnsolved(b);
    var arrows := CheckArrows(b).value;
    return Some(page.(board := b, started := true, arrows := arrows, startOff := true, resetOff := false));
  }

  // ---------------------------------------------------------------- the page invariant

  /**
   * What holds of every page the handlers can reach: the board is a permutation; the
   * game is never started and ended at once; the arrows follow tile 0 while a game
   * runs and are disabled otherwise; start is disabled exactly while a game runs or
   * has ended, reset exactly then too, save exactly after a win; an ended game shows
   * the solved board.
   */
  predicate Reachable(page: Page) {
    && IsPermutation(page.board)
    && !(page.started && page.ended)
    && (page.started ==> page.arrows == ArrowsAt(Blank(page.board)))
    && (!page.started ==> page.arrows == AllArrows(true))
    && (page.startOff <==> page.started || page.ended)
    && (page.resetOff <==> !page.started && !page.ended)
    && (page.saveOff <==> !page.ended)
    && (page.ended ==> Solved(page.board))
  }

  lemma MoveKeepsReachable(page: Page, d: Direction)
    requires Reachable(page)
    ensures Move(page, d).Ok? && Reachable(Move(page, d).value)
  {
    if page.started {
      MoveStep(page, d);
      LocateOnPermutation(Move(page, d).value.board, 0);
    }
  }

  lemma ResetKeepsReachable(page: Page)
    requires Reachable(page)
    ensures Reachable(Reset(page))
  {
  }

  lemma UpdateKeepsReachable(page: Page)
    requires Reachable(page)
    ensures Reachable(Update(page))
  {
  }
}
