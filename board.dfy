/** The board of Four-in-a-Row: a 7-wide by 6-tall grid addressed as
    board[x, y], column x first, with y = 0 the top row and y = 5 the
    bottom row. Counters fall to the lowest empty cell of a column. */
module Board {

  const Width: nat := 7   // BOARD_WIDTH
  const Height: nat := 6  // BOARD_HEIGHT

  datatype Option<T> = None | Some(value: T)

  /** The two players; X always moves first. */
  datatype Player = X | O

  /** One cell: empty ('.'), or holding a player's counter ('X' or 'O'). */
  datatype Cell = Empty | Counter(owner: Player)

  /** The player who moves after `p`. */
  function Other(p: Player): (q: Player)
    ensures q != p
  {
    if p == X then O else X
  }

  lemma OtherInvolutive(p: Player)
    ensures Other(Other(p)) == p
  {
  }

  /** The abstract value of a board: a sequence of columns, each a
      sequence of cells from the top (index 0) to the bottom. */
  type Grid = seq<seq<Cell>>

  predicate WellFormed(g: Grid) {
    |g| == Width && forall x :: 0 <= x < |g| ==> |g[x]| == Height
  }

  /** The dimensions of every board the game builds. */
  predicate Shaped(board: array2<Cell>) {
    board.Length0 == Width && board.Length1 == Height
  }

  ghost function ToGrid(board: array2<Cell>): Grid
    reads board
  {
    seq(board.Length0, x requires 0 <= x < board.Length0 reads board =>
      seq(board.Length1, y requires 0 <= y < board.Length1 reads board => board[x, y]))
  }

  /** Gravity: within a column, every cell below an occupied cell is
      occupied too, so the counters form one block resting on the bottom. */
  ghost predicate Gravity(g: Grid) {
    forall x, i, j :: 0 <= x < |g| && 0 <= i < j < |g[x]| && g[x][i] != Empty ==> g[x][j] != Empty
  }

  /** A column with no empty cell left. */
  predicate ColumnFull(col: seq<Cell>) {
    forall y :: 0 <= y < |col| ==> col[y] != Empty
  }

  /** The empty cell with the largest y in a column, searched from the
      bottom upwards; None when the column is full. */
  function LowestEmpty(col: seq<Cell>): (r: Option<nat>)
    ensures r.Some? ==> r.value < |col| && col[r.value] == Empty
    ensures r.Some? ==> forall y :: r.value < y < |col| ==> col[y] != Empty
    ensures r.None? <==> ColumnFull(col)
  {
    if |col| == 0 then None
    else if col[|col| - 1] == Empty then Some(|col| - 1)
    else LowestEmpty(col[..|col| - 1])
  }

  /** The board after dropping `p`'s counter into column `x`: the lowest
      empty cell of that column gets the counter, and a full column is
      left as it is. */
  ghost function Drop(g: Grid, x: nat, p: Player): (h: Grid)
    requires x < |g|
    ensures WellFormed(g) ==> WellFormed(h)
  {
    match LowestEmpty(g[x])
    case None => g
    case Some(y) => g[x := g[x][y := Counter(p)]]
  }

  /** Dropping into a column that has an empty cell changes exactly one
      cell: the empty cell with the largest y, which now holds `p`'s
      counter. Every other cell of every column keeps its value. */
  lemma DropPlacesLowest(g: Grid, x: nat, p: Player)
    requires WellFormed(g) && x < Width && !ColumnFull(g[x])
    ensures WellFormed(Drop(g, x, p))
    ensures exists y :: (0 <= y < Height && g[x][y] == Empty && (forall k :: y < k < Height ==> g[x][k] != Empty)
      && Drop(g, x, p)[x][y] == Counter(p)
      && forall i, j :: 0 <= i < Width && 0 <= j < Height && (i, j) != (x, y) ==> Drop(g, x, p)[i][j] == g[i][j])
  {
  }

  /** Dropping into a full column writes nothing. */
  lemma DropFullColumn(g: Grid, x: nat, p: Player)
    requires x < |g| && ColumnFull(g[x])
    ensures Drop(g, x, p) == g
  {
  }

  /** Dropping keeps the gravity invariant. */
  lemma DropKeepsGravity(g: Grid, x: nat, p: Player)
    requires WellFormed(g) && x < Width && Gravity(g)
    ensures Gravity(Drop(g, x, p))
  {
  }

  /** Under gravity, a column still has room exactly when its top cell
      is empty, which is the test the move validation makes. */
  lemma RoomIffTopEmpty(g: Grid, x: nat)
    requires WellFormed(g) && x < Width && Gravity(g)
    ensures !ColumnFull(g[x]) <==> g[x][0] == Empty
  {
  }

  /** Number of cells equal to `c` in a column. */
  function CountIn(col: seq<Cell>, c: Cell): nat {
    if col == [] then 0 else (if col[0] == c then 1 else 0) + CountIn(col[1..], c)
  }

  /** Number of cells equal to `c` on the whole board. */
  function Tally(g: Grid, c: Cell): nat {
    if g == [] then 0 else CountIn(g[0], c) + Tally(g[1..], c)
  }

  /** The number of counters of either player on the board. */
  function Filled(g: Grid): nat {
    Tally(g, Counter(X)) + Tally(g, Counter(O))
  }

  lemma {:induction false} CountInUpdate(col: seq<Cell>, y: nat, v: Cell, c: Cell)
    requires y < |col|
    ensures CountIn(col[y := v], c)
         == CountIn(col, c) - (if col[y] == c then 1 else 0) + (if v == c then 1 else 0)
  {
    if y > 0 {
      assert col[y := v][1..] == col[1..][y - 1 := v];
      CountInUpdate(col[1..], y - 1, v, c);
    } else {
      assert col[y := v][1..] == col[1..];
    }
  }

  lemma {:induction false} TallyUpdate(g: Grid, x: nat, col: seq<Cell>, c: Cell)
    requires x < |g|
    ensures Tally(g[x := col], c) == Tally(g, c) - CountIn(g[x], c) + CountIn(col, c)
  {
    if x > 0 {
      assert g[x := col][1..] == g[1..][x - 1 := col];
      TallyUpdate(g[1..], x - 1, col, c);
    } else {
      assert g[x := col][1..] == g[1..];
    }
  }

  /** Dropping into a column with room adds exactly one counter, the
      mover's, and takes away one empty cell. */
  lemma DropAddsOneCounter(g: Grid, x: nat, p: Player)
    requires x < |g| && !ColumnFull(g[x])
    ensures Tally(Drop(g, x, p), Counter(p)) == Tally(g, Counter(p)) + 1
    ensures Tally(Drop(g, x, p), Counter(Other(p))) == Tally(g, Counter(Other(p)))
    ensures Tally(Drop(g, x, p), Empty) + 1 == Tally(g, Empty)
    ensures Filled(Drop(g, x, p)) == Filled(g) + 1
  {
    var y := LowestEmpty(g[x]).value;
    var col := g[x][y := Counter(p)];
    forall c: Cell ensures Tally(Drop(g, x, p), c) == Tally(g, c) - CountIn(g[x], c) + CountIn(col, c) {
      TallyUpdate(g, x, col, c);
    }
    forall c: Cell ensures CountIn(col, c)
      == CountIn(g[x], c) - (if g[x][y] == c then 1 else 0) + (if Counter(p) == c then 1 else 0) {
      CountInUpdate(g[x], y, Counter(p), c);
    }
    if p == X {
      assert Filled(Drop(g, x, p)) == Tally(Drop(g, x, p), Counter(p)) + Tally(Drop(g, x, p), Counter(Other(p)));
    } else {
      assert Filled(Drop(g, x, p)) == Tally(Drop(g, x, p), Counter(Other(p))) + Tally(Drop(g, x, p), Counter(p));
    }
  }

  lemma {:induction false} CountInPartition(col: seq<Cell>)
    ensures CountIn(col, Empty) + CountIn(col, Counter(X)) + CountIn(col, Counter(O)) == |col|
  {
    if col != [] {
      CountInPartition(col[1..]);
      match col[0]
      case Empty =>
      case Counter(X) =>
      case Counter(O) =>
    }
  }

  lemma {:induction false} CountInFull(col: seq<Cell>)
    requires ColumnFull(col)
    ensures CountIn(col, Empty) == 0
  {
    if col != [] {
      CountInFull(col[1..]);
    }
  }

  /** Every cell is empty or holds a counter: on a 7 by 6 board the
      empty cells and the counters add up to 42. */
  lemma {:induction false} TallyPartition(g: Grid)
    requires forall x :: 0 <= x < |g| ==> |g[x]| == Height
    ensures Tally(g, Empty) + Filled(g) == |g| * Height
  {
    if g != [] {
      CountInPartition(g[0]);
      TallyPartition(g[1..]);
    }
  }

  /** A board with no empty cell holds 42 counters. */
  lemma {:induction false} NoEmptyMeansFilled(g: Grid)
    requires WellFormed(g)
    requires forall x :: 0 <= x < |g| ==> ColumnFull(g[x])
    ensures Tally(g, Empty) == 0 && Filled(g) == Width * Height
  {
    NoEmptyTally(g);
    TallyPartition(g);
  }

  lemma {:induction false} NoEmptyTally(g: Grid)
    requires forall x :: 0 <= x < |g| ==> ColumnFull(g[x])
    ensures Tally(g, Empty) == 0
  {
    if g != [] {
      CountInFull(g[0]);
      NoEmptyTally(g[1..]);
    }
  }

  /** A board with no counter yet. */
  ghost predicate AllEmpty(g: Grid) {
    forall x, y :: 0 <= x < |g| && 0 <= y < |g[x]| ==> g[x][y] == Empty
  }

  lemma {:induction false} AllEmptyHasNoCounters(g: Grid)
    requires AllEmpty(g)
    ensures Filled(g) == 0
  {
    if g != [] {
      forall c: Cell | c != Empty ensures CountIn(g[0], c) == 0 {
        EmptyColumnCount(g[0], c);
      }
      AllEmptyHasNoCounters(g[1..]);
    }
  }

  lemma {:induction false} EmptyColumnCount(col: seq<Cell>, c: Cell)
    requires c != Empty && forall y :: 0 <= y < |col| ==> col[y] == Empty
    ensures CountIn(col, c) == 0
  {
    if col != [] {
      EmptyColumnCount(col[1..], c);
    }
  }

  /** The value of the board newBoard builds: seven columns of six
      empty cells. */
  ghost function Blank(): (g: Grid)
    ensures WellFormed(g) && AllEmpty(g)
  {
    seq(Width, x => seq(Height, y => Empty))
  }

  /** Two grids are equal when they agree cell by cell. */
  lemma SameGrid(a: Grid, b: Grid)
    requires |a| == |b| && forall x :: 0 <= x < |a| ==> |a[x]| == |b[x]|
    requires forall x, y :: 0 <= x < |a| && 0 <= y < |a[x]| ==> a[x][y] == b[x][y]
    ensures a == b
  {
    forall x | 0 <= x < |a| ensures a[x] == b[x] {
      assert |a[x]| == |b[x]|;
    }
  }

  /** newBoard: seven columns of six empty cells each. */
  method NewBoard() returns (board: array2<Cell>)
    ensures fresh(board) && Shaped(board)
    ensures forall x, y :: 0 <= x < Width && 0 <= y < Height ==> board[x, y] == Empty
    ensures WellFormed(ToGrid(board)) && AllEmpty(ToGrid(board)) && Gravity(ToGrid(board))
    ensures ToGrid(board) == Blank()
  {
    board := new Cell[Width, Height];
    for x := 0 to Width
      invariant forall i, j :: 0 <= i < x && 0 <= j < Height ==> board[i, j] == Empty
    {
      for y := 0 to Height
        invariant forall i, j :: 0 <= i < x && 0 <= j < Height ==> board[i, j] == Empty
        invariant forall j :: 0 <= j < y ==> board[x, j] == Empty
      {
        board[x, y] := Empty;
      }
    }
    SameGrid(ToGrid(board), Blank());
  }

  /** placeCounter: walk column `x` from the bottom (y = 5) upwards and
      put `player`'s counter into the first empty cell met; when there is
      none the loop ends without writing anything. */
  method PlaceCounter(board: array2<Cell>, x: nat, player: Player)
    requires Shaped(board) && x < Width
    modifies board
    ensures ToGrid(board) == Drop(old(ToGrid(board)), x, player)
  {
    ghost var g := ToGrid(board);
    for y := Height downto 0
      invariant unchanged(board)
      invariant forall k :: y <= k < Height ==> board[x, k] != Empty
    {
      if board[x, y] == Empty {
        assert g[x][y] == Empty && forall k :: y < k < Height ==> g[x][k] != Empty;
        assert LowestEmpty(g[x]) == Some(y);
        board[x, y] := Counter(player);
        SameGrid(ToGrid(board), Drop(g, x, player));
        return;
      }
    }
    assert ColumnFull(g[x]);
  }
}
