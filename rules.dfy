/** End-of-game detection (checkForEnd / declareWinner): after a move
    the mover wins with four of their counters in a straight line; with
    no such line, a full top row is a draw; otherwise the game goes on. */
module Rules {
  import opened Board

  /** What a turn ends in. `Quit` comes from the move prompt, the others
      from the end check; every value but `Ongoing` ends the game. */
  datatype Outcome = Ongoing | Win(winner: Player) | Draw | Quit

  /** Cell (x, y) lies on the board and holds `p`'s counter. */
  ghost predicate Owns(g: Grid, x: int, y: int, p: Player) {
    0 <= x < |g| && 0 <= y < |g[x]| && g[x][y] == Counter(p)
  }

  /** Four cells from (x, y) in steps of (dx, dy) all hold `p`'s counter. */
  ghost predicate LineFrom(g: Grid, x: int, y: int, dx: int, dy: int, p: Player) {
    Owns(g, x, y, p) && Owns(g, x + dx, y + dy, p)
    && Owns(g, x + 2 * dx, y + 2 * dy, p) && Owns(g, x + 3 * dx, y + 3 * dy, p)
  }

  /** One of the eight compass steps. */
  predicate IsStep(dx: int, dy: int) {
    -1 <= dx <= 1 && -1 <= dy <= 1 && (dx != 0 || dy != 0)
  }

  /** Reference meaning of a win: four of `p`'s counters in an unbroken
      straight line, in any direction, anywhere on the board. */
  ghost predicate FourInARow(g: Grid, p: Player) {
    exists x, y, dx, dy :: IsStep(dx, dy) && LineFrom(g, x, y, dx, dy, p)
  }

  /** The four scans of checkForEnd, in the order the source runs them. */
  datatype Direction = Vertical | Horizontal | DownRight | DownLeft

  /** The starting positions each scan visits: x in range(BOARD_WIDTH)
      or range(BOARD_WIDTH - 3), y in range(BOARD_HEIGHT) or
      range(BOARD_HEIGHT - 3). */
  predicate InScan(d: Direction, x: int, y: int) {
    match d
    case Vertical => 0 <= x < Width && 0 <= y < Height - 3
    case Horizontal => 0 <= x < Width - 3 && 0 <= y < Height
    case _ => 0 <= x < Width - 3 && 0 <= y < Height - 3
  }

  /** The four cells a scan compares at loop position (x, y); the
      down-left scan starts at column x + 3 and moves left. */
  ghost predicate RunAt(g: Grid, d: Direction, x: int, y: int, p: Player) {
    match d
    case Vertical => LineFrom(g, x, y, 0, 1, p)
    case Horizontal => LineFrom(g, x, y, 1, 0, p)
    case DownRight => LineFrom(g, x, y, 1, 1, p)
    case DownLeft => LineFrom(g, x + 3, y, -1, 1, p)
  }

  /** Scan `d` meets a run of `p` at one of the positions it visits. */
  ghost predicate ScanMeets(g: Grid, d: Direction, p: Player) {
    exists x, y :: InScan(d, x, y) && RunAt(g, d, x, y, p)
  }

  /** Some scan of checkForEnd meets a run of `p`. */
  ghost predicate ScanFinds(g: Grid, p: Player) {
    ScanMeets(g, Vertical, p) || ScanMeets(g, Horizontal, p)
    || ScanMeets(g, DownRight, p) || ScanMeets(g, DownLeft, p)
  }

  /** No run of `p` at the positions scan `d` visits before (x, y). */
  ghost predicate NoneBefore(g: Grid, d: Direction, x: int, y: int, p: Player) {
    forall i, j :: InScan(d, i, j) && (i < x || (i == x && j < y)) ==> !RunAt(g, d, i, j, p)
  }

  /** The top row (y = 0) has no empty cell. */
  ghost predicate TopRowFull(g: Grid) {
    forall x :: 0 <= x < |g| ==> |g[x]| > 0 && g[x][0] != Empty
  }

  /** What checkForEnd decides for the player who just moved. */
  ghost function EndOf(g: Grid, p: Player): Outcome {
    if FourInARow(g, p) then Win(p)
    else if TopRowFull(g) then Draw
    else Ongoing
  }

  /** The source's bounded scans miss no line: a four-in-a-row in any of
      the eight directions is met by one of the four scans, and every run
      a scan meets is a four-in-a-row. */
  lemma ScanFindsEveryLine(g: Grid, p: Player)
    requires WellFormed(g)
    ensures ScanFinds(g, p) <==> FourInARow(g, p)
  {
    if ScanFinds(g, p) {
      ScanRunIsLine(g, p);
    }
    if FourInARow(g, p) {
      var x, y, dx, dy :| IsStep(dx, dy) && LineFrom(g, x, y, dx, dy, p);
      LineIsScanned(g, x, y, dx, dy, p);
    }
  }

  lemma ScanRunIsLine(g: Grid, p: Player)
    requires ScanFinds(g, p)
    ensures FourInARow(g, p)
  {
    var d := if ScanMeets(g, Vertical, p) then Vertical
      else if ScanMeets(g, Horizontal, p) then Horizontal
      else if ScanMeets(g, DownRight, p) then DownRight
      else DownLeft;
    var x, y :| InScan(d, x, y) && RunAt(g, d, x, y, p);
    match d
    case Vertical => assert IsStep(0, 1) && LineFrom(g, x, y, 0, 1, p);
    case Horizontal => assert IsStep(1, 0) && LineFrom(g, x, y, 1, 0, p);
    case DownRight => assert IsStep(1, 1) && LineFrom(g, x, y, 1, 1, p);
    case DownLeft => assert IsStep(-1, 1) && LineFrom(g, x + 3, y, -1, 1, p);
  }

  /** A line read backwards is the same four cells. */
  lemma LineReversed(g: Grid, x: int, y: int, dx: int, dy: int, p: Player)
    requires LineFrom(g, x, y, dx, dy, p)
    ensures LineFrom(g, x + 3 * dx, y + 3 * dy, -dx, -dy, p)
  {
  }

  lemma LineIsScanned(g: Grid, x: int, y: int, dx: int, dy: int, p: Player)
    requires WellFormed(g) && IsStep(dx, dy) && LineFrom(g, x, y, dx, dy, p)
    ensures ScanFinds(g, p)
  {
    if dy < 0 || (dy == 0 && dx < 0) {
      LineReversed(g, x, y, dx, dy, p);
      LineIsScannedForward(g, x + 3 * dx, y + 3 * dy, -dx, -dy, p);
    } else {
      LineIsScannedForward(g, x, y, dx, dy, p);
    }
  }

  lemma LineIsScannedForward(g: Grid, x: int, y: int, dx: int, dy: int, p: Player)
    requires WellFormed(g) && IsStep(dx, dy) && LineFrom(g, x, y, dx, dy, p)
    requires dy > 0 || (dy == 0 && dx > 0)
    ensures ScanFinds(g, p)
  {
    if dx == 0 {
      assert InScan(Vertical, x, y) && RunAt(g, Vertical, x, y, p);
    } else if dy == 0 {
      assert InScan(Horizontal, x, y) && RunAt(g, Horizontal, x, y, p);
    } else if dx == 1 {
      assert InScan(DownRight, x, y) && RunAt(g, DownRight, x, y, p);
    } else {
      assert InScan(DownLeft, x - 3, y) && RunAt(g, DownLeft, x - 3, y, p);
    }
  }

  /** The vertical scan of checkForEnd: every column, every start row
      with three rows below it. Reports whether a run of `player` was met. */
  method ScanVertical(board: array2<Cell>, player: Player) returns (found: bool)
    requires Shaped(board)
    ensures found <==> ScanMeets(ToGrid(board), Vertical, player)
  {
    ghost var g := ToGrid(board);
    var mine := Counter(player);
    for x := 0 to Width
      invariant NoneBefore(g, Vertical, x, 0, player)
    {
      for y := 0 to Height - 3
        invariant NoneBefore(g, Vertical, x, y, player)
      {
        var counter1, counter2, counter3, counter4 := board[x, y], board[x, y + 1], board[x, y + 2], board[x, y + 3];
        if counter1 == counter2 == counter3 == counter4 == mine {
          assert InScan(Vertical, x, y) && RunAt(g, Vertical, x, y, player);
          return true;
        }
      }
    }
    return false;
  }

  /** The horizontal scan of checkForEnd: every start column with three
      columns to its right, every row. */
  method ScanHorizontal(board: array2<Cell>, player: Player) returns (found: bool)
    requires Shaped(board)
    ensures found <==> ScanMeets(ToGrid(board), Horizontal, player)
  {
    ghost var g := ToGrid(board);
    var mine := Counter(player);
    for x := 0 to Width - 3
      invariant NoneBefore(g, Horizontal, x, 0, player)
    {
      for y := 0 to Height
        invariant NoneBefore(g, Horizontal, x, y, player)
      {
        var counter1, counter2, counter3, counter4 := board[x, y], board[x + 1, y], board[x + 2, y], board[x + 3, y];
        if counter1 == counter2 == counter3 == counter4 == mine {
          assert InScan(Horizontal, x, y) && RunAt(g, Horizontal, x, y, player);
          return true;
        }
      }
    }
    return false;
  }

  /** The diagonal scan of checkForEnd: at each position of a 4 by 3
      block it tries the down-right run from (x, y) and then the
      down-left run from (x + 3, y). */
  method ScanDiagonals(board: array2<Cell>, player: Player) returns (found: bool)
    requires Shaped(board)
    ensures found <==> ScanMeets(ToGrid(board), DownRight, player) || ScanMeets(ToGrid(board), DownLeft, player)
  {
    ghost var g := ToGrid(board);
    var mine := Counter(player);
    for x := 0 to Width - 3
      invariant NoneBefore(g, DownRight, x, 0, player)
      invariant NoneBefore(g, DownLeft, x, 0, player)
    {
      for y := 0 to Height - 3
        invariant NoneBefore(g, DownRight, x, y, player)
        invariant NoneBefore(g, DownLeft, x, y, player)
      {
        var counter1, counter2, counter3, counter4 := board[x, y], board[x + 1, y + 1], board[x + 2, y + 2], board[x + 3, y + 3];
        if counter1 == counter2 == counter3 == counter4 == mine {
          assert InScan(DownRight, x, y) && RunAt(g, DownRight, x, y, player);
          return true;
        }
        counter1, counter2, counter3, counter4 := board[x + 3, y], board[x + 2, y + 1], board[x + 1, y + 2], board[x, y + 3];
        if counter1 == counter2 == counter3 == counter4 == mine {
          assert InScan(DownLeft, x, y) && RunAt(g, DownLeft, x, y, player);
          return true;
        }
      }
    }
    return false;
  }

  /** checkForEnd: the vertical, horizontal and diagonal scans in turn;
      the first run of `player` met ends the game with `player` as the
      winner (declareWinner). Failing that, the top row is searched for a
      blank, and finding none means a draw. */
  method CheckForEnd(board: array2<Cell>, player: Player) returns (outcome: Outcome)
    requires Shaped(board)
    ensures outcome == EndOf(ToGrid(board), player)
  {
    ghost var g := ToGrid(board);
    ScanFindsEveryLine(g, player);

    var won := ScanVertical(board, player);
    if won {
      return Win(player);
    }
    won := ScanHorizontal(board, player);
    if won {
      return Win(player);
    }
    won := ScanDiagonals(board, player);
    if won {
      return Win(player);
    }

    // Draw: look along the top row for a blank.
    var blankFound := false;
    for x := 0 to Width
      invariant !blankFound
      invariant forall i :: 0 <= i < x ==> board[i, 0] != Empty
    {
      if board[x, 0] == Empty {
        blankFound := true;
        assert g[x][0] == Empty;
        break;
      }
    }
    if !blankFound {
      return Draw;
    }
    return Ongoing;
  }

  /** A draw is declared only on a completely filled board: under
      gravity a full top row means all 42 cells hold counters. */
  lemma DrawMeansBoardFull(g: Grid, p: Player)
    requires WellFormed(g) && Gravity(g) && EndOf(g, p) == Draw
    ensures !FourInARow(g, p)
    ensures Tally(g, Empty) == 0 && Filled(g) == Width * Height
  {
    forall x | 0 <= x < |g| ensures ColumnFull(g[x]) {
      RoomIffTopEmpty(g, x);
    }
    NoEmptyMeansFilled(g);
  }

  /** While the game goes on there is a column a move may still use. */
  lemma OngoingLeavesRoom(g: Grid, p: Player)
    requires WellFormed(g) && Gravity(g) && EndOf(g, p) == Ongoing
    ensures !FourInARow(g, p)
    ensures exists x :: 0 <= x < Width && g[x][0] == Empty && !ColumnFull(g[x])
  {
    var x :| 0 <= x < |g| && !(|g[x]| > 0 && g[x][0] != Empty);
    RoomIffTopEmpty(g, x);
  }

  /** Only the mover can complete a line: a drop by `p` creates no
      four-in-a-row for the other player, which is why checkForEnd only
      looks at the player who just moved. */
  lemma DropKeepsOtherLines(g: Grid, x: nat, p: Player, q: Player)
    requires WellFormed(g) && x < Width && q != p
    ensures FourInARow(Drop(g, x, p), q) ==> FourInARow(g, q)
  {
    var h := Drop(g, x, p);
    if FourInARow(h, q) && !ColumnFull(g[x]) {
      var sx, sy, dx, dy :| IsStep(dx, dy) && LineFrom(h, sx, sy, dx, dy, q);
      DropPlacesLowest(g, x, p);
      forall i, j | Owns(h, i, j, q) ensures Owns(g, i, j, q) {
        assert h[i][j] != Counter(p);
      }
      assert LineFrom(g, sx, sy, dx, dy, q);
    }
  }
}
