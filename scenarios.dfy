/** Whole games played through `Turn`: X keeps dropping into column 1
    while O answers in column 7, until X's fourth counter makes a
    vertical line; and the responses that end the game or are refused. */
module Scenarios {
  import opened Board
  import opened Input
  import opened Rules
  import opened Game

  /** The cell (x, y) of the board on which X has dropped `a` counters
      into column 1 (index 0) and O has dropped `b` into column 7
      (index 6). */
  function StackCell(a: nat, b: nat, x: int, y: int): Cell {
    if x == 0 && y >= Height - a then Counter(X)
    else if x == Width - 1 && y >= Height - b then Counter(O)
    else Empty
  }

  ghost predicate IsStacks(g: Grid, a: nat, b: nat) {
    a <= Height && b <= Height && WellFormed(g)
    && forall x, y :: 0 <= x < Width && 0 <= y < Height ==> g[x][y] == StackCell(a, b, x, y)
  }

  lemma StacksShape(g: Grid, a: nat, b: nat)
    requires IsStacks(g, a, b)
    ensures Gravity(g)
    ensures a < Height && b < Height ==> !TopRowFull(g)
  {
    if a < Height && b < Height {
      assert g[0][0] == Empty;
    }
  }

  /** Dropping X into column 1 raises X's stack by one. */
  lemma DropX(g: Grid, a: nat, b: nat)
    requires IsStacks(g, a, b) && a < Height
    ensures IsStacks(Drop(g, 0, X), a + 1, b)
  {
    assert g[0][Height - 1 - a] == Empty;
    assert LowestEmpty(g[0]) == Some(Height - 1 - a);
  }

  /** Dropping O into column 7 raises O's stack by one. */
  lemma DropO(g: Grid, a: nat, b: nat)
    requires IsStacks(g, a, b) && b < Height
    ensures IsStacks(Drop(g, Width - 1, O), a, b + 1)
  {
    assert g[Width - 1][Height - 1 - b] == Empty;
    assert LowestEmpty(g[Width - 1]) == Some(Height - 1 - b);
  }

  /** Stacks of at most three counters hold no four-in-a-row. */
  lemma ShortStacksNoLine(g: Grid, a: nat, b: nat, p: Player)
    requires IsStacks(g, a, b) && a <= 3 && b <= 3
    ensures !FourInARow(g, p)
  {
  }

  /** Until X's fourth drop into column 1 the game goes on, whoever moved. */
  lemma ShortStacksGoOn(g: Grid, a: nat, b: nat, p: Player)
    requires IsStacks(g, a, b) && a <= 3 && b <= 3
    ensures EndOf(g, p) == Ongoing
  {
    StacksShape(g, a, b);
    ShortStacksNoLine(g, a, b, p);
  }

  /** X's fourth counter in column 1 wins the game for X. */
  lemma FourthDropWins(g: Grid)
    requires IsStacks(g, 4, 3)
    ensures EndOf(g, X) == Win(X)
  {
    assert IsStep(0, 1) && LineFrom(g, 0, 2, 0, 1, X);
  }

  /** The board `newBoard` builds is the one with no stack at all. */
  lemma EmptyIsStacks(board: array2<Cell>)
    requires Shaped(board) && forall x, y :: 0 <= x < Width && 0 <= y < Height ==> board[x, y] == Empty
    ensures IsStacks(ToGrid(board), 0, 0)
  {
  }

  lemma NormaliseDigit(s: string)
    requires IsColumnNumber(s)
    ensures Normalise(s) == s
  {
    assert Upper(s) == s;
    StripKeepsTrimmed(s);
  }

  lemma NormaliseQuit()
    ensures Normalise("  quit ") == "QUIT"
  {
    NormaliseWord("  ", "quit", " ");
    assert "  " + "quit" + " " == "  quit ";
  }

  lemma NormaliseRefused()
    ensures Normalise("8") == "8" && !IsColumnNumber("8")
    ensures Normalise("abc") == "ABC" && !IsColumnNumber("ABC")
  {
    assert Upper("8") == "8";
    StripKeepsTrimmed("8");
    assert Upper("abc") == "ABC";
    StripKeepsTrimmed("ABC");
  }

  /** An X move into column 1, played through `Turn` on the real board. */
  method PlayX(board: array2<Cell>, a: nat, b: nat)
    requires Shaped(board) && a < 3 && b <= 3
    requires IsStacks(ToGrid(board), a, b)
    modifies board
    ensures IsStacks(ToGrid(board), a + 1, b)
  {
    NormaliseDigit("1");
    assert board[0, 0] == ToGrid(board)[0][0];
    ghost var g := ToGrid(board);
    var move, outcome, next := Turn(board, X, "1");
    assert move == Column(0);
    DropX(g, a, b);
    ShortStacksGoOn(ToGrid(board), a + 1, b, X);
    assert outcome == Ongoing && next == O;
  }

  /** An O move into column 7, played through `Turn` on the real board. */
  method PlayO(board: array2<Cell>, a: nat, b: nat)
    requires Shaped(board) && a <= 3 && b < 3
    requires IsStacks(ToGrid(board), a, b)
    modifies board
    ensures IsStacks(ToGrid(board), a, b + 1)
  {
    NormaliseDigit("7");
    assert board[Width - 1, 0] == ToGrid(board)[Width - 1][0];
    ghost var g := ToGrid(board);
    var move, outcome, next := Turn(board, O, "7");
    assert move == Column(Width - 1);
    DropO(g, a, b);
    ShortStacksGoOn(ToGrid(board), a, b + 1, O);
    assert outcome == Ongoing && next == X;
  }

  /** The responses "8" and "abc" are refused without using up X's turn
      and without touching the board. */
  method RefusedResponses()
  {
    var board := NewBoard();
    EmptyIsStacks(board);
    NormaliseRefused();

    var move, outcome, next := Turn(board, X, "8");
    assert move == InvalidMove && outcome == Ongoing && next == X;
    move, outcome, next := Turn(board, X, "abc");
    assert move == InvalidMove && outcome == Ongoing && next == X;
    assert IsStacks(ToGrid(board), 0, 0);
  }

  /** X drops into column 1 four times, O into column 7 in between, and
      X's fourth drop wins at once. */
  method VerticalWinInColumnOne()
  {
    var board := NewBoard();
    EmptyIsStacks(board);

    PlayX(board, 0, 0);
    PlayO(board, 1, 0);
    PlayX(board, 1, 1);
    PlayO(board, 2, 1);
    PlayX(board, 2, 2);
    PlayO(board, 3, 2);

    NormaliseDigit("1");
    assert board[0, 0] == ToGrid(board)[0][0];
    ghost var g := ToGrid(board);
    var move, outcome, next := Turn(board, X, "1");
    assert move == Column(0);
    DropX(g, 3, 3);
    FourthDropWins(ToGrid(board));
    assert outcome == Win(X);
  }

  /** " quit " at the prompt ends the game at once and leaves the board
      as it was. */
  method QuitLeavesBoard()
  {
    var board := NewBoard();
    EmptyIsStacks(board);
    PlayX(board, 0, 0);
    NormaliseQuit();
    var move, outcome, next := Turn(board, O, "  quit ");
    assert move == QuitGame && outcome == Quit && next == O;
    assert IsStacks(ToGrid(board), 1, 0);
  }
}
