/** The turn loop of main: read a move for the player to move, drop the
    counter, check for the end of the game, and hand the turn to the
    other player. Console input is a parameter: one line per prompt. */
module Game {
  import opened Board
  import opened Input
  import opened Rules

  /** Where the game stands after some lines of input: the board, how the
      last turn ended, whose turn it is and how many lines were read. */
  datatype State = State(grid: Grid, outcome: Outcome, toMove: Player, used: nat)

  /** What holds of every state the game can reach, given how the last
      turn ended: the board keeps gravity, X has made as many moves as O
      or one more (and X has the extra one exactly when O is to move), and
      the outcome says truthfully who has four in a row. */
  ghost predicate Consistent(g: Grid, outcome: Outcome, toMove: Player) {
    WellFormed(g) && Gravity(g)
    && Tally(g, Counter(X)) == Tally(g, Counter(O)) + (if toMove == O then 1 else 0)
    && match outcome
       case Ongoing => !FourInARow(g, X) && !FourInARow(g, O)
       case Quit => !FourInARow(g, X) && !FourInARow(g, O)
       // The source exits on a win before it switches players; the model's
       // Turn still hands the turn over, which nothing can observe.
       case Win(w) => FourInARow(g, w) && !FourInARow(g, Other(w)) && toMove == Other(w)
       case Draw => !FourInARow(g, X) && !FourInARow(g, O) && Filled(g) == Width * Height
  }

  /** The empty board, X to move, is a consistent start. */
  lemma StartIsConsistent(g: Grid)
    requires WellFormed(g) && AllEmpty(g)
    ensures Consistent(g, Ongoing, X) && Filled(g) == 0
  {
    AllEmptyHasNoCounters(g);
  }

  /** One accepted move keeps the game consistent: dropping `p`'s counter
      into a column whose top cell is empty and then judging the board
      for `p` gives a consistent state with the other player to move. */
  lemma MoveKeepsConsistent(g: Grid, x: nat, p: Player)
    requires Consistent(g, Ongoing, p) && x < Width && g[x][0] == Empty
    ensures Consistent(Drop(g, x, p), EndOf(Drop(g, x, p), p), Other(p))
  {
    var h := Drop(g, x, p);
    RoomIffTopEmpty(g, x);
    DropPlacesLowest(g, x, p);
    DropKeepsGravity(g, x, p);
    DropAddsOneCounter(g, x, p);
    DropKeepsOtherLines(g, x, p, Other(p));
    OtherInvolutive(p);
    if EndOf(h, p) == Draw {
      DrawMeansBoardFull(h, p);
    }
    if p == X {
      assert Tally(h, Counter(X)) == Tally(h, Counter(O)) + 1;
    } else {
      assert Tally(h, Counter(X)) == Tally(h, Counter(O));
    }
  }

  /** One iteration of main's loop on one line of input. A quit request
      ends the game and an invalid or full-column response is answered
      by prompting again, all three leaving the board and the player to
      move alone; a valid column is played, judged, and the turn passes. */
  method Turn(board: array2<Cell>, player: Player, line: string) returns (move: Move, outcome: Outcome, next: Player)
    requires Shaped(board)
    modifies board
    ensures move == old(Classify(board, Normalise(line)))
    ensures !move.Column? ==> unchanged(board) && next == player
    ensures move == QuitGame ==> outcome == Quit
    ensures move == InvalidMove || move == FullColumn ==> outcome == Ongoing
    ensures move.Column? ==> ToGrid(board) == Drop(old(ToGrid(board)), move.index, player)
    ensures move.Column? ==> outcome == EndOf(ToGrid(board), player) && next == Other(player)
    ensures move.Column? ==> Filled(ToGrid(board)) == Filled(old(ToGrid(board))) + 1
    ensures (ToGrid(board), outcome, next) == Step(old(ToGrid(board)), player, Normalise(line))
  {
    move := Classify(board, Normalise(line));
    match move
    case QuitGame =>
      return move, Quit, player;
    case InvalidMove =>
      return move, Ongoing, player;
    case FullColumn =>
      return move, Ongoing, player;
    case Column(playerMove) =>
      ghost var before := ToGrid(board);
      assert before[playerMove][0] == Empty;
      PlaceCounter(board, playerMove, player);
      DropAddsOneCounter(before, playerMove, player);
      outcome := CheckForEnd(board, player);
      next := Other(player);
  }

  /** The lines typed at the move prompt as getPlayerMove examines them,
      upper-cased and stripped. */
  ghost function Responses(lines: seq<string>): (rs: seq<string>)
    ensures |rs| == |lines|
  {
    if lines == [] then [] else [Normalise(lines[0])] + Responses(lines[1..])
  }

  /** Response i is line i normalised. */
  lemma {:induction false} ResponsesAt(lines: seq<string>, i: nat)
    requires i < |lines|
    ensures Responses(lines)[i] == Normalise(lines[i])
  {
    if i > 0 {
      ResponsesAt(lines[1..], i - 1);
    }
  }

  /** One turn on the value of the board: the normalised response is
      classified, and for a column with room the counter is dropped, the
      board judged for the mover and the turn handed over. */
  ghost function Step(g: Grid, p: Player, response: string): (r: (Grid, Outcome, Player))
    requires WellFormed(g)
    ensures WellFormed(r.0)
  {
    match MoveOn(g, response)
    case QuitGame => (g, Quit, p)
    case InvalidMove => (g, Ongoing, p)
    case FullColumn => (g, Ongoing, p)
    case Column(x) =>
      var h := Drop(g, x, p);
      (h, EndOf(h, p), Other(p))
  }

  /** The game from state `s` on: one turn per remaining response for as
      long as the outcome is Ongoing. */
  ghost function Play(s: State, responses: seq<string>): State
    requires WellFormed(s.grid)
    decreases |responses| - s.used
  {
    if s.used < |responses| && s.outcome == Ongoing then
      var t := Step(s.grid, s.toMove, responses[s.used]);
      Play(State(t.0, t.1, t.2, s.used + 1), responses)
    else s
  }

  /** Playing on from `s` is playing on from the state one step later. */
  lemma PlayUnfold(s: State, responses: seq<string>, g: Grid, outcome: Outcome, next: Player)
    requires WellFormed(s.grid) && s.used < |responses| && s.outcome == Ongoing
    requires (g, outcome, next) == Step(s.grid, s.toMove, responses[s.used])
    ensures WellFormed(g)
    ensures Play(s, responses) == Play(State(g, outcome, next, s.used + 1), responses)
  {
  }

  /** One line of input advances the game by one step of Play on the
      normalised responses. */
  lemma PlayLine(s: State, lines: seq<string>, g: Grid, outcome: Outcome, next: Player)
    requires WellFormed(s.grid) && s.used < |lines| && s.outcome == Ongoing
    requires (g, outcome, next) == Step(s.grid, s.toMove, Normalise(lines[s.used]))
    ensures WellFormed(g)
    ensures Play(s, Responses(lines)) == Play(State(g, outcome, next, s.used + 1), Responses(lines))
  {
    ResponsesAt(lines, s.used);
    PlayUnfold(s, Responses(lines), g, outcome, next);
  }

  /** A state the loop has left is where Play stops. */
  lemma PlayDone(s: State, responses: seq<string>)
    requires WellFormed(s.grid) && !(s.used < |responses| && s.outcome == Ongoing)
    ensures Play(s, responses) == s
  {
  }

  /** Play reads no response beyond the input, stops only at its end or
      at an outcome other than Ongoing, and once the game has
      ended it accepts no further move. */
  lemma {:induction false} PlayStops(s: State, responses: seq<string>)
    requires WellFormed(s.grid) && s.used <= |responses|
    ensures s.used <= Play(s, responses).used <= |responses|
    ensures Play(s, responses).outcome == Ongoing ==> Play(s, responses).used == |responses|
    ensures s.outcome != Ongoing ==> Play(s, responses) == s
    decreases |responses| - s.used
  {
    if s.used < |responses| && s.outcome == Ongoing {
      var t := Step(s.grid, s.toMove, responses[s.used]);
      PlayUnfold(s, responses, t.0, t.1, t.2);
      PlayStops(State(t.0, t.1, t.2, s.used + 1), responses);
    }
  }

  /** Each step keeps the game consistent and adds at most one counter. */
  lemma StepKeepsConsistent(g: Grid, p: Player, response: string)
    requires Consistent(g, Ongoing, p)
    ensures Consistent(Step(g, p, response).0, Step(g, p, response).1, Step(g, p, response).2)
    ensures Filled(Step(g, p, response).0) <= Filled(g) + 1
  {
    match MoveOn(g, response)
    case QuitGame =>
    case InvalidMove =>
    case FullColumn =>
    case Column(x) =>
      MoveKeepsConsistent(g, x, p);
      RoomIffTopEmpty(g, x);
      DropAddsOneCounter(g, x, p);
  }

  /** Every state a game can reach is consistent, with at most one
      counter on the board per line read. */
  lemma {:induction false} PlayKeepsConsistent(s: State, responses: seq<string>)
    requires Consistent(s.grid, s.outcome, s.toMove) && Filled(s.grid) <= s.used
    ensures Consistent(Play(s, responses).grid, Play(s, responses).outcome, Play(s, responses).toMove)
    ensures Filled(Play(s, responses).grid) <= Play(s, responses).used
    decreases |responses| - s.used
  {
    if s.used < |responses| && s.outcome == Ongoing {
      StepKeepsConsistent(s.grid, s.toMove, responses[s.used]);
      var t := Step(s.grid, s.toMove, responses[s.used]);
      PlayUnfold(s, responses, t.0, t.1, t.2);
      PlayKeepsConsistent(State(t.0, t.1, t.2, s.used + 1), responses);
    }
  }

  /** One pass of main's loop on line `used`: one `Step` on that line, so
      the game played on from the state after it is the game played on
      from the state before it. */
  method TakeTurn(board: array2<Cell>, lines: seq<string>, toMove0: Player, used: nat)
    returns (outcome: Outcome, toMove: Player)
    requires Shaped(board) && used < |lines|
    modifies board
    ensures WellFormed(ToGrid(board))
    ensures (ToGrid(board), outcome, toMove) == Step(old(ToGrid(board)), toMove0, Normalise(lines[used]))
    ensures Play(State(ToGrid(board), outcome, toMove, used + 1), Responses(lines))
         == Play(State(old(ToGrid(board)), Ongoing, toMove0, used), Responses(lines))
  {
    ghost var before := State(ToGrid(board), Ongoing, toMove0, used);
    var move;
    move, outcome, toMove := Turn(board, toMove0, lines[used]);
    PlayLine(before, lines, ToGrid(board), outcome, toMove);
  }

  /** The `while True` loop of main, from a given state: a turn per
      line while the outcome is Ongoing and lines remain. */
  method PlayTurns(board: array2<Cell>, lines: seq<string>, outcome0: Outcome, toMove0: Player, used0: nat)
    returns (outcome: Outcome, toMove: Player, used: nat)
    requires Shaped(board) && used0 <= |lines|
    modifies board
    ensures State(ToGrid(board), outcome, toMove, used) == Play(State(old(ToGrid(board)), outcome0, toMove0, used0), Responses(lines))
  {
    ghost var start := State(ToGrid(board), outcome0, toMove0, used0);
    outcome, toMove, used := outcome0, toMove0, used0;
    while used < |lines| && outcome == Ongoing
      invariant used <= |lines|
      invariant WellFormed(ToGrid(board))
      invariant Play(State(ToGrid(board), outcome, toMove, used), Responses(lines)) == Play(start, Responses(lines))
      decreases |lines| - used
    {
      outcome, toMove := TakeTurn(board, lines, toMove, used);
      used := used + 1;
    }
    PlayDone(State(ToGrid(board), outcome, toMove, used), Responses(lines));
  }

  /** main: a fresh board, X to move, then turns until the game ends or
      the input runs out. `used` counts the lines read. */
  method PlayGame(lines: seq<string>) returns (outcome: Outcome, board: array2<Cell>, toMove: Player, used: nat)
    ensures fresh(board) && Shaped(board)
    ensures State(ToGrid(board), outcome, toMove, used) == Play(State(Blank(), Ongoing, X, 0), Responses(lines))
    ensures used <= |lines| && (outcome == Ongoing ==> used == |lines|)
    ensures Consistent(ToGrid(board), outcome, toMove)
    ensures Filled(ToGrid(board)) <= used
  {
    board := NewBoard();
    outcome, toMove, used := PlayTurns(board, lines, Ongoing, X, 0);
    ghost var start := State(Blank(), Ongoing, X, 0);
    StartIsConsistent(Blank());
    PlayStops(start, Responses(lines));
    PlayKeepsConsistent(start, Responses(lines));
  }
}
