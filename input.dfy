/** The decision part of getPlayerMove: one line typed at the move
    prompt is normalised (upper-cased, then stripped of surrounding
    whitespace) and is then a request to quit, an invalid move, a pick
    of a full column, or the zero-based index of a column with room. */
module Input {
  import opened Board

  /** What one response at the move prompt amounts to. */
  datatype Move = QuitGame | InvalidMove | FullColumn | Column(index: nat)

  /** The characters Python's str.isspace() accepts. */
  predicate IsSpace(c: char) {
    c == ' ' || '\t' <= c <= '\r' || '\U{1c}' <= c <= '\U{1f}' || c == '\U{85}' || c == '\U{a0}'
    || c == '\U{1680}' || '\U{2000}' <= c <= '\U{200a}' || c == '\U{2028}' || c == '\U{2029}'
    || c == '\U{202f}' || c == '\U{205f}' || c == '\U{3000}'
  }

  /** Upper case of one character, for the ASCII letters. */
  function UpperChar(c: char): char {
    if 'a' <= c <= 'z' then (c as int - 'a' as int + 'A' as int) as char else c
  }

  /** str.upper(), restricted to ASCII letters. */
  function Upper(s: string): string {
    seq(|s|, i requires 0 <= i < |s| => UpperChar(s[i]))
  }

  /** Upper-casing keeps the length, leaves no lower-case ASCII letter,
      changes no whitespace, and doing it twice is doing it once. */
  lemma UpperFacts(s: string)
    ensures |Upper(s)| == |s|
    ensures forall i :: 0 <= i < |s| ==> !('a' <= Upper(s)[i] <= 'z')
    ensures forall i :: 0 <= i < |s| ==> (IsSpace(Upper(s)[i]) <==> IsSpace(s[i]))
    ensures Upper(Upper(s)) == Upper(s)
  {
  }

  /** How many whitespace characters open `s`: the index of its first
      other character, or |s| when there is none. */
  function LeadingSpaces(s: string): (i: nat)
    ensures i <= |s|
  {
    if |s| > 0 && IsSpace(s[0]) then 1 + LeadingSpaces(s[1..]) else 0
  }

  /** The characters LeadingSpaces counts are all whitespace, and the
      one after them is not. */
  lemma {:induction false} LeadingSpacesFacts(s: string)
    ensures forall k :: 0 <= k < LeadingSpaces(s) ==> IsSpace(s[k])
    ensures LeadingSpaces(s) < |s| ==> !IsSpace(s[LeadingSpaces(s)])
  {
    if |s| > 0 && IsSpace(s[0]) {
      LeadingSpacesFacts(s[1..]);
      forall k | 1 <= k < LeadingSpaces(s) ensures IsSpace(s[k]) {
        assert s[k] == s[1..][k - 1];
      }
    }
  }

  /** Where the whitespace closing `s` begins: one past its last other
      character, or 0 when there is none. */
  function TrailingStart(s: string): (j: nat)
    ensures j <= |s|
  {
    if |s| > 0 && IsSpace(s[|s| - 1]) then TrailingStart(s[..|s| - 1]) else |s|
  }

  /** The characters from TrailingStart on are all whitespace, and the
      one before them is not. */
  lemma {:induction false} TrailingStartFacts(s: string)
    ensures forall k :: TrailingStart(s) <= k < |s| ==> IsSpace(s[k])
    ensures TrailingStart(s) > 0 ==> !IsSpace(s[TrailingStart(s) - 1])
  {
    if |s| > 0 && IsSpace(s[|s| - 1]) {
      TrailingStartFacts(s[..|s| - 1]);
    }
  }

  /** str.strip(): cut the leading, then the trailing whitespace. */
  function Strip(s: string): string {
    var t := s[LeadingSpaces(s)..];
    t[..TrailingStart(t)]
  }

  /** Stripping removes exactly the whitespace around the text: the result
      is a slice of the input with only whitespace cut away on either side,
      and it neither starts nor ends with whitespace. */
  lemma StripFacts(s: string)
    ensures exists i, j :: (0 <= i <= j <= |s| && Strip(s) == s[i..j]
      && (forall k :: 0 <= k < i ==> IsSpace(s[k])) && (forall k :: j <= k < |s| ==> IsSpace(s[k])))
    ensures Strip(s) != [] ==> !IsSpace(Strip(s)[0]) && !IsSpace(Strip(s)[|Strip(s)| - 1])
  {
    var i := LeadingSpaces(s);
    var t := s[i..];
    var j := TrailingStart(t);
    LeadingSpacesFacts(s);
    TrailingStartFacts(t);
    assert Strip(s) == s[i..i + j];
    forall k | i + j <= k < |s| ensures IsSpace(s[k]) {
      assert s[k] == t[k - i];
    }
  }

  /** Text with nothing to strip is left as it is. */
  lemma StripKeepsTrimmed(s: string)
    requires s != [] ==> !IsSpace(s[0]) && !IsSpace(s[|s| - 1])
    ensures Strip(s) == s
  {
    assert s[0..] == s;
    assert s[..|s|] == s;
  }

  /** The response as getPlayerMove examines it: input().upper().strip(). */
  function Normalise(line: string): string {
    Strip(Upper(line))
  }

  /** Typing a word in any mix of case with whitespace around it leaves
      just the upper-case word, so " quit " and "Exit\t" are recognised. */
  lemma NormaliseWord(pre: string, word: string, post: string)
    requires forall k :: 0 <= k < |pre| ==> IsSpace(pre[k])
    requires forall k :: 0 <= k < |post| ==> IsSpace(post[k])
    requires word != [] && !IsSpace(word[0]) && !IsSpace(word[|word| - 1])
    ensures Normalise(pre + word + post) == Upper(word)
  {
    var u, up, uq := Upper(word), Upper(pre), Upper(post);
    UpperConcat(pre, word, post);
    UpperKeepsSpaces(pre);
    UpperKeepsSpaces(word);
    UpperKeepsSpaces(post);
    var upper := Upper(pre + word + post);
    assert upper == up + (u + uq);
    assert u != [] && !IsSpace(u[0]) && !IsSpace(u[|u| - 1]);
    LeadingOfPadded(up, u + uq);
    var t := upper[|up|..];
    assert t == u + uq;
    TrailingOfPadded(u, uq);
    assert Normalise(pre + word + post) == t[..|u|];
    assert t[..|u|] == u;
  }

  lemma UpperKeepsSpaces(s: string)
    ensures |Upper(s)| == |s|
    ensures forall i :: 0 <= i < |s| ==> (IsSpace(Upper(s)[i]) <==> IsSpace(s[i]))
  {
  }

  lemma UpperConcat(a: string, b: string, c: string)
    ensures Upper(a + b + c) == Upper(a) + Upper(b) + Upper(c)
  {
  }

  lemma LeadingOfPadded(pad: string, rest: string)
    requires forall k :: 0 <= k < |pad| ==> IsSpace(pad[k])
    requires rest != [] && !IsSpace(rest[0])
    ensures LeadingSpaces(pad + rest) == |pad|
  {
    LeadingSpacesFacts(pad + rest);
    assert (pad + rest)[|pad|] == rest[0];
  }

  lemma TrailingOfPadded(body: string, pad: string)
    requires forall k :: 0 <= k < |pad| ==> IsSpace(pad[k])
    requires body != [] && !IsSpace(body[|body| - 1])
    ensures TrailingStart(body + pad) == |body|
  {
    TrailingStartFacts(body + pad);
    assert (body + pad)[|body| - 1] == body[|body| - 1];
  }

  /** The decimal text of a one-digit number: str(n). */
  function DigitString(n: int): string
    requires 0 <= n <= 9
  {
    [('0' as int + n) as char]
  }

  /** validMoves: the strings "1" to "7", one per column. */
  function ValidMoves(): seq<string> {
    seq(Width, i requires 0 <= i < Width => DigitString(i + 1))
  }

  /** A response naming a column: one digit from 1 to BOARD_WIDTH. */
  predicate IsColumnNumber(s: string) {
    |s| == 1 && '1' <= s[0] <= '7'
  }

  /** The valid moves are exactly the one-digit column numbers. */
  lemma ValidMovesAreColumnNumbers(s: string)
    ensures s in ValidMoves() <==> IsColumnNumber(s)
  {
    if IsColumnNumber(s) {
      var i := s[0] as int - '1' as int;
      assert ValidMoves()[i] == s;
    }
  }

  /** int(s) for a valid move. */
  function DecimalValue(s: string): int
    requires s in ValidMoves()
  {
    ValidMovesAreColumnNumbers(s);
    s[0] as int - '0' as int
  }

  /** One pass of getPlayerMove's prompt loop on a normalised response:
      QUIT or EXIT ends the game; anything but "1".."7" is an invalid
      move; a column whose top cell is taken is full; otherwise the move
      is the zero-based column. The board is only read. */
  function Classify(board: array2<Cell>, response: string): (m: Move)
    requires Shaped(board)
    reads board
    ensures m == QuitGame <==> response == "QUIT" || response == "EXIT"
    ensures m == InvalidMove <==> response != "QUIT" && response != "EXIT" && !IsColumnNumber(response)
    ensures m == FullColumn <==> IsColumnNumber(response) && board[response[0] as int - '1' as int, 0] != Empty
    ensures m.Column? <==> IsColumnNumber(response) && board[response[0] as int - '1' as int, 0] == Empty
    ensures m.Column? ==> m.index < Width && m.index == response[0] as int - '1' as int
    ensures m == MoveOn(ToGrid(board), response)
  {
    ValidMovesAreColumnNumbers(response);
    if response == "QUIT" || response == "EXIT" then QuitGame
    else if response !in ValidMoves() then InvalidMove
    else
      var columnPicked := DecimalValue(response) - 1;
      if board[columnPicked, 0] != Empty then FullColumn else Column(columnPicked)
  }

  /** The same decision stated on the value of the board, for reasoning
      about whole games; `Classify` is proved to agree with it. */
  ghost function MoveOn(g: Grid, response: string): Move
    requires WellFormed(g)
  {
    if response == "QUIT" || response == "EXIT" then QuitGame
    else if !IsColumnNumber(response) then InvalidMove
    else
      var c := response[0] as int - '1' as int;
      if g[c][0] != Empty then FullColumn else Column(c)
  }
}
