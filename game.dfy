/** One round of the interactive loop: the end-of-game check, the pass, the
    reading of a move from a line of input, and the move itself. */
module Game {
  import opened Rules
  import opened Engine

  /** The range of a 64-bit unsigned machine word. */
  const WordSize: int := 0x1_0000_0000_0000_0000

  /** The number of bytes a character takes in UTF-8. */
  function Utf8Width(ch: char): (w: nat)
    ensures 1 <= w <= 4
    ensures w == 1 <==> (ch as int) < 0x80
  {
    if (ch as int) < 0x80 then 1
    else if (ch as int) < 0x800 then 2
    else if (ch as int) < 0x1_0000 then 3
    else 4
  }

  /** The length of a string in UTF-8 bytes. */
  function Utf8Length(s: string): (n: nat)
    ensures n >= |s|
  {
    if s == [] then 0 else Utf8Width(s[0]) + Utf8Length(s[1..])
  }

  /** The code of ch minus the code of 'a', as an unsigned 64-bit
      subtraction that wraps around below zero. */
  function LetterIndex(ch: char): (i: nat)
    ensures i < WordSize
    ensures 'a' <= ch ==> i == (ch as int) - ('a' as int)
    ensures ch < 'a' ==> i >= WordSize - ('a' as int)
  {
    ((ch as int) - ('a' as int)) % WordSize
  }

  predicate IsBoardLetter(ch: char) {
    'a' <= ch <= 'h'
  }

  /** Reads a move from one line of input: a line that is not three bytes
      long gives the off-board square (Size, Size); otherwise the first
      character names the row and the second the column. None stands for the
      abort when a three-byte line holds fewer than two characters. */
  function ParseMove(line: string): (r: Option<(nat, nat)>)
    ensures r.None? ==> |line| == 1
    ensures r.Some? && InBounds(r.value.0, r.value.1) ==>
      Utf8Length(line) == 3 && IsBoardLetter(line[0]) && IsBoardLetter(line[1])
  {
    if Utf8Length(line) != 3 then Some((Size, Size))
    else if |line| < 2 then None
    else Some((LetterIndex(line[0]), LetterIndex(line[1])))
  }

  /** The line that names (row, col): row letter, column letter, newline. */
  function MoveText(row: int, col: int): (s: string)
    requires InBounds(row, col)
    ensures |s| == 3 && IsBoardLetter(s[0]) && IsBoardLetter(s[1])
  {
    [(('a' as int) + row) as char, (('a' as int) + col) as char, '\n']
  }

  lemma LetterIndexOnBoard(ch: char)
    ensures LetterIndex(ch) < Size <==> IsBoardLetter(ch)
    ensures IsBoardLetter(ch) ==> LetterIndex(ch) == (ch as int) - ('a' as int)
  {
  }

  /** Two one-byte characters and a third character make a three-byte line
      exactly when the third character is also one byte. */
  lemma {:induction false} Utf8LengthOfThree(line: string)
    requires |line| >= 2 && (line[0] as int) < 0x80 && (line[1] as int) < 0x80
    ensures Utf8Length(line) == 3 <==> |line| == 3 && (line[2] as int) < 0x80
  {
    assert line[1..][0] == line[1];
    var rest := line[2..];
    assert line[1..][1..] == rest;
    if rest != [] {
      assert rest[0] == line[2];
      assert Utf8Length(rest) >= Utf8Width(rest[0]);
      if |rest| > 1 {
        assert Utf8Length(rest[1..]) >= 1;
      }
    }
  }

  /** A line reads as a square on the board exactly when it is a row letter,
      a column letter and one more one-byte character, and then it reads as
      the letters' offsets from 'a'. */
  lemma ParseMoveOnBoard(line: string)
    ensures (ParseMove(line).Some? && InBounds(ParseMove(line).value.0, ParseMove(line).value.1)) <==>
      |line| == 3 && IsBoardLetter(line[0]) && IsBoardLetter(line[1]) && (line[2] as int) < 0x80
    ensures |line| == 3 && IsBoardLetter(line[0]) && IsBoardLetter(line[1]) && (line[2] as int) < 0x80 ==>
      ParseMove(line) == Some(((line[0] as int) - ('a' as int), (line[1] as int) - ('a' as int)))
  {
    if |line| >= 2 {
      LetterIndexOnBoard(line[0]);
      LetterIndexOnBoard(line[1]);
      if IsBoardLetter(line[0]) && IsBoardLetter(line[1]) {
        Utf8LengthOfThree(line);
      }
    }
  }

  /** Reading is aborted exactly on a three-byte line of fewer than two
      characters: a single character from U+0800 to U+FFFF and no newline. */
  lemma ParseMoveAborts(line: string)
    ensures ParseMove(line).None? <==> |line| == 1 && Utf8Width(line[0]) == 3
  {
    if |line| == 1 {
      assert line[1..] == [];
      assert Utf8Length(line) == Utf8Width(line[0]);
    } else if |line| == 0 {
    } else {
      assert Utf8Length(line) >= 2;
    }
  }

  /** The line written for a square reads back as that square. */
  lemma ParseMoveText(row: int, col: int)
    requires InBounds(row, col)
    ensures ParseMove(MoveText(row, col)) == Some((row, col))
  {
    var s := MoveText(row, col);
    ParseMoveOnBoard(s);
  }

  /** What one round of the loop reports. */
  datatype Event =
    | Finished(outcome: Outcome)  // neither colour can move: the verdict, and the loop ends
    | Passed                      // the side to move has no legal placement
    | Aborted                     // the line could not be read as two characters
    | Rejected                    // off-board or illegal: the same side is asked again
    | Played                      // the move was made

  datatype Round = Round(event: Event, next: Player, grid: Grid)

  /** One round of the loop on the value of the board: the side to move is
      `current`, and `line` is the input it types if it is asked for one. */
  ghost function Step(g: Grid, current: Player, line: string): (s: Round)
    requires WellFormed(g)
    ensures WellFormed(s.grid)
  {
    if GameEnded(g) then
      Round(Finished(Verdict(Count(g, Disc(Black)), Count(g, Disc(White)))), current, g)
    else if !HasLegal(g, current) then Round(Passed, Other(current), g)
    else
      match ParseMove(line)
      case None => Round(Aborted, current, g)
      case Some(m) =>
        if InBounds(m.0, m.1) && Legal(g, current, m.0, m.1) then
          Round(Played, Other(current), Move(g, current, m.0, m.1))
        else Round(Rejected, current, g)
  }

  /** The board changes only when a move is played; the turn passes to the
      other colour exactly when a move is played or the side to move passes. */
  lemma StepEffect(g: Grid, current: Player, line: string)
    requires WellFormed(g)
    ensures Step(g, current, line).event != Played ==> Step(g, current, line).grid == g
    ensures Step(g, current, line).next ==
      if Step(g, current, line).event in {Played, Passed} then Other(current) else current
    ensures Step(g, current, line).event.Finished? <==> GameEnded(g)
  {
  }

  /** A side passes only when the other side can move, so two passes never
      follow each other on the same board. */
  lemma PassLeavesAMove(g: Grid, current: Player, line: string, line2: string)
    requires WellFormed(g)
    requires Step(g, current, line).event == Passed
    ensures HasLegal(g, Other(current))
    ensures Step(g, Other(current), line2).event != Passed
    ensures !Step(g, Other(current), line2).event.Finished?
  {
    if current == Black {
      assert Other(current) == White;
    } else {
      assert Other(current) == Black;
    }
  }

  /** A played move fills exactly one empty square, and the squares of the
      board still add up to 64. */
  lemma PlayedFillsOneSquare(g: Grid, current: Player, line: string)
    requires WellFormed(g)
    requires Step(g, current, line).event == Played
    ensures Count(Step(g, current, line).grid, Empty) + 1 == Count(g, Empty)
    ensures Count(Step(g, current, line).grid, Empty) + Count(Step(g, current, line).grid, Disc(Black)) +
      Count(Step(g, current, line).grid, Disc(White)) == Size * Size
  {
    var m := ParseMove(line).value;
    MoveFillsOneSquare(g, current, m.0, m.1);
    CountsAddUp(Step(g, current, line).grid);
  }

  /** A finished game reports the winner and the margin from the disc counts. */
  lemma FinishedVerdict(g: Grid, current: Player, line: string)
    requires WellFormed(g) && GameEnded(g)
    ensures var e := Step(g, current, line).event;
      e.Finished? &&
      (e.outcome == Draw <==> Count(g, Disc(Black)) == Count(g, Disc(White))) &&
      (e.outcome.BlackWins? <==> Count(g, Disc(Black)) > Count(g, Disc(White))) &&
      (e.outcome.BlackWins? ==> e.outcome.margin == Count(g, Disc(Black)) - Count(g, Disc(White))) &&
      (e.outcome.WhiteWins? ==> e.outcome.margin == Count(g, Disc(White)) - Count(g, Disc(Black)))
  {
  }

  /** One round of the loop on the board object, with the line of input the
      side to move would type. */
  method Turn(board: Board, current: Player, line: string) returns (event: Event, next: Player)
    requires board.Valid()
    modifies board.grid
    ensures board.Valid()
    ensures Round(event, next, board.Cells()) == Step(old(board.Cells()), current, line)
  {
    var over := board.GameOver();
    if over {
      var black := board.CountPieces(Disc(Black));
      var white := board.CountPieces(Disc(White));
      return Finished(Verdict(black, white)), current;
    }
    var canMove := board.HasValidMove(current);
    if !canMove {
      return Passed, Other(current);
    }
    var parsed := ParseMove(line);
    if parsed.None? {
      return Aborted, current;
    }
    var row, col := parsed.value.0, parsed.value.1;
    if row >= Size || col >= Size {
      return Rejected, current;
    }
    var ok := board.IsValidMove(current, row, col);
    if !ok {
      return Rejected, current;
    }
    board.ApplyMove(current, row, col);
    return Played, Other(current);
  }
}
