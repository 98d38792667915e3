# Othello engine in Dafny

This project models the Othello (Reversi) program in `src/main.rs`: an 8x8
board with Black and White discs. A placement is legal when it lands on an
empty square and flanks a straight run of opponent discs, in one of eight
directions, against one of the mover's own discs. Placing the disc turns
every flanked run. A side with no legal placement passes. The game ends when
neither side can place, and the disc counts decide the winner and the margin.

The model has three modules.

- `Rules` (`rules.dfy`) states the game on immutable values.
  - A grid is a `seq<seq<Cell>>`. `Directions` lists the eight rays in the
    program's order.
  - `Flanks` and `Legal` are existentials over the rays: "some run of k >= 1
    opponent discs, then an own disc, all on the board".
  - `CaptureLength` computes the length of the run that a ray captures.
  - `Move` is the square-by-square effect of a placement: the target and
    every captured square turn to the mover, and nothing else changes.
  - `Count` counts squares, `Start` is the opening position and `Verdict`
    is the result announcement.
- `Engine` (`engine.dfy`) is the program's `Board`: a class over an
  `array2<Cell>` that the methods update in place.
  - The methods `CheckDirection`, `IsValidMove`, `FlipPieces`, `ApplyMove`,
    `HasValidMove` and `GameOver` keep the program's loops and early returns.
  - Each method is proved against the `Rules` definition of what it computes.
    `Cells()` is the value of the array.
- `Game` (`game.dfy`) is the body of `main`'s loop.
  - `ParseMove` is `get_move`'s index arithmetic on a line of input.
  - `Step` is one round on board values: the end-of-game check, the pass,
    the rejection and re-prompt, or the move followed by the change of turn.
  - `Turn` runs the same round on a `Board` and is proved equal to `Step`.

The characters `'.'`, `'B'` and `'W'` become the datatype
`Cell = Empty | Disc(Player)`.

The model follows the code where its behaviour is easy to miss:

- The prompt asks for a two-letter RowCol move (src/main.rs:201), but the
  code accepts any line of three UTF-8 bytes, newline included
  (`input.len() != 3`, src/main.rs:168).
- End of input does not end the program: each read gives an empty line,
  which is rejected, and the prompt repeats.
- If a line is three bytes but holds fewer than two characters, the
  program's `unwrap` aborts. That happens for a lone character from U+0800 to
  U+FFFF with no newline, and the model reports it as the event `Aborted`.

## Model

| member | source | states |
|---|---|---|
| Rules.DirectionsAreUnits | src/main.rs:8-9 | each of the eight directions moves at most one square along each axis and is not the null step, and the eight are pairwise distinct |
| Rules.UnitIsDirection | src/main.rs:8-9 | every unit step is one of the eight directions, so the scan misses no line through the square |
| Rules.CaptureLengthBrackets | src/main.rs:63-93 | the computed capture length is positive exactly when the ray flanks, and it is the only length at which the ray is bracketed |
| Rules.RunFromSpan | src/main.rs:68-89 | the scanned run of opponent discs is all opponent discs and stops at the first square that is not one |
| Rules.RayClosed | src/main.rs:74-80 | meeting an own disc after one or more opponent discs means the ray flanks |
| Rules.RayOpen | src/main.rs:74-92 | meeting an own disc with no opponent disc before it, an empty square, or the edge means the ray does not flank |
| Rules.RayFrame | src/main.rs:63-93 | whether a ray flanks, and its capture length, depend only on the squares along that ray |
| Rules.RaysDisjoint | src/main.rs:8-9 | two different directions from one square never reach the same square |
| Rules.EarlierDirectionsMissRay | src/main.rs:95-110 | squares on one ray are neither the target nor captured through the directions scanned before it, so each direction's scan sees the board as it was |
| Rules.MoveAfterStep | src/main.rs:103-109 | after direction i is handled, a square holds the mover's disc iff that direction, scanned on the partly updated board, captures it, and otherwise it keeps its earlier contents |
| Rules.MoveAfterNext | src/main.rs:103-109 | handling direction i, with the scan and flip done on the partly updated board, gives the move state after i + 1 directions |
| Rules.RunSquaresGrow | src/main.rs:122-127 | each step of the flip loop adds exactly one new square to the set of flipped squares |
| Rules.RunSquaresCaptured | src/main.rs:112-128 | the squares the flip loop visits before stopping are exactly the squares that direction captures |
| Rules.FlipFromRun | src/main.rs:112-128 | a board that holds the mover's disc on the visited run and is unchanged elsewhere is the one-direction flip |
| Rules.FlanksBracketsAtLength | src/main.rs:112-128 | a flanking ray is bracketed exactly at its capture length |
| Rules.BracketedStep | src/main.rs:114-127 | along a bracketed run every step stays on the board, steps 1..n are opponent discs and step n + 1 is an own disc, so the unchecked indexing of `flip_pieces` is in bounds |
| Rules.CapturesExactly | src/main.rs:95-128 | a square is captured along a direction iff that direction flanks, the square is on its ray, and every square from the target up to it is an opponent disc |
| Rules.CapturedWasOpponent | src/main.rs:112-128 | every square a move captures held an opponent disc |
| Rules.MoveEffect | src/main.rs:95-110 | on a legal move the target becomes the mover's disc, a square that changes was the empty target or an opponent disc, and no occupied square becomes empty |
| Rules.CountOfIsMultiplicity | src/main.rs:141-143 | the filter-and-count of a square type equals its multiplicity in the flattened board |
| Rules.CountOfPartition | src/main.rs:141-143 | every square is empty, black or white, so the three filter counts of a sequence of squares sum to its length |
| Rules.CountsAddUp | src/main.rs:141-143 | the empty, black and white counts of a board add up to 64 |
| Rules.MoveFillsOneSquare | src/main.rs:95-110 | a legal move lowers the number of empty squares by exactly one |
| Rules.StartCounts | src/main.rs:21-28 | the opening position holds two black discs, two white discs and 60 empty squares |
| Rules.OpeningCaptureLengths | src/main.rs:63-93 | from the opening position, Black at (2, 3) captures one disc going down and none in the seven other directions |
| Rules.OpeningIsLegal | src/main.rs:43-61 | Black's placement at (2, 3) in the opening position is legal |
| Rules.OpeningCapturedSquare | src/main.rs:95-110 | the only square Black's opening move at (2, 3) captures is (3, 3) |
| Rules.OpeningMove | src/main.rs:95-110 | Black's opening move at (2, 3) places the disc and turns exactly (3, 3) |
| Rules.OpeningCounts | src/main.rs:141-143 | after that move there are four black discs, one white disc and 59 empty squares |
| Rules.Verdict | src/main.rs:149-162 | a draw iff the counts are equal; Black wins iff Black has more discs, with margin black − white > 0; White wins symmetrically |
| Rules.VerdictSymmetric | src/main.rs:155-161 | exchanging the two counts exchanges the winner and keeps the margin |
| Engine.Board.constructor | src/main.rs:21-28 | a fresh 8x8 grid holding the opening position |
| Engine.Board.CheckDirection | src/main.rs:63-93 | returns true iff, in that direction, one or more opponent discs are followed by an own disc before an empty square or the edge |
| Engine.Board.IsValidMove | src/main.rs:43-61 | returns true iff the square is empty and some direction flanks |
| Engine.Board.FlipPieces | src/main.rs:112-128 | for a flanking direction, the board afterwards is the old board with that direction's captured run turned to the mover |
| Engine.Board.ApplyMove | src/main.rs:95-110 | the board afterwards is exactly `Move`: target and all captured squares turned, everything else as before |
| Engine.Board.HasValidMove | src/main.rs:130-139 | returns true iff some square of the board is a legal placement |
| Engine.Board.CountPieces | src/main.rs:141-143 | the number of squares holding the piece, as its multiplicity in the flattened board |
| Engine.Board.GameOver | src/main.rs:145-147 | returns true iff neither Black nor White has a legal placement |
| Game.LetterIndex | src/main.rs:174-175 | a letter's index is its code minus 'a', wrapping around as an unsigned 64-bit word for letters below 'a' |
| Game.LetterIndexOnBoard | src/main.rs:174-175 | a letter gives an index below 8 exactly when it is one of 'a'..'h' |
| Game.Utf8LengthOfThree | src/main.rs:168 | two one-byte characters and more make a three-byte line iff there is exactly one more one-byte character |
| Game.ParseMove | src/main.rs:165-177 | the read aborts only on a one-character line, and a line that reads as an on-board square is three bytes long and starts with a row letter and a column letter in 'a'..'h' |
| Game.ParseMoveOnBoard | src/main.rs:165-177 | a line reads as an on-board square iff it is a row letter, a column letter and one more one-byte character, and then the square is the letters' offsets from 'a' |
| Game.ParseMoveAborts | src/main.rs:168-173 | reading aborts in `unwrap` exactly on a lone three-byte character |
| Game.ParseMoveText | src/main.rs:165-177 | the line naming a square reads back as that square |
| Game.Step | src/main.rs:190-211 | one round of the loop on board values: end of game, pass, abort, rejection or a played move with the change of turn; the board it leaves is again an 8x8 grid (its effect is stated by the lemmas below) |
| Game.StepEffect | src/main.rs:190-211 | the board changes only when a move is played, the turn passes exactly on a play or a pass, and the round finishes iff neither side can move |
| Game.PassLeavesAMove | src/main.rs:195-199 | a side passes only when the other side can move, so the next round is neither a pass nor the end |
| Game.PlayedFillsOneSquare | src/main.rs:204-211 | a played round fills exactly one empty square and the counts still add up to 64 |
| Game.FinishedVerdict | src/main.rs:190-193 | a finished round reports a draw, or the winner and the margin, from the disc counts |
| Game.Turn | src/main.rs:190-211 | one round on the board object yields the same event, next player and board as `Step` |

## Left out

- Printing is not modelled: `print`, the board rendering, the prompts and
  the result lines. `Turn` returns an `Event` in their place.
- Reading standard input is not modelled: `read_line`, `flush` and `expect`
  on an I/O error. The line of input is a parameter of `Step` and `Turn`.
- The infinite `loop` of `main` is not modelled. Only one round of it is,
  as `Step` and `Turn`. At end of input the program re-prompts forever on
  empty lines, and the model has nothing to say about that.
- Characters are Unicode scalar values, and Dafny's `string` is a sequence of
  them. The program's UTF-8 bytes appear only through `Utf8Length`.
- Engine.Board.IsValidMove requires the square to be on the board. The
  program indexes the grid without a check and would panic on an off-board
  square, but `main` checks the bounds before calling it.
- Engine.Board.FlipPieces requires the direction to flank. The program's
  loop does not check bounds; it runs only after `check_direction` has
  succeeded in that direction.
- Engine.Board.ApplyMove has no legality precondition, because `Move` is defined for
  any square of the board. The legality facts (`MoveEffect`,
  `MoveFillsOneSquare`) are lemmas about a move that `is_valid_move`
  accepted.
- `check_direction`'s `opponent` argument is not modelled: every caller
  passes the other colour, and the model computes it from the player.
- `get_move` in a debug build would panic on a letter below 'a'. The model
  follows the release build, where the subtraction wraps around and the
  move is rejected as off-board.
