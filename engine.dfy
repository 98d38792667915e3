/** The board engine: an 8x8 grid updated in place, with the legality scan,
    the capture of flanked runs and the whole-board queries. */
module Engine {
  import opened Rules

  class Board {
    /** grid[row, col] is the square in row `row`, column `col`. */
    const grid: array2<Cell>

    ghost predicate Valid()
      reads this
    {
      grid.Length0 == Size && grid.Length1 == Size
    }

    /** The current contents of the grid as a value. */
    function Cells(): (g: Grid)
      reads this, grid
      requires Valid()
      ensures WellFormed(g)
      ensures forall r, c :: InBounds(r, c) ==> g[r][c] == grid[r, c]
    {
      seq(Size, r requires 0 <= r < Size reads grid =>
        seq(Size, c requires 0 <= c < Size reads grid => grid[r, c]))
    }

    /** The canonical starting position. */
    constructor ()
      ensures Valid() && fresh(grid)
      ensures Cells() == Start()
    {
      var a := new Cell[Size, Size]((_, _) => Empty);
      a[3, 3] := Disc(White);
      a[3, 4] := Disc(Black);
      a[4, 3] := Disc(Black);
      a[4, 4] := Disc(White);
      grid := a;
      new;
      SameGrid(Cells(), Start());
    }

    /** Walks the ray from (row, col) along (dr, dc): true iff it meets one or
        more opponent discs and then one of p's own, before an empty square or
        the edge. */
    method CheckDirection(row: int, col: int, dr: int, dc: int, p: Player) returns (b: bool)
      requires Valid() && InBounds(row, col) && IsUnit(dr, dc)
      ensures b <==> Flanks(Cells(), p, row, col, dr, dc)
    {
      ghost var g := Cells();
      var opponent := Disc(Other(p));
      var r, c := row + dr, col + dc;
      var foundOpponent := false;
      ghost var k := 1;
      while 0 <= r < Size && 0 <= c < Size
        invariant 1 <= k <= Size
        invariant r == Shift(row, dr, k) && c == Shift(col, dc, k)
        invariant foundOpponent <==> k > 1
        invariant OpponentRun(g, p, row, col, dr, dc, k - 1)
        decreases Size - k
      {
        OnBoardStepIsShort(row, col, dr, dc, k);
        var current := grid[r, c];
        if current == opponent {
          foundOpponent := true;
        } else if current == Disc(p) {
          if foundOpponent {
            RayClosed(g, p, row, col, dr, dc, k);
          } else {
            RayOpen(g, p, row, col, dr, dc, k);
          }
          return foundOpponent;
        } else {
          RayOpen(g, p, row, col, dr, dc, k);
          return false;
        }
        r, c := r + dr, c + dc;
        k := k + 1;
      }
      RayOpen(g, p, row, col, dr, dc, k);
      return false;
    }

    /** A placement is legal iff the square is empty and some direction flanks. */
    method IsValidMove(p: Player, row: int, col: int) returns (b: bool)
      requires Valid() && InBounds(row, col)
      ensures b <==> Legal(Cells(), p, row, col)
    {
      if grid[row, col] != Empty {
        return false;
      }
      for i := 0 to |Directions|
        invariant forall j :: 0 <= j < i ==> !Flanks(Cells(), p, row, col, Directions[j].0, Directions[j].1)
      {
        DirectionsAreUnits(i);
        var dr, dc := Directions[i].0, Directions[i].1;
        var ok := CheckDirection(row, col, dr, dc, p);
        if ok {
          return true;
        }
      }
      return false;
    }

    /** Turns the run of opponent discs along (dr, dc) into p's discs. It reads
        no bounds: the caller's successful CheckDirection guarantees that the
        run ends at an own disc on the board. */
    method FlipPieces(row: int, col: int, dr: int, dc: int, p: Player)
      requires Valid() && InBounds(row, col) && IsUnit(dr, dc)
      requires Flanks(Cells(), p, row, col, dr, dc)
      modifies grid
      ensures Cells() == Flip(old(Cells()), p, row, col, dr, dc)
    {
      ghost var g := Cells();
      ghost var n := CaptureLength(g, p, row, col, dr, dc);
      FlanksBracketsAtLength(g, p, row, col, dr, dc);
      var opponent := Disc(Other(p));
      var piece := Disc(p);
      var r, c := row + dr, col + dc;
      ghost var k := 1;
      ghost var flipped: set<(int, int)> := {};
      BracketedStep(g, p, row, col, dr, dc, n, k);
      while grid[r, c] == opponent
        invariant 1 <= k <= n + 1
        invariant r == Shift(row, dr, k) && c == Shift(col, dc, k) && InBounds(r, c)
        invariant flipped == RunSquares(row, col, dr, dc, k) && (r, c) !in flipped
        invariant forall x, y {:trigger grid[x, y]} :: InBounds(x, y) ==>
          grid[x, y] == if (x, y) in flipped then piece else g[x][y]
        invariant g[r][c] == if k <= n then opponent else piece
        decreases n + 1 - k
      {
        RunSquaresGrow(row, col, dr, dc, k);
        grid[r, c] := piece;
        flipped := flipped + {(r, c)};
        r, c := r + dr, c + dc;
        k := k + 1;
        BracketedStep(g, p, row, col, dr, dc, n, k);
        RunSquaresGrow(row, col, dr, dc, k);
      }
      PaintedRunIsFlip(g, p, row, col, dr, dc);
    }

    /** A grid holding p's disc on the whole captured run of g, and g's
        squares elsewhere, is Flip(g). */
    lemma PaintedRunIsFlip(g: Grid, p: Player, row: int, col: int, dr: int, dc: int)
      requires Valid() && WellFormed(g) && InBounds(row, col) && IsUnit(dr, dc)
      requires forall x, y {:trigger grid[x, y]} :: InBounds(x, y) ==>
        grid[x, y] == if (x, y) in RunSquares(row, col, dr, dc, CaptureLength(g, p, row, col, dr, dc) + 1)
                      then Disc(p) else g[x][y]
      ensures Cells() == Flip(g, p, row, col, dr, dc)
    {
      FlipFromRun(g, Cells(), p, row, col, dr, dc);
    }

    /** A grid that differs from g only by p's disc on (row, col) is the
        state of a move before any direction is captured. */
    lemma PlacedIsMoveStart(g: Grid, p: Player, row: int, col: int)
      requires Valid() && WellFormed(g) && InBounds(row, col)
      requires forall x, y {:trigger grid[x, y]} :: InBounds(x, y) ==>
        grid[x, y] == if x == row && y == col then Disc(p) else g[x][y]
      ensures Cells() == MoveAfter(g, p, row, col, 0)
    {
      SameGrid(Cells(), MoveAfter(g, p, row, col, 0));
    }

    /** Places p's disc at (row, col), then captures in each of the eight
        directions that flanks. */
    method ApplyMove(p: Player, row: int, col: int)
      requires Valid() && InBounds(row, col)
      modifies grid
      ensures Cells() == Move(old(Cells()), p, row, col)
    {
      ghost var g := Cells();
      grid[row, col] := Disc(p);
      PlacedIsMoveStart(g, p, row, col);
      for i := 0 to |Directions|
        invariant Cells() == MoveAfter(g, p, row, col, i)
      {
        DirectionsAreUnits(i);
        var dr, dc := Directions[i].0, Directions[i].1;
        var ok := CheckDirection(row, col, dr, dc, p);
        MoveAfterNext(g, p, row, col, i);
        if ok {
          FlipPieces(row, col, dr, dc, p);
        }
      }
    }

    /** Scans the whole board for a legal placement. */
    method HasValidMove(p: Player) returns (b: bool)
      requires Valid()
      ensures b <==> HasLegal(Cells(), p)
    {
      for row := 0 to Size
        invariant forall r, c :: 0 <= r < row && 0 <= c < Size ==> !Legal(Cells(), p, r, c)
      {
        for col := 0 to Size
          invariant forall r, c :: ((0 <= r < row && 0 <= c < Size) || (r == row && 0 <= c < col)) ==>
            !Legal(Cells(), p, r, c)
        {
          var ok := IsValidMove(p, row, col);
          if ok {
            return true;
          }
        }
      }
      return false;
    }

    /** The number of squares holding `piece`. */
    function CountPieces(piece: Cell): (n: nat)
      reads this, grid
      requires Valid()
      ensures n == multiset(Flatten(Cells()))[piece]
    {
      CountOfIsMultiplicity(Flatten(Cells()), piece);
      Count(Cells(), piece)
    }

    /** The game is over when neither colour has a legal placement. */
    method GameOver() returns (over: bool)
      requires Valid()
      ensures over <==> GameEnded(Cells())
    {
      var black := HasValidMove(Black);
      if black {
        return false;
      }
      var white := HasValidMove(White);
      return !white;
    }
  }
}
