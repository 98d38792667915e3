/** The rules of Othello on the fixed 8x8 board, stated on immutable values.
    The board engine in engine.dfy is proved against these definitions. */
module Rules {

  /** Side length of the board. */
  const Size: int := 8

  datatype Player = Black | White

  /** A square holds nothing or a disc of one colour. */
  datatype Cell = Empty | Disc(owner: Player)

  function Other(p: Player): (q: Player)
    ensures q != p
  {
    if p == Black then White else Black
  }

  /** The grid, row-major: g[row][col]. */
  type Grid = seq<seq<Cell>>

  predicate WellFormed(g: Grid) {
    |g| == Size && forall r :: 0 <= r < Size ==> |g[r]| == Size
  }

  predicate InBounds(r: int, c: int) {
    0 <= r < Size && 0 <= c < Size
  }

  /** The eight compass directions, in the order the engine tries them. */
  const Directions: seq<(int, int)> :=
    [(-1, 0), (1, 0), (0, -1), (0, 1), (-1, -1), (-1, 1), (1, -1), (1, 1)]

  /** A step of at most one square along each axis, and not standing still. */
  predicate IsUnit(dr: int, dc: int) {
    -1 <= dr <= 1 && -1 <= dc <= 1 && !(dr == 0 && dc == 0)
  }

  lemma DirectionsAreUnits(i: int)
    requires 0 <= i < |Directions|
    ensures IsUnit(Directions[i].0, Directions[i].1)
    ensures forall j :: 0 <= j < |Directions| && Directions[j] == Directions[i] ==> j == i
  {
    if i == 0 {} else if i == 1 {} else if i == 2 {} else if i == 3 {}
    else if i == 4 {} else if i == 5 {} else if i == 6 {} else {}
  }

  /** Every unit step is one of the eight directions. */
  lemma {:induction false} UnitIsDirection(dr: int, dc: int)
    requires IsUnit(dr, dc)
    ensures (dr, dc) in Directions
  {
    if dr == -1 && dc == 0 { assert Directions[0] == (dr, dc); }
    else if dr == 1 && dc == 0 { assert Directions[1] == (dr, dc); }
    else if dr == 0 && dc == -1 { assert Directions[2] == (dr, dc); }
    else if dr == 0 && dc == 1 { assert Directions[3] == (dr, dc); }
    else if dr == -1 && dc == -1 { assert Directions[4] == (dr, dc); }
    else if dr == -1 && dc == 1 { assert Directions[5] == (dr, dc); }
    else if dr == 1 && dc == -1 { assert Directions[6] == (dr, dc); }
    else { assert Directions[7] == (dr, dc); }
  }

  /** The coordinate reached from x after k unit steps of delta d,
      that is x + k * d for d in {-1, 0, 1}, written without a product. */
  function Shift(x: int, d: int, k: int): int {
    if d < 0 then x - k else if d > 0 then x + k else x
  }

  function CellAt(g: Grid, r: int, c: int): Option<Cell>
    requires WellFormed(g)
  {
    if InBounds(r, c) then Some(g[r][c]) else None
  }

  datatype Option<T> = None | Some(value: T)

  /** What lies k steps from (row, col) along (dr, dc): a cell, or None off the board. */
  function Probe(g: Grid, row: int, col: int, dr: int, dc: int, k: int): Option<Cell>
    requires WellFormed(g)
  {
    CellAt(g, Shift(row, dr, k), Shift(col, dc, k))
  }

  /** Steps 1..k from (row, col) all hold an opponent disc. */
  ghost predicate OpponentRun(g: Grid, p: Player, row: int, col: int, dr: int, dc: int, k: int)
    requires WellFormed(g)
  {
    forall j :: 1 <= j <= k ==> Probe(g, row, col, dr, dc, j) == Some(Disc(Other(p)))
  }

  /** Exactly k >= 1 opponent discs, then one of p's own discs, all on the board. */
  ghost predicate Brackets(g: Grid, p: Player, row: int, col: int, dr: int, dc: int, k: int)
    requires WellFormed(g)
  {
    k >= 1 && OpponentRun(g, p, row, col, dr, dc, k) && Probe(g, row, col, dr, dc, k + 1) == Some(Disc(p))
  }

  /** Placing at (row, col), p flanks an opponent run in direction (dr, dc). */
  ghost predicate Flanks(g: Grid, p: Player, row: int, col: int, dr: int, dc: int)
    requires WellFormed(g)
  {
    exists k :: Brackets(g, p, row, col, dr, dc, k)
  }

  /** A legal placement: an empty square that flanks in at least one direction. */
  ghost predicate Legal(g: Grid, p: Player, row: int, col: int)
    requires WellFormed(g) && InBounds(row, col)
  {
    g[row][col] == Empty &&
    exists i :: 0 <= i < |Directions| && Flanks(g, p, row, col, Directions[i].0, Directions[i].1)
  }

  ghost predicate HasLegal(g: Grid, p: Player)
    requires WellFormed(g)
  {
    exists r, c :: InBounds(r, c) && Legal(g, p, r, c)
  }

  /** Neither side can place a disc. */
  ghost predicate GameEnded(g: Grid)
    requires WellFormed(g)
  {
    !HasLegal(g, Black) && !HasLegal(g, White)
  }

  // ---------------------------------------------------------------------------
  // Rays

  /** From an on-board square, a unit ray is on the board only for steps 0..7. */
  lemma OnBoardStepIsShort(row: int, col: int, dr: int, dc: int, k: int)
    requires InBounds(row, col) && IsUnit(dr, dc) && k >= 0
    requires InBounds(Shift(row, dr, k), Shift(col, dc, k))
    ensures k < Size
  {
  }

  /** Number of consecutive opponent discs starting j steps out.
      The run stops at the first square that is not an opponent disc. */
  function RunFrom(g: Grid, p: Player, row: int, col: int, dr: int, dc: int, j: int): nat
    requires WellFormed(g) && InBounds(row, col) && IsUnit(dr, dc) && j >= 1
    decreases Size - j
  {
    if Probe(g, row, col, dr, dc, j) != Some(Disc(Other(p))) then 0
    else
      OnBoardStepIsShort(row, col, dr, dc, j);
      1 + RunFrom(g, p, row, col, dr, dc, j + 1)
  }

  /** The shared primitive of placement and capture: the length of the run of
      opponent discs captured in this direction, or 0 if none is captured. */
  function CaptureLength(g: Grid, p: Player, row: int, col: int, dr: int, dc: int): nat
    requires WellFormed(g) && InBounds(row, col) && IsUnit(dr, dc)
  {
    var n := RunFrom(g, p, row, col, dr, dc, 1);
    if n >= 1 && Probe(g, row, col, dr, dc, n + 1) == Some(Disc(p)) then n else 0
  }

  lemma {:induction false} RunFromSpan(g: Grid, p: Player, row: int, col: int, dr: int, dc: int, j: int)
    requires WellFormed(g) && InBounds(row, col) && IsUnit(dr, dc) && j >= 1
    ensures forall i :: j <= i < j + RunFrom(g, p, row, col, dr, dc, j) ==>
              Probe(g, row, col, dr, dc, i) == Some(Disc(Other(p)))
    ensures Probe(g, row, col, dr, dc, j + RunFrom(g, p, row, col, dr, dc, j)) != Some(Disc(Other(p)))
    decreases Size - j
  {
    if Probe(g, row, col, dr, dc, j) == Some(Disc(Other(p))) {
      OnBoardStepIsShort(row, col, dr, dc, j);
      RunFromSpan(g, p, row, col, dr, dc, j + 1);
    }
  }

  /** The computed capture length agrees with the bracketing characterisation:
      it is positive exactly when some run is bracketed, and it is that run's length. */
  lemma CaptureLengthBrackets(g: Grid, p: Player, row: int, col: int, dr: int, dc: int)
    requires WellFormed(g) && InBounds(row, col) && IsUnit(dr, dc)
    ensures CaptureLength(g, p, row, col, dr, dc) > 0 <==> Flanks(g, p, row, col, dr, dc)
    ensures forall k :: Brackets(g, p, row, col, dr, dc, k) ==> k == CaptureLength(g, p, row, col, dr, dc)
  {
    var n := RunFrom(g, p, row, col, dr, dc, 1);
    RunFromSpan(g, p, row, col, dr, dc, 1);
    forall k | Brackets(g, p, row, col, dr, dc, k)
      ensures k == CaptureLength(g, p, row, col, dr, dc)
    {
      assert Probe(g, row, col, dr, dc, k + 1) == Some(Disc(p));
      assert OpponentRun(g, p, row, col, dr, dc, k);
    }
    if n >= 1 && Probe(g, row, col, dr, dc, n + 1) == Some(Disc(p)) {
      assert Brackets(g, p, row, col, dr, dc, n);
    }
  }

  /** If steps 1..m-1 are opponent discs and step m is an own disc with m >= 2,
      the run is bracketed. */
  lemma RayClosed(g: Grid, p: Player, row: int, col: int, dr: int, dc: int, m: int)
    requires WellFormed(g) && m >= 2
    requires OpponentRun(g, p, row, col, dr, dc, m - 1)
    requires Probe(g, row, col, dr, dc, m) == Some(Disc(p))
    ensures Flanks(g, p, row, col, dr, dc)
  {
    assert Brackets(g, p, row, col, dr, dc, m - 1);
  }

  /** If steps 1..m-1 are opponent discs and step m is neither an opponent disc
      nor (unless m == 1) an own disc, nothing is bracketed. */
  lemma RayOpen(g: Grid, p: Player, row: int, col: int, dr: int, dc: int, m: int)
    requires WellFormed(g) && m >= 1
    requires OpponentRun(g, p, row, col, dr, dc, m - 1)
    requires Probe(g, row, col, dr, dc, m) != Some(Disc(Other(p)))
    requires m == 1 || Probe(g, row, col, dr, dc, m) != Some(Disc(p))
    ensures !Flanks(g, p, row, col, dr, dc)
  {
    forall k | k >= 1 && OpponentRun(g, p, row, col, dr, dc, k)
      ensures Probe(g, row, col, dr, dc, k + 1) != Some(Disc(p))
    {
      assert k < m;
    }
  }

  /** Two grids that agree along a ray give the same answers about that ray. */
  lemma {:induction false} RunFromFrame(g: Grid, h: Grid, p: Player, row: int, col: int, dr: int, dc: int, j: int)
    requires WellFormed(g) && WellFormed(h) && InBounds(row, col) && IsUnit(dr, dc) && j >= 1
    requires forall i :: i >= j ==> Probe(g, row, col, dr, dc, i) == Probe(h, row, col, dr, dc, i)
    ensures RunFrom(g, p, row, col, dr, dc, j) == RunFrom(h, p, row, col, dr, dc, j)
    decreases Size - j
  {
    if Probe(g, row, col, dr, dc, j) == Some(Disc(Other(p))) {
      OnBoardStepIsShort(row, col, dr, dc, j);
      RunFromFrame(g, h, p, row, col, dr, dc, j + 1);
    }
  }

  lemma RayFrame(g: Grid, h: Grid, p: Player, row: int, col: int, dr: int, dc: int)
    requires WellFormed(g) && WellFormed(h) && InBounds(row, col) && IsUnit(dr, dc)
    requires forall i :: i >= 1 ==> Probe(g, row, col, dr, dc, i) == Probe(h, row, col, dr, dc, i)
    ensures CaptureLength(g, p, row, col, dr, dc) == CaptureLength(h, p, row, col, dr, dc)
    ensures Flanks(g, p, row, col, dr, dc) <==> Flanks(h, p, row, col, dr, dc)
  {
    RunFromFrame(g, h, p, row, col, dr, dc, 1);
    CaptureLengthBrackets(g, p, row, col, dr, dc);
    CaptureLengthBrackets(h, p, row, col, dr, dc);
  }

  /** Which step of the ray from (row, col) along (dr, dc) would reach (r, c). */
  function StepIndex(row: int, col: int, dr: int, dc: int, r: int, c: int): int {
    if dr > 0 then r - row
    else if dr < 0 then row - r
    else if dc > 0 then c - col
    else col - c
  }

  /** (r, c) lies on the ray, one or more steps out from (row, col). */
  predicate OnRay(row: int, col: int, dr: int, dc: int, r: int, c: int) {
    var j := StepIndex(row, col, dr, dc, r, c);
    j >= 1 && r == Shift(row, dr, j) && c == Shift(col, dc, j)
  }

  lemma StepIndexOfShift(row: int, col: int, dr: int, dc: int, j: int)
    requires IsUnit(dr, dc)
    ensures StepIndex(row, col, dr, dc, Shift(row, dr, j), Shift(col, dc, j)) == j
  {
  }

  /** The eight rays from one square share no square. */
  lemma RaysDisjoint(row: int, col: int, dr: int, dc: int, er: int, ec: int, r: int, c: int)
    requires IsUnit(dr, dc) && IsUnit(er, ec)
    requires OnRay(row, col, dr, dc, r, c) && OnRay(row, col, er, ec, r, c)
    ensures dr == er && dc == ec
  {
  }

  /** Two well-formed grids that agree on every square are equal. */
  lemma SameGrid(g: Grid, h: Grid)
    requires WellFormed(g) && WellFormed(h)
    requires forall r, c :: InBounds(r, c) ==> g[r][c] == h[r][c]
    ensures g == h
  {
    forall r | 0 <= r < Size ensures g[r] == h[r] {
      assert forall c :: 0 <= c < Size ==> g[r][c] == h[r][c];
    }
  }

  // ---------------------------------------------------------------------------
  // The effect of a move

  /** (r, c) is captured along (dr, dc): it lies within the captured run. */
  predicate Captures(g: Grid, p: Player, row: int, col: int, dr: int, dc: int, r: int, c: int)
    requires WellFormed(g) && InBounds(row, col) && IsUnit(dr, dc)
  {
    OnRay(row, col, dr, dc, r, c) &&
    StepIndex(row, col, dr, dc, r, c) <= CaptureLength(g, p, row, col, dr, dc)
  }

  /** (r, c) is captured along one of the first n directions. */
  predicate CapturedWithin(g: Grid, p: Player, row: int, col: int, n: int, r: int, c: int)
    requires WellFormed(g) && InBounds(row, col) && 0 <= n <= |Directions|
  {
    exists i :: 0 <= i < n && DirCaptures(g, p, row, col, i, r, c)
  }

  predicate DirCaptures(g: Grid, p: Player, row: int, col: int, i: int, r: int, c: int)
    requires WellFormed(g) && InBounds(row, col) && 0 <= i < |Directions|
  {
    DirectionsAreUnits(i);
    Captures(g, p, row, col, Directions[i].0, Directions[i].1, r, c)
  }

  /** The rays are disjoint: a square on the ray of direction i is neither the
      target nor captured along any direction tried before i. */
  lemma EarlierDirectionsMissRay(g: Grid, p: Player, row: int, col: int, i: int, x: int, y: int)
    requires WellFormed(g) && InBounds(row, col) && 0 <= i < |Directions|
    requires IsUnit(Directions[i].0, Directions[i].1)
    requires OnRay(row, col, Directions[i].0, Directions[i].1, x, y)
    ensures !(x == row && y == col)
    ensures !CapturedWithin(g, p, row, col, i, x, y)
  {
    DirectionsAreUnits(i);
    forall j | 0 <= j < i ensures !DirCaptures(g, p, row, col, j, x, y) {
      DirectionsAreUnits(j);
      if DirCaptures(g, p, row, col, j, x, y) {
        RaysDisjoint(row, col, Directions[i].0, Directions[i].1, Directions[j].0, Directions[j].1, x, y);
      }
    }
  }

  /** The board after p places at (row, col) and captures along the first n
      directions: the target and every square captured so far hold p's disc,
      every other square is as before. */
  function MoveAfter(g: Grid, p: Player, row: int, col: int, n: int): (h: Grid)
    requires WellFormed(g) && InBounds(row, col) && 0 <= n <= |Directions|
    ensures WellFormed(h)
  {
    seq(Size, r requires 0 <= r < Size =>
      seq(Size, c requires 0 <= c < Size =>
        if (r == row && c == col) || CapturedWithin(g, p, row, col, n, r, c) then Disc(p)
        else g[r][c]))
  }

  /** The board after p places at (row, col), all eight directions captured. */
  function Move(g: Grid, p: Player, row: int, col: int): (h: Grid)
    requires WellFormed(g) && InBounds(row, col)
    ensures WellFormed(h)
  {
    MoveAfter(g, p, row, col, |Directions|)
  }

  /** Capturing along direction i on the partly updated board does exactly what
      capturing along i on the original board does: the earlier directions and
      the target never touch ray i, so it is checked and flipped as before. */
  lemma MoveAfterStep(g: Grid, p: Player, row: int, col: int, i: int)
    requires WellFormed(g) && InBounds(row, col) && 0 <= i < |Directions|
    requires IsUnit(Directions[i].0, Directions[i].1)
    ensures forall x, y :: InBounds(x, y) ==>
      MoveAfter(g, p, row, col, i + 1)[x][y] ==
        if Captures(MoveAfter(g, p, row, col, i), p, row, col, Directions[i].0, Directions[i].1, x, y)
        then Disc(p) else MoveAfter(g, p, row, col, i)[x][y]
  {
    var (dr, dc) := Directions[i];
    var h := MoveAfter(g, p, row, col, i);
    forall j | j >= 1 ensures Probe(h, row, col, dr, dc, j) == Probe(g, row, col, dr, dc, j) {
      var x, y := Shift(row, dr, j), Shift(col, dc, j);
      if InBounds(x, y) {
        StepIndexOfShift(row, col, dr, dc, j);
        EarlierDirectionsMissRay(g, p, row, col, i, x, y);
      }
    }
    RayFrame(h, g, p, row, col, dr, dc);
    forall x, y | InBounds(x, y)
      ensures MoveAfter(g, p, row, col, i + 1)[x][y] ==
        if Captures(h, p, row, col, dr, dc, x, y) then Disc(p) else h[x][y]
    {
      assert Captures(h, p, row, col, dr, dc, x, y) == DirCaptures(g, p, row, col, i, x, y);
      if DirCaptures(g, p, row, col, i, x, y) {
        assert CapturedWithin(g, p, row, col, i + 1, x, y);
      } else {
        assert CapturedWithin(g, p, row, col, i + 1, x, y) == CapturedWithin(g, p, row, col, i, x, y);
      }
    }
  }

  /** The board with the run captured along (dr, dc) turned to p. */
  function Flip(g: Grid, p: Player, row: int, col: int, dr: int, dc: int): (h: Grid)
    requires WellFormed(g) && InBounds(row, col) && IsUnit(dr, dc)
    ensures WellFormed(h)
  {
    seq(Size, r requires 0 <= r < Size =>
      seq(Size, c requires 0 <= c < Size =>
        if Captures(g, p, row, col, dr, dc, r, c) then Disc(p) else g[r][c]))
  }

  /** Checking direction i on MoveAfter(i), and flipping it when it flanks,
      yields MoveAfter(i + 1). */
  lemma MoveAfterNext(g: Grid, p: Player, row: int, col: int, i: int)
    requires WellFormed(g) && InBounds(row, col) && 0 <= i < |Directions|
    requires IsUnit(Directions[i].0, Directions[i].1)
    ensures MoveAfter(g, p, row, col, i + 1) ==
      var h := MoveAfter(g, p, row, col, i);
      if Flanks(h, p, row, col, Directions[i].0, Directions[i].1)
      then Flip(h, p, row, col, Directions[i].0, Directions[i].1) else h
  {
    var h := MoveAfter(g, p, row, col, i);
    CaptureLengthBrackets(h, p, row, col, Directions[i].0, Directions[i].1);
    MoveAfterStep(g, p, row, col, i);
    if Flanks(h, p, row, col, Directions[i].0, Directions[i].1) {
      SameGrid(MoveAfter(g, p, row, col, i + 1), Flip(h, p, row, col, Directions[i].0, Directions[i].1));
    } else {
      SameGrid(MoveAfter(g, p, row, col, i + 1), h);
    }
  }

  /** The squares at steps 1..k-1 of a ray. */
  function RunSquares(row: int, col: int, dr: int, dc: int, k: int): set<(int, int)> {
    set j | 1 <= j < k :: (Shift(row, dr, j), Shift(col, dc, j))
  }

  /** Extending a ray by its k-th square adds exactly that square, which is new. */
  lemma RunSquaresGrow(row: int, col: int, dr: int, dc: int, k: int)
    requires IsUnit(dr, dc) && k >= 1
    ensures (Shift(row, dr, k), Shift(col, dc, k)) !in RunSquares(row, col, dr, dc, k)
    ensures RunSquares(row, col, dr, dc, k + 1) ==
      RunSquares(row, col, dr, dc, k) + {(Shift(row, dr, k), Shift(col, dc, k))}
  {
  }

  /** The squares of a bracketed run are exactly the captured squares. */
  lemma RunSquaresCaptured(g: Grid, p: Player, row: int, col: int, dr: int, dc: int)
    requires WellFormed(g) && InBounds(row, col) && IsUnit(dr, dc)
    ensures forall x, y :: (x, y) in RunSquares(row, col, dr, dc, CaptureLength(g, p, row, col, dr, dc) + 1) <==>
      Captures(g, p, row, col, dr, dc, x, y)
  {
    var n := CaptureLength(g, p, row, col, dr, dc);
    forall x, y ensures (x, y) in RunSquares(row, col, dr, dc, n + 1) <==> Captures(g, p, row, col, dr, dc, x, y) {
      if (x, y) in RunSquares(row, col, dr, dc, n + 1) {
        var j :| 1 <= j < n + 1 && (x, y) == (Shift(row, dr, j), Shift(col, dc, j));
        StepIndexOfShift(row, col, dr, dc, j);
      }
      if Captures(g, p, row, col, dr, dc, x, y) {
        var j := StepIndex(row, col, dr, dc, x, y);
        assert (x, y) == (Shift(row, dr, j), Shift(col, dc, j));
      }
    }
  }

  /** A board holding p's disc on the squares of the captured run, and g's
      squares elsewhere, is Flip(g). */
  lemma FlipFromRun(g: Grid, h: Grid, p: Player, row: int, col: int, dr: int, dc: int)
    requires WellFormed(g) && WellFormed(h) && InBounds(row, col) && IsUnit(dr, dc)
    requires forall x, y :: InBounds(x, y) ==>
      h[x][y] == if (x, y) in RunSquares(row, col, dr, dc, CaptureLength(g, p, row, col, dr, dc) + 1)
                 then Disc(p) else g[x][y]
    ensures h == Flip(g, p, row, col, dr, dc)
  {
    RunSquaresCaptured(g, p, row, col, dr, dc);
    SameGrid(h, Flip(g, p, row, col, dr, dc));
  }

  /** A flanking direction is bracketed at exactly its capture length. */
  lemma FlanksBracketsAtLength(g: Grid, p: Player, row: int, col: int, dr: int, dc: int)
    requires WellFormed(g) && InBounds(row, col) && IsUnit(dr, dc)
    requires Flanks(g, p, row, col, dr, dc)
    ensures Brackets(g, p, row, col, dr, dc, CaptureLength(g, p, row, col, dr, dc))
  {
    CaptureLengthBrackets(g, p, row, col, dr, dc);
  }

  /** Along a run bracketed at length n, steps 1..n hold opponent discs and
      step n + 1 holds an own disc, all on the board. */
  lemma BracketedStep(g: Grid, p: Player, row: int, col: int, dr: int, dc: int, n: int, k: int)
    requires WellFormed(g) && Brackets(g, p, row, col, dr, dc, n) && 1 <= k <= n + 1
    ensures InBounds(Shift(row, dr, k), Shift(col, dc, k))
    ensures g[Shift(row, dr, k)][Shift(col, dc, k)] == if k <= n then Disc(Other(p)) else Disc(p)
  {
    if k <= n {
      assert Probe(g, row, col, dr, dc, k) == Some(Disc(Other(p)));
    }
  }

  /** A square is captured along a direction exactly when that direction
      flanks and every square from the target up to it is an opponent disc. */
  lemma CapturesExactly(g: Grid, p: Player, row: int, col: int, dr: int, dc: int, r: int, c: int)
    requires WellFormed(g) && InBounds(row, col) && IsUnit(dr, dc)
    ensures Captures(g, p, row, col, dr, dc, r, c) <==>
      Flanks(g, p, row, col, dr, dc) && OnRay(row, col, dr, dc, r, c) &&
      OpponentRun(g, p, row, col, dr, dc, StepIndex(row, col, dr, dc, r, c))
  {
    var n := CaptureLength(g, p, row, col, dr, dc);
    var j := StepIndex(row, col, dr, dc, r, c);
    CaptureLengthBrackets(g, p, row, col, dr, dc);
    if Flanks(g, p, row, col, dr, dc) && OnRay(row, col, dr, dc, r, c) && OpponentRun(g, p, row, col, dr, dc, j) {
      assert Brackets(g, p, row, col, dr, dc, n);
      assert j <= n;
    }
  }

  /** Every captured square was an opponent disc. */
  lemma CapturedWasOpponent(g: Grid, p: Player, row: int, col: int, r: int, c: int)
    requires WellFormed(g) && InBounds(row, col)
    requires CapturedWithin(g, p, row, col, |Directions|, r, c)
    ensures InBounds(r, c) && g[r][c] == Disc(Other(p))
  {
    var i :| 0 <= i < |Directions| && DirCaptures(g, p, row, col, i, r, c);
    DirectionsAreUnits(i);
    var (dr, dc) := Directions[i];
    var j := StepIndex(row, col, dr, dc, r, c);
    CapturesExactly(g, p, row, col, dr, dc, r, c);
    assert Probe(g, row, col, dr, dc, j) == Some(Disc(Other(p)));
  }

  /** The exact effect of a legal move, square by square: the target turns
      to p, captured opponent discs turn to p, nothing else changes, and in
      particular no occupied square becomes empty. */
  lemma MoveEffect(g: Grid, p: Player, row: int, col: int, r: int, c: int)
    requires WellFormed(g) && InBounds(row, col) && InBounds(r, c)
    requires Legal(g, p, row, col)
    ensures Move(g, p, row, col)[row][col] == Disc(p)
    ensures Move(g, p, row, col)[r][c] != g[r][c] ==>
      (r == row && c == col && g[r][c] == Empty) || g[r][c] == Disc(Other(p))
    ensures g[r][c] != Empty ==> Move(g, p, row, col)[r][c] != Empty
  {
    if !(r == row && c == col) && CapturedWithin(g, p, row, col, |Directions|, r, c) {
      CapturedWasOpponent(g, p, row, col, r, c);
    }
  }

  // ---------------------------------------------------------------------------
  // Counting

  /** The board read row by row as one sequence of 64 squares. */
  function Flatten(g: Grid): (s: seq<Cell>)
    requires WellFormed(g)
    ensures |s| == Size * Size
  {
    seq(Size * Size, k requires 0 <= k < Size * Size => g[k / Size][k % Size])
  }

  /** How many elements of s equal x: a filter followed by a count. */
  function CountOf(s: seq<Cell>, x: Cell): nat {
    if s == [] then 0 else (if s[0] == x then 1 else 0) + CountOf(s[1..], x)
  }

  function Count(g: Grid, x: Cell): nat
    requires WellFormed(g)
  {
    CountOf(Flatten(g), x)
  }

  lemma {:induction false} CountOfIsMultiplicity(s: seq<Cell>, x: Cell)
    ensures CountOf(s, x) == multiset(s)[x]
  {
    if s != [] {
      CountOfIsMultiplicity(s[1..], x);
      assert s == [s[0]] + s[1..];
    }
  }

  lemma {:induction false} CountOfPartition(s: seq<Cell>)
    ensures CountOf(s, Empty) + CountOf(s, Disc(Black)) + CountOf(s, Disc(White)) == |s|
  {
    if s != [] {
      CountOfPartition(s[1..]);
      assert s[0] == Empty || s[0] == Disc(Black) || s[0] == Disc(White) by {
        if s[0].Disc? { assert s[0].owner == Black || s[0].owner == White; }
      }
    }
  }

  /** Every square is empty, black or white: the three counts add up to 64. */
  lemma CountsAddUp(g: Grid)
    requires WellFormed(g)
    ensures Count(g, Empty) + Count(g, Disc(Black)) + Count(g, Disc(White)) == Size * Size
  {
    CountOfPartition(Flatten(g));
  }

  /** Replacing one square changes the count of x by what left and what came in. */
  lemma {:induction false} CountOfUpdate(s: seq<Cell>, k: int, v: Cell, x: Cell)
    requires 0 <= k < |s|
    ensures CountOf(s[k := v], x) ==
      CountOf(s, x) - (if s[k] == x then 1 else 0) + (if v == x then 1 else 0)
  {
    if k > 0 {
      CountOfUpdate(s[1..], k - 1, v, x);
      assert s[k := v][1..] == s[1..][k - 1 := v];
    }
  }

  /** When t agrees with s about being x except at k, where s has x and t does not,
      t counts one x fewer. */
  lemma {:induction false} CountOfLoseOne(s: seq<Cell>, t: seq<Cell>, k: int, x: Cell)
    requires |s| == |t| && 0 <= k < |s|
    requires forall i :: 0 <= i < |s| && i != k ==> (s[i] == x <==> t[i] == x)
    requires s[k] == x && t[k] != x
    ensures CountOf(t, x) == CountOf(s, x) - 1
  {
    if k > 0 {
      CountOfLoseOne(s[1..], t[1..], k - 1, x);
    } else {
      CountOfSame(s[1..], t[1..], x);
    }
  }

  lemma {:induction false} CountOfSame(s: seq<Cell>, t: seq<Cell>, x: Cell)
    requires |s| == |t|
    requires forall i :: 0 <= i < |s| ==> (s[i] == x <==> t[i] == x)
    ensures CountOf(t, x) == CountOf(s, x)
  {
    if s != [] {
      CountOfSame(s[1..], t[1..], x);
    }
  }

  /** A legal move fills exactly one empty square. */
  lemma MoveFillsOneSquare(g: Grid, p: Player, row: int, col: int)
    requires WellFormed(g) && InBounds(row, col)
    requires Legal(g, p, row, col)
    ensures Count(Move(g, p, row, col), Empty) == Count(g, Empty) - 1
  {
    var h := Move(g, p, row, col);
    var s, t := Flatten(g), Flatten(h);
    forall i | 0 <= i < |s| && i != row * Size + col
      ensures s[i] == Empty <==> t[i] == Empty
    {
      MoveEffect(g, p, row, col, i / Size, i % Size);
    }
    CountOfLoseOne(s, t, row * Size + col, Empty);
  }

  // ---------------------------------------------------------------------------
  // The starting position

  /** Place v at (r, c). */
  function Set(g: Grid, r: int, c: int, v: Cell): (h: Grid)
    requires WellFormed(g) && InBounds(r, c)
    ensures WellFormed(h)
  {
    g[r := g[r][c := v]]
  }

  function Blank(): (g: Grid)
    ensures WellFormed(g)
  {
    seq(Size, _ => seq(Size, _ => Empty))
  }

  /** The empty board with the two diagonal pairs in the centre. */
  function Start(): (g: Grid)
    ensures WellFormed(g)
  {
    Set(Set(Set(Set(Blank(), 3, 3, Disc(White)), 3, 4, Disc(Black)), 4, 3, Disc(Black)), 4, 4, Disc(White))
  }

  lemma CountSet(g: Grid, r: int, c: int, v: Cell, x: Cell)
    requires WellFormed(g) && InBounds(r, c)
    ensures Count(Set(g, r, c, v), x) ==
      Count(g, x) - (if g[r][c] == x then 1 else 0) + (if v == x then 1 else 0)
  {
    var k := r * Size + c;
    assert Flatten(Set(g, r, c, v)) == Flatten(g)[k := v];
    CountOfUpdate(Flatten(g), k, v, x);
  }

  lemma {:induction false} CountOfConstant(n: nat, x: Cell, y: Cell)
    ensures CountOf(seq(n, _ => y), x) == if x == y then n else 0
  {
    if n > 0 {
      assert seq(n, _ => y)[1..] == seq(n - 1, _ => y);
      CountOfConstant(n - 1, x, y);
    }
  }

  lemma CountBlank(x: Cell)
    ensures Count(Blank(), x) == if x == Empty then Size * Size else 0
  {
    assert Flatten(Blank()) == seq(Size * Size, _ => Empty);
    CountOfConstant(Size * Size, x, Empty);
  }

  /** The starting position holds two discs of each colour and 60 empty squares. */
  lemma StartCounts()
    ensures Count(Start(), Empty) == 60
    ensures Count(Start(), Disc(Black)) == 2 && Count(Start(), Disc(White)) == 2
  {
    var g0 := Blank();
    var g1 := Set(g0, 3, 3, Disc(White));
    var g2 := Set(g1, 3, 4, Disc(Black));
    var g3 := Set(g2, 4, 3, Disc(Black));
    assert g0[3][3] == g1[3][4] == g2[4][3] == g3[4][4] == Empty;
    var xs := [Empty, Disc(Black), Disc(White)];
    forall i | 0 <= i < 3 ensures Count(Start(), xs[i]) == [60, 2, 2][i] {
      var x := xs[i];
      CountBlank(x);
      CountSet(g0, 3, 3, Disc(White), x);
      CountSet(g1, 3, 4, Disc(Black), x);
      CountSet(g2, 4, 3, Disc(Black), x);
      CountSet(g3, 4, 4, Disc(White), x);
    }
    assert Count(Start(), xs[0]) == 60 && Count(Start(), xs[1]) == 2 && Count(Start(), xs[2]) == 2;
  }

  /** From the starting position, Black at (2, 3) captures one disc going
      down the column and nothing in the seven other directions. */
  lemma OpeningCaptureLengths()
    ensures CaptureLength(Start(), Black, 2, 3, -1, 0) == 0
    ensures CaptureLength(Start(), Black, 2, 3, 1, 0) == 1
    ensures CaptureLength(Start(), Black, 2, 3, 0, -1) == 0
    ensures CaptureLength(Start(), Black, 2, 3, 0, 1) == 0
    ensures CaptureLength(Start(), Black, 2, 3, -1, -1) == 0
    ensures CaptureLength(Start(), Black, 2, 3, -1, 1) == 0
    ensures CaptureLength(Start(), Black, 2, 3, 1, -1) == 0
    ensures CaptureLength(Start(), Black, 2, 3, 1, 1) == 0
  {
    var g := Start();
    assert g[1][3] == g[2][2] == g[2][4] == g[1][2] == g[1][4] == g[3][2] == Empty;
    assert g[3][3] == Disc(White) && g[4][3] == Disc(Black) && g[3][4] == Disc(Black);
    assert RunFrom(g, Black, 2, 3, 1, 0, 2) == 0;
  }

  /** Black's opening move at (2, 3) is legal. */
  lemma OpeningIsLegal()
    ensures Legal(Start(), Black, 2, 3)
  {
    var g := Start();
    assert g[2][3] == Empty;
    assert Directions[1] == (1, 0);
    assert Probe(g, 2, 3, 1, 0, 1) == Some(Disc(White));
    assert Probe(g, 2, 3, 1, 0, 2) == Some(Disc(Black));
    assert Brackets(g, Black, 2, 3, 1, 0, 1);
  }

  /** The only square Black's opening move at (2, 3) captures is (3, 3). */
  lemma OpeningCapturedSquare(x: int, y: int)
    ensures CapturedWithin(Start(), Black, 2, 3, |Directions|, x, y) <==> x == 3 && y == 3
  {
    var g := Start();
    OpeningCaptureLengths();
    if CapturedWithin(g, Black, 2, 3, |Directions|, x, y) {
      var i :| 0 <= i < |Directions| && DirCaptures(g, Black, 2, 3, i, x, y);
      DirectionsAreUnits(i);
      assert CaptureLength(g, Black, 2, 3, Directions[i].0, Directions[i].1) > 0;
      assert i == 1;
    }
    if x == 3 && y == 3 {
      assert DirCaptures(g, Black, 2, 3, 1, x, y);
    }
  }

  /** Black's opening move at (2, 3) places the disc and turns exactly the
      white disc at (3, 3). */
  lemma OpeningMove()
    ensures Move(Start(), Black, 2, 3) == Set(Set(Start(), 2, 3, Disc(Black)), 3, 3, Disc(Black))
  {
    var g := Start();
    var h := Set(Set(g, 2, 3, Disc(Black)), 3, 3, Disc(Black));
    forall x, y | InBounds(x, y) ensures Move(g, Black, 2, 3)[x][y] == h[x][y] {
      OpeningCapturedSquare(x, y);
    }
    SameGrid(Move(g, Black, 2, 3), h);
  }

  /** After Black's opening move there are four black discs, one white disc
      and 59 empty squares. */
  lemma OpeningCounts()
    ensures Count(Move(Start(), Black, 2, 3), Disc(Black)) == 4
    ensures Count(Move(Start(), Black, 2, 3), Disc(White)) == 1
    ensures Count(Move(Start(), Black, 2, 3), Empty) == 59
  {
    var g := Start();
    var g1 := Set(g, 2, 3, Disc(Black));
    OpeningMove();
    StartCounts();
    assert g[2][3] == Empty && g1[3][3] == Disc(White);
    CountSet(g, 2, 3, Disc(Black), Disc(Black));
    CountSet(g1, 3, 3, Disc(Black), Disc(Black));
    CountSet(g, 2, 3, Disc(Black), Disc(White));
    CountSet(g1, 3, 3, Disc(Black), Disc(White));
    CountSet(g, 2, 3, Disc(Black), Empty);
    CountSet(g1, 3, 3, Disc(Black), Empty);
  }

  // ---------------------------------------------------------------------------
  // The final verdict

  datatype Outcome = BlackWins(margin: nat) | WhiteWins(margin: nat) | Draw

  /** The winner of a finished game and the margin, from the two disc counts. */
  function Verdict(black: nat, white: nat): (o: Outcome)
    ensures o == Draw <==> black == white
    ensures o.BlackWins? ==> o.margin > 0 && black == white + o.margin
    ensures o.WhiteWins? ==> o.margin > 0 && white == black + o.margin
  {
    if black > white then BlackWins(black - white)
    else if white > black then WhiteWins(white - black)
    else Draw
  }

  function Swapped(o: Outcome): Outcome {
    match o
    case BlackWins(m) => WhiteWins(m)
    case WhiteWins(m) => BlackWins(m)
    case Draw => Draw
  }

  /** Exchanging the two counts exchanges the winner and keeps the margin. */
  lemma VerdictSymmetric(black: nat, white: nat)
    ensures Verdict(white, black) == Swapped(Verdict(black, white))
  {
  }
}
