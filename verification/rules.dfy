/**
 * The board's state and `drop_disc` as a pure state transition: the ordered
 * rejections, gravity placement, and the win-then-draw lock decision. The
 * board class in `BoardEngine` is proved to make exactly this transition; the
 * lemmas here state what the transition guarantees.
 */
module Rules {
  import opened Wrappers
  import opened Grid
  import opened Streaks

  /** The four kinds of `CustomError` that `drop_disc` raises. */
  datatype DropError = BoardLocked | IllegalColor | ColumnOutOfBounds | ColumnFull

  /** The board's instance variables: `@grid`, `@locked`, `@winner`. */
  datatype State = State(grid: Cells, locked: bool, winner: Option<int>)

  /** `Board#initialize`. */
  function Initial(): (s: State)
    ensures WellFormed(s) && !s.locked && s.winner == None
    ensures forall c, l :: 0 <= c < Columns && 0 <= l < Levels ==> s.grid[c][l] == Blank
  {
    State(NewGrid(), false, None)
  }

  /**
   * The states the board can reach through its own operations: every cell is
   * blank or a legal color, columns fill bottom-up, and a recorded winner is
   * a legal color on a locked board.
   */
  predicate WellFormed(s: State) {
    && IsGrid(s.grid)
    && (forall c, l :: 0 <= c < Columns && 0 <= l < Levels ==> s.grid[c][l] == Blank || IsColor(s.grid[c][l]))
    && Gravity(s.grid)
    && (s.winner.Some? ==> s.locked && IsColor(s.winner.value))
  }

  /** `pre_drop_disc_exception`: the first three guards, in the source's order. */
  function PreDropCheck(locked: bool, token: int, colPlus: int): (r: Option<DropError>)
    ensures r == None <==> !locked && IsColor(token) && 1 <= colPlus <= Columns
    ensures locked ==> r == Some(BoardLocked)
  {
    if locked then Some(BoardLocked)
    else if !IsColor(token) then Some(IllegalColor)
    else if OutOfBounds(colPlus - 1, 0) then Some(ColumnOutOfBounds)
    else None
  }

  /**
   * `drop_disc(color_code, col_plus)`: reject, or write the token into the
   * lowest blank cell of column `col_plus - 1`; then lock with a winner if a
   * run of four passes through the new disc, else lock without one if every
   * column's top cell is filled.
   */
  function Drop(s: State, token: int, colPlus: int): (r: Result<State, DropError>)
    requires IsGrid(s.grid)
    ensures r.Success? ==> !s.locked && IsColor(token) && 1 <= colPlus <= Columns && IsGrid(r.value.grid)
  {
    match PreDropCheck(s.locked, token, colPlus)
    case Some(e) => Failure(e)
    case None =>
      var col := colPlus - 1;
      match FirstBlank(s.grid[col])
      case None => Failure(ColumnFull)
      case Some(top) =>
        Success(Settle(s, s.grid[col := s.grid[col][top := token]], token, col, top))
  }

  /**
   * The end-of-game decision once the disc has landed at (col, top), giving
   * grid g: `try_record_winner?`, and only when that fails, `try_lock?`.
   */
  function Settle(s: State, g: Cells, token: int, col: int, top: int): (r: State)
    requires IsGrid(g)
    ensures r.grid == g
    ensures s.locked ==> r.locked
    ensures r.locked && !s.locked ==> IsWin(g, token, col, top) || TopRowFilled(g)
    ensures r.winner != s.winner ==> IsWin(g, token, col, top) && r.winner == Some(token)
  {
    if IsWin(g, token, col, top) then State(g, true, Some(token))
    else if TopRowFilled(g) then State(g, true, s.winner)
    else State(g, s.locked, s.winner)
  }

  /** The rejections and their precedence: locked, then color, then column range, then a full column. */
  lemma RejectionOrder(s: State, token: int, colPlus: int)
    requires IsGrid(s.grid)
    ensures Drop(s, token, colPlus) == Failure(BoardLocked) <==> s.locked
    ensures Drop(s, token, colPlus) == Failure(IllegalColor) <==> !s.locked && !IsColor(token)
    ensures Drop(s, token, colPlus) == Failure(ColumnOutOfBounds) <==>
            !s.locked && IsColor(token) && !(1 <= colPlus <= Columns)
    ensures Drop(s, token, colPlus) == Failure(ColumnFull) <==>
            !s.locked && IsColor(token) && 1 <= colPlus <= Columns && Blank !in s.grid[colPlus - 1]
    ensures Drop(s, token, colPlus).Success? <==>
            !s.locked && IsColor(token) && 1 <= colPlus <= Columns && Blank in s.grid[colPlus - 1]
  {
  }

  /**
   * Gravity placement: an accepted drop writes the token into the lowest
   * blank cell of the chosen column and leaves every other cell as it was.
   */
  lemma DropPlacesAtLowestBlank(s: State, token: int, colPlus: int, top: int)
    requires IsGrid(s.grid) && Drop(s, token, colPlus).Success?
    requires LowestBlank(s.grid[colPlus - 1], top)
    ensures var g := Drop(s, token, colPlus).value.grid;
            && IsGrid(g)
            && g[colPlus - 1][top] == token
            && forall c, l :: 0 <= c < Columns && 0 <= l < Levels && (c != colPlus - 1 || l != top) ==>
                 g[c][l] == s.grid[c][l]
  {
    LowestBlankUnique(s.grid[colPlus - 1], top, FirstBlank(s.grid[colPlus - 1]).value);
  }

  /** A column has at most one lowest blank cell. */
  lemma LowestBlankUnique(column: seq<int>, i: int, j: int)
    requires LowestBlank(column, i) && LowestBlank(column, j)
    ensures i == j
  {
  }

  /** An accepted drop keeps the board well-formed. */
  lemma DropPreservesWellFormed(s: State, token: int, colPlus: int)
    requires WellFormed(s) && Drop(s, token, colPlus).Success?
    ensures WellFormed(Drop(s, token, colPlus).value)
  {
    var col := colPlus - 1;
    var top := FirstBlank(s.grid[col]).value;
    var s' := Drop(s, token, colPlus).value;
    var g := s'.grid;
    assert g == s.grid[col := s.grid[col][top := token]];
    forall c | 0 <= c < Columns ensures ColumnGravity(g[c]) {
      if c == col {
        assert ColumnGravity(s.grid[col]);
        forall i, j | 0 <= i < j < Levels && g[col][i] == Blank ensures g[col][j] == Blank {
          assert i != top && s.grid[col][i] == Blank;
          assert top < i;
        }
      } else {
        assert g[c] == s.grid[c];
      }
    }
  }

  /**
   * The stacking law: in a well-formed column holding h discs an accepted
   * drop lands at level h, and a column holding 6 discs is rejected as full.
   */
  lemma DropStacksOnHeight(s: State, token: int, colPlus: int)
    requires WellFormed(s) && PreDropCheck(s.locked, token, colPlus) == None
    ensures var h := Height(s.grid[colPlus - 1]);
            && (h == Levels <==> Drop(s, token, colPlus) == Failure(ColumnFull))
            && (h < Levels ==> Drop(s, token, colPlus).Success? &&
                               Drop(s, token, colPlus).value.grid[colPlus - 1][h] == token)
  {
    FirstBlankIsHeight(s.grid[colPlus - 1]);
  }

  /**
   * How an accepted drop ends the game, stated against the reference notions:
   * the board locks exactly when four in a row now pass through the new disc
   * or no cell is blank; the winner is recorded exactly when four in a row
   * pass through it, and it is the token just dropped.
   */
  lemma DropEndsGame(s: State, token: int, colPlus: int, top: int)
    requires WellFormed(s) && Drop(s, token, colPlus).Success?
    requires LowestBlank(s.grid[colPlus - 1], top)
    ensures var s' := Drop(s, token, colPlus).value;
            && IsGrid(s'.grid)
            && (s'.locked <==> FourInARow(s'.grid, token, colPlus - 1, top) || NoBlank(s'.grid))
            && (s'.winner == Some(token) <==> FourInARow(s'.grid, token, colPlus - 1, top))
            && (s'.winner == None <==> !FourInARow(s'.grid, token, colPlus - 1, top))
  {
    var s' := Drop(s, token, colPlus).value;
    DropPlacesAtLowestBlank(s, token, colPlus, top);
    DropPreservesWellFormed(s, token, colPlus);
    WinIffFourInARow(s'.grid, token, colPlus - 1, top);
    TopRowFilledIffFull(s'.grid);
  }

  /** Locking is final: a locked board rejects every drop, so it stays locked and keeps its grid and winner. */
  lemma LockedIsFinal(s: State, token: int, colPlus: int)
    requires IsGrid(s.grid) && s.locked
    ensures Drop(s, token, colPlus) == Failure(BoardLocked)
  {
  }
}
