/**
 * The `Board` class of `lib/board.rb`: a 7x6 grid updated in place, and the
 * `locked` and `winner` attributes. Each method is proved against the pure
 * definitions in `Grid`, `Streaks` and `Rules`.
 */
module BoardEngine {
  import opened Wrappers
  import opened Grid
  import opened Streaks
  import Rules

  class Board {
    /** `@grid`, indexed [col, level]. */
    var grid: array2<int>
    var locked: bool
    var winner: Option<int>

    ghost predicate Valid()
      reads this`grid
    {
      grid.Length0 == Columns && grid.Length1 == Levels
    }

    /** The grid's current contents as a value. */
    ghost function Snapshot(): (g: Cells)
      reads this`grid, grid
      requires Valid()
      ensures IsGrid(g)
      ensures forall c, l :: 0 <= c < Columns && 0 <= l < Levels ==> g[c][l] == grid[c, l]
    {
      var a := grid;
      seq(Columns, c requires 0 <= c < Columns reads a =>
        seq(Levels, l requires 0 <= l < Levels reads a => a[c, l]))
    }

    /** The abstract state that `Rules.Drop` transforms. */
    ghost function Abstract(): Rules.State
      reads this, grid
      requires Valid()
    {
      Rules.State(Snapshot(), locked, winner)
    }

    /** `Board#initialize`: all 7x6 cells blank, unlocked, no winner. */
    constructor ()
      ensures Valid() && fresh(grid)
      ensures Abstract() == Rules.Initial()
    {
      grid := new int[Columns, Levels]((c, l) => Blank);
      locked := false;
      winner := None;
      new;
      assert Snapshot() == NewGrid() by {
        forall c | 0 <= c < Columns ensures Snapshot()[c] == NewGrid()[c] {
        }
      }
    }

    /** `cloned_grid`: a copy of every column, sharing nothing with the board. */
    method ClonedGrid() returns (copy: Cells)
      requires Valid()
      ensures IsGrid(copy)
      ensures forall c, l :: 0 <= c < Columns && 0 <= l < Levels ==> copy[c][l] == grid[c, l]
    {
      copy := [];
      var c := 0;
      while c < Columns
        invariant 0 <= c <= Columns && |copy| == c
        invariant forall i :: 0 <= i < c ==> |copy[i]| == Levels
        invariant forall i, l :: 0 <= i < c && 0 <= l < Levels ==> copy[i][l] == grid[i, l]
      {
        var a := grid;
        var column := seq(Levels, l requires 0 <= l < Levels reads a => a[c, l]);
        copy := copy + [column];
        c := c + 1;
      }
    }

    /**
     * `streak`: walks from (col, level) by (dc, dl) while the cell is on the
     * board and holds `token`, and returns how many cells it passed.
     */
    method Streak(token: int, col: int, level: int, dc: int, dl: int) returns (n: nat)
      requires Valid() && UnitStep(dc, dl)
      ensures n == Run(Snapshot(), token, col, level, dc, dl)
    {
      n := 0;
      var nextCol, nextLevel := col, level;
      while !OutOfBounds(nextCol, nextLevel) && grid[nextCol, nextLevel] == token
        invariant n + Run(Snapshot(), token, nextCol, nextLevel, dc, dl) == Run(Snapshot(), token, col, level, dc, dl)
        decreases Reach(nextCol, nextLevel, dc, dl)
      {
        n := n + 1;
        nextCol := nextCol + dc;
        nextLevel := nextLevel + dl;
      }
    }

    /**
     * `horizontal_streak`, `vertical_streak`, `forward_diagonal_streak` and
     * `backward_diagonal_streak`, one per axis: the walk from the anchor
     * against the axis plus the walk from its neighbour along it.
     */
    method AxisStreak(token: int, col: int, level: int, axis: Axis) returns (n: nat)
      requires Valid()
      ensures n == AxisRun(Snapshot(), token, col, level, axis)
    {
      var back := Streak(token, col, level, -axis.Dc(), -axis.Dl());
      var fwd := Streak(token, col + axis.Dc(), level + axis.Dl(), axis.Dc(), axis.Dl());
      n := back + fwd;
    }

    /**
     * `try_record_winner?`: tries the axes in order, stopping at the first
     * total of 4 or more; on a win locks the board and records `token`.
     */
    method TryRecordWinner(token: int, col: int, level: int) returns (won: bool)
      requires Valid()
      modifies this`locked, this`winner
      ensures won == IsWin(Snapshot(), token, col, level)
      ensures won ==> locked && winner == Some(token)
      ensures !won ==> locked == old(locked) && winner == old(winner)
    {
      ghost var g := Snapshot();
      var horizontal := AxisStreak(token, col, level, Horizontal);
      won := horizontal >= 4;
      if !won {
        var vertical := AxisStreak(token, col, level, Vertical);
        won := vertical >= 4;
      }
      if !won {
        var forward := AxisStreak(token, col, level, ForwardDiagonal);
        won := forward >= 4;
      }
      if !won {
        var backward := AxisStreak(token, col, level, BackwardDiagonal);
        won := backward >= 4;
      }
      assert won == IsWin(g, token, col, level);
      if won {
        locked := true;
        winner := Some(token);
      }
      assert Snapshot() == g;
    }

    /**
     * `try_lock?`: scans the columns and gives up at the first whose top cell
     * is blank; if there is none, locks the board.
     */
    method TryLock() returns (full: bool)
      requires Valid()
      modifies this`locked
      ensures full == TopRowFilled(Snapshot())
      ensures locked == (old(locked) || full)
    {
      var c := 0;
      while c < Columns
        invariant 0 <= c <= Columns
        invariant forall i :: 0 <= i < c ==> grid[i, TopLevel] != Blank
      {
        if grid[c, TopLevel] == Blank {
          return false;
        }
        c := c + 1;
      }
      locked := true;
      return true;
    }

    /**
     * `try_record_winner?(color_code, col, top) || try_lock?` after the disc
     * has landed at (col, top): the grid is not touched.
     */
    method Settle(token: int, col: int, top: int)
      requires Valid()
      modifies this`locked, this`winner
      ensures Abstract() == Rules.Settle(old(Abstract()), Snapshot(), token, col, top)
    {
      ghost var g := Snapshot();
      var won := TryRecordWinner(token, col, top);
      assert Snapshot() == g;
      if won {
        return;
      }
      var full := TryLock();
      assert Snapshot() == g && full == TopRowFilled(g);
    }

    /** `@grid[col]`, copied out as a value. */
    method Column(col: int) returns (column: seq<int>)
      requires Valid() && 0 <= col < Columns
      ensures column == Snapshot()[col]
    {
      var a := grid;
      column := seq(Levels, l requires 0 <= l < Levels reads a => a[col, l]);
    }

    /**
     * `drop_disc(color_code, col_plus)`: makes exactly the transition
     * `Rules.Drop` describes; a rejected call changes nothing and reports the
     * error kind, and a locked board never becomes unlocked.
     */
    method DropDisc(token: int, colPlus: int) returns (outcome: Outcome<Rules.DropError>)
      requires Valid()
      modifies this`locked, this`winner, grid
      ensures Valid()
      ensures old(locked) ==> locked
      ensures Rules.Drop(old(Abstract()), token, colPlus).Failure? ==>
                outcome == Fail(Rules.Drop(old(Abstract()), token, colPlus).error) && Abstract() == old(Abstract())
      ensures Rules.Drop(old(Abstract()), token, colPlus).Success? ==>
                outcome == Pass && Abstract() == Rules.Drop(old(Abstract()), token, colPlus).value
    {
      ghost var before := Abstract();
      var rejection := Rules.PreDropCheck(locked, token, colPlus);
      if rejection.Some? {
        return Fail(rejection.value);
      }
      var col := colPlus - 1;
      var column := Column(col);
      var top := FirstBlank(column);
      if top.None? {
        return Fail(Rules.ColumnFull);
      }
      grid[col, top.value] := token;
      ghost var g := before.grid[col := before.grid[col][top.value := token]];
      assert Snapshot() == g by {
        forall c | 0 <= c < Columns ensures Snapshot()[c] == g[c] {
        }
      }
      assert Rules.Drop(before, token, colPlus) == Success(Rules.Settle(before, g, token, col, top.value));
      ghost var landed := Abstract();
      assert landed.locked == before.locked && landed.winner == before.winner;
      Settle(token, col, top.value);
      assert Snapshot() == g;
      assert Rules.Settle(landed, g, token, col, top.value) == Rules.Settle(before, g, token, col, top.value);
      return Pass;
    }
  }
}
