/**
 * Streak counting of `lib/board.rb`: a single run walked from a start cell in
 * one direction (`streak`), the four axis totals through the disc just placed
 * (`horizontal_streak` and its siblings), and the win test built on them
 * (`try_record_winner?`). Everything here is a pure function of a grid
 * snapshot; the board class runs the loop and is proved equal to these.
 */
module Streaks {
  import opened Grid

  /** A step direction as the source passes it: each component in -1..1, not both zero. */
  predicate UnitStep(dc: int, dl: int) {
    -1 <= dc <= 1 && -1 <= dl <= 1 && (dc != 0 || dl != 0)
  }

  /** The coordinate reached from x after k steps of size d (d in -1..1). */
  function Shift(x: int, d: int, k: int): int {
    if d == 1 then x + k else if d == -1 then x - k else x
  }

  /** The cell (col, level) is on the board and holds `token`. */
  predicate Holds(g: Cells, token: int, col: int, level: int)
    requires IsGrid(g)
  {
    !OutOfBounds(col, level) && g[col][level] == token
  }

  /** The cell k steps from (col, level) in direction (dc, dl) is on the board and holds `token`. */
  predicate Along(g: Cells, token: int, col: int, level: int, dc: int, dl: int, k: int)
    requires IsGrid(g)
  {
    Holds(g, token, Shift(col, dc, k), Shift(level, dl, k))
  }

  /** Distance to the edge along the component that moves; bounds every walk. */
  function Reach(col: int, level: int, dc: int, dl: int): int {
    if dc == 1 then Columns - col
    else if dc == -1 then col + 1
    else if dl == 1 then Levels - level
    else level + 1
  }

  /** Number of on-board cells met walking from (col, level) in direction (dc, dl). */
  function InBoundsSteps(col: int, level: int, dc: int, dl: int): nat
    requires UnitStep(dc, dl)
    decreases Reach(col, level, dc, dl)
  {
    if OutOfBounds(col, level) then 0
    else 1 + InBoundsSteps(col + dc, level + dl, dc, dl)
  }

  /**
   * `streak`: the number of consecutive cells holding `token`, starting at
   * (col, level) and stepping by (dc, dl), stopping at the edge or the first
   * other value.
   */
  function Run(g: Cells, token: int, col: int, level: int, dc: int, dl: int): (n: nat)
    requires IsGrid(g) && UnitStep(dc, dl)
    decreases Reach(col, level, dc, dl)
  {
    if OutOfBounds(col, level) || g[col][level] != token then 0
    else 1 + Run(g, token, col + dc, level + dl, dc, dl)
  }

  /** A streak never exceeds the number of on-board cells available on its ray. */
  lemma {:induction false} RunWithinBounds(g: Cells, token: int, col: int, level: int, dc: int, dl: int)
    requires IsGrid(g) && UnitStep(dc, dl)
    ensures Run(g, token, col, level, dc, dl) <= InBoundsSteps(col, level, dc, dl)
    decreases Reach(col, level, dc, dl)
  {
    if !OutOfBounds(col, level) {
      RunWithinBounds(g, token, col + dc, level + dl, dc, dl);
    }
  }

  /** Taking one step first is the same as counting one step further. */
  lemma AlongStep(g: Cells, token: int, col: int, level: int, dc: int, dl: int, k: int)
    requires IsGrid(g) && UnitStep(dc, dl)
    ensures Along(g, token, col + dc, level + dl, dc, dl, k) == Along(g, token, col, level, dc, dl, k + 1)
  {
  }

  /** Walking against the direction is walking with negative steps along it. */
  lemma AlongReverse(g: Cells, token: int, col: int, level: int, dc: int, dl: int, k: int)
    requires IsGrid(g) && UnitStep(dc, dl)
    ensures Along(g, token, col, level, -dc, -dl, k) == Along(g, token, col, level, dc, dl, -k)
  {
  }

  /**
   * `Run` is the maximal run: the first n cells of the ray hold `token` and the
   * next one is off the board or holds something else.
   */
  lemma {:induction false} RunIsMaximal(g: Cells, token: int, col: int, level: int, dc: int, dl: int)
    requires IsGrid(g) && UnitStep(dc, dl)
    ensures forall k :: 0 <= k < Run(g, token, col, level, dc, dl) ==> Along(g, token, col, level, dc, dl, k)
    ensures !Along(g, token, col, level, dc, dl, Run(g, token, col, level, dc, dl))
    decreases Reach(col, level, dc, dl)
  {
    var n := Run(g, token, col, level, dc, dl);
    if !Holds(g, token, col, level) {
      assert n == 0 && Shift(col, dc, 0) == col && Shift(level, dl, 0) == level;
    } else {
      var rest := Run(g, token, col + dc, level + dl, dc, dl);
      assert n == 1 + rest;
      RunIsMaximal(g, token, col + dc, level + dl, dc, dl);
      forall k | 0 <= k < n ensures Along(g, token, col, level, dc, dl, k) {
        if k == 0 {
          assert Shift(col, dc, 0) == col && Shift(level, dl, 0) == level;
        } else {
          assert Along(g, token, col + dc, level + dl, dc, dl, k - 1);
          AlongStep(g, token, col, level, dc, dl, k - 1);
        }
      }
      assert !Along(g, token, col + dc, level + dl, dc, dl, rest);
      AlongStep(g, token, col, level, dc, dl, rest);
    }
  }

  /** The four axes, each given by its positive direction (dc, dl). */
  datatype Axis = Horizontal | Vertical | ForwardDiagonal | BackwardDiagonal {
    function Dc(): int {
      if this == Vertical then 0 else 1
    }
    function Dl(): int {
      match this
      case Horizontal => 0
      case Vertical => 1
      case ForwardDiagonal => 1
      case BackwardDiagonal => -1
    }
  }

  /**
   * `horizontal_streak`, `vertical_streak`, `forward_diagonal_streak`,
   * `backward_diagonal_streak`: the walk from the anchor against the axis
   * direction plus the walk from the anchor's neighbour along it.
   */
  function AxisRun(g: Cells, token: int, col: int, level: int, axis: Axis): (n: nat)
    requires IsGrid(g)
  {
    Run(g, token, col, level, -axis.Dc(), -axis.Dl()) +
    Run(g, token, col + axis.Dc(), level + axis.Dl(), axis.Dc(), axis.Dl())
  }

  /**
   * The cells at offsets lo..hi from (col, level) in direction (dc, dl) hold `token`,
   * the run contains the anchor (offset 0), and it cannot be extended at either end.
   */
  ghost predicate MaximalLine(g: Cells, token: int, col: int, level: int, dc: int, dl: int, lo: int, hi: int)
    requires IsGrid(g)
  {
    && lo <= 0 <= hi
    && (forall k :: lo <= k <= hi ==> Along(g, token, col, level, dc, dl, k))
    && !Along(g, token, col, level, dc, dl, lo - 1)
    && !Along(g, token, col, level, dc, dl, hi + 1)
  }

  /** The walk from the anchor's neighbour covers offsets 1..n from the anchor, and stops at n + 1. */
  lemma ForwardRun(g: Cells, token: int, col: int, level: int, dc: int, dl: int)
    requires IsGrid(g) && UnitStep(dc, dl)
    ensures var n := Run(g, token, col + dc, level + dl, dc, dl);
            && (forall k :: 1 <= k <= n ==> Along(g, token, col, level, dc, dl, k))
            && !Along(g, token, col, level, dc, dl, n + 1)
  {
    var n := Run(g, token, col + dc, level + dl, dc, dl);
    RunIsMaximal(g, token, col + dc, level + dl, dc, dl);
    forall k | 1 <= k <= n ensures Along(g, token, col, level, dc, dl, k) {
      AlongStep(g, token, col, level, dc, dl, k - 1);
    }
    AlongStep(g, token, col, level, dc, dl, n);
  }

  /** The walk from the anchor against the direction covers offsets 1 - n..0, and stops at -n. */
  lemma BackwardRun(g: Cells, token: int, col: int, level: int, dc: int, dl: int)
    requires IsGrid(g) && UnitStep(dc, dl)
    ensures var n: int := Run(g, token, col, level, -dc, -dl);
            && (forall k :: 1 - n <= k <= 0 ==> Along(g, token, col, level, dc, dl, k))
            && !Along(g, token, col, level, dc, dl, -n)
  {
    var n: int := Run(g, token, col, level, -dc, -dl);
    RunIsMaximal(g, token, col, level, -dc, -dl);
    forall k | 1 - n <= k <= 0 ensures Along(g, token, col, level, dc, dl, k) {
      AlongReverse(g, token, col, level, dc, dl, -k);
    }
    AlongReverse(g, token, col, level, dc, dl, n);
  }

  /** Around an anchor holding `token`, the backward walk and the forward walk join into one maximal line. */
  lemma RunsJoinAtAnchor(g: Cells, token: int, col: int, level: int, dc: int, dl: int)
    requires IsGrid(g) && UnitStep(dc, dl) && Holds(g, token, col, level)
    ensures var back: int := Run(g, token, col, level, -dc, -dl);
            var fwd: int := Run(g, token, col + dc, level + dl, dc, dl);
            back >= 1 && MaximalLine(g, token, col, level, dc, dl, 1 - back, fwd)
  {
    ForwardRun(g, token, col, level, dc, dl);
    BackwardRun(g, token, col, level, dc, dl);
    assert Along(g, token, col, level, dc, dl, 0);
  }

  /**
   * When the anchor holds `token`, an axis total is the length of a maximal
   * line through the anchor on that axis, the anchor counted once.
   */
  lemma AxisRunIsMaximalLine(g: Cells, token: int, col: int, level: int, axis: Axis)
    requires IsGrid(g) && Holds(g, token, col, level)
    ensures var back: int := Run(g, token, col, level, -axis.Dc(), -axis.Dl());
            var fwd: int := Run(g, token, col + axis.Dc(), level + axis.Dl(), axis.Dc(), axis.Dl());
            && back >= 1
            && MaximalLine(g, token, col, level, axis.Dc(), axis.Dl(), 1 - back, fwd)
            && AxisRun(g, token, col, level, axis) == fwd - (1 - back) + 1
  {
    RunsJoinAtAnchor(g, token, col, level, axis.Dc(), axis.Dl());
  }

  /** Any maximal line through the anchor has exactly the length the axis total reports. */
  lemma AxisRunIsLineLength(g: Cells, token: int, col: int, level: int, axis: Axis, lo: int, hi: int)
    requires IsGrid(g) && Holds(g, token, col, level)
    requires MaximalLine(g, token, col, level, axis.Dc(), axis.Dl(), lo, hi)
    ensures AxisRun(g, token, col, level, axis) == hi - lo + 1
  {
    AxisRunIsMaximalLine(g, token, col, level, axis);
    var back: int := Run(g, token, col, level, -axis.Dc(), -axis.Dl());
    var fwd: int := Run(g, token, col + axis.Dc(), level + axis.Dl(), axis.Dc(), axis.Dl());
    MaximalLinesMeet(g, token, col, level, axis.Dc(), axis.Dl(), lo, hi, 1 - back, fwd);
  }

  /** Two maximal lines through the same anchor on the same axis coincide. */
  lemma MaximalLinesMeet(g: Cells, token: int, col: int, level: int, dc: int, dl: int, lo: int, hi: int, lo': int, hi': int)
    requires IsGrid(g)
    requires MaximalLine(g, token, col, level, dc, dl, lo, hi)
    requires MaximalLine(g, token, col, level, dc, dl, lo', hi')
    ensures lo == lo' && hi == hi'
  {
  }

  /** `try_record_winner?`: some axis total through the anchor reaches 4, tried in the source's order. */
  predicate IsWin(g: Cells, token: int, col: int, level: int): (r: bool)
    requires IsGrid(g)
  {
    || AxisRun(g, token, col, level, Horizontal) >= 4
    || AxisRun(g, token, col, level, Vertical) >= 4
    || AxisRun(g, token, col, level, ForwardDiagonal) >= 4
    || AxisRun(g, token, col, level, BackwardDiagonal) >= 4
  }

  /** Four consecutive cells along `axis`, at offsets s..s+3 from the anchor, hold `token`. */
  predicate FourFrom(g: Cells, token: int, col: int, level: int, axis: Axis, s: int)
    requires IsGrid(g)
  {
    && Along(g, token, col, level, axis.Dc(), axis.Dl(), s)
    && Along(g, token, col, level, axis.Dc(), axis.Dl(), s + 1)
    && Along(g, token, col, level, axis.Dc(), axis.Dl(), s + 2)
    && Along(g, token, col, level, axis.Dc(), axis.Dl(), s + 3)
  }

  /** The reference notion of a win: four in a row on some axis, passing through the anchor. */
  ghost predicate FourInARow(g: Cells, token: int, col: int, level: int)
    requires IsGrid(g)
  {
    exists axis: Axis, s: int :: -3 <= s <= 0 && FourFrom(g, token, col, level, axis, s)
  }

  /** An axis total of 4 or more yields four in a row on that axis through the anchor. */
  lemma AxisWinGivesFour(g: Cells, token: int, col: int, level: int, axis: Axis)
    requires IsGrid(g) && Holds(g, token, col, level)
    requires AxisRun(g, token, col, level, axis) >= 4
    ensures exists s :: -3 <= s <= 0 && FourFrom(g, token, col, level, axis, s)
  {
    AxisRunIsMaximalLine(g, token, col, level, axis);
    var lo: int := 1 - Run(g, token, col, level, -axis.Dc(), -axis.Dl());
    var s := if lo < -3 then -3 else lo;
    assert FourFrom(g, token, col, level, axis, s);
  }

  /** Four in a row on an axis through the anchor make that axis total reach 4. */
  lemma FourGivesAxisWin(g: Cells, token: int, col: int, level: int, axis: Axis, s: int)
    requires IsGrid(g) && Holds(g, token, col, level)
    requires -3 <= s <= 0 && FourFrom(g, token, col, level, axis, s)
    ensures AxisRun(g, token, col, level, axis) >= 4
  {
    AxisRunIsMaximalLine(g, token, col, level, axis);
    var lo: int := 1 - Run(g, token, col, level, -axis.Dc(), -axis.Dl());
    var hi: int := Run(g, token, col + axis.Dc(), level + axis.Dl(), axis.Dc(), axis.Dl());
    if lo > s {
      assert false;
    }
    if hi < s + 3 {
      assert false;
    }
  }

  /** The anchored win test agrees with the reference notion of four in a row through the anchor. */
  lemma WinIffFourInARow(g: Cells, token: int, col: int, level: int)
    requires IsGrid(g) && Holds(g, token, col, level)
    ensures IsWin(g, token, col, level) <==> FourInARow(g, token, col, level)
  {
    if IsWin(g, token, col, level) {
      var axis :| AxisRun(g, token, col, level, axis) >= 4;
      AxisWinGivesFour(g, token, col, level, axis);
    }
    if FourInARow(g, token, col, level) {
      var axis, s :| -3 <= s <= 0 && FourFrom(g, token, col, level, axis, s);
      FourGivesAxisWin(g, token, col, level, axis, s);
    }
  }
}
