/**
 * The board's RSpec cases (`spec/board_spec.rb`), restated as lemmas about
 * `Rules.Drop`. Player one is token 31 and player two token 32, the first two
 * entries of COLOR.
 */
module Scenarios {
  import opened Wrappers
  import opened Grid
  import opened Streaks
  import opened Rules

  const P1: int := 31
  const P2: int := 32

  /** The grid g with `token` written at (col, level). */
  function Put(g: Cells, col: int, level: int, token: int): (r: Cells)
    requires IsGrid(g) && 0 <= col < Columns && 0 <= level < Levels
    ensures IsGrid(r) && r[col][level] == token
    ensures forall c, l :: 0 <= c < Columns && 0 <= l < Levels && (c != col || l != level) ==> r[c][l] == g[c][l]
  {
    g[col := g[col][level := token]]
  }

  /** A disc dropped into an empty column lands at level 0, and the game goes on. */
  lemma DropIntoEmptyColumn()
    ensures var r := Drop(Initial(), P1, 1);
            && r.Success?
            && r.value.grid == Put(NewGrid(), 0, 0, P1)
            && !r.value.locked && r.value.winner == None
  {
    var g := Put(NewGrid(), 0, 0, P1);
    assert FirstBlank(NewGrid()[0]) == Some(0);
    assert !TopRowFilled(g) by {
      assert g[1][TopLevel] == Blank;
    }
    NoFourAroundLoneDisc(g);
  }

  /** With only the disc at (0, 0) on the board, no axis through it reaches 4. */
  lemma NoFourAroundLoneDisc(g: Cells)
    requires g == Put(NewGrid(), 0, 0, P1)
    ensures !IsWin(g, P1, 0, 0)
  {
    assert Run(g, P1, 1, 0, 1, 0) == 0;
    assert Run(g, P1, 0, 1, 0, 1) == 0;
    assert Run(g, P1, 1, 1, 1, 1) == 0;
    assert Run(g, P1, 1, -1, 1, -1) == 0;
    assert Run(g, P1, -1, 0, -1, 0) == 0;
    assert Run(g, P1, 0, -1, 0, -1) == 0;
    assert Run(g, P1, -1, -1, -1, -1) == 0;
    assert Run(g, P1, -1, 1, -1, 1) == 0;
  }

  /** A disc dropped onto one disc lands at level 1. */
  lemma DropOntoPartialColumn()
    ensures var r := Drop(State(Put(NewGrid(), 0, 0, P1), false, None), P1, 1);
            && r.Success? && r.value.grid == Put(Put(NewGrid(), 0, 0, P1), 0, 1, P1)
  {
    var g := Put(NewGrid(), 0, 0, P1);
    assert FirstBlank(g[0][1..]) == Some(0);
  }

  /** The blank value and an out-of-range column are rejected. */
  lemma RejectedInputs()
    ensures Drop(Initial(), Blank, 1) == Failure(IllegalColor)
    ensures Drop(Initial(), P1, 0) == Failure(ColumnOutOfBounds)
    ensures Drop(Initial(), P1, 8) == Failure(ColumnOutOfBounds)
    ensures Drop(State(NewGrid(), true, None), P1, 1) == Failure(BoardLocked)
  {
  }

  /** A column of six discs is rejected as full. */
  lemma FullColumnRejected()
    ensures Drop(State(NewGrid()[0 := seq(Levels, _ => P1)], false, None), P1, 1) == Failure(ColumnFull)
  {
    var column := seq(Levels, _ => P1);
    assert Blank !in column;
  }

  /** A board whose every column holds six discs rejects a drop as a full column. */
  lemma FullBoardRejected()
    ensures Drop(State(seq(Columns, _ => seq(Levels, _ => P1)), false, None), P1, 1) == Failure(ColumnFull)
  {
    var g := seq(Columns, _ => seq(Levels, _ => P1));
    assert Blank !in g[0];
  }

  /** Three discs in a row on level 0, and a fourth dropped into column 4, win. */
  lemma HorizontalConnectFour()
    ensures var g := Put(Put(Put(NewGrid(), 0, 0, P1), 1, 0, P1), 2, 0, P1);
            var r := Drop(State(g, false, None), P1, 4);
            r.Success? && r.value.locked && r.value.winner == Some(P1)
  {
    var g := Put(Put(Put(NewGrid(), 0, 0, P1), 1, 0, P1), 2, 0, P1);
    assert FirstBlank(g[3]) == Some(0);
    var g' := Put(g, 3, 0, P1);
    assert FourFrom(g', P1, 3, 0, Horizontal, -3);
    FourGivesAxisWin(g', P1, 3, 0, Horizontal, -3);
  }

  /** Three discs stacked in column 1, and a fourth dropped on top, win. */
  lemma VerticalConnectFour()
    ensures var g := Put(Put(Put(NewGrid(), 0, 0, P1), 0, 1, P1), 0, 2, P1);
            var r := Drop(State(g, false, None), P1, 1);
            r.Success? && r.value.locked && r.value.winner == Some(P1)
  {
    var g := Put(Put(Put(NewGrid(), 0, 0, P1), 0, 1, P1), 0, 2, P1);
    assert FirstBlank(g[0][3..]) == Some(0);
    assert FirstBlank(g[0]) == Some(3);
    var g' := Put(g, 0, 3, P1);
    assert FourFrom(g', P1, 0, 3, Vertical, -3);
    FourGivesAxisWin(g', P1, 0, 3, Vertical, -3);
  }

  /** Discs at (0,0), (1,1), (2,2), and one landing at (3,3) on three blockers, win. */
  lemma ForwardDiagonalConnectFour()
    ensures var g := Put(Put(Put(Put(Put(Put(NewGrid(),
                       0, 0, P1), 1, 1, P1), 2, 2, P1), 3, 0, P2), 3, 1, P2), 3, 2, P2);
            var r := Drop(State(g, false, None), P1, 4);
            r.Success? && r.value.locked && r.value.winner == Some(P1)
  {
    var g := Put(Put(Put(Put(Put(Put(NewGrid(), 0, 0, P1), 1, 1, P1), 2, 2, P1), 3, 0, P2), 3, 1, P2), 3, 2, P2);
    assert FirstBlank(g[3][3..]) == Some(0);
    assert FirstBlank(g[3]) == Some(3);
    var g' := Put(g, 3, 3, P1);
    assert FourFrom(g', P1, 3, 3, ForwardDiagonal, -3);
    FourGivesAxisWin(g', P1, 3, 3, ForwardDiagonal, -3);
  }

  /** Discs at (0,3), (1,2), (2,1), and one landing at (3,0), win along the backward diagonal. */
  lemma BackwardDiagonalConnectFour()
    ensures var g := Put(Put(Put(NewGrid(), 0, 3, P1), 1, 2, P1), 2, 1, P1);
            var r := Drop(State(g, false, None), P1, 4);
            r.Success? && r.value.locked && r.value.winner == Some(P1)
  {
    var g := Put(Put(Put(NewGrid(), 0, 3, P1), 1, 2, P1), 2, 1, P1);
    assert FirstBlank(g[3]) == Some(0);
    var g' := Put(g, 3, 0, P1);
    assert FourFrom(g', P1, 3, 0, BackwardDiagonal, -3);
    FourGivesAxisWin(g', P1, 3, 0, BackwardDiagonal, -3);
  }

  /** The full-board case: every cell holds a distinct non-color value except the top of column 7. */
  function DrawGrid(): (g: Cells)
    ensures IsGrid(g) && g[6][5] == Blank
    ensures forall c, l :: 0 <= c < Columns && 0 <= l < Levels && (c != 6 || l != 5) ==> g[c][l] >= 33
  {
    seq(Columns, c => seq(Levels, l => if c == 6 && l == 5 then Blank else 33 + Levels * c + l))
  }

  /** Filling the last open cell without four in a row locks the board with no winner. */
  lemma FullBoardDraw()
    ensures var r := Drop(State(DrawGrid(), false, None), P1, 7);
            r.Success? && r.value.locked && r.value.winner == None
  {
    var g := DrawGrid();
    assert FirstBlank(g[6][5..]) == Some(0);
    assert FirstBlank(g[6]) == Some(5);
    var g' := Put(g, 6, 5, P1);
    assert Run(g', P1, 5, 5, -1, 0) == 0;
    assert Run(g', P1, 6, 4, 0, -1) == 0;
    assert Run(g', P1, 5, 4, -1, -1) == 0;
    assert !IsWin(g', P1, 6, 5);
    assert TopRowFilled(g');
  }
}
