/**
 * The fixed 7-column by 6-level Connect-Four grid of `lib/board.rb`: its
 * dimensions, the blank and legal cell values, the bounds check, and the
 * per-column notions (lowest blank cell, gravity, height) that disc placement
 * and the draw check rely on.
 */
module Grid {
  import opened Wrappers

  /** Number of columns; the external column number `col_plus` is 1-based. */
  const Columns: nat := 7
  /** Number of levels per column; level 0 is the bottom. */
  const Levels: nat := 6
  /** The level `try_lock?` inspects: the top of each column (index 5). */
  const TopLevel: int := Levels - 1
  /** BLANK_COLOR: the value of an empty cell. */
  const Blank: int := 30

  /** COLOR: the legal disc tokens, 31 to 37 inclusive. */
  predicate IsColor(x: int): (r: bool)
    ensures r ==> x != Blank
  {
    31 <= x <= 37
  }

  /** A grid snapshot, column-major: `g[col][level]`. */
  type Cells = seq<seq<int>>

  predicate IsGrid(g: Cells) {
    |g| == Columns && forall c :: 0 <= c < |g| ==> |g[c]| == Levels
  }

  /** The grid a new board starts with: every cell blank. */
  function NewGrid(): (g: Cells)
    ensures IsGrid(g)
    ensures forall c, l :: 0 <= c < Columns && 0 <= l < Levels ==> g[c][l] == Blank
  {
    seq(Columns, _ => seq(Levels, _ => Blank))
  }

  /** `Board.out_of_bounds?`: whether (col, level) lies outside the grid. */
  function OutOfBounds(col: int, level: int): (r: bool)
    ensures !r <==> 0 <= col < Columns && 0 <= level < Levels
  {
    col < 0 || col > 6 || level < 0 || level > 5
  }

  /** The boundary coordinates exercised by the board's own tests. */
  lemma OutOfBoundsEdges()
    ensures OutOfBounds(-1, 0) && OutOfBounds(7, 0)
    ensures OutOfBounds(0, -1) && OutOfBounds(0, 6)
    ensures !OutOfBounds(6, 5) && !OutOfBounds(0, 0)
  {
  }

  /** `level` is the lowest blank cell of `column`. */
  predicate LowestBlank(column: seq<int>, level: int) {
    0 <= level < |column| && column[level] == Blank &&
    forall i :: 0 <= i < level ==> column[i] != Blank
  }

  /** `Array#find_index(BLANK_COLOR)`: the index of the first blank cell, scanning from level 0 up. */
  function FirstBlank(column: seq<int>): (r: Option<nat>)
    ensures r.Some? <==> Blank in column
    ensures r.Some? ==> LowestBlank(column, r.value)
  {
    if |column| == 0 then None
    else if column[0] == Blank then Some(0)
    else match FirstBlank(column[1..])
      case None => None
      case Some(i) => Some(i + 1)
  }

  /** A column filled bottom-up: nothing but blanks above a blank cell. */
  predicate ColumnGravity(column: seq<int>) {
    forall i, j :: 0 <= i < j < |column| && column[i] == Blank ==> column[j] == Blank
  }

  predicate Gravity(g: Cells) {
    forall c :: 0 <= c < |g| ==> ColumnGravity(g[c])
  }

  /** Number of occupied (non-blank) cells of a column. */
  function Height(column: seq<int>): (h: nat)
    ensures h <= |column|
  {
    if |column| == 0 then 0
    else (if column[0] != Blank then 1 else 0) + Height(column[1..])
  }

  /** In a column filled bottom-up the first blank sits exactly at its height. */
  lemma {:induction false} FirstBlankIsHeight(column: seq<int>)
    requires ColumnGravity(column)
    ensures FirstBlank(column) == if Height(column) < |column| then Some(Height(column)) else None
  {
    if |column| > 0 {
      if column[0] == Blank {
        AllBlankHasNoHeight(column);
      } else {
        assert ColumnGravity(column[1..]) by {
          forall i, j | 0 <= i < j < |column[1..]| && column[1..][i] == Blank
            ensures column[1..][j] == Blank
          {
            assert column[i + 1] == Blank;
          }
        }
        FirstBlankIsHeight(column[1..]);
      }
    }
  }

  lemma {:induction false} AllBlankHasNoHeight(column: seq<int>)
    requires forall i :: 0 <= i < |column| ==> column[i] == Blank
    ensures Height(column) == 0
  {
    if |column| > 0 {
      AllBlankHasNoHeight(column[1..]);
    }
  }

  /** What `try_lock?` inspects: the top cell (index 5) of every column is filled. */
  predicate TopRowFilled(g: Cells): (r: bool)
    requires IsGrid(g)
    ensures NoBlank(g) ==> r
  {
    forall c :: 0 <= c < Columns ==> g[c][TopLevel] != Blank
  }

  /** The board has no blank cell at all. */
  predicate NoBlank(g: Cells)
    requires IsGrid(g)
  {
    forall c, l :: 0 <= c < Columns && 0 <= l < Levels ==> g[c][l] != Blank
  }

  /** With gravity, looking only at the top row decides whether the whole board is full. */
  lemma TopRowFilledIffFull(g: Cells)
    requires IsGrid(g) && Gravity(g)
    ensures TopRowFilled(g) <==> NoBlank(g)
  {
    if TopRowFilled(g) {
      forall c, l | 0 <= c < Columns && 0 <= l < Levels ensures g[c][l] != Blank {
        assert ColumnGravity(g[c]) && g[c][TopLevel] != Blank;
      }
    }
  }
}
