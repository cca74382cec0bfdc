/** The tic-tac-toe grid of main.go: a 3x3 array of runes, built by
    InitializeBoard with every cell set to the space character. */
module Board {

  /** Go's rune: a signed 32-bit integer holding a Unicode code point. */
  newtype Rune = x: int | -0x8000_0000 <= x < 0x8000_0000

  /** Rows and columns of the grid, fixed by its type [3][3]rune. */
  const Size: nat := 3

  /** The rune ' ', which marks an empty cell. */
  const Space: Rune := ' ' as int as Rune

  /** Go's zero value for a rune, held by every cell of a freshly declared grid. */
  const Zero: Rune := 0

  /** A sequence of n copies of v. */
  function Filled<T>(n: nat, v: T): (r: seq<T>)
    ensures |r| == n
    ensures forall i | 0 <= i < n :: r[i] == v
  {
    if n == 0 then [] else Filled(n - 1, v) + [v]
  }

  /** A grid value: exactly Size rows of exactly Size runes. */
  type Grid = g: seq<seq<Rune>> | |g| == Size && forall r | 0 <= r < |g| :: |g[r]| == Size
    witness Filled(Size, Filled(Size, Zero))

  /** Every cell of g holds the space rune. */
  predicate AllSpace(g: Grid)
  {
    forall r, c | 0 <= r < Size && 0 <= c < Size :: g[r][c] == Space
  }

  /** The grid that `var board [3][3]rune` declares: every cell holds Go's zero value. */
  function ZeroBoard(): (g: Grid)
    ensures forall r, c | 0 <= r < Size && 0 <= c < Size :: g[r][c] == Zero
  {
    Filled(Size, Filled(Size, Zero))
  }

  /** The grid a new game starts from: every cell empty. */
  function EmptyBoard(): (g: Grid)
    ensures AllSpace(g)
  {
    Filled(Size, Filled(Size, Space))
  }

  /** Being all spaces determines a grid: the empty board is the only one. */
  lemma EmptyBoardUnique(g: Grid)
    requires AllSpace(g)
    ensures g == EmptyBoard()
  {
    var e := EmptyBoard();
    forall r | 0 <= r < Size
      ensures g[r] == e[r]
    {
      assert forall c | 0 <= c < Size :: g[r][c] == e[r][c];
    }
  }

  /** The empty board shares no cell with the zero-valued declaration:
      every one of its cells had to be written. */
  lemma EmptyBoardOverwritesEveryCell()
    ensures forall r, c | 0 <= r < Size && 0 <= c < Size :: EmptyBoard()[r][c] != ZeroBoard()[r][c]
  {
  }

  /** The grid value held by a 3x3 array. */
  function Cells(a: array2<Rune>): (g: Grid)
    requires a.Length0 == Size && a.Length1 == Size
    reads a
    ensures forall r, c | 0 <= r < Size && 0 <= c < Size :: g[r][c] == a[r, c]
  {
    seq(Size, r requires 0 <= r < Size reads a =>
      seq(Size, c requires 0 <= c < Size reads a => a[r, c]))
  }

  /** Declares a zero-valued 3x3 grid, writes ' ' into each cell row by row,
      and hands the grid back as a new array that no earlier board shares. */
  method InitializeBoard() returns (board: array2<Rune>)
    ensures fresh(board)
    ensures board.Length0 == Size && board.Length1 == Size
    ensures forall r, c | 0 <= r < Size && 0 <= c < Size :: board[r, c] == Space
    ensures Cells(board) == EmptyBoard()
  {
    board := new Rune[Size, Size]((_, _) => Zero);
    var row := 0;
    while row < Size
      invariant 0 <= row <= Size
      invariant forall r, c | 0 <= r < row && 0 <= c < Size :: board[r, c] == Space
      invariant forall r, c | row <= r < Size && 0 <= c < Size :: board[r, c] == Zero
    {
      var col := 0;
      while col < Size
        invariant 0 <= col <= Size
        invariant forall r, c | 0 <= r < row && 0 <= c < Size :: board[r, c] == Space
        invariant forall c | 0 <= c < col :: board[row, c] == Space
        invariant forall c | col <= c < Size :: board[row, c] == Zero
        invariant forall r, c | row < r < Size && 0 <= c < Size :: board[r, c] == Zero
      {
        // the cell still holds its zero value: no cell is written twice
        assert board[row, col] == Zero;
        board[row, col] := Space;
        col := col + 1;
      }
      row := row + 1;
    }
    EmptyBoardUnique(Cells(board));
  }

  /** Two calls give two distinct arrays with equal contents: the board is a
      fresh value each time, and which one a caller gets makes no difference. */
  method InitializeBoardTwice() returns (first: array2<Rune>, second: array2<Rune>)
    ensures first != second
    ensures first.Length0 == Size && first.Length1 == Size
    ensures second.Length0 == Size && second.Length1 == Size
    ensures Cells(first) == Cells(second)
  {
    first := InitializeBoard();
    second := InitializeBoard();
  }
}
