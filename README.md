# Tic-tac-toe board initialisation, in Dafny

This project models the board of a terminal tic-tac-toe game written in Go.
The board is a `[3][3]rune` grid. `InitializeBoard` declares it zero-valued,
writes the space rune `' '` into every cell with two nested counting loops,
and returns the grid by value. The repository's test walks the returned grid
with the same nested loops and reports every cell that is not `' '`.

- `board.dfy`, module `Board`: the grid and `InitializeBoard` (from `main.go`).
  A Go rune is a signed 32-bit integer, so `Rune` is a newtype over that range.
  `Space` is `' '` (32) and `Zero` is Go's zero value for a rune.
  `InitializeBoard` is a method over a new `array2<Rune>`. Its `while` loops
  mirror the two `for` loops, and their invariants say which cells are already
  `' '` and which still hold the zero value. The function `EmptyBoard` is the
  value the method must produce, and `Cells` reads an array back as a grid
  value, so the method's result is tied to that specification.
- `board_test.dfy`, module `BoardTest`: the check in `main_test.go`. Each
  failed expectation is a `Report` holding the row, the column and the rune
  found there. `Mismatches` and `RowMismatches` give the reports the nested
  loops produce: one for each cell that is not `' '` and none for any other
  cell. `MismatchesInOrder` and `RowMismatchesInOrder` prove that they come
  row by row, column by column. `CheckBoard` is the loop itself, proved
  against them. `TestInitialBoard` builds a board and checks it, and is proved to
  report nothing.

Move validation, move application, win detection and draw detection are
not in `main.go`, so none of them is modelled. A cell is a rune, and the
model keeps it a rune rather than an abstract empty-or-mark value.

## Model

| member | source | states |
|---|---|---|
| Board.InitializeBoard | main.go:5-15 | Returns a new array that no earlier board shares. The array is exactly 3x3 and every cell holds `' '`. Its contents equal `EmptyBoard()`. The loop invariants say that cells not yet visited still hold the zero value. An assertion in the body, not the contract, checks that each cell still holds zero when it is written, so no cell is written twice. |
| Board.ZeroBoard | main.go:6 | `var board [3][3]rune` declares a 3x3 grid in which every cell holds Go's zero value, rune 0. |
| Board.EmptyBoard | main_test.go:7-11 | The board a game starts from is a 3x3 grid in which every cell is `' '`. |
| Board.EmptyBoardUnique | main.go:8-14 | Any 3x3 grid whose cells are all `' '` equals `EmptyBoard()`. So the result of initialisation is fully determined. |
| Board.EmptyBoardOverwritesEveryCell | main.go:6-10 | Every cell of the empty board differs from the same cell of the zero-valued declaration. This only compares the constants: `' '` is 32 and the zero value is 0. So the result has no cell left as declared. |
| Board.Cells | main.go:14 | Gives the 3x3 grid value held by a 3x3 array, cell for cell. This is the value that Go's by-value return hands to the caller. |
| Board.InitializeBoardTwice | main.go:5-14 | Two calls return two distinct arrays with equal contents. Initialisation is deterministic, and no result is aliased with another. |
| BoardTest.RowMismatches | main_test.go:8-12 | The reports for the first `cols` cells of a row. Each report names a cell of that row before `cols`, gives the rune found there, and that rune is not `' '`. Every cell before `cols` that is not `' '` is reported. There are at most `cols` reports. |
| BoardTest.Mismatches | main_test.go:7-13 | The reports for the first `rows` rows. Each report names a real cell in those rows, gives the rune found there, and that rune is not `' '`. Every cell in those rows that is not `' '` is reported; the test goes on after a failure. There are at most `rows * 3` reports. |
| BoardTest.RowMismatchesInOrder | main_test.go:8-12 | The reports of one row come in strictly increasing column order. |
| BoardTest.MismatchesInOrder | main_test.go:7-13 | The reports come in row-major order: a report for an earlier row comes first, and within a row the earlier column comes first. |
| BoardTest.NoRowMismatches | main_test.go:8-12 | A row reports nothing for its first `cols` cells if and only if each of those cells is `' '`. |
| BoardTest.NoMismatches | main_test.go:7-13 | The first `rows` rows report nothing if and only if every cell in them is `' '`. |
| BoardTest.CheckBoard | main_test.go:7-13 | The nested loops collect exactly `Mismatches(board, 3)`. The result is empty if and only if every cell of the board is `' '`. |
| BoardTest.TestInitialBoard | main_test.go:5-14 | Checking a freshly initialised board reports no cell. |

## Left out

- `main` (main.go:17-20) only prints the board with `log.Println`. That is I/O, and nothing about it is verified.
- The test's failure message (`t.Errorf` with `%d` and `%c` formatting) is not modelled. Each failure is modelled as a `Report` value holding the coordinates and the rune. The `testing.T` handle is not modelled.
- Go copies the `[3][3]rune` array when it is returned. The model returns a new `array2` instead. Freshness stands in for the copy: the caller's board is not aliased with any other board.
