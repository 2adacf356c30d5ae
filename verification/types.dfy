/**
 * Core value types of the block-placement puzzle: coordinates, cells,
 * boards, pieces and bags, plus the small Option/Result wrappers used for
 * the source's `undefined`/`null` results and thrown errors.
 */
module Types {

  datatype Option<T> = None | Some(value: T)

  /** A thrown `Error` becomes `Err` carrying its message. */
  datatype Result<T> = Ok(value: T) | Err(message: string)

  /** x is the column, y the row. */
  datatype Coord = Coord(x: int, y: int)

  /** A board cell: 0 is empty, 1 is occupied. */
  type Cell = c: int | c == 0 || c == 1

  /** The 8×8 grid, row-major: board[y][x]. */
  type Board = seq<seq<Cell>>

  datatype Size = Size(w: int, h: int)

  /** `color` and `image` are optional in the source; absent is None. */
  datatype Piece = Piece(id: string, cells: seq<Coord>, size: Size, color: Option<string>, image: Option<string>)

  /** Three slots, each holding a piece or nothing (already placed). */
  type Bag = b: seq<Option<Piece>> | |b| == 3 witness [None, None, None]

  const BoardSize: int := 8

  /** Both coordinates lie on the 8×8 board. */
  predicate OnBoard(x: int, y: int) {
    0 <= x < BoardSize && 0 <= y < BoardSize
  }

  /** Exactly 8 rows of exactly 8 cells (each cell is 0 or 1 by its type). */
  predicate WellFormed(b: Board) {
    |b| == BoardSize && forall y :: 0 <= y < |b| ==> |b[y]| == BoardSize
  }

  /** Decimal digit of d. */
  function DigitChar(d: int): (c: char)
    requires 0 <= d < 10
    ensures '0' <= c <= '9'
  {
    ['0', '1', '2', '3', '4', '5', '6', '7', '8', '9'][d]
  }

  /** Decimal form of a natural number, as JavaScript's `String(n)` writes it. */
  function NatToString(n: nat): (s: string)
    ensures |s| >= 1
    ensures forall i :: 0 <= i < |s| ==> '0' <= s[i] <= '9'
    decreases n
  {
    if n < 10 then [DigitChar(n)] else NatToString(n / 10) + [DigitChar(n % 10)]
  }

  /** Decimal form of an integer, with a leading '-' for negatives. */
  function IntToString(n: int): (s: string)
    ensures |s| >= 1
    ensures (s[0] == '-') == (n < 0)
  {
    if n < 0 then "-" + NatToString(-n) else NatToString(n)
  }
}
