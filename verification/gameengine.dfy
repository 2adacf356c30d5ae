/**
 * The board engine (src/game/GameEngine.ts): an 8×8 grid of 0/1 cells
 * owned by a `GameEngine` object. Placement, line detection and clearing
 * rewrite the `board` field cell by cell, as the source's nested loops do;
 * each method is proved against the specification functions below.
 */
module BoardEngine {
  import opened Types
  import PieceSet

  // ---------------------------------------------------------------------
  // Specification functions on boards

  /** createEmptyBoard: eight rows of eight zeros. */
  function EmptyBoard(): (b: Board)
    ensures WellFormed(b)
    ensures forall y, x :: 0 <= y < 8 && 0 <= x < 8 ==> b[y][x] == 0
  {
    seq(8, _ => seq(8, _ => 0))
  }

  /** Cell i of the piece lands on an empty cell inside the board when the origin is (ox, oy). */
  predicate CellFits(b: Board, cells: seq<Coord>, i: int, ox: int, oy: int)
    requires WellFormed(b) && 0 <= i < |cells|
  {
    OnBoard(ox + cells[i].x, oy + cells[i].y) && b[oy + cells[i].y][ox + cells[i].x] == 0
  }

  /** The placement rule: every translated cell is on the board and empty. */
  predicate Fits(b: Board, cells: seq<Coord>, ox: int, oy: int)
    requires WellFormed(b)
  {
    forall i :: 0 <= i < |cells| ==> CellFits(b, cells, i, ox, oy)
  }

  /** Some cell of the piece, translated by (ox, oy), lands on (x, y). */
  predicate Covers(cells: seq<Coord>, ox: int, oy: int, x: int, y: int) {
    exists i :: 0 <= i < |cells| && ox + cells[i].x == x && oy + cells[i].y == y
  }

  /** The board with the translated cells set to 1. */
  function Placed(b: Board, cells: seq<Coord>, ox: int, oy: int): (r: Board)
    requires WellFormed(b)
    ensures WellFormed(r)
  {
    seq(8, y requires 0 <= y < 8 => seq(8, x requires 0 <= x < 8 => if Covers(cells, ox, oy, x, y) then 1 else b[y][x]))
  }

  predicate RowFull(b: Board, y: int)
    requires WellFormed(b) && 0 <= y < 8
  {
    forall x :: 0 <= x < 8 ==> b[y][x] == 1
  }

  predicate ColFull(b: Board, x: int)
    requires WellFormed(b) && 0 <= x < 8
  {
    forall y :: 0 <= y < 8 ==> b[y][x] == 1
  }

  /** The indices below n whose flag is set, in ascending order. */
  function Collect(flags: seq<bool>, n: int): (r: seq<int>)
    requires 0 <= n <= |flags|
    ensures |r| <= n
  {
    if n == 0 then [] else Collect(flags, n - 1) + (if flags[n - 1] then [n - 1] else [])
  }

  function RowFlags(b: Board): (f: seq<bool>)
    requires WellFormed(b)
    ensures |f| == 8
  {
    seq(8, y requires 0 <= y < 8 => RowFull(b, y))
  }

  function ColFlags(b: Board): (f: seq<bool>)
    requires WellFormed(b)
    ensures |f| == 8
  {
    seq(8, x requires 0 <= x < 8 => ColFull(b, x))
  }

  /** The full rows of b, ascending. */
  function FullRows(b: Board): seq<int>
    requires WellFormed(b)
  {
    Collect(RowFlags(b), 8)
  }

  /** The full columns of b, ascending. */
  function FullCols(b: Board): seq<int>
    requires WellFormed(b)
  {
    Collect(ColFlags(b), 8)
  }

  predicate StrictlyIncreasing(s: seq<int>) {
    forall i, j :: 0 <= i < j < |s| ==> s[i] < s[j]
  }

  /** Collect lists exactly the flagged indices below n, each once, ascending. */
  lemma {:induction false} CollectExactly(flags: seq<bool>, n: int)
    requires 0 <= n <= |flags|
    ensures forall v :: v in Collect(flags, n) <==> 0 <= v < n && flags[v]
    ensures StrictlyIncreasing(Collect(flags, n))
    decreases n
  {
    if n > 0 {
      CollectExactly(flags, n - 1);
      var prev := Collect(flags, n - 1);
      forall k | 0 <= k < |prev| ensures prev[k] < n - 1 {
        assert prev[k] in prev;
      }
    }
  }

  /** fullRows / fullCols: exactly the full lines, ascending without repeats. */
  lemma FullLinesExactly(b: Board)
    requires WellFormed(b)
    ensures forall y :: y in FullRows(b) <==> 0 <= y < 8 && RowFull(b, y)
    ensures forall x :: x in FullCols(b) <==> 0 <= x < 8 && ColFull(b, x)
    ensures StrictlyIncreasing(FullRows(b)) && StrictlyIncreasing(FullCols(b))
    ensures forall k :: 0 <= k < |FullRows(b)| ==> 0 <= FullRows(b)[k] < 8
    ensures forall k :: 0 <= k < |FullCols(b)| ==> 0 <= FullCols(b)[k] < 8
  {
    CollectExactly(RowFlags(b), 8);
    CollectExactly(ColFlags(b), 8);
    forall k | 0 <= k < |FullRows(b)| ensures 0 <= FullRows(b)[k] < 8 {
      assert FullRows(b)[k] in FullRows(b);
    }
    forall k | 0 <= k < |FullCols(b)| ensures 0 <= FullCols(b)[k] < 8 {
      assert FullCols(b)[k] in FullCols(b);
    }
  }

  /** The board with every cell of the listed rows and columns set to 0. */
  function Cleared(b: Board, rows: seq<int>, cols: seq<int>): (r: Board)
    requires WellFormed(b)
    ensures WellFormed(r)
  {
    seq(8, y requires 0 <= y < 8 => seq(8, x requires 0 <= x < 8 => if y in rows || x in cols then 0 else b[y][x]))
  }

  /** Some origin in [0, 8)² accepts the piece. */
  predicate FitsAnywhere(b: Board, cells: seq<Coord>)
    requires WellFormed(b)
  {
    exists y, x :: 0 <= y < 8 && 0 <= x < 8 && Fits(b, cells, x, y)
  }

  /** Slot k of the bag holds a piece that fits somewhere. */
  predicate SlotFits(b: Board, bag: seq<Option<Piece>>, k: int)
    requires WellFormed(b) && 0 <= k < |bag|
  {
    bag[k].Some? && FitsAnywhere(b, bag[k].value.cells)
  }

  // ---------------------------------------------------------------------
  // Properties of the specification

  /** Clearing the detected lines leaves no full row and no full column. */
  lemma NoFullLineAfterClear(b: Board)
    requires WellFormed(b)
    ensures var c := Cleared(b, FullRows(b), FullCols(b));
      (forall y :: 0 <= y < 8 ==> !RowFull(c, y)) && (forall x :: 0 <= x < 8 ==> !ColFull(c, x))
  {
    FullLinesExactly(b);
    var rows, cols := FullRows(b), FullCols(b);
    var c := Cleared(b, rows, cols);
    forall y | 0 <= y < 8 ensures !RowFull(c, y) {
      if y in rows {
        assert c[y][0] == 0;
      } else if exists x :: 0 <= x < 8 && x in cols {
        var x :| 0 <= x < 8 && x in cols;
        assert c[y][x] == 0;
      } else {
        var x :| 0 <= x < 8 && b[y][x] != 1;
        assert c[y][x] == b[y][x];
      }
    }
    forall x | 0 <= x < 8 ensures !ColFull(c, x) {
      if x in cols {
        assert c[0][x] == 0;
      } else if exists y :: 0 <= y < 8 && y in rows {
        var y :| 0 <= y < 8 && y in rows;
        assert c[y][x] == 0;
      } else {
        var y :| 0 <= y < 8 && b[y][x] != 1;
        assert c[y][x] == b[y][x];
      }
    }
  }

  /** Cells that were 1 stay 1 after a placement. */
  lemma PlacedKeepsFilled(b: Board, cells: seq<Coord>, ox: int, oy: int)
    requires WellFormed(b)
    ensures forall y, x :: 0 <= y < 8 && 0 <= x < 8 && b[y][x] == 1 ==> Placed(b, cells, ox, oy)[y][x] == 1
  {
  }

  /** Once a non-empty piece is placed, it no longer fits at the same origin. */
  lemma PlacedBlocksSameSpot(b: Board, cells: seq<Coord>, ox: int, oy: int)
    requires WellFormed(b) && |cells| > 0 && Fits(b, cells, ox, oy)
    ensures !Fits(Placed(b, cells, ox, oy), cells, ox, oy)
  {
    var x, y := ox + cells[0].x, oy + cells[0].y;
    assert CellFits(b, cells, 0, ox, oy);
    assert Covers(cells, ox, oy, x, y);
    assert !CellFits(Placed(b, cells, ox, oy), cells, 0, ox, oy);
  }

  function FullBoard(): (b: Board)
    ensures WellFormed(b)
  {
    seq(8, _ => seq(8, _ => 1))
  }

  /** A full board (lineClearTestCases' last scenario) reports all eight rows and all eight columns. */
  lemma FullBoardClearsAll()
    ensures FullRows(FullBoard()) == [0, 1, 2, 3, 4, 5, 6, 7]
    ensures FullCols(FullBoard()) == [0, 1, 2, 3, 4, 5, 6, 7]
    ensures Cleared(FullBoard(), FullRows(FullBoard()), FullCols(FullBoard())) == EmptyBoard()
  {
    var b := FullBoard();
    assert forall y :: 0 <= y < 8 ==> RowFlags(b)[y];
    assert forall x :: 0 <= x < 8 ==> ColFlags(b)[x];
    assert FullRows(b) == [0, 1, 2, 3, 4, 5, 6, 7];
    assert FullCols(b) == [0, 1, 2, 3, 4, 5, 6, 7];
    var c := Cleared(b, FullRows(b), FullCols(b));
    forall y | 0 <= y < 8 ensures c[y] == EmptyBoard()[y] {
      assert y in FullRows(b);
    }
  }

  /** Every cell of a normalised piece lies inside its size box. */
  lemma NormalisedCellsInBox(p: Piece)
    requires PieceSet.Normalised(p)
    ensures forall i :: 0 <= i < |p.cells| ==> 0 <= p.cells[i].x < p.size.w && 0 <= p.cells[i].y < p.size.h
  {
    forall i | 0 <= i < |p.cells| ensures 0 <= p.cells[i].x < p.size.w && 0 <= p.cells[i].y < p.size.h {
      assert PieceSet.Xs(p.cells)[i] == p.cells[i].x && PieceSet.Ys(p.cells)[i] == p.cells[i].y;
    }
  }

  // ---------------------------------------------------------------------
  // Detection halves of clearLines / checkPotentialLineCompletion

  /** The row scan `for y … if (board[y].every(cell => cell === 1)) push(y)`. */
  method DetectFullRows(b: Board) returns (rows: seq<int>)
    requires WellFormed(b)
    ensures rows == FullRows(b)
  {
    rows := [];
    var y := 0;
    while y < 8
      invariant 0 <= y <= 8
      invariant rows == Collect(RowFlags(b), y)
    {
      if RowFull(b, y) {
        rows := rows + [y];
      }
      y := y + 1;
    }
  }

  /** The column scan `for x … if (board.every(row => row[x] === 1)) push(x)`. */
  method DetectFullCols(b: Board) returns (cols: seq<int>)
    requires WellFormed(b)
    ensures cols == FullCols(b)
  {
    cols := [];
    var x := 0;
    while x < 8
      invariant 0 <= x <= 8
      invariant cols == Collect(ColFlags(b), x)
    {
      if ColFull(b, x) {
        cols := cols + [x];
      }
      x := x + 1;
    }
  }

  lemma CoversPrefix(cells: seq<Coord>, i: int, ox: int, oy: int, x: int, y: int)
    requires 0 <= i < |cells|
    ensures Covers(cells[..i + 1], ox, oy, x, y) <==>
      Covers(cells[..i], ox, oy, x, y) || (ox + cells[i].x == x && oy + cells[i].y == y)
  {
    if Covers(cells[..i + 1], ox, oy, x, y) {
      var k :| 0 <= k < i + 1 && ox + cells[..i + 1][k].x == x && oy + cells[..i + 1][k].y == y;
      if k < i {
        assert cells[..i][k] == cells[k];
      }
    }
    if Covers(cells[..i], ox, oy, x, y) {
      var k :| 0 <= k < i && ox + cells[..i][k].x == x && oy + cells[..i][k].y == y;
      assert cells[..i + 1][k] == cells[k];
    }
    if ox + cells[i].x == x && oy + cells[i].y == y {
      assert cells[..i + 1][i] == cells[i];
    }
  }

  /** The write loop `for (const cell of piece.cells) board[y][x] = 1`, on a board value. */
  method WriteCells(b: Board, cells: seq<Coord>, ox: int, oy: int) returns (t: Board)
    requires WellFormed(b) && Fits(b, cells, ox, oy)
    ensures t == Placed(b, cells, ox, oy)
  {
    t := b;
    var i := 0;
    while i < |cells|
      invariant 0 <= i <= |cells|
      invariant WellFormed(t)
      invariant forall y, x :: 0 <= y < 8 && 0 <= x < 8 ==>
        t[y][x] == (if Covers(cells[..i], ox, oy, x, y) then 1 else b[y][x])
    {
      assert CellFits(b, cells, i, ox, oy);
      var x := ox + cells[i].x;
      var y := oy + cells[i].y;
      t := t[y := t[y][x := 1]];
      forall r, c | 0 <= r < 8 && 0 <= c < 8
        ensures t[r][c] == (if Covers(cells[..i + 1], ox, oy, c, r) then 1 else b[r][c])
      {
        CoversPrefix(cells, i, ox, oy, c, r);
      }
      i := i + 1;
    }
    assert cells[..|cells|] == cells;
    BoardExt(t, Placed(b, cells, ox, oy));
  }

  lemma BoardExt(a: Board, b: Board)
    requires WellFormed(a) && WellFormed(b)
    requires forall y, x :: 0 <= y < 8 && 0 <= x < 8 ==> a[y][x] == b[y][x]
    ensures a == b
  {
    forall y | 0 <= y < 8 ensures a[y] == b[y] {
    }
  }

  // ---------------------------------------------------------------------
  // The engine object

  class GameEngine {
    var board: Board

    /** Every operation keeps eight rows of eight 0/1 cells. */
    ghost predicate Valid()
      reads this
    {
      WellFormed(board)
    }

    constructor ()
      ensures Valid() && board == EmptyBoard()
    {
      board := EmptyBoard();
    }

    /** getBoard: a copy of the grid; boards are values here, so the copy shares nothing with the field. */
    function GetBoard(): (b: Board)
      reads this
      ensures b == board
    {
      board
    }

    /** canPlacePiece: a missing piece never fits; otherwise every translated cell must be on the board and empty. */
    method CanPlacePiece(piece: Option<Piece>, boardX: int, boardY: int) returns (ok: bool)
      requires Valid()
      ensures ok <==> piece.Some? && Fits(board, piece.value.cells, boardX, boardY)
    {
      if piece.None? {
        return false;
      }
      var cells := piece.value.cells;
      var i := 0;
      while i < |cells|
        invariant 0 <= i <= |cells|
        invariant forall k :: 0 <= k < i ==> CellFits(board, cells, k, boardX, boardY)
      {
        var x := boardX + cells[i].x;
        var y := boardY + cells[i].y;
        if x < 0 || x >= 8 || y < 0 || y >= 8 {
          assert !CellFits(board, cells, i, boardX, boardY);
          return false;
        }
        if board[y][x] != 0 {
          assert !CellFits(board, cells, i, boardX, boardY);
          return false;
        }
        i := i + 1;
      }
      return true;
    }

    /**
     * placePiece: answers as canPlacePiece does; on false the board is
     * untouched, on true exactly the translated cells become 1.
     */
    method PlacePiece(piece: Option<Piece>, boardX: int, boardY: int) returns (ok: bool)
      requires Valid()
      modifies this
      ensures Valid()
      ensures ok <==> piece.Some? && Fits(old(board), piece.value.cells, boardX, boardY)
      ensures !ok ==> board == old(board)
      ensures ok ==> board == Placed(old(board), piece.value.cells, boardX, boardY)
    {
      ok := CanPlacePiece(piece, boardX, boardY);
      if !ok {
        return;
      }
      board := WriteCells(board, piece.value.cells, boardX, boardY);
    }

    /** The inner loop of the row pass: `for x … board[y][x] = 0`. */
    method ClearRowCells(y: int)
      requires Valid() && 0 <= y < 8
      modifies this
      ensures Valid()
      ensures forall r, c :: 0 <= r < 8 && 0 <= c < 8 ==> board[r][c] == (if r == y then 0 else old(board)[r][c])
    {
      var x := 0;
      while x < 8
        invariant 0 <= x <= 8
        invariant WellFormed(board)
        invariant forall r, c :: 0 <= r < 8 && 0 <= c < 8 ==>
          board[r][c] == (if r == y && c < x then 0 else old(board)[r][c])
      {
        board := board[y := board[y][x := 0]];
        x := x + 1;
      }
    }

    /** The inner loop of the column pass: `for y … board[y][x] = 0`. */
    method ClearColCells(x: int)
      requires Valid() && 0 <= x < 8
      modifies this
      ensures Valid()
      ensures forall r, c :: 0 <= r < 8 && 0 <= c < 8 ==> board[r][c] == (if c == x then 0 else old(board)[r][c])
    {
      var y := 0;
      while y < 8
        invariant 0 <= y <= 8
        invariant WellFormed(board)
        invariant forall r, c :: 0 <= r < 8 && 0 <= c < 8 ==>
          board[r][c] == (if c == x && r < y then 0 else old(board)[r][c])
      {
        board := board[y := board[y][x := 0]];
        y := y + 1;
      }
    }

    /** The row pass of clearLines: every cell of each listed row becomes 0. */
    method ZeroRows(rows: seq<int>)
      requires Valid() && forall k :: 0 <= k < |rows| ==> 0 <= rows[k] < 8
      modifies this
      ensures Valid()
      ensures forall y, x :: 0 <= y < 8 && 0 <= x < 8 ==> board[y][x] == (if y in rows then 0 else old(board)[y][x])
    {
      var k := 0;
      while k < |rows|
        invariant 0 <= k <= |rows|
        invariant WellFormed(board)
        invariant forall y, x :: 0 <= y < 8 && 0 <= x < 8 ==>
          board[y][x] == (if y in rows[..k] then 0 else old(board)[y][x])
      {
        ClearRowCells(rows[k]);
        assert rows[..k + 1] == rows[..k] + [rows[k]];
        k := k + 1;
      }
      assert rows[..k] == rows;
    }

    /** The column pass of clearLines: every cell of each listed column becomes 0. */
    method ZeroCols(cols: seq<int>)
      requires Valid() && forall k :: 0 <= k < |cols| ==> 0 <= cols[k] < 8
      modifies this
      ensures Valid()
      ensures forall y, x :: 0 <= y < 8 && 0 <= x < 8 ==> board[y][x] == (if x in cols then 0 else old(board)[y][x])
    {
      var k := 0;
      while k < |cols|
        invariant 0 <= k <= |cols|
        invariant WellFormed(board)
        invariant forall y, x :: 0 <= y < 8 && 0 <= x < 8 ==>
          board[y][x] == (if x in cols[..k] then 0 else old(board)[y][x])
      {
        ClearColCells(cols[k]);
        assert cols[..k + 1] == cols[..k] + [cols[k]];
        k := k + 1;
      }
      assert cols[..k] == cols;
    }

    /**
     * clearLines: finds the full rows and columns on the board as it is,
     * then zeroes all of them, scoring 100 per line.
     */
    method ClearLines() returns (clearedRows: seq<int>, clearedCols: seq<int>, score: int)
      requires Valid()
      modifies this
      ensures Valid()
      ensures clearedRows == FullRows(old(board)) && clearedCols == FullCols(old(board))
      ensures board == Cleared(old(board), clearedRows, clearedCols)
      ensures score == 100 * (|clearedRows| + |clearedCols|)
    {
      ghost var b0 := board;
      clearedRows := DetectFullRows(board);
      clearedCols := DetectFullCols(board);
      FullLinesExactly(b0);
      ZeroRows(clearedRows);
      ghost var b1 := board;
      ZeroCols(clearedCols);
      forall y, x | 0 <= y < 8 && 0 <= x < 8
        ensures board[y][x] == Cleared(b0, clearedRows, clearedCols)[y][x]
      {
        assert board[y][x] == (if x in clearedCols then 0 else b1[y][x]);
      }
      BoardExt(board, Cleared(b0, clearedRows, clearedCols));
      score := (|clearedRows| + |clearedCols|) * 100;
    }

    /**
     * checkPotentialLineCompletion: on a scratch copy, the lines that
     * placing the piece would fill, i.e. what placePiece followed by
     * clearLines would report; nothing when the piece does not fit.
     */
    method CheckPotentialLineCompletion(piece: Option<Piece>, boardX: int, boardY: int)
      returns (wouldCompleteRows: seq<int>, wouldCompleteCols: seq<int>)
      requires Valid()
      ensures !(piece.Some? && Fits(board, piece.value.cells, boardX, boardY)) ==>
        wouldCompleteRows == [] && wouldCompleteCols == []
      ensures piece.Some? && Fits(board, piece.value.cells, boardX, boardY) ==>
        wouldCompleteRows == FullRows(Placed(board, piece.value.cells, boardX, boardY)) &&
        wouldCompleteCols == FullCols(Placed(board, piece.value.cells, boardX, boardY))
    {
      var ok := CanPlacePiece(piece, boardX, boardY);
      if !ok {
        return [], [];
      }
      var tempBoard := WriteCells(board, piece.value.cells, boardX, boardY);
      wouldCompleteRows := DetectFullRows(tempBoard);
      wouldCompleteCols := DetectFullCols(tempBoard);
    }

    /** reset: back to the empty board. */
    method Reset()
      modifies this
      ensures Valid() && board == EmptyBoard()
    {
      board := EmptyBoard();
    }

    /** canPieceFitAnywhere: tries all 64 origins row by row, stopping at the first that fits. */
    method CanPieceFitAnywhere(piece: Piece) returns (fits: bool)
      requires Valid()
      ensures fits <==> FitsAnywhere(board, piece.cells)
    {
      var y := 0;
      while y < 8
        invariant 0 <= y <= 8
        invariant forall r, c :: 0 <= r < y && 0 <= c < 8 ==> !Fits(board, piece.cells, c, r)
      {
        var x := 0;
        while x < 8
          invariant 0 <= x <= 8
          invariant forall r, c :: (0 <= r < y && 0 <= c < 8) || (r == y && 0 <= c < x) ==> !Fits(board, piece.cells, c, r)
        {
          var ok := CanPlacePiece(Some(piece), x, y);
          if ok {
            return true;
          }
          x := x + 1;
        }
        y := y + 1;
      }
      return false;
    }

    /**
     * isGameOver: false when every slot is empty (a new bag is due);
     * otherwise true exactly when no remaining piece fits anywhere.
     */
    method IsGameOver(bag: seq<Option<Piece>>) returns (over: bool)
      requires Valid()
      ensures over <==> (exists k :: 0 <= k < |bag| && bag[k].Some?) && (forall k :: 0 <= k < |bag| ==> !SlotFits(board, bag, k))
    {
      var validPieces: seq<Piece> := [];
      ghost var slots: seq<int> := [];
      var k := 0;
      while k < |bag|
        invariant 0 <= k <= |bag|
        invariant |slots| == |validPieces|
        invariant forall j :: 0 <= j < |slots| ==> 0 <= slots[j] < |bag| && bag[slots[j]] == Some(validPieces[j])
        invariant forall j :: 0 <= j < k && bag[j].Some? ==> j in slots
      {
        if bag[k].Some? {
          validPieces := validPieces + [bag[k].value];
          slots := slots + [k];
        }
        k := k + 1;
      }
      if |validPieces| == 0 {
        return false;
      }
      assert bag[slots[0]].Some?;
      var i := 0;
      while i < |validPieces|
        invariant 0 <= i <= |validPieces|
        invariant forall j :: 0 <= j < i ==> !FitsAnywhere(board, validPieces[j].cells)
      {
        var fits := CanPieceFitAnywhere(validPieces[i]);
        if fits {
          assert SlotFits(board, bag, slots[i]);
          return false;
        }
        i := i + 1;
      }
      forall j | 0 <= j < |bag| ensures !SlotFits(board, bag, j) {
        if bag[j].Some? {
          var t :| 0 <= t < |slots| && slots[t] == j;
          assert !FitsAnywhere(board, validPieces[t].cells);
        }
      }
      return true;
    }
  }

  /** On an empty board a piece whose cells stay inside [0, 8)² fits at the origin, so the game is not over. */
  lemma EmptyBoardAcceptsBoxedPiece(cells: seq<Coord>)
    requires forall i :: 0 <= i < |cells| ==> OnBoard(cells[i].x, cells[i].y)
    ensures Fits(EmptyBoard(), cells, 0, 0)
    ensures FitsAnywhere(EmptyBoard(), cells)
  {
    assert Fits(EmptyBoard(), cells, 0, 0);
  }

  /** A normalised piece no larger than the board fits at the origin of the empty board. */
  lemma NormalisedFitsEmptyBoard(p: Piece)
    requires PieceSet.Normalised(p) && p.size.w <= 8 && p.size.h <= 8
    ensures Fits(EmptyBoard(), p.cells, 0, 0)
  {
    NormalisedCellsInBox(p);
    EmptyBoardAcceptsBoxedPiece(p.cells);
  }
}
