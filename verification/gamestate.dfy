/**
 * The pure helpers of the game hook (src/hooks/useGameState.ts): the
 * per-cell delays of the line-clear animation, the confetti cells, the
 * total animation time, and the ghost preview's validity, origin and
 * line-completion query.
 *
 * The hook keys cells by the string `${row}-${col}`; here a key is the
 * pair itself. The delay map and the confetti set are built by nested
 * loops in the source, and so they are here.
 */
module GameStateHook {
  import opened Types
  import PieceSet
  import BoardEngine

  /** The cell `${row}-${col}`. */
  datatype CellKey = CellKey(row: int, col: int)

  /** `baseDelay`: milliseconds between neighbouring cells of a cleared line. */
  const BaseDelay: int := 50

  /** `animationDuration`: how long one cell's clear animation runs. */
  const AnimationDuration: int := 600

  // ---------------------------------------------------------------------
  // Which cells a clear animates, and with what delay

  /** k is a cell of one of the cleared rows. */
  predicate InRows(rows: seq<int>, k: CellKey) {
    k.row in rows && 0 <= k.col < 8
  }

  /** k is a cell of one of the cleared columns. */
  predicate InCols(cols: seq<int>, k: CellKey) {
    0 <= k.row < 8 && k.col in cols
  }

  /** Every cell of the cleared rows and of the cleared columns. */
  function ClearedKeys(rows: seq<int>, cols: seq<int>): (s: set<CellKey>)
    ensures forall k :: k in s <==> InRows(rows, k) || InCols(cols, k)
  {
    (set r, c | r in rows && 0 <= c < 8 :: CellKey(r, c)) + (set r, c | 0 <= r < 8 && c in cols :: CellKey(r, c))
  }

  function MaxInt(a: int, b: int): (m: int)
    ensures m >= a && m >= b && (m == a || m == b)
  {
    if a >= b then a else b
  }

  /**
   * The delay a cleared cell is meant to get: rows sweep left to right
   * (column · 50), columns top to bottom (row · 50), and a cell on both a
   * cleared row and a cleared column waits for the later of the two.
   */
  function ExpectedDelay(rows: seq<int>, cols: seq<int>, k: CellKey): int {
    if InRows(rows, k) && InCols(cols, k) then MaxInt(k.col * BaseDelay, k.row * BaseDelay)
    else if InRows(rows, k) then k.col * BaseDelay
    else k.row * BaseDelay
  }

  /** m is the delay map of clearing `rows` and `cols`. */
  ghost predicate IsDelayMap(rows: seq<int>, cols: seq<int>, m: map<CellKey, int>) {
    && m.Keys == ClearedKeys(rows, cols)
    && forall k :: k in m ==> m[k] == ExpectedDelay(rows, cols, k)
  }

  // ---------------------------------------------------------------------
  // calculateCellDelays

  /** The row pass's inner loop: `for col … cellDelays.set(key(row, col), col * baseDelay)`. */
  method SetRowDelays(m: map<CellKey, int>, row: int) returns (m': map<CellKey, int>)
    ensures forall k :: k in m' <==> k in m || (k.row == row && 0 <= k.col < 8)
    ensures forall k :: k in m' ==> m'[k] == if k.row == row && 0 <= k.col < 8 then k.col * BaseDelay else m[k]
  {
    m' := m;
    for col := 0 to 8
      invariant forall k :: k in m' <==> k in m || (k.row == row && 0 <= k.col < col)
      invariant forall k :: k in m' ==> m'[k] == if k.row == row && 0 <= k.col < col then k.col * BaseDelay else m[k]
    {
      m' := m'[CellKey(row, col) := col * BaseDelay];
    }
  }

  /**
   * The column pass's inner loop: each cell of the column gets row · 50,
   * or the larger of that and the delay it already has.
   */
  method SetColDelays(m: map<CellKey, int>, col: int) returns (m': map<CellKey, int>)
    ensures forall k :: k in m' <==> k in m || (k.col == col && 0 <= k.row < 8)
    ensures forall k :: k in m' ==>
      m'[k] == if k.col == col && 0 <= k.row < 8 then (if k in m then MaxInt(m[k], k.row * BaseDelay) else k.row * BaseDelay) else m[k]
  {
    m' := m;
    for row := 0 to 8
      invariant forall k :: k in m' <==> k in m || (k.col == col && 0 <= k.row < row)
      invariant forall k :: k in m' ==>
        m'[k] == if k.col == col && 0 <= k.row < row then (if k in m then MaxInt(m[k], k.row * BaseDelay) else k.row * BaseDelay) else m[k]
    {
      var key := CellKey(row, col);
      var delay := row * BaseDelay;
      if key in m' {
        m' := m'[key := MaxInt(m'[key], delay)];
      } else {
        m' := m'[key := delay];
      }
    }
  }

  /** Adding one more cleared row to the rows already swept keeps the row pass's map exact. */
  lemma RowPassStep(rows: seq<int>, i: int, m: map<CellKey, int>, m': map<CellKey, int>)
    requires 0 <= i < |rows| && IsDelayMap(rows[..i], [], m)
    requires forall k :: k in m' <==> k in m || (k.row == rows[i] && 0 <= k.col < 8)
    requires forall k :: k in m' ==> m'[k] == if k.row == rows[i] && 0 <= k.col < 8 then k.col * BaseDelay else m[k]
    ensures IsDelayMap(rows[..i + 1], [], m')
  {
    assert rows[..i + 1] == rows[..i] + [rows[i]];
    forall k ensures k in m' <==> k in ClearedKeys(rows[..i + 1], []) {
    }
    forall k | k in m' ensures m'[k] == ExpectedDelay(rows[..i + 1], [], k) {
    }
  }

  /** Adding one more cleared column to the columns already swept keeps the map exact. */
  lemma ColPassStep(rows: seq<int>, cols: seq<int>, j: int, m: map<CellKey, int>, m': map<CellKey, int>)
    requires 0 <= j < |cols| && IsDelayMap(rows, cols[..j], m)
    requires forall k :: k in m' <==> k in m || (k.col == cols[j] && 0 <= k.row < 8)
    requires forall k :: k in m' ==>
      m'[k] == if k.col == cols[j] && 0 <= k.row < 8 then (if k in m then MaxInt(m[k], k.row * BaseDelay) else k.row * BaseDelay) else m[k]
    ensures IsDelayMap(rows, cols[..j + 1], m')
  {
    assert cols[..j + 1] == cols[..j] + [cols[j]];
    forall k ensures k in m' <==> k in ClearedKeys(rows, cols[..j + 1]) {
    }
    forall k | k in m' ensures m'[k] == ExpectedDelay(rows, cols[..j + 1], k) {
      if k.col == cols[j] && 0 <= k.row < 8 && k in m {
        assert m[k] == ExpectedDelay(rows, cols[..j], k);
      }
    }
  }

  /**
   * calculateCellDelays: the rows are swept first, then the columns; the
   * result is the delay map of the clear.
   */
  method CalculateCellDelays(clearingRows: seq<int>, clearingCols: seq<int>) returns (cellDelays: map<CellKey, int>)
    ensures IsDelayMap(clearingRows, clearingCols, cellDelays)
  {
    cellDelays := map[];
    for i := 0 to |clearingRows|
      invariant IsDelayMap(clearingRows[..i], [], cellDelays)
    {
      var next := SetRowDelays(cellDelays, clearingRows[i]);
      RowPassStep(clearingRows, i, cellDelays, next);
      cellDelays := next;
    }
    assert clearingRows[..|clearingRows|] == clearingRows;
    for j := 0 to |clearingCols|
      invariant IsDelayMap(clearingRows, clearingCols[..j], cellDelays)
    {
      var next := SetColDelays(cellDelays, clearingCols[j]);
      ColPassStep(clearingRows, clearingCols, j, cellDelays, next);
      cellDelays := next;
    }
    assert clearingCols[..|clearingCols|] == clearingCols;
  }

  /** A cell of a cleared row that is on no cleared column waits column · 50. */
  lemma RowCellDelay(rows: seq<int>, cols: seq<int>, m: map<CellKey, int>, row: int, col: int)
    requires IsDelayMap(rows, cols, m) && row in rows && 0 <= col < 8 && !InCols(cols, CellKey(row, col))
    ensures CellKey(row, col) in m && m[CellKey(row, col)] == col * 50
  {
    assert InRows(rows, CellKey(row, col));
  }

  /** A cell of a cleared column waits row · 50, or its row delay when that is later and its row is cleared too. */
  lemma ColCellDelay(rows: seq<int>, cols: seq<int>, m: map<CellKey, int>, row: int, col: int)
    requires IsDelayMap(rows, cols, m) && 0 <= row < 8 && col in cols
    ensures CellKey(row, col) in m
    ensures row in rows && 0 <= col < 8 ==> m[CellKey(row, col)] == MaxInt(col * 50, row * 50)
    ensures !(row in rows && 0 <= col < 8) ==> m[CellKey(row, col)] == row * 50
  {
    assert InCols(cols, CellKey(row, col));
  }

  /** Every delay lies between 0 and 350 ms, whatever lines are cleared. */
  lemma DelaysBounded(rows: seq<int>, cols: seq<int>, m: map<CellKey, int>)
    requires IsDelayMap(rows, cols, m)
    ensures forall k :: k in m ==> 0 <= m[k] <= 350
  {
    forall k | k in m ensures 0 <= m[k] <= 350 {
      assert InRows(rows, k) || InCols(cols, k);
    }
  }

  // ---------------------------------------------------------------------
  // The confetti cells

  /** The confetti set of placePiece: every cell of the cleared rows, then of the cleared columns. */
  method ConfettiCells(clearedRows: seq<int>, clearedCols: seq<int>) returns (confetti: set<CellKey>)
    ensures confetti == ClearedKeys(clearedRows, clearedCols)
  {
    confetti := {};
    for i := 0 to |clearedRows|
      invariant forall k :: k in confetti <==> InRows(clearedRows[..i], k)
    {
      for col := 0 to 8
        invariant forall k :: k in confetti <==> InRows(clearedRows[..i], k) || (k.row == clearedRows[i] && 0 <= k.col < col)
      {
        confetti := confetti + {CellKey(clearedRows[i], col)};
      }
      assert clearedRows[..i + 1] == clearedRows[..i] + [clearedRows[i]];
    }
    assert clearedRows[..|clearedRows|] == clearedRows;
    for j := 0 to |clearedCols|
      invariant forall k :: k in confetti <==> InRows(clearedRows, k) || InCols(clearedCols[..j], k)
    {
      for row := 0 to 8
        invariant forall k :: k in confetti <==> InRows(clearedRows, k) || InCols(clearedCols[..j], k) || (k.col == clearedCols[j] && 0 <= k.row < row)
      {
        confetti := confetti + {CellKey(row, clearedCols[j])};
      }
      assert clearedCols[..j + 1] == clearedCols[..j] + [clearedCols[j]];
    }
    assert clearedCols[..|clearedCols|] == clearedCols;
  }

  /** The confetti falls on exactly the cells that get a delay. */
  lemma ConfettiMatchesDelays(rows: seq<int>, cols: seq<int>, m: map<CellKey, int>, confetti: set<CellKey>)
    requires IsDelayMap(rows, cols, m) && confetti == ClearedKeys(rows, cols)
    ensures confetti == m.Keys
  {
  }

  // ---------------------------------------------------------------------
  // The animation's total duration

  /** `Math.max(...cellDelays.values()) + animationDuration`, for a clear that animates at least one cell. */
  method TotalDuration(cellDelays: map<CellKey, int>) returns (total: int)
    requires |cellDelays| > 0
    ensures total - AnimationDuration in cellDelays.Values
    ensures forall k :: k in cellDelays ==> cellDelays[k] <= total - AnimationDuration
  {
    var left := cellDelays.Keys;
    var first :| first in left;
    var maxDelay := cellDelays[first];
    left := left - {first};
    while left != {}
      invariant left <= cellDelays.Keys
      invariant maxDelay in cellDelays.Values
      invariant forall k :: k in cellDelays && k !in left ==> cellDelays[k] <= maxDelay
      decreases |left|
    {
      var k :| k in left;
      maxDelay := MaxInt(maxDelay, cellDelays[k]);
      left := left - {k};
    }
    total := maxDelay + AnimationDuration;
  }

  /**
   * Whenever a line is cleared some cell waits the full 350 ms (the last
   * cell of a row, or the bottom cell of a column), so the longest delay
   * is 350 and the whole animation takes 950 ms.
   */
  lemma LongestDelay(rows: seq<int>, cols: seq<int>, m: map<CellKey, int>)
    requires IsDelayMap(rows, cols, m) && (|rows| > 0 || |cols| > 0)
    ensures |m| > 0
    ensures 350 in m.Values && forall k :: k in m ==> m[k] <= 350
  {
    DelaysBounded(rows, cols, m);
    var k := if |rows| > 0 then CellKey(rows[0], 7) else CellKey(7, cols[0]);
    assert k in m;
    assert m[k] == 350;
    assert m.Keys != {};
  }

  // ---------------------------------------------------------------------
  // The ghost preview

  /** A board cell the pointer is over, as `{ row, col }`. */
  datatype Target = Target(row: int, col: int)

  /** The ghost may be dropped: one target per piece cell, each on the board and empty. */
  predicate GhostValid(piece: Piece, targets: seq<Target>, board: Board)
    requires WellFormed(board)
    ensures GhostValid(piece, targets, board) ==>
      forall t :: t in targets ==> 0 <= t.row < 8 && 0 <= t.col < 8 && board[t.row][t.col] == 0
  {
    && |targets| == |piece.cells|
    && forall i :: 0 <= i < |targets| ==>
         0 <= targets[i].row < 8 && 0 <= targets[i].col < 8 && board[targets[i].row][targets[i].col] == 0
  }

  function Cols(targets: seq<Target>): (xs: seq<int>)
    ensures |xs| == |targets| && forall i :: 0 <= i < |targets| ==> xs[i] == targets[i].col
  {
    seq(|targets|, i requires 0 <= i < |targets| => targets[i].col)
  }

  function Rows(targets: seq<Target>): (ys: seq<int>)
    ensures |ys| == |targets| && forall i :: 0 <= i < |targets| ==> ys[i] == targets[i].row
  {
    seq(|targets|, i requires 0 <= i < |targets| => targets[i].row)
  }

  /**
   * The placement origin: the smallest column and the smallest row among
   * the targets (None where the source's `Math.min()` of nothing is
   * Infinity).
   */
  function GhostOrigin(targets: seq<Target>): (o: Option<Coord>)
    ensures o.None? <==> |targets| == 0
    ensures o.Some? ==> o.value.x in Cols(targets) && o.value.y in Rows(targets)
    ensures o.Some? ==> forall i :: 0 <= i < |targets| ==> o.value.x <= targets[i].col && o.value.y <= targets[i].row
  {
    if |targets| == 0 then None
    else Some(Coord(PieceSet.Min(Cols(targets)), PieceSet.Min(Rows(targets))))
  }

  /** The targets a piece covers when its origin is (ox, oy). */
  function Translated(cells: seq<Coord>, ox: int, oy: int): (ts: seq<Target>)
    ensures |ts| == |cells| && forall i :: 0 <= i < |cells| ==> ts[i] == Target(oy + cells[i].y, ox + cells[i].x)
  {
    seq(|cells|, i requires 0 <= i < |cells| => Target(oy + cells[i].y, ox + cells[i].x))
  }

  /** Over the cells the piece would cover, the ghost is valid exactly when the engine would accept the placement. */
  lemma GhostValidIffFits(piece: Piece, board: Board, ox: int, oy: int)
    requires WellFormed(board)
    ensures GhostValid(piece, Translated(piece.cells, ox, oy), board) <==> BoardEngine.Fits(board, piece.cells, ox, oy)
  {
    var ts := Translated(piece.cells, ox, oy);
    if GhostValid(piece, ts, board) {
      forall i | 0 <= i < |piece.cells| ensures BoardEngine.CellFits(board, piece.cells, i, ox, oy) {
        assert ts[i] == Target(oy + piece.cells[i].y, ox + piece.cells[i].x);
      }
    }
    if BoardEngine.Fits(board, piece.cells, ox, oy) {
      forall i | 0 <= i < |ts| ensures 0 <= ts[i].row < 8 && 0 <= ts[i].col < 8 && board[ts[i].row][ts[i].col] == 0 {
        assert BoardEngine.CellFits(board, piece.cells, i, ox, oy);
      }
    }
  }

  /** Shifting every element by d shifts the minimum by d. */
  lemma MinShifted(xs: seq<int>, ys: seq<int>, d: int)
    requires |xs| > 0 && |ys| == |xs| && forall i :: 0 <= i < |xs| ==> ys[i] == xs[i] + d
    ensures PieceSet.Min(ys) == PieceSet.Min(xs) + d
  {
    var a :| 0 <= a < |ys| && ys[a] == PieceSet.Min(ys);
    var b :| 0 <= b < |xs| && xs[b] == PieceSet.Min(xs);
    assert PieceSet.Min(ys) <= ys[b];
    assert PieceSet.Min(xs) <= xs[a];
  }

  /** For a piece whose cells reach both axes (as every normalised piece's do), the ghost's origin is where the piece was translated to. */
  lemma GhostOriginOfTranslation(piece: Piece, ox: int, oy: int)
    requires |piece.cells| > 0 && PieceSet.Min(PieceSet.Xs(piece.cells)) == 0 && PieceSet.Min(PieceSet.Ys(piece.cells)) == 0
    ensures GhostOrigin(Translated(piece.cells, ox, oy)) == Some(Coord(ox, oy))
  {
    var ts := Translated(piece.cells, ox, oy);
    MinShifted(PieceSet.Xs(piece.cells), Cols(ts), ox);
    MinShifted(PieceSet.Ys(piece.cells), Rows(ts), oy);
  }

  /**
   * When the pointer covers exactly the cells of such a piece, the preview
   * asks the engine at the piece's own origin, and the ghost is valid
   * exactly when the engine would place the piece there.
   */
  lemma GhostAgreesWithEngine(piece: Piece, board: Board, ox: int, oy: int)
    requires WellFormed(board)
    requires |piece.cells| > 0 && PieceSet.Min(PieceSet.Xs(piece.cells)) == 0 && PieceSet.Min(PieceSet.Ys(piece.cells)) == 0
    ensures GhostOrigin(Translated(piece.cells, ox, oy)) == Some(Coord(ox, oy))
    ensures GhostValid(piece, Translated(piece.cells, ox, oy), board) <==> BoardEngine.Fits(board, piece.cells, ox, oy)
  {
    GhostOriginOfTranslation(piece, ox, oy);
    GhostValidIffFits(piece, board, ox, oy);
  }

  /**
   * The preview part of updateGhostPosition: validity, origin, and the
   * lines the drop would complete, asked of the engine only when the ghost
   * is valid (with no targets the origin is irrelevant and (0, 0) is
   * used).
   */
  method GhostPreview(engine: BoardEngine.GameEngine, piece: Piece, targetCells: seq<Target>)
    returns (valid: bool, origin: Option<Coord>, wouldCompleteRows: seq<int>, wouldCompleteCols: seq<int>)
    requires engine.Valid()
    ensures valid == GhostValid(piece, targetCells, engine.board)
    ensures origin == GhostOrigin(targetCells)
    ensures !valid ==> wouldCompleteRows == [] && wouldCompleteCols == []
    ensures valid ==> (
      var o := if origin.Some? then origin.value else Coord(0, 0);
      && (BoardEngine.Fits(engine.board, piece.cells, o.x, o.y) ==>
            wouldCompleteRows == BoardEngine.FullRows(BoardEngine.Placed(engine.board, piece.cells, o.x, o.y))
            && wouldCompleteCols == BoardEngine.FullCols(BoardEngine.Placed(engine.board, piece.cells, o.x, o.y)))
      && (!BoardEngine.Fits(engine.board, piece.cells, o.x, o.y) ==> wouldCompleteRows == [] && wouldCompleteCols == []))
  {
    valid := GhostValid(piece, targetCells, engine.board);
    origin := GhostOrigin(targetCells);
    if !valid {
      return valid, origin, [], [];
    }
    var o := if origin.Some? then origin.value else Coord(0, 0);
    wouldCompleteRows, wouldCompleteCols := engine.CheckPotentialLineCompletion(Some(piece), o.x, o.y);
  }
}
