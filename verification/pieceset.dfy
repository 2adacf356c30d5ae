/**
 * The piece library (src/game/PieceSet.ts): the constant polyomino
 * templates, their selection weights, look-ups, cloning and the 90°
 * clockwise rotation with re-normalisation to the origin.
 */
module PieceSet {
  import opened Types
  import Random

  /** Image path chosen by cell count (sizes above 5 fall back to red). */
  function ImageForPieceSize(cellCount: int): (path: string)
    ensures path == "/images/brick_red.png" <==> !(2 <= cellCount <= 5)
  {
    if cellCount == 1 then "/images/brick_red.png"
    else if cellCount == 2 then "/images/brick_blue.png"
    else if cellCount == 3 then "/images/brick_green.png"
    else if cellCount == 4 then "/images/brick_yellow.png"
    else if cellCount == 5 then "/images/brick_purple.png"
    else "/images/brick_red.png"
  }

  /** Sizes 1 to 5 each get their own image. */
  lemma ImagesPerSizeDistinct(a: int, b: int)
    requires 1 <= a <= 5 && 1 <= b <= 5 && a != b
    ensures ImageForPieceSize(a) != ImageForPieceSize(b)
  {
  }

  const MONO: Piece := Piece("MONO", [Coord(0, 0)], Size(1, 1), None, Some("/images/brick_red.png"))
  const DOMINO_H: Piece := Piece("DOMINO_H", [Coord(0, 0), Coord(1, 0)], Size(2, 1), None, Some("/images/brick_yellow.png"))
  const DOMINO_V: Piece := Piece("DOMINO_V", [Coord(0, 0), Coord(0, 1)], Size(1, 2), None, Some("/images/brick_yellow.png"))
  const TROMINO_I: Piece := Piece("TROMINO_I", [Coord(0, 0), Coord(1, 0), Coord(2, 0)], Size(3, 1), None, Some(ImageForPieceSize(3)))
  const TROMINO_L: Piece := Piece("TROMINO_L", [Coord(0, 0), Coord(0, 1), Coord(1, 1)], Size(2, 2), None, Some(ImageForPieceSize(3)))
  const TETROMINO_I: Piece := Piece("TETROMINO_I", [Coord(0, 0), Coord(1, 0), Coord(2, 0), Coord(3, 0)], Size(4, 1), None, Some("/images/brick_red.png"))
  const TETROMINO_O: Piece := Piece("TETROMINO_O", [Coord(0, 0), Coord(1, 0), Coord(0, 1), Coord(1, 1)], Size(2, 2), None, Some("/images/brick_red.png"))
  const TETROMINO_T: Piece := Piece("TETROMINO_T", [Coord(1, 0), Coord(0, 1), Coord(1, 1), Coord(2, 1)], Size(3, 2), None, Some("/images/brick_red.png"))
  const TETROMINO_L: Piece := Piece("TETROMINO_L", [Coord(0, 0), Coord(0, 1), Coord(0, 2), Coord(1, 2)], Size(2, 3), None, Some("/images/brick_blue.png"))
  const TETROMINO_J: Piece := Piece("TETROMINO_J", [Coord(1, 0), Coord(1, 1), Coord(1, 2), Coord(0, 2)], Size(2, 3), None, Some(ImageForPieceSize(4)))
  const TETROMINO_S: Piece := Piece("TETROMINO_S", [Coord(1, 0), Coord(2, 0), Coord(0, 1), Coord(1, 1)], Size(3, 2), None, Some(ImageForPieceSize(4)))
  const TETROMINO_Z: Piece := Piece("TETROMINO_Z", [Coord(0, 0), Coord(1, 0), Coord(1, 1), Coord(2, 1)], Size(3, 2), None, Some("/images/brick_blue.png"))
  const PENTOMINO_I: Piece := Piece("PENTOMINO_I", [Coord(0, 0), Coord(1, 0), Coord(2, 0), Coord(3, 0), Coord(4, 0)], Size(5, 1), None, Some(ImageForPieceSize(5)))
  const HEXOMINO_3X2: Piece := Piece("HEXOMINO_3X2", [Coord(0, 0), Coord(1, 0), Coord(2, 0), Coord(0, 1), Coord(1, 1), Coord(2, 1)], Size(3, 2), None, Some("/images/brick_green.png"))
  const BIG_L_3X3: Piece := Piece("BIG_L_3X3", [Coord(0, 0), Coord(0, 1), Coord(0, 2), Coord(1, 2), Coord(2, 2)], Size(3, 3), None, Some(ImageForPieceSize(1)))
  const BIG_BLOCK_3X3: Piece := Piece("BIG_BLOCK_3X3", [Coord(0, 0), Coord(1, 0), Coord(2, 0), Coord(0, 1), Coord(1, 1), Coord(2, 1), Coord(0, 2), Coord(1, 2), Coord(2, 2)], Size(3, 3), None, Some(ImageForPieceSize(2)))

  /** PIECE_LIBRARY, in its declared order. */
  const Library: seq<Piece> := [
    MONO, DOMINO_H, DOMINO_V, TROMINO_I, TROMINO_L,
    TETROMINO_I, TETROMINO_O, TETROMINO_T, TETROMINO_L, TETROMINO_J, TETROMINO_S, TETROMINO_Z,
    PENTOMINO_I, HEXOMINO_3X2, BIG_L_3X3, BIG_BLOCK_3X3
  ]

  /** PIECE_WEIGHTS: relative selection weight per piece id. */
  const Weights: map<string, real> := map[
    "MONO" := 0.0, "DOMINO_H" := 1.8, "DOMINO_V" := 1.8, "TROMINO_I" := 1.5, "TROMINO_L" := 1.5,
    "TETROMINO_I" := 1.0, "TETROMINO_O" := 1.2, "TETROMINO_T" := 1.2, "TETROMINO_L" := 1.0,
    "TETROMINO_J" := 1.0, "TETROMINO_S" := 1.0, "TETROMINO_Z" := 1.0,
    "PENTOMINO_I" := 0.8, "HEXOMINO_3X2" := 0.8, "BIG_L_3X3" := 0.8, "BIG_BLOCK_3X3" := 0.8
  ]

  // ---------------------------------------------------------------------
  // Minimum and maximum of coordinate lists (Math.min / Math.max over a
  // non-empty list)

  function Xs(cells: seq<Coord>): (xs: seq<int>)
    ensures |xs| == |cells| && forall i :: 0 <= i < |cells| ==> xs[i] == cells[i].x
  {
    seq(|cells|, i requires 0 <= i < |cells| => cells[i].x)
  }

  function Ys(cells: seq<Coord>): (ys: seq<int>)
    ensures |ys| == |cells| && forall i :: 0 <= i < |cells| ==> ys[i] == cells[i].y
  {
    seq(|cells|, i requires 0 <= i < |cells| => cells[i].y)
  }

  function Min(xs: seq<int>): (m: int)
    requires |xs| > 0
    ensures m in xs && forall i :: 0 <= i < |xs| ==> m <= xs[i]
  {
    if |xs| == 1 then xs[0]
    else
      var rest := Min(xs[1..]);
      if xs[0] <= rest then xs[0] else rest
  }

  function Max(xs: seq<int>): (m: int)
    requires |xs| > 0
    ensures m in xs && forall i :: 0 <= i < |xs| ==> xs[i] <= m
  {
    if |xs| == 1 then xs[0]
    else
      var rest := Max(xs[1..]);
      if xs[0] >= rest then xs[0] else rest
  }

  /** An element that bounds a list from below is its minimum. */
  lemma MinIs(xs: seq<int>, v: int)
    requires v in xs && forall i :: 0 <= i < |xs| ==> v <= xs[i]
    ensures Min(xs) == v
  {
    var m := Min(xs);
    var k :| 0 <= k < |xs| && xs[k] == m;
    var l :| 0 <= l < |xs| && xs[l] == v;
    assert m <= xs[l] && v <= xs[k];
  }

  /** An element that bounds a list from above is its maximum. */
  lemma MaxIs(xs: seq<int>, v: int)
    requires v in xs && forall i :: 0 <= i < |xs| ==> xs[i] <= v
    ensures Max(xs) == v
  {
    var m := Max(xs);
    var k :| 0 <= k < |xs| && xs[k] == m;
    var l :| 0 <= l < |xs| && xs[l] == v;
    assert xs[l] <= m && xs[k] <= v;
  }

  // ---------------------------------------------------------------------
  // Shape invariants

  predicate DistinctCells(cells: seq<Coord>) {
    forall i, j :: 0 <= i < j < |cells| ==> cells[i] != cells[j]
  }

  /**
   * A well-formed template: at least one cell, no repeated cell, smallest
   * x and y both 0, and the bounding size one more than the largest x and y.
   */
  predicate Normalised(p: Piece) {
    && |p.cells| > 0
    && DistinctCells(p.cells)
    && Min(Xs(p.cells)) == 0 && Min(Ys(p.cells)) == 0
    && p.size == Size(Max(Xs(p.cells)) + 1, Max(Ys(p.cells)) + 1)
  }

  // ---------------------------------------------------------------------
  // Look-ups

  /** First piece of ps with the given id (`Array.find`). */
  function FindById(ps: seq<Piece>, id: string): (r: Option<Piece>)
    ensures r.None? <==> forall k :: 0 <= k < |ps| ==> ps[k].id != id
    ensures r.Some? ==> r.value in ps && r.value.id == id
  {
    if |ps| == 0 then None
    else if ps[0].id == id then Some(ps[0])
    else FindById(ps[1..], id)
  }

  /** getPiece: the library piece with this id, or nothing. */
  function GetPiece(id: string): (r: Option<Piece>)
    ensures r.None? <==> forall p :: p in Library ==> p.id != id
    ensures r.Some? ==> r.value in Library && r.value.id == id
  {
    FindById(Library, id)
  }

  /** Pieces of ps with at most `hi` cells, in order. */
  function AtMostCells(ps: seq<Piece>, hi: int): (r: seq<Piece>)
    ensures forall p :: p in r <==> p in ps && |p.cells| <= hi
    ensures |r| <= |ps|
  {
    if |ps| == 0 then []
    else (if |ps[0].cells| <= hi then [ps[0]] else []) + AtMostCells(ps[1..], hi)
  }

  /** Pieces of ps with at least `lo` cells, in order. */
  function AtLeastCells(ps: seq<Piece>, lo: int): (r: seq<Piece>)
    ensures forall p :: p in r <==> p in ps && |p.cells| >= lo
    ensures |r| <= |ps|
  {
    if |ps| == 0 then []
    else (if |ps[0].cells| >= lo then [ps[0]] else []) + AtLeastCells(ps[1..], lo)
  }

  /** getSmallPieces: the library pieces with 1–2 cells. */
  function GetSmallPieces(): (r: seq<Piece>)
    ensures forall k :: 0 <= k < |r| ==> r[k] in Library && |r[k].cells| <= 2
  {
    AtMostCells(Library, 2)
  }

  /** getLargePieces: the library pieces with 4 or more cells. */
  function GetLargePieces(): (r: seq<Piece>)
    ensures forall k :: 0 <= k < |r| ==> r[k] in Library && |r[k].cells| >= 4
  {
    AtLeastCells(Library, 4)
  }

  // ---------------------------------------------------------------------
  // Clone and rotation

  /** clonePiece: a field-wise copy (values here, so the copy shares nothing). */
  function ClonePiece(p: Piece): (r: Piece)
    ensures r == p
  {
    Piece(p.id, p.cells, Size(p.size.w, p.size.h), p.color, p.image)
  }

  /** Each cell (x, y) becomes (y - minY, maxX - minX - (x - minX)). */
  function Turn(cells: seq<Coord>, minX: int, minY: int, maxX: int): (r: seq<Coord>)
    ensures |r| == |cells|
    ensures forall i :: 0 <= i < |cells| ==> r[i] == Coord(cells[i].y - minY, maxX - minX - (cells[i].x - minX))
  {
    seq(|cells|, i requires 0 <= i < |cells| => Coord(cells[i].y - minY, maxX - minX - (cells[i].x - minX)))
  }

  /** Each cell moved by (-dx, -dy). */
  function Shift(cells: seq<Coord>, dx: int, dy: int): (r: seq<Coord>)
    ensures |r| == |cells|
    ensures forall i :: 0 <= i < |cells| ==> r[i] == Coord(cells[i].x - dx, cells[i].y - dy)
  {
    seq(|cells|, i requires 0 <= i < |cells| => Coord(cells[i].x - dx, cells[i].y - dy))
  }

  /**
   * rotatePiece90: turn the cells clockwise about the bounding box, shift
   * them so that their smallest coordinates are 0, and recompute the size.
   * Every other field is kept.
   */
  function Rotate90(p: Piece): (r: Piece)
    requires |p.cells| > 0
    ensures r.id == p.id && r.color == p.color && r.image == p.image
    ensures |r.cells| == |p.cells|
  {
    var rotated := Turn(p.cells, Min(Xs(p.cells)), Min(Ys(p.cells)), Max(Xs(p.cells)));
    var normalized := Shift(rotated, Min(Xs(rotated)), Min(Ys(rotated)));
    p.(cells := normalized, size := Size(Max(Xs(normalized)) + 1, Max(Ys(normalized)) + 1))
  }

  /** The cell-wise effect of a rotation, for any non-empty piece: the shift is by zero. */
  lemma RotatedCells(p: Piece)
    requires |p.cells| > 0
    ensures forall i :: 0 <= i < |p.cells| ==>
      Rotate90(p).cells[i] == Coord(p.cells[i].y - Min(Ys(p.cells)), Max(Xs(p.cells)) - p.cells[i].x)
  {
    var minY := Min(Ys(p.cells));
    var maxX := Max(Xs(p.cells));
    var rotated := Turn(p.cells, Min(Xs(p.cells)), minY, maxX);
    var ky :| 0 <= ky < |p.cells| && Ys(p.cells)[ky] == minY;
    var kx :| 0 <= kx < |p.cells| && Xs(p.cells)[kx] == maxX;
    assert Xs(rotated)[ky] == 0;
    MinIs(Xs(rotated), 0);
    assert Ys(rotated)[kx] == 0;
    MinIs(Ys(rotated), 0);
  }

  lemma RotateSize(p: Piece)
    requires |p.cells| > 0
    ensures Rotate90(p).size == Size(Max(Xs(Rotate90(p).cells)) + 1, Max(Ys(Rotate90(p).cells)) + 1)
  {
  }

  /** c holds the cells turned clockwise about (minY, maxX), position by position. */
  predicate TurnedAbout(cells: seq<Coord>, c: seq<Coord>, minY: int, maxX: int) {
    |c| == |cells| && forall i :: 0 <= i < |cells| ==> c[i] == Coord(cells[i].y - minY, maxX - cells[i].x)
  }

  lemma TurnedDistinct(cells: seq<Coord>, c: seq<Coord>, minY: int, maxX: int)
    requires TurnedAbout(cells, c, minY, maxX) && DistinctCells(cells)
    ensures DistinctCells(c)
  {
    forall i, j | 0 <= i < j < |c| ensures c[i] != c[j] {
      assert cells[i] != cells[j];
    }
  }

  lemma RotateDistinct(p: Piece)
    requires |p.cells| > 0 && DistinctCells(p.cells)
    ensures DistinctCells(Rotate90(p).cells)
  {
    RotatedCells(p);
    TurnedDistinct(p.cells, Rotate90(p).cells, Min(Ys(p.cells)), Max(Xs(p.cells)));
  }

  lemma TurnedAtOrigin(cells: seq<Coord>, c: seq<Coord>)
    requires |cells| > 0 && TurnedAbout(cells, c, Min(Ys(cells)), Max(Xs(cells)))
    ensures Min(Xs(c)) == 0 && Min(Ys(c)) == 0
  {
    var ky :| 0 <= ky < |cells| && Ys(cells)[ky] == Min(Ys(cells));
    var kx :| 0 <= kx < |cells| && Xs(cells)[kx] == Max(Xs(cells));
    assert Xs(c)[ky] == 0;
    MinIs(Xs(c), 0);
    assert Ys(c)[kx] == 0;
    MinIs(Ys(c), 0);
  }

  lemma RotateAtOrigin(p: Piece)
    requires |p.cells| > 0
    ensures Min(Xs(Rotate90(p).cells)) == 0 && Min(Ys(Rotate90(p).cells)) == 0
  {
    RotatedCells(p);
    TurnedAtOrigin(p.cells, Rotate90(p).cells);
  }

  /**
   * rotatePiece90 on any non-empty piece: same id and cell count, output
   * normalised to the origin with size = max + 1, distinct cells kept distinct.
   */
  lemma RotateNormalises(p: Piece)
    requires |p.cells| > 0
    ensures var r := Rotate90(p);
      && r.id == p.id && |r.cells| == |p.cells|
      && Min(Xs(r.cells)) == 0 && Min(Ys(r.cells)) == 0
      && r.size == Size(Max(Xs(r.cells)) + 1, Max(Ys(r.cells)) + 1)
      && (DistinctCells(p.cells) ==> DistinctCells(r.cells))
  {
    RotateSize(p);
    RotateAtOrigin(p);
    if DistinctCells(p.cells) {
      RotateDistinct(p);
    }
  }

  lemma RotateMaxima(p: Piece)
    requires |p.cells| > 0 && Min(Xs(p.cells)) == 0 && Min(Ys(p.cells)) == 0
    ensures Max(Xs(Rotate90(p).cells)) == Max(Ys(p.cells))
    ensures Max(Ys(Rotate90(p).cells)) == Max(Xs(p.cells))
  {
    RotatedCells(p);
    TurnedMaxima(p.cells, Rotate90(p).cells);
  }

  lemma TurnedMaxima(cells: seq<Coord>, c: seq<Coord>)
    requires |cells| > 0 && Min(Xs(cells)) == 0 && Min(Ys(cells)) == 0
    requires TurnedAbout(cells, c, 0, Max(Xs(cells)))
    ensures Max(Xs(c)) == Max(Ys(cells)) && Max(Ys(c)) == Max(Xs(cells))
  {
    var maxX := Max(Xs(cells));
    var maxY := Max(Ys(cells));
    var ky :| 0 <= ky < |cells| && Ys(cells)[ky] == maxY;
    var kx :| 0 <= kx < |cells| && Xs(cells)[kx] == 0;
    forall i | 0 <= i < |c| ensures Xs(c)[i] <= maxY && Ys(c)[i] <= maxX {
      assert Xs(c)[i] == Ys(cells)[i] <= maxY;
      assert Ys(c)[i] == maxX - Xs(cells)[i] && 0 <= Xs(cells)[i];
    }
    assert Xs(c)[ky] == maxY;
    MaxIs(Xs(c), maxY);
    assert Ys(c)[kx] == maxX;
    MaxIs(Ys(c), maxX);
  }

  /** q is p turned a quarter clockwise inside its box: (x, y) becomes (y, w - 1 - x), the box turns too. */
  predicate QuarterTurned(p: Piece, q: Piece) {
    |q.cells| == |p.cells| && q.size == Size(p.size.h, p.size.w)
    && forall i :: 0 <= i < |p.cells| ==> q.cells[i] == Coord(p.cells[i].y, p.size.w - 1 - p.cells[i].x)
  }

  /** q is p turned half way inside its box: (x, y) becomes (w - 1 - x, h - 1 - y). */
  predicate ReflectedCells(p: Piece, q: Piece) {
    |q.cells| == |p.cells| && q.size == p.size
    && forall i :: 0 <= i < |p.cells| ==>
      q.cells[i] == Coord(p.size.w - 1 - p.cells[i].x, p.size.h - 1 - p.cells[i].y)
  }

  /**
   * On a normalised piece the rotation is the quarter turn inside the
   * piece's box, and its result is normalised again.
   */
  lemma RotateNormalised(p: Piece)
    requires Normalised(p)
    ensures Normalised(Rotate90(p))
    ensures QuarterTurned(p, Rotate90(p))
  {
    RotateNormalises(p);
    RotateMaxima(p);
    RotatedCells(p);
  }

  /** The rotation applied k times (the loop of randomlyRotatePiece). */
  function RotateTimes(p: Piece, k: int): (r: Piece)
    requires |p.cells| > 0
    ensures r.id == p.id && |r.cells| == |p.cells| && r.image == p.image && r.color == p.color
    decreases k
  {
    if k <= 0 then p else Rotate90(RotateTimes(p, k - 1))
  }

  /** One more quarter turn after k of them. */
  lemma RotateTimesNext(p: Piece, k: nat)
    requires |p.cells| > 0
    ensures RotateTimes(p, k + 1) == Rotate90(RotateTimes(p, k))
  {
  }

  lemma QuarterTwice(p: Piece, q: Piece, r: Piece)
    requires QuarterTurned(p, q) && QuarterTurned(q, r)
    ensures ReflectedCells(p, r)
  {
  }

  lemma ReflectTwice(p: Piece, q: Piece, r: Piece)
    requires ReflectedCells(p, q) && ReflectedCells(q, r)
    ensures r.cells == p.cells && r.size == p.size
  {
    forall i | 0 <= i < |p.cells| ensures r.cells[i] == p.cells[i] {
    }
  }

  /** Two quarter turns reflect a normalised piece through the centre of its box and keep it normalised. */
  lemma HalfTurn(p: Piece)
    requires Normalised(p)
    ensures Normalised(Rotate90(Rotate90(p)))
    ensures ReflectedCells(p, Rotate90(Rotate90(p)))
  {
    RotateNormalised(p);
    RotateNormalised(Rotate90(p));
    QuarterTwice(p, Rotate90(p), Rotate90(Rotate90(p)));
  }

  lemma TwoTimes(p: Piece)
    requires |p.cells| > 0
    ensures RotateTimes(p, 2) == Rotate90(Rotate90(p))
  {
  }

  lemma HalfTurnTwice(p: Piece)
    requires Normalised(p)
    ensures Rotate90(Rotate90(Rotate90(Rotate90(p)))) == p
  {
    var r2 := Rotate90(Rotate90(p));
    var r4 := Rotate90(Rotate90(r2));
    HalfTurn(p);
    HalfTurn(r2);
    ReflectTwice(p, r2, r4);
  }

  /** Four quarter turns give a normalised piece back unchanged. */
  lemma FourRotationsRestore(p: Piece)
    requires Normalised(p)
    ensures RotateTimes(p, 4) == p
  {
    HalfTurnTwice(p);
    TwoTimes(p);
    assert RotateTimes(p, 4) == Rotate90(Rotate90(RotateTimes(p, 2)));
  }

  /** randomlyRotatePiece with the draw u: ⌊u·4⌋ quarter turns of a clone. */
  function RandomlyRotate(p: Piece, u: real): (r: Piece)
    requires |p.cells| > 0
    ensures r.id == p.id && |r.cells| == |p.cells| && r.image == p.image && r.color == p.color
  {
    var rotations := Random.ScaleDraw(u, 0, 4);
    RotateTimes(ClonePiece(p), rotations)
  }

  /** A draw in [0, 1) yields one of the four orientations. */
  lemma RandomRotationIsQuarterTurn(p: Piece, u: real)
    requires |p.cells| > 0 && 0.0 <= u < 1.0
    ensures exists k :: 0 <= k < 4 && RandomlyRotate(p, u) == RotateTimes(p, k)
  {
    var k := Random.ScaleDraw(u, 0, 4);
    assert 0 <= k < 4 && RandomlyRotate(p, u) == RotateTimes(p, k);
  }

  /**
   * The rotation loop of randomlyRotatePiece: `rotations` quarter turns, one
   * after another. The count comes from a draw scaled to [0, 4), so it is
   * never negative.
   */
  method RotateRepeatedly(piece: Piece, rotations: nat) returns (r: Piece)
    requires |piece.cells| > 0
    ensures r == RotateTimes(piece, rotations)
  {
    r := piece;
    for i := 0 to rotations
      invariant r == RotateTimes(piece, i)
    {
      RotateTimesNext(piece, i);
      r := Rotate90(r);
    }
  }

  /** randomlyRotatePiece itself: one draw, then that many quarter turns of a clone. */
  method RandomlyRotatePiece(piece: Piece, rng: Random.SeededRandom) returns (r: Piece)
    requires |piece.cells| > 0 && rng.Valid()
    modifies rng
    ensures rng.Valid() && rng.seedValue == old(rng.seedValue) && rng.draws == old(rng.draws)
    ensures rng.pos == old(rng.pos) + 1
    ensures r == RandomlyRotate(piece, old(rng.draws(rng.pos)))
  {
    var rotations := rng.NextIntMax(4);
    r := RotateRepeatedly(ClonePiece(piece), rotations);
  }



  // ---------------------------------------------------------------------
  // Facts about the constant library

  /** Every cell lies inside the piece's bounding size. */
  predicate InBox(p: Piece) {
    forall i :: 0 <= i < |p.cells| ==> 0 <= p.cells[i].x < p.size.w && 0 <= p.cells[i].y < p.size.h
  }

  lemma LowerBounds(cells: seq<Coord>, left: nat, top: nat)
    requires left < |cells| && top < |cells| && cells[left].x == 0 && cells[top].y == 0
    requires forall i :: 0 <= i < |cells| ==> 0 <= cells[i].x && 0 <= cells[i].y
    ensures Min(Xs(cells)) == 0 && Min(Ys(cells)) == 0
  {
    assert Xs(cells)[left] == 0;
    MinIs(Xs(cells), 0);
    assert Ys(cells)[top] == 0;
    MinIs(Ys(cells), 0);
  }

  lemma UpperBounds(cells: seq<Coord>, w: int, h: int, right: nat, bottom: nat)
    requires right < |cells| && bottom < |cells| && cells[right].x == w - 1 && cells[bottom].y == h - 1
    requires forall i :: 0 <= i < |cells| ==> cells[i].x < w && cells[i].y < h
    ensures Max(Xs(cells)) == w - 1 && Max(Ys(cells)) == h - 1
  {
    assert Xs(cells)[right] == w - 1;
    MaxIs(Xs(cells), w - 1);
    assert Ys(cells)[bottom] == h - 1;
    MaxIs(Ys(cells), h - 1);
  }

  /** A template whose cells fill its box and touch all four of its sides is normalised. */
  /** a comes before b in row-major order. */
  predicate Before(a: Coord, b: Coord) {
    a.y < b.y || (a.y == b.y && a.x < b.x)
  }

  /** Cells listed row by row, each strictly after the one before it. */
  predicate AscendingCells(cells: seq<Coord>) {
    forall i :: 0 <= i < |cells| - 1 ==> Before(cells[i], cells[i + 1])
  }

  lemma {:induction false} AscendingOrdered(cells: seq<Coord>, i: nat, j: nat)
    requires AscendingCells(cells) && i < j < |cells|
    ensures Before(cells[i], cells[j])
    decreases j - i
  {
    if j > i + 1 {
      AscendingOrdered(cells, i, j - 1);
    }
  }

  /** Cells in strictly ascending row-major order are all different. */
  lemma AscendingDistinct(cells: seq<Coord>)
    requires AscendingCells(cells)
    ensures DistinctCells(cells)
  {
    forall i, j | 0 <= i < j < |cells| ensures cells[i] != cells[j] {
      AscendingOrdered(cells, i, j);
    }
  }

  lemma BoxedNormalised(p: Piece, left: nat, top: nat, right: nat, bottom: nat)
    requires DistinctCells(p.cells) && InBox(p)
    requires left < |p.cells| && top < |p.cells| && right < |p.cells| && bottom < |p.cells|
    requires p.cells[left].x == 0 && p.cells[top].y == 0
    requires p.cells[right].x == p.size.w - 1 && p.cells[bottom].y == p.size.h - 1
    ensures Normalised(p)
  {
    LowerBounds(p.cells, left, top);
    UpperBounds(p.cells, p.size.w, p.size.h, right, bottom);
  }

  // Each template is normalised; the arguments are the indices of cells on its left, top, right and bottom edges.

  lemma MonoNormalised()
    ensures Normalised(MONO)
  {
    BoxedNormalised(MONO, 0, 0, 0, 0);
  }

  lemma DominoHNormalised()
    ensures Normalised(DOMINO_H)
  {
    BoxedNormalised(DOMINO_H, 0, 0, 1, 0);
  }

  lemma DominoVNormalised()
    ensures Normalised(DOMINO_V)
  {
    BoxedNormalised(DOMINO_V, 0, 0, 0, 1);
  }

  lemma TrominoINormalised()
    ensures Normalised(TROMINO_I)
  {
    BoxedNormalised(TROMINO_I, 0, 0, 2, 0);
  }

  lemma TrominoLNormalised()
    ensures Normalised(TROMINO_L)
  {
    BoxedNormalised(TROMINO_L, 0, 0, 2, 1);
  }

  lemma TetrominoINormalised()
    ensures Normalised(TETROMINO_I)
  {
    BoxedNormalised(TETROMINO_I, 0, 0, 3, 0);
  }

  lemma TetrominoONormalised()
    ensures Normalised(TETROMINO_O)
  {
    BoxedNormalised(TETROMINO_O, 0, 0, 1, 2);
  }

  lemma TetrominoTNormalised()
    ensures Normalised(TETROMINO_T)
  {
    BoxedNormalised(TETROMINO_T, 1, 0, 3, 1);
  }

  lemma TetrominoLNormalised()
    ensures Normalised(TETROMINO_L)
  {
    BoxedNormalised(TETROMINO_L, 0, 0, 3, 2);
  }

  lemma TetrominoJNormalised()
    ensures Normalised(TETROMINO_J)
  {
    BoxedNormalised(TETROMINO_J, 3, 0, 0, 2);
  }

  lemma TetrominoSNormalised()
    ensures Normalised(TETROMINO_S)
  {
    BoxedNormalised(TETROMINO_S, 2, 0, 1, 2);
  }

  lemma TetrominoZNormalised()
    ensures Normalised(TETROMINO_Z)
  {
    BoxedNormalised(TETROMINO_Z, 0, 0, 3, 2);
  }

  lemma PentominoINormalised()
    ensures Normalised(PENTOMINO_I)
  {
    BoxedNormalised(PENTOMINO_I, 0, 0, 4, 0);
  }

  lemma Hexomino3x2Normalised()
    ensures Normalised(HEXOMINO_3X2)
  {
    BoxedNormalised(HEXOMINO_3X2, 0, 0, 2, 3);
  }

  lemma BigL3x3Normalised()
    ensures Normalised(BIG_L_3X3)
  {
    BoxedNormalised(BIG_L_3X3, 0, 0, 4, 2);
  }

  lemma BigBlock3x3Normalised()
    ensures Normalised(BIG_BLOCK_3X3)
  {
    AscendingDistinct(BIG_BLOCK_3X3.cells);
    BoxedNormalised(BIG_BLOCK_3X3, 0, 0, 2, 6);
  }

  lemma TemplateNormalised(i: nat)
    requires i < |Library|
    ensures Normalised(Library[i])
  {
    if i == 0 { assert Library[0] == MONO; MonoNormalised(); }
    else if i == 1 { assert Library[1] == DOMINO_H; DominoHNormalised(); }
    else if i == 2 { assert Library[2] == DOMINO_V; DominoVNormalised(); }
    else if i == 3 { assert Library[3] == TROMINO_I; TrominoINormalised(); }
    else if i == 4 { assert Library[4] == TROMINO_L; TrominoLNormalised(); }
    else if i == 5 { assert Library[5] == TETROMINO_I; TetrominoINormalised(); }
    else if i == 6 { assert Library[6] == TETROMINO_O; TetrominoONormalised(); }
    else if i == 7 { assert Library[7] == TETROMINO_T; TetrominoTNormalised(); }
    else if i == 8 { assert Library[8] == TETROMINO_L; TetrominoLNormalised(); }
    else if i == 9 { assert Library[9] == TETROMINO_J; TetrominoJNormalised(); }
    else if i == 10 { assert Library[10] == TETROMINO_S; TetrominoSNormalised(); }
    else if i == 11 { assert Library[11] == TETROMINO_Z; TetrominoZNormalised(); }
    else if i == 12 { assert Library[12] == PENTOMINO_I; PentominoINormalised(); }
    else if i == 13 { assert Library[13] == HEXOMINO_3X2; Hexomino3x2Normalised(); }
    else if i == 14 { assert Library[14] == BIG_L_3X3; BigL3x3Normalised(); }
    else if i == 15 { assert Library[15] == BIG_BLOCK_3X3; BigBlock3x3Normalised(); }
  }

  /** Every template in the library is normalised, so rotation acts on it as a quarter turn. */
  lemma LibraryNormalised()
    ensures forall p :: p in Library ==> Normalised(p)
  {
    forall i | 0 <= i < |Library| ensures Normalised(Library[i]) {
      TemplateNormalised(i);
    }
  }

  lemma LibraryCellsNonEmpty()
    ensures forall p :: p in Library ==> |p.cells| > 0
  {
    LibraryNormalised();
  }

  /** The templates at positions 1 to 3 are the two dominoes and the straight tromino. */
  lemma SmallTemplates()
    ensures Library[1].id == "DOMINO_H" && |Library[1].cells| == 2
    ensures Library[2].id == "DOMINO_V" && |Library[2].cells| == 2
    ensures Library[3].id == "TROMINO_I" && |Library[3].cells| == 3
  {
  }

  lemma LibraryIdsDistinct()
    ensures forall i, j :: 0 <= i < j < |Library| ==> Library[i].id != Library[j].id
  {
  }

  /** Every library id has a weight; MONO's is the only zero, all others are positive. */
  lemma TemplateWeight(i: nat)
    requires i < |Library|
    ensures Library[i].id in Weights
    ensures Weights[Library[i].id] >= 0.0
    ensures Weights[Library[i].id] == 0.0 <==> Library[i].id == "MONO"
  {
    if i < 4 { TemplateWeightSmall(i); }
    else if i < 8 { TemplateWeightMedium(i); }
    else if i < 12 { TemplateWeightTetromino(i); }
    else { TemplateWeightLarge(i); }
  }

  lemma TemplateWeightSmall(i: nat)
    requires i < 4
    ensures Library[i].id in Weights
    ensures Weights[Library[i].id] >= 0.0
    ensures Weights[Library[i].id] == 0.0 <==> Library[i].id == "MONO"
  {
    if i == 0 { assert Library[0].id == "MONO" && Weights["MONO"] == 0.0; }
    else if i == 1 { assert Library[1].id == "DOMINO_H" && Weights["DOMINO_H"] == 1.8; }
    else if i == 2 { assert Library[2].id == "DOMINO_V" && Weights["DOMINO_V"] == 1.8; }
    else if i == 3 { assert Library[3].id == "TROMINO_I" && Weights["TROMINO_I"] == 1.5; }
  }

  lemma TemplateWeightMedium(i: nat)
    requires 4 <= i < 8
    ensures Library[i].id in Weights
    ensures Weights[Library[i].id] > 0.0 && Library[i].id != "MONO"
  {
    if i == 4 { assert Library[4].id == "TROMINO_L" && Weights["TROMINO_L"] == 1.5; }
    else if i == 5 { assert Library[5].id == "TETROMINO_I" && Weights["TETROMINO_I"] == 1.0; }
    else if i == 6 { assert Library[6].id == "TETROMINO_O" && Weights["TETROMINO_O"] == 1.2; }
    else if i == 7 { assert Library[7].id == "TETROMINO_T" && Weights["TETROMINO_T"] == 1.2; }
  }

  lemma TemplateWeightTetromino(i: nat)
    requires 8 <= i < 12
    ensures Library[i].id in Weights
    ensures Weights[Library[i].id] > 0.0 && Library[i].id != "MONO"
  {
    if i == 8 { assert Library[8].id == "TETROMINO_L" && Weights["TETROMINO_L"] == 1.0; }
    else if i == 9 { assert Library[9].id == "TETROMINO_J" && Weights["TETROMINO_J"] == 1.0; }
    else if i == 10 { assert Library[10].id == "TETROMINO_S" && Weights["TETROMINO_S"] == 1.0; }
    else if i == 11 { assert Library[11].id == "TETROMINO_Z" && Weights["TETROMINO_Z"] == 1.0; }
  }

  lemma TemplateWeightLarge(i: nat)
    requires 12 <= i < 16
    ensures Library[i].id in Weights
    ensures Weights[Library[i].id] > 0.0 && Library[i].id != "MONO"
  {
    if i == 12 { assert Library[12].id == "PENTOMINO_I" && Weights["PENTOMINO_I"] == 0.8; }
    else if i == 13 { assert Library[13].id == "HEXOMINO_3X2" && Weights["HEXOMINO_3X2"] == 0.8; }
    else if i == 14 { assert Library[14].id == "BIG_L_3X3" && Weights["BIG_L_3X3"] == 0.8; }
    else if i == 15 { assert Library[15].id == "BIG_BLOCK_3X3" && Weights["BIG_BLOCK_3X3"] == 0.8; }
  }

  lemma LibraryWeights()
    ensures forall p :: p in Library ==> p.id in Weights
    ensures forall p :: p in Library ==> (Weights[p.id] == 0.0 <==> p.id == "MONO")
    ensures forall p :: p in Library ==> Weights[p.id] >= 0.0
  {
    forall i | 0 <= i < |Library|
      ensures Library[i].id in Weights && Weights[Library[i].id] >= 0.0
      ensures Weights[Library[i].id] == 0.0 <==> Library[i].id == "MONO"
    {
      TemplateWeight(i);
    }
  }

  /** getPiece finds exactly the library piece carrying the id. */
  lemma GetPieceFinds(id: string, p: Piece)
    ensures GetPiece(id) == Some(p) <==> p in Library && p.id == id
  {
    LibraryIdsDistinct();
    if p in Library && p.id == id {
      var q := GetPiece(id).value;
      var i :| 0 <= i < |Library| && Library[i] == p;
      var j :| 0 <= j < |Library| && Library[j] == q;
      assert i == j;
    }
  }

  lemma {:induction false} AtMostAppend(a: seq<Piece>, b: seq<Piece>, hi: int)
    ensures AtMostCells(a + b, hi) == AtMostCells(a, hi) + AtMostCells(b, hi)
    decreases |a|
  {
    if |a| == 0 {
      assert a + b == b;
    } else {
      assert (a + b)[0] == a[0] && (a + b)[1..] == a[1..] + b;
      AtMostAppend(a[1..], b, hi);
    }
  }

  /** The filter over a list is the filter over its two halves, joined. */
  lemma AtMostSplit(ps: seq<Piece>, k: nat, hi: int)
    requires k <= |ps|
    ensures AtMostCells(ps, hi) == AtMostCells(ps[..k], hi) + AtMostCells(ps[k..], hi)
  {
    assert ps == ps[..k] + ps[k..];
    AtMostAppend(ps[..k], ps[k..], hi);
  }

  lemma AtLeastSplit(ps: seq<Piece>, k: nat, lo: int)
    requires k <= |ps|
    ensures AtLeastCells(ps, lo) == AtLeastCells(ps[..k], lo) + AtLeastCells(ps[k..], lo)
  {
    assert ps == ps[..k] + ps[k..];
    AtLeastAppend(ps[..k], ps[k..], lo);
  }

  lemma {:induction false} AtLeastAppend(a: seq<Piece>, b: seq<Piece>, lo: int)
    ensures AtLeastCells(a + b, lo) == AtLeastCells(a, lo) + AtLeastCells(b, lo)
    decreases |a|
  {
    if |a| == 0 {
      assert a + b == b;
    } else {
      assert (a + b)[0] == a[0] && (a + b)[1..] == a[1..] + b;
      AtLeastAppend(a[1..], b, lo);
    }
  }

  /** A filter that every element passes returns the list unchanged. */
  lemma {:induction false} AtMostKeepsAll(ps: seq<Piece>, hi: int)
    requires forall k :: 0 <= k < |ps| ==> |ps[k].cells| <= hi
    ensures AtMostCells(ps, hi) == ps
    decreases |ps|
  {
    if |ps| > 0 {
      AtMostKeepsAll(ps[1..], hi);
    }
  }

  lemma {:induction false} AtLeastKeepsAll(ps: seq<Piece>, lo: int)
    requires forall k :: 0 <= k < |ps| ==> |ps[k].cells| >= lo
    ensures AtLeastCells(ps, lo) == ps
    decreases |ps|
  {
    if |ps| > 0 {
      AtLeastKeepsAll(ps[1..], lo);
    }
  }

  /** A filter that no element passes returns the empty list. */
  lemma {:induction false} AtMostDropsAll(ps: seq<Piece>, hi: int)
    requires forall k :: 0 <= k < |ps| ==> |ps[k].cells| > hi
    ensures AtMostCells(ps, hi) == []
    decreases |ps|
  {
    if |ps| > 0 {
      AtMostDropsAll(ps[1..], hi);
    }
  }

  lemma {:induction false} AtLeastDropsAll(ps: seq<Piece>, lo: int)
    requires forall k :: 0 <= k < |ps| ==> |ps[k].cells| < lo
    ensures AtLeastCells(ps, lo) == []
    decreases |ps|
  {
    if |ps| > 0 {
      AtLeastDropsAll(ps[1..], lo);
    }
  }

  /** Cell counts along the library: three pieces of at most 2 cells first, then five under 4, then the rest. */
  lemma TemplateCellCount(i: nat)
    requires i < |Library|
    ensures |Library[i].cells| <= 2 <==> i < 3
    ensures |Library[i].cells| >= 4 <==> i >= 5
  {
    if i == 0 { assert |Library[0].cells| == 1; }
    else if i == 1 { assert |Library[1].cells| == 2; }
    else if i == 2 { assert |Library[2].cells| == 2; }
    else if i == 3 { assert |Library[3].cells| == 3; }
    else if i == 4 { assert |Library[4].cells| == 3; }
    else if i == 5 { assert |Library[5].cells| == 4; }
    else if i == 6 { assert |Library[6].cells| == 4; }
    else if i == 7 { assert |Library[7].cells| == 4; }
    else if i == 8 { assert |Library[8].cells| == 4; }
    else if i == 9 { assert |Library[9].cells| == 4; }
    else if i == 10 { assert |Library[10].cells| == 4; }
    else if i == 11 { assert |Library[11].cells| == 4; }
    else if i == 12 { assert |Library[12].cells| == 5; }
    else if i == 13 { assert |Library[13].cells| == 6; }
    else if i == 14 { assert |Library[14].cells| == 5; }
    else if i == 15 { assert |Library[15].cells| == 9; }
  }

  lemma SmallHead()
    ensures AtMostCells(Library[..3], 2) == [MONO, DOMINO_H, DOMINO_V]
  {
    var head := Library[..3];
    forall k | 0 <= k < |head| ensures |head[k].cells| <= 2 {
      TemplateCellCount(k);
    }
    AtMostKeepsAll(head, 2);
    assert head[0] == Library[0] == MONO;
    assert head[1] == Library[1] == DOMINO_H;
    assert head[2] == Library[2] == DOMINO_V;
  }

  lemma SmallTail()
    ensures AtMostCells(Library[3..], 2) == []
  {
    var tail := Library[3..];
    forall k | 0 <= k < |tail| ensures |tail[k].cells| > 2 {
      TemplateCellCount(k + 3);
    }
    AtMostDropsAll(tail, 2);
  }

  /** getSmallPieces is exactly the three pieces of one or two cells, in library order. */
  lemma SmallPieces()
    ensures GetSmallPieces() == [MONO, DOMINO_H, DOMINO_V]
  {
    AtMostSplit(Library, 3, 2);
    SmallHead();
    SmallTail();
  }

  lemma LargeHead()
    ensures AtLeastCells(Library[..5], 4) == []
  {
    var front := Library[..5];
    forall k | 0 <= k < |front| ensures |front[k].cells| < 4 {
      TemplateCellCount(k);
    }
    AtLeastDropsAll(front, 4);
  }

  lemma LargeTail()
    ensures AtLeastCells(Library[5..], 4) == Library[5..]
  {
    var back := Library[5..];
    forall k | 0 <= k < |back| ensures |back[k].cells| >= 4 {
      TemplateCellCount(k + 5);
    }
    AtLeastKeepsAll(back, 4);
  }

  lemma LibraryFromFive()
    ensures Library[5..] == [TETROMINO_I, TETROMINO_O, TETROMINO_T, TETROMINO_L, TETROMINO_J,
                             TETROMINO_S, TETROMINO_Z, PENTOMINO_I, HEXOMINO_3X2, BIG_L_3X3, BIG_BLOCK_3X3]
  {
    LibraryFiveToTen();
    LibraryFromTen();
    SliceJoin(Library, 5, 10);
  }

  lemma SliceJoin<T>(s: seq<T>, i: nat, j: nat)
    requires i <= j <= |s|
    ensures s[i..] == s[i..j] + s[j..]
  {
  }

  lemma LibraryFiveToTen()
    ensures Library[5..10] == [TETROMINO_I, TETROMINO_O, TETROMINO_T, TETROMINO_L, TETROMINO_J]
  {
    var mid := Library[5..10];
    assert mid[0] == Library[5] == TETROMINO_I;
    assert mid[1] == Library[6] == TETROMINO_O;
    assert mid[2] == Library[7] == TETROMINO_T;
    assert mid[3] == Library[8] == TETROMINO_L;
    assert mid[4] == Library[9] == TETROMINO_J;
  }

  lemma LibraryFromTen()
    ensures Library[10..] == [TETROMINO_S, TETROMINO_Z, PENTOMINO_I, HEXOMINO_3X2, BIG_L_3X3, BIG_BLOCK_3X3]
  {
    var back := Library[10..];
    assert back[0] == Library[10] == TETROMINO_S;
    assert back[1] == Library[11] == TETROMINO_Z;
    assert back[2] == Library[12] == PENTOMINO_I;
    assert back[3] == Library[13] == HEXOMINO_3X2;
    assert back[4] == Library[14] == BIG_L_3X3;
    assert back[5] == Library[15] == BIG_BLOCK_3X3;
  }

  /** getLargePieces is exactly the eleven pieces of four or more cells, in library order. */
  lemma LargePieces()
    ensures GetLargePieces() == [TETROMINO_I, TETROMINO_O, TETROMINO_T, TETROMINO_L, TETROMINO_J,
                                 TETROMINO_S, TETROMINO_Z, PENTOMINO_I, HEXOMINO_3X2, BIG_L_3X3, BIG_BLOCK_3X3]
  {
    AtLeastSplit(Library, 5, 4);
    LargeHead();
    LargeTail();
    LibraryFromFive();
  }
}
