/**
 * Bag generation (src/game/Bag.ts): three pieces drawn by weight from the
 * library, preferring distinct templates and limiting how many large
 * pieces one bag holds, each handed out as a randomly rotated copy.
 *
 * The generator reads three things from PieceSet: the piece library, the
 * weight table and the random rotation. It is stated over a catalogue
 * holding these three; the game's own catalogue is PieceSet's, and
 * `GameCatalogueSuitable` proves it has what the guarantees below rely on.
 */
module BagGenerator {
  import opened Types
  import PieceSet
  import Random

  /** PIECE_LIBRARY, PIECE_WEIGHTS and randomlyRotatePiece (as the piece a draw u turns a piece into). */
  datatype Catalogue = Catalogue(library: seq<Piece>, weights: map<string, real>, turn: (Piece, real) --> Piece)

  // ---------------------------------------------------------------------
  // Weights

  /** `PIECE_WEIGHTS[id] ?? 1.0`: a piece without an entry weighs 1. */
  function WeightOf(weights: map<string, real>, id: string): (w: real)
    ensures id !in weights ==> w == 1.0
    ensures id in weights ==> w == weights[id]
  {
    if id in weights then weights[id] else 1.0
  }

  /** The pieces whose weight is positive, in their original order. */
  function Positive(weights: map<string, real>, ps: seq<Piece>): (r: seq<Piece>)
    ensures |r| <= |ps|
    decreases |ps|
  {
    if |ps| == 0 then []
    else if WeightOf(weights, ps[0].id) > 0.0 then [ps[0]] + Positive(weights, ps[1..])
    else Positive(weights, ps[1..])
  }

  /** The filter keeps exactly the pieces of positive weight. */
  lemma {:induction false} PositiveMembers(weights: map<string, real>, ps: seq<Piece>)
    ensures forall x :: x in Positive(weights, ps) <==> x in ps && WeightOf(weights, x.id) > 0.0
    decreases |ps|
  {
    if |ps| > 0 {
      PositiveMembers(weights, ps[1..]);
      assert ps == [ps[0]] + ps[1..];
    }
  }

  predicate AllPositive(weights: map<string, real>, ps: seq<Piece>) {
    forall k :: 0 <= k < |ps| ==> WeightOf(weights, ps[k].id) > 0.0
  }

  lemma PositiveIsAllPositive(weights: map<string, real>, ps: seq<Piece>)
    ensures AllPositive(weights, Positive(weights, ps))
  {
    var r := Positive(weights, ps);
    PositiveMembers(weights, ps);
    forall k | 0 <= k < |r| ensures WeightOf(weights, r[k].id) > 0.0 {
      assert r[k] in r;
    }
  }

  /** The sum of the weights (the `reduce`). */
  function TotalWeight(weights: map<string, real>, ps: seq<Piece>): real
    decreases |ps|
  {
    if |ps| == 0 then 0.0 else WeightOf(weights, ps[0].id) + TotalWeight(weights, ps[1..])
  }

  /** Positive weights have a positive sum. */
  lemma {:induction false} TotalWeightPositive(weights: map<string, real>, ps: seq<Piece>)
    requires AllPositive(weights, ps)
    ensures TotalWeight(weights, ps) >= 0.0
    ensures |ps| > 0 ==> TotalWeight(weights, ps) > 0.0
    decreases |ps|
  {
    if |ps| > 0 {
      assert WeightOf(weights, ps[0].id) > 0.0;
      assert AllPositive(weights, ps[1..]) by {
        forall k | 0 <= k < |ps| - 1 ensures WeightOf(weights, ps[1..][k].id) > 0.0 {
          assert ps[1..][k] == ps[k + 1];
        }
      }
      TotalWeightPositive(weights, ps[1..]);
    }
  }

  /**
   * The index the subtraction loop stops at for the value r: the first
   * piece that brings r to 0 or below, or the last piece.
   */
  function PickIndex(weights: map<string, real>, ps: seq<Piece>, r: real): (k: nat)
    requires |ps| > 0
    ensures k < |ps|
    decreases |ps|
  {
    if |ps| == 1 || r - WeightOf(weights, ps[0].id) <= 0.0 then 0
    else 1 + PickIndex(weights, ps[1..], r - WeightOf(weights, ps[0].id))
  }

  /** One subtraction of the loop: the piece at i stops it, or the search goes on from i + 1 with what is left. */
  lemma PickIndexStep(weights: map<string, real>, ps: seq<Piece>, i: nat, r: real)
    requires i < |ps|
    ensures var rest := r - WeightOf(weights, ps[i].id);
            if rest <= 0.0 || i + 1 == |ps| then PickIndex(weights, ps[i..], r) == 0
            else PickIndex(weights, ps[i..], r) == 1 + PickIndex(weights, ps[i + 1..], rest)
  {
    assert ps[i..][0] == ps[i];
    assert ps[i..][1..] == ps[i + 1..];
  }

  lemma PrefixWeight(weights: map<string, real>, ps: seq<Piece>, m: nat)
    requires m < |ps|
    ensures TotalWeight(weights, ps[..m + 1]) == WeightOf(weights, ps[0].id) + TotalWeight(weights, ps[1..][..m])
  {
    assert ps[..m + 1][0] == ps[0];
    assert ps[..m + 1][1..] == ps[1..][..m];
  }

  /**
   * The pick is the piece whose slice of the cumulative weights contains r:
   * the weights before it sum to at most r (strictly less, unless it is
   * the first), and with it they reach r. A draw u in [0, 1) scaled by the
   * total therefore selects each piece with probability weight / total.
   */
  lemma {:induction false} PickIndexInInterval(weights: map<string, real>, ps: seq<Piece>, r: real)
    requires |ps| > 0 && AllPositive(weights, ps) && 0.0 <= r < TotalWeight(weights, ps)
    ensures TotalWeight(weights, ps[..PickIndex(weights, ps, r)]) <= r <= TotalWeight(weights, ps[..PickIndex(weights, ps, r) + 1])
    ensures PickIndex(weights, ps, r) > 0 ==> TotalWeight(weights, ps[..PickIndex(weights, ps, r)]) < r
    decreases |ps|
  {
    var w := WeightOf(weights, ps[0].id);
    var k := PickIndex(weights, ps, r);
    PrefixWeight(weights, ps, 0);
    assert ps[1..][..0] == [] && ps[..0] == [];
    if |ps| == 1 || r - w <= 0.0 {
      assert k == 0;
      if |ps| == 1 {
        assert ps[1..] == [];
      }
    } else {
      var k' := PickIndex(weights, ps[1..], r - w);
      assert AllPositive(weights, ps[1..]);
      PickIndexInInterval(weights, ps[1..], r - w);
      assert k == k' + 1;
      PrefixWeight(weights, ps, k');
      PrefixWeight(weights, ps, k);
    }
  }

  lemma ScaledWithin(u: real, t: real)
    requires 0.0 <= u < 1.0 && t > 0.0
    ensures 0.0 <= u * t < t
  {
    assert t - u * t == (1.0 - u) * t;
  }

  /** `rng.next() * totalWeight`: a draw in [0, 1) scaled into [0, total). */
  function Scale(u: real, total: real): (r: real)
    ensures 0.0 <= u < 1.0 && total > 0.0 ==> 0.0 <= r < total
  {
    if 0.0 <= u < 1.0 && total > 0.0 then
      ScaledWithin(u, total);
      u * total
    else
      u * total
  }

  /** weightedRandomPiece for the draw u: Err exactly when no piece has a positive weight. */
  function WeightedPick(weights: map<string, real>, ps: seq<Piece>, u: real): (r: Result<Piece>)
    ensures r.Err? <==> |Positive(weights, ps)| == 0
    ensures r.Ok? ==> r.value in Positive(weights, ps)
  {
    var valid := Positive(weights, ps);
    if |valid| == 0 then
      Err("No valid pieces available for generation")
    else
      Ok(valid[PickIndex(weights, valid, Scale(u, TotalWeight(weights, valid)))])
  }

  /** The pick fails exactly when no piece has a positive weight; otherwise it is one of them. */
  lemma WeightedPickSpec(weights: map<string, real>, ps: seq<Piece>, u: real)
    ensures WeightedPick(weights, ps, u).Err? <==> forall x :: x in ps ==> WeightOf(weights, x.id) <= 0.0
    ensures WeightedPick(weights, ps, u).Ok? ==> WeightedPick(weights, ps, u).value in ps && WeightOf(weights, WeightedPick(weights, ps, u).value.id) > 0.0
  {
    var valid := Positive(weights, ps);
    PositiveMembers(weights, ps);
    if |valid| > 0 {
      assert valid[PickIndex(weights, valid, Scale(u, TotalWeight(weights, valid)))] in valid;
    } else {
      forall x | x in ps ensures WeightOf(weights, x.id) <= 0.0 {
        assert x !in valid;
      }
    }
  }

  /** The weighted pick lands in the cumulative-weight interval of the piece it returns. */
  lemma WeightedPickInInterval(weights: map<string, real>, ps: seq<Piece>, u: real)
    requires 0.0 <= u < 1.0 && Positive(weights, ps) != []
    ensures var valid := Positive(weights, ps);
            var r := Scale(u, TotalWeight(weights, valid));
            var k := PickIndex(weights, valid, r);
            WeightedPick(weights, ps, u) == Ok(valid[k]) &&
            TotalWeight(weights, valid[..k]) <= r <= TotalWeight(weights, valid[..k + 1])
  {
    var valid := Positive(weights, ps);
    PositiveIsAllPositive(weights, ps);
    TotalWeightPositive(weights, valid);
    PickIndexInInterval(weights, valid, Scale(u, TotalWeight(weights, valid)));
  }

  /** The subtraction loop of weightedRandomPiece: the index of the first piece that brings r to 0 or below, or the last. */
  method SubtractUntilSpent(weights: map<string, real>, ps: seq<Piece>, r: real) returns (k: nat)
    requires |ps| > 0
    ensures k == PickIndex(weights, ps, r) && k < |ps|
  {
    var randomValue := r;
    var i := 0;
    while i < |ps|
      invariant 0 <= i <= |ps|
      invariant i < |ps| ==> i + PickIndex(weights, ps[i..], randomValue) == PickIndex(weights, ps, r)
      invariant i == |ps| ==> PickIndex(weights, ps, r) == |ps| - 1
    {
      PickIndexStep(weights, ps, i, randomValue);
      var weight := WeightOf(weights, ps[i].id);
      randomValue := randomValue - weight;
      if randomValue <= 0.0 {
        return i;
      }
      i := i + 1;
    }
    assert ps[0..] == ps;
    k := |ps| - 1;
  }

  /** weightedRandomPiece: filter, sum, one draw, then subtract weights until the value reaches 0. */
  method WeightedRandomPiece(rng: Random.SeededRandom, weights: map<string, real>, pieces: seq<Piece>) returns (r: Result<Piece>)
    requires rng.Valid()
    modifies rng
    ensures rng.Valid() && rng.seedValue == old(rng.seedValue) && rng.draws == old(rng.draws)
    ensures rng.pos == old(rng.pos) + (if Positive(weights, pieces) == [] then 0 else 1)
    ensures r == WeightedPick(weights, pieces, old(rng.draws(rng.pos)))
  {
    var validPieces := Positive(weights, pieces);
    if |validPieces| == 0 {
      return Err("No valid pieces available for generation");
    }
    var totalWeight := TotalWeight(weights, validPieces);
    var u := rng.Next();
    var k := SubtractUntilSpent(weights, validPieces, Scale(u, totalWeight));
    r := Ok(validPieces[k]);
  }

  // ---------------------------------------------------------------------
  // The admission filter of generateBag

  /** Number of pieces with lo <= cell count < hi (counted from the back). */
  function CountBetween(ps: seq<Piece>, lo: int, hi: int): (n: nat)
    ensures n <= |ps|
    decreases |ps|
  {
    if |ps| == 0 then 0
    else CountBetween(ps[..|ps| - 1], lo, hi) + (if lo <= |ps[|ps| - 1].cells| < hi then 1 else 0)
  }

  /** Number of pieces with at least lo cells. */
  function CountAtLeast(ps: seq<Piece>, lo: int): (n: nat)
    ensures n <= |ps|
    decreases |ps|
  {
    if |ps| == 0 then 0
    else CountAtLeast(ps[..|ps| - 1], lo) + (if |ps[|ps| - 1].cells| >= lo then 1 else 0)
  }

  lemma CountsAppend(ps: seq<Piece>, x: Piece)
    ensures CountBetween(ps + [x], 4, 7) == CountBetween(ps, 4, 7) + (if 4 <= |x.cells| < 7 then 1 else 0)
    ensures CountAtLeast(ps + [x], 7) == CountAtLeast(ps, 7) + (if |x.cells| >= 7 then 1 else 0)
    ensures CountAtLeast(ps + [x], 6) == CountAtLeast(ps, 6) + (if |x.cells| >= 6 then 1 else 0)
  {
    assert (ps + [x])[..|ps|] == ps;
  }

  /**
   * A candidate passes the first-pass filter: a weight that is present and
   * non-zero, an id not used yet, no third piece of 4–6 cells, no second
   * piece of 7 or more cells, and no second piece of 6 or more cells.
   */
  predicate Admissible(weights: map<string, real>, p: Piece, pieces: seq<Piece>, used: set<string>) {
    && p.id in weights && weights[p.id] != 0.0
    && p.id !in used
    && !(CountBetween(pieces, 4, 7) >= 2 && 4 <= |p.cells| < 7)
    && !(CountAtLeast(pieces, 7) >= 1 && |p.cells| >= 7)
    && !(CountAtLeast(pieces, 6) >= 1 && |p.cells| >= 6)
  }

  function Admit(weights: map<string, real>, candidates: seq<Piece>, pieces: seq<Piece>, used: set<string>): (r: seq<Piece>)
    ensures |r| <= |candidates|
    decreases |candidates|
  {
    if |candidates| == 0 then []
    else if Admissible(weights, candidates[0], pieces, used) then [candidates[0]] + Admit(weights, candidates[1..], pieces, used)
    else Admit(weights, candidates[1..], pieces, used)
  }

  /** The filter keeps exactly the admissible candidates. */
  lemma {:induction false} AdmitMembers(weights: map<string, real>, candidates: seq<Piece>, pieces: seq<Piece>, used: set<string>)
    ensures forall x :: x in Admit(weights, candidates, pieces, used) <==> x in candidates && Admissible(weights, x, pieces, used)
    decreases |candidates|
  {
    if |candidates| > 0 {
      AdmitMembers(weights, candidates[1..], pieces, used);
      assert candidates == [candidates[0]] + candidates[1..];
    }
  }

  /** availablePieces: the library filtered against the pieces chosen so far. */
  function Available(cat: Catalogue, pieces: seq<Piece>, used: set<string>): seq<Piece> {
    Admit(cat.weights, cat.library, pieces, used)
  }

  /** Every template has at least one cell, and the turn accepts every piece with a cell. */
  ghost predicate Usable(cat: Catalogue) {
    && (forall p :: p in cat.library ==> |p.cells| > 0)
    && (forall p: Piece, u: real :: |p.cells| > 0 ==> cat.turn.requires(p, u))
  }

  /** q is p turned clockwise a whole number of quarter turns, fewer than four. */
  ghost predicate QuarterTurn(p: Piece, q: Piece) {
    exists k :: 0 <= k < 4 && |p.cells| > 0 && q == PieceSet.RotateTimes(p, k)
  }

  /** The turn keeps a piece's id, cell count and image. */
  ghost predicate TurnKeeps(cat: Catalogue)
    requires Usable(cat)
  {
    forall p: Piece, u: real :: |p.cells| > 0 ==>
      cat.turn(p, u).id == p.id && |cat.turn(p, u).cells| == |p.cells| && cat.turn(p, u).image == p.image
  }

  /** For a draw in [0, 1) the turn gives one of the four orientations. */
  ghost predicate TurnsByQuarters(cat: Catalogue)
    requires Usable(cat)
  {
    forall p: Piece, u: real :: |p.cells| > 0 && 0.0 <= u < 1.0 ==> QuarterTurn(p, cat.turn(p, u))
  }

  /**
   * What the guarantees of a generated bag rely on: templates with cells,
   * a turn that keeps ids, cell counts and images, no negative weight, and three templates of fewer than four cells with
   * distinct ids and non-zero weights at positions 1 to 3.
   */
  ghost predicate Suitable(cat: Catalogue) {
    && |cat.library| >= 4
    && Usable(cat)
    && TurnKeeps(cat)
    && (forall p :: p in cat.library && p.id in cat.weights ==> cat.weights[p.id] >= 0.0)
    && (forall k :: 1 <= k <= 3 ==> |cat.library[k].cells| < 4 && cat.library[k].id in cat.weights && cat.weights[cat.library[k].id] != 0.0)
    && cat.library[1].id != cat.library[2].id && cat.library[1].id != cat.library[3].id && cat.library[2].id != cat.library[3].id
  }

  lemma SubsetCardinality<T>(a: set<T>, b: set<T>)
    ensures a <= b ==> |a| <= |b|
  {
    if a <= b {
      assert b == a + (b - a);
    }
  }

  /** With at most two ids used, one of the three small templates is still free. */
  lemma SmallTemplateFree(cat: Catalogue, used: set<string>) returns (k: nat)
    requires Suitable(cat) && |used| <= 2
    ensures 1 <= k <= 3 && cat.library[k].id !in used
  {
    var a, b, c := cat.library[1].id, cat.library[2].id, cat.library[3].id;
    var small := {a, b, c};
    SubsetCardinality(small, used);
    assert |{a, b}| == 2;
    assert |small| == 3;
    if a !in used {
      k := 1;
    } else if b !in used {
      k := 2;
    } else {
      k := 3;
    }
  }

  /** While a bag is being filled, the first-pass filter always leaves a candidate, so the fallback never runs. */
  lemma AvailableNeverEmpty(cat: Catalogue, pieces: seq<Piece>, used: set<string>)
    requires Suitable(cat) && |used| <= 2
    ensures |Available(cat, pieces, used)| > 0
  {
    var k := SmallTemplateFree(cat, used);
    var t := cat.library[k];
    assert t in cat.library && Admissible(cat.weights, t, pieces, used);
    AdmitMembers(cat.weights, cat.library, pieces, used);
    assert t in Available(cat, pieces, used);
  }

  // ---------------------------------------------------------------------
  // Copies handed out

  /** Bag.ts's own clonePiece: a copy without the image. */
  function BagClone(p: Piece): (r: Piece)
    ensures r.id == p.id && r.cells == p.cells && r.size == p.size && r.color == p.color
    ensures r.image == None
  {
    Piece(p.id, p.cells, Size(p.size.w, p.size.h), p.color, None)
  }

  /**
   * clonePieceWithRandomRotation: the copy, turned by the catalogue's
   * rotation for one draw (for the game's catalogue, the rotation that
   * PieceSet.RandomlyRotatePiece carries out on the generator).
   */
  method ClonePieceWithRandomRotation(piece: Piece, rng: Random.SeededRandom, cat: Catalogue) returns (r: Piece)
    requires |piece.cells| > 0 && rng.Valid() && Usable(cat)
    modifies rng
    ensures rng.Valid() && rng.seedValue == old(rng.seedValue) && rng.draws == old(rng.draws)
    ensures rng.pos == old(rng.pos) + 1
    ensures r == cat.turn(BagClone(piece), old(rng.draws(rng.pos)))
  {
    var cloned := BagClone(piece);
    var u := rng.Next();
    r := cat.turn(cloned, u);
  }

  // ---------------------------------------------------------------------
  // generateBag

  /**
   * The templates picked so far and the ids recorded as used. The filter
   * reads only the ids and cell counts of the pieces already chosen, and a
   * turned copy keeps both, so the rounds are stated over the templates and
   * the turns are applied when the bag is assembled (`AdmitSameSizes`
   * connects the two in `GenerateBagFrom`).
   */
  datatype Draft = Draft(picks: seq<Piece>, used: set<string>)

  /** One round of the first loop, with the draw u for the weighted pick. */
  function Extend(cat: Catalogue, d: Draft, u: real): Result<Draft> {
    var available := Available(cat, d.picks, d.used);
    if |available| == 0 then
      var fallback := Positive(cat.weights, cat.library);
      match WeightedPick(cat.weights, if |fallback| > 0 then fallback else cat.library, u)
      case Err(m) => Err(m)
      case Ok(p) => Ok(Draft(d.picks + [p], d.used))
    else
      match WeightedPick(cat.weights, available, u)
      case Err(m) => Err(m)
      case Ok(p) => Ok(Draft(d.picks + [p], d.used + {p.id}))
  }

  /** A successful round appends one template of the library. */
  lemma ExtendShape(cat: Catalogue, d: Draft, u: real)
    ensures var r := Extend(cat, d, u);
            r.Ok? ==> |r.value.picks| == |d.picks| + 1 && r.value.picks[..|d.picks|] == d.picks && r.value.picks[|d.picks|] in cat.library
  {
    var available := Available(cat, d.picks, d.used);
    var fallback := Positive(cat.weights, cat.library);
    AdmitMembers(cat.weights, cat.library, d.picks, d.used);
    PositiveMembers(cat.weights, cat.library);
    WeightedPickSpec(cat.weights, available, u);
    WeightedPickSpec(cat.weights, if |fallback| > 0 then fallback else cat.library, u);
  }

  /** The first k rounds; round i picks with the draw at pos + 2i (the draw after it turns the piece). */
  function Drafted(cat: Catalogue, k: nat, draws: nat -> real, pos: nat): Result<Draft> {
    if k == 0 then Ok(Draft([], {}))
    else
      match Drafted(cat, k - 1, draws, pos)
      case Err(m) => Err(m)
      case Ok(d) => Extend(cat, d, draws(pos + 2 * (k - 1)))
  }

  lemma {:induction false} DraftedShape(cat: Catalogue, k: nat, draws: nat -> real, pos: nat)
    ensures Drafted(cat, k, draws, pos).Ok? ==> |Drafted(cat, k, draws, pos).value.picks| == k
    ensures Drafted(cat, k, draws, pos).Ok? ==> forall i :: 0 <= i < k ==> Drafted(cat, k, draws, pos).value.picks[i] in cat.library
  {
    if k > 0 {
      DraftedShape(cat, k - 1, draws, pos);
      var prev := Drafted(cat, k - 1, draws, pos);
      if prev.Ok? && Drafted(cat, k, draws, pos).Ok? {
        ExtendShape(cat, prev.value, draws(pos + 2 * (k - 1)));
        var d := Drafted(cat, k, draws, pos).value;
        forall i | 0 <= i < k ensures d.picks[i] in cat.library {
          if i < k - 1 {
            assert d.picks[i] == d.picks[..k - 1][i] == prev.value.picks[i];
          }
        }
      }
    }
  }

  lemma {:induction false} DraftedErrSticks(cat: Catalogue, i: nat, k: nat, draws: nat -> real, pos: nat)
    requires i <= k && Drafted(cat, i, draws, pos).Err?
    ensures Drafted(cat, k, draws, pos) == Drafted(cat, i, draws, pos)
    decreases k
  {
    if k > i {
      DraftedErrSticks(cat, i, k - 1, draws, pos);
    }
  }

  /** clonePieceWithRandomRotation for the draw u: Bag.ts's copy of a template, turned. */
  function Copy(cat: Catalogue, t: Piece, u: real): Piece
    requires Usable(cat) && t in cat.library
  {
    cat.turn(BagClone(t), u)
  }

  /** The bag generateBag returns for a stream and a starting position. */
  /** Rounds of the first loop: one per slot of the bag. */
  const Rounds: nat := 3

  function GeneratedBag(cat: Catalogue, draws: nat -> real, pos: nat): (r: Result<Bag>)
    requires Usable(cat)
    ensures r.Ok? ==> forall k :: 0 <= k < 3 ==> r.value[k].Some?
  {
    match Drafted(cat, Rounds, draws, pos)
    case Err(m) => Err(m)
    case Ok(d) =>
      DraftedShape(cat, Rounds, draws, pos);
      var b: Bag := [Some(Copy(cat, d.picks[0], draws(pos + 1))), Some(Copy(cat, d.picks[1], draws(pos + 3))), Some(Copy(cat, d.picks[2], draws(pos + 5)))];
      Ok(b)
  }

  /** A quarter-turned, image-less copy of a template of the library. */
  ghost predicate FromLibrary(library: seq<Piece>, q: Piece) {
    exists t :: t in library && QuarterTurn(BagClone(t), q)
  }

  /**
   * What the first pass keeps true: every picked id is recorded, no id
   * twice, at most two templates of 4–6 cells, at most one of 7 or more and
   * at most one of 6 or more, and every pick a positively weighted template
   * of the library.
   */
  predicate GoodDraft(cat: Catalogue, d: Draft) {
    && |d.used| <= |d.picks|
    && (forall i :: 0 <= i < |d.picks| ==> d.picks[i].id in d.used)
    && (forall i, j :: 0 <= i < j < |d.picks| ==> d.picks[i].id != d.picks[j].id)
    && CountBetween(d.picks, 4, 7) <= 2
    && CountAtLeast(d.picks, 7) <= 1
    && CountAtLeast(d.picks, 6) <= 1
    && (forall i :: 0 <= i < |d.picks| ==> WeightOf(cat.weights, d.picks[i].id) > 0.0 && d.picks[i] in cat.library)
  }

  /** A round taken on a good draft of at most two picks succeeds, adds an admitted template and keeps the draft good. */
  lemma ExtendKeepsGood(cat: Catalogue, d: Draft, u: real)
    requires Suitable(cat) && GoodDraft(cat, d) && |d.picks| <= 2 && 0.0 <= u < 1.0
    ensures Extend(cat, d, u).Ok? && GoodDraft(cat, Extend(cat, d, u).value)
  {
    AvailableNeverEmpty(cat, d.picks, d.used);
    var available := Available(cat, d.picks, d.used);
    WeightedPickSpec(cat.weights, available, u);
    AdmitMembers(cat.weights, cat.library, d.picks, d.used);
    assert available[0] in available;
    assert WeightOf(cat.weights, available[0].id) > 0.0;
    var p := WeightedPick(cat.weights, available, u).value;
    assert p in available;
    var d' := Draft(d.picks + [p], d.used + {p.id});
    assert Extend(cat, d, u) == Ok(d');
    CountsAppend(d.picks, p);
    assert |d'.used| <= |d.used| + 1;
    forall i, j | 0 <= i < j < |d'.picks| ensures d'.picks[i].id != d'.picks[j].id {
      if j == |d.picks| {
        assert d.picks[i].id in d.used;
      }
    }
  }

  /** Every prefix of up to three rounds succeeds and stays good. */
  lemma {:induction false} DraftedGood(cat: Catalogue, k: nat, draws: nat -> real, pos: nat)
    requires Suitable(cat) && k <= 3 && Random.ValidStream(draws)
    ensures Drafted(cat, k, draws, pos).Ok? && GoodDraft(cat, Drafted(cat, k, draws, pos).value)
    ensures |Drafted(cat, k, draws, pos).value.picks| == k
  {
    DraftedShape(cat, k, draws, pos);
    if k > 0 {
      DraftedGood(cat, k - 1, draws, pos);
      ExtendKeepsGood(cat, Drafted(cat, k - 1, draws, pos).value, draws(pos + 2 * (k - 1)));
    }
  }

  /** Two lists whose pieces have the same cell counts, position by position. */
  predicate SameSizes(a: seq<Piece>, b: seq<Piece>) {
    |a| == |b| && forall k :: 0 <= k < |a| ==> |a[k].cells| == |b[k].cells|
  }

  lemma {:induction false} CountsSameSizes(a: seq<Piece>, b: seq<Piece>, lo: int, hi: int)
    requires SameSizes(a, b)
    ensures CountBetween(a, lo, hi) == CountBetween(b, lo, hi)
    ensures CountAtLeast(a, lo) == CountAtLeast(b, lo)
    decreases |a|
  {
    if |a| > 0 {
      CountsSameSizes(a[..|a| - 1], b[..|b| - 1], lo, hi);
    }
  }

  /** The filter gives the same candidates against the turned copies as against the templates they came from. */
  lemma {:induction false} AdmitSameSizes(weights: map<string, real>, candidates: seq<Piece>, a: seq<Piece>, b: seq<Piece>, used: set<string>)
    requires SameSizes(a, b)
    ensures Admit(weights, candidates, a, used) == Admit(weights, candidates, b, used)
    decreases |candidates|
  {
    CountsSameSizes(a, b, 4, 7);
    CountsSameSizes(a, b, 7, 7);
    CountsSameSizes(a, b, 6, 6);
    if |candidates| > 0 {
      AdmitSameSizes(weights, candidates[1..], a, b, used);
    }
  }

  /** The generated bag holds the three picked templates, each turned by the draw after its pick. */
  lemma GeneratedPieces(cat: Catalogue, draws: nat -> real, pos: nat)
    requires Usable(cat) && Drafted(cat, Rounds, draws, pos).Ok?
    ensures |Drafted(cat, Rounds, draws, pos).value.picks| == 3
    ensures forall k :: 0 <= k < 3 ==> Drafted(cat, Rounds, draws, pos).value.picks[k] in cat.library
    ensures GeneratedBag(cat, draws, pos).Ok?
    ensures forall k :: 0 <= k < 3 ==>
      GeneratedBag(cat, draws, pos).value[k] == Some(Copy(cat, Drafted(cat, Rounds, draws, pos).value.picks[k], draws(pos + 2 * k + 1)))
  {
    DraftedShape(cat, Rounds, draws, pos);
    var d := Drafted(cat, Rounds, draws, pos).value;
    var b := GeneratedBag(cat, draws, pos).value;
    forall k | 0 <= k < 3 ensures b[k] == Some(Copy(cat, d.picks[k], draws(pos + 2 * k + 1))) {
      if k == 0 {
        assert b[0] == Some(Copy(cat, d.picks[0], draws(pos + 1)));
      } else if k == 1 {
        assert b[1] == Some(Copy(cat, d.picks[1], draws(pos + 3)));
      } else {
        assert b[2] == Some(Copy(cat, d.picks[2], draws(pos + 5)));
      }
    }
  }

  lemma DraftedSucceeds(cat: Catalogue, draws: nat -> real, pos: nat)
    requires Suitable(cat) && Random.ValidStream(draws)
    ensures Drafted(cat, Rounds, draws, pos).Ok?
  {
    DraftedGood(cat, Rounds, draws, pos);
  }

  /**
   * A generated bag: three pieces, three different templates, each with a
   * positive weight and no image, at most two of 4–6 cells and at most one
   * of 6 or more.
   */
  lemma GeneratedBagIsGood(cat: Catalogue, draws: nat -> real, pos: nat)
    requires Suitable(cat) && Random.ValidStream(draws)
    ensures GeneratedBag(cat, draws, pos).Ok?
    ensures var b := GeneratedBag(cat, draws, pos).value;
            && (forall k :: 0 <= k < 3 ==> b[k].Some? && WeightOf(cat.weights, b[k].value.id) > 0.0 && b[k].value.image == None)
            && (forall i, j :: 0 <= i < j < 3 ==> b[i].value.id != b[j].value.id)
            && CountBetween([b[0].value, b[1].value, b[2].value], 4, 7) <= 2
            && CountAtLeast([b[0].value, b[1].value, b[2].value], 6) <= 1
  {
    DraftedGood(cat, Rounds, draws, pos);
    GeneratedPieces(cat, draws, pos);
    var d := Drafted(cat, Rounds, draws, pos).value;
    var b := GeneratedBag(cat, draws, pos).value;
    var pieces := [b[0].value, b[1].value, b[2].value];
    assert SameSizes(pieces, d.picks);
    CountsSameSizes(pieces, d.picks, 4, 7);
    CountsSameSizes(pieces, d.picks, 6, 6);
  }

  /** With a turn by quarter turns, each piece of a generated bag is one orientation of an image-less copy of a template. */
  lemma GeneratedBagTurnsTemplates(cat: Catalogue, draws: nat -> real, pos: nat)
    requires Suitable(cat) && TurnsByQuarters(cat) && Random.ValidStream(draws)
    ensures GeneratedBag(cat, draws, pos).Ok?
    ensures forall k :: 0 <= k < 3 ==> FromLibrary(cat.library, GeneratedBag(cat, draws, pos).value[k].value)
  {
    DraftedSucceeds(cat, draws, pos);
    GeneratedPieces(cat, draws, pos);
    var d := Drafted(cat, Rounds, draws, pos).value;
    var b := GeneratedBag(cat, draws, pos).value;
    forall k | 0 <= k < 3 ensures FromLibrary(cat.library, b[k].value) {
      assert QuarterTurn(BagClone(d.picks[k]), b[k].value);
    }
  }

  /** PIECE_LIBRARY with PIECE_WEIGHTS. */
  function GameCatalogue(): (c: Catalogue)
    ensures Usable(c)
  {
    PieceSet.LibraryCellsNonEmpty();
    Catalogue(PieceSet.Library, PieceSet.Weights, PieceSet.RandomlyRotate)
  }

  /** randomlyRotatePiece keeps the id, cell count and image. */
  lemma GameTurnKeeps()
    ensures TurnKeeps(GameCatalogue())
  {
  }

  /** randomlyRotatePiece turns by quarter turns. */
  lemma GameTurnByQuarters()
    ensures TurnsByQuarters(GameCatalogue())
  {
    forall p: Piece, u: real | |p.cells| > 0 && 0.0 <= u < 1.0 ensures QuarterTurn(p, PieceSet.RandomlyRotate(p, u)) {
      PieceSet.RandomRotationIsQuarterTurn(p, u);
    }
  }

  lemma GameWeightsNonNegative()
    ensures forall p :: p in GameCatalogue().library && p.id in GameCatalogue().weights ==> GameCatalogue().weights[p.id] >= 0.0
  {
    PieceSet.LibraryWeights();
  }

  lemma GameSmallTemplates()
    ensures var c := GameCatalogue();
            && (forall k :: 1 <= k <= 3 ==> |c.library[k].cells| < 4 && c.library[k].id in c.weights && c.weights[c.library[k].id] != 0.0)
            && c.library[1].id != c.library[2].id && c.library[1].id != c.library[3].id && c.library[2].id != c.library[3].id
  {
    PieceSet.SmallTemplates();
    PieceSet.TemplateWeight(1);
    PieceSet.TemplateWeight(2);
    PieceSet.TemplateWeight(3);
  }

  /** The game's catalogue is suitable: DOMINO_H, DOMINO_V and TROMINO_I are the three small templates. */
  lemma GameCatalogueSuitable()
    ensures Suitable(GameCatalogue())
  {
    GameWeightsNonNegative();
    GameSmallTemplates();
    GameTurnKeeps();
  }

  /** A template whose weight is not positive never reaches a generated bag. */
  lemma GeneratedBagAvoids(cat: Catalogue, draws: nat -> real, pos: nat, id: string)
    requires Suitable(cat) && Random.ValidStream(draws) && WeightOf(cat.weights, id) <= 0.0
    ensures GeneratedBag(cat, draws, pos).Ok?
    ensures forall k :: 0 <= k < 3 ==> GeneratedBag(cat, draws, pos).value[k].value.id != id
  {
    GeneratedBagIsGood(cat, draws, pos);
  }

  lemma GameMonoWeight()
    ensures WeightOf(GameCatalogue().weights, "MONO") == 0.0
  {
    PieceSet.TemplateWeight(0);
  }

  /** With the game's weights the zero-weight MONO never reaches a bag. */
  lemma GameBagHasNoMono(draws: nat -> real, pos: nat)
    requires Random.ValidStream(draws)
    ensures GeneratedBag(GameCatalogue(), draws, pos).Ok?
    ensures forall k :: 0 <= k < 3 ==> GeneratedBag(GameCatalogue(), draws, pos).value[k].value.id != "MONO"
  {
    GameCatalogueSuitable();
    GameMonoWeight();
    GeneratedBagAvoids(GameCatalogue(), draws, pos, "MONO");
  }

  /**
   * One round's pick: the templates the filter admits against the pieces
   * chosen so far, or the fallback when it admits none, and a weighted draw
   * among them. `admitted` tells whether the pick came from the filtered
   * list (only then is its id recorded). Stated against the round over the
   * templates `picks` the pieces were turned from.
   */
  method PickTemplate(rng: Random.SeededRandom, cat: Catalogue, pieces: seq<Piece>, usedIds: set<string>, ghost picks: seq<Piece>)
    returns (picked: Result<Piece>, admitted: bool)
    requires rng.Valid() && SameSizes(pieces, picks)
    modifies rng
    ensures rng.Valid() && rng.seedValue == old(rng.seedValue) && rng.draws == old(rng.draws)
    ensures picked.Ok? ==> rng.pos == old(rng.pos) + 1
    ensures picked.Err? ==> Extend(cat, Draft(picks, usedIds), old(rng.draws(rng.pos))) == Err(picked.message)
    ensures picked.Ok? ==>
      Extend(cat, Draft(picks, usedIds), old(rng.draws(rng.pos))) == Ok(Draft(picks + [picked.value], if admitted then usedIds + {picked.value.id} else usedIds))
  {
    AdmitSameSizes(cat.weights, cat.library, pieces, picks, usedIds);
    var availablePieces := Available(cat, pieces, usedIds);
    admitted := |availablePieces| > 0;
    if |availablePieces| == 0 {
      var fallbackPieces := Positive(cat.weights, cat.library);
      picked := WeightedRandomPiece(rng, cat.weights, if |fallbackPieces| > 0 then fallbackPieces else cat.library);
    } else {
      picked := WeightedRandomPiece(rng, cat.weights, availablePieces);
    }
    if picked.Ok? {
      WeightedPickSpec(cat.weights, if |availablePieces| == 0 then (if |Positive(cat.weights, cat.library)| > 0 then Positive(cat.weights, cat.library) else cat.library) else availablePieces, old(rng.draws(rng.pos)));
    }
  }

  /** A successful round on the draft of the first i rounds gives the draft of i + 1, with one more template of the library. */
  lemma RoundStep(cat: Catalogue, draws: nat -> real, pos: nat, i: nat, d: Draft, d': Draft)
    requires Drafted(cat, i, draws, pos) == Ok(d)
    requires Extend(cat, d, draws(pos + 2 * i)) == Ok(d')
    ensures Drafted(cat, i + 1, draws, pos) == Ok(d')
    ensures |d'.picks| == |d.picks| + 1 && d'.picks[|d.picks|] in cat.library
  {
    ExtendShape(cat, d, draws(pos + 2 * i));
  }

  /** A failed round fails the whole generation with the same message. */
  lemma RoundFails(cat: Catalogue, draws: nat -> real, pos: nat, i: nat, d: Draft, m: string)
    requires Usable(cat) && i < Rounds
    requires Drafted(cat, i, draws, pos) == Ok(d)
    requires Extend(cat, d, draws(pos + 2 * i)) == Err(m)
    ensures GeneratedBag(cat, draws, pos) == Err(m)
  {
    DraftedErrSticks(cat, i + 1, Rounds, draws, pos);
  }

  /** Three successful rounds and their turned copies make the generated bag. */
  lemma RoundsAssemble(cat: Catalogue, draws: nat -> real, pos: nat, d: Draft, pieces: seq<Piece>)
    requires Usable(cat) && Drafted(cat, Rounds, draws, pos) == Ok(d)
    requires Copies(cat, pieces, d.picks, draws, pos) && |pieces| == 3
    ensures GeneratedBag(cat, draws, pos).Ok?
    ensures GeneratedBag(cat, draws, pos).value == [Some(pieces[0]), Some(pieces[1]), Some(pieces[2])]
  {
  }

  /** The pieces assembled so far are the turned copies of the picked templates, round by round. */
  ghost predicate Copies(cat: Catalogue, pieces: seq<Piece>, picks: seq<Piece>, draws: nat -> real, pos: nat)
    requires Usable(cat)
  {
    && |pieces| == |picks|
    && (forall k :: 0 <= k < |picks| ==> picks[k] in cat.library)
    && (forall k :: 0 <= k < |picks| ==> pieces[k] == Copy(cat, picks[k], draws(pos + 2 * k + 1)))
  }

  lemma CopiesExtend(cat: Catalogue, pieces: seq<Piece>, picks: seq<Piece>, draws: nat -> real, pos: nat, t: Piece, u: real, c: Piece)
    requires Usable(cat) && Copies(cat, pieces, picks, draws, pos)
    requires t in cat.library && u == draws(pos + 2 * |picks| + 1) && c == cat.turn(BagClone(t), u)
    ensures Copies(cat, pieces + [c], picks + [t], draws, pos)
  {
  }

  /** One pass of the first loop: pick a template, append its turned copy, record its id when the filter admitted it. */
  method TakeRound(rng: Random.SeededRandom, cat: Catalogue, pieces: seq<Piece>, usedIds: set<string>, ghost picks: seq<Piece>,
                   ghost i: nat, ghost ds: nat -> real, ghost p0: nat)
    returns (failure: Option<string>, pieces': seq<Piece>, usedIds': set<string>, ghost picks': seq<Piece>)
    requires rng.Valid() && Usable(cat) && TurnKeeps(cat) && i < Rounds
    requires rng.draws == ds && rng.pos == p0 + 2 * i
    requires Drafted(cat, i, ds, p0) == Ok(Draft(picks, usedIds))
    requires |pieces| == i && Copies(cat, pieces, picks, ds, p0) && SameSizes(pieces, picks)
    modifies rng
    ensures rng.Valid() && rng.seedValue == old(rng.seedValue) && rng.draws == ds
    ensures failure.Some? ==> Extend(cat, Draft(picks, usedIds), ds(p0 + 2 * i)) == Err(failure.value)
    ensures failure.None? ==> rng.pos == p0 + 2 * (i + 1)
    ensures failure.None? ==> Drafted(cat, i + 1, ds, p0) == Ok(Draft(picks', usedIds'))
    ensures failure.None? ==> |pieces'| == i + 1 && Copies(cat, pieces', picks', ds, p0) && SameSizes(pieces', picks')
  {
    ghost var d := Draft(picks, usedIds);
    var picked, admitted := PickTemplate(rng, cat, pieces, usedIds, picks);
    if picked.Err? {
      return Some(picked.message), pieces, usedIds, picks;
    }
    ghost var t := picked.value;
    RoundStep(cat, ds, p0, i, d, Draft(picks + [t], if admitted then usedIds + {t.id} else usedIds));
    ghost var u := rng.draws(rng.pos);
    var cloned := ClonePieceWithRandomRotation(picked.value, rng, cat);
    CopiesExtend(cat, pieces, picks, ds, p0, t, u, cloned);
    failure := None;
    pieces' := pieces + [cloned];
    picks' := picks + [t];
    usedIds' := if admitted then usedIds + {picked.value.id} else usedIds;
  }

  /** generateBag over a catalogue: three rounds, each a weighted pick (from the filtered list, or the fallback) and a turned copy. */
  method GenerateBagFrom(rng: Random.SeededRandom, cat: Catalogue) returns (r: Result<Bag>)
    requires rng.Valid() && Usable(cat) && TurnKeeps(cat)
    modifies rng
    ensures rng.Valid() && rng.seedValue == old(rng.seedValue) && rng.draws == old(rng.draws)
    ensures r == GeneratedBag(cat, old(rng.draws), old(rng.pos))
    ensures r.Ok? ==> rng.pos == old(rng.pos) + 6
  {
    ghost var ds := rng.draws;
    ghost var p0 := rng.pos;
    var pieces: seq<Piece> := [];
    var usedIds: set<string> := {};
    ghost var picks: seq<Piece> := [];
    for i := 0 to Rounds
      invariant rng.Valid() && rng.seedValue == old(rng.seedValue) && rng.draws == ds
      invariant rng.pos == p0 + 2 * i
      invariant Drafted(cat, i, ds, p0) == Ok(Draft(picks, usedIds))
      invariant |pieces| == i && Copies(cat, pieces, picks, ds, p0)
      invariant SameSizes(pieces, picks)
    {
      var failure, nextPieces, nextUsed, nextPicks := TakeRound(rng, cat, pieces, usedIds, picks, i, ds, p0);
      if failure.Some? {
        RoundFails(cat, ds, p0, i, Draft(picks, usedIds), failure.value);
        return Err(failure.value);
      }
      pieces, usedIds, picks := nextPieces, nextUsed, nextPicks;
    }
    RoundsAssemble(cat, ds, p0, Draft(picks, usedIds), pieces);
    var bag: Bag := [Some(pieces[0]), Some(pieces[1]), Some(pieces[2])];
    r := Ok(bag);
  }

  /** generateBag: the generator over PIECE_LIBRARY and PIECE_WEIGHTS; it never fails and draws six values. */
  method GenerateBag(rng: Random.SeededRandom) returns (bag: Bag)
    requires rng.Valid()
    modifies rng
    ensures rng.Valid() && rng.seedValue == old(rng.seedValue) && rng.draws == old(rng.draws)
    ensures rng.pos == old(rng.pos) + 6
    ensures GeneratedBag(GameCatalogue(), old(rng.draws), old(rng.pos)) == Ok(bag)
  {
    GameCatalogueSuitable();
    GeneratedBagIsGood(GameCatalogue(), rng.draws, rng.pos);
    var r := GenerateBagFrom(rng, GameCatalogue());
    bag := r.value;
  }

  // ---------------------------------------------------------------------
  // Queries on a bag

  /** Some slot holds a piece of at most two cells (`bag.some`). */
  function HasSmallPiece(slots: seq<Option<Piece>>): (b: bool)
    ensures b <==> exists k :: 0 <= k < |slots| && slots[k].Some? && |slots[k].value.cells| <= 2
    decreases |slots|
  {
    if |slots| == 0 then false
    else (slots[0].Some? && |slots[0].value.cells| <= 2) || HasSmallPiece(slots[1..])
  }

  /** hasSmallPiece on a bag: some slot holds a piece of one or two cells. */
  function BagHasSmallPiece(bag: Bag): (b: bool)
    ensures b <==> exists k :: 0 <= k < 3 && bag[k].Some? && |bag[k].value.cells| <= 2
  {
    HasSmallPiece(bag)
  }

  /** Total number of cells over the occupied slots (`bag.reduce`). */
  function CellTotal(slots: seq<Option<Piece>>): (n: nat)
    ensures n == 0 <==> forall k :: 0 <= k < |slots| ==> slots[k].None? || |slots[k].value.cells| == 0
    decreases |slots|
  {
    if |slots| == 0 then 0
    else (if slots[0].Some? then |slots[0].value.cells| else 0) + CellTotal(slots[1..])
  }

  /** getBagSize: the cells still held; zero exactly when no slot holds a cell. */
  function GetBagSize(bag: Bag): (n: nat)
    ensures n == 0 <==> forall k :: 0 <= k < 3 ==> bag[k].None? || |bag[k].value.cells| == 0
  {
    CellTotal(bag)
  }

  /** Emptying a slot lowers the total by exactly the cells of the piece it held. */
  lemma {:induction false} CellTotalAfterRemoval(slots: seq<Option<Piece>>, k: nat)
    requires k < |slots|
    ensures CellTotal(slots[k := None]) + (if slots[k].Some? then |slots[k].value.cells| else 0) == CellTotal(slots)
    decreases |slots|
  {
    if k > 0 {
      assert slots[k := None][1..] == slots[1..][k - 1 := None];
      CellTotalAfterRemoval(slots[1..], k - 1);
    } else {
      assert slots[k := None][1..] == slots[1..];
    }
  }
}
