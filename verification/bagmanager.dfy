/**
 * The bag manager (src/game/BagManager.ts): it owns the current bag of
 * three slots and the seeded generator, empties a slot when its piece is
 * placed, and deals a fresh bag once all three slots are empty.
 *
 * The slots are a `Bag` value the methods reassign; the generator is the
 * shared `SeededRandom` object, whose position advances by six draws per
 * bag dealt.
 */
module BagManagement {
  import opened Types
  import Random
  import BagGenerator

  /** Every slot is empty (`bag.every(piece => piece === null)`). */
  predicate AllEmpty(slots: seq<Option<Piece>>) {
    forall k :: 0 <= k < |slots| ==> slots[k].None?
  }

  /** The pieces of the occupied slots, in slot order (`bag.filter(piece => piece !== null)`). */
  function Occupied(slots: seq<Option<Piece>>): (r: seq<Piece>)
    ensures |r| <= |slots|
    decreases |slots|
  {
    if |slots| == 0 then []
    else (if slots[0].Some? then [slots[0].value] else []) + Occupied(slots[1..])
  }

  /** The occupied slots' pieces are exactly the pieces held, and there are none exactly when every slot is empty. */
  lemma {:induction false} OccupiedMembers(slots: seq<Option<Piece>>)
    ensures forall p :: p in Occupied(slots) <==> Some(p) in slots
    ensures Occupied(slots) == [] <==> AllEmpty(slots)
    decreases |slots|
  {
    if |slots| > 0 {
      OccupiedMembers(slots[1..]);
      assert forall p :: Some(p) in slots <==> slots[0] == Some(p) || Some(p) in slots[1..];
      if slots[0].None? {
        assert AllEmpty(slots) <==> AllEmpty(slots[1..]);
      }
    }
  }

  /** Filtering distributes over concatenation. */
  lemma {:induction false} OccupiedConcat(a: seq<Option<Piece>>, b: seq<Option<Piece>>)
    ensures Occupied(a + b) == Occupied(a) + Occupied(b)
    decreases |a|
  {
    if |a| == 0 {
      assert a + b == b;
    } else {
      var head := if a[0].Some? then [a[0].value] else [];
      assert (a + b)[0] == a[0] && (a + b)[1..] == a[1..] + b;
      assert Occupied(a + b) == head + Occupied(a[1..] + b);
      OccupiedConcat(a[1..], b);
      assert Occupied(a) == head + Occupied(a[1..]);
    }
  }

  /** The occupied slots among the first n. */
  function OccupiedSlots(slots: seq<Option<Piece>>, n: nat): (ks: set<nat>)
    requires n <= |slots|
    ensures forall k: nat :: k in ks <==> k < n && slots[k].Some?
  {
    set k: nat | k < n && slots[k].Some?
  }

  /** The first n slots contribute one entry per occupied slot. */
  lemma {:induction false} OccupiedPrefixCount(slots: seq<Option<Piece>>, n: nat)
    requires n <= |slots|
    ensures |Occupied(slots[..n])| == |OccupiedSlots(slots, n)|
  {
    if n > 0 {
      OccupiedPrefixCount(slots, n - 1);
      assert slots[..n] == slots[..n - 1] + [slots[n - 1]];
      OccupiedConcat(slots[..n - 1], [slots[n - 1]]);
      assert [slots[n - 1]][1..] == [];
      if slots[n - 1].Some? {
        assert OccupiedSlots(slots, n) == OccupiedSlots(slots, n - 1) + {n - 1};
      } else {
        assert OccupiedSlots(slots, n) == OccupiedSlots(slots, n - 1);
      }
    } else {
      assert OccupiedSlots(slots, 0) == {};
    }
  }

  /**
   * The occupied list, position by position: it has one entry per occupied
   * slot, and the piece of an occupied slot k sits at the position given by
   * the number of occupied slots before k. Together these fix the list: the
   * non-empty slots, in slot order, each as often as it occurs.
   */
  lemma OccupiedPositions(slots: seq<Option<Piece>>)
    ensures |Occupied(slots)| == |OccupiedSlots(slots, |slots|)|
    ensures forall k :: 0 <= k < |slots| && slots[k].Some? ==>
              |Occupied(slots[..k])| < |Occupied(slots)| && Occupied(slots)[|Occupied(slots[..k])|] == slots[k].value
  {
    OccupiedPrefixCount(slots, |slots|);
    assert slots[..|slots|] == slots;
    forall k | 0 <= k < |slots| && slots[k].Some?
      ensures |Occupied(slots[..k])| < |Occupied(slots)| && Occupied(slots)[|Occupied(slots[..k])|] == slots[k].value
    {
      assert slots == slots[..k] + slots[k..];
      OccupiedConcat(slots[..k], slots[k..]);
      assert Occupied(slots[k..])[0] == slots[k].value;
    }
  }

  /** Emptying an occupied slot drops exactly its piece from the occupied list. */
  lemma {:induction false} OccupiedAfterRemoval(slots: seq<Option<Piece>>, k: nat)
    requires k < |slots| && slots[k].Some?
    ensures |Occupied(slots[k := None])| + 1 == |Occupied(slots)|
    decreases |slots|
  {
    if k > 0 {
      assert slots[k := None][1..] == slots[1..][k - 1 := None];
      OccupiedAfterRemoval(slots[1..], k - 1);
    } else {
      assert slots[k := None][1..] == slots[1..];
    }
  }

  /** A freshly generated bag has a piece in every slot. */
  lemma GeneratedBagFull(cat: BagGenerator.Catalogue, draws: nat -> real, pos: nat, b: Bag)
    requires BagGenerator.Usable(cat) && BagGenerator.GeneratedBag(cat, draws, pos) == Ok(b)
    ensures !AllEmpty(b) && |Occupied(b)| == 3
  {
    assert b[0].Some? && b[1].Some? && b[2].Some?;
    assert Occupied(b[2..]) == [b[2].value] by {
      assert b[2..][1..] == [];
    }
    assert Occupied(b[1..]) == [b[1].value, b[2].value] by {
      assert b[1..][1..] == b[2..];
    }
  }

  /** The part of GeneratedBagFull the manager's invariant needs: a dealt bag is not all empty. */
  lemma DealtNotEmpty(cat: BagGenerator.Catalogue, draws: nat -> real, pos: nat, b: Bag)
    requires BagGenerator.Usable(cat) && BagGenerator.GeneratedBag(cat, draws, pos) == Ok(b)
    ensures !AllEmpty(b)
  {
    assert b[0].Some?;
  }

  class BagManager {
    var bag: Bag
    var rng: Random.SeededRandom

    /**
     * The generator's stream is well formed, and the bag is never all empty
     * between calls: a bag is dealt full and dealt again as soon as its last
     * piece is removed.
     */
    ghost predicate Valid()
      reads this, rng
    {
      rng.Valid() && !AllEmpty(bag)
    }

    /** A manager seeded with `seed` (the clock's time when the source is given none), holding the first bag of its stream. */
    constructor (seed: Random.Seed, stream: nat -> real)
      requires Random.ValidStream(stream)
      ensures Valid()
      ensures rng.seedValue == Random.SeedText(seed) && rng.draws == stream && rng.pos == 6
      ensures BagGenerator.GeneratedBag(BagGenerator.GameCatalogue(), stream, 0) == Ok(bag)
    {
      rng := new Random.SeededRandom(seed, stream);
      bag := [None, None, None];  // replaced by the first deal below
      new;
      Deal();
    }

    /** `this.bag = generateBag(this.rng)`: a fresh bag dealt from the generator's next six draws. */
    method Deal()
      requires rng.Valid()
      modifies this, rng
      ensures Valid() && rng == old(rng)
      ensures rng.seedValue == old(rng.seedValue) && rng.draws == old(rng.draws) && rng.pos == old(rng.pos) + 6
      ensures BagGenerator.GeneratedBag(BagGenerator.GameCatalogue(), old(rng.draws), old(rng.pos)) == Ok(bag)
    {
      ghost var ds := rng.draws;
      ghost var p0 := rng.pos;
      var b := BagGenerator.GenerateBag(rng);
      DealtNotEmpty(BagGenerator.GameCatalogue(), ds, p0, b);
      bag := b;
    }

    /** getBag: a copy of the slots (a value here). */
    function GetBag(): Bag
      reads this
    {
      bag
    }

    /** getValidPieces: the pieces still in the bag, in slot order. */
    function GetValidPieces(): (r: seq<Piece>)
      reads this
      ensures forall p :: p in r <==> Some(p) in bag
      ensures |r| == |OccupiedSlots(bag, 3)| <= 3
      ensures forall k :: 0 <= k < 3 && bag[k].Some? ==>
                |Occupied(bag[..k])| < |r| && r[|Occupied(bag[..k])|] == bag[k].value
    {
      OccupiedMembers(bag);
      OccupiedPositions(bag);
      Occupied(bag)
    }

    /** hasValidPieces: some slot still holds a piece; between calls it always does. */
    function HasValidPieces(): (b: bool)
      reads this
      ensures b <==> exists k :: 0 <= k < 3 && bag[k].Some?
    {
      !AllEmpty(bag)
    }

    /** The manager's invariant makes hasValidPieces true between calls. */
    lemma AlwaysHasPieces()
      requires Valid()
      ensures HasValidPieces() && |GetValidPieces()| > 0
    {
      OccupiedMembers(bag);
    }

    /**
     * removePiece: an index outside 0..2 or an empty slot is refused and
     * nothing changes; otherwise the slot is emptied, and if that empties
     * the whole bag a new one is dealt from the generator.
     */
    method RemovePiece(index: int) returns (removed: bool)
      requires Valid()
      modifies this, rng
      ensures Valid() && rng == old(rng)
      ensures rng.seedValue == old(rng.seedValue) && rng.draws == old(rng.draws)
      ensures removed <==> 0 <= index < 3 && old(bag[index]).Some?
      ensures !removed ==> bag == old(bag) && rng.pos == old(rng.pos)
      ensures removed && !AllEmpty(old(bag)[index := None]) ==>
        bag == old(bag)[index := None] && rng.pos == old(rng.pos)
      ensures removed && AllEmpty(old(bag)[index := None]) ==>
        BagGenerator.GeneratedBag(BagGenerator.GameCatalogue(), old(rng.draws), old(rng.pos)) == Ok(bag) && rng.pos == old(rng.pos) + 6
    {
      if index < 0 || index >= 3 || bag[index].None? {
        return false;
      }
      bag := bag[index := None];
      if AllEmpty(bag) {
        Deal();
      }
      return true;
    }

    /** reset: re-seed when a seed is given (restarting that seed's stream), then deal a new bag. */
    method Reset(seed: Option<Random.Seed>, stream: nat -> real)
      requires Valid()
      requires seed.Some? ==> Random.ValidStream(stream)
      modifies this, rng
      ensures Valid()
      ensures seed.None? ==> rng == old(rng) && rng.seedValue == old(rng.seedValue) && rng.draws == old(rng.draws)
      ensures seed.None? ==>
        rng.pos == old(rng.pos) + 6 && BagGenerator.GeneratedBag(BagGenerator.GameCatalogue(), old(rng.draws), old(rng.pos)) == Ok(bag)
      ensures seed.Some? ==> fresh(rng) && rng.seedValue == Random.SeedText(seed.value) && rng.draws == stream && rng.pos == 6
      ensures seed.Some? ==> BagGenerator.GeneratedBag(BagGenerator.GameCatalogue(), stream, 0) == Ok(bag)
    {
      if seed.Some? {
        rng := new Random.SeededRandom(seed.value, stream);
      }
      Deal();
    }
  }

  /** Removing a piece without a new deal lowers the bag's cell total by that piece's cells and its piece count by one. */
  lemma RemovalShrinksBag(slots: Bag, index: nat)
    requires index < 3 && slots[index].Some?
    ensures BagGenerator.GetBagSize(slots[index := None]) + |slots[index].value.cells| == BagGenerator.GetBagSize(slots)
    ensures |Occupied(slots[index := None])| + 1 == |Occupied(slots)|
  {
    BagGenerator.CellTotalAfterRemoval(slots, index);
    OccupiedAfterRemoval(slots, index);
  }
}
