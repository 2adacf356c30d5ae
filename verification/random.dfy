/**
 * The seeded pseudo-random generator (src/game/Random.ts).
 *
 * The seedrandom algorithm itself is foreign code: the stream of values it
 * produces for a seed is handed to the generator as `draws`, a function
 * from position to a real in [0, 1). `next()` returns the draw at the
 * current position and advances it; every other operation is built on it,
 * so each result is a function of the stream and the position.
 */
module Random {
  import opened Types

  /** A seed is a string or a number; both are kept in string form. */
  datatype Seed = Text(s: string) | Number(n: int)

  function SeedText(seed: Seed): (s: string)
    ensures seed.Text? ==> s == seed.s
    ensures seed.Number? ==> |s| >= 1
  {
    match seed
    case Text(s) => s
    case Number(n) => IntToString(n)
  }

  /** Every value the generator can return lies in [0, 1). */
  ghost predicate ValidStream(draws: nat -> real) {
    forall i: nat :: 0.0 <= draws(i) < 1.0
  }

  lemma ScaledBelow(u: real, n: int)
    requires 0.0 <= u < 1.0 && n > 0
    ensures 0.0 <= u * n as real < n as real
  {
    assert u * n as real <= 1.0 * n as real - (1.0 - u) * n as real;
  }

  lemma FloorBelow(x: real, n: int)
    requires 0.0 <= x < n as real
    ensures 0 <= x.Floor < n
  {
  }

  /** `Math.floor(u * (max - min)) + min`, computed exactly. */
  function ScaleDraw(u: real, min: int, max: int): (k: int)
    ensures 0.0 <= u < 1.0 && min < max ==> min <= k < max
  {
    var k := (u * (max - min) as real).Floor + min;
    if 0.0 <= u < 1.0 && min < max then
      ScaledBelow(u, max - min);
      FloorBelow(u * (max - min) as real, max - min);
      k
    else
      k
  }

  /** End index of JavaScript's `slice(0, end)` on a list of length len. */
  function SliceEnd(end: int, len: nat): (e: nat)
    ensures e <= len
    ensures 0 <= end <= len ==> e == end
  {
    if end < 0 then (if len + end < 0 then 0 else len + end)
    else if end > len then len
    else end
  }

  function Swap<T>(s: seq<T>, i: int, j: int): (r: seq<T>)
    requires 0 <= i < |s| && 0 <= j < |s|
    ensures |r| == |s| && r[i] == s[j] && r[j] == s[i]
    ensures forall k :: 0 <= k < |s| && k != i && k != j ==> r[k] == s[k]
  {
    s[i := s[j]][j := s[i]]
  }

  lemma SwapPermutes<T>(s: seq<T>, i: int, j: int)
    requires 0 <= i < |s| && 0 <= j < |s|
    ensures multiset(Swap(s, i, j)) == multiset(s)
  {
  }

  /**
   * The Fisher–Yates countdown from index i down to 1, drawing from
   * position pos onwards: at each step the element at i is swapped with
   * one at an index drawn uniformly from [0, i].
   */
  function Shuffled<T>(s: seq<T>, i: int, draws: nat -> real, pos: nat): (r: seq<T>)
    requires i < |s|
    requires ValidStream(draws)
    ensures |r| == |s|
    decreases i
  {
    if i <= 0 then s
    else
      var j := ScaleDraw(draws(pos), 0, i + 1);
      Shuffled(Swap(s, i, j), i - 1, draws, pos + 1)
  }

  /** The destructuring swap `[a[i], a[j]] = [a[j], a[i]]`. */
  method SwapInPlace<T>(a: array<T>, i: int, j: int)
    requires 0 <= i < a.Length && 0 <= j < a.Length
    modifies a
    ensures a[..] == Swap(old(a[..]), i, j)
  {
    var t := a[i];
    a[i] := a[j];
    a[j] := t;
  }

  /** A shuffle is a permutation of its input. */
  lemma {:induction false} ShuffledPermutes<T>(s: seq<T>, i: int, draws: nat -> real, pos: nat)
    requires i < |s| && ValidStream(draws)
    ensures multiset(Shuffled(s, i, draws, pos)) == multiset(s)
    decreases i
  {
    if i > 0 {
      var j := ScaleDraw(draws(pos), 0, i + 1);
      SwapPermutes(s, i, j);
      ShuffledPermutes(Swap(s, i, j), i - 1, draws, pos + 1);
    }
  }

  /** One step of the countdown: swapping at i with the drawn index leaves the rest of the shuffle to do. */
  lemma ShuffledStep<T>(s: seq<T>, swapped: seq<T>, i: int, j: int, draws: nat -> real, pos: nat)
    requires 0 < i < |s| && ValidStream(draws)
    requires j == ScaleDraw(draws(pos), 0, i + 1) && 0 <= j <= i && swapped == Swap(s, i, j)
    ensures Shuffled(s, i, draws, pos) == Shuffled(swapped, i - 1, draws, pos + 1)
  {
  }

  /** Number of draws a shuffle of n elements consumes. */
  function ShuffleDraws(n: nat): nat {
    if n == 0 then 0 else n - 1
  }

  class SeededRandom {
    var seedValue: string
    /** The values seedrandom(seedValue) yields, in order. */
    var draws: nat -> real
    /** How many values have been consumed. */
    var pos: nat

    ghost predicate Valid()
      reads this
    {
      ValidStream(draws)
    }

    constructor (seed: Seed, stream: nat -> real)
      requires ValidStream(stream)
      ensures Valid()
      ensures seedValue == SeedText(seed) && draws == stream && pos == 0
    {
      seedValue := SeedText(seed);
      draws := stream;
      pos := 0;
    }

    /** The draw `next()` would return now. */
    function Peek(): real
      reads this
    {
      draws(pos)
    }

    method Next() returns (u: real)
      requires Valid()
      modifies this
      ensures Valid() && seedValue == old(seedValue) && draws == old(draws)
      ensures pos == old(pos) + 1
      ensures u == old(draws(pos)) && 0.0 <= u < 1.0
    {
      u := draws(pos);
      pos := pos + 1;
    }

    method NextInt(min: int, max: int) returns (k: int)
      requires Valid()
      modifies this
      ensures Valid() && seedValue == old(seedValue) && draws == old(draws)
      ensures pos == old(pos) + 1
      ensures k == ScaleDraw(old(draws(pos)), min, max)
      ensures min < max ==> min <= k < max
    {
      var u := Next();
      k := ScaleDraw(u, min, max);
    }

    method NextIntMax(max: int) returns (k: int)
      requires Valid()
      modifies this
      ensures Valid() && seedValue == old(seedValue) && draws == old(draws)
      ensures pos == old(pos) + 1
      ensures k == ScaleDraw(old(draws(pos)), 0, max)
      ensures 0 < max ==> 0 <= k < max
    {
      k := NextInt(0, max);
    }

    /** Throws (Err) on an empty list without drawing; otherwise one draw picks an element. */
    method Choice<T>(a: seq<T>) returns (r: Result<T>)
      requires Valid()
      modifies this
      ensures Valid() && seedValue == old(seedValue) && draws == old(draws)
      ensures a == [] ==> r.Err? && pos == old(pos)
      ensures a != [] ==> pos == old(pos) + 1 && r == Ok(a[ScaleDraw(old(draws(pos)), 0, |a|)])
      ensures r.Ok? ==> r.value in a
    {
      if |a| == 0 {
        return Err("Cannot choose from empty array");
      }
      var k := NextIntMax(|a|);
      r := Ok(a[k]);
    }

    /** The Fisher–Yates countdown on an array, in place. */
    method ShuffleInPlace<T>(result: array<T>)
      requires Valid()
      modifies this, result
      ensures Valid() && seedValue == old(seedValue) && draws == old(draws)
      ensures pos == old(pos) + ShuffleDraws(result.Length)
      ensures result[..] == Shuffled(old(result[..]), result.Length - 1, draws, old(pos))
    {
      ghost var ds := draws;
      ghost var target := Shuffled(result[..], result.Length - 1, ds, pos);
      var i := result.Length - 1;
      while i > 0
        invariant -1 <= i < result.Length && (result.Length > 0 ==> 0 <= i)
        invariant seedValue == old(seedValue) && draws == ds && ValidStream(ds)
        invariant pos == old(pos) + (result.Length - 1 - i)
        invariant Shuffled(result[..], i, ds, pos) == target
        decreases i
      {
        ghost var before := result[..];
        ghost var p0 := pos;
        var j := NextIntMax(i + 1);
        SwapInPlace(result, i, j);
        ShuffledStep(before, result[..], i, j, ds, p0);
        i := i - 1;
      }
    }

    /** shuffle: Fisher–Yates on a copy of the argument; the argument itself is a value and stays as it was. */
    method Shuffle<T>(a: seq<T>) returns (r: seq<T>)
      requires Valid()
      modifies this
      ensures Valid() && seedValue == old(seedValue) && draws == old(draws)
      ensures pos == old(pos) + ShuffleDraws(|a|)
      ensures r == Shuffled(a, |a| - 1, draws, old(pos))
      ensures |r| == |a| && multiset(r) == multiset(a)
    {
      var result := new T[|a|](k requires 0 <= k < |a| => a[k]);
      assert result[..] == a;
      ShuffleInPlace(result);
      r := result[..];
      ShuffledPermutes(a, |a| - 1, draws, old(pos));
    }

    /** All elements shuffled when count reaches the length; otherwise the first `count` of a shuffle. */
    method Sample<T>(a: seq<T>, count: int) returns (r: seq<T>)
      requires Valid()
      modifies this
      ensures Valid() && seedValue == old(seedValue) && draws == old(draws)
      ensures pos == old(pos) + ShuffleDraws(|a|)
      ensures count >= |a| ==> r == Shuffled(a, |a| - 1, draws, old(pos))
      ensures count < |a| ==> r == Shuffled(a, |a| - 1, draws, old(pos))[..SliceEnd(count, |a|)]
      ensures 0 <= count <= |a| ==> |r| == count
      ensures multiset(r) <= multiset(a)
    {
      if count >= |a| {
        r := Shuffle(a);
        return;
      }
      var shuffled := Shuffle(a);
      var e := SliceEnd(count, |shuffled|);
      r := shuffled[..e];
      assert shuffled == r + shuffled[e..];
    }

    function GetSeed(): string
      reads this
    {
      seedValue
    }

    /** Re-seeding stores the new seed and starts the given stream, which stands for that seed's values, from its first value. */
    method SetSeed(seed: Seed, stream: nat -> real)
      requires ValidStream(stream)
      modifies this
      ensures Valid()
      ensures seedValue == SeedText(seed) && draws == stream && pos == 0
    {
      seedValue := SeedText(seed);
      draws := stream;
      pos := 0;
    }
  }
}
