/** The seed pipeline's generator (mulberry32) and its sampling helpers. */
module SeedRng {
  import opened Wrappers

  const TWO_TO_THE_32: nat := 0x1_0000_0000
  const INCREMENT: nat := 0x6d2b79f5

  /** The state before the next output. */
  function Advance(state: nat): nat { (state + INCREMENT) % TWO_TO_THE_32 }

  /** The state n draws after seeding. */
  function StateAfter(seed: int, n: nat): nat { (seed + n * INCREMENT) % TWO_TO_THE_32 }

  lemma StateAfterOneMore(seed: int, n: nat)
    ensures StateAfter(seed, n + 1) == Advance(StateAfter(seed, n))
  {
    assert seed + (n + 1) * INCREMENT == seed + n * INCREMENT + INCREMENT;
  }

  /** The inverse of the increment modulo 2^32: the increment is odd, so it has one. */
  const INVERSE: nat := 3696798301

  /** The state does not repeat within 2^32 draws, whatever the seed. */
  lemma StatesDoNotRepeat(seed: int, i: nat, j: nat)
    requires i < j < i + TWO_TO_THE_32
    ensures StateAfter(seed, i) != StateAfter(seed, j)
  {
    assert INCREMENT * INVERSE == TWO_TO_THE_32 * 1576479847 + 1;
    InvertibleStepsDoNotRepeat(seed, INCREMENT, INVERSE, 1576479847, TWO_TO_THE_32, i, j);
  }

  lemma InvertibleStepsDoNotRepeat(seed: int, step: nat, inverse: nat, q: nat, m: nat, i: nat, j: nat)
    requires m > 0 && step * inverse == m * q + 1 && i < j < i + m
    ensures (seed + i * step) % m != (seed + j * step) % m
  {
    if (seed + i * step) % m == (seed + j * step) % m {
      var d, k := j - i, (seed + j * step) / m - (seed + i * step) / m;
      assert d * step == m * k by {
        assert (seed + j * step) - (seed + i * step) == d * step;
      }
      calc {
        d;
        d * (m * q + 1) - m * (d * q);
        d * (step * inverse) - m * (d * q);
        (d * step) * inverse - m * (d * q);
        (m * k) * inverse - m * (d * q);
        m * (k * inverse - d * q);
      }
      MultiplesAreSpaced(m, k * inverse - d * q);
    }
  }

  lemma MultiplesAreSpaced(m: nat, k: int)
    ensures k >= 1 ==> m * k >= m
    ensures k <= 0 ==> m * k <= 0
  {
  }

  /** The output scrambling, on 32-bit words. */
  function Scramble(state: bv32): bv32 {
    var t1 := (state ^ (state >> 15)) * (state | 1);
    var t2 := t1 ^ (t1 + (t1 ^ (t1 >> 7)) * (t1 | 61));
    t2 ^ (t2 >> 14)
  }

  /** The float in [0, 1) drawn from a state. */
  function Draw(state: nat): (x: real)
    ensures 0.0 <= x < 1.0
  {
    var word := Scramble((state % TWO_TO_THE_32) as bv32) as int;
    word as real / TWO_TO_THE_32 as real
  }

  /** A value anyone can compare with another mulberry32: the first output of seed 42. */
  lemma FirstOutputOfSeed42()
    ensures StateAfter(42, 1) == 0x6d2b_7a1f
    ensures Scramble(0x6d2b_7a1f) == 0x99e1_ef7c
  {
  }

  function IntFrom(x: real, min: int, max: int): (n: int)
    requires 0.0 <= x < 1.0
    ensures min <= max ==> min <= n <= max
    ensures (n - min) as real <= x * (max - min + 1) as real < (n - min + 1) as real
  {
    Scaled(x, (max - min + 1) as real).Floor + min
  }

  function Scaled(u: real, w: real): (y: real)
    requires 0.0 <= u < 1.0
    ensures w > 0.0 ==> 0.0 <= y < w
    ensures w <= 0.0 ==> w <= y <= 0.0
  {
    assert w > 0.0 ==> (1.0 - u) * w > 0.0;
    u * w
  }

  function FloatFrom(x: real, min: real, max: real): (y: real)
    requires 0.0 <= x < 1.0
    ensures min <= max ==> min <= y <= max && (min < max ==> y < max)
    ensures max <= min ==> max <= y <= min
  {
    Scaled(x, max - min) + min
  }

  datatype Weighted<T> = Weighted(value: T, weight: real)

  /** The total weight of the first n entries. */
  function Cumulative<T>(entries: seq<Weighted<T>>, n: nat): real
    requires n <= |entries|
  {
    if n == 0 then 0.0 else Cumulative(entries, n - 1) + entries[n - 1].weight
  }

  lemma {:induction false} PositiveTotal<T>(entries: seq<Weighted<T>>, n: nat)
    requires n <= |entries| && forall e | e in entries :: e.weight > 0.0
    ensures Cumulative(entries, n) >= 0.0 && (n > 0 ==> Cumulative(entries, n) > 0.0)
  {
    if n == 0 {
    } else {
      PositiveTotal(entries, n - 1);
      assert entries[n - 1] in entries;
    }
  }

  /** A point below the total weight. */
  function RollFrom<T>(x: real, entries: seq<Weighted<T>>): (roll: real)
    requires 0.0 <= x < 1.0 && Cumulative(entries, |entries|) > 0.0
    ensures 0.0 <= roll < Cumulative(entries, |entries|)
  {
    Scaled(x, Cumulative(entries, |entries|))
  }

  /** The entry at which the running total of weights first reaches the roll. */
  ghost predicate HoldsRoll<T>(entries: seq<Weighted<T>>, i: nat, roll: real) {
    i < |entries| && roll <= Cumulative(entries, i + 1) && forall j: nat | 0 < j <= i :: Cumulative(entries, j) < roll
  }

  lemma {:induction false} CumulativeGrows<T>(entries: seq<Weighted<T>>, m: nat, n: nat)
    requires m <= n <= |entries| && forall e | e in entries :: e.weight >= 0.0
    ensures Cumulative(entries, m) <= Cumulative(entries, n)
    decreases n
  {
    if m == n {
    } else {
      CumulativeGrows(entries, m, n - 1);
      assert entries[n - 1] in entries;
    }
  }

  /** Some roll gives this entry. */
  ghost predicate Drawable<T>(entries: seq<Weighted<T>>, i: nat) {
    exists roll: real :: 0.0 <= roll < Cumulative(entries, |entries|) && HoldsRoll(entries, i, roll)
  }

  /** If no weight is negative, those are the entries that have one, and the first in any case. */
  lemma DrawableIff<T>(entries: seq<Weighted<T>>, i: nat)
    requires (forall e | e in entries :: e.weight >= 0.0) && Cumulative(entries, |entries|) > 0.0 && i < |entries|
    ensures Drawable(entries, i) <==> i == 0 || entries[i].weight > 0.0
  {
    assert entries[i] in entries;
    CumulativeGrows(entries, i + 1, |entries|);
    if i == 0 {
      assert Cumulative(entries, 1) == Cumulative(entries, 0) + entries[0].weight;
      assert HoldsRoll(entries, 0, 0.0);
    } else if entries[i].weight > 0.0 {
      var roll := Cumulative(entries, i) + entries[i].weight / 2.0;
      forall j: nat | j <= i ensures 0.0 <= Cumulative(entries, j) <= Cumulative(entries, i) {
        CumulativeGrows(entries, 0, j);
        CumulativeGrows(entries, j, i);
      }
      assert Cumulative(entries, i) >= 0.0;
      assert HoldsRoll(entries, i, roll);
    }
  }

  function Swap<T>(s: seq<T>, i: nat, j: nat): seq<T>
    requires i < |s| && j < |s|
  {
    s[i := s[j]][j := s[i]]
  }

  /** Each of the first n positions, from the last down, swapped with a drawn position at or before it. */
  function Shuffled<T>(s: seq<T>, state: nat, n: nat): seq<T>
    requires n <= |s|
    decreases n
  {
    if n <= 1 then s
    else
      var drawn := Advance(state);
      Shuffled(Swap(s, n - 1, IntFrom(Draw(drawn), 0, n - 1)), drawn, n - 1)
  }

  /** A shuffle loses nothing, repeats nothing, and leaves what lies behind the shuffled part alone. */
  lemma {:induction false} ShuffleIsPermutation<T>(s: seq<T>, state: nat, n: nat)
    requires n <= |s|
    ensures multiset(Shuffled(s, state, n)) == multiset(s)
    ensures |Shuffled(s, state, n)| == |s| && Shuffled(s, state, n)[n..] == s[n..]
    decreases n
  {
    if n <= 1 {
    } else {
      var drawn := Advance(state);
      var swapped := Swap(s, n - 1, IntFrom(Draw(drawn), 0, n - 1));
      ShuffleIsPermutation(swapped, drawn, n - 1);
      assert Shuffled(s, state, n)[n..] == Shuffled(swapped, drawn, n - 1)[n - 1..][1..];
      assert swapped[n - 1..][1..] == s[n..];
    }
  }

  class DeterministicRng {
    var state: nat
    var issued: nat     // ids handed out so far; ids are taken to be fresh

    constructor (seed: int, firstId: nat)
      ensures state == StateAfter(seed, 0) && issued == firstId
    {
      state := seed % TWO_TO_THE_32;
      issued := firstId;
    }

    method Next() returns (x: real)
      modifies this`state
      ensures state == Advance(old(state)) && x == Draw(state)
    {
      state := (state + INCREMENT) % TWO_TO_THE_32;
      x := Draw(state);
    }

    method NextInt(min: int, max: int) returns (n: int)
      modifies this`state
      ensures state == Advance(old(state)) && n == IntFrom(Draw(state), min, max)
    {
      var x := Next();
      n := IntFrom(x, min, max);
    }

    method Range(min: real, max: real) returns (x: real)
      modifies this`state
      ensures state == Advance(old(state)) && x == FloatFrom(Draw(state), min, max)
    {
      var u := Next();
      x := FloatFrom(u, min, max);
    }

    /** An index into a list, or none where the program throws because the list is empty. */
    method Pick(length: nat) returns (r: Option<nat>)
      modifies this`state
      ensures r.Some? <==> length > 0
      ensures r.Some? ==> state == Advance(old(state)) && r.value == IntFrom(Draw(state), 0, length - 1) < length
    {
      if length == 0 {
        return None;
      }
      var i := NextInt(0, length - 1);
      return Some(i);
    }

    /**
      The entry whose cumulative interval holds the roll, or none where the program throws because the weights
      do not sum to more than zero.
    */
    method WeightedPick<T>(entries: seq<Weighted<T>>) returns (r: Option<nat>)
      modifies this`state
      ensures r.Some? <==> Cumulative(entries, |entries|) > 0.0
      ensures r.Some? ==> state == Advance(old(state)) && HoldsRoll(entries, r.value, RollFrom(Draw(state), entries))
    {
      var total := 0.0;
      for i := 0 to |entries|
        invariant total == Cumulative(entries, i)
      {
        total := total + entries[i].weight;
      }
      if total <= 0.0 {
        return None;
      }
      var u := Next();
      var i := FirstReaching(entries, RollFrom(u, entries));
      return Some(i);
    }

    /** The loop's fallback to the last entry is unreachable, for any weights: the roll is less than their sum. */
    static method FirstReaching<T>(entries: seq<Weighted<T>>, start: real) returns (index: nat)
      requires start < Cumulative(entries, |entries|) && 0.0 <= start
      ensures HoldsRoll(entries, index, start)
    {
      var roll := start;
      for i := 0 to |entries|
        invariant roll == start - Cumulative(entries, i)
        invariant forall j: nat | 0 < j <= i :: Cumulative(entries, j) < start
        invariant roll >= 0.0
      {
        roll := roll - entries[i].weight;
        if roll <= 0.0 {
          return i;
        }
      }
      assert false;
    }

    /** Fisher-Yates on a copy. */
    method Shuffle<T>(items: seq<T>) returns (copy: array<T>)
      modifies this`state
      ensures fresh(copy) && copy[..] == Shuffled(items, old(state), |items|)
    {
      copy := new T[|items|](i requires 0 <= i < |items| => items[i]);
      assert copy[..] == items;
      var i: nat := copy.Length;
      while i > 1
        invariant i <= copy.Length == |items|
        invariant Shuffled(copy[..], state, i) == Shuffled(items, old(state), |items|)
      {
        var j := NextInt(0, i - 1);
        assert copy[..][i - 1 := copy[j]][j := copy[i - 1]] == Swap(copy[..], i - 1, j);
        copy[i - 1], copy[j] := copy[j], copy[i - 1];
        i := i - 1;
      }
    }

    /** Sixteen byte draws; the id they spell is taken to be fresh. */
    method Uuid() returns (id: nat)
      modifies this
      ensures id == old(issued) && issued == old(issued) + 1
    {
      for i := 0 to 16
        invariant issued == old(issued)
      {
        var b := NextInt(0, 255);
      }
      id := issued;
      issued := issued + 1;
    }
  }
}
