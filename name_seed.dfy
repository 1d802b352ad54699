/**
 * The deterministic level roll of the name page (pages/name.tsx): a 32-bit
 * string hash of the flower name and the user's name seeds a linear
 * congruential step, whose value picks a level by cumulative weight.
 *
 * Strings are sequences of `char`, each standing for one UTF-16 code unit.
 * Weights are exact rationals (`real`), so the rounding of IEEE sums is not
 * modelled.
 */
module NameSeed {
  import opened Wrappers

  const TwoTo31: int := 0x8000_0000
  const TwoTo32: int := 0x1_0000_0000

  /** JavaScript's ToInt32: the signed 32-bit value congruent to `x`. */
  function ToInt32(x: int): (r: int)
    ensures -TwoTo31 <= r < TwoTo31
    ensures (x - r) % TwoTo32 == 0
  {
    (x + TwoTo31) % TwoTo32 - TwoTo31
  }

  /** ToInt32 depends on its argument only modulo 2^32. */
  lemma ToInt32Congruent(a: int, b: int)
    requires (a - b) % TwoTo32 == 0
    ensures ToInt32(a) == ToInt32(b)
  {
    var k := (a - b) / TwoTo32;
    assert a == b + k * TwoTo32;
    assert (a + TwoTo31) == (b + TwoTo31) + k * TwoTo32;
  }

  /**
   * One step of the loop: `hash = ((hash << 5) - hash) + char` followed by
   * `hash = hash & hash`. The shift works on the 32-bit value and the `&`
   * truncates the sum back to 32 bits.
   */
  function HashStep(h: int, c: char): int {
    ToInt32(ToInt32(h * 32) - h + c as int)
  }

  /** The hash accumulated over the whole string, starting from 0. */
  function Hash(s: string): int
    decreases |s|
  {
    if |s| == 0 then 0 else HashStep(Hash(s[..|s| - 1]), s[|s| - 1])
  }

  /** The polynomial the hash approximates: sum of c_i * 31^(n-1-i). */
  function Poly(s: string): int
    decreases |s|
  {
    if |s| == 0 then 0 else 31 * Poly(s[..|s| - 1]) + s[|s| - 1] as int
  }

  function Abs(x: int): int {
    if x < 0 then -x else x
  }

  /** A step is `31 * h + c` reduced to 32 bits. */
  lemma HashStepIsTimes31(h: int, c: char)
    ensures HashStep(h, c) == ToInt32(31 * h + c as int)
  {
    ToInt32Congruent(ToInt32(h * 32) - h + c as int, 31 * h + c as int);
  }

  /**
   * The hash is the signed 32-bit reduction of the polynomial, the same
   * value as Java's String.hashCode over the code units.
   */
  lemma {:induction false} HashIsWrappedPoly(s: string)
    ensures Hash(s) == ToInt32(Poly(s))
    decreases |s|
  {
    if |s| > 0 {
      var p := s[..|s| - 1];
      var c := s[|s| - 1];
      HashIsWrappedPoly(p);
      HashStepIsTimes31(Hash(p), c);
      WrapStep(Hash(p), Poly(p), c as int);
    }
  }

  /** Values congruent modulo 2^32 stay congruent after `31 * x + c`. */
  lemma WrapStep(h: int, p: int, c: int)
    requires (p - h) % TwoTo32 == 0
    ensures ToInt32(31 * p + c) == ToInt32(31 * h + c)
  {
    var k := (p - h) / TwoTo32;
    assert p == h + k * TwoTo32;
    assert (31 * p + c) - (31 * h + c) == (31 * k) * TwoTo32;
    ToInt32Congruent(31 * p + c, 31 * h + c);
  }

  /**
   * `seedRandom`: the absolute value of the 32-bit hash. The extreme value
   * -2^31 has no 32-bit negation, so the seed can reach 2^31.
   */
  method SeedRandom(str: string) returns (seed: int)
    ensures seed == Abs(Hash(str))
    ensures seed == Abs(ToInt32(Poly(str)))
    ensures 0 <= seed <= TwoTo31
  {
    var hash := 0;
    var i := 0;
    while i < |str|
      invariant 0 <= i <= |str|
      invariant hash == Hash(str[..i])
    {
      var ch := str[i] as int;
      hash := ToInt32(hash * 32) - hash + ch;
      hash := ToInt32(hash);
      assert str[..i + 1][..i] == str[..i];
      i := i + 1;
    }
    assert str[..i] == str;
    HashIsWrappedPoly(str);
    seed := if hash < 0 then -hash else hash;
  }

  /** JavaScript's `%`, whose result takes the sign of the dividend. */
  function JsRem(a: int, b: int): (r: int)
    requires b > 0
    ensures a >= 0 ==> 0 <= r < b
    ensures a < 0 ==> -b < r <= 0
  {
    if a >= 0 then a % b else -((-a) % b)
  }

  /** `((seed + offset) * 9301 + 49297) % 233280 / 233280.0`. */
  function PseudoRandom(seed: int, offset: int): real {
    (JsRem((seed + offset) * 9301 + 49297, 233280) as real) / 233280.0
  }

  /** For a non-negative seed plus offset the value lies in [0, 1). */
  lemma PseudoRandomInUnit(seed: int, offset: int)
    requires seed + offset >= 0
    ensures 0.0 <= PseudoRandom(seed, offset) < 1.0
  {
    var n := JsRem((seed + offset) * 9301 + 49297, 233280);
    assert 0 <= n < 233280;
    assert (n as real) < 233280.0;
  }

  function Sum(w: seq<real>): real
    decreases |w|
  {
    if |w| == 0 then 0.0 else Sum(w[..|w| - 1]) + w[|w| - 1]
  }

  /** The running sums `weights.map(w => cumulativeWeight += w)`. */
  function Cumulative(w: seq<real>): (c: seq<real>)
    ensures |c| == |w|
    decreases |w|
  {
    if |w| == 0 then [] else Cumulative(w[..|w| - 1]) + [Sum(w)]
  }

  /** Entry i of the running sums is the sum of the first i + 1 weights. */
  lemma {:induction false} CumulativeAt(w: seq<real>, i: nat)
    requires i < |w|
    ensures Cumulative(w)[i] == Sum(w[..i + 1])
    decreases |w|
  {
    if i < |w| - 1 {
      CumulativeAt(w[..|w| - 1], i);
      assert w[..|w| - 1][..i + 1] == w[..i + 1];
    } else {
      assert w[..i + 1] == w;
    }
  }

  /** `findIndex(c => v <= c)`: the first index reaching `v`, or -1. */
  function FirstReaching(c: seq<real>, v: real): (i: int)
    ensures -1 <= i < |c|
    ensures i >= 0 ==> v <= c[i] && forall j :: 0 <= j < i ==> c[j] < v
    ensures i == -1 <==> forall j :: 0 <= j < |c| ==> c[j] < v
    decreases |c|
  {
    if |c| == 0 then -1
    else if v <= c[0] then 0
    else
      var k := FirstReaching(c[1..], v);
      if k == -1 then -1 else k + 1
  }

  /** The pseudo-random value scaled by the total, the last running sum. */
  function RandomValue(p: real, c: seq<real>): real {
    p * (if |c| == 0 then 0.0 else c[|c| - 1])
  }

  /** The index the pick uses: the one found, else 0. */
  function PickIndex(weights: seq<real>, seed: int, offset: int): nat {
    var c := Cumulative(weights);
    var i := FirstReaching(c, RandomValue(PseudoRandom(seed, offset), c));
    if i >= 0 then i else 0
  }

  /**
   * `getWeightedRandomFromSeed`: `None` stands for the `undefined` read
   * past the end of the array. With no weights JavaScript's total is
   * `undefined`, the comparison fails and the pick falls back to index 0,
   * which is what the zero total here also yields for an empty list.
   */
  function WeightedPick<T>(items: seq<T>, weights: seq<real>, seed: int, offset: int): Option<T> {
    var i := PickIndex(weights, seed, offset);
    if i < |items| then Some(items[i]) else None
  }

  /** The loop of `map` with its mutated running sum. */
  method CumulativeWeights(weights: seq<real>) returns (c: seq<real>)
    ensures c == Cumulative(weights)
  {
    var running := 0.0;
    c := [];
    var i := 0;
    while i < |weights|
      invariant 0 <= i <= |weights|
      invariant running == Sum(weights[..i])
      invariant c == Cumulative(weights[..i])
    {
      assert weights[..i + 1][..i] == weights[..i];
      running := running + weights[i];
      c := c + [running];
      i := i + 1;
    }
    assert weights[..i] == weights;
  }

  /** `findIndex` as the loop it runs. */
  method FindIndex(c: seq<real>, v: real) returns (index: int)
    ensures index == FirstReaching(c, v)
  {
    index := 0;
    while index < |c| && c[index] < v
      invariant 0 <= index <= |c|
      invariant forall j :: 0 <= j < index ==> c[j] < v
    {
      index := index + 1;
    }
    if index == |c| {
      index := -1;
    }
  }

  method GetWeightedRandomFromSeed<T>(items: seq<T>, weights: seq<real>, seed: int, offset: int)
    returns (r: Option<T>)
    ensures r == WeightedPick(items, weights, seed, offset)
  {
    var pseudoRandom := PseudoRandom(seed, offset);
    var c := CumulativeWeights(weights);
    var index := FindIndex(c, RandomValue(pseudoRandom, c));
    var i := if index >= 0 then index else 0;
    r := if i < |items| then Some(items[i]) else None;
  }

  /** The last running sum is the sum of all weights. */
  lemma LastCumulative(w: seq<real>)
    requires |w| > 0
    ensures Cumulative(w)[|w| - 1] == Sum(w)
  {
    CumulativeAt(w, |w| - 1);
    assert w[..|w|] == w;
  }

  /** A value in [0, 1) scaled by a positive total stays below the total. */
  lemma RandomValueBelowTotal(p: real, c: seq<real>)
    requires 0.0 <= p < 1.0
    requires |c| > 0 && c[|c| - 1] > 0.0
    ensures 0.0 <= RandomValue(p, c) < c[|c| - 1]
  {
    var t := c[|c| - 1];
    assert p * t < 1.0 * t;
  }

  /**
   * With a positive total and a non-negative seed plus offset, the search
   * always succeeds, so the fallback to index 0 is never what picks.
   */
  lemma AlwaysFound(weights: seq<real>, seed: int, offset: int)
    requires |weights| > 0 && Sum(weights) > 0.0
    requires seed + offset >= 0
    ensures var c := Cumulative(weights);
      FirstReaching(c, RandomValue(PseudoRandom(seed, offset), c)) >= 0
  {
    var c := Cumulative(weights);
    LastCumulative(weights);
    PseudoRandomInUnit(seed, offset);
    RandomValueBelowTotal(PseudoRandom(seed, offset), c);
  }

  /**
   * An entry of weight 0 after the first position is never the pick: the
   * running sum does not grow there, so an earlier index reaches the value.
   */
  lemma ZeroWeightNeverPicked(weights: seq<real>, seed: int, offset: int, i: nat)
    requires 0 < i < |weights| && weights[i] == 0.0
    ensures PickIndex(weights, seed, offset) != i
  {
    var c := Cumulative(weights);
    CumulativeAt(weights, i);
    CumulativeAt(weights, i - 1);
    assert weights[..i + 1][..i] == weights[..i];
    assert c[i] == c[i - 1];
  }

  /** The six levels, lowest first. */
  datatype Level = Level(name: string, emoji: string)

  const Levels: seq<Level> := [
    Level("种", "🌱"), Level("芽", "🍃"), Level("叶", "🌿"),
    Level("蕾", "🌸"), Level("花", "🌺"), Level("宝石权杖", "💎")]

  const LevelProbabilities: seq<real> := [0.1, 0.2, 0.3, 0.3, 0.07, 0.03]

  lemma SumStep(w: seq<real>, i: nat)
    requires i < |w|
    ensures Sum(w[..i + 1]) == Sum(w[..i]) + w[i]
  {
    assert w[..i + 1][..i] == w[..i];
  }

  lemma {:induction false} SumOfZeros(w: seq<real>)
    requires forall i :: 0 <= i < |w| ==> w[i] == 0.0
    ensures Sum(w) == 0.0
    decreases |w|
  {
    if |w| > 0 {
      SumOfZeros(w[..|w| - 1]);
    }
  }

  /** Only the last level has weight, so seed 12345 at offset 6 picks it. */
  lemma ExtremeWeightsPickLast()
    ensures WeightedPick(Levels, [0.0, 0.0, 0.0, 0.0, 0.0, 1.0], 12345, 6) == Some(Levels[5])
  {
    var w := [0.0, 0.0, 0.0, 0.0, 0.0, 1.0];
    var c := Cumulative(w);
    forall i | 0 <= i < 5
      ensures c[i] == 0.0
    {
      CumulativeAt(w, i);
      SumOfZeros(w[..i + 1]);
    }
    LastCumulative(w);
    SumOfZeros(w[..5]);
    SumStep(w, 5);
    assert w[..6] == w;
    assert JsRem((12345 + 6) * 9301 + 49297, 233280) == 152188;
    var v := RandomValue(PseudoRandom(12345, 6), c);
    assert v == 152188.0 / 233280.0;
    assert FirstReaching(c, v) == 5;
  }

  /**
   * The level roll of `generateMagicalGirl`: the seed hashes the flower
   * name followed by the input name, and the pick uses offset 6. The
   * probabilities add up to exactly 1, so a level is always found.
   */
  method PickLevel(flowerName: string, inputName: string) returns (level: Level)
    ensures Some(level) == WeightedPick(Levels, LevelProbabilities, Abs(Hash(flowerName + inputName)), 6)
    ensures level in Levels
  {
    var seed := SeedRandom(flowerName + inputName);
    var r := GetWeightedRandomFromSeed(Levels, LevelProbabilities, seed, 6);
    ProbabilitiesSumToOne();
    AlwaysFound(LevelProbabilities, seed, 6);
    level := r.value;
  }

  lemma ProbabilitiesSumToOne()
    ensures Sum(LevelProbabilities) == 1.0
  {
    var w := LevelProbabilities;
    assert w[..0] == [];
    SumStep(w, 0); SumStep(w, 1); SumStep(w, 2);
    SumStep(w, 3); SumStep(w, 4); SumStep(w, 5);
    assert w[..6] == w;
  }

  /** `checkNameLength`: at most 300 code units are accepted. */
  predicate CheckNameLength(name: string) {
    |name| <= 300
  }
}
