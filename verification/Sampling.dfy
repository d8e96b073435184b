/** The specified sampling stream and filter order of the sampling validator. */
module Sampling {
  import opened Wrappers
  import opened Sorting
  import opened Words

  // ---------------------------------------------------------------- the random stream

  /** Mixing a word with itself shifted right. */
  function Fold(x: Word, k: nat): Word {
    FoldIsWord(x, Shift(x, k), k);
    Xor(x, Shift(x, k))
  }

  lemma FoldIsWord(x: Word, y: nat, k: nat)
    requires y == Shift(x, k)
    ensures Xor(x, y) < LIMIT
  {
    SixtyFourBits();
    ShiftBelow(x, k);
    XorBelow(x, y, 64);
  }

  function TimesWord(x: Word, factor: nat): Word {
    (x * factor) % LIMIT
  }

  function PlusWord(x: Word, summand: nat): Word {
    (x + summand) % LIMIT
  }

  const GAMMA: nat := 0x9E3779B97F4A7C15
  const FIRST: nat := 0xBF58476D1CE4E5B9
  const SECOND: nat := 0x94D049BB133111EB

  /** The multipliers' inverses modulo 2^64. */
  const FIRST_INVERSE: nat := 0x96DE1B173F119089
  const SECOND_INVERSE: nat := 0x319642B2D24D8EC3

  /** `splitmix64`. */
  function SplitMix64(value: Word): Word {
    var a := PlusWord(value, GAMMA);
    var b := TimesWord(Fold(a, 30), FIRST);
    var c := TimesWord(Fold(b, 27), SECOND);
    Fold(c, 31)
  }

  /** Undoing a fold by at least 22 bits takes two. */
  function Unfold(x: Word, k: nat): Word {
    UnfoldIsWord(x, k);
    Xor(Fold(x, k), Shift(x, 2 * k))
  }

  lemma UnfoldIsWord(x: Word, k: nat)
    ensures Xor(Fold(x, k), Shift(x, 2 * k)) < LIMIT
  {
    SixtyFourBits();
    ShiftBelow(x, 2 * k);
    XorBelow(Fold(x, k), Shift(x, 2 * k), 64);
  }

  function Unmix(value: Word): Word {
    var c := Unfold(value, 31);
    var b := Unfold(TimesWord(c, SECOND_INVERSE), 27);
    var a := Unfold(TimesWord(b, FIRST_INVERSE), 30);
    PlusWord(a, LIMIT - GAMMA)
  }

  /** A fold by `k` bits is undone when three shifts by `k` empty the word. */
  lemma UnfoldUndoes(x: Word, k: nat)
    requires 3 * k >= 64
    ensures Unfold(Fold(x, k), k) == x && Fold(Unfold(x, k), k) == x
  {
    SixtyFourBits();
    PowerGrows(64, 3 * k);
    ShiftedOut(x, 3 * k);
    FoldAndUnfold(x, k);
  }

  lemma FoldAndUnfold(x: nat, k: nat)
    requires Shift(x, 3 * k) == 0
    ensures var y := Xor(x, Shift(x, k)); Xor(Xor(y, Shift(y, k)), Shift(y, 2 * k)) == x
    ensures var z := Xor(Xor(x, Shift(x, k)), Shift(x, 2 * k)); Xor(z, Shift(z, k)) == x
  {
    hide Xor, Shift;
    var a, b := Shift(x, k), Shift(x, 2 * k);
    ShiftTwice(x, k, k);
    ShiftTwice(x, 2 * k, k);
    ShiftTwice(x, k, 2 * k);
    XorZero(a);
    XorZero(b);
    XorShift(x, a, k);
    XorShift(x, a, 2 * k);
    XorShift(Xor(x, a), b, k);
    var y, z := Xor(x, a), Xor(Xor(x, a), b);
    assert Shift(y, k) == Xor(a, b);
    assert Shift(y, 2 * k) == b;
    assert Shift(z, k) == Xor(Xor(a, b), 0);
    XorZero(Xor(a, b));
    Telescope(x, a, b);
  }

  lemma Telescope(x: nat, a: nat, b: nat)
    ensures Xor(Xor(Xor(x, a), Xor(a, b)), b) == x
    ensures Xor(Xor(Xor(x, a), b), Xor(a, b)) == x
  {
    hide Xor;
    XorAssociates(x, a, b);
    XorUndoes(x, Xor(a, b));
    XorAssociates(Xor(x, a), Xor(a, b), b);
    XorUndoes(a, b);
    XorUndoes(x, a);
  }

  /** Multiplying by inverse factors, one after the other, changes nothing. */
  lemma TimesUndoes(x: Word, factor: nat, inverse: nat)
    requires (factor * inverse) % LIMIT == 1
    ensures TimesWord(TimesWord(x, factor), inverse) == x
  {
    var q := factor * inverse / LIMIT;
    var r := x * factor / LIMIT;
    var m := TimesWord(x, factor);
    assert x * factor == r * LIMIT + m;
    assert factor * inverse == q * LIMIT + 1;
    Regroup(x, factor, inverse, q, r, m);
    ModIs(m * inverse, LIMIT, x * q - r * inverse, x);
  }

  lemma Regroup(x: nat, factor: nat, inverse: nat, q: nat, r: nat, m: nat)
    requires x * factor == r * LIMIT + m && factor * inverse == q * LIMIT + 1 && x < LIMIT
    ensures m * inverse == (x * q - r * inverse) * LIMIT + x && x * q - r * inverse >= 0
  {
    assert x * factor * inverse == x * (factor * inverse);
    assert x * (factor * inverse) == (x * q) * LIMIT + x;
    assert (r * LIMIT + m) * inverse == (r * inverse) * LIMIT + m * inverse;
    NotNegative(x * q - r * inverse, x, m * inverse);
  }

  lemma NotNegative(d: int, x: nat, y: nat)
    requires y == d * LIMIT + x && x < LIMIT
    ensures d >= 0
  {
  }

  lemma Inverses()
    ensures (FIRST * FIRST_INVERSE) % LIMIT == 1 && (FIRST_INVERSE * FIRST) % LIMIT == 1
    ensures (SECOND * SECOND_INVERSE) % LIMIT == 1 && (SECOND_INVERSE * SECOND) % LIMIT == 1
  {
  }

  lemma PlusUndoes(x: Word)
    ensures PlusWord(PlusWord(x, GAMMA), LIMIT - GAMMA) == x && PlusWord(PlusWord(x, LIMIT - GAMMA), GAMMA) == x
  {
  }

  /** Main result: the mixer is a bijection on 64-bit words. */
  lemma MixIsBijective(value: Word)
    ensures Unmix(SplitMix64(value)) == value
    ensures SplitMix64(Unmix(value)) == value
  {
    UnmixOfMix(value);
    MixOfUnmix(value);
  }

  lemma UnmixOfMix(value: Word)
    ensures Unmix(SplitMix64(value)) == value
  {
    hide Fold, Unfold, TimesWord, PlusWord;
    Inverses();
    var a := PlusWord(value, GAMMA);
    var b := TimesWord(Fold(a, 30), FIRST);
    var c := TimesWord(Fold(b, 27), SECOND);
    UnfoldUndoes(c, 31);
    TimesUndoes(Fold(b, 27), SECOND, SECOND_INVERSE);
    UnfoldUndoes(b, 27);
    TimesUndoes(Fold(a, 30), FIRST, FIRST_INVERSE);
    UnfoldUndoes(a, 30);
    PlusUndoes(value);
  }

  lemma MixOfUnmix(value: Word)
    ensures SplitMix64(Unmix(value)) == value
  {
    hide Fold, Unfold, TimesWord, PlusWord;
    Inverses();
    var c := Unfold(value, 31);
    var d := TimesWord(c, SECOND_INVERSE);
    var b := Unfold(d, 27);
    var e := TimesWord(b, FIRST_INVERSE);
    var a := Unfold(e, 30);
    PlusUndoes(a);
    UnfoldUndoes(e, 30);
    TimesUndoes(b, FIRST_INVERSE, FIRST);
    UnfoldUndoes(d, 27);
    TimesUndoes(c, SECOND_INVERSE, SECOND);
    UnfoldUndoes(value, 31);
  }

  /** Three preimages fix the mixer's increment, its two multipliers and its outer shifts: a word that
      the increment takes to 0 stays there, one that reaches 1 before the second multiplication leaves
      as the folded multiplier, and so does one that reaches 1 behind it, without it. */
  lemma MixedByHand()
    ensures SplitMix64(0x61C8864680B583EB) == 0
    ensures SplitMix64(PlusWord(Unfold(0x96DE1B173F119089, 30), 0x61C8864680B583EB)) == Fold(0x94D049BB133111EB, 31)
    ensures SplitMix64(PlusWord(Unfold(TimesWord(Unfold(0x319642B2D24D8EC3, 27), 0x96DE1B173F119089), 30), 0x61C8864680B583EB)) == 1
  {
    hide Fold, Unfold, TimesWord, PlusWord, SplitMix64;
    IncrementUndone();
    FoldsOfSmall();
    OneOfInverse();
    FirstUndone(0x96DE1B173F119089);
    var u := Unfold(0x319642B2D24D8EC3, 27);
    UnfoldUndoes(0x319642B2D24D8EC3, 27);
    FirstTimes(u);
    FirstUndone(TimesWord(u, 0x96DE1B173F119089));
  }

  lemma OneOfInverse()
    ensures TimesWord(0x96DE1B173F119089, FIRST) == 1 && TimesWord(0x319642B2D24D8EC3, SECOND) == 1
    ensures TimesWord(1, SECOND) == 0x94D049BB133111EB
  {
  }

  lemma FirstTimes(u: Word)
    ensures TimesWord(TimesWord(u, 0x96DE1B173F119089), FIRST) == u
  {
    hide TimesWord;
    Inverses();
    TimesUndoes(u, 0x96DE1B173F119089, FIRST);
  }

  lemma IncrementUndone()
    ensures SplitMix64(0x61C8864680B583EB) == 0
  {
    hide Fold;
    FoldsOfSmall();
    assert PlusWord(0x61C8864680B583EB, GAMMA) == 0;
    assert TimesWord(0, FIRST) == 0 && TimesWord(0, SECOND) == 0;
  }

  /** What the mixer makes of a word prepared to be `x` in front of the first multiplication. */
  lemma FirstUndone(x: Word)
    ensures SplitMix64(PlusWord(Unfold(x, 30), 0x61C8864680B583EB))
         == Fold(TimesWord(Fold(TimesWord(x, FIRST), 27), SECOND), 31)
  {
    hide Fold, Unfold, TimesWord, PlusWord;
    UnfoldUndoes(x, 30);
    PlusUndoes(Unfold(x, 30));
  }

  lemma FoldsOfSmall()
    ensures Fold(0, 30) == Fold(0, 27) == Fold(0, 31) == 0 && Fold(1, 27) == Fold(1, 31) == 1
  {
    ShiftedOut(0, 27);
    ShiftedOut(0, 30);
    ShiftedOut(0, 31);
    SmallShift();
    XorZero(0);
    XorZero(1);
  }

  lemma SmallShift()
    ensures Shift(1, 27) == Shift(1, 31) == 0
  {
    assert Shift(1, 27) == Shift(0, 26);
    assert Shift(1, 31) == Shift(0, 30);
    ShiftedOut(0, 26);
    ShiftedOut(0, 30);
  }

  /** The random bits of one step of one seed. */
  function Bits(seed: Word, step: Word): Word {
    SeededIsWord(seed, SplitMix64(step));
    SplitMix64(Xor(seed, SplitMix64(step)))
  }

  /** The step is mixed first, then the seed comes in, and the whole is mixed again: a seed equal to the
      mixed step leaves nothing but the second mixing of 0. */
  lemma StepIsMixedFirst(step: Word)
    ensures Bits(SplitMix64(step), step) == SplitMix64(0)
  {
    hide SplitMix64;
    XorSelf(SplitMix64(step));
  }

  lemma SeededIsWord(seed: Word, y: Word)
    ensures Xor(seed, y) < LIMIT && Xor(y, seed) < LIMIT
  {
    SixtyFourBits();
    XorBelow(seed, y, 64);
    XorBelow(y, seed, 64);
  }

  /** Main result: for one seed distinct steps draw distinct bits, and for one step distinct seeds do. */
  lemma DrawsAreDistinct(seed: Word, step: Word, other: Word)
    ensures Bits(seed, step) == Bits(seed, other) <==> step == other
    ensures Bits(step, seed) == Bits(other, seed) <==> step == other
  {
    hide SplitMix64, Unmix, Xor;
    var mixed := SplitMix64(seed);
    SeededIsWord(seed, SplitMix64(step));
    SeededIsWord(seed, SplitMix64(other));
    SeededIsWord(mixed, step);
    SeededIsWord(mixed, other);
    MixIsInjective(step, other);
    XorUndoes(seed, SplitMix64(step));
    XorUndoes(seed, SplitMix64(other));
    MixIsInjective(Xor(seed, SplitMix64(step)), Xor(seed, SplitMix64(other)));
    XorUndoes(step, mixed);
    XorUndoes(other, mixed);
    MixIsInjective(Xor(step, mixed), Xor(other, mixed));
  }

  lemma MixIsInjective(a: Word, b: Word)
    ensures SplitMix64(a) == SplitMix64(b) <==> a == b
  {
    hide SplitMix64, Unmix;
    MixIsBijective(a);
    MixIsBijective(b);
  }

  // ---------------------------------------------------------------- candidates

  datatype Candidate = Candidate(value: real, token: nat)

  const VOCABULARY: nat := 262144

  /** Larger values first, then smaller tokens. */
  predicate Better(a: Candidate, b: Candidate) {
    a.value > b.value || (a.value == b.value && a.token <= b.token)
  }

  datatype Options = Options(temperature: real, topK: nat, topP: real, minP: real, penalty: real)

  function Penalised(value: real, seen: bool, penalty: real): real
    requires penalty != 0.0
  {
    if penalty != 1.0 && seen then (if value < 0.0 then value * penalty else value / penalty) else value
  }

  function Adjusted(logits: seq<real>, history: set<nat>, o: Options): (r: seq<Candidate>)
    requires o.temperature != 0.0 && o.penalty != 0.0
    ensures |r| == |logits|
  {
    if logits == [] then []
    else
      var token := |logits| - 1;
      Adjusted(logits[..token], history, o)
      + [Candidate(Penalised(logits[token], token in history, o.penalty) / o.temperature, token)]
  }

  lemma NothingAdjusted(history: set<nat>, o: Options)
    requires o.temperature != 0.0 && o.penalty != 0.0
    ensures Adjusted([], history, o) == []
  {
  }

  lemma AdjustedStep(logits: seq<real>, history: set<nat>, o: Options, token: nat)
    requires o.temperature != 0.0 && o.penalty != 0.0 && token < |logits|
    ensures Adjusted(logits[..token + 1], history, o)
         == Adjusted(logits[..token], history, o)
            + [Candidate(Penalised(logits[token], token in history, o.penalty) / o.temperature, token)]
  {
    hide Penalised;
    assert logits[..token + 1][..token] == logits[..token];
  }

  /** Main result: the candidate of a token is its logit, a seen one divided by the penalty, or multiplied
      by it when negative, over the temperature. */
  lemma AdjustedExactly(logits: seq<real>, history: set<nat>, o: Options, token: nat)
    requires o.temperature != 0.0 && o.penalty != 0.0 && token < |logits|
    ensures var c, logit := Adjusted(logits, history, o)[token], logits[token];
            && c.token == token
            && (token !in history ==> c.value * o.temperature == logit)
            && (token in history && logit < 0.0 ==> c.value * o.temperature == logit * o.penalty)
            && (token in history && logit >= 0.0 ==> c.value * o.temperature * o.penalty == logit)
  {
    hide *;
    AdjustedAt(logits, history, o, token);
    PenalisedExactly(logits[token], token in history, o.penalty);
    QuotientTimes(Penalised(logits[token], token in history, o.penalty), o.temperature);
  }

  lemma {:induction false} AdjustedAt(logits: seq<real>, history: set<nat>, o: Options, token: nat)
    requires o.temperature != 0.0 && o.penalty != 0.0 && token < |logits|
    ensures Adjusted(logits, history, o)[token]
         == Candidate(Penalised(logits[token], token in history, o.penalty) / o.temperature, token)
  {
    hide Penalised;
    var last := |logits| - 1;
    if token < last {
      AdjustedAt(logits[..last], history, o, token);
    }
  }

  lemma PenalisedExactly(logit: real, seen: bool, penalty: real)
    requires penalty != 0.0
    ensures !seen ==> Penalised(logit, seen, penalty) == logit
    ensures seen && logit < 0.0 ==> Penalised(logit, seen, penalty) == logit * penalty
    ensures seen && logit >= 0.0 ==> Penalised(logit, seen, penalty) * penalty == logit
  {
    QuotientTimes(logit, penalty);
  }

  lemma QuotientTimes(a: real, b: real)
    requires b != 0.0
    ensures (a / b) * b == a
  {
  }

  method Adjust(logits: seq<real>, history: set<nat>, o: Options) returns (adjusted: seq<Candidate>)
    requires o.temperature != 0.0 && o.penalty != 0.0
    ensures adjusted == Adjusted(logits, history, o)
  {
    hide Adjusted;
    NothingAdjusted(history, o);
    adjusted := [];
    for token := 0 to |logits|
      invariant adjusted == Adjusted(logits[..token], history, o)
    {
      var value := logits[token];
      if o.penalty != 1.0 && token in history {
        value := if value < 0.0 then value * o.penalty else value / o.penalty;
      }
      assert value == Penalised(logits[token], token in history, o.penalty);
      hide *;
      AdjustedStep(logits, history, o, token);
      adjusted := adjusted + [Candidate(value / o.temperature, token)];
    }
    assert logits[..|logits|] == logits;
  }

  // ---------------------------------------------------------------- weights

  function Sum(weights: seq<real>): real {
    if weights == [] then 0.0 else Sum(weights[..|weights| - 1]) + weights[|weights| - 1]
  }

  ghost predicate Positive(weights: seq<real>) {
    forall k :: 0 <= k < |weights| ==> weights[k] > 0.0
  }

  lemma SumStep(weights: seq<real>, k: nat)
    requires k < |weights|
    ensures Sum(weights[..k + 1]) == Sum(weights[..k]) + weights[k]
  {
    assert weights[..k + 1][..k] == weights[..k];
  }

  lemma {:induction false} SumGrows(weights: seq<real>, i: nat, j: nat)
    requires Positive(weights) && i <= j <= |weights|
    ensures Sum(weights[..i]) <= Sum(weights[..j]) && (i < j ==> Sum(weights[..i]) < Sum(weights[..j]))
  {
    if i < j {
      SumGrows(weights, i, j - 1);
      SumStep(weights, j - 1);
    }
  }

  /** A fraction of the whole weight. */
  function Part(fraction: real, weights: seq<real>): real {
    Fraction(fraction, Sum(weights))
  }

  function Fraction(fraction: real, total: real): real {
    fraction * total
  }

  lemma PartIsInside(fraction: real, weights: seq<real>)
    requires weights != [] && Positive(weights)
    ensures fraction < 1.0 ==> Part(fraction, weights) < Sum(weights)
    ensures fraction > 0.0 ==> Part(fraction, weights) > 0.0
  {
    hide Fraction;
    assert weights[..|weights|] == weights;
    SumGrows(weights, 0, |weights|);
    NoWeight(weights);
    FractionInside(fraction, Sum(weights));
  }

  lemma FractionInside(fraction: real, total: real)
    requires total > 0.0
    ensures fraction < 1.0 ==> Fraction(fraction, total) < total
    ensures fraction > 0.0 ==> Fraction(fraction, total) > 0.0
  {
    if fraction < 1.0 {
      Distributes(fraction, total);
      PositiveFraction(1.0 - fraction, total);
    }
    if fraction > 0.0 {
      PositiveFraction(fraction, total);
    }
  }

  lemma Distributes(fraction: real, total: real)
    ensures (1.0 - fraction) * total == total - Fraction(fraction, total)
  {
  }

  lemma PositiveFraction(a: real, b: real)
    requires a > 0.0 && b > 0.0
    ensures a * b > 0.0 && Fraction(a, b) > 0.0
  {
  }

  /** `count` is the length of the shortest nonempty prefix that reaches `cutoff`. */
  ghost predicate ShortestReaching(weights: seq<real>, cutoff: real, count: nat) {
    && 1 <= count <= |weights|
    && Sum(weights[..count]) >= cutoff
    && forall k :: 1 <= k < count ==> Sum(weights[..k]) < cutoff
  }

  /** The top-p loop, which always reaches its cutoff. */
  method TopP(weights: seq<real>, p: real) returns (count: nat, cumulative: real)
    requires weights != [] && Positive(weights) && p < 1.0
    ensures ShortestReaching(weights, Part(p, weights), count)
    ensures cumulative == Sum(weights[..count])
  {
    hide Sum, Part;
    var cutoff := Part(p, weights);
    cumulative, count := 0.0, 0;
    PartIsInside(p, weights);
    NoWeight(weights);
    while count < |weights| && (count == 0 || cumulative < cutoff)
      invariant count <= |weights| && cumulative == Sum(weights[..count])
      invariant forall k :: 1 <= k < count ==> Sum(weights[..k]) < cutoff
    {
      SumStep(weights, count);
      cumulative := cumulative + weights[count];
      count := count + 1;
    }
    if count == |weights| {
      assert weights[..count] == weights;
    }
  }

  lemma NoWeight(weights: seq<real>)
    ensures Sum(weights[..0]) == 0.0
  {
  }

  /** The shortest reaching prefix is unique. */
  lemma ShortestIsUnique(weights: seq<real>, cutoff: real, a: nat, b: nat)
    requires ShortestReaching(weights, cutoff, a) && ShortestReaching(weights, cutoff, b)
    ensures a == b
  {
    hide Sum;
    assert Sum(weights[..a]) >= cutoff && Sum(weights[..b]) >= cutoff;
  }

  // ---------------------------------------------------------------- the draw

  /** `(bits >> 11) + 0.5` over `2^53`, the shift as a division by 2048. */
  function Uniform(bits: Word): real {
    ((bits / 2048) as real + 0.5) / 9007199254740992.0
  }

  /** A draw is the middle of one of 2^53 equal parts of the unit interval, the one that the bits lie in. */
  lemma UniformIsMiddle(bits: Word)
    ensures exists n: nat :: n < 9_007_199_254_740_992 && 2048 * n <= bits < 2048 * (n + 1)
                          && Uniform(bits) * 9007199254740992.0 == n as real + 0.5
  {
    var n: nat := bits / 2048;
    assert 2048 * n <= bits < 2048 * (n + 1) && n < 9_007_199_254_740_992;
    QuotientTimes(n as real + 0.5, 9007199254740992.0);
  }

  lemma UniformIsInside(bits: Word)
    ensures 0.0 < Uniform(bits) < 1.0
  {
    assert bits / 2048 < 9007199254740992;
    HalfStep((bits / 2048) as real);
  }

  lemma HalfStep(x: real)
    requires 0.0 <= x <= 9007199254740991.0
    ensures 0.0 < (x + 0.5) / 9007199254740992.0 < 1.0
  {
  }

  /** The walk ends at the one element whose share of the total holds the target. */
  ghost predicate Drawn(weights: seq<real>, target: real, k: nat) {
    k < |weights| && Sum(weights[..k]) <= target < Sum(weights[..k + 1])
  }

  /** The cumulative walk; the second result says whether it fell through to the last element. */
  method Walk(weights: seq<real>, target: real) returns (k: nat, fell: bool)
    requires weights != [] && 0.0 <= target
    ensures !fell ==> Drawn(weights, target, k)
    ensures fell ==> k == |weights| - 1 && Sum(weights) <= target
  {
    hide Sum;
    var cumulative := 0.0;
    NoWeight(weights);
    assert weights[..|weights|] == weights;
    for index := 0 to |weights|
      invariant cumulative == Sum(weights[..index]) && cumulative <= target
    {
      SumStep(weights, index);
      cumulative := cumulative + weights[index];
      if target < cumulative { return index, false; }
    }
    return |weights| - 1, true;
  }

  /** Every target below the total belongs to exactly one element. */
  lemma DrawnIsUnique(weights: seq<real>, target: real, j: nat, k: nat)
    requires Positive(weights) && Drawn(weights, target, j) && Drawn(weights, target, k)
    ensures j == k
  {
    hide Sum;
    if j < k {
      SumGrows(weights, j + 1, k);
    } else if k < j {
      SumGrows(weights, k + 1, j);
    }
  }

  // ---------------------------------------------------------------- one sample

  /** The candidates that the top-k cut keeps, in order. */
  function TopK(logits: seq<real>, history: set<nat>, o: Options): seq<Candidate>
    requires o.temperature != 0.0 && o.penalty != 0.0
  {
    var sorted := Sort(Better, Adjusted(logits, history, o));
    var limit := if o.topK == 0 then VOCABULARY else o.topK;
    if limit < |sorted| then sorted[..limit] else sorted
  }

  function Weight(exp: real -> real, c: Candidate, maximum: real): real {
    exp(c.value - maximum)
  }

  function Weights(exp: real -> real, eligible: seq<Candidate>, maximum: real): (r: seq<real>) {
    seq(|eligible|, k requires 0 <= k < |eligible| => Weight(exp, eligible[k], maximum))
  }

  /** What is used of the exponential: it is positive, 1 at 0, and increasing. */
  ghost predicate Exponential(exp: real -> real) {
    && (forall x :: exp(x) > 0.0) && exp(0.0) == 1.0
    && forall x, y :: x <= y ==> exp(x) <= exp(y)
  }

  /** The candidates whose weight is at least `minP`. */
  function Likely(exp: real -> real, candidates: seq<Candidate>, maximum: real, minP: real): seq<Candidate> {
    if candidates == [] then []
    else
      var last := candidates[|candidates| - 1];
      Likely(exp, candidates[..|candidates| - 1], maximum, minP) + (if Weight(exp, last, maximum) >= minP then [last] else [])
  }

  lemma BetterIsOrder()
    ensures IsOrder(Better)
  {
  }

  /** What a prefix of sorted candidates leaves out beats none of it. */
  lemma CutKeepsBest(sorted: seq<Candidate>, n: nat, c: Candidate)
    requires InOrder(Better, sorted) && 0 < n <= |sorted| && c in sorted
    ensures c in sorted[..n] || Better(sorted[n - 1], c)
  {
    hide Better;
    var k :| 0 <= k < |sorted| && sorted[k] == c;
    if k < n {
      assert sorted[..n][k] == c;
    }
  }

  lemma PrefixInOrder(sorted: seq<Candidate>, n: nat)
    requires InOrder(Better, sorted) && n <= |sorted|
    ensures InOrder(Better, sorted[..n])
  {
    hide Better;
  }

  lemma SortedLength(s: seq<Candidate>)
    ensures |Sort(Better, s)| == |s| && multiset(Sort(Better, s)) == multiset(s) && InOrder(Better, Sort(Better, s))
  {
    hide Better;
    BetterIsOrder();
    SortSorts(Better, s);
    assert |multiset(Sort(Better, s))| == |multiset(s)|;
  }

  lemma PrefixMembers(s: seq<Candidate>, n: nat)
    requires n <= |s|
    ensures multiset(s[..n]) <= multiset(s)
  {
    assert s == s[..n] + s[n..];
  }

  /** Main result: the cut keeps as many candidates as asked for, or 262144, or all there are; larger
      values come first, smaller tokens first among equals, and so does every kept one before every
      dropped one. */
  lemma TopKExactly(logits: seq<real>, history: set<nat>, o: Options)
    requires o.temperature != 0.0 && o.penalty != 0.0 && logits != []
    ensures var kept, limit := TopK(logits, history, o), if o.topK == 0 then 262144 else o.topK;
            && |kept| == (if limit < |logits| then limit else |logits|)
            && multiset(kept) <= multiset(Adjusted(logits, history, o))
            && (forall i, j :: 0 <= i < j < |kept| ==>
                  kept[i].value > kept[j].value || (kept[i].value == kept[j].value && kept[i].token <= kept[j].token))
            && (forall c :: c in Adjusted(logits, history, o) && c !in kept ==>
                  var last := kept[|kept| - 1];
                  last.value > c.value || (last.value == c.value && last.token <= c.token))
  {
    hide Adjusted, Sort;
    TopKIsBest(logits, history, o);
    var sorted := Sort(Better, Adjusted(logits, history, o));
    SortedLength(Adjusted(logits, history, o));
    CutIsTopK(logits, history, o);
    var kept := TopK(logits, history, o);
    PrefixMembers(sorted, |kept|);
    assert kept == sorted[..|kept|];
    assert forall i, j :: 0 <= i < j < |kept| ==> Better(kept[i], kept[j]);
  }

  /** No candidate beats one that the cut keeps. */
  lemma TopKIsBest(logits: seq<real>, history: set<nat>, o: Options)
    requires o.temperature != 0.0 && o.penalty != 0.0 && logits != []
    ensures var kept := TopK(logits, history, o);
            && kept != [] && InOrder(Better, kept)
            && (forall c :: c in Adjusted(logits, history, o) ==> c in kept || Better(kept[|kept| - 1], c))
  {
    hide Adjusted, Better, InOrder, Sort;
    var all := Adjusted(logits, history, o);
    var sorted := Sort(Better, all);
    var kept := TopK(logits, history, o);
    BetterIsOrder();
    SortSorts(Better, all);
    PrefixInOrder(sorted, |kept|);
    assert sorted[..|sorted|] == sorted;
    forall c | c in all
      ensures c in kept || Better(kept[|kept| - 1], c)
    {
      assert c in multiset(sorted);
      CutKeepsBest(sorted, |kept|, c);
    }
  }

  /** Min-p on sorted candidates keeps a prefix: exactly those likely enough. */
  lemma {:induction false} LikelyIsPrefix(exp: real -> real, candidates: seq<Candidate>, maximum: real, minP: real)
    requires Exponential(exp) && InOrder(Better, candidates)
    ensures var kept := Likely(exp, candidates, maximum, minP);
            && kept <= candidates
            && forall k :: 0 <= k < |candidates| ==> (k < |kept| <==> Weight(exp, candidates[k], maximum) >= minP)
  {
    if candidates != [] {
      var front, last := candidates[..|candidates| - 1], candidates[|candidates| - 1];
      LikelyIsPrefix(exp, front, maximum, minP);
      var kept := Likely(exp, front, maximum, minP);
      forall k | 0 <= k < |front|
        ensures Weight(exp, last, maximum) >= minP ==> Weight(exp, front[k], maximum) >= minP
      {
        assert Better(candidates[k], last);
      }
      if Weight(exp, last, maximum) >= minP {
        AllKept(exp, front, kept, maximum, minP);
      }
      assert forall k :: 0 <= k < |front| ==> candidates[k] == front[k];
    }
  }

  lemma AllKept(exp: real -> real, front: seq<Candidate>, kept: seq<Candidate>, maximum: real, minP: real)
    requires kept <= front
    requires forall k :: 0 <= k < |front| ==> Weight(exp, front[k], maximum) >= minP
    requires forall k :: 0 <= k < |front| ==> (k < |kept| <==> Weight(exp, front[k], maximum) >= minP)
    ensures kept == front
  {
    if front != [] {
      assert Weight(exp, front[|front| - 1], maximum) >= minP;
      assert |front| - 1 < |kept|;
    }
  }

  method KeepLikely(exp: real -> real, candidates: seq<Candidate>, maximum: real, minP: real) returns (r: seq<Candidate>)
    ensures r == Likely(exp, candidates, maximum, minP)
  {
    r := [];
    for k := 0 to |candidates|
      invariant r == Likely(exp, candidates[..k], maximum, minP)
    {
      assert candidates[..k + 1][..k] == candidates[..k];
      if Weight(exp, candidates[k], maximum) >= minP {
        r := r + [candidates[k]];
      }
    }
    assert candidates[..|candidates|] == candidates;
  }

  /** The candidates after top-k and min-p. */
  function Eligible(exp: real -> real, logits: seq<real>, history: set<nat>, o: Options): seq<Candidate>
    requires o.temperature != 0.0 && o.penalty != 0.0
  {
    var kept := TopK(logits, history, o);
    if kept == [] || o.minP <= 0.0 then kept else Likely(exp, kept, kept[0].value, o.minP)
  }

  /** The best candidate stays, unless the min-p filter asks for more than certainty. */
  lemma BestIsEligible(exp: real -> real, logits: seq<real>, history: set<nat>, o: Options)
    requires o.temperature != 0.0 && o.penalty != 0.0 && logits != [] && Exponential(exp)
    ensures var kept, eligible := TopK(logits, history, o), Eligible(exp, logits, history, o);
            && kept != []
            && (eligible == [] <==> o.minP > 1.0)
            && (eligible != [] ==> eligible <= kept && eligible[0] == kept[0])
  {
    hide TopK;
    TopKIsBest(logits, history, o);
    var kept := TopK(logits, history, o);
    LikelyIsPrefix(exp, kept, kept[0].value, o.minP);
    assert Weight(exp, kept[0], kept[0].value) == exp(0.0);
  }

  lemma WeightsArePositive(exp: real -> real, eligible: seq<Candidate>, maximum: real)
    requires Exponential(exp)
    ensures Positive(Weights(exp, eligible, maximum))
  {
  }

  lemma CutIsTopK(logits: seq<real>, history: set<nat>, o: Options)
    requires o.temperature != 0.0 && o.penalty != 0.0
    ensures var sorted := Sort(Better, Adjusted(logits, history, o));
            var limit := if o.topK == 0 then VOCABULARY else o.topK;
            TopK(logits, history, o) == if limit < |sorted| then sorted[..limit] else sorted
  {
  }

  /** How many of the weights the draw runs over. */
  ghost predicate KeptCount(weights: seq<real>, topP: real, count: nat) {
    if topP < 1.0 then ShortestReaching(weights, Part(topP, weights), count) else count == |weights|
  }

  /** `sample_reference`: without logits or with a min-p above one no candidate is left; otherwise
      the drawn token is the one whose share of the filtered mass holds the draw, and the fallback
      after the walk is never taken. */
  method SampleReference(
    exp: real -> real, logits: seq<real>, history: set<nat>, o: Options, seed: Word, step: Word)
    returns (r: Option<(nat, nat)>)
    requires Exponential(exp) && o.temperature != 0.0 && o.penalty != 0.0
    ensures r.Some? <==> logits != [] && o.minP <= 1.0
    ensures r.Some? ==>
      var eligible, (token, count) := Eligible(exp, logits, history, o), r.value;
      && eligible != []
      && var weights := Weights(exp, eligible, eligible[0].value);
      && KeptCount(weights, o.topP, count) && 1 <= count <= |weights|
      && exists k :: 0 <= k < count && eligible[k].token == token
           && Drawn(weights[..count], Part(Uniform(Bits(seed, step)), weights[..count]), k)
  {
    hide Sum, Part, TopK, Likely, Adjusted, SplitMix64, Uniform, Sort;
    if logits == [] { return None; }
    BestIsEligible(exp, logits, history, o);
    var adjusted := Adjust(logits, history, o);
    adjusted := Sort(Better, adjusted);
    var limit := if o.topK == 0 then VOCABULARY else o.topK;
    var eligible := if limit < |adjusted| then adjusted[..limit] else adjusted;
    CutIsTopK(logits, history, o);
    var maximum := eligible[0].value;
    if o.minP > 0.0 {
      eligible := KeepLikely(exp, eligible, maximum, o.minP);
    }
    if eligible == [] { return None; }
    var weights := Weights(exp, eligible, maximum);
    WeightsArePositive(exp, eligible, maximum);
    var count := |weights|;
    if o.topP < 1.0 {
      var cumulative;
      count, cumulative := TopP(weights, o.topP);
    }
    var drawn := weights[..count];
    var u := Uniform(Bits(seed, step));
    UniformIsInside(Bits(seed, step));
    PartIsInside(u, drawn);
    var k, fell := Walk(drawn, Part(u, drawn));
    assert eligible == Eligible(exp, logits, history, o);
    return Some((eligible[k].token, count));
  }
}
