/** Nearest-value coding onto the positive E2M1 and E4M3FN grids (OCP Microscaling Formats v1.0,
    sections 5.3.3 and 5.3.1), in exact arithmetic. */
module Minifloat {
  import opened Words

  /** What a float holds: a number, or one of the values that are none. */
  datatype Float = Number(value: real) | Infinity(negative: bool) | NotANumber

  predicate Numbers(s: seq<Float>) {
    forall k :: 0 <= k < |s| ==> s[k].Number?
  }

  function Values(s: seq<Float>): (r: seq<real>)
    requires Numbers(s)
    ensures |r| == |s|
  {
    seq(|s|, i requires 0 <= i < |s| => s[i].value)
  }

  function Abs(x: real): (r: real)
    ensures r >= 0.0
  {
    if x < 0.0 then -x else x
  }

  ghost predicate Increasing(grid: seq<real>) {
    forall i, j :: 0 <= i < j < |grid| ==> grid[i] < grid[j]
  }

  /** The linear scan over the first `n` codes: a strictly smaller error wins, and so does an
      even code that ties with an odd one. */
  function Scan(grid: seq<real>, x: real, n: nat): (best: nat)
    requires 0 < n <= |grid|
    ensures best < n
  {
    if n == 1 then 0
    else
      var best := Scan(grid, x, n - 1);
      var c := n - 1;
      if Abs(x - grid[c]) < Abs(x - grid[best])
         || (Abs(x - grid[c]) == Abs(x - grid[best]) && c % 2 == 0 && best % 2 != 0)
      then c else best
  }

  /** The shared body of `ChooseNearestE2M1` and `ChooseNearestPositiveE4M3Fn`. */
  method ScanNearest(grid: seq<real>, magnitude: real) returns (best: nat)
    requires grid != []
    ensures best == Scan(grid, magnitude, |grid|)
  {
    best := 0;
    var bestError := Abs(magnitude - grid[0]);
    for candidate := 1 to |grid|
      invariant best == Scan(grid, magnitude, candidate)
      invariant bestError == Abs(magnitude - grid[best])
    {
      var error := Abs(magnitude - grid[candidate]);
      if error < bestError || (error == bestError && candidate % 2 == 0 && best % 2 != 0) {
        best, bestError := candidate, error;
      }
    }
  }

  /** `best` is a nearest code, and the even one of two nearest codes. */
  ghost predicate Nearest(grid: seq<real>, x: real, best: nat, n: nat)
    requires n <= |grid|
  {
    && best < n
    && forall c :: 0 <= c < n && c != best ==>
         Abs(x - grid[best]) < Abs(x - grid[c]) || (Abs(x - grid[best]) == Abs(x - grid[c]) && best % 2 == 0)
  }

  /** On a rising grid two distinct codes that both minimise the error are neighbours. */
  lemma TiesAreNeighbours(grid: seq<real>, x: real, a: nat, b: nat)
    requires Increasing(grid) && a < b < |grid|
    requires Abs(x - grid[a]) == Abs(x - grid[b])
    requires forall c :: a < c < b ==> Abs(x - grid[a]) <= Abs(x - grid[c])
    ensures b == a + 1
  {
    var m := if a + 1 < b then a + 1 else a;
    assert grid[a] <= grid[m] < grid[b];
  }

  lemma {:induction false} ScanIsNearest(grid: seq<real>, x: real, n: nat)
    requires Increasing(grid) && 0 < n <= |grid|
    ensures Nearest(grid, x, Scan(grid, x, n), n)
  {
    if n > 1 {
      ScanIsNearest(grid, x, n - 1);
      var b, c := Scan(grid, x, n - 1), n - 1;
      if Abs(x - grid[c]) == Abs(x - grid[b]) {
        TiesAreNeighbours(grid, x, b, c);
      }
    }
  }

  /** The nearest code, ties to even, is unique: the scan order does not matter. */
  lemma NearestIsUnique(grid: seq<real>, x: real, a: nat, b: nat)
    requires Increasing(grid) && Nearest(grid, x, a, |grid|) && Nearest(grid, x, b, |grid|)
    ensures a == b
  {
    if a < b {
      TiesAreNeighbours(grid, x, a, b);
    } else if b < a {
      TiesAreNeighbours(grid, x, b, a);
    }
  }

  function Code(grid: seq<real>, x: real): (c: nat)
    requires grid != []
    ensures c < |grid|
  {
    Scan(grid, x, |grid|)
  }

  lemma CodeIsNearest(grid: seq<real>, x: real)
    requires Increasing(grid) && grid != []
    ensures Nearest(grid, x, Code(grid, x), |grid|)
  {
    ScanIsNearest(grid, x, |grid|);
  }

  /** Grid values code to themselves. */
  lemma GridIsFixed(grid: seq<real>, c: nat)
    requires Increasing(grid) && c < |grid|
    ensures Code(grid, grid[c]) == c
  {
    CodeIsNearest(grid, grid[c]);
    assert Nearest(grid, grid[c], c, |grid|) by {
      forall k | 0 <= k < |grid| && k != c
        ensures Abs(grid[c] - grid[k]) > 0.0
      {
        assert grid[k] != grid[c] by { if k < c {} else {} }
      }
    }
    NearestIsUnique(grid, grid[c], Code(grid, grid[c]), c);
  }

  /** Coding is monotone. */
  lemma CodeIsMonotone(grid: seq<real>, x: real, y: real)
    requires Increasing(grid) && grid != [] && x <= y
    ensures Code(grid, x) <= Code(grid, y)
  {
    CodeIsNearest(grid, x);
    CodeIsNearest(grid, y);
    var a, b := Code(grid, x), Code(grid, y);
  }

  /** Between two neighbouring grid values the coding error is at most half their distance. */
  lemma CodeWithinGap(grid: seq<real>, x: real, k: nat)
    requires Increasing(grid) && k + 1 < |grid| && grid[k] <= x <= grid[k + 1]
    ensures Abs(x - grid[Code(grid, x)]) <= (grid[k + 1] - grid[k]) / 2.0
  {
    CodeIsNearest(grid, x);
    var c := Code(grid, x);
    assert Abs(x - grid[c]) <= Abs(x - grid[k]);
    assert Abs(x - grid[c]) <= Abs(x - grid[k + 1]);
  }

  // ---------------------------------------------------------------- E2M1

  const E2M1: seq<real> := [0.0, 0.5, 1.0, 1.5, 2.0, 3.0, 4.0, 6.0]

  lemma E2M1Increasing()
    ensures Increasing(E2M1)
  {
  }

  // ---------------------------------------------------------------- E4M3FN

  const TOP: nat := 0x7E

  /** The magnitude of the finite code `c`, in units of 2^-9: `m` for exponent field 0, else
      `(8 + m) * 2^(e - 1)`. */
  function Units(c: nat): nat
    requires c <= TOP
  {
    var e, m := c / 8, c % 8;
    if e == 0 then m else (8 + m) * Pow2(e - 1)
  }

  /** The distance from `c` to the next code. */
  function Ulp(c: nat): (u: nat)
    ensures u >= 1
  {
    if c < 8 then 1 else Pow2(c / 8 - 1)
  }

  lemma UnitsStep(c: nat)
    requires c < TOP
    ensures Units(c + 1) == Units(c) + Ulp(c)
    ensures c >= 8 ==> 8 * Ulp(c) <= Units(c)
  {
    var e, m := c / 8, c % 8;
    if e > 0 {
      var p := Pow2(e - 1);
      if m < 7 {
        assert (c + 1) / 8 == e && (c + 1) % 8 == m + 1;
        assert (8 + m + 1) * p == (8 + m) * p + p;
      } else {
        assert (c + 1) / 8 == e + 1 && (c + 1) % 8 == 0;
        assert Pow2(e) == 2 * p;
        assert 8 * (2 * p) == 15 * p + p;
      }
      assert 8 * p <= (8 + m) * p;
    }
  }

  lemma {:induction false} UnitsIncrease(a: nat, b: nat)
    requires a < b <= TOP
    ensures Units(a) < Units(b)
  {
    UnitsStep(b - 1);
    if a < b - 1 {
      UnitsIncrease(a, b - 1);
    }
  }

  const UNIT: real := 512.0

  function E4M3Value(c: nat): real
    requires c <= TOP
  {
    Units(c) as real / UNIT
  }

  /** The values of the first `n` codes. */
  function E4M3Prefix(n: nat): (grid: seq<real>)
    requires n <= TOP + 1
    ensures |grid| == n && forall c :: 0 <= c < n ==> grid[c] == E4M3Value(c)
  {
    if n == 0 then [] else E4M3Prefix(n - 1) + [E4M3Value(n - 1)]
  }

  const E4M3: seq<real> := E4M3Prefix(TOP + 1)

  lemma E4M3Increasing()
    ensures Increasing(E4M3) && |E4M3| == 127
    ensures forall c :: 0 <= c <= TOP ==> E4M3[c] == E4M3Value(c)
  {
    forall i, j | 0 <= i < j < |E4M3|
      ensures E4M3[i] < E4M3[j]
    {
      UnitsIncrease(i, j);
    }
  }

  lemma TopIs448()
    ensures Units(TOP) == 229376 && E4M3Value(TOP) == 448.0
  {
    assert Pow2(4) == 16 && Pow2(8) == 256 && Pow2(12) == 4096 && Pow2(14) == 16384;
  }

  /** `ChooseNearestPositiveE4M3Fn`: saturation first, then the scan. */
  function E4M3Code(x: real): (c: nat)
    ensures c <= TOP
  {
    if x >= 448.0 then TOP else Code(E4M3, x)
  }

  method ChooseNearestPositiveE4M3Fn(magnitude: real) returns (best: nat)
    ensures best == E4M3Code(magnitude)
  {
    if magnitude >= 448.0 {
      return TOP;
    }
    best := ScanNearest(E4M3, magnitude);
  }

  /** Below saturation the code is the nearest one, ties to even; above, it is the top code. */
  lemma E4M3CodeIsNearest(x: real)
    ensures x < 448.0 ==> Nearest(E4M3, x, E4M3Code(x), 127)
    ensures x >= 448.0 ==> E4M3Code(x) == TOP
  {
    E4M3Increasing();
    CodeIsNearest(E4M3, x);
  }

  /** Every finite magnitude codes to itself. */
  lemma E4M3RoundTrip(c: nat)
    requires c <= TOP
    ensures E4M3Code(E4M3Value(c)) == c
  {
    E4M3Increasing();
    TopIs448();
    GridIsFixed(E4M3, c);
    if c < TOP {
      UnitsIncrease(c, TOP);
    }
  }

  lemma E4M3CodeIsMonotone(x: real, y: real)
    requires x <= y
    ensures E4M3Code(x) <= E4M3Code(y)
  {
    E4M3Increasing();
    CodeIsMonotone(E4M3, x, y);
  }

  lemma E4M3PreimageBelow(x: real)
    requires 0.0 <= x < 448.0 && E4M3Code(x) > 0
    ensures var c := E4M3Code(x);
            var pair := (Units(c - 1) + Units(c)) as real;
            pair <= 2.0 * UNIT * x && (c % 2 == 1 ==> pair < 2.0 * UNIT * x)
  {
    E4M3Increasing();
    E4M3CodeIsNearest(x);
    hide E4M3Code, Units;
    var c := E4M3Code(x);
    UnitsIncrease(c - 1, c);
    assert Abs(x - E4M3[c]) < Abs(x - E4M3[c - 1]) || (Abs(x - E4M3[c]) == Abs(x - E4M3[c - 1]) && c % 2 == 0);
  }

  lemma E4M3PreimageAbove(x: real)
    requires 0.0 <= x < 448.0 && E4M3Code(x) < TOP
    ensures var c := E4M3Code(x);
            var pair := (Units(c) + Units(c + 1)) as real;
            2.0 * UNIT * x <= pair && (c % 2 == 1 ==> 2.0 * UNIT * x < pair)
  {
    E4M3Increasing();
    E4M3CodeIsNearest(x);
    hide E4M3Code, Units;
    var c := E4M3Code(x);
    UnitsIncrease(c, c + 1);
    assert Abs(x - E4M3[c]) < Abs(x - E4M3[c + 1]) || (Abs(x - E4M3[c]) == Abs(x - E4M3[c + 1]) && c % 2 == 0);
  }

  /** A sufficient window for a code: strictly nearer than to both neighbours. */
  lemma E4M3Window(x: real, c: nat)
    requires 0.0 <= x < 448.0 && c <= TOP
    requires c > 0 ==> ((Units(c - 1) + Units(c)) as real) < 2.0 * UNIT * x
    requires c < TOP ==> 2.0 * UNIT * x < (Units(c) + Units(c + 1)) as real
    ensures E4M3Code(x) == c
  {
    hide Units, E4M3Code;
    var d := E4M3Code(x);
    if d < c {
      E4M3PreimageAbove(x);
      PairsIncrease(d, c - 1);
    } else if d > c {
      E4M3PreimageBelow(x);
      PairsIncrease(c, d - 1);
    }
  }

  lemma PairsIncrease(a: nat, b: nat)
    requires a <= b < TOP
    ensures Units(a) + Units(a + 1) <= Units(b) + Units(b + 1)
  {
    if a < b {
      UnitsIncrease(a, b);
      UnitsIncrease(a + 1, b + 1);
    }
  }

  lemma {:induction false} Bracket(x: real, n: nat) returns (k: nat)
    requires 0 < n <= TOP && 0.0 <= UNIT * x <= Units(n) as real
    ensures k < n && Units(k) as real <= UNIT * x <= Units(k + 1) as real
  {
    if UNIT * x >= Units(n - 1) as real {
      k := n - 1;
    } else {
      assert n > 1;
      k := Bracket(x, n - 1);
    }
  }

  lemma {:induction false} UlpBound(c: nat)
    requires c < TOP
    ensures Ulp(c) <= 16384
  {
    if c >= 8 {
      PowerGrows(c / 8 - 1, 14);
      assert Pow2(4) == 16 && Pow2(8) == 256 && Pow2(12) == 4096 && Pow2(14) == 16384;
    }
  }

  /** Over the whole unsaturated range the coding error is at most 16. */
  lemma E4M3Error(x: real)
    requires 0.0 <= x <= 448.0
    ensures Abs(x - E4M3Value(E4M3Code(x))) <= 16.0
  {
    TopIs448();
    if x < 448.0 {
      var k := Bracket(x, TOP);
      E4M3Increasing();
      UnitsStep(k);
      UlpBound(k);
      CodeWithinGap(E4M3, x, k);
    }
  }

  // ---------------------------------------------------------------- the formats by their fields

  /** Two to an integer power. */
  function TwoTo(e: int): (p: real)
    ensures p > 0.0
    decreases if e < 0 then -e else e
  {
    if e == 0 then 1.0 else if e > 0 then 2.0 * TwoTo(e - 1) else TwoTo(e + 1) / 2.0
  }

  /** A magnitude with exponent field `e` and a significand field `m` of `width` codes: subnormal for
      exponent field 0, else with a leading one. */
  function FieldValue(e: nat, m: nat, width: nat, bias: nat): real
    requires width > 0
  {
    var fraction := m as real / width as real;
    if e == 0 then fraction * TwoTo(1 - bias) else (1.0 + fraction) * TwoTo(e - bias)
  }

  /** E2M1 (section 5.3.3 of OCP Microscaling Formats v1.0): two exponent bits of bias 1, one
      significand bit. */
  lemma E2M1ByFields(c: nat)
    requires c < 8
    ensures E2M1[c] == FieldValue(c / 2, c % 2, 2, 1)
  {
    assert TwoTo(0) == 1.0 && TwoTo(1) == 2.0 && TwoTo(2) == 4.0;
  }

  lemma {:induction false} TwoToIsPow2(e: nat)
    ensures TwoTo(e) == Pow2(e) as real
  {
    if e > 0 {
      TwoToIsPow2(e - 1);
    }
  }

  lemma {:induction false} TwoToShifts(e: nat, k: nat)
    ensures TwoTo(e - k) * TwoTo(k) == TwoTo(e)
  {
    hide TwoTo;
    NoShift();
    if k > 0 {
      TwoToShifts(e, k - 1);
      HalfStep(e - k);
      HalfStep(k - 1);
      MoveTwo(TwoTo(e - k), TwoTo(k - 1));
    }
  }

  lemma NoShift()
    ensures TwoTo(0) == 1.0
  {
  }

  lemma MoveTwo(a: real, b: real)
    ensures a * (2.0 * b) == (2.0 * a) * b
  {
  }

  lemma HalfStep(e: int)
    ensures TwoTo(e + 1) == 2.0 * TwoTo(e)
  {
  }

  function FromUnits(m: real, p: real): real {
    (8.0 + m) * p / 512.0
  }

  function WithLeadingOne(m: real, q: real): real {
    (1.0 + m / 8.0) * q
  }

  lemma NormalUnits(c: nat)
    requires 8 <= c <= TOP
    ensures E4M3Value(c) == FromUnits((c % 8) as real, Pow2(c / 8 - 1) as real)
  {
    hide Pow2;
    var m, p := c % 8, Pow2(c / 8 - 1);
    assert ((8 + m) * p) as real == (8 + m) as real * p as real;
  }

  lemma NormalField(e: nat, m: nat)
    requires e > 0
    ensures FieldValue(e, m, 8, 7) == WithLeadingOne(m as real, TwoTo(e - 7))
  {
    hide TwoTo;
  }

  lemma SubnormalField(m: nat)
    ensures FieldValue(0, m, 8, 7) == m as real / 8.0 * TwoTo(-6)
  {
    hide TwoTo;
  }

  lemma SubnormalByFields(c: nat)
    requires c < 8
    ensures E4M3Value(c) == FieldValue(0, c, 8, 7)
  {
    hide TwoTo, FieldValue;
    SixtyFourAndUnit();
    FieldOfSubnormal(c);
    SubnormalField(c);
  }

  lemma TwoToSeven(e: nat)
    requires e > 0
    ensures TwoTo(e - 7) * 128.0 == 2.0 * Pow2(e - 1) as real
  {
    hide TwoTo, Pow2;
    SixtyFourAndUnit();
    TwoToShifts(e, 7);
    TwoToIsPow2(e - 1);
    HalfStep(e - 1);
  }

  /** E4M3FN (section 5.3.1 of that specification): four exponent bits of bias 7, three significand
      bits. */
  lemma E4M3ByFields(c: nat)
    requires c <= TOP
    ensures E4M3Value(c) == FieldValue(c / 8, c % 8, 8, 7)
  {
    hide TwoTo, Pow2, FieldValue, E4M3Value, FromUnits, WithLeadingOne;
    if c < 8 {
      SubnormalByFields(c);
    } else {
      NormalUnits(c);
      NormalField(c / 8, c % 8);
      TwoToSeven(c / 8);
      FieldOfNormal(Pow2(c / 8 - 1) as real, (c % 8) as real, TwoTo(c / 8 - 7));
    }
  }

  lemma SixtyFourAndUnit()
    ensures TwoTo(-6) == 1.0 / 64.0 && TwoTo(7) == 128.0 && UNIT == 512.0
  {
    assert TwoTo(-1) == 0.5 && TwoTo(-2) == 0.25 && TwoTo(-3) == 0.125 && TwoTo(-4) == 0.0625;
    assert TwoTo(1) == 2.0 && TwoTo(2) == 4.0 && TwoTo(3) == 8.0 && TwoTo(4) == 16.0 && TwoTo(5) == 32.0;
  }

  lemma FieldOfSubnormal(m: nat)
    ensures m as real / 512.0 == m as real / 8.0 * (1.0 / 64.0)
  {
  }

  /** `p` is 2^(e - 1) and `q` is 2^(e - 7). */
  lemma FieldOfNormal(p: real, m: real, q: real)
    requires q * 128.0 == 2.0 * p
    ensures FromUnits(m, p) == WithLeadingOne(m, q)
  {
    assert p == q * 64.0;
    assert (8.0 + m) * (q * 64.0) / 512.0 == (8.0 + m) / 8.0 * q;
  }
}
