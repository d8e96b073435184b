/** NVFP4 block quantisation in exact arithmetic: scales, elements, packing, error and stability. */
module Nvfp4 {
  import opened Minifloat

  /** The block maximum as the scan computes it, starting from zero. */
  function Amax(values: seq<real>): (m: real)
    ensures m >= 0.0 && forall i :: 0 <= i < |values| ==> Abs(values[i]) <= m
    ensures m == 0.0 || exists i :: 0 <= i < |values| && Abs(values[i]) == m
  {
    if values == [] then 0.0
    else
      var n := |values| - 1;
      var rest := Amax(values[..n]);
      if rest < Abs(values[n]) then
        assert forall i :: 0 <= i < n ==> values[i] == values[..n][i];
        Abs(values[n])
      else
        assert forall i :: 0 <= i < n ==> values[i] == values[..n][i];
        rest
  }

  lemma AmaxIs(values: seq<real>, m: real, i: nat)
    requires i < |values| && Abs(values[i]) == m
    requires forall k :: 0 <= k < |values| ==> Abs(values[k]) <= m
    ensures Amax(values) == m
  {
  }

  /** What is coded as the block scale. */
  function ScaleInput(amax: real, divisor: real): real {
    amax / 6.0 * divisor
  }

  function BlockScale(block: seq<real>, divisor: real): (c: nat)
    ensures c <= TOP
  {
    E4M3Code(ScaleInput(Amax(block), divisor))
  }

  /** Multiply, then divide: towards the grid (divisor, scale) or back (scale, divisor). */
  function Scaled(x: real, factor: real, over: real): real
    requires over > 0.0 || over < 0.0
  {
    x * factor / over
  }

  function Normalized(value: real, divisor: real, scale: nat): real
    requires scale <= TOP
  {
    var s := E4M3Value(scale);
    if s == 0.0 then 0.0 else Scaled(value, divisor, s)
  }

  /** `EncodeE2M1`: three magnitude bits below the sign bit. */
  function EncodeE2M1(x: real): (nibble: nat)
    ensures nibble < 16
  {
    Code(E2M1, Abs(x)) + (if x < 0.0 then 8 else 0)
  }

  function DecodeE2M1(nibble: nat): real {
    var magnitude := E2M1[nibble % 8];
    if nibble % 16 >= 8 then -magnitude else magnitude
  }

  function ElementNibble(value: real, divisor: real, scale: nat): (nibble: nat)
    requires scale <= TOP
    ensures nibble < 16
  {
    EncodeE2M1(Normalized(value, divisor, scale))
  }

  /** The value a stored element stands for. */
  function ElementValue(nibble: nat, scale: nat, divisor: real): real
    requires scale <= TOP && divisor > 0.0
  {
    Scaled(DecodeE2M1(nibble), E4M3Value(scale), divisor)
  }

  /** A block read back after quantisation. */
  function Requantizable(block: seq<real>, divisor: real): (r: seq<real>)
    requires divisor > 0.0
    ensures |r| == |block|
  {
    var scale := BlockScale(block, divisor);
    seq(|block|, i requires 0 <= i < |block| => ElementValue(ElementNibble(block[i], divisor, scale), scale, divisor))
  }

  // ---------------------------------------------------------------- real arithmetic

  lemma ScaledBack(e: real, s: real, d: real)
    requires s > 0.0 && d > 0.0
    ensures Scaled(Scaled(e, s, d), d, s) == e
  {
    assert e * s / d * d == e * s;
  }

  lemma ScaleOfPeak(p: real, s: real, d: real)
    requires d > 0.0
    ensures ScaleInput(Scaled(p, s, d), d) == InputOf(p, s)
  {
    var q := p * s;
    assert q / d / 6.0 * d == q / 6.0 by {
      assert q / d / 6.0 == q / 6.0 / d;
    }
  }

  lemma ScaledIsRatio(a: real, d: real, s: real)
    requires s > 0.0
    ensures Scaled(a, d, s) == 6.0 * ScaleInput(a, d) / s
  {
    assert a / 6.0 * d * 6.0 == a * d;
  }

  lemma DivMonotone(x: real, y: real, s: real)
    requires x <= y && s > 0.0
    ensures x / s <= y / s
  {
    assert y / s - x / s == (y - x) / s;
  }

  lemma ScaledMonotone(a: real, b: real, d: real, s: real)
    requires 0.0 <= a <= b && d > 0.0 && s > 0.0
    ensures 0.0 <= Scaled(a, d, s) <= Scaled(b, d, s)
  {
    assert 0.0 <= a * d <= b * d;
    DivMonotone(0.0, a * d, s);
    DivMonotone(a * d, b * d, s);
  }

  lemma ScaledAbs(v: real, d: real, s: real)
    requires d > 0.0 && s > 0.0
    ensures Abs(Scaled(v, d, s)) == Scaled(Abs(v), d, s)
    ensures Scaled(v, d, s) < 0.0 <==> v < 0.0
  {
    ScaledMonotone(0.0, Abs(v), d, s);
    if v < 0.0 {
      assert (-v) * d > 0.0;
      assert (-v) * d / s > 0.0;
      assert v * d / s == -((-v) * d / s);
    } else {
      ScaledMonotone(0.0, v, d, s);
    }
  }

  lemma ScaledZero(d: real, s: real)
    requires s > 0.0
    ensures Scaled(0.0, d, s) == 0.0 && Scaled(d, 0.0, s) == 0.0
  {
  }

  // ---------------------------------------------------------------- the E2M1 scan

  lemma E2M1Thresholds(x: real)
    requires x >= 0.0
    ensures Code(E2M1, x) == 7 <==> x > 5.0
    ensures Code(E2M1, x) == 6 <==> 3.5 <= x <= 5.0
    ensures Code(E2M1, x) == 5 <==> 2.5 < x < 3.5
  {
    E2M1Increasing();
    CodeIsNearest(E2M1, x);
    var c := Code(E2M1, x);
    hide Code;
    assert Abs(x - E2M1[c]) <= Abs(x - E2M1[7]) && Abs(x - E2M1[c]) <= Abs(x - E2M1[6]);
    assert Abs(x - E2M1[c]) <= Abs(x - E2M1[5]) && Abs(x - E2M1[c]) <= Abs(x - E2M1[4]);
  }

  lemma E2M1Error(x: real)
    requires 0.0 <= x <= 7.0
    ensures Abs(x - E2M1[Code(E2M1, x)]) <= 1.0
  {
    E2M1Increasing();
    CodeIsNearest(E2M1, x);
    var c := Code(E2M1, x);
    hide Code;
    assert Abs(x - E2M1[c]) <= Abs(x - E2M1[7]) && Abs(x - E2M1[c]) <= Abs(x - E2M1[6]);
    assert Abs(x - E2M1[c]) <= Abs(x - E2M1[5]) && Abs(x - E2M1[c]) <= Abs(x - E2M1[4]);
    assert Abs(x - E2M1[c]) <= Abs(x - E2M1[2]) && Abs(x - E2M1[c]) <= Abs(x - E2M1[0]);
  }

  lemma DecodedMagnitude(x: real)
    ensures Abs(DecodeE2M1(EncodeE2M1(x))) == E2M1[Code(E2M1, Abs(x))]
    ensures DecodeE2M1(EncodeE2M1(x)) == if x < 0.0 then -E2M1[Code(E2M1, Abs(x))] else E2M1[Code(E2M1, Abs(x))]
  {
    hide Code;
    var c := Code(E2M1, Abs(x));
    assert E2M1[c] >= 0.0;
    assert (c + 8) % 8 == c && c % 8 == c;
  }

  /** Re-encoding a decoded element gives the same decoded value. */
  lemma E2M1RoundTrip(nibble: nat)
    requires nibble < 16
    ensures DecodeE2M1(EncodeE2M1(DecodeE2M1(nibble))) == DecodeE2M1(nibble)
  {
    hide Code;
    E2M1Increasing();
    var c := nibble % 8;
    GridIsFixed(E2M1, c);
    var x := DecodeE2M1(nibble);
    assert E2M1[c] >= 0.0 && Abs(x) == E2M1[c];
    DecodedMagnitude(x);
  }

  // ---------------------------------------------------------------- one block

  /** The decoded magnitude of a nonnegative normalised value. */
  function Magnitude(x: real): (m: real)
    ensures m >= 0.0
  {
    E2M1[Code(E2M1, x)]
  }

  lemma MagnitudeMonotone(x: real, y: real)
    requires x <= y
    ensures Magnitude(x) <= Magnitude(y)
  {
    E2M1Increasing();
    CodeIsMonotone(E2M1, x, y);
  }

  lemma PositiveScale(c: nat)
    requires c <= TOP
    ensures E4M3Value(c) >= 0.0 && (c > 0 <==> E4M3Value(c) > 0.0)
  {
    if c > 0 {
      UnitsIncrease(0, c);
    }
  }

  /** An element read back keeps its sign and has the magnitude its own code decodes to. */
  lemma ElementReadsBack(v: real, divisor: real, scale: nat)
    requires divisor > 0.0 && 0 < scale <= TOP && E4M3Value(scale) > 0.0
    ensures var s := E4M3Value(scale);
            Abs(ElementValue(ElementNibble(v, divisor, scale), scale, divisor))
            == Scaled(Magnitude(Scaled(Abs(v), divisor, s)), s, divisor)
  {
    hide Scaled, Code, E4M3Value;
    var s := E4M3Value(scale);
    ScaledAbs(v, divisor, s);
    DecodedMagnitude(Scaled(v, divisor, s));
    ScaledAbs(DecodeE2M1(ElementNibble(v, divisor, scale)), s, divisor);
  }

  /** The normalised block maximum. */
  function Peak(block: seq<real>, divisor: real, scale: nat): real
    requires scale <= TOP && E4M3Value(scale) > 0.0
  {
    Magnitude(Scaled(Amax(block), divisor, E4M3Value(scale)))
  }

  lemma ReadBackAt(block: seq<real>, divisor: real, k: nat)
    requires k < |block| && divisor > 0.0 && BlockScale(block, divisor) > 0
    ensures var scale := BlockScale(block, divisor);
            var r := Requantizable(block, divisor);
            && E4M3Value(scale) > 0.0
            && Abs(r[k]) <= Scaled(Peak(block, divisor, scale), E4M3Value(scale), divisor)
            && (Abs(block[k]) == Amax(block) ==> Abs(r[k]) == Scaled(Peak(block, divisor, scale), E4M3Value(scale), divisor))
  {
    hide Scaled, Code, E4M3Code, E4M3Value, Magnitude, ElementNibble, ElementValue, BlockScale, Amax;
    var scale, a, x := BlockScale(block, divisor), Amax(block), Abs(block[k]);
    PositiveScale(scale);
    var s := E4M3Value(scale);
    ElementReadsBack(block[k], divisor, scale);
    ScaledMonotone(x, a, divisor, s);
    MagnitudeMonotone(Scaled(x, divisor, s), Scaled(a, divisor, s));
    ScaledMonotone(Magnitude(Scaled(x, divisor, s)), Magnitude(Scaled(a, divisor, s)), s, divisor);
  }

  lemma MaximumAt(block: seq<real>) returns (i: nat)
    requires block != []
    ensures i < |block| && Abs(block[i]) == Amax(block)
  {
    hide Amax;
    if Amax(block) == 0.0 {
      i := 0;
    } else {
      i :| 0 <= i < |block| && Abs(block[i]) == Amax(block);
    }
  }

  /** The read-back block's maximum is the read-back of the maximum. */
  lemma PeakIsReadBackMaximum(block: seq<real>, divisor: real)
    requires block != [] && divisor > 0.0 && BlockScale(block, divisor) > 0
    ensures var scale := BlockScale(block, divisor);
            && E4M3Value(scale) > 0.0
            && Amax(Requantizable(block, divisor)) == Scaled(Peak(block, divisor, scale), E4M3Value(scale), divisor)
  {
    hide *;
    var r := Requantizable(block, divisor);
    forall k | 0 <= k < |block|
      ensures E4M3Value(BlockScale(block, divisor)) > 0.0
      ensures Abs(r[k]) <= Scaled(Peak(block, divisor, BlockScale(block, divisor)), E4M3Value(BlockScale(block, divisor)), divisor)
    {
      ReadBackAt(block, divisor, k);
    }
    var i := MaximumAt(block);
    ReadBackAt(block, divisor, i);
    AmaxIs(r, Scaled(Peak(block, divisor, BlockScale(block, divisor)), E4M3Value(BlockScale(block, divisor)), divisor), i);
  }

  lemma ZeroScaleReadsZero(block: seq<real>, divisor: real)
    requires block != [] && divisor > 0.0 && BlockScale(block, divisor) == 0
    ensures Amax(Requantizable(block, divisor)) == 0.0
  {
    hide Code, E4M3Code, Amax, Scaled;
    PositiveScale(0);
    var r := Requantizable(block, divisor);
    forall k | 0 <= k < |block|
      ensures Abs(r[k]) == 0.0
    {
      ScaledZero(DecodeE2M1(ElementNibble(block[k], divisor, 0)), divisor);
    }
    AmaxIs(r, 0.0, 0);
  }

  /** The scale input that a block maximum of `m` grid units at scale `s` leads to. */
  function InputOf(m: real, s: real): real {
    m * s / 6.0
  }

  /** The input to the second choice of scale: it depends on the peak alone. */
  function SecondInput(block: seq<real>, divisor: real): real {
    var scale := BlockScale(block, divisor);
    if E4M3Value(scale) > 0.0 then InputOf(Peak(block, divisor, scale), E4M3Value(scale)) else 0.0
  }

  lemma SecondScale(block: seq<real>, divisor: real)
    requires block != [] && divisor > 0.0
    ensures BlockScale(Requantizable(block, divisor), divisor) == E4M3Code(SecondInput(block, divisor))
  {
    hide Code, E4M3Code, Amax, Scaled, Peak, Requantizable, E4M3Value, ScaleInput, InputOf;
    var scale := BlockScale(block, divisor);
    PositiveScale(scale);
    if scale == 0 {
      ZeroScaleReadsZero(block, divisor);
      assert ScaleInput(0.0, divisor) == 0.0 by { ScaleInputZero(divisor); }
    } else {
      PeakIsReadBackMaximum(block, divisor);
      ScaleOfPeak(Peak(block, divisor, scale), E4M3Value(scale), divisor);
      assert ScaleInput(Amax(Requantizable(block, divisor)), divisor) == SecondInput(block, divisor);
    }
  }

  lemma ScaleInputZero(divisor: real)
    ensures ScaleInput(0.0, divisor) == 0.0
  {
  }

  lemma ElementIsStable(v: real, divisor: real, scale: nat)
    requires divisor > 0.0 && scale <= TOP
    ensures var w := ElementValue(ElementNibble(v, divisor, scale), scale, divisor);
            ElementValue(ElementNibble(w, divisor, scale), scale, divisor) == w
  {
    hide Code, Scaled, E4M3Value, DecodeE2M1, EncodeE2M1;
    PositiveScale(scale);
    var s, nibble := E4M3Value(scale), ElementNibble(v, divisor, scale);
    if s > 0.0 {
      ScaledBack(DecodeE2M1(nibble), s, divisor);
      E2M1RoundTrip(nibble);
    } else {
      ScaledZero(DecodeE2M1(nibble), divisor);
      ScaledZero(DecodeE2M1(ElementNibble(0.0, divisor, scale)), divisor);
    }
  }

  /** With an unchanged scale the elements do not change either. */
  lemma SameScaleSameValues(block: seq<real>, divisor: real)
    requires divisor > 0.0
    requires BlockScale(Requantizable(block, divisor), divisor) == BlockScale(block, divisor)
    ensures Requantizable(Requantizable(block, divisor), divisor) == Requantizable(block, divisor)
  {
    hide ElementNibble, ElementValue, BlockScale;
    var scale := BlockScale(block, divisor);
    var r := Requantizable(block, divisor);
    var rr := Requantizable(r, divisor);
    forall k | 0 <= k < |block|
      ensures rr[k] == r[k]
    {
      ElementIsStable(block[k], divisor, scale);
    }
  }

  // ---------------------------------------------------------------- exactly when stable

  lemma SmallUnits()
    ensures Units(0) == 0 && Units(1) == 1 && Units(2) == 2 && Units(3) == 3
  {
  }

  /** In units of the smallest scale step: where the first choice of scale is 1 or 2 but the
      block maximum then rounds too far down. */
  predicate Unstable(amax: real, divisor: real) {
    var u := UNIT * ScaleInput(amax, divisor);
    (1.0 / 2.0 < u < 7.0 / 12.0) || (3.0 / 2.0 <= u <= 5.0 / 3.0)
  }

  /** From code 3 on a code's lower neighbour has at least two thirds of its value. */
  lemma NeighbourRatio(c: nat)
    requires 3 <= c <= TOP
    ensures 3 * Units(c - 1) >= 2 * Units(c) && (c > 3 ==> 3 * Units(c - 1) > 2 * Units(c))
    ensures c < TOP ==> 3 * Units(c + 1) <= 4 * Units(c)
  {
    UnitsStep(c - 1);
    if c < TOP {
      UnitsStep(c);
    }
  }

  /** From scale code 3 on the scale is below six fifths of what it was chosen for. */
  lemma ScaleBelowInput(t: real)
    requires t >= 0.0 && E4M3Code(t) >= 3
    ensures 5.0 * E4M3Value(E4M3Code(t)) < 6.0 * t
  {
    var c := E4M3Code(t);
    TopIs448();
    if t < 448.0 {
      E4M3PreimageBelow(t);
      NeighbourRatio(c);
      hide Units, E4M3Code;
      var below, own := Units(c - 1), Units(c);
      assert 3 * below >= 2 * own && (c > 3 ==> 3 * below > 2 * own);
      assert 3.0 * (below + own) as real >= 5.0 * own as real;
      assert c > 3 ==> 3.0 * (below + own) as real > 5.0 * own as real;
      assert own as real == UNIT * E4M3Value(c);
    }
  }

  /** The key step: from scale code 3 on the block maximum always encodes to magnitude 6. */
  lemma PeakIsSix(t: real)
    requires t >= 0.0 && E4M3Code(t) >= 3
    ensures var s := E4M3Value(E4M3Code(t)); s > 0.0 && Magnitude(6.0 * t / s) == 6.0
  {
    hide E4M3Code, E4M3Value, Code;
    ScaleBelowInput(t);
    PositiveScale(E4M3Code(t));
    var s := E4M3Value(E4M3Code(t));
    QuotientAbove(6.0 * t, s, 5.0);
    E2M1Thresholds(6.0 * t / s);
  }

  lemma QuotientAbove(x: real, s: real, k: real)
    requires s > 0.0 && k * s < x
    ensures k < x / s
  {
    assert (x - k * s) / s > 0.0;
    assert (x - k * s) / s == x / s - k;
  }

  lemma SmallScale(c: nat)
    requires 1 <= c <= 2
    ensures E4M3Value(c) == c as real / 512.0
  {
    SmallUnits();
  }

  lemma SixOver(t: real, c: nat)
    requires 1 <= c <= 2
    ensures E4M3Value(c) > 0.0 && 6.0 * t / E4M3Value(c) == 6.0 * (UNIT * t) / c as real
  {
    SmallScale(c);
  }

  /** The second choice of scale as a function of the first input `t`. */
  function SecondCode(t: real): nat {
    var s := E4M3Value(E4M3Code(t));
    E4M3Code(if s > 0.0 then InputOf(Magnitude(6.0 * t / s), s) else 0.0)
  }

  lemma SecondCodeZero(t: real)
    requires t >= 0.0 && E4M3Code(t) == 0
    ensures SecondCode(t) == 0 && UNIT * t <= 1.0 / 2.0
  {
    TopIs448();
    SmallUnits();
    E4M3RoundTrip(0);
    E4M3PreimageAbove(t);
  }

  lemma SecondCodeLarge(t: real)
    requires t >= 0.0 && E4M3Code(t) >= 3
    ensures SecondCode(t) == E4M3Code(t) && UNIT * t > 5.0 / 3.0
  {
    hide Units, Code, Magnitude;
    SmallUnits();
    TopIs448();
    PeakIsSix(t);
    E4M3RoundTrip(E4M3Code(t));
    if t < 448.0 {
      E4M3PreimageBelow(t);
      PairsIncrease(2, E4M3Code(t) - 1);
    }
  }

  lemma MagnitudeBands(x: real)
    requires x >= 0.0
    ensures 2.5 < x < 3.5 ==> Magnitude(x) == 3.0
    ensures 3.5 <= x <= 5.0 ==> Magnitude(x) == 4.0
    ensures x > 5.0 ==> Magnitude(x) == 6.0
  {
    E2M1Thresholds(x);
  }

  /** What the second choice makes of a block maximum of 3, 4 or 6 grid units at scales 1 and 2. */
  lemma SecondChoices()
    ensures E4M3Code(InputOf(3.0, E4M3Value(1))) != 1
    ensures E4M3Code(InputOf(4.0, E4M3Value(1))) == 1
    ensures E4M3Code(InputOf(6.0, E4M3Value(1))) == 1
    ensures E4M3Code(InputOf(4.0, E4M3Value(2))) != 2
    ensures E4M3Code(InputOf(6.0, E4M3Value(2))) == 2
  {
    SmallUnits();
    TopIs448();
    SmallScale(1);
    SmallScale(2);
    hide E4M3Code;
    E4M3RoundTrip(1);
    E4M3RoundTrip(2);
    E4M3Window(4.0 / 3072.0, 1);
    NotOne(3.0 / 3072.0);
    NotTwo(8.0 / 3072.0);
  }

  lemma NotOne(y: real)
    requires y == 3.0 / 3072.0
    ensures E4M3Code(y) != 1
  {
    SmallUnits();
    if E4M3Code(y) == 1 {
      E4M3PreimageBelow(y);
    }
  }

  lemma NotTwo(y: real)
    requires y == 8.0 / 3072.0
    ensures E4M3Code(y) != 2
  {
    SmallUnits();
    if E4M3Code(y) == 2 {
      E4M3PreimageBelow(y);
    }
  }

  lemma SmallInputBand(t: real, c: nat)
    requires t >= 0.0 && E4M3Code(t) == c && 1 <= c <= 2
    ensures c == 1 ==> 1.0 / 2.0 < UNIT * t < 3.0 / 2.0
    ensures c == 2 ==> 3.0 / 2.0 <= UNIT * t <= 5.0 / 2.0
  {
    SmallUnits();
    TopIs448();
    E4M3PreimageBelow(t);
    E4M3PreimageAbove(t);
  }

  lemma SecondCodeOne(t: real)
    requires t >= 0.0 && E4M3Code(t) == 1
    ensures 1.0 / 2.0 < UNIT * t < 3.0 / 2.0
    ensures SecondCode(t) == 1 <==> UNIT * t >= 7.0 / 12.0
  {
    hide Units, E4M3Code, E4M3Value, Magnitude, InputOf;
    SmallInputBand(t, 1);
    SixOver(t, 1);
    MagnitudeBands(6.0 * t / E4M3Value(1));
    SecondChoices();
  }

  lemma SecondCodeTwo(t: real)
    requires t >= 0.0 && E4M3Code(t) == 2
    ensures 3.0 / 2.0 <= UNIT * t <= 5.0 / 2.0
    ensures SecondCode(t) == 2 <==> UNIT * t > 5.0 / 3.0
  {
    hide Units, E4M3Code, E4M3Value, Magnitude, InputOf;
    SmallInputBand(t, 2);
    SixOver(t, 2);
    MagnitudeBands(6.0 * t / E4M3Value(2));
    SecondChoices();
  }

  lemma SecondScaleIsSecondCode(block: seq<real>, divisor: real)
    requires block != [] && divisor > 0.0
    ensures BlockScale(Requantizable(block, divisor), divisor) == SecondCode(ScaleInput(Amax(block), divisor))
  {
    hide E4M3Code, E4M3Value, Magnitude, Amax, ScaleInput, Requantizable, Scaled, InputOf;
    var t := ScaleInput(Amax(block), divisor);
    var s := E4M3Value(BlockScale(block, divisor));
    SecondScale(block, divisor);
    if s > 0.0 {
      ScaledIsRatio(Amax(block), divisor, s);
      assert Peak(block, divisor, BlockScale(block, divisor)) == Magnitude(6.0 * t / s);
    }
  }

  /** Main result: quantising a read-back block gives the same scale byte and the same values
      exactly when the block is not in one of two narrow bands of very small maxima.  In
      particular it does for scale code 0 and for every code from 3 on, saturated ones included. */
  lemma StableExactly(block: seq<real>, divisor: real)
    requires block != [] && divisor > 0.0
    ensures var r := Requantizable(block, divisor);
            && (BlockScale(r, divisor) == BlockScale(block, divisor) && Requantizable(r, divisor) == r
                <==> !Unstable(Amax(block), divisor))
            && (Unstable(Amax(block), divisor) ==> 1 <= BlockScale(block, divisor) <= 2)
  {
    hide Units, Code, E4M3Code, E4M3Value, Magnitude, Amax, ScaleInput, Requantizable, Scaled;
    var a := Amax(block);
    var t := ScaleInput(a, divisor);
    var scale := BlockScale(block, divisor);
    InputNonNegative(a, divisor);
    SecondScaleIsSecondCode(block, divisor);
    if scale == 0 {
      SecondCodeZero(t);
    } else if scale == 1 {
      SecondCodeOne(t);
    } else if scale == 2 {
      SecondCodeTwo(t);
    } else {
      SecondCodeLarge(t);
    }
    if SecondCode(t) == scale {
      SameScaleSameValues(block, divisor);
    }
  }

  lemma InputNonNegative(a: real, divisor: real)
    requires a >= 0.0 && divisor > 0.0
    ensures ScaleInput(a, divisor) >= 0.0
  {
  }

  // ---------------------------------------------------------------- reconstruction error

  /** Below saturation the peak stays under 7, so no element is cut off by more than 1. */
  lemma PeakBelowSeven(t: real)
    requires 0.0 <= t < 448.0 && E4M3Code(t) >= 3
    ensures var s := E4M3Value(E4M3Code(t)); s > 0.0 && 6.0 * t <= 7.0 * s
  {
    var c := E4M3Code(t);
    TopIs448();
    PositiveScale(c);
    if c < TOP {
      E4M3PreimageAbove(t);
      NeighbourRatio(c);
      hide Units, E4M3Code;
      var own, above := Units(c), Units(c + 1);
      assert 3.0 * (own + above) as real <= 7.0 * own as real;
      assert own as real == UNIT * E4M3Value(c);
    }
  }

  lemma ScaledDifference(v: real, m: real, s: real, d: real)
    requires s > 0.0 && d > 0.0
    ensures v - Scaled(m, s, d) == Scaled(Scaled(v, d, s) - m, s, d)
  {
    var x := v * d / s;
    assert x * s == v * d;
    assert (x - m) * s == v * d - m * s;
    assert (v * d - m * s) / d == v - m * s / d;
  }

  lemma ScaledUnit(e: real, s: real, d: real)
    requires s > 0.0 && d > 0.0 && Abs(e) <= 1.0
    ensures Abs(Scaled(e, s, d)) <= s / d
  {
    ScaledAbs(e, s, d);
    ScaledMonotone(Abs(e), 1.0, s, d);
  }

  lemma SignedError(x: real)
    requires Abs(x) <= 7.0
    ensures Abs(x - DecodeE2M1(EncodeE2M1(x))) <= 1.0
  {
    hide Code, DecodeE2M1, EncodeE2M1;
    E2M1Error(Abs(x));
    DecodedMagnitude(x);
  }

  lemma ScaleWithinFifth(a: real, d: real, s: real)
    requires d > 0.0 && 5.0 * s < 6.0 * ScaleInput(a, d)
    ensures s / d <= a / 5.0
  {
    assert 6.0 * (a / 6.0 * d) == a * d;
    assert (a * d - 5.0 * s) / d > 0.0;
    assert (a * d - 5.0 * s) / d == a - 5.0 * (s / d);
  }

  lemma NormalizedBelowSeven(v: real, a: real, d: real, s: real)
    requires Abs(v) <= a && d > 0.0 && s > 0.0 && 6.0 * ScaleInput(a, d) <= 7.0 * s
    ensures Abs(Scaled(v, d, s)) <= 7.0
  {
    ScaledAbs(v, d, s);
    ScaledMonotone(Abs(v), a, d, s);
    ScaledIsRatio(a, d, s);
    DivMonotone(6.0 * ScaleInput(a, d), 7.0 * s, s);
    assert 7.0 * s / s == 7.0;
  }

  /** Main result: with an unsaturated scale of code 3 or more, every element is reconstructed to
      within one scale step, hence to within a fifth of the block maximum. */
  lemma ReconstructionError(block: seq<real>, divisor: real, k: nat)
    requires k < |block| && divisor > 0.0
    requires BlockScale(block, divisor) >= 3 && ScaleInput(Amax(block), divisor) < 448.0
    ensures var s := E4M3Value(BlockScale(block, divisor));
            var error := Abs(block[k] - Requantizable(block, divisor)[k]);
            error <= s / divisor && error <= Amax(block) / 5.0
  {
    hide Units, Code, E4M3Code, E4M3Value, Amax, ScaleInput, Scaled, EncodeE2M1, DecodeE2M1;
    var a, v := Amax(block), block[k];
    var t, scale := ScaleInput(a, divisor), BlockScale(block, divisor);
    var s := E4M3Value(scale);
    InputNonNegative(a, divisor);
    PeakBelowSeven(t);
    ScaleBelowInput(t);
    NormalizedBelowSeven(v, a, divisor, s);
    var x := Scaled(v, divisor, s);
    var m := DecodeE2M1(EncodeE2M1(x));
    SignedError(x);
    ScaledDifference(v, m, s, divisor);
    ScaledUnit(x - m, s, divisor);
    ScaleWithinFifth(a, divisor, s);
  }
}
