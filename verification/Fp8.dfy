/** Per-token FP8 quantisation in exact arithmetic. */
module Fp8 {
  import opened Wrappers
  import opened Minifloat
  import opened Nvfp4
  import opened Nvfp4Storage
  import opened Words

  datatype QuantizedToken = QuantizedToken(logicalElements: nat, scale: Float, values: seq<Octet>)

  function TokenScale(activation: seq<real>): (s: real)
    ensures s > 0.0
  {
    var amax := Amax(activation);
    if amax == 0.0 then 1.0 else amax / 448.0
  }

  /** `EncodeE4M3Fn`. */
  function EncodeE4M3Fn(x: real): (bits: Octet)
    ensures IsFiniteE4M3Fn(bits)
  {
    SignedIsFinite(E4M3Code(Abs(x)));
    E4M3Code(Abs(x)) + (if x < 0.0 then 128 else 0)
  }

  lemma SignedIsFinite(c: nat)
    requires c <= TOP
    ensures IsFiniteE4M3Fn(c) && IsFiniteE4M3Fn(c + 128)
  {
  }

  function Quotient(value: real, scale: real): real
    requires scale > 0.0
  {
    value / scale
  }

  function Rescaled(value: real, scale: real): real {
    value * scale
  }

  /** The value a normalised number is coded as. */
  function Rounded(x: real): real {
    DecodeE4M3Fn(EncodeE4M3Fn(x))
  }

  /** What `value` reads back as when coded at `scale`. */
  function ReadBack(value: real, scale: real): real
    requires scale > 0.0
  {
    Rescaled(Rounded(Quotient(value, scale)), scale)
  }

  function TokenReadBack(activation: seq<real>): (r: seq<real>)
    ensures |r| == |activation|
  {
    var scale := TokenScale(activation);
    seq(|activation|, i requires 0 <= i < |activation| => ReadBack(activation[i], scale))
  }

  /** `QuantizeToken`. */
  method QuantizeToken(input: seq<Float>) returns (r: Result<QuantizedToken>)
    ensures r.Ok? <==> input != [] && Numbers(input)
    ensures r.Err? ==> r.code == InvalidArgument
    ensures r.Ok? ==>
      var activation := Values(input);
      && r.value.logicalElements == |activation| == |r.value.values| && r.value.scale == Number(TokenScale(activation))
      && forall i :: 0 <= i < |activation| ==>
           && IsFiniteE4M3Fn(r.value.values[i])
           && Rescaled(DecodeE4M3Fn(r.value.values[i]), TokenScale(activation)) == TokenReadBack(activation)[i]
  {
    if input == [] {
      return Err(InvalidArgument);
    }
    hide DecodeE4M3Fn, EncodeE4M3Fn, Quotient, Rescaled, IsFiniteE4M3Fn;
    var maximum := AbsoluteMaximum(input);
    if maximum.Err? {
      return Err(InvalidArgument);
    }
    var amax := maximum.value;
    var activation := Values(input);
    var scale := if amax == 0.0 then 1.0 else amax / 448.0;
    var values: seq<Octet> := [];
    for k := 0 to |activation|
      invariant |values| == k
      invariant forall i :: 0 <= i < k ==> values[i] == EncodeE4M3Fn(Quotient(activation[i], scale))
    {
      values := values + [EncodeE4M3Fn(Quotient(activation[k], scale))];
    }
    return Ok(QuantizedToken(|activation|, Number(scale), values));
  }

  lemma QuotientAbs(v: real, s: real)
    requires s > 0.0
    ensures Abs(Quotient(v, s)) == Quotient(Abs(v), s) && (Quotient(v, s) < 0.0 <==> v < 0.0)
  {
    DivMonotone(0.0, Abs(v), s);
    if v < 0.0 {
      assert v / s * s == v;
      assert v / s == -((-v) / s);
    } else {
      DivMonotone(0.0, v, s);
    }
  }

  lemma ProductAbs(y: real, s: real, bound: real)
    requires s > 0.0 && Abs(y) <= bound
    ensures Abs(Rescaled(y, s)) == Rescaled(Abs(y), s) <= Rescaled(bound, s)
  {
    assert (bound - Abs(y)) * s >= 0.0;
    assert y < 0.0 ==> y * s == -(-y * s) && -y * s >= 0.0;
    assert y >= 0.0 ==> y * s >= 0.0;
  }

  lemma QuotientOfProduct(y: real, s: real)
    requires s > 0.0
    ensures Quotient(Rescaled(y, s), s) == y
  {
  }

  lemma ProductOfQuotient(v: real, s: real)
    requires s > 0.0
    ensures Rescaled(Quotient(v, s), s) == v
  {
  }

  lemma ProductOfDifference(x: real, y: real, s: real)
    ensures Rescaled(x, s) - Rescaled(y, s) == Rescaled(x - y, s)
  {
  }

  /** Dividing by amax / 448 maps the maximum to exactly 448. */
  lemma QuotientBound(a: real, amax: real)
    requires 0.0 <= a <= amax && amax > 0.0
    ensures 0.0 <= Quotient(a, amax / 448.0) <= 448.0
    ensures a == amax ==> Quotient(a, amax / 448.0) == 448.0
    ensures Rescaled(448.0, amax / 448.0) == amax
  {
    var s := amax / 448.0;
    DivMonotone(0.0, a, s);
    DivMonotone(a, amax, s);
    assert amax == 448.0 * s;
    assert 448.0 * s / s == 448.0;
  }

  lemma DecodeSigned(c: nat)
    requires c <= TOP
    ensures IsFiniteE4M3Fn(c) && DecodeE4M3Fn(c) == E4M3Value(c)
    ensures IsFiniteE4M3Fn(c + 128) && DecodeE4M3Fn(c + 128) == -E4M3Value(c)
  {
    hide E4M3Value;
    assert (c + 128) % 128 == c && c % 128 == c;
  }

  /** Rounding keeps the sign and rounds the magnitude. */
  lemma RoundedMagnitude(x: real)
    ensures Rounded(x) == if x < 0.0 then -E4M3Value(E4M3Code(Abs(x))) else E4M3Value(E4M3Code(Abs(x)))
    ensures Abs(Rounded(x)) == E4M3Value(E4M3Code(Abs(x)))
  {
    hide E4M3Value, E4M3Code, DecodeE4M3Fn, IsFiniteE4M3Fn;
    DecodeSigned(E4M3Code(Abs(x)));
    PositiveScale(E4M3Code(Abs(x)));
  }

  lemma RoundedIsFixed(x: real)
    ensures Rounded(Rounded(x)) == Rounded(x)
  {
    var c := E4M3Code(Abs(x));
    RoundedMagnitude(x);
    E4M3RoundTrip(c);
    PositiveScale(c);
    RoundedMagnitude(Rounded(x));
  }

  /** Nothing saturates: every normalised magnitude is at most the largest code's value. */
  lemma TokenNeverSaturates(activation: seq<real>, k: nat)
    requires k < |activation|
    ensures Abs(Quotient(activation[k], TokenScale(activation))) <= 448.0
  {
    hide Quotient, Rescaled;
    var amax, v := Amax(activation), activation[k];
    QuotientAbs(v, TokenScale(activation));
    if amax > 0.0 {
      QuotientBound(Abs(v), amax);
    } else {
      assert Abs(v) == 0.0;
      ProductOfQuotient(Abs(v), 1.0);
      QuotientOfProduct(0.0, 1.0);
      assert Rescaled(0.0, 1.0) == 0.0 by { ProductZero(1.0); }
    }
  }

  lemma ProductZero(s: real)
    ensures Rescaled(0.0, s) == 0.0
  {
  }

  lemma RoundingError(x: real)
    requires Abs(x) <= 448.0
    ensures Abs(x - Rounded(x)) <= 16.0
  {
    hide E4M3Value, E4M3Code, Rounded;
    E4M3Error(Abs(x));
    RoundedMagnitude(x);
  }

  /** Main result: every element is reconstructed to within amax / 28. */
  lemma TokenError(activation: seq<real>, k: nat)
    requires k < |activation|
    ensures Abs(activation[k] - TokenReadBack(activation)[k]) <= Amax(activation) / 28.0
  {
    hide Rounded, Amax, Rescaled, Quotient, ReadBack, Abs, TokenScale, TokenReadBack;
    var v, s := activation[k], TokenScale(activation);
    ReadBackAt(activation, k);
    if Amax(activation) == 0.0 {
      ZeroReadsZero(s);
      OnlyZeros(activation, k);
    } else {
      TokenNeverSaturates(activation, k);
      ElementError(v, s);
      SixteenScales(Amax(activation));
    }
  }

  lemma ReadBackAt(activation: seq<real>, k: nat)
    requires k < |activation|
    ensures TokenReadBack(activation)[k] == ReadBack(activation[k], TokenScale(activation))
    ensures Amax(activation) != 0.0 ==> TokenScale(activation) == Amax(activation) / 448.0
  {
    hide ReadBack, Amax;
  }

  lemma OnlyZeros(activation: seq<real>, k: nat)
    requires k < |activation| && Amax(activation) == 0.0
    ensures activation[k] == 0.0 && Abs(0.0) == 0.0
  {
    assert Abs(activation[k]) <= 0.0;
  }

  lemma ElementError(v: real, s: real)
    requires s > 0.0 && Abs(Quotient(v, s)) <= 448.0
    ensures Abs(v - ReadBack(v, s)) <= Rescaled(16.0, s)
  {
    hide Rounded, Rescaled, Quotient;
    var x := Quotient(v, s);
    RoundingError(x);
    ProductOfQuotient(v, s);
    ProductOfDifference(x, Rounded(x), s);
    ProductAbs(x - Rounded(x), s, 16.0);
  }

  lemma SixteenScales(amax: real)
    ensures Rescaled(16.0, amax / 448.0) == amax / 28.0
  {
  }

  lemma ZeroReadsZero(s: real)
    requires s > 0.0
    ensures ReadBack(0.0, s) == 0.0
  {
    hide E4M3Code, Rounded, Rescaled, Quotient;
    E4M3RoundTrip(0);
    QuotientOfProduct(0.0, s);
    ProductZero(s);
    RoundedMagnitude(0.0);
  }

  lemma ReadBackIsFixed(v: real, s: real)
    requires s > 0.0
    ensures ReadBack(ReadBack(v, s), s) == ReadBack(v, s)
  {
    hide Rounded, Rescaled, Quotient;
    QuotientOfProduct(Rounded(Quotient(v, s)), s);
    RoundedIsFixed(Quotient(v, s));
  }

  lemma RoundedBelowTop(x: real)
    ensures Abs(Rounded(x)) <= 448.0
    ensures Abs(x) == 448.0 ==> Abs(Rounded(x)) == 448.0
  {
    var c := E4M3Code(Abs(x));
    RoundedMagnitude(x);
    TopIs448();
    if c < TOP {
      UnitsIncrease(c, TOP);
    }
  }

  lemma ReadBackBound(v: real, amax: real)
    requires Abs(v) <= amax && amax > 0.0
    ensures Abs(ReadBack(v, amax / 448.0)) <= amax
    ensures Abs(v) == amax ==> Abs(ReadBack(v, amax / 448.0)) == amax
  {
    hide Rounded, Rescaled, Quotient;
    var s := amax / 448.0;
    var x := Quotient(v, s);
    QuotientAbs(v, s);
    QuotientBound(Abs(v), amax);
    RoundedBelowTop(x);
    ProductAbs(Rounded(x), s, 448.0);
  }

  /** The read-back token has the same maximum, hence the same scale. */
  lemma ScaleIsStable(activation: seq<real>)
    requires activation != []
    ensures TokenScale(TokenReadBack(activation)) == TokenScale(activation)
  {
    hide Amax, ReadBack;
    var amax, s := Amax(activation), TokenScale(activation);
    var r := TokenReadBack(activation);
    if amax == 0.0 {
      forall k | 0 <= k < |r|
        ensures Abs(r[k]) == 0.0
      {
        assert Abs(activation[k]) <= 0.0;
        ZeroReadsZero(s);
      }
      AmaxIs(r, 0.0, 0);
    } else {
      var i := MaximumAt(activation);
      forall k | 0 <= k < |r|
        ensures Abs(r[k]) <= amax && (k == i ==> Abs(r[k]) == amax)
      {
        ReadBackBound(activation[k], amax);
      }
      AmaxIs(r, amax, i);
    }
  }

  /** Main result: FP8 token quantisation is idempotent for every token. */
  lemma TokenIsStable(activation: seq<real>)
    requires activation != []
    ensures TokenScale(TokenReadBack(activation)) == TokenScale(activation)
    ensures TokenReadBack(TokenReadBack(activation)) == TokenReadBack(activation)
  {
    hide ReadBack, TokenScale;
    ScaleIsStable(activation);
    var r := TokenReadBack(activation);
    forall k | 0 <= k < |r|
      ensures TokenReadBack(r)[k] == r[k]
    {
      ReadBackIsFixed(activation[k], TokenScale(activation));
    }
  }

  // ---------------------------------------------------------------- the oracle

  /** The magnitude behind the low 15 bits, in units of 2^-133. */
  function Bf16Units(exponent: nat, mantissa: nat): nat {
    if exponent == 0 then mantissa else (128 + mantissa) * Pow2(exponent - 1)
  }

  /** `DecodeBf16`: a sign bit, 8 exponent bits and 7 mantissa bits. */
  function DecodeBf16(bits: nat): Float
    requires bits < 0x1_0000
  {
    var negative := bits >= 0x8000;
    var exponent, mantissa := bits % 0x8000 / 128, bits % 128;
    if exponent == 255 then if mantissa == 0 then Infinity(negative) else NotANumber
    else
      var magnitude := Bf16Units(exponent, mantissa) as real / Pow2(133) as real;
      Number(if negative then -magnitude else magnitude)
  }

  /** The positive finite values have exactly the patterns between zero and the positive infinity;
      every other pattern is a zero, a negative value, an infinity or no number. */
  lemma PositiveBf16(bits: nat)
    requires bits < 0x1_0000
    ensures IsPositive(DecodeBf16(bits)) <==> 0 < bits < 0x7F80
  {
    hide Bf16Units, Pow2;
    var exponent, mantissa := bits % 0x8000 / 128, bits % 128;
    PatternFields(bits);
    UnitsPositive(exponent, mantissa);
    PositiveQuotient(Bf16Units(exponent, mantissa), Pow2(133));
  }

  lemma PatternFields(bits: nat)
    requires bits < 0x1_0000
    ensures var exponent, mantissa := bits % 0x8000 / 128, bits % 128;
            0 < bits < 0x7F80 <==> bits < 0x8000 && exponent < 255 && (exponent > 0 || mantissa > 0)
  {
    assert bits >= 0x8000 ==> bits % 0x8000 == bits - 0x8000;
  }

  lemma UnitsPositive(exponent: nat, mantissa: nat)
    ensures Bf16Units(exponent, mantissa) > 0 <==> exponent > 0 || mantissa > 0
  {
    hide Pow2;
    if exponent > 0 {
      PositiveProduct(128 + mantissa, Pow2(exponent - 1));
    }
  }

  lemma PositiveProduct(a: nat, b: nat)
    requires a > 0 && b > 0
    ensures a * b > 0
  {
  }

  lemma PositiveQuotient(a: nat, b: nat)
    requires b > 0
    ensures a as real / b as real >= 0.0
    ensures a as real / b as real > 0.0 <==> a > 0
  {
  }

  predicate AllFinite(values: seq<Octet>) {
    forall k :: 0 <= k < |values| ==> IsFiniteE4M3Fn(values[k])
  }

  /** The inner product of the coded values, over the first `n` elements. */
  function CodedDot(a: seq<Octet>, w: seq<Octet>, n: nat): real
    requires AllFinite(a) && AllFinite(w) && n <= |a| && n <= |w|
  {
    if n == 0 then 0.0 else CodedDot(a, w, n - 1) + Rescaled(DecodeE4M3Fn(a[n - 1]), DecodeE4M3Fn(w[n - 1]))
  }

  /** The inner product of the dequantised vectors. */
  function DequantizedTokenDot(a: seq<Octet>, w: seq<Octet>, scaleA: real, scaleW: real, n: nat): real
    requires AllFinite(a) && AllFinite(w) && n <= |a| && n <= |w|
  {
    if n == 0 then 0.0
    else DequantizedTokenDot(a, w, scaleA, scaleW, n - 1)
         + Rescaled(Rescaled(DecodeE4M3Fn(a[n - 1]), scaleA), Rescaled(DecodeE4M3Fn(w[n - 1]), scaleW))
  }

  lemma ScaleOut(acc: real, x: real, y: real, s: real, t: real)
    ensures Rescaled(Rescaled(acc + Rescaled(x, y), s), t)
         == Rescaled(Rescaled(acc, s), t) + Rescaled(Rescaled(x, s), Rescaled(y, t))
  {
    assert (acc + x * y) * s * t == acc * s * t + x * y * s * t;
    assert x * y * s * t == (x * s) * (y * t);
  }

  /** Scaling once at the end is dequantising every element first. */
  lemma {:induction false} DotOfDequantizedTokens(a: seq<Octet>, w: seq<Octet>, scaleA: real, scaleW: real, n: nat)
    requires AllFinite(a) && AllFinite(w) && n <= |a| && n <= |w|
    ensures Rescaled(Rescaled(CodedDot(a, w, n), scaleA), scaleW) == DequantizedTokenDot(a, w, scaleA, scaleW, n)
  {
    hide Rescaled, DecodeE4M3Fn, IsFiniteE4M3Fn;
    if n == 0 {
      ProductZero(scaleA);
      ProductZero(scaleW);
    } else {
      DotOfDequantizedTokens(a, w, scaleA, scaleW, n - 1);
      ScaleOut(CodedDot(a, w, n - 1), DecodeE4M3Fn(a[n - 1]), DecodeE4M3Fn(w[n - 1]), scaleA, scaleW);
    }
  }

  /** `ReferenceDotProduct`: the inner product of the dequantised token and weight row. */
  method ReferenceDotProduct(a: QuantizedToken, weight: seq<Octet>, weightScale: nat) returns (r: Result<real>)
    requires weightScale < 0x1_0000
    ensures r.Ok? <==>
      && a.logicalElements != 0 && |a.values| == |weight| == a.logicalElements
      && IsPositive(a.scale) && 0 < weightScale < 0x7F80 && AllFinite(a.values) && AllFinite(weight)
    ensures r.Ok? ==> r.value == DequantizedTokenDot(a.values, weight, a.scale.value, DecodeBf16(weightScale).value, |weight|)
    ensures r.Err? ==> r.code == InvalidArgument
  {
    hide Rescaled, DecodeE4M3Fn, IsFiniteE4M3Fn, DecodeBf16, CodedDot, DequantizedTokenDot;
    if a.logicalElements == 0 || |a.values| != a.logicalElements || |weight| != a.logicalElements {
      return Err(InvalidArgument);
    }
    if !a.scale.Number? || a.scale.value <= 0.0 {
      return Err(InvalidArgument);
    }
    var decoded := DecodeBf16(weightScale);
    PositiveBf16(weightScale);
    if !decoded.Number? || decoded.value <= 0.0 {
      return Err(InvalidArgument);
    }
    var accumulator := 0.0;
    NoCodes(a.values, weight);
    for index := 0 to |weight|
      invariant forall k :: 0 <= k < index ==> IsFiniteE4M3Fn(a.values[k]) && IsFiniteE4M3Fn(weight[k])
      invariant AllFinite(a.values) && AllFinite(weight) ==> accumulator == CodedDot(a.values, weight, index)
    {
      if !IsFiniteE4M3Fn(a.values[index]) || !IsFiniteE4M3Fn(weight[index]) {
        return Err(InvalidArgument);
      }
      if AllFinite(a.values) && AllFinite(weight) {
        CodedStep(a.values, weight, index);
      }
      accumulator := accumulator + Rescaled(DecodeE4M3Fn(a.values[index]), DecodeE4M3Fn(weight[index]));
    }
    DotOfDequantizedTokens(a.values, weight, a.scale.value, decoded.value, |weight|);
    return Ok(Rescaled(Rescaled(accumulator, a.scale.value), decoded.value));
  }

  lemma CodedStep(a: seq<Octet>, w: seq<Octet>, n: nat)
    requires AllFinite(a) && AllFinite(w) && n < |a| && n < |w|
    ensures CodedDot(a, w, n + 1) == CodedDot(a, w, n) + Rescaled(DecodeE4M3Fn(a[n]), DecodeE4M3Fn(w[n]))
  {
  }

  lemma NoCodes(a: seq<Octet>, w: seq<Octet>)
    ensures AllFinite(a) && AllFinite(w) ==> CodedDot(a, w, 0) == 0.0
  {
  }
}
