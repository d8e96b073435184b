/** Packed NVFP4 storage: quantising a whole activation, and the dot-product oracle over it. */
module Nvfp4Storage {
  import opened Wrappers
  import opened Minifloat
  import opened Nvfp4

  type Octet = x: int | 0 <= x < 256

  datatype QuantizedActivation = QuantizedActivation(
    logicalElements: nat, globalDivisor: Float, packed: seq<Octet>, scales: seq<Octet>)

  // ---------------------------------------------------------------- nibbles

  /** `PackedNibble`: the even element lies in the low half of its byte. */
  function PackedNibble(packed: seq<Octet>, index: nat): (nibble: nat)
    requires index / 2 < |packed|
    ensures nibble < 16
  {
    if index % 2 == 0 then packed[index / 2] % 16 else packed[index / 2] / 16
  }

  function WithNibble(octet: Octet, high: bool, nibble: nat): Octet
    requires nibble < 16
  {
    if high then nibble * 16 + octet % 16 else octet / 16 * 16 + nibble
  }

  /** `StorePackedNibble` replaces one nibble and no other. */
  method StorePackedNibble(packed: array<Octet>, index: nat, nibble: nat)
    requires index / 2 < packed.Length && nibble < 16
    modifies packed
    ensures PackedNibble(packed[..], index) == nibble
    ensures forall k: nat :: k / 2 < packed.Length && k != index ==> PackedNibble(packed[..], k) == PackedNibble(old(packed[..]), k)
  {
    packed[index / 2] := WithNibble(packed[index / 2], index % 2 == 1, nibble);
  }

  // ---------------------------------------------------------------- quantisation

  function Block<T>(activation: seq<T>, b: nat): (block: seq<T>)
    requires (b + 1) * 16 <= |activation|
    ensures |block| == 16
  {
    activation[b * 16..(b + 1) * 16]
  }

  /** Storage sized for `blocks` blocks. */
  predicate Shaped(packed: seq<Octet>, scales: seq<Octet>, blocks: nat) {
    |packed| == 8 * blocks && |scales| == blocks
  }

  /** Block `b` is stored as its own quantisation: the scale byte, and sixteen nibbles. */
  ghost predicate StoresBlock(packed: seq<Octet>, scales: seq<Octet>, b: nat, block: seq<real>, divisor: real)
    requires (b + 1) * 8 <= |packed| && b < |scales| && |block| == 16
  {
    && scales[b] == BlockScale(block, divisor)
    && StoresElements(packed, b, block, divisor, BlockScale(block, divisor), 16)
  }

  ghost predicate StoresElements(packed: seq<Octet>, b: nat, block: seq<real>, divisor: real, scale: nat, n: nat)
    requires (b + 1) * 8 <= |packed| && |block| == 16 && scale <= TOP && n <= 16
  {
    forall local: nat :: local < n ==> PackedNibble(packed, b * 16 + local) == ElementNibble(block[local], divisor, scale)
  }

  lemma NoMaximum()
    ensures Amax(Values([])) == 0.0
  {
  }

  /** One more value in the scan. */
  lemma MaximumStep(s: seq<Float>, k: nat)
    requires k < |s| && Numbers(s[..k]) && s[k].Number?
    ensures Numbers(s[..k + 1])
    ensures var before, value := Amax(Values(s[..k])), Abs(s[k].value);
            Amax(Values(s[..k + 1])) == if before < value then value else before
  {
    assert forall i :: 0 <= i < k ==> s[..k + 1][i] == s[..k][i];
    assert s[..k + 1][k] == s[k];
    assert Values(s[..k + 1])[..k] == Values(s[..k]);
  }

  /** The scan for the largest magnitude, which refuses what is no number. */
  method AbsoluteMaximum(values: seq<Float>) returns (r: Result<real>)
    ensures r == if Numbers(values) then Ok(Amax(Values(values))) else Err(InvalidArgument)
  {
    hide Amax, Values, Abs;
    var amax := 0.0;
    NoMaximum();
    for k := 0 to |values|
      invariant Numbers(values[..k]) && amax == Amax(Values(values[..k]))
    {
      if !values[k].Number? {
        return Err(InvalidArgument);
      }
      MaximumStep(values, k);
      var value := Abs(values[k].value);
      if amax < value {
        amax := value;
      }
    }
    assert values[..|values|] == values;
    return Ok(amax);
  }

  /** The element loop of one block; what is stored for other blocks stays. */
  method StoreBlock(packed: array<Octet>, b: nat, block: seq<real>, divisor: real, scale: nat)
    requires (b + 1) * 8 <= packed.Length && |block| == 16 && scale <= TOP
    modifies packed
    ensures StoresElements(packed[..], b, block, divisor, scale, 16)
    ensures forall k: nat :: k < b * 16 ==> PackedNibble(packed[..], k) == PackedNibble(old(packed[..]), k)
  {
    hide ElementNibble, PackedNibble;
    for local := 0 to 16
      invariant StoresElements(packed[..], b, block, divisor, scale, local)
      invariant forall k: nat :: k < b * 16 ==> PackedNibble(packed[..], k) == PackedNibble(old(packed[..]), k)
    {
      StorePackedNibble(packed, b * 16 + local, ElementNibble(block[local], divisor, scale));
    }
  }

  lemma OtherBlocksStay(before: seq<Octet>, after: seq<Octet>, scales: seq<Octet>, more: seq<Octet>,
                        b: nat, k: nat, block: seq<real>, divisor: real)
    requires |before| == |after| && k < b && (b + 1) * 8 <= |before| && b == |scales| && |block| == 16
    requires forall i: nat :: i < b * 16 ==> PackedNibble(after, i) == PackedNibble(before, i)
    requires StoresBlock(before, scales, k, block, divisor)
    ensures StoresBlock(after, scales + more, k, block, divisor)
  {
    hide PackedNibble, ElementNibble, BlockScale;
  }

  predicate IsPositive(x: Float) {
    x.Number? && x.value > 0.0
  }

  lemma BlockOfValues(input: seq<Float>, b: nat)
    requires (b + 1) * 16 <= |input|
    ensures Numbers(input) ==> Numbers(Block(input, b)) && Values(Block(input, b)) == Block(Values(input), b)
  {
  }

  /** `QuantizeActivation`. */
  method QuantizeActivation(input: seq<Float>, globalDivisor: Float) returns (r: Result<QuantizedActivation>)
    ensures r.Ok? <==> input != [] && |input| % 16 == 0 && IsPositive(globalDivisor) && Numbers(input)
    ensures r.Err? ==> r.code == InvalidArgument
    ensures r.Ok? ==>
      var activation, blocks := Values(input), |input| / 16;
      && r.value.logicalElements == |input| && r.value.globalDivisor == globalDivisor
      && Shaped(r.value.packed, r.value.scales, blocks)
      && forall b: nat :: b < blocks ==>
           StoresBlock(r.value.packed, r.value.scales, b, Block(activation, b), globalDivisor.value)
  {
    hide BlockScale, ElementNibble, PackedNibble, Amax, StoresBlock, Values;
    var n := |input|;
    if n == 0 || n % 16 != 0 {
      return Err(InvalidArgument);
    }
    if !globalDivisor.Number? || globalDivisor.value <= 0.0 {
      return Err(InvalidArgument);
    }
    var divisor, blocks := globalDivisor.value, n / 16;
    var packed := new Octet[8 * blocks](_ => 0);
    var scales: seq<Octet> := [];
    for b := 0 to blocks
      invariant |scales| == b && Numbers(input[..16 * b])
      invariant forall k: nat :: k < b ==>
        Numbers(Block(input, k)) && StoresBlock(packed[..], scales, k, Values(Block(input, k)), divisor)
    {
      var maximum := AbsoluteMaximum(Block(input, b));
      if maximum.Err? {
        BlockOfValues(input, b);
        return Err(InvalidArgument);
      }
      assert input[..16 * (b + 1)] == input[..16 * b] + Block(input, b);
      var block := Values(Block(input, b));
      var scale := ScaleOf(block, maximum.value, divisor);
      ghost var before := packed[..];
      StoreBlock(packed, b, block, divisor, scale);
      forall k: nat | k < b
        ensures StoresBlock(packed[..], scales + [scale], k, Values(Block(input, k)), divisor)
      {
        OtherBlocksStay(before, packed[..], scales, [scale], b, k, Values(Block(input, k)), divisor);
      }
      BlockIsStored(packed[..], scales, b, block, divisor);
      scales := scales + [scale];
    }
    assert input[..16 * blocks] == input;
    forall b: nat | b < blocks
      ensures Values(Block(input, b)) == Block(Values(input), b)
    {
      BlockOfValues(input, b);
    }
    return Ok(QuantizedActivation(n, globalDivisor, packed[..], scales));
  }

  lemma BlockIsStored(packed: seq<Octet>, scales: seq<Octet>, b: nat, block: seq<real>, divisor: real)
    requires (b + 1) * 8 <= |packed| && b == |scales| && |block| == 16
    requires StoresElements(packed, b, block, divisor, BlockScale(block, divisor), 16)
    ensures StoresBlock(packed, scales + [BlockScale(block, divisor)], b, block, divisor)
  {
    hide StoresElements, BlockScale;
  }

  function ScaleOf(block: seq<real>, amax: real, divisor: real): (c: nat)
    requires amax == Amax(block)
    ensures c == BlockScale(block, divisor)
  {
    E4M3Code(ScaleInput(amax, divisor))
  }

  // ---------------------------------------------------------------- the oracle

  predicate IsFiniteE4M3Fn(bits: Octet) {
    bits % 128 != 127
  }

  function DecodeE4M3Fn(bits: Octet): real
    requires IsFiniteE4M3Fn(bits)
  {
    if bits >= 128 then -E4M3Value(bits % 128) else E4M3Value(bits % 128)
  }

  ghost predicate AllFinite(scales: seq<Octet>) {
    forall b :: 0 <= b < |scales| ==> IsFiniteE4M3Fn(scales[b])
  }

  /** Packed elements with finite block scales. */
  ghost predicate Readable(packed: seq<Octet>, scales: seq<Octet>, blocks: nat) {
    Shaped(packed, scales, blocks) && AllFinite(scales)
  }

  function LocalValue(packed: seq<Octet>, scales: seq<Octet>, blocks: nat, i: nat): real
    requires Shaped(packed, scales, blocks) && i < 16 * blocks && IsFiniteE4M3Fn(scales[i / 16])
  {
    DecodeE2M1(PackedNibble(packed, i)) * DecodeE4M3Fn(scales[i / 16])
  }

  /** Two vectors of local values and their global divisors. */
  datatype Operands = Operands(
    packedA: seq<Octet>, scalesA: seq<Octet>, divisorA: real,
    packedW: seq<Octet>, scalesW: seq<Octet>, divisorW: real,
    blocks: nat)
  {
    ghost predicate Valid() {
      Readable(packedA, scalesA, blocks) && Readable(packedW, scalesW, blocks) && divisorA > 0.0 && divisorW > 0.0
    }

    ghost function A(i: nat): real
      requires Valid() && i < 16 * blocks
    {
      LocalValue(packedA, scalesA, blocks, i)
    }

    ghost function W(i: nat): real
      requires Valid() && i < 16 * blocks
    {
      LocalValue(packedW, scalesW, blocks, i)
    }
  }

  /** Dividing once by both divisors. */
  function DividedBy(x: real, d: real, e: real): real
    requires d > 0.0 && e > 0.0
  {
    x / (d * e)
  }

  /** The product of two dequantised elements. */
  function Term(x: real, d: real, y: real, e: real): real
    requires d > 0.0 && e > 0.0
  {
    (x / d) * (y / e)
  }

  function LocalTerm(x: real, y: real): real {
    x * y
  }

  /** The inner product of the dequantised vectors, over the first `n` elements. */
  ghost function DequantizedDot(o: Operands, n: nat): real
    requires o.Valid() && n <= 16 * o.blocks
  {
    if n == 0 then 0.0 else DequantizedDot(o, n - 1) + Term(o.A(n - 1), o.divisorA, o.W(n - 1), o.divisorW)
  }

  /** The local products of the first `n` elements, summed in index order. */
  ghost function LocalDot(o: Operands, n: nat): real
    requires o.Valid() && n <= 16 * o.blocks
  {
    if n == 0 then 0.0 else LocalDot(o, n - 1) + LocalTerm(o.A(n - 1), o.W(n - 1))
  }

  lemma QuotientsMultiply(x: real, d: real, y: real, e: real)
    requires d > 0.0 && e > 0.0
    ensures d * e > 0.0 && (x * y) / (d * e) == (x / d) * (y / e)
  {
    var a, b, p := x / d, y / e, d * e;
    assert p > 0.0;
    assert x == a * d && y == b * e;
    RegroupFactors(a, d, b, e);
    assert (a * b) * p / p == a * b;
  }

  lemma RegroupFactors(a: real, d: real, b: real, e: real)
    ensures (a * d) * (b * e) == (a * b) * (d * e)
  {
  }

  lemma SumDivides(x: real, y: real, p: real)
    requires p > 0.0
    ensures (x + y) / p == x / p + y / p
  {
  }

  lemma FactorOut(acc: real, x: real, y: real, d: real, e: real)
    requires d > 0.0 && e > 0.0
    ensures DividedBy(acc + LocalTerm(x, y), d, e) == DividedBy(acc, d, e) + Term(x, d, y, e)
  {
    QuotientsMultiply(x, d, y, e);
    SumDivides(acc, x * y, d * e);
  }

  lemma ZeroDivided(d: real, e: real)
    requires d > 0.0 && e > 0.0
    ensures DividedBy(0.0, d, e) == 0.0
  {
    QuotientsMultiply(0.0, d, 0.0, e);
  }

  lemma DotSteps(o: Operands, n: nat)
    requires o.Valid() && n <= 16 * o.blocks
    ensures n == 0 ==> LocalDot(o, n) == 0.0 && DequantizedDot(o, n) == 0.0
    ensures n > 0 ==>
      && LocalDot(o, n) == LocalDot(o, n - 1) + LocalTerm(o.A(n - 1), o.W(n - 1))
      && DequantizedDot(o, n) == DequantizedDot(o, n - 1) + Term(o.A(n - 1), o.divisorA, o.W(n - 1), o.divisorW)
  {
    hide Operands.A, Operands.W, LocalTerm, Term, Readable;
  }

  /** Dividing once at the end is dividing every element first. */
  lemma {:induction false} DotOfDequantized(o: Operands, n: nat)
    requires o.Valid() && n <= 16 * o.blocks
    ensures DividedBy(LocalDot(o, n), o.divisorA, o.divisorW) == DequantizedDot(o, n)
  {
    hide Operands.A, Operands.W, LocalDot, DequantizedDot, DividedBy, Term, LocalTerm, Readable;
    DotSteps(o, n);
    if n == 0 {
      ZeroDivided(o.divisorA, o.divisorW);
    } else {
      DotOfDequantized(o, n - 1);
      FactorOut(LocalDot(o, n - 1), o.A(n - 1), o.W(n - 1), o.divisorA, o.divisorW);
    }
  }

  /** `ReferenceDotProduct`: local products accumulated, divided once by both divisors. */
  method ReferenceDotProduct(a: QuantizedActivation, weight: seq<Octet>, weightScales: seq<Octet>, weightDivisor: Float)
    returns (r: Result<real>)
    ensures r.Ok? <==>
      && a.logicalElements != 0 && a.logicalElements % 16 == 0
      && IsPositive(a.globalDivisor) && IsPositive(weightDivisor)
      && Readable(a.packed, a.scales, a.logicalElements / 16) && Readable(weight, weightScales, a.logicalElements / 16)
    ensures r.Ok? ==>
      var o := Operands(a.packed, a.scales, a.globalDivisor.value, weight, weightScales, weightDivisor.value, a.logicalElements / 16);
      r.value == DequantizedDot(o, a.logicalElements)
    ensures r.Err? ==> r.code == InvalidArgument
  {
    hide LocalValue, DequantizedDot, IsFiniteE4M3Fn, LocalTerm, DividedBy;
    var n := a.logicalElements;
    if n == 0 || n % 16 != 0 {
      return Err(InvalidArgument);
    }
    if |a.packed| != n / 2 || |a.scales| != n / 16 {
      return Err(InvalidArgument);
    }
    if |weight| != n / 2 || |weightScales| != n / 16 {
      return Err(InvalidArgument);
    }
    if !a.globalDivisor.Number? || a.globalDivisor.value <= 0.0 || !weightDivisor.Number? || weightDivisor.value <= 0.0 {
      return Err(InvalidArgument);
    }
    var blocks := n / 16;
    ghost var o := Operands(a.packed, a.scales, a.globalDivisor.value, weight, weightScales, weightDivisor.value, blocks);
    var accumulator := 0.0;
    for index := 0 to n
      invariant forall k: nat :: 16 * k < index ==> IsFiniteE4M3Fn(a.scales[k]) && IsFiniteE4M3Fn(weightScales[k])
      invariant o.Valid() ==> accumulator == LocalDot(o, index)
    {
      var block := index / 16;
      if !IsFiniteE4M3Fn(a.scales[block]) || !IsFiniteE4M3Fn(weightScales[block]) {
        return Err(InvalidArgument);
      }
      var activationValue := LocalValue(a.packed, a.scales, blocks, index);
      var weightValue := LocalValue(weight, weightScales, blocks, index);
      accumulator := accumulator + LocalTerm(activationValue, weightValue);
    }
    DotOfDequantized(o, n);
    return Ok(DividedBy(accumulator, a.globalDivisor.value, weightDivisor.value));
  }

  /** A quantised block read back from packed storage is the read-back block whose stability and
      error are established for values. */
  lemma StorageReadsBack(packed: seq<Octet>, scales: seq<Octet>, blocks: nat, b: nat, block: seq<real>, divisor: real, local: nat)
    requires divisor > 0.0 && Shaped(packed, scales, blocks) && b < blocks && |block| == 16 && local < 16
    requires StoresBlock(packed, scales, b, block, divisor)
    ensures IsFiniteE4M3Fn(scales[b]) && (b * 16 + local) / 16 == b
    ensures Scaled(DecodeE2M1(PackedNibble(packed, b * 16 + local)), DecodeE4M3Fn(scales[b]), divisor)
         == Requantizable(block, divisor)[local]
  {
    hide E4M3Value, DecodeE2M1, E4M3Code, PackedNibble, Scaled, Amax;
  }

  // ---------------------------------------------------------------- the layout of a byte

  /** Each byte holds two elements: the even one in its low half, the odd one in its high half. */
  lemma NibbleOrder(packed: seq<Octet>, i: nat)
    requires i < |packed|
    ensures packed[i] == PackedNibble(packed, 2 * i) + 16 * PackedNibble(packed, 2 * i + 1)
  {
    assert (2 * i) / 2 == i && (2 * i + 1) / 2 == i && (2 * i) % 2 == 0 && (2 * i + 1) % 2 == 1;
  }
}
