/** The device arena plan: checked 64-bit arithmetic, alignment by mask, and region layout. */
module MemoryPlan {
  import opened Wrappers
  import opened Words
  import opened Manifest

  // ---------------------------------------------------------------- checked arithmetic

  function CheckedAdd(left: Word, right: Word): (r: Result<Word>)
    ensures r == if left + right < LIMIT then Ok(left + right) else Err(InvalidArgument)
  {
    if left > LIMIT - 1 - right then Err(InvalidArgument) else Ok(left + right)
  }

  function Product(factors: seq<nat>): nat {
    if factors == [] then 1 else Product(factors[..|factors| - 1]) * factors[|factors| - 1]
  }

  /** Every product on the way fits a word. */
  predicate Fits(factors: seq<nat>) {
    forall k :: 0 <= k <= |factors| ==> Product(factors[..k]) < LIMIT
  }

  lemma ProductStep(factors: seq<nat>, k: nat)
    requires k < |factors|
    ensures Product(factors[..k + 1]) == Product(factors[..k]) * factors[k]
  {
    assert factors[..k + 1][..k] == factors[..k];
  }

  lemma DivisionGuard(result: nat, factor: nat)
    ensures factor != 0 && result > (LIMIT - 1) / factor <==> result * factor >= LIMIT
  {
    if factor != 0 {
      var q := (LIMIT - 1) / factor;
      assert q * factor <= LIMIT - 1 < (q + 1) * factor;
      if result > q {
        MultiplyGrows(q + 1, result, factor);
      } else {
        MultiplyGrows(result, q, factor);
      }
    }
  }

  lemma MultiplyGrows(a: nat, b: nat, c: nat)
    requires a <= b
    ensures a * c <= b * c
  {
  }

  /** The multiplication succeeds exactly when every prefix product fits, with the exact product. */
  method CheckedMultiply(factors: seq<Word>) returns (r: Result<Word>)
    ensures r.Ok? <==> Fits(factors)
    ensures r.Ok? ==> r.value == Product(factors)
    ensures r.Err? ==> r.code == InvalidArgument
  {
    hide Product;
    var result: Word := 1;
    NoFactors(factors);
    for k := 0 to |factors|
      invariant result == Product(factors[..k])
      invariant forall j :: 0 <= j <= k ==> Product(factors[..j]) < LIMIT
    {
      var factor := factors[k];
      ProductStep(factors, k);
      DivisionGuard(result, factor);
      if factor != 0 && result > (LIMIT - 1) / factor {
        assert Product(factors[..k + 1]) >= LIMIT;
        return Err(InvalidArgument);
      }
      result := result * factor;
    }
    assert factors[..|factors|] == factors;
    return Ok(result);
  }

  lemma NoFactors(factors: seq<nat>)
    ensures Product(factors[..0]) == 1
  {
  }

  // ---------------------------------------------------------------- alignment

  function AlignUp(value: Word, alignment: Word): Result<Word> {
    if !IsPowerOfTwo(alignment) then Err(InvalidArgument)
    else
      var mask := alignment - 1;
      if value > LIMIT - 1 - mask then Err(InvalidArgument)
      else Ok(And(value + mask, Not(mask)))
  }

  /** The least multiple of `alignment` at or above `value`. */
  function RoundUp(value: nat, alignment: nat): (r: nat)
    requires alignment > 0
  {
    (value + alignment - 1) / alignment * alignment
  }

  lemma {:induction false} RoundUpIsLeast(value: nat, alignment: nat)
    requires alignment > 0
    ensures var r := RoundUp(value, alignment);
            && r % alignment == 0 && value <= r < value + alignment
            && forall q: nat :: q * alignment >= value ==> r <= q * alignment
  {
    var t := value + alignment - 1;
    var q := t / alignment;
    assert t == q * alignment + t % alignment;
    MultipleMod(q, alignment);
    forall p: nat | p * alignment >= value
      ensures q * alignment <= p * alignment
    {
      NextMultiple(p, q, alignment);
    }
  }

  lemma NextMultiple(p: nat, q: nat, d: nat)
    ensures if p < q then p * d + d <= q * d else q * d <= p * d
  {
    MultiplyGrows(if p < q then p + 1 else q, if p < q then q else p, d);
  }

  lemma MultipleMod(q: nat, d: nat)
    requires d > 0
    ensures (q * d) % d == 0
  {
    ModIs(q * d, d, q, 0);
  }

  /** A multiple of a power of two below the word size leaves room for a whole further unit. */
  lemma {:induction false} MultiplesStop(k: nat, n: nat, q: nat)
    requires k <= n && q * Pow2(k) < Pow2(n)
    ensures q * Pow2(k) <= Pow2(n) - Pow2(k)
    decreases n - k
  {
    if k < n {
      PowerGrows(k, n - 1);
      var half := q / 2;
      assert q * Pow2(k) == half * (2 * Pow2(k)) + (q % 2) * Pow2(k);
      MultiplesStop(k + 1, n, half);
    } else {
      if q > 0 {
        MultiplyGrows(1, q, Pow2(k));
      }
    }
  }

  /** Main result: the mask form rounds up, and fails exactly when no aligned word is left. */
  lemma AlignUpExactly(value: Word, alignment: Word)
    requires IsPowerOfTwo(alignment)
    ensures AlignUp(value, alignment)
         == if RoundUp(value, alignment) < LIMIT then Ok(RoundUp(value, alignment)) else Err(InvalidArgument)
  {
    hide And, Pow2, IsPowerOfTwo;
    PowerOfTwoExactly(alignment);
    var k: nat :| alignment == Pow2(k);
    ExponentBelow(k);
    SixtyFourBits();
    PowerGrows(k, 64);
    RoundUpIsLeast(value, alignment);
    var t := value + alignment - 1;
    var q := t / alignment;
    if t < LIMIT {
      AndHighBits(t, k, 64);
      assert t == q * alignment + t % alignment;
      assert Not(alignment - 1) == LIMIT - alignment;
    } else if RoundUp(value, alignment) < LIMIT {
      MultiplesStop(k, 64, q);
      assert false;
    }
  }

  // ---------------------------------------------------------------- regions

  datatype Region = Region(name: string, offset: Word, bytes: Word, alignment: Word) {
    function End(): nat { offset + bytes }
  }

  function RegionBytes(regions: seq<Region>): nat {
    if regions == [] then 0 else RegionBytes(regions[..|regions| - 1]) + regions[|regions| - 1].bytes
  }

  lemma RegionBytesSnoc(regions: seq<Region>, r: Region)
    ensures RegionBytes(regions + [r]) == RegionBytes(regions) + r.bytes
  {
    assert (regions + [r])[..|regions|] == regions;
  }

  predicate IsMultiple(value: nat, unit: nat)
    requires unit > 0
  {
    value % unit == 0
  }

  /** Where the first `n` regions end. */
  function EndOf(regions: seq<Region>, n: nat): nat
    requires n <= |regions|
  {
    if n == 0 then 0 else regions[n - 1].End()
  }

  /** Regions in order: aligned, disjoint, below `end`, and every gap, the one up to `end` included,
      smaller than one unit of alignment. */
  ghost predicate Ordered(regions: seq<Region>, alignment: nat, end: nat)
    requires alignment > 0
  {
    && (forall k :: 0 <= k < |regions| ==> IsMultiple(regions[k].offset, alignment) && regions[k].End() <= end)
    && (forall j, k :: 0 <= j < k < |regions| ==> regions[j].End() <= regions[k].offset)
    && (forall k :: 0 <= k < |regions| ==> EndOf(regions, k) <= regions[k].offset < EndOf(regions, k) + alignment)
    && EndOf(regions, |regions|) <= end < EndOf(regions, |regions|) + alignment
  }

  lemma OrderedSnoc(regions: seq<Region>, region: Region, alignment: nat)
    requires alignment > 0 && Ordered(regions, alignment, EndOf(regions, |regions|))
    requires IsMultiple(region.offset, alignment)
    requires EndOf(regions, |regions|) <= region.offset < EndOf(regions, |regions|) + alignment
    ensures Ordered(regions + [region], alignment, region.End()) && EndOf(regions + [region], |regions| + 1) == region.End()
  {
    hide IsMultiple, EndOf;
    EndOfSnoc(regions, region);
  }

  lemma EndOfSnoc(regions: seq<Region>, region: Region)
    ensures forall k: nat :: k <= |regions| ==> EndOf(regions + [region], k) == EndOf(regions, k)
    ensures EndOf(regions + [region], |regions| + 1) == region.End()
  {
  }

  /** The part of a plan that `AddRegion` changes. */
  class Arena {
    var regions: seq<Region>
    var padding: Word
    var cursor: Word

    constructor ()
      ensures regions == [] && padding == 0 && cursor == 0
    {
      regions, padding, cursor := [], 0, 0;
    }

    /** Everything below the cursor is a region or counted padding. */
    ghost predicate Valid(alignment: nat)
      requires alignment > 0
      reads this
    {
      && Ordered(regions, alignment, cursor) && cursor == EndOf(regions, |regions|)
      && RegionBytes(regions) + padding == cursor
    }

    method AddRegion(name: string, bytes: Word, alignment: Word) returns (status: Result<()>)
      requires IsPowerOfTwo(alignment) && Valid(alignment)
      modifies this
      ensures Valid(alignment)
      ensures status.Ok? <==> RoundUp(old(cursor), alignment) + bytes < LIMIT
      ensures status.Ok? ==>
        && regions == old(regions) + [Region(name, RoundUp(old(cursor), alignment), bytes, alignment)]
        && cursor == RoundUp(old(cursor), alignment) + bytes
        && padding == old(padding) + (RoundUp(old(cursor), alignment) - old(cursor))
      ensures status.Err? ==> status.code == InvalidArgument && unchanged(this)
    {
      hide And, AlignUp, RoundUp, RegionBytes, Ordered, EndOf, IsMultiple;
      AlignUpExactly(cursor, alignment);
      RoundUpBounds(cursor, alignment);
      var aligned := AlignUp(cursor, alignment);
      if aligned.Err? { return Err(aligned.code); }
      var more := CheckedAdd(padding, aligned.value - cursor);
      if more.Err? { return Err(InvalidArgument); }
      var end := CheckedAdd(aligned.value, bytes);
      if end.Err? { return Err(end.code); }
      padding := more.value;
      var region := Region(name, aligned.value, bytes, alignment);
      RegionBytesSnoc(regions, region);
      OrderedSnoc(regions, region, alignment);
      regions := regions + [region];
      cursor := end.value;
      return Ok(());
    }
  }

  // ---------------------------------------------------------------- the plan

  datatype ContextProfile = Interactive | Standard | Long | Xlong | Max

  function ContextTokens(profile: ContextProfile): Word {
    match profile
    case Interactive => 8192
    case Standard => 32768
    case Long => 65536
    case Xlong => 131072
    case Max => 262144
  }

  datatype KvStorage = KvUnspecified | KvShared | KvSeparate

  datatype Options = Options(profile: ContextProfile, kvStorage: KvStorage, elementBytes: Word, alignment: Word)

  datatype Config = Config(
    layerTypes: seq<string>, layerCount: Word, maxPositions: Word, slidingWindow: Word,
    localKvHeads: Word, globalKvHeads: Word, localHeadDimension: Word, globalHeadDimension: Word)

  datatype Plan = Plan(
    weightBytes: Word, scaleBytes: Word, localKv: Word, globalKv: Word, kvBytes: Word,
    regions: seq<Region>, padding: Word, total: Word)

  const SLIDING: string := "sliding_attention"
  const FULL: string := "full_attention"

  function IsScaleTensor(): Tensor -> bool {
    (t: Tensor) =>
      || t.quantizationClass in ["FP8_WEIGHT_SCALE", "NVFP4_GLOBAL_SCALE", "NVFP4_INPUT_SCALE", "NVFP4_LOCAL_SCALE_E4M3"]
      || t.expectedRole in ["weight_global_scale", "activation_global_scale", "weight_local_or_channel_scale"]
  }

  function IsWeightTensor(): Tensor -> bool {
    (t: Tensor) => !IsScaleTensor()(t)
  }

  function CountOf(layers: seq<string>, name: string): nat {
    if layers == [] then 0
    else CountOf(layers[..|layers| - 1], name) + (if layers[|layers| - 1] == name then 1 else 0)
  }

  /** The refusals before any byte is counted. */
  function Precheck(c: Config, o: Options): Option<StatusCode> {
    if o.kvStorage == KvUnspecified then Some(InvalidArgument)
    else if o.elementBytes == 0 then Some(InvalidArgument)
    else if !IsPowerOfTwo(o.alignment) then Some(InvalidArgument)
    else if ContextTokens(o.profile) > c.maxPositions then Some(Unsupported)
    else if |c.layerTypes| != c.layerCount || c.slidingWindow == 0 || c.localKvHeads == 0 || c.globalKvHeads == 0
            || c.localHeadDimension == 0 || c.globalHeadDimension == 0 then Some(InvalidArgument)
    else if o.kvStorage == KvShared then Some(Unsupported)
    else None
  }

  method CountLayers(layers: seq<string>) returns (r: Result<(Word, Word)>)
    requires |layers| < LIMIT
    ensures r.Ok? <==> forall k :: 0 <= k < |layers| ==> layers[k] == SLIDING || layers[k] == FULL
    ensures r.Ok? ==> r.value == (CountOf(layers, SLIDING), CountOf(layers, FULL))
    ensures r.Err? ==> r.code == Unsupported
  {
    var local: nat, global: nat := 0, 0;
    for k := 0 to |layers|
      invariant local == CountOf(layers[..k], SLIDING) && global == CountOf(layers[..k], FULL) && local + global <= k
      invariant forall j :: 0 <= j < k ==> layers[j] == SLIDING || layers[j] == FULL
    {
      assert layers[..k + 1][..k] == layers[..k];
      if layers[k] == SLIDING {
        local := local + 1;
      } else if layers[k] == FULL {
        global := global + 1;
      } else {
        return Err(Unsupported);
      }
    }
    assert layers[..|layers|] == layers;
    return Ok((local, global));
  }

  lemma OnlyNext(tensors: seq<Tensor>, k: nat, keep: Tensor -> bool)
    requires k < |tensors|
    ensures Sum(Only(tensors[..k + 1], keep)) == Sum(Only(tensors[..k], keep)) + (if keep(tensors[k]) then tensors[k].bytes else 0)
  {
    assert tensors[..k + 1] == tensors[..k] + [tensors[k]];
    OnlySum(tensors[..k], tensors[k], keep);
  }

  lemma {:induction false} OnlyGrows(tensors: seq<Tensor>, k: nat, keep: Tensor -> bool)
    requires k <= |tensors|
    ensures Sum(Only(tensors[..k], keep)) <= Sum(Only(tensors, keep))
    decreases |tensors| - k
  {
    hide Sum, Only;
    if k < |tensors| {
      OnlyNext(tensors, k, keep);
      OnlyGrows(tensors, k + 1, keep);
    } else {
      assert tensors[..k] == tensors;
    }
  }

  lemma ScaleSplit(tensors: seq<Tensor>)
    ensures Sum(Only(tensors, IsWeightTensor())) + Sum(Only(tensors, IsScaleTensor())) == Sum(tensors)
  {
    SplitSum(tensors, IsWeightTensor(), IsScaleTensor());
  }

  lemma NothingKept(keep: Tensor -> bool)
    ensures Sum(Only([], keep)) == 0
  {
  }

  /** The loop that splits the tensors into weights and scales. */
  method ResidentBytes(tensors: seq<Tensor>) returns (r: Result<(Word, Word)>)
    ensures r.Ok? <==> Sum(tensors) < LIMIT
    ensures r.Ok? ==> r.value == (Sum(Only(tensors, IsWeightTensor())), Sum(Only(tensors, IsScaleTensor())))
    ensures r.Err? ==> r.code == InvalidArgument
  {
    hide Sum, Only;
    var weights: Word, scales: Word := 0, 0;
    ScaleSplit(tensors);
    assert tensors[..0] == [] && tensors[..|tensors|] == tensors;
    NothingKept(IsWeightTensor());
    NothingKept(IsScaleTensor());
    for k := 0 to |tensors|
      invariant weights == Sum(Only(tensors[..k], IsWeightTensor())) && scales == Sum(Only(tensors[..k], IsScaleTensor()))
    {
      OnlyNext(tensors, k, IsWeightTensor());
      OnlyNext(tensors, k, IsScaleTensor());
      OnlyGrows(tensors, k + 1, IsWeightTensor());
      OnlyGrows(tensors, k + 1, IsScaleTensor());
      var scale := IsScaleTensor()(tensors[k]);
      var sum := CheckedAdd(if scale then scales else weights, tensors[k].bytes);
      if sum.Err? { return Err(sum.code); }
      if scale {
        scales := sum.value;
      } else {
        weights := sum.value;
      }
    }
    var resident := CheckedAdd(weights, scales);
    if resident.Err? { return Err(resident.code); }
    return Ok((weights, scales));
  }

  function LocalFactors(c: Config, o: Options): seq<nat> {
    var tokens := ContextTokens(o.profile);
    [CountOf(c.layerTypes, SLIDING), if tokens < c.slidingWindow then tokens else c.slidingWindow,
     c.localKvHeads, c.localHeadDimension, o.elementBytes]
  }

  function GlobalFactors(c: Config, o: Options): seq<nat> {
    [CountOf(c.layerTypes, FULL), ContextTokens(o.profile), c.globalKvHeads, c.globalHeadDimension, o.elementBytes]
  }

  /** Keys and values are stored separately. */
  function KvBytes(c: Config, o: Options): nat {
    2 * (Product(LocalFactors(c, o)) + Product(GlobalFactors(c, o)))
  }

  /** Where three regions of these sizes end, in unbounded arithmetic. */
  function ArenaEnd(weights: nat, scales: nat, kv: nat, alignment: nat): nat
    requires alignment > 0
  {
    RoundUp(ThirdEnd(weights, scales, kv, alignment), alignment)
  }

  /** Everything the plan has to fit into words. */
  ghost predicate Feasible(c: Config, m: Manifest, o: Options)
    requires o.alignment > 0
  {
    && (forall k :: 0 <= k < |c.layerTypes| ==> c.layerTypes[k] == SLIDING || c.layerTypes[k] == FULL)
    && Sum(m.tensors) < LIMIT
    && Fits(LocalFactors(c, o)) && Fits(GlobalFactors(c, o)) && KvBytes(c, o) < LIMIT
    && ArenaEnd(Sum(Only(m.tensors, IsWeightTensor())), Sum(Only(m.tensors, IsScaleTensor())), KvBytes(c, o), o.alignment) < LIMIT
  }

  /** A plan accounts for every byte of its arena. */
  ghost predicate Sound(p: Plan, c: Config, m: Manifest, o: Options)
    requires o.alignment > 0
  {
    && p.weightBytes == Sum(Only(m.tensors, IsWeightTensor()))
    && p.scaleBytes == Sum(Only(m.tensors, IsScaleTensor()))
    && p.weightBytes + p.scaleBytes == Sum(m.tensors)
    && p.localKv == Product(LocalFactors(c, o)) && p.globalKv == Product(GlobalFactors(c, o))
    && p.kvBytes == 2 * (p.localKv + p.globalKv) == KvBytes(c, o)
    && |p.regions| == 3
    && p.regions[0].name == WEIGHTS && p.regions[0].bytes == p.weightBytes
    && p.regions[1].name == SCALES && p.regions[1].bytes == p.scaleBytes
    && p.regions[2].name == KV_CACHE && p.regions[2].bytes == p.kvBytes
    && Ordered(p.regions, o.alignment, p.total)
    && p.weightBytes + p.scaleBytes + p.kvBytes + p.padding == p.total
    && IsMultiple(p.total, o.alignment)
    && p.padding < 3 * o.alignment
  }

  /** The one refusal that blames the manifest. */
  ghost predicate Disagrees(c: Config, m: Manifest, o: Options) {
    && Precheck(c, o).None?
    && (forall k :: 0 <= k < |c.layerTypes| ==> c.layerTypes[k] == SLIDING || c.layerTypes[k] == FULL)
    && Sum(m.tensors) < LIMIT && Sum(m.tensors) != m.total
  }

  lemma PrecheckedAlignment(c: Config, o: Options)
    requires Precheck(c, o).None?
    ensures o.alignment > 0 && IsPowerOfTwo(o.alignment) && |c.layerTypes| == c.layerCount
  {
  }

  const WEIGHTS: string := "immutable_model_weights"
  const SCALES: string := "scales"
  const KV_CACHE: string := "kv_cache"

  /** Where the third region ends. */
  function ThirdEnd(weights: nat, scales: nat, kv: nat, alignment: nat): nat
    requires alignment > 0
  {
    RoundUp(RoundUp(weights, alignment) + scales, alignment) + kv
  }

  /** The three regions, in a fresh arena. */
  method PlaceRegions(weights: Word, scales: Word, kv: Word, alignment: Word) returns (placed: bool, arena: Arena)
    requires IsPowerOfTwo(alignment)
    ensures alignment > 0 && (placed <==> ThirdEnd(weights, scales, kv, alignment) < LIMIT)
    ensures placed ==>
      && arena.Valid(alignment) && arena.cursor == ThirdEnd(weights, scales, kv, alignment) && |arena.regions| == 3
      && arena.regions[0].name == WEIGHTS && arena.regions[0].bytes == weights
      && arena.regions[1].name == SCALES && arena.regions[1].bytes == scales
      && arena.regions[2].name == KV_CACHE && arena.regions[2].bytes == kv
      && arena.padding < 2 * alignment
  {
    hide And, Pow2, AlignUp, RoundUp, RegionBytes, Ordered, EndOf, IsPowerOfTwo, IsMultiple;
    PowerIsPositive(alignment);
    RoundUpBounds(weights, alignment);
    RoundUpBounds(RoundUp(weights, alignment) + scales, alignment);
    RoundUpOfZero(alignment);
    NoRegions(alignment);
    arena := new Arena();
    var status := arena.AddRegion(WEIGHTS, weights, alignment);
    if status.Err? { return false, arena; }
    status := arena.AddRegion(SCALES, scales, alignment);
    if status.Err? { return false, arena; }
    status := arena.AddRegion(KV_CACHE, kv, alignment);
    return status.Ok?, arena;
  }

  /** The three regions and the final rounding. */
  method LayOut(weights: Word, scales: Word, kv: Word, alignment: Word) returns (r: Result<(seq<Region>, Word, Word)>)
    requires IsPowerOfTwo(alignment)
    ensures r.Ok? <==> ArenaEnd(weights, scales, kv, alignment) < LIMIT
    ensures r.Err? ==> r.code == InvalidArgument
    ensures r.Ok? ==>
      var (regions, padding, total) := r.value;
      && total == ArenaEnd(weights, scales, kv, alignment)
      && |regions| == 3
      && regions[0].name == WEIGHTS && regions[0].bytes == weights
      && regions[1].name == SCALES && regions[1].bytes == scales
      && regions[2].name == KV_CACHE && regions[2].bytes == kv
      && Ordered(regions, alignment, total)
      && weights + scales + kv + padding == total
      && IsMultiple(total, alignment) && padding < 3 * alignment
  {
    hide And, Pow2, AlignUp, RoundUp, RegionBytes, Ordered, EndOf, IsPowerOfTwo, IsMultiple;
    var placed, arena := PlaceRegions(weights, scales, kv, alignment);
    RoundUpBounds(ThirdEnd(weights, scales, kv, alignment), alignment);
    if !placed { return Err(InvalidArgument); }
    AlignUpExactly(arena.cursor, alignment);
    var total := AlignUp(arena.cursor, alignment);
    if total.Err? { return Err(InvalidArgument); }
    var padding := CheckedAdd(arena.padding, total.value - arena.cursor);
    if padding.Err? { return Err(InvalidArgument); }
    ThreeRegions(arena.regions);
    OrderedBelow(arena.regions, alignment, arena.cursor, total.value);
    return Ok((arena.regions, padding.value, total.value));
  }

  lemma RoundUpBounds(value: nat, alignment: nat)
    requires alignment > 0
    ensures var r := RoundUp(value, alignment); IsMultiple(r, alignment) && value <= r < value + alignment
  {
    RoundUpIsLeast(value, alignment);
  }

  lemma NoRegions(alignment: nat)
    requires alignment > 0
    ensures RegionBytes([]) == 0 && Ordered([], alignment, 0) && EndOf([], 0) == 0
  {
  }

  lemma PowerIsPositive(alignment: nat)
    requires IsPowerOfTwo(alignment)
    ensures alignment > 0
  {
  }

  lemma OrderedBelow(regions: seq<Region>, alignment: nat, end: nat, more: nat)
    requires alignment > 0 && Ordered(regions, alignment, end)
    requires end == EndOf(regions, |regions|) <= more < end + alignment
    ensures Ordered(regions, alignment, more)
  {
  }

  lemma LastRegion(regions: seq<Region>)
    requires regions != []
    ensures RegionBytes(regions) == RegionBytes(regions[..|regions| - 1]) + regions[|regions| - 1].bytes
  {
  }

  lemma ThreeRegions(regions: seq<Region>)
    requires |regions| == 3
    ensures RegionBytes(regions) == regions[0].bytes + regions[1].bytes + regions[2].bytes
  {
    hide RegionBytes;
    assert regions[..2][..1] == regions[..1] && regions[..1][..0] == [];
    NoRegions(1);
    LastRegion(regions);
    LastRegion(regions[..2]);
    LastRegion(regions[..1]);
  }

  lemma RoundUpOfZero(alignment: nat)
    requires alignment > 0
    ensures RoundUp(0, alignment) == 0
  {
    RoundUpIsLeast(0, alignment);
    assert 0 * alignment >= 0;
  }

  /** `BuildMemoryPlan`: succeeds exactly when everything fits and the manifest agrees with its
      own tensors; the plan then accounts for every byte. */
  method BuildMemoryPlan(c: Config, m: Manifest, o: Options) returns (r: Result<Plan>)
    ensures Precheck(c, o).Some? ==> r == Err(Precheck(c, o).value)
    ensures Precheck(c, o).None? ==> (r.Ok? <==> o.alignment > 0 && Feasible(c, m, o) && m.total == Sum(m.tensors))
    ensures Precheck(c, o).None? && r.Ok? ==> o.alignment > 0 && Sound(r.value, c, m, o)
    ensures r == Err(DataLoss) <==> Disagrees(c, m, o)
  {
    hide Sum, Only, Product, And, Pow2, RoundUp, Fits, CountOf;
    var refusal := Precheck(c, o);
    if refusal.Some? { return Err(refusal.value); }
    PrecheckedAlignment(c, o);
    var layers := CountLayers(c.layerTypes);
    if layers.Err? { return Err(layers.code); }
    var resident := ResidentBytes(m.tensors);
    if resident.Err? { return Err(resident.code); }
    var (weights, scales) := resident.value;
    ScaleSplit(m.tensors);
    if weights + scales != m.total { return Err(DataLoss); }
    var tokens := ContextTokens(o.profile);
    var localTokens := if tokens < c.slidingWindow then tokens else c.slidingWindow;
    var local := CheckedMultiply([layers.value.0, localTokens, c.localKvHeads, c.localHeadDimension, o.elementBytes]);
    if local.Err? { return Err(local.code); }
    var global := CheckedMultiply([layers.value.1, tokens, c.globalKvHeads, c.globalHeadDimension, o.elementBytes]);
    if global.Err? { return Err(global.code); }
    var once := CheckedAdd(local.value, global.value);
    if once.Err? { return Err(once.code); }
    TwiceFits(once.value);
    var kv := CheckedMultiply([once.value, 2]);
    if kv.Err? { return Err(kv.code); }
    var laid := LayOut(weights, scales, kv.value, o.alignment);
    if laid.Err? { return Err(laid.code); }
    var (regions, padding, total) := laid.value;
    return Ok(Plan(weights, scales, local.value, global.value, kv.value, regions, padding, total));
  }

  lemma TwiceFits(bytes: Word)
    ensures Product([bytes, 2]) == 2 * bytes && (Fits([bytes, 2]) <==> 2 * bytes < LIMIT)
  {
    var factors := [bytes, 2];
    NoFactors(factors);
    ProductStep(factors, 0);
    ProductStep(factors, 1);
    assert factors[..2] == factors;
  }

  // ---------------------------------------------------------------- across the modules

  /** Main result: for a manifest that `BuildManifest` produced, the planner's disagreement branch
      is unreachable; either the sizes overflow a word or the two sums agree. */
  lemma ManifestNeverDisagrees(c: Config, m: Manifest, o: Options)
    requires Accounts(m)
    ensures !Disagrees(c, m, o)
    ensures Sum(m.tensors) < LIMIT ==> m.total == Sum(m.tensors)
  {
    hide Sum, Only;
  }

  // ---------------------------------------------------------------- what the key/value cache holds

  function Times(a: nat, b: nat): nat {
    a * b
  }

  lemma TimesAssociates(a: nat, b: nat, c: nat)
    ensures Times(Times(a, b), c) == Times(a, Times(b, c))
  {
  }

  lemma TimesOne(a: nat)
    ensures Times(1, a) == a
  {
  }

  lemma TimesNext(n: nat, b: nat)
    ensures Times(n + 1, b) == Times(n, b) + b && Times(0, b) == 0
  {
  }

  /** What a key or a value takes for one token: all heads of the layer. */
  function TokenBytes(heads: nat, dimension: nat, elementBytes: nat): nat {
    Times(heads, Times(dimension, elementBytes))
  }

  /** The tokens of a context profile. */
  function ContextOf(profile: ContextProfile): nat {
    match profile
    case Interactive => 8 * 1024
    case Standard => 32 * 1024
    case Long => 64 * 1024
    case Xlong => 128 * 1024
    case Max => 256 * 1024
  }

  /** The keys and values of one layer: for each token it keeps, a key and a value of every head. A
      sliding layer keeps no more tokens than its window. */
  function LayerBytes(c: Config, o: Options, layer: string): nat {
    var context := ContextOf(o.profile);
    if layer == "sliding_attention" then
      Times(2, Times(if context <= c.slidingWindow then context else c.slidingWindow,
                     TokenBytes(c.localKvHeads, c.localHeadDimension, o.elementBytes)))
    else if layer == "full_attention" then
      Times(2, Times(context, TokenBytes(c.globalKvHeads, c.globalHeadDimension, o.elementBytes)))
    else 0
  }

  function AllLayerBytes(c: Config, o: Options, layers: seq<string>): nat {
    if layers == [] then 0
    else AllLayerBytes(c, o, layers[..|layers| - 1]) + LayerBytes(c, o, layers[|layers| - 1])
  }

  lemma ProductOfNone()
    ensures Product([]) == 1
  {
  }

  lemma ProductSnoc(factors: seq<nat>, last: nat)
    ensures Product(factors + [last]) == Times(Product(factors), last)
  {
    assert (factors + [last])[..|factors|] == factors;
  }

  lemma ProductOfFive(n: nat, t: nat, h: nat, d: nat, e: nat)
    ensures Product([n, t, h, d, e]) == Times(n, Times(t, TokenBytes(h, d, e)))
  {
    hide Product, Times;
    ProductOfNone();
    assert [] + [n] == [n] && [n] + [t] == [n, t] && [n, t] + [h] == [n, t, h];
    assert [n, t, h] + [d] == [n, t, h, d] && [n, t, h, d] + [e] == [n, t, h, d, e];
    ProductSnoc([], n);
    ProductSnoc([n], t);
    ProductSnoc([n, t], h);
    ProductSnoc([n, t, h], d);
    ProductSnoc([n, t, h, d], e);
    TimesOne(n);
    TimesAssociates(Times(Times(n, t), h), d, e);
    TimesAssociates(Times(n, t), h, Times(d, e));
    TimesAssociates(n, t, Times(h, Times(d, e)));
  }

  lemma OtherLayer(c: Config, o: Options, layer: string)
    ensures layer != SLIDING && layer != FULL ==> LayerBytes(c, o, layer) == 0
  {
  }

  /** The layers added up one by one come to the layers of each kind times what one of them holds. */
  lemma {:induction false} KvIsPerLayer(c: Config, o: Options, layers: seq<string>, local: nat, global: nat)
    requires local == LayerBytes(c, o, SLIDING) && global == LayerBytes(c, o, FULL)
    ensures AllLayerBytes(c, o, layers) == Times(CountOf(layers, SLIDING), local) + Times(CountOf(layers, FULL), global)
  {
    hide LayerBytes, Times;
    if layers == [] {
      TimesNext(0, local);
      TimesNext(0, global);
    } else {
      var before, last := layers[..|layers| - 1], layers[|layers| - 1];
      KvIsPerLayer(c, o, before, local, global);
      TimesNext(CountOf(before, SLIDING), local);
      TimesNext(CountOf(before, FULL), global);
      OtherLayer(c, o, last);
    }
  }

  lemma ContextIsProfile(profile: ContextProfile)
    ensures ContextTokens(profile) == ContextOf(profile)
  {
  }

  lemma Doubled(n: nat, b: nat)
    ensures Times(n, Times(2, b)) == 2 * Times(n, b)
  {
  }

  /** Main result: the planned cache is what the layers hold, added up layer by layer. */
  lemma PlannedCacheIsPerLayer(c: Config, o: Options)
    ensures KvBytes(c, o) == AllLayerBytes(c, o, c.layerTypes)
  {
    hide Product, CountOf, AllLayerBytes, ContextTokens, ContextOf, Times, TokenBytes;
    ContextIsProfile(o.profile);
    var context := ContextTokens(o.profile);
    var window := if context < c.slidingWindow then context else c.slidingWindow;
    var local, global := CountOf(c.layerTypes, SLIDING), CountOf(c.layerTypes, FULL);
    var localToken := TokenBytes(c.localKvHeads, c.localHeadDimension, o.elementBytes);
    var globalToken := TokenBytes(c.globalKvHeads, c.globalHeadDimension, o.elementBytes);
    ProductOfFive(local, window, c.localKvHeads, c.localHeadDimension, o.elementBytes);
    ProductOfFive(global, context, c.globalKvHeads, c.globalHeadDimension, o.elementBytes);
    KvIsPerLayer(c, o, c.layerTypes, LayerBytes(c, o, SLIDING), LayerBytes(c, o, FULL));
    Doubled(local, Times(window, localToken));
    Doubled(global, Times(context, globalToken));
  }
}
