/** The checks on a Safetensors header and on a sharded checkpoint, after JSON parsing. */
module Safetensors {
  import opened Wrappers
  import opened Seqs
  import opened Sorting
  import opened Words
  import opened MemoryPlan

  // ---------------------------------------------------------------- sizes

  function DtypeBytes(dtype: string): Result<nat> {
    if dtype in ["BOOL", "I8", "U8", "F8_E4M3", "F8_E5M2"] then Ok(1)
    else if dtype in ["I16", "U16", "F16", "BF16"] then Ok(2)
    else if dtype in ["I32", "U32", "F32"] then Ok(4)
    else if dtype in ["I64", "U64", "F64"] then Ok(8)
    else Err(Unsupported)
  }

  /** The width of an element is the number of bits in the name of its type, in bytes. */
  lemma DtypeWidths()
    ensures DtypeBytes("BOOL") == Ok(1)
    ensures DtypeBytes("I8") == DtypeBytes("U8") == DtypeBytes("F8_E4M3") == DtypeBytes("F8_E5M2") == Ok(8 / 8)
    ensures DtypeBytes("I16") == DtypeBytes("U16") == DtypeBytes("F16") == DtypeBytes("BF16") == Ok(16 / 8)
  {
  }

  lemma WideDtypeWidths()
    ensures DtypeBytes("I32") == DtypeBytes("U32") == DtypeBytes("F32") == Ok(32 / 8)
    ensures DtypeBytes("I64") == DtypeBytes("U64") == DtypeBytes("F64") == Ok(64 / 8)
  {
  }

  predicate KnownType(d: string) {
    || d in ["BOOL", "I8", "U8", "F8_E4M3", "F8_E5M2", "I16", "U16", "F16", "BF16"]
    || d in ["I32", "U32", "F32", "I64", "U64", "F64"]
  }

  /** No other name is one of a type. */
  lemma OtherDtype(d: string)
    ensures DtypeBytes(d).Ok? <==> KnownType(d)
    ensures DtypeBytes(d).Err? ==> DtypeBytes(d).code == Unsupported
  {
  }

  function TensorBytesSpec(shape: seq<Word>, elementBytes: Word): Result<Word> {
    var factors := shape + [elementBytes];
    if !Fits(factors) then Err(DataLoss)
    else (assert factors[..|factors|] == factors; Ok(Product(factors)))
  }

  /** The byte count never wraps: it is the exact product, or a failure when a prefix overflows. */
  method TensorBytes(shape: seq<Word>, elementBytes: Word) returns (r: Result<Word>)
    ensures r == TensorBytesSpec(shape, elementBytes)
  {
    hide Product;
    var factors := shape + [elementBytes];
    var elements: Word := 1;
    NoFactors(factors);
    for k := 0 to |shape|
      invariant elements == Product(factors[..k])
      invariant forall j :: 0 <= j <= k ==> Product(factors[..j]) < LIMIT
    {
      var dimension := shape[k];
      ProductStep(factors, k);
      DivisionGuard(elements, dimension);
      if dimension != 0 && elements > (LIMIT - 1) / dimension {
        assert Product(factors[..k + 1]) >= LIMIT;
        return Err(DataLoss);
      }
      elements := elements * dimension;
    }
    ProductStep(factors, |shape|);
    DivisionGuard(elements, elementBytes);
    assert factors[..|factors|] == factors;
    if elementBytes != 0 && elements > (LIMIT - 1) / elementBytes {
      return Err(DataLoss);
    }
    return Ok(elements * elementBytes);
  }

  function AlignmentFrom(offset: nat, a: nat): nat {
    if a < 2 then 1 else if offset % a == 0 then a else AlignmentFrom(offset, a / 2)
  }

  /** `a` is the largest power of two up to `2^e` that divides the offset. */
  ghost predicate LargestDivisor(offset: nat, a: nat, e: nat) {
    && (exists k: nat :: k <= e && a == Pow2(k) && offset % Pow2(k) == 0)
    && forall k: nat :: k <= e && offset % Pow2(k) == 0 ==> Pow2(k) <= a
  }

  /** The reported alignment is the largest power of two up to 4096 that divides the offset. */
  method Alignment(offset: nat) returns (a: nat)
    ensures a == AlignmentFrom(offset, 4096) && LargestDivisor(offset, a, 12)
  {
    TwelveBits();
    AlignmentIsLargest(offset, 12);
    a := 4096;
    while a >= 2
      invariant AlignmentFrom(offset, a) == AlignmentFrom(offset, 4096)
    {
      if offset % a == 0 { return; }
      a := a / 2;
    }
    return 1;
  }

  lemma {:induction false} AlignmentIsLargest(offset: nat, e: nat)
    ensures LargestDivisor(offset, AlignmentFrom(offset, Pow2(e)), e)
  {
    if e == 0 {
      assert Pow2(0) == 1;
    } else if offset % Pow2(e) != 0 {
      AlignmentIsLargest(offset, e - 1);
    } else {
      forall k: nat | k <= e
        ensures Pow2(k) <= Pow2(e)
      {
        PowerGrows(k, e);
      }
    }
  }

  lemma TwelveBits()
    ensures Pow2(12) == 4096
  {
    assert Pow2(6) == 64;
  }

  // ---------------------------------------------------------------- intervals

  datatype Interval = Interval(begin: nat, end: nat)

  predicate Before(a: Interval, b: Interval) {
    a.begin < b.begin || (a.begin == b.begin && a.end <= b.end)
  }

  lemma BeforeIsOrder()
    ensures IsOrder(Before)
  {
  }

  /** `std::sort` on pairs of words. */
  function Sorted(s: seq<Interval>): seq<Interval> {
    Sort(Before, s)
  }

  ghost predicate IsSorted(s: seq<Interval>) {
    InOrder(Before, s)
  }

  lemma SortedSorts(s: seq<Interval>)
    ensures IsSorted(Sorted(s)) && multiset(Sorted(s)) == multiset(s)
  {
    BeforeIsOrder();
    SortSorts(Before, s);
  }

  predicate Apart(a: Interval, b: Interval) {
    a.end <= b.begin || b.end <= a.begin
  }

  ghost predicate PairwiseApart(s: seq<Interval>) {
    forall i, j :: 0 <= i < j < |s| ==> Apart(s[i], s[j])
  }

  ghost predicate Proper(s: seq<Interval>) {
    forall k :: 0 <= k < |s| ==> s[k].begin < s[k].end
  }

  /** The check of neighbours after sorting. */
  predicate NeighboursApart(s: seq<Interval>) {
    forall k :: 1 <= k < |s| ==> s[k - 1].end <= s[k].begin
  }

  lemma {:induction false} NeighboursOrder(s: seq<Interval>, i: nat, j: nat)
    requires Proper(s) && NeighboursApart(s) && i < j < |s|
    ensures s[i].end <= s[j].begin
  {
    if i + 1 < j {
      NeighboursOrder(s, i, j - 1);
    }
  }

  /** On sorted nonempty intervals, looking at neighbours is enough. */
  lemma NeighboursSuffice(s: seq<Interval>)
    requires Proper(s) && IsSorted(s)
    ensures NeighboursApart(s) <==> PairwiseApart(s)
  {
    if NeighboursApart(s) {
      forall i, j | 0 <= i < j < |s|
        ensures Apart(s[i], s[j])
      {
        NeighboursOrder(s, i, j);
      }
    }
    if PairwiseApart(s) {
      forall k | 1 <= k < |s|
        ensures s[k - 1].end <= s[k].begin
      {
        assert Before(s[k - 1], s[k]) && Apart(s[k - 1], s[k]);
      }
    }
  }

  lemma {:induction false} ApartInsert(x: Interval, s: seq<Interval>)
    ensures PairwiseApart(Insert(Before, x, s)) <==> PairwiseApart([x] + s)
  {
    if !(s == [] || Before(x, s[0])) {
      ApartInsert(x, s[1..]);
      InsertMembers(Before, x, s[1..]);
      ApartCons(s[0], Insert(Before, x, s[1..]));
      ApartCons(x, s);
      ApartCons(s[0], s[1..]);
      ApartCons(x, s[1..]);
      assert s == [s[0]] + s[1..];
      ApartFromAll(s[0], Insert(Before, x, s[1..]), [x] + s[1..]);
      AllCons(s[0], x, s[1..]);
      AllCons(x, s[0], s[1..]);
    }
  }

  ghost predicate ApartFrom(x: Interval, s: seq<Interval>) {
    forall k :: 0 <= k < |s| ==> Apart(x, s[k])
  }

  lemma AllCons(x: Interval, y: Interval, s: seq<Interval>)
    ensures ApartFrom(x, [y] + s) <==> Apart(x, y) && ApartFrom(x, s)
  {
    var t := [y] + s;
    assert t[0] == y;
    assert forall k :: 0 <= k < |s| ==> t[k + 1] == s[k];
    if ApartFrom(x, t) {
      forall k | 0 <= k < |s|
        ensures Apart(x, s[k])
      {
        assert Apart(x, t[k + 1]);
      }
    }
  }

  lemma ApartFromAll(x: Interval, s: seq<Interval>, t: seq<Interval>)
    requires multiset(s) == multiset(t)
    ensures ApartFrom(x, s) <==> ApartFrom(x, t)
  {
    ApartFromSome(x, s, t);
    ApartFromSome(x, t, s);
  }

  lemma ApartFromSome(x: Interval, s: seq<Interval>, t: seq<Interval>)
    requires multiset(s) == multiset(t)
    ensures ApartFrom(x, s) ==> ApartFrom(x, t)
  {
    if ApartFrom(x, s) {
      forall k | 0 <= k < |t|
        ensures Apart(x, t[k])
      {
        assert t[k] in multiset(t);
        assert t[k] in s;
        var i :| 0 <= i < |s| && s[i] == t[k];
      }
    }
  }

  lemma ApartCons(x: Interval, s: seq<Interval>)
    ensures PairwiseApart([x] + s) <==> ApartFrom(x, s) && PairwiseApart(s)
  {
    var t := [x] + s;
    assert forall k :: 0 <= k < |s| ==> t[k + 1] == s[k];
    if PairwiseApart(t) {
      forall k | 0 <= k < |s|
        ensures Apart(x, s[k])
      {
        assert Apart(t[0], t[k + 1]);
      }
      forall i, j | 0 <= i < j < |s|
        ensures Apart(s[i], s[j])
      {
        assert Apart(t[i + 1], t[j + 1]);
      }
    }
  }

  /** Sorting does not matter to being pairwise apart. */
  lemma {:induction false} SortingKeepsApart(s: seq<Interval>)
    ensures PairwiseApart(Sorted(s)) <==> PairwiseApart(s)
  {
    if s != [] {
      var rest := Sorted(s[1..]);
      SortingKeepsApart(s[1..]);
      SortedSorts(s[1..]);
      ApartInsert(s[0], rest);
      ApartCons(s[0], rest);
      ApartCons(s[0], s[1..]);
      ApartFromAll(s[0], rest, s[1..]);
      assert s == [s[0]] + s[1..];
    }
  }

  function Lengths(s: seq<Interval>): int {
    if s == [] then 0 else (s[0].end - s[0].begin) + Lengths(s[1..])
  }

  lemma {:induction false} InsertLengths(x: Interval, s: seq<Interval>)
    ensures Lengths(Insert(Before, x, s)) == (x.end - x.begin) + Lengths(s)
  {
    if s == [] || Before(x, s[0]) {
      assert ([x] + s)[1..] == s;
    } else {
      InsertLengths(x, s[1..]);
      assert ([s[0]] + Insert(Before, x, s[1..]))[1..] == Insert(Before, x, s[1..]);
    }
  }

  lemma {:induction false} SortedLengths(s: seq<Interval>)
    ensures Lengths(Sorted(s)) == Lengths(s)
  {
    if s != [] {
      SortedLengths(s[1..]);
      InsertLengths(s[0], Sorted(s[1..]));
    }
  }

  /** Disjoint intervals in order take no more room than they span. */
  lemma {:induction false} LengthsFit(s: seq<Interval>, from: nat, size: nat)
    requires Proper(s) && NeighboursApart(s) && from <= size
    requires forall k :: 0 <= k < |s| ==> from <= s[k].begin && s[k].end <= size
    ensures Lengths(s) <= size - from
  {
    if s != [] {
      forall k | 0 <= k < |s[1..]|
        ensures s[0].end <= s[1..][k].begin
      {
        NeighboursOrder(s, 0, k + 1);
      }
      LengthsFit(s[1..], s[0].end, size);
    }
  }

  // ---------------------------------------------------------------- one file

  type Int64 = n: int | -0x8000_0000_0000_0000 <= n < 0x8000_0000_0000_0000

  /** A JSON value where an integer is wanted: an integer, or something else. */
  type Number = Option<Int64>

  /** One header member; each field is present with its JSON type, or not. */
  datatype Metadata = Metadata(dtype: Option<string>, shape: Option<seq<Number>>, offsets: Option<seq<Number>>)
  datatype Entry = Entry(name: string, metadata: Option<Metadata>)

  datatype Stored = Stored(
    name: string, shape: seq<Word>, dtype: string, offset: nat, length: nat, alignment: nat, shard: string)

  const MAX_HEADER: nat := 256 * 1024 * 1024
  const METADATA: string := "__metadata__"

  function IsNatural(n: Number): bool {
    n.Some? && n.value >= 0
  }

  function Shape(numbers: seq<Number>): (r: seq<Word>)
    requires forall k :: 0 <= k < |numbers| ==> IsNatural(numbers[k])
  {
    if numbers == [] then []
    else
      var last := numbers[|numbers| - 1];
      assert IsNatural(last);
      var dimension: Word := last.value;
      Shape(numbers[..|numbers| - 1]) + [dimension]
  }

  /** The tensor an entry describes, in a payload of `payload` bytes starting at `base`. */
  function Describe(e: Entry, base: nat, payload: nat, shard: string): Result<Stored> {
    if e.metadata.None? then Err(DataLoss)
    else
      var m := e.metadata.value;
      if m.dtype.None? || m.shape.None? || m.offsets.None? then Err(DataLoss)
      else if exists k :: 0 <= k < |m.shape.value| && !IsNatural(m.shape.value[k]) then Err(DataLoss)
      else
        var offsets := m.offsets.value;
        if |offsets| != 2 || !IsNatural(offsets[0]) || offsets[1].None? || offsets[1].value < offsets[0].value then Err(DataLoss)
        else
          var begin: nat, end: nat := offsets[0].value, offsets[1].value;
          if end > payload then Err(DataLoss)
          else
            var element := DtypeBytes(m.dtype.value);
            if element.Err? then Err(element.code)
            else
              var shape := Shape(m.shape.value);
              var expected := TensorBytesSpec(shape, element.value);
              if expected.Err? then Err(expected.code)
              else if end - begin != expected.value then Err(DataLoss)
              else Ok(Stored(e.name, shape, m.dtype.value, base + begin, end - begin, AlignmentFrom(base + begin, 4096), shard))
  }

  /** The tensors of the first `n` entries. */
  function Table(entries: seq<Entry>, n: nat, base: nat, payload: nat, shard: string): Result<seq<Stored>>
    requires n <= |entries|
  {
    if n == 0 then Ok([])
    else
      var before := Table(entries, n - 1, base, payload, shard);
      var e := entries[n - 1];
      if before.Err? then before
      else if e.name == METADATA then (if e.metadata.None? then Err(DataLoss) else before)
      else
        var t := Describe(e, base, payload, shard);
        if t.Err? then Err(t.code) else Ok(before.value + [t.value])
  }

  function RangeOf(t: Stored): Interval {
    Interval(t.offset, t.offset + t.length)
  }

  /** The byte ranges of the tensors that have any bytes. */
  function Ranges(tensors: seq<Stored>): seq<Interval> {
    if tensors == [] then []
    else Ranges(tensors[..|tensors| - 1])
         + (if tensors[|tensors| - 1].length > 0 then [RangeOf(tensors[|tensors| - 1])] else [])
  }

  /** `LoadFile` after the header is parsed. */
  function LoadFileSpec(size: nat, headerLength: nat, entries: seq<Entry>, shard: string): Result<seq<Stored>> {
    if size < 8 || headerLength < 2 || headerLength > MAX_HEADER || headerLength > size - 8 then Err(DataLoss)
    else
      var base := 8 + headerLength;
      var table := Table(entries, |entries|, base, size - base, shard);
      if table.Err? then table
      else if !NeighboursApart(Sorted(Ranges(table.value))) then Err(DataLoss)
      else table
  }

  lemma {:induction false} TableErrorStays(entries: seq<Entry>, k: nat, n: nat, base: nat, payload: nat, shard: string)
    requires k <= n <= |entries| && Table(entries, k, base, payload, shard).Err?
    ensures Table(entries, n, base, payload, shard) == Table(entries, k, base, payload, shard)
  {
    hide Describe;
    if k < n {
      TableErrorStays(entries, k, n - 1, base, payload, shard);
    }
  }

  method ReadShape(numbers: seq<Number>) returns (r: Option<seq<Word>>)
    ensures r.Some? <==> forall k :: 0 <= k < |numbers| ==> IsNatural(numbers[k])
    ensures r.Some? ==> r.value == Shape(numbers)
  {
    var shape: seq<Word> := [];
    for k := 0 to |numbers|
      invariant forall j :: 0 <= j < k ==> IsNatural(numbers[j])
      invariant shape == Shape(numbers[..k])
    {
      if !IsNatural(numbers[k]) { return None; }
      assert numbers[..k + 1][..k] == numbers[..k];
      shape := shape + [numbers[k].value];
    }
    assert numbers[..|numbers|] == numbers;
    return Some(shape);
  }

  method ReadEntry(e: Entry, base: nat, payload: nat, shard: string) returns (r: Result<Stored>)
    ensures r == Describe(e, base, payload, shard)
  {
    hide Fits, Product, Shape, AlignmentFrom;
    if e.metadata.None? { return Err(DataLoss); }
    var m := e.metadata.value;
    if m.dtype.None? || m.shape.None? || m.offsets.None? { return Err(DataLoss); }
    var shape := ReadShape(m.shape.value);
    if shape.None? { return Err(DataLoss); }
    var offsets := m.offsets.value;
    if |offsets| != 2 { return Err(DataLoss); }
    if !IsNatural(offsets[0]) || offsets[1].None? || offsets[1].value < offsets[0].value { return Err(DataLoss); }
    var begin: nat, end: nat := offsets[0].value, offsets[1].value;
    if end > payload { return Err(DataLoss); }
    var element := DtypeBytes(m.dtype.value);
    if element.Err? { return Err(element.code); }
    var expected := TensorBytes(shape.value, element.value);
    if expected.Err? { return Err(expected.code); }
    if end - begin != expected.value { return Err(DataLoss); }
    var alignment := Alignment(base + begin);
    return Ok(Stored(e.name, shape.value, m.dtype.value, base + begin, end - begin, alignment, shard));
  }

  lemma RangesSnoc(tensors: seq<Stored>, t: Stored)
    ensures Ranges(tensors + [t]) == Ranges(tensors) + (if t.length > 0 then [RangeOf(t)] else [])
  {
    assert (tensors + [t])[..|tensors|] == tensors;
  }

  method LoadFile(size: nat, headerLength: nat, entries: seq<Entry>, shard: string) returns (r: Result<seq<Stored>>)
    ensures r == LoadFileSpec(size, headerLength, entries, shard)
  {
    hide Describe, Ranges, Sorted;
    if size < 8 { return Err(DataLoss); }
    if headerLength < 2 || headerLength > MAX_HEADER || headerLength > size - 8 { return Err(DataLoss); }
    var base := 8 + headerLength;
    var payload := size - base;
    var tensors: seq<Stored>, intervals: seq<Interval> := [], [];
    NoRanges();
    for k := 0 to |entries|
      invariant Table(entries, k, base, payload, shard) == Ok(tensors) && intervals == Ranges(tensors)
    {
      var e := entries[k];
      if e.name == METADATA {
        if e.metadata.None? {
          TableErrorStays(entries, k + 1, |entries|, base, payload, shard);
          return Err(DataLoss);
        }
        continue;
      }
      var t := ReadEntry(e, base, payload, shard);
      if t.Err? {
        TableErrorStays(entries, k + 1, |entries|, base, payload, shard);
        return Err(t.code);
      }
      RangesSnoc(tensors, t.value);
      EmptyUnits(intervals);
      tensors := tensors + [t.value];
      if t.value.length > 0 {
        intervals := intervals + [RangeOf(t.value)];
      }
    }
    intervals := Sorted(intervals);
    var index := 1;
    while index < |intervals|
      invariant forall k :: 1 <= k < index && k < |intervals| ==> intervals[k - 1].end <= intervals[k].begin
    {
      if intervals[index].begin < intervals[index - 1].end { return Err(DataLoss); }
      index := index + 1;
    }
    return Ok(tensors);
  }

  lemma NoRanges()
    ensures Ranges([]) == []
  {
  }

  // ---------------------------------------------------------------- what acceptance means

  /** A described tensor lies in the payload and has exactly the bytes of its type and shape. */
  ghost predicate WellSized(t: Stored, base: nat, size: nat) {
    && base <= t.offset && t.offset + t.length <= size
    && DtypeBytes(t.dtype).Ok?
    && Fits(t.shape + [DtypeBytes(t.dtype).value]) && t.length == Product(t.shape + [DtypeBytes(t.dtype).value])
    && t.alignment == AlignmentFrom(t.offset, 4096)
  }

  lemma DescribedIsWellSized(e: Entry, base: nat, payload: nat, shard: string)
    requires Describe(e, base, payload, shard).Ok?
    ensures WellSized(Describe(e, base, payload, shard).value, base, base + payload)
    ensures Describe(e, base, payload, shard).value.name == e.name
  {
    hide Fits, Product, Shape, AlignmentFrom;
  }

  lemma {:induction false} TableIsWellSized(entries: seq<Entry>, n: nat, base: nat, payload: nat, shard: string)
    requires n <= |entries| && Table(entries, n, base, payload, shard).Ok?
    ensures forall t :: t in Table(entries, n, base, payload, shard).value ==> WellSized(t, base, base + payload)
  {
    hide Describe, WellSized;
    if n > 0 {
      TableIsWellSized(entries, n - 1, base, payload, shard);
      if entries[n - 1].name != METADATA {
        DescribedIsWellSized(entries[n - 1], base, payload, shard);
      }
    }
  }

  lemma {:induction false} RangesAreProper(tensors: seq<Stored>, base: nat, size: nat)
    requires forall t :: t in tensors ==> base <= t.offset && t.offset + t.length <= size
    ensures Proper(Ranges(tensors))
    ensures forall k :: 0 <= k < |Ranges(tensors)| ==> base <= Ranges(tensors)[k].begin && Ranges(tensors)[k].end <= size
  {
    if tensors != [] {
      RangesAreProper(tensors[..|tensors| - 1], base, size);
    }
  }

  function Bytes(tensors: seq<Stored>): nat {
    if tensors == [] then 0 else Bytes(tensors[..|tensors| - 1]) + tensors[|tensors| - 1].length
  }

  lemma {:induction false} LengthsConcat(a: seq<Interval>, b: seq<Interval>)
    ensures Lengths(a + b) == Lengths(a) + Lengths(b)
  {
    if a == [] {
      EmptyUnits(b);
    } else {
      TailOfConcat(a, b);
      LengthsConcat(a[1..], b);
    }
  }

  lemma {:induction false} RangeLengths(tensors: seq<Stored>)
    ensures Lengths(Ranges(tensors)) == Bytes(tensors)
  {
    if tensors != [] {
      var last := tensors[|tensors| - 1];
      var own := if last.length > 0 then [RangeOf(last)] else [];
      RangeLengths(tensors[..|tensors| - 1]);
      LengthsConcat(Ranges(tensors[..|tensors| - 1]), own);
      assert Lengths(own) == last.length;
    }
  }

  predicate Holds(t: Stored, position: int) {
    t.offset <= position < t.offset + t.length
  }

  /** Two tensors share a byte of the file. */
  ghost predicate Overlap(a: Stored, b: Stored) {
    exists position :: Holds(a, position) && Holds(b, position)
  }

  ghost predicate Disjoint(tensors: seq<Stored>) {
    forall i, j :: 0 <= i < j < |tensors| ==> !Overlap(tensors[i], tensors[j])
  }

  lemma ApartIsDisjoint(a: Stored, b: Stored)
    ensures Overlap(a, b) <==> a.length > 0 && b.length > 0 && !Apart(RangeOf(a), RangeOf(b))
  {
    if a.length > 0 && b.length > 0 && !Apart(RangeOf(a), RangeOf(b)) {
      var position := if a.offset < b.offset then b.offset else a.offset;
      assert Holds(a, position) && Holds(b, position);
    }
  }

  /** A tensor without bytes overlaps nothing; another one is as apart as its range. */
  lemma {:induction false} ApartFromRanges(t: Stored, tensors: seq<Stored>)
    requires t.length > 0
    ensures ApartFrom(RangeOf(t), Ranges(tensors)) <==> forall k :: 0 <= k < |tensors| ==> !Overlap(tensors[k], t)
  {
    hide Overlap, Apart, RangeOf, Ranges;
    if tensors == [] {
      NoRanges();
    } else {
      var front, last := tensors[..|tensors| - 1], tensors[|tensors| - 1];
      ApartFromRanges(t, front);
      ApartIsDisjoint(last, t);
      RangesStep(tensors);
      ApartSnoc(RangeOf(t), Ranges(front), RangeOf(last));
      ApartCommutes(RangeOf(t), RangeOf(last));
      assert forall k :: 0 <= k < |front| ==> front[k] == tensors[k];
    }
  }

  lemma RangesStep(tensors: seq<Stored>)
    requires tensors != []
    ensures var front, last := tensors[..|tensors| - 1], tensors[|tensors| - 1];
            Ranges(tensors) == if last.length > 0 then Ranges(front) + [RangeOf(last)] else Ranges(front)
  {
    EmptyUnits(Ranges(tensors[..|tensors| - 1]));
  }

  lemma ApartCommutes(a: Interval, b: Interval)
    ensures Apart(a, b) <==> Apart(b, a)
  {
  }

  lemma ApartSnoc(x: Interval, s: seq<Interval>, y: Interval)
    ensures ApartFrom(x, s + [y]) <==> ApartFrom(x, s) && Apart(x, y)
  {
    var t := s + [y];
    assert t[|s|] == y;
    if ApartFrom(x, t) {
      forall k | 0 <= k < |s|
        ensures Apart(x, s[k])
      {
        assert Apart(x, t[k]);
      }
    }
  }

  lemma PairwiseSnoc(s: seq<Interval>, y: Interval)
    ensures PairwiseApart(s + [y]) <==> PairwiseApart(s) && ApartFrom(y, s)
  {
    var t := s + [y];
    assert t[|s|] == y;
    if PairwiseApart(t) {
      forall i, j | 0 <= i < j < |s|
        ensures Apart(s[i], s[j])
      {
        assert Apart(t[i], t[j]);
      }
      forall k | 0 <= k < |s|
        ensures Apart(y, s[k])
      {
        assert Apart(t[k], t[|s|]);
      }
    }
  }

  lemma {:induction false} DisjointExactly(tensors: seq<Stored>)
    ensures PairwiseApart(Ranges(tensors)) <==> Disjoint(tensors)
  {
    hide Overlap;
    if tensors != [] {
      var front, last := tensors[..|tensors| - 1], tensors[|tensors| - 1];
      DisjointExactly(front);
      DisjointSnoc(front, last);
      assert tensors == front + [last];
      if last.length > 0 {
        PairwiseSnoc(Ranges(front), RangeOf(last));
        ApartFromRanges(last, front);
      } else {
        EmptyUnits(Ranges(front));
        forall k | 0 <= k < |front|
          ensures !Overlap(front[k], last)
        {
          ApartIsDisjoint(front[k], last);
        }
      }
    }
  }

  lemma DisjointSnoc(front: seq<Stored>, last: Stored)
    ensures Disjoint(front + [last]) <==> Disjoint(front) && forall k :: 0 <= k < |front| ==> !Overlap(front[k], last)
  {
    hide Overlap;
    var t := front + [last];
    assert t[|front|] == last;
    if Disjoint(t) {
      forall i, j | 0 <= i < j < |front|
        ensures !Overlap(front[i], front[j])
      {
        assert !Overlap(t[i], t[j]);
      }
      forall k | 0 <= k < |front|
        ensures !Overlap(front[k], last)
      {
        assert !Overlap(t[k], t[|front|]);
      }
    }
  }

  /** Main result: when the entries are readable, the sorted neighbour check accepts exactly the
      tables in which no two tensors share a byte. */
  lemma OverlapExactly(size: nat, headerLength: nat, entries: seq<Entry>, shard: string)
    requires 8 <= size && 2 <= headerLength <= MAX_HEADER && headerLength <= size - 8
    requires Table(entries, |entries|, 8 + headerLength, size - 8 - headerLength, shard).Ok?
    ensures LoadFileSpec(size, headerLength, entries, shard).Ok?
       <==> Disjoint(Table(entries, |entries|, 8 + headerLength, size - 8 - headerLength, shard).value)
  {
    hide Table, Sorted, Ranges, WellSized, Overlap;
    var base := 8 + headerLength;
    var tensors := Table(entries, |entries|, base, size - base, shard).value;
    TableIsWellSized(entries, |entries|, base, size - base, shard);
    Within(tensors, base, size);
    RangesAreProper(tensors, base, size);
    SortedRanges(tensors);
    SortingKeepsApart(Ranges(tensors));
    NeighboursSuffice(Sorted(Ranges(tensors)));
    DisjointExactly(tensors);
  }

  lemma Within(tensors: seq<Stored>, base: nat, size: nat)
    requires forall t :: t in tensors ==> WellSized(t, base, size)
    ensures forall t :: t in tensors ==> base <= t.offset && t.offset + t.length <= size
  {
    hide Fits, Product, DtypeBytes, AlignmentFrom;
  }

  lemma SortedRanges(tensors: seq<Stored>)
    requires Proper(Ranges(tensors))
    ensures IsSorted(Sorted(Ranges(tensors))) && Proper(Sorted(Ranges(tensors)))
  {
    hide Ranges, Sorted;
    var s, t := Ranges(tensors), Sorted(Ranges(tensors));
    SortedSorts(s);
    forall k | 0 <= k < |t|
      ensures t[k].begin < t[k].end
    {
      assert t[k] in multiset(t);
      assert t[k] in s;
    }
  }

  /** Main result: an accepted table has pairwise disjoint tensors inside the payload, each of
      exactly its type-and-shape size, which together fit the payload. */
  lemma AcceptedFits(size: nat, headerLength: nat, entries: seq<Entry>, shard: string)
    requires LoadFileSpec(size, headerLength, entries, shard).Ok?
    ensures var tensors := LoadFileSpec(size, headerLength, entries, shard).value;
            && 8 + headerLength <= size
            && (forall t :: t in tensors ==> WellSized(t, 8 + headerLength, size))
            && Disjoint(tensors)
            && Bytes(tensors) <= size - 8 - headerLength
  {
    hide Table, Sorted, Ranges, WellSized, Overlap;
    var base := 8 + headerLength;
    var tensors := LoadFileSpec(size, headerLength, entries, shard).value;
    OverlapExactly(size, headerLength, entries, shard);
    TableIsWellSized(entries, |entries|, base, size - base, shard);
    Within(tensors, base, size);
    RangesAreProper(tensors, base, size);
    SortedRanges(tensors);
    var s := Sorted(Ranges(tensors));
    SortedSorts(Ranges(tensors));
    forall k | 0 <= k < |s|
      ensures base <= s[k].begin && s[k].end <= size
    {
      assert s[k] in multiset(s);
      assert s[k] in Ranges(tensors);
    }
    LengthsFit(s, base, size);
    SortedLengths(Ranges(tensors));
    RangeLengths(tensors);
  }

  // ---------------------------------------------------------------- which files are accepted

  lemma {:induction false} ShapeExactly(numbers: seq<Number>, k: nat)
    requires k < |numbers| && forall j :: 0 <= j < |numbers| ==> IsNatural(numbers[j])
    ensures |Shape(numbers)| == |numbers| && Shape(numbers)[k] == numbers[k].value
  {
    var last := |numbers| - 1;
    if last > 0 {
      ShapeExactly(numbers[..last], if k < last then k else 0);
    } else {
      assert Shape(numbers[..0]) == [];
    }
  }

  /** An entry with its three members, natural dimensions, and a byte range inside the payload. */
  ghost predicate Framed(e: Entry, payload: nat) {
    e.metadata.Some?
    && var m := e.metadata.value;
       && m.dtype.Some? && m.shape.Some? && m.offsets.Some?
       && (forall k :: 0 <= k < |m.shape.value| ==> m.shape.value[k].Some? && m.shape.value[k].value >= 0)
       && |m.offsets.value| == 2 && m.offsets.value[0].Some? && m.offsets.value[1].Some?
       && 0 <= m.offsets.value[0].value <= m.offsets.value[1].value <= payload
  }

  /** Such an entry of a known type whose range is exactly as long as its type and shape ask for. */
  ghost predicate Readable(e: Entry, payload: nat) {
    Framed(e, payload)
    && var m := e.metadata.value;
       var range := m.offsets.value[1].value - m.offsets.value[0].value;
       && KnownType(m.dtype.value) && DtypeBytes(m.dtype.value).Ok?
       && (forall k :: 0 <= k < |m.shape.value| ==> IsNatural(m.shape.value[k]))
       && var factors := Shape(m.shape.value) + [DtypeBytes(m.dtype.value).value];
          Fits(factors) && range == Product(factors)
  }

  /** Main result: an entry is read exactly when it is readable, as the range and shape it gives; a
      framed one of another type is unsupported, any other is lost data. */
  lemma ReadExactly(e: Entry, base: nat, payload: nat, shard: string)
    ensures var r := Describe(e, base, payload, shard);
            && (r.Ok? <==> Readable(e, payload))
            && (r.Err? ==> r.code == if Framed(e, payload) && !KnownType(e.metadata.value.dtype.value) then Unsupported else DataLoss)
            && (r.Ok? ==> var m := e.metadata.value;
                          && r.value.name == e.name && r.value.dtype == m.dtype.value && r.value.shard == shard
                          && |r.value.shape| == |m.shape.value|
                          && (forall k: nat :: k < |m.shape.value| ==> m.shape.value[k] == Some(r.value.shape[k]))
                          && r.value.offset == base + m.offsets.value[0].value
                          && r.value.offset + r.value.length == base + m.offsets.value[1].value)
  {
    UnknownType(e);
    ShapeRead(e);
    hide Fits, Product, Shape, AlignmentFrom, DtypeBytes, KnownType;
    FactorsWhole(e);
  }

  lemma UnknownType(e: Entry)
    ensures e.metadata.Some? && e.metadata.value.dtype.Some? ==>
              var r := DtypeBytes(e.metadata.value.dtype.value);
              (r.Ok? <==> KnownType(e.metadata.value.dtype.value)) && (r.Err? ==> r.code == Unsupported)
  {
    hide DtypeBytes, KnownType;
    if e.metadata.Some? && e.metadata.value.dtype.Some? {
      OtherDtype(e.metadata.value.dtype.value);
    }
  }

  ghost predicate NaturalShape(e: Entry) {
    e.metadata.Some? && e.metadata.value.shape.Some?
    && forall k :: 0 <= k < |e.metadata.value.shape.value| ==> IsNatural(e.metadata.value.shape.value[k])
  }

  lemma ShapeRead(e: Entry)
    ensures NaturalShape(e) ==> var numbers := e.metadata.value.shape.value;
                                && |Shape(numbers)| == |numbers|
                                && forall k: nat :: k < |numbers| ==> numbers[k] == Some(Shape(numbers)[k])
  {
    if NaturalShape(e) {
      var numbers := e.metadata.value.shape.value;
      if numbers == [] {
        assert Shape(numbers) == [];
      }
      forall k: nat | k < |numbers|
        ensures |Shape(numbers)| == |numbers| && numbers[k] == Some(Shape(numbers)[k])
      {
        ShapeExactly(numbers, k);
      }
    }
  }

  lemma FactorsWhole(e: Entry)
    ensures NaturalShape(e) && e.metadata.value.dtype.Some? && DtypeBytes(e.metadata.value.dtype.value).Ok? ==>
            var factors := Shape(e.metadata.value.shape.value) + [DtypeBytes(e.metadata.value.dtype.value).value];
            factors[..|factors|] == factors
  {
  }

  /** A header member is a readable tensor, or the metadata object. */
  ghost predicate Listed(e: Entry, payload: nat) {
    if e.name == "__metadata__" then e.metadata.Some? else Readable(e, payload)
  }

  lemma {:induction false} TableExactly(entries: seq<Entry>, n: nat, base: nat, payload: nat, shard: string)
    requires n <= |entries|
    ensures Table(entries, n, base, payload, shard).Ok? <==> forall k :: 0 <= k < n ==> Listed(entries[k], payload)
  {
    hide Describe, Readable;
    if n > 0 {
      TableExactly(entries, n - 1, base, payload, shard);
      ReadExactly(entries[n - 1], base, payload, shard);
    }
  }

  /** Main result: a file is accepted exactly when its header has 2 to 2^28 bytes and fits the file,
      every member of it is listed properly, and no two tensors share a byte. */
  lemma FileExactly(size: nat, headerLength: nat, entries: seq<Entry>, shard: string)
    ensures LoadFileSpec(size, headerLength, entries, shard).Ok? <==>
            && 2 <= headerLength <= 268_435_456 && 8 + headerLength <= size
            && (forall k :: 0 <= k < |entries| ==> Listed(entries[k], size - 8 - headerLength))
            && var table := Table(entries, |entries|, 8 + headerLength, size - 8 - headerLength, shard);
               table.Ok? && Disjoint(table.value)
  {
    hide Table, Listed, Sorted, Ranges, Disjoint;
    if 2 <= headerLength <= MAX_HEADER && 8 + headerLength <= size {
      TableExactly(entries, |entries|, 8 + headerLength, size - 8 - headerLength, shard);
      if Table(entries, |entries|, 8 + headerLength, size - 8 - headerLength, shard).Ok? {
        OverlapExactly(size, headerLength, entries, shard);
      }
    }
  }

  // ---------------------------------------------------------------- the directory

  /** A shard file: absent, resolving outside the model directory, or loaded from inside it. */
  datatype Shard = Missing | Escapes | Inside(tensors: Result<seq<Stored>>)

  function TensorsOf(file: Shard): Result<seq<Stored>> {
    match file
    case Missing => Err(NotFound)
    case Escapes => Err(DataLoss)
    case Inside(tensors) => tensors
  }

  /** Every file's tensors, in order, if every file loads. */
  function AllTensors(files: seq<Shard>): Result<seq<Stored>> {
    if files == [] then Ok([])
    else
      var before, last := AllTensors(files[..|files| - 1]), TensorsOf(files[|files| - 1]);
      if before.Err? then before else if last.Err? then last else Ok(before.value + last.value)
  }

  ghost predicate DistinctNames(tensors: seq<Stored>) {
    forall i, j :: 0 <= i < j < |tensors| ==> tensors[i].name != tensors[j].name
  }

  predicate Assigned(t: Stored, index: map<string, string>) {
    t.name in index && index[t.name] == t.shard
  }

  function Names(tensors: seq<Stored>): set<string> {
    set k | 0 <= k < |tensors| :: tensors[k].name
  }

  /** The checks made while files are added. */
  ghost predicate Admits(tensors: seq<Stored>, index: map<string, string>) {
    DistinctNames(tensors) && (index != map[] ==> forall k :: 0 <= k < |tensors| ==> Assigned(tensors[k], index))
  }

  /** The checks over all shards. */
  ghost predicate Consistent(tensors: seq<Stored>, index: map<string, string>) {
    Admits(tensors, index) && (index != map[] ==> |tensors| == |index|)
  }

  /** The name and index checks on one file's tensors; `seen` holds the names so far. */
  method AddTensors(tensors: seq<Stored>, seen: seq<Stored>, names: set<string>, index: map<string, string>)
    returns (r: Option<set<string>>)
    requires names == Names(seen) && Admits(seen, index)
    ensures r.Some? <==> Admits(seen + tensors, index)
    ensures r.Some? ==> r.value == Names(seen + tensors)
  {
    var grown := names;
    EmptyUnits(seen);
    assert forall k :: 0 <= k < |tensors| ==> (seen + tensors)[|seen| + k] == tensors[k];
    for k := 0 to |tensors|
      invariant grown == Names(seen + tensors[..k]) && DistinctNames(seen + tensors[..k])
      invariant index != map[] ==> forall j :: 0 <= j < k ==> Assigned(tensors[j], index)
    {
      var t := tensors[k];
      OneMoreName(seen, tensors, k);
      if t.name in grown { return None; }
      grown := grown + {t.name};
      if index != map[] && !Assigned(t, index) { return None; }
    }
    assert tensors[..|tensors|] == tensors;
    return Some(grown);
  }

  lemma OneMoreName(seen: seq<Stored>, tensors: seq<Stored>, k: nat)
    requires k < |tensors| && DistinctNames(seen + tensors[..k])
    ensures Names(seen + tensors[..k + 1]) == Names(seen + tensors[..k]) + {tensors[k].name}
    ensures DistinctNames(seen + tensors[..k + 1]) <==> tensors[k].name !in Names(seen + tensors[..k])
    ensures tensors[k].name in Names(seen + tensors[..k]) ==> !DistinctNames(seen + tensors)
  {
    var a, b, all := seen + tensors[..k], seen + tensors[..k + 1], seen + tensors;
    assert b == a + [tensors[k]];
    assert b[|a|] == tensors[k] && all[|a|] == tensors[k];
    if tensors[k].name in Names(a) {
      var i :| 0 <= i < |a| && a[i].name == tensors[k].name;
      assert b[i] == a[i] && all[i] == a[i];
      assert b[i].name == b[|a|].name && all[i].name == all[|a|].name;
    }
    forall n
      ensures n in Names(b) <==> n in Names(a) + {tensors[k].name}
    {
      if n in Names(a) {
        var i :| 0 <= i < |a| && a[i].name == n;
        assert b[i].name == n;
      }
    }
  }

  /** A prefix with a repeated or misplaced name spoils the whole. */
  lemma AdmitsPrefix(a: seq<Stored>, b: seq<Stored>, index: map<string, string>)
    requires Admits(a + b, index)
    ensures Admits(a, index)
  {
    hide Assigned;
    assert forall k :: 0 <= k < |a| ==> (a + b)[k] == a[k];
  }

  /** Lexicographic order of names. */
  predicate NameBefore(a: string, b: string) {
    a == [] || (b != [] && (a[0] < b[0] || (a[0] == b[0] && NameBefore(a[1..], b[1..]))))
  }

  predicate ByName(a: Stored, b: Stored) {
    NameBefore(a.name, b.name)
  }

  lemma {:induction false} NamesAreTotal(a: string, b: string)
    ensures NameBefore(a, b) || NameBefore(b, a)
  {
    if a != [] && b != [] {
      NamesAreTotal(a[1..], b[1..]);
    }
  }

  lemma {:induction false} NamesAreTransitive(a: string, b: string, c: string)
    requires NameBefore(a, b) && NameBefore(b, c)
    ensures NameBefore(a, c)
  {
    if a != [] && a[0] == b[0] == c[0] {
      NamesAreTransitive(a[1..], b[1..], c[1..]);
    }
  }

  /** The accepted directory is returned in name order, with nothing lost. */
  lemma SortedByName(tensors: seq<Stored>)
    ensures InOrder(ByName, Sort(ByName, tensors)) && multiset(Sort(ByName, tensors)) == multiset(tensors)
  {
    forall a: Stored, b: Stored
      ensures ByName(a, b) || ByName(b, a)
    {
      NamesAreTotal(a.name, b.name);
    }
    forall a: Stored, b: Stored, c: Stored | ByName(a, b) && ByName(b, c)
      ensures ByName(a, c)
    {
      NamesAreTransitive(a.name, b.name, c.name);
    }
    SortSorts(ByName, tensors);
  }

  /** The file loop: shards are checked, loaded and added one after the other. */
  ghost function Gathered(files: seq<Shard>, index: map<string, string>): Result<seq<Stored>> {
    if files == [] then Ok([])
    else
      var before, last := Gathered(files[..|files| - 1], index), TensorsOf(files[|files| - 1]);
      if before.Err? then before
      else if last.Err? then last
      else if Admits(before.value + last.value, index) then Ok(before.value + last.value)
      else Err(DataLoss)
  }

  ghost function DirectorySpec(files: seq<Shard>, index: map<string, string>): Result<seq<Stored>> {
    var gathered := Gathered(files, index);
    if gathered.Err? then gathered
    else if index != map[] && |gathered.value| != |index| then Err(DataLoss)
    else Ok(Sort(ByName, gathered.value))
  }

  lemma GatheredStep(files: seq<Shard>, k: nat, index: map<string, string>)
    requires k < |files| && Gathered(files[..k], index).Ok?
    ensures var before, last := Gathered(files[..k], index).value, TensorsOf(files[k]);
            Gathered(files[..k + 1], index)
            == if last.Err? then last else if Admits(before + last.value, index) then Ok(before + last.value) else Err(DataLoss)
  {
    assert files[..k + 1][..k] == files[..k];
  }

  lemma {:induction false} FailureStays(files: seq<Shard>, k: nat, index: map<string, string>)
    requires k <= |files| && Gathered(files[..k], index).Err?
    ensures Gathered(files, index) == Gathered(files[..k], index)
  {
    if k < |files| {
      var front := files[..|files| - 1];
      assert front[..k] == files[..k];
      FailureStays(front, k, index);
    } else {
      assert files[..k] == files;
    }
  }

  /** `LoadSafetensorsDirectory` over its shard files, an index being empty when there is none. */
  method LoadDirectory(files: seq<Shard>, index: map<string, string>) returns (r: Result<seq<Stored>>)
    ensures r == DirectorySpec(files, index)
  {
    hide Gathered, Assigned, Admits;
    var result: seq<Stored>, names: set<string> := [], {};
    NoFiles(index);
    assert files[..0] == [];
    for k := 0 to |files|
      invariant Gathered(files[..k], index) == Ok(result) && names == Names(result) && Admits(result, index)
    {
      GatheredStep(files, k, index);
      if Gathered(files[..k + 1], index).Err? {
        FailureStays(files, k + 1, index);
      }
      if files[k].Missing? { return Err(NotFound); }
      if files[k].Escapes? { return Err(DataLoss); }
      if files[k].tensors.Err? { return Err(files[k].tensors.code); }
      var tensors := files[k].tensors.value;
      var added := AddTensors(tensors, result, names, index);
      if added.None? { return Err(DataLoss); }
      names, result := added.value, result + tensors;
    }
    assert files[..|files|] == files;
    AdmitsCounts(result, index);
    if index != map[] && |names| != |index| { return Err(DataLoss); }
    return Ok(Sort(ByName, result));
  }

  lemma AdmitsCounts(tensors: seq<Stored>, index: map<string, string>)
    requires Admits(tensors, index)
    ensures |Names(tensors)| == |tensors|
  {
    CountNames(tensors);
  }

  lemma NoFiles(index: map<string, string>)
    ensures Gathered([], index) == Ok([]) && Names([]) == {} && Admits([], index)
  {
  }

  lemma {:induction false} GatheredExactly(files: seq<Shard>, index: map<string, string>)
    ensures var all, gathered := AllTensors(files), Gathered(files, index);
            && (gathered.Ok? <==> all.Ok? && Admits(all.value, index))
            && (gathered.Ok? ==> gathered.value == all.value)
  {
    hide Assigned, Admits;
    if files == [] {
      NoFiles(index);
    } else {
      var front, last := files[..|files| - 1], TensorsOf(files[|files| - 1]);
      GatheredExactly(front, index);
      if AllTensors(front).Ok? && last.Ok? && Admits(AllTensors(front).value + last.value, index) {
        AdmitsPrefix(AllTensors(front).value, last.value, index);
      }
    }
  }

  /** The code of a failure, at the first file that is missing, elsewhere, unreadable, or does not go
      with those before it; or, behind all files, when the index lists other tensors still. */
  lemma DirectoryFailsWith(files: seq<Shard>, index: map<string, string>, k: nat)
    requires k < |files| && AllTensors(files[..k]).Ok? && Admits(AllTensors(files[..k]).value, index)
    ensures files[k] == Missing ==> DirectorySpec(files, index) == Err(NotFound)
    ensures files[k] == Escapes ==> DirectorySpec(files, index) == Err(DataLoss)
    ensures files[k].Inside? && files[k].tensors.Err? ==> DirectorySpec(files, index) == Err(files[k].tensors.code)
    ensures files[k].Inside? && files[k].tensors.Ok? && !Admits(AllTensors(files[..k]).value + files[k].tensors.value, index)
            ==> DirectorySpec(files, index) == Err(DataLoss)
  {
    hide Assigned, Admits, AllTensors, Gathered;
    GatheredExactly(files[..k], index);
    GatheredStep(files, k, index);
    if Gathered(files[..k + 1], index).Err? {
      FailureStays(files, k + 1, index);
    }
  }

  lemma MiscountFailsWith(files: seq<Shard>, index: map<string, string>)
    requires AllTensors(files).Ok? && Admits(AllTensors(files).value, index) && !Consistent(AllTensors(files).value, index)
    ensures DirectorySpec(files, index) == Err(DataLoss)
  {
    hide Assigned, AllTensors, Gathered;
    GatheredExactly(files, index);
  }

  /** Main result: the directory loads exactly when every shard does and all of them together are
      consistent, and then returns every tensor, in name order. */
  lemma DirectoryExactly(files: seq<Shard>, index: map<string, string>)
    ensures var all, r := AllTensors(files), DirectorySpec(files, index);
            && (r.Ok? <==> all.Ok? && Consistent(all.value, index))
            && (r.Ok? ==> InOrder(ByName, r.value) && multiset(r.value) == multiset(all.value))
  {
    hide Assigned, AllTensors, Gathered;
    GatheredExactly(files, index);
    if AllTensors(files).Ok? {
      SortedByName(AllTensors(files).value);
    }
  }

  /** Main result: with an index, acceptance means the loaded names are exactly the indexed names,
      each in the shard the index assigns. */
  lemma IndexAgrees(tensors: seq<Stored>, index: map<string, string>)
    requires Consistent(tensors, index) && index != map[]
    ensures Names(tensors) == index.Keys
    ensures forall k :: 0 <= k < |tensors| ==> index[tensors[k].name] == tensors[k].shard
  {
    forall n | n in Names(tensors)
      ensures n in index.Keys
    {
      var k :| 0 <= k < |tensors| && tensors[k].name == n;
      assert Assigned(tensors[k], index);
    }
    CountNames(tensors);
    SameSize(Names(tensors), index.Keys);
  }

  lemma SameSize(a: set<string>, b: set<string>)
    requires a <= b && |a| == |b|
    ensures a == b
  {
    if a != b {
      var n :| n in b && n !in a;
      SubsetSize(a, b - {n});
    }
  }

  lemma {:induction false} SubsetSize(a: set<string>, b: set<string>)
    requires a <= b
    ensures |a| <= |b|
  {
    if n :| n in a {
      SubsetSize(a - {n}, b - {n});
    }
  }

  lemma {:induction false} CountNames(tensors: seq<Stored>)
    requires DistinctNames(tensors)
    ensures |Names(tensors)| == |tensors|
  {
    if tensors != [] {
      var front := tensors[..|tensors| - 1];
      CountNames(front);
      OneMoreName([], tensors, |front|);
      EmptyUnits(front);
      EmptyUnits(tensors);
      assert tensors[..|front| + 1] == tensors;
    }
  }
}
