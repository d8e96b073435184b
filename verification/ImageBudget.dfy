/** How large an image becomes, and how many soft tokens all media of a message may take. */
module ImageBudget {
  import opened Wrappers
  import opened Seqs
  import opened ChatSession
  import opened ChatRuns
  import CS = ConversationSession

  const PATCH: nat := 48
  const MAXIMUM_SOFT_TOKENS: nat := 280
  const MAXIMUM_PIXELS: nat := 100_000_000
  const MAXIMUM_SIDE: nat := 32768
  const MAXIMUM_ENCODED: nat := 256 * 1024 * 1024
  const WORD32: nat := 0x1_0000_0000

  // ---------------------------------------------------------------- decoding

  /** An encoded image: its size in bytes, the sides that scanning its header finds, if any, whether
      its pixel data are intact, its fingerprint, and the values of its resized patches in order. */
  datatype Encoded = Encoded(size: nat, header: Option<(int, int)>, intact: bool, fingerprint: nat, value: nat -> real)

  /** The sides of an image in pixels. */
  datatype Sides = Sides(height: nat, width: nat)

  /** `DecodeImage`; the loader behind it refuses sides above its compiled-in limit. */
  function Decode(e: Encoded): Result<Sides> {
    if e.size == 0 || e.size > MAXIMUM_ENCODED then Err(Unsupported)
    else if e.header.None? || e.header.value.0 <= 0 || e.header.value.1 <= 0
            || e.header.value.0 * e.header.value.1 > MAXIMUM_PIXELS then Err(Unsupported)
    else if !e.intact || e.header.value.0 > MAXIMUM_SIDE || e.header.value.1 > MAXIMUM_SIDE then Err(DataLoss)
    else Ok(Sides(e.header.value.0, e.header.value.1))
  }

  /** What every decoded image meets. */
  predicate Admitted(height: nat, width: nat) {
    0 < height <= MAXIMUM_SIDE && 0 < width <= MAXIMUM_SIDE && height * width <= MAXIMUM_PIXELS
  }

  // ---------------------------------------------------------------- the target size

  /** `root` is the square root of target pixels over source pixels. */
  ghost predicate IsRoot(root: real, height: nat, width: nat, tokens: nat) {
    root >= 0.0 && root * root * (height as real * width as real) == (tokens * PATCH * PATCH) as real
  }

  function Factor(root: real, upscale: bool): real {
    if !upscale && root > 1.0 then 1.0 else root
  }

  /** How many whole patches fit along one scaled side. */
  function Patches(side: nat, factor: real): nat
    requires factor >= 0.0
  {
    FloorIsNatural(factor * side as real / 48.0);
    (factor * side as real / 48.0).Floor
  }

  lemma FloorIsNatural(x: real)
    requires x >= 0.0
    ensures x.Floor >= 0
  {
  }

  /** Integer division of one side by the other. */
  function WholeRatio(long: nat, short: nat): (r: nat)
    requires short > 0
    ensures r * short + long % short == long
  {
    long / short
  }

  /** The longer side of a strip one patch wide, with 32-bit multiplication. */
  function StripLength(long: nat, short: nat, tokens: nat): nat
    requires short > 0
  {
    var wanted := (WholeRatio(long, short) * PATCH) % WORD32;
    var least := if PATCH < wanted then wanted else PATCH;
    if least < tokens * PATCH then least else tokens * PATCH
  }

  function Target(height: nat, width: nat, tokens: nat, factor: real): (nat, nat)
    requires height > 0 && width > 0 && factor >= 0.0
  {
    var rows, columns := Patches(height, factor), Patches(width, factor);
    if rows == 0 then (PATCH, StripLength(width, height, tokens))
    else if columns == 0 then (StripLength(height, width, tokens), PATCH)
    else (rows * PATCH, columns * PATCH)
  }

  method TargetSize(height: nat, width: nat, tokens: nat, upscale: bool, root: real) returns (target: (nat, nat))
    requires height > 0 && width > 0 && root >= 0.0
    ensures target == Target(height, width, tokens, Factor(root, upscale))
  {
    var factor := root;
    if !upscale && factor > 1.0 { factor := 1.0; }
    var targetHeight := Patches(height, factor) * PATCH;
    var targetWidth := Patches(width, factor) * PATCH;
    var maximumSide := tokens * PATCH;
    if targetHeight == 0 {
      var wanted := (WholeRatio(width, height) * PATCH) % WORD32;
      targetHeight := PATCH;
      targetWidth := if PATCH < wanted then wanted else PATCH;
      if maximumSide < targetWidth { targetWidth := maximumSide; }
    } else if targetWidth == 0 {
      var wanted := (WholeRatio(height, width) * PATCH) % WORD32;
      targetWidth := PATCH;
      targetHeight := if PATCH < wanted then wanted else PATCH;
      if maximumSide < targetHeight { targetHeight := maximumSide; }
    }
    target := (targetHeight, targetWidth);
  }

  /** Both sides are whole patches, and between 1 and `tokens` patches cover the image. */
  predicate IsGrid(target: (nat, nat), tokens: nat) {
    && target.0 % PATCH == 0 && target.1 % PATCH == 0
    && 1 <= (target.0 / PATCH) * (target.1 / PATCH) <= tokens
  }

  /** Within the side limit the 32-bit product never wraps: the strip is the ratio of the sides in
      patches, brought between one patch and the budget. */
  lemma StripIsWhole(long: nat, short: nat, tokens: nat)
    requires short > 0 && 0 < tokens <= MAXIMUM_SOFT_TOKENS && long <= MAXIMUM_SIDE
    ensures PATCH <= StripLength(long, short, tokens) <= tokens * PATCH
    ensures StripLength(long, short, tokens) % PATCH == 0
    ensures var ratio := WholeRatio(long, short);
            StripLength(long, short, tokens)
            == (if ratio < 1 then 1 else if ratio > tokens then tokens else ratio) * PATCH
  {
    hide WholeRatio;
    var ratio := WholeRatio(long, short);
    QuotientAtMost(long, short);
    assert (ratio * PATCH) % WORD32 == ratio * PATCH;
    assert (tokens * PATCH) % PATCH == 0;
  }

  lemma QuotientAtMost(a: nat, b: nat)
    requires b > 0
    ensures WholeRatio(a, b) <= a && WholeRatio(a, b) * b <= a
  {
    hide WholeRatio;
    Scale(1, b, WholeRatio(a, b));
  }

  lemma Scale(a: nat, b: nat, c: nat)
    requires a <= b
    ensures c * a <= c * b && a * c <= b * c
  {
  }

  lemma StripGrid(length: nat, tokens: nat)
    requires PATCH <= length <= tokens * PATCH
    ensures length % PATCH == 0 ==> IsGrid((PATCH, length), tokens) && IsGrid((length, PATCH), tokens)
  {
    assert PATCH / PATCH == 1 && PATCH % PATCH == 0;
    assert 1 <= length / PATCH <= tokens;
  }

  lemma SquareOrder(a: real, b: real)
    requires a >= 0.0 && b >= 0.0
    ensures a * a < b * b <==> a < b
  {
    assert (b - a) * (b + a) == b * b - a * a;
    if a < b {
      Positive(b - a, b + a);
    } else {
      ProductBelow(b, a, b, a);
    }
  }

  lemma Positive(d: real, w: real)
    requires d > 0.0 && w > 0.0
    ensures d * w > 0.0
  {
  }

  lemma FactorSquared(root: real, upscale: bool)
    requires root >= 0.0
    ensures var f := Factor(root, upscale);
            0.0 <= f && f * f <= root * root
  {
    if !upscale && root > 1.0 {
      SquareOrder(1.0, root);
    }
  }

  lemma ProductBelow(a: real, x: real, b: real, y: real)
    requires 0.0 <= a <= x && 0.0 <= b <= y
    ensures a * b <= x * y
  {
    assert a * b <= x * b;
    assert x * b <= x * y;
  }

  lemma AreaOfSides(f: real, h: real, w: real)
    ensures (f * h / 48.0) * (f * w / 48.0) * 2304.0 == f * f * (h * w)
  {
    assert (f * h) * (f * w) == f * f * (h * w);
  }

  lemma RealProduct(a: nat, b: nat)
    ensures (a * b) as real == a as real * b as real
  {
  }

  /** With both sides at least one patch, the grid has at most `tokens` patches. */
  lemma GridArea(height: nat, width: nat, tokens: nat, root: real, factor: real)
    requires IsRoot(root, height, width, tokens) && 0.0 <= factor && factor * factor <= root * root
    ensures Patches(height, factor) * Patches(width, factor) <= tokens
  {
    var h, w := height as real, width as real;
    var a, b := Patches(height, factor), Patches(width, factor);
    ProductBelow(a as real, factor * h / 48.0, b as real, factor * w / 48.0);
    AreaOfSides(factor, h, w);
    ProductBelow(factor * factor, root * root, h * w, h * w);
    RealProduct(a, b);
  }

  /** Main result: for every image the decoder admits, the target is a grid of 1 to `tokens`
      patches. */
  lemma TargetIsGrid(height: nat, width: nat, tokens: nat, upscale: bool, root: real)
    requires Admitted(height, width)
    requires 0 < tokens <= MAXIMUM_SOFT_TOKENS && IsRoot(root, height, width, tokens)
    ensures IsGrid(Target(height, width, tokens, Factor(root, upscale)), tokens)
  {
    hide Patches, StripLength, IsGrid, Factor;
    var f := Factor(root, upscale);
    FactorSquared(root, upscale);
    var rows, columns := Patches(height, f), Patches(width, f);
    StripIsWhole(width, height, tokens);
    StripIsWhole(height, width, tokens);
    StripGrid(StripLength(width, height, tokens), tokens);
    StripGrid(StripLength(height, width, tokens), tokens);
    if rows > 0 && columns > 0 {
      GridArea(height, width, tokens, root, f);
      WholeGrid(rows, columns, tokens);
    }
  }

  lemma WholeGrid(rows: nat, columns: nat, tokens: nat)
    requires rows > 0 && columns > 0 && rows * columns <= tokens
    ensures IsGrid((rows * PATCH, columns * PATCH), tokens)
  {
    Scale(1, columns, rows);
  }

  /** `n` is the largest multiple of a patch side that is at most `x`. */
  ghost predicate LargestBelow(n: nat, x: real) {
    n % 48 == 0 && n as real <= x < n as real + 48.0
  }

  /** A side, scaled. */
  function Along(side: nat, factor: real): real {
    factor * side as real
  }

  lemma PatchesAreLargest(side: nat, factor: real)
    requires factor >= 0.0
    ensures LargestBelow(Patches(side, factor) * 48, Along(side, factor))
    ensures Patches(side, factor) == 0 <==> Along(side, factor) < 48.0
  {
    var n, x := Patches(side, factor), Along(side, factor);
    assert n as real <= x / 48.0 < n as real + 1.0;
    assert (n * 48) as real == n as real * 48.0;
  }

  /** The image is scaled by the root, or not at all when that would enlarge it and it must not be;
      then either side is the largest whole number of patches, unless one side has none. */
  lemma TargetIsLargest(height: nat, width: nat, tokens: nat, upscale: bool, root: real)
    requires height > 0 && width > 0 && root >= 0.0
    ensures var f := if upscale || root <= 1.0 then root else 1.0;
            var h, w, target := Along(height, f), Along(width, f), Target(height, width, tokens, Factor(root, upscale));
            && (h >= 48.0 && w >= 48.0 ==> LargestBelow(target.0, h) && LargestBelow(target.1, w))
            && (h < 48.0 ==> target == (48, StripLength(width, height, tokens)))
            && (h >= 48.0 && w < 48.0 ==> target == (StripLength(height, width, tokens), 48))
  {
    hide Patches, StripLength, LargestBelow, Along;
    PatchesAreLargest(height, Factor(root, upscale));
    PatchesAreLargest(width, Factor(root, upscale));
  }

  // ---------------------------------------------------------------- patch positions

  /** The coordinates of the first `n` patches of row `y`. */
  function RowPositions(y: nat, n: nat): (r: seq<int>)
    ensures |r| == 2 * n
  {
    if n == 0 then [] else RowPositions(y, n - 1) + [n - 1, y]
  }

  function GridPositions(rows: nat, columns: nat): (r: seq<int>)
    ensures |r| == 2 * (rows * columns)
  {
    if rows == 0 then [] else
      OneMore(rows - 1, columns);
      GridPositions(rows - 1, columns) + RowPositions(rows - 1, columns)
  }

  lemma OneMore(n: nat, m: nat)
    ensures (n + 1) * m == n * m + m
  {
  }

  lemma RowStep(y: nat, x: nat)
    ensures RowPositions(y, 0) == [] && RowPositions(y, x + 1) == RowPositions(y, x) + [x, y]
  {
  }

  lemma GridStep(y: nat, columns: nat)
    ensures GridPositions(0, columns) == [] && GridPositions(y + 1, columns) == GridPositions(y, columns) + RowPositions(y, columns)
  {
  }

  /** One row of patches, behind the `first` patches placed before. */
  method PlaceRow(positions: array<int>, first: nat, y: nat, columns: nat)
    requires 2 * (first + columns) <= positions.Length
    modifies positions
    ensures positions[..2 * (first + columns)] == old(positions[..2 * first]) + RowPositions(y, columns)
  {
    hide RowPositions;
    ghost var done := positions[..2 * first];
    RowStep(y, 0);
    EmptyUnits(done);
    for x := 0 to columns
      invariant positions[..2 * (first + x)] == done + RowPositions(y, x)
    {
      var patch := first + x;
      ghost var before := positions[..2 * patch];
      positions[2 * patch] := x;
      positions[2 * patch + 1] := y;
      assert positions[..2 * (patch + 1)] == before + [x, y];
      RowStep(y, x);
      Assoc(done, RowPositions(y, x), [x, y]);
    }
  }

  method PlacePatches(rows: nat, columns: nat) returns (positions: array<int>)
    ensures fresh(positions) && positions[..] == GridPositions(rows, columns)
  {
    hide GridPositions, RowPositions;
    var count := rows * columns;
    positions := new int[2 * count];
    GridStep(0, columns);
    var patch := 0;
    for y := 0 to rows
      invariant patch == y * columns && positions[..2 * patch] == GridPositions(y, columns)
    {
      OneMore(y, columns);
      Scale(y + 1, rows, columns);
      PlaceRow(positions, patch, y, columns);
      GridStep(y, columns);
      patch := patch + columns;
    }
    assert positions[..] == positions[..2 * patch];
  }

  lemma {:induction false} RowAt(y: nat, n: nat, x: nat)
    requires x < n
    ensures RowPositions(y, n)[2 * x] == x && RowPositions(y, n)[2 * x + 1] == y
  {
    if x < n - 1 {
      RowAt(y, n - 1, x);
    }
  }

  /** Every patch of the grid, row by row, has its own column and row. */
  lemma {:induction false} PositionOfPatch(rows: nat, columns: nat, y: nat, x: nat)
    requires y < rows && x < columns
    ensures y * columns + x < rows * columns
    ensures GridPositions(rows, columns)[2 * (y * columns + x)] == x
    ensures GridPositions(rows, columns)[2 * (y * columns + x) + 1] == y
  {
    OneMore(rows - 1, columns);
    if y < rows - 1 {
      PositionOfPatch(rows - 1, columns, y, x);
    } else {
      RowAt(y, columns, x);
    }
  }

  lemma {:induction false} RowsInGrid(y: nat, n: nat)
    requires y < CS.POSITIONS && n <= CS.POSITIONS
    ensures CS.InGrid(RowPositions(y, n))
  {
    if n > 0 {
      RowsInGrid(y, n - 1);
    }
  }

  lemma {:induction false} PositionsInGrid(rows: nat, columns: nat)
    requires rows <= CS.POSITIONS && columns <= CS.POSITIONS
    ensures CS.InGrid(GridPositions(rows, columns))
  {
    if rows > 0 {
      OneMore(rows - 1, columns);
      PositionsInGrid(rows - 1, columns);
      RowsInGrid(rows - 1, columns);
    }
  }

  // ---------------------------------------------------------------- one image

  /** The square root of a quotient of pixel counts. */
  type Root = (nat, nat) -> real

  ghost predicate IsSquareRoot(root: Root) {
    forall n: nat, m: nat :: m > 0 ==> root(n, m) >= 0.0 && root(n, m) * root(n, m) * m as real == n as real
  }

  function RootFor(root: Root, sides: Sides, budget: nat): real {
    root(budget * PATCH * PATCH, sides.height * sides.width)
  }

  lemma RootFits(root: Root, sides: Sides, budget: nat)
    requires IsSquareRoot(root) && Admitted(sides.height, sides.width)
    ensures IsRoot(RootFor(root, sides, budget), sides.height, sides.width, budget)
  {
    RealProduct(sides.height, sides.width);
    NoPatches(sides.height, sides.width);
  }

  lemma NoPatches(a: nat, b: nat)
    ensures a * b >= 1 <==> a > 0 && b > 0
  {
  }

  lemma DecodedIsAdmitted(e: Encoded)
    ensures Decode(e).Ok? ==> Admitted(Decode(e).value.height, Decode(e).value.width)
  {
  }

  function Resized(e: Encoded, count: nat): seq<real> {
    seq(count * 6912, i requires i >= 0 => e.value(i))
  }

  /** What `LoadVisionImageBytes` returns. */
  ghost function Load(e: Encoded, budget: nat, upscale: bool, root: Root): Result<ProcessedImage>
    requires IsSquareRoot(root)
  {
    if budget == 0 || budget > MAXIMUM_SOFT_TOKENS then Err(InvalidArgument)
    else if Decode(e).Err? then Err(Decode(e).code)
    else
      DecodedIsAdmitted(e);
      var sides := Decode(e).value;
      RootFits(root, sides, budget);
      var target := Target(sides.height, sides.width, budget, Factor(RootFor(root, sides, budget), upscale));
      if target.0 == 0 || target.1 == 0 || target.0 % PATCH != 0 || target.1 % PATCH != 0 then Err(DataLoss)
      else
        var rows, columns := target.0 / PATCH, target.1 / PATCH;
        if rows * columns == 0 || rows * columns > MAXIMUM_SOFT_TOKENS then Err(DataLoss)
        else Ok(ProcessedImage(rows * columns, Resized(e, rows * columns), GridPositions(rows, columns), e.fingerprint))
  }

  method LoadVisionImageBytes(e: Encoded, budget: nat, upscale: bool, root: Root) returns (r: Result<ProcessedImage>)
    requires IsSquareRoot(root)
    ensures r == Load(e, budget, upscale, root)
  {
    hide IsRoot, Target, Factor, Decode;
    if budget == 0 || budget > MAXIMUM_SOFT_TOKENS { return Err(InvalidArgument); }
    var decoded := Decode(e);
    if decoded.Err? { return Err(decoded.code); }
    DecodedIsAdmitted(e);
    var sides := decoded.value;
    RootFits(root, sides, budget);
    var scale := RootFor(root, sides, budget);
    RootIsNatural(scale, sides, budget);
    var target := TargetSize(sides.height, sides.width, budget, upscale, scale);
    if target.0 == 0 || target.1 == 0 || target.0 % PATCH != 0 || target.1 % PATCH != 0 { return Err(DataLoss); }
    var rows, columns := target.0 / PATCH, target.1 / PATCH;
    var count := rows * columns;
    if count == 0 || count > MAXIMUM_SOFT_TOKENS { return Err(DataLoss); }
    var positions := PlacePatches(rows, columns);
    return Ok(ProcessedImage(count, Resized(e, count), positions[..], e.fingerprint));
  }

  lemma RootIsNatural(root: real, sides: Sides, budget: nat)
    requires IsRoot(root, sides.height, sides.width, budget)
    ensures root >= 0.0
  {
  }

  /** An image the session takes: within its budget, well shaped, and on the position grid. */
  predicate Usable(image: ProcessedImage, budget: nat) {
    image.patchCount <= budget && UsableImage(image) && CS.InGrid(image.positions)
  }

  /** Main result: loading succeeds for exactly the decodable images, fails otherwise with the
      decoder's code, and the image keeps to its budget and passes every check of the session. */
  lemma LoadsExactly(e: Encoded, budget: nat, upscale: bool, root: Root)
    requires IsSquareRoot(root) && 0 < budget <= MAXIMUM_SOFT_TOKENS
    ensures var r := Load(e, budget, upscale, root);
            && (r.Ok? <==> Decode(e).Ok?)
            && (r.Ok? ==> Usable(r.value, budget))
            && (r.Err? ==> r.code == Decode(e).code)
  {
    hide IsRoot, Factor, Target, Decode, CS.InGrid;
    DecodedIsAdmitted(e);
    if Decode(e).Ok? {
      var sides := Decode(e).value;
      RootFits(root, sides, budget);
      var scale := RootFor(root, sides, budget);
      RootIsNatural(scale, sides, budget);
      FactorSquared(scale, upscale);
      TargetIsGrid(sides.height, sides.width, budget, upscale, scale);
      var target := Target(sides.height, sides.width, budget, Factor(scale, upscale));
      GridSides(target, budget);
      PositionsInGrid(target.0 / PATCH, target.1 / PATCH);
    }
  }

  /** Main result: an image loads exactly for a budget of 1 to 280 patches, 1 to 2^28 bytes, sides of
      1 to 32768 pixels that span at most 10^8, and intact data; what no header check finds is lost data. */
  lemma LoadsDecodable(e: Encoded, budget: nat, upscale: bool, root: Root)
    requires IsSquareRoot(root)
    ensures var r := Load(e, budget, upscale, root);
            var sized := 1 <= e.size <= 268_435_456 && e.header.Some? && e.header.value.0 >= 1 && e.header.value.1 >= 1
                         && e.header.value.0 * e.header.value.1 <= 100_000_000;
            && (r.Ok? <==> 1 <= budget <= 280 && sized && e.intact && e.header.value.0 <= 32768 && e.header.value.1 <= 32768)
            && (r.Err? ==> r.code == if !(1 <= budget <= 280) then InvalidArgument else if !sized then Unsupported else DataLoss)
            && (r.Ok? ==> r.value.sourceFingerprint == e.fingerprint && |r.value.patches| == r.value.patchCount * 6912)
  {
    if 0 < budget <= MAXIMUM_SOFT_TOKENS {
      LoadsExactly(e, budget, upscale, root);
    }
    hide IsSquareRoot, Target, Factor, RootFor, GridPositions;
  }

  lemma GridSides(target: (nat, nat), tokens: nat)
    requires IsGrid(target, tokens)
    ensures target.0 > 0 && target.1 > 0 && target.0 / PATCH <= tokens && target.1 / PATCH <= tokens
  {
    var rows, columns := target.0 / PATCH, target.1 / PATCH;
    NoPatches(rows, columns);
    Scale(1, columns, rows);
    Scale(1, rows, columns);
  }

  // ---------------------------------------------------------------- all media of a message

  /** A file as its loader sees it. */
  datatype MediaFile = AudioFile(audio: Result<seq<Sample>>) | ImageFile(image: Encoded)

  function AutomaticBudget(context: nat, reserved: nat, images: nat): nat {
    if images == 0 then MAXIMUM_SOFT_TOKENS
    else
      var available := if context > reserved then context - reserved else images;
      var share := WholeRatio(available, images);
      if share < 1 then 1 else if share > MAXIMUM_SOFT_TOKENS then MAXIMUM_SOFT_TOKENS else share
  }

  function TokensOf(file: MediaFile): nat {
    if file.AudioFile? && file.audio.Ok? then AudioFrames(|file.audio.value|) else 0
  }

  function AudioOf(files: seq<MediaFile>): nat {
    if files == [] then 0 else AudioOf(files[..|files| - 1]) + TokensOf(files[|files| - 1])
  }

  function ImagesOf(files: seq<MediaFile>): nat {
    if files == [] then 0 else ImagesOf(files[..|files| - 1]) + (if files[|files| - 1].ImageFile? then 1 else 0)
  }

  function OutputReserve(context: nat, maxTokens: Option<nat>): nat {
    if maxTokens.Some? then maxTokens.value else if context / 4 < 128 then context / 4 else 128
  }

  /** Output, audio, the template's own tokens and two boundary tokens a file. */
  function FixedReserve(files: seq<MediaFile>, context: nat, maxTokens: Option<nat>): nat {
    OutputReserve(context, maxTokens) + AudioOf(files) + 64 + |files| * 2
  }

  function BudgetOf(files: seq<MediaFile>, context: nat, maxTokens: Option<nat>): nat {
    AutomaticBudget(context, FixedReserve(files, context, maxTokens), ImagesOf(files))
  }

  predicate Readable(file: MediaFile) {
    if file.AudioFile? then file.audio.Ok? else Decode(file.image).Ok?
  }

  function Failure(file: MediaFile): StatusCode
    requires !Readable(file)
  {
    if file.AudioFile? then file.audio.code else Decode(file.image).code
  }

  /** File `k` is the first to fail, when all audio is read before the images. */
  ghost predicate FailsFirst(files: seq<MediaFile>, k: nat) {
    && k < |files| && !Readable(files[k])
    && forall j :: 0 <= j < |files| && !Readable(files[j]) ==>
         if files[k].AudioFile? then files[j].AudioFile? ==> k <= j else files[j].ImageFile? && k <= j
  }

  /** The part that a file becomes under an image budget. */
  ghost predicate IsPart(file: MediaFile, budget: nat, root: Root, part: Part)
    requires IsSquareRoot(root)
  {
    match file
    case AudioFile(audio) => audio.Ok? && part == AudioPart(16000, audio.value)
    case ImageFile(image) => Load(image, budget, false, root).Ok? && part == ImagePart(Load(image, budget, false, root).value)
  }

  ghost predicate Parts(files: seq<MediaFile>, budget: nat, root: Root, parts: seq<Part>)
    requires IsSquareRoot(root)
  {
    |parts| == |files| && forall k :: 0 <= k < |files| ==> IsPart(files[k], budget, root, parts[k])
  }

  lemma BudgetInRange(context: nat, reserved: nat, images: nat)
    ensures 1 <= AutomaticBudget(context, reserved, images) <= MAXIMUM_SOFT_TOKENS
  {
  }

  /** Main result: the budget is the largest one up to 280, but at least 1, that all images can take
      behind what is reserved. */
  lemma BudgetIsLargest(context: nat, reserved: nat, images: nat)
    ensures var budget := AutomaticBudget(context, reserved, images);
            && 1 <= budget <= 280
            && (budget == 1 || images == 0 || Fits(context, reserved, images, budget))
            && (budget == 280 || !Fits(context, reserved, images, budget + 1))
  {
    hide WholeRatio;
    var budget := AutomaticBudget(context, reserved, images);
    if images > 0 {
      if context > reserved {
        var share := WholeRatio(context - reserved, images);
        QuotientAtMost(context - reserved, images);
        Whole(context - reserved, images);
        if share >= 1 {
          Scale(budget, share, images);
          assert images * share == share * images;
        }
        if share <= budget {
          Scale(share + 1, budget + 1, images);
        }
      } else {
        Whole(images, images);
        Scale(1, budget + 1, images);
      }
    }
  }

  predicate Fits(context: nat, reserved: nat, images: nat, budget: nat) {
    reserved + images * budget <= context
  }

  lemma Whole(a: nat, b: nat)
    requires b > 0
    ensures b * (WholeRatio(a, b) + 1) > a && (a == b ==> WholeRatio(a, b) == 1)
  {
  }

  /** Main result: the reserve is the output asked for, or the largest number up to 128 of which the
      context holds four, with the audio, two boundary tokens a file and 64 tokens of the template. */
  lemma ReserveIsSum(files: seq<MediaFile>, context: nat, maxTokens: Option<nat>)
    ensures var output := FixedReserve(files, context, maxTokens) - AudioOf(files) - 64 - 2 * |files|;
            if maxTokens.Some? then output == maxTokens.value
            else 0 <= output <= 128 && 4 * output <= context && (output == 128 || 4 * (output + 1) > context)
  {
  }

  /** All files become parts exactly when each one is readable; otherwise the first failure counts. */
  method LoadMediaParts(files: seq<MediaFile>, context: nat, maxTokens: Option<nat>, root: Root) returns (r: Result<seq<Part>>)
    requires IsSquareRoot(root)
    ensures r.Ok? <==> forall k :: 0 <= k < |files| ==> Readable(files[k])
    ensures r.Ok? ==> Parts(files, BudgetOf(files, context, maxTokens), root, r.value)
    ensures r.Err? ==> exists k: nat :: FailsFirst(files, k) && r.code == Failure(files[k])
  {
    hide AudioFrames, Load, Decode, IsSquareRoot;
    var parts: seq<Part> := seq(|files|, _ => TextPart([]));
    var audioTokens: nat, imageCount: nat := 0, 0;
    for index := 0 to |files|
      invariant |parts| == |files| && audioTokens == AudioOf(files[..index]) && imageCount == ImagesOf(files[..index])
      invariant forall k :: 0 <= k < index && files[k].AudioFile? ==> files[k].audio.Ok? && parts[k] == AudioPart(16000, files[k].audio.value)
    {
      assert files[..index + 1][..index] == files[..index];
      if files[index].AudioFile? {
        if files[index].audio.Err? {
          assert FailsFirst(files, index);
          return Err(files[index].audio.code);
        }
        audioTokens := audioTokens + AudioFrames(|files[index].audio.value|);
        parts := parts[index := AudioPart(16000, files[index].audio.value)];
      } else {
        imageCount := imageCount + 1;
      }
    }
    assert files[..|files|] == files;
    var fixedReserve := OutputReserve(context, maxTokens) + audioTokens + 64 + |files| * 2;
    var budget := AutomaticBudget(context, fixedReserve, imageCount);
    BudgetInRange(context, fixedReserve, imageCount);
    for index := 0 to |files|
      invariant |parts| == |files|
      invariant forall k :: 0 <= k < |files| && files[k].AudioFile? ==> IsPart(files[k], budget, root, parts[k])
      invariant forall k :: 0 <= k < index && files[k].ImageFile? ==> Readable(files[k]) && IsPart(files[k], budget, root, parts[k])
    {
      if files[index].ImageFile? {
        LoadsExactly(files[index].image, budget, false, root);
        var image := LoadVisionImageBytes(files[index].image, budget, false, root);
        if image.Err? {
          assert FailsFirst(files, index);
          return Err(image.code);
        }
        parts := parts[index := ImagePart(image.value)];
      }
    }
    return Ok(parts);
  }

  /** The soft tokens of a part. */
  function PartTokens(part: Part): nat {
    match part
    case AudioPart(_, samples) => AudioFrames(|samples|)
    case ImagePart(image) => image.patchCount
    case _ => 0
  }

  function Total(parts: seq<Part>): nat {
    if parts == [] then 0 else Total(parts[..|parts| - 1]) + PartTokens(parts[|parts| - 1])
  }

  lemma PartAtMost(file: MediaFile, budget: nat, root: Root, part: Part)
    requires IsSquareRoot(root) && 0 < budget <= MAXIMUM_SOFT_TOKENS && IsPart(file, budget, root, part)
    ensures PartTokens(part) <= TokensOf(file) + (if file.ImageFile? then budget else 0)
  {
    hide IsSquareRoot, Load, AudioFrames;
    if file.ImageFile? {
      LoadsExactly(file.image, budget, false, root);
    }
  }

  lemma {:induction false} PartsTotal(files: seq<MediaFile>, budget: nat, root: Root, parts: seq<Part>)
    requires IsSquareRoot(root) && 0 < budget <= MAXIMUM_SOFT_TOKENS && Parts(files, budget, root, parts)
    ensures Total(parts) <= AudioOf(files) + ImagesOf(files) * budget
  {
    hide IsPart, PartTokens, TokensOf, IsSquareRoot;
    if files != [] {
      var n := |files| - 1;
      PartsTotal(files[..n], budget, root, parts[..n]);
      PartAtMost(files[n], budget, root, parts[n]);
      OneMore(ImagesOf(files[..n]), budget);
    }
  }

  /** Main result: the media, their boundary tokens, the template and the output all fit the
      context as soon as one token an image is left after the fixed reserve. */
  lemma MediaFitContext(files: seq<MediaFile>, context: nat, maxTokens: Option<nat>, root: Root, parts: seq<Part>)
    requires IsSquareRoot(root) && Parts(files, BudgetOf(files, context, maxTokens), root, parts)
    requires FixedReserve(files, context, maxTokens) + ImagesOf(files) <= context
    ensures Total(parts) + |files| * 2 + 64 + OutputReserve(context, maxTokens) <= context
  {
    hide IsSquareRoot;
    var images, budget := ImagesOf(files), BudgetOf(files, context, maxTokens);
    BudgetInRange(context, FixedReserve(files, context, maxTokens), images);
    PartsTotal(files, budget, root, parts);
    ShareFits(context, FixedReserve(files, context, maxTokens), images);
  }

  /** The worst case fits exactly when that much is left. */
  lemma ShareFits(context: nat, reserved: nat, images: nat)
    ensures reserved + images * AutomaticBudget(context, reserved, images) <= context <==> reserved + images <= context
  {
    if images > 0 {
      var budget := AutomaticBudget(context, reserved, images);
      BudgetInRange(context, reserved, images);
      Scale(1, budget, images);
      if reserved + images <= context {
        if context > reserved {
          QuotientAtMost(context - reserved, images);
          Scale(budget, WholeRatio(context - reserved, images), images);
        }
      }
    }
  }

  // ---------------------------------------------------------------- loaded images in the session

  ghost predicate LoadedPart(part: Part, root: Root)
    requires IsSquareRoot(root)
  {
    part.ImagePart? ==> exists e, budget, upscale :: Load(e, budget, upscale, root) == Ok(part.image)
  }

  /** The images a call adds all come from the loader. */
  ghost predicate AddsLoaded(s: Snapshot, q: Request, root: Root)
    requires IsSquareRoot(root)
  {
    forall k, j :: |s.committed| <= k < |q.messages| && 0 <= j < |q.messages[k].content| ==> LoadedPart(q.messages[k].content[j], root)
  }

  /** Main result: over all runs of a session that only gets loaded images, a prepared call is never
      refused by the backend. */
  lemma LoadedImagesAreNeverRefused(setup: Setup, calls: seq<Call>, q: Request, o: CS.Oracle, root: Root)
    requires IsSquareRoot(root) && Reliable(setup.p) && AllSelect(calls)
    requires var s := Run(setup, Opened(), calls);
             Prepare(setup, s, q).Ok? && AddsLoaded(s, q, root)
    ensures !Refused(setup, Run(setup, Opened(), calls), q, o)
  {
    hide Prepare, Run, Refused, Load, Reliable, CS.InGrid, IsSquareRoot;
    BackendRefusesExactly(setup, calls, q, o);
    var s := Run(setup, Opened(), calls);
    forall k, j | |s.committed| <= k < |q.messages| && 0 <= j < |q.messages[k].content| && q.messages[k].content[j].ImagePart?
      ensures CS.InGrid(q.messages[k].content[j].image.positions)
    {
      var part := q.messages[k].content[j];
      assert LoadedPart(part, root);
      var e, budget, upscale :| Load(e, budget, upscale, root) == Ok(part.image);
      LoadBudget(e, budget, upscale, root);
      LoadsExactly(e, budget, upscale, root);
    }
  }

  lemma LoadBudget(e: Encoded, budget: nat, upscale: bool, root: Root)
    requires IsSquareRoot(root)
    ensures Load(e, budget, upscale, root).Ok? ==> 0 < budget <= MAXIMUM_SOFT_TOKENS
  {
  }
}
