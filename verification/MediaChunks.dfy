/** From located placeholder runs to prefill chunks, and what the engine gets over whole runs. */
module MediaChunks {
  import opened Wrappers
  import opened Bpe
  import opened Media
  import opened PrefillPlan
  import opened ChatSession
  import opened ChatRuns

  /** The located images as the planner sees them. */
  function Segments(offsets: seq<nat>, counts: seq<nat>): (r: seq<Segment>)
    requires |offsets| == |counts|
    ensures |r| == |offsets|
  {
    seq(|offsets|, k requires 0 <= k < |offsets| => Segment(offsets[k], counts[k]))
  }

  /** The token at `i` cannot continue or end an image. */
  predicate Breaks(prompt: seq<Token>, i: nat) {
    i < |prompt| && prompt[i] != MarksOf(Image).placeholder && prompt[i] != MarksOf(Image).end
  }

  /** Where prefill may start: at the beginning, or where one of the next two tokens is no part of
      an image. */
  predicate CleanStart(prompt: seq<Token>, start: nat) {
    start <= |prompt| && (start == 0 || Breaks(prompt, start) || Breaks(prompt, start + 1))
  }

  /** What the locator returns is what the planner needs: disjoint, in bounds, uncut by the start. */
  lemma LocatedIsPlaced(prompt: seq<Token>, counts: seq<nat>, offsets: seq<nat>, start: nat)
    requires WellPlaced(prompt, MarksOf(Image), counts, offsets, 0) && CleanStart(prompt, start)
    ensures Placed(start, |prompt|, Segments(offsets, counts))
  {
    var s := Segments(offsets, counts);
    forall i, j | 0 <= i < j < |s|
      ensures s[i].End() <= s[j].offset
    {
      assert offsets[i] + counts[i] + 1 < offsets[j];
    }
    forall k | 0 <= k < |s| && s[k].offset < start
      ensures s[k].End() <= start
    {
      StartIsNotInside(prompt, offsets[k], counts[k], start);
    }
  }

  lemma StartIsNotInside(prompt: seq<Token>, offset: nat, count: nat, start: nat)
    requires offset + count < |prompt| && prompt[offset + count] == MarksOf(Image).end
    requires Placeholders(prompt, MarksOf(Image).placeholder, offset, count)
    requires CleanStart(prompt, start) && offset < start
    ensures offset + count <= start
  {
  }

  /** What prefilling a located prompt from `start` on amounts to: chunks exactly when the capacity
      holds every image ahead, and then each such image is one chunk of placeholders. */
  ghost predicate ChunksImages(prompt: seq<Token>, offsets: seq<nat>, counts: seq<nat>, capacity: nat, start: nat)
    requires |offsets| == |counts| && Placed(start, |prompt|, Segments(offsets, counts))
  {
    var chunks := Chunks(start, |prompt|, capacity, Segments(offsets, counts));
    && (chunks.Ok? <==>
          start == |prompt| || (capacity > 0 && forall k :: 0 <= k < |counts| && start <= offsets[k] ==> counts[k] <= capacity))
    && (chunks.Ok? ==>
          && Partition(chunks.value, start, |prompt|)
          && forall k :: 0 <= k < |counts| && counts[k] > 0 && start <= offsets[k] ==>
               && Chunk(offsets[k], counts[k]) in chunks.value
               && offsets[k] + counts[k] <= |prompt|
               && Placeholders(prompt, MarksOf(Image).placeholder, offsets[k], counts[k]))
  }

  /** Main result: a prompt whose images were located is prefilled from any clean start in chunks
      that never cut an image. */
  lemma LocatedImagesAreChunks(prompt: seq<Token>, counts: seq<nat>, capacity: nat, start: nat)
    requires Locate(prompt, MarksOf(Image), counts, 0).Ok? && CleanStart(prompt, start)
    ensures var offsets := Locate(prompt, MarksOf(Image), counts, 0).value;
            && |offsets| == |counts|
            && Placed(start, |prompt|, Segments(offsets, counts))
            && ChunksImages(prompt, offsets, counts, capacity, start)
  {
    hide Locate, Chunks, Placed, Placeholders, Partition, CleanStart;
    LocatedIsWellPlaced(prompt, MarksOf(Image), counts, 0);
    var offsets := Locate(prompt, MarksOf(Image), counts, 0).value;
    LocatedIsPlaced(prompt, counts, offsets, start);
    StartsInBounds(prompt, start);
    var s := Segments(offsets, counts);
    ChunksSucceedExactly(start, |prompt|, capacity, s);
    assert forall k :: 0 <= k < |s| ==> s[k] == Segment(offsets[k], counts[k]);
    if Chunks(start, |prompt|, capacity, s).Ok? {
      ChunksNeverSplitAnImage(start, |prompt|, capacity, s);
    }
  }

  lemma StartsInBounds(prompt: seq<Token>, start: nat)
    requires CleanStart(prompt, start)
    ensures start <= |prompt|
  {
  }

  // ---------------------------------------------------------------- resident calls

  /** Every continuation starts with a token that is no part of an image. */
  ghost predicate Separating(p: Processor) {
    && (forall u, t :: p.continueUser(u, t).Ok? ==> Breaks(p.continueUser(u, t).value, 0))
    && (forall r, t :: p.continueTools(r, t).Ok? ==> Breaks(p.continueTools(r, t).value, 0))
  }

  /** The resident prefix is a clean start, whatever the model generated last. */
  lemma ResidentStartIsClean(setup: Setup, s: Snapshot, q: Request)
    requires Inv(setup, s) && Separating(setup.p) && Prepare(setup, s, q).Ok?
    ensures CleanStart(Prepare(setup, s, q).value.prompt, |s.cachedPrefix|)
  {
    hide Refusal, MaterializeSpec, Locate, ReasoningFor, ResolveResults, OutputLimit;
    RefusalExcludes(setup, s, q);
    var prompt := Prepare(setup, s, q).value.prompt;
    if s.cachedPrefix != [] {
      var added := prompt[|Transcript(s)|..];
      assert prompt == Transcript(s) + added;
      assert Breaks(added, 0);
      assert prompt[|Transcript(s)|] == added[0];
    }
  }

  /** Main result over runs: on every call of every run, prefilling the new part of the prompt cuts
      no image, and fails only for a capacity below an image that is new. */
  lemma ResidentImagesAreChunks(setup: Setup, calls: seq<Call>, q: Request, capacity: nat)
    requires Separating(setup.p) && Prepare(setup, Run(setup, Opened(), calls), q).Ok?
    ensures var s := Run(setup, Opened(), calls);
            var job := Prepare(setup, s, q).value;
            && |job.vision.offsets| == |job.vision.counts|
            && Placed(|s.cachedPrefix|, |job.prompt|, Segments(job.vision.offsets, job.vision.counts))
            && ChunksImages(job.prompt, job.vision.offsets, job.vision.counts, capacity, |s.cachedPrefix|)
  {
    hide Run, Placed, ChunksImages, CleanStart, Separating;
    var s := Run(setup, Opened(), calls);
    ResidentStartIsClean(setup, s, q);
    VisionIsLocated(setup, s, q);
    var job := Prepare(setup, s, q).value;
    LocatedImagesAreChunks(job.prompt, job.vision.counts, capacity, |s.cachedPrefix|);
  }

  lemma VisionIsLocated(setup: Setup, s: Snapshot, q: Request)
    requires Inv(setup, s) && Prepare(setup, s, q).Ok?
    ensures var job := Prepare(setup, s, q).value;
            Locate(job.prompt, MarksOf(Image), job.vision.counts, 0) == Ok(job.vision.offsets)
  {
    hide Refusal, MaterializeSpec, Locate, ReasoningFor, PromptFor, OutputLimit;
  }
}
