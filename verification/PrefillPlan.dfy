/** Splitting a prompt suffix into prefill chunks without ever splitting an image. */
module PrefillPlan {
  import opened Wrappers
  import opened Utf8

  /** The placeholder extent of one image: `count` soft tokens from `offset` on. */
  datatype Segment = Segment(offset: nat, count: nat) {
    function End(): nat { offset + count }
  }

  /** `PlanVisionAwarePrefillChunk` on the remaining segments, `tokens` being the size so far. */
  function Plan(begin: nat, tokens: nat, segments: seq<Segment>): nat {
    if segments == [] then tokens
    else
      var s := segments[0];
      if begin < s.offset && begin + tokens > s.offset then
        Plan(begin, s.offset - begin, segments[1..])
      else if begin >= s.offset && begin < s.End() then s.End() - begin
      else Plan(begin, tokens, segments[1..])
  }

  function Min(a: nat, b: nat): nat {
    if b < a then b else a
  }

  method PlanVisionAwarePrefillChunk(proposedBegin: nat, maximumTokens: nat, segments: seq<Segment>) returns (r: nat)
    ensures r == Plan(proposedBegin, maximumTokens, segments)
  {
    var tokens: nat := maximumTokens;
    assert segments[0..] == segments;
    for k := 0 to |segments|
      invariant Plan(proposedBegin, maximumTokens, segments) == Plan(proposedBegin, tokens, segments[k..])
    {
      var segment := segments[k];
      assert segments[k..][0] == segment && segments[k..][1..] == segments[k + 1..];
      var proposedEnd := proposedBegin + tokens;
      if proposedBegin < segment.offset && proposedEnd > segment.offset {
        tokens := Min(tokens, segment.offset - proposedBegin);
      } else if proposedBegin >= segment.offset && proposedBegin < segment.End() {
        return segment.End() - proposedBegin;
      }
    }
    return tokens;
  }

  predicate Covers(s: Segment, position: nat) {
    s.offset <= position < s.End()
  }

  ghost predicate Disjoint(segments: seq<Segment>) {
    forall i, j :: 0 <= i < j < |segments| ==>
      segments[i].End() <= segments[j].offset || segments[j].End() <= segments[i].offset
  }

  /** Inside an image the plan is the rest of that image, whatever the other segments say. */
  lemma {:induction false} PlanInside(begin: nat, tokens: nat, segments: seq<Segment>, k: nat)
    requires k < |segments| && Covers(segments[k], begin) && Disjoint(segments)
    ensures Plan(begin, tokens, segments) == segments[k].End() - begin
    decreases |segments|
  {
    var s := segments[0];
    if k > 0 {
      var smaller := if begin < s.offset && begin + tokens > s.offset then s.offset - begin else tokens;
      PlanInside(begin, smaller, segments[1..], k - 1);
    }
  }

  /** Outside every image the plan runs to the nearest segment ahead, or to the maximum. */
  lemma {:induction false} PlanOutside(begin: nat, tokens: nat, segments: seq<Segment>)
    requires forall k :: 0 <= k < |segments| ==> !Covers(segments[k], begin)
    ensures var r := Plan(begin, tokens, segments);
            && r <= tokens && (tokens > 0 ==> r > 0)
            && (forall k :: 0 <= k < |segments| && begin < segments[k].offset ==> begin + r <= segments[k].offset)
            && (r == tokens || exists k :: 0 <= k < |segments| && segments[k].offset == begin + r)
    decreases |segments|
  {
    if segments != [] {
      var s, rest := segments[0], segments[1..];
      assert forall k :: 0 <= k < |rest| ==> rest[k] == segments[k + 1];
      var smaller := if begin < s.offset && begin + tokens > s.offset then s.offset - begin else tokens;
      PlanOutside(begin, smaller, rest);
      var r := Plan(begin, smaller, rest);
      assert Plan(begin, tokens, segments) == r;
      if r != tokens {
        if r == smaller {
          assert segments[0].offset == begin + r;
        } else {
          var k :| 0 <= k < |rest| && rest[k].offset == begin + r;
          assert segments[k + 1].offset == begin + r;
        }
      }
    }
  }

  // ---------------------------------------------------------------- the prefill loop

  datatype Chunk = Chunk(begin: nat, tokens: nat) {
    function End(): nat { begin + tokens }
  }

  ghost predicate InBounds(end: nat, segments: seq<Segment>) {
    Disjoint(segments) && forall k :: 0 <= k < |segments| ==> segments[k].End() <= end
  }

  lemma PlanFits(begin: nat, maximum: nat, end: nat, segments: seq<Segment>)
    requires begin + maximum <= end && InBounds(end, segments)
    ensures begin + Plan(begin, maximum, segments) <= end
  {
    if k :| 0 <= k < |segments| && Covers(segments[k], begin) {
      PlanInside(begin, maximum, segments, k);
    } else {
      PlanOutside(begin, maximum, segments);
    }
  }

  /** The loop of `PrefillAt` from position `begin` to `end`: plan, reject a chunk that is empty
      or exceeds the chunk capacity, advance. */
  function Chunks(begin: nat, end: nat, capacity: nat, segments: seq<Segment>): Result<seq<Chunk>>
    requires begin <= end && InBounds(end, segments)
    decreases end - begin
  {
    if begin == end then Ok([])
    else
      var maximum := Min(capacity, end - begin);
      var tokens := Plan(begin, maximum, segments);
      if tokens == 0 || tokens > capacity then Err(Internal)
      else
        (PlanFits(begin, maximum, end, segments);
         Prepend([Chunk(begin, tokens)], Chunks(begin + tokens, end, capacity, segments)))
  }

  method PrefillChunks(start: nat, total: nat, capacity: nat, segments: seq<Segment>) returns (r: Result<seq<Chunk>>)
    requires InBounds(start + total, segments)
    ensures r == Chunks(start, start + total, capacity, segments)
  {
    hide Plan, InBounds;
    var chunks: seq<Chunk> := [];
    var begin: nat := 0;
    while begin < total
      invariant begin <= total
      invariant Chunks(start, start + total, capacity, segments)
             == Prepend(chunks, Chunks(start + begin, start + total, capacity, segments))
      decreases total - begin
    {
      var maximum := Min(capacity, total - begin);
      PlanFits(start + begin, maximum, start + total, segments);
      var tokens := PlanVisionAwarePrefillChunk(start + begin, maximum, segments);
      if tokens == 0 || tokens > capacity {
        return Err(Internal);
      }
      var chunk := Chunk(start + begin, tokens);
      PrependPrepend(chunks, [chunk], Chunks(start + begin + tokens, start + total, capacity, segments));
      chunks := chunks + [chunk];
      begin := begin + tokens;
    }
    return Ok(chunks);
  }

  /** The prompt suffix and its images: disjoint, in bounds, and none cut by the start. */
  ghost predicate Placed(begin: nat, end: nat, segments: seq<Segment>) {
    && begin <= end && InBounds(end, segments)
    && forall k :: 0 <= k < |segments| && segments[k].offset < begin ==> segments[k].End() <= begin
  }

  ghost predicate Partition(chunks: seq<Chunk>, begin: nat, end: nat) {
    if chunks == [] then begin == end
    else chunks[0].begin == begin && chunks[0].tokens > 0 && Partition(chunks[1..], chunks[0].End(), end)
  }

  ghost predicate IsImage(c: Chunk, segments: seq<Segment>) {
    exists k :: 0 <= k < |segments| && c.begin == segments[k].offset && c.tokens == segments[k].count
  }

  ghost predicate TouchesNoImage(c: Chunk, segments: seq<Segment>) {
    forall k :: 0 <= k < |segments| && segments[k].count > 0 ==>
      segments[k].End() <= c.begin || c.End() <= segments[k].offset
  }

  /** One planned chunk: a whole image, or a piece of at most the maximum that touches none;
      and the next position is again not inside an image. */
  lemma PlanOneChunk(begin: nat, end: nat, maximum: nat, segments: seq<Segment>)
    requires Placed(begin, end, segments) && 0 < maximum && begin + maximum <= end
    ensures var c := Chunk(begin, Plan(begin, maximum, segments));
            && 0 < c.tokens && c.End() <= end
            && (IsImage(c, segments) || (TouchesNoImage(c, segments) && c.tokens <= maximum))
            && Placed(c.End(), end, segments)
            && (forall k :: 0 <= k < |segments| && segments[k].count > 0 && begin <= segments[k].offset < c.End() ==>
                  c == Chunk(segments[k].offset, segments[k].count))
  {
    PlanFits(begin, maximum, end, segments);
    if k :| 0 <= k < |segments| && Covers(segments[k], begin) {
      PlanInside(begin, maximum, segments, k);
    } else {
      PlanOutside(begin, maximum, segments);
    }
  }

  /** Main result: whenever the loop succeeds its chunks partition the suffix, every chunk is a
      whole image or touches none and fits the capacity, and every image is one of the chunks. */
  lemma {:induction false} ChunksNeverSplitAnImage(begin: nat, end: nat, capacity: nat, segments: seq<Segment>)
    requires Placed(begin, end, segments) && Chunks(begin, end, capacity, segments).Ok?
    ensures var chunks := Chunks(begin, end, capacity, segments).value;
            && Partition(chunks, begin, end)
            && (forall c :: c in chunks ==> c.tokens <= capacity && (IsImage(c, segments) || TouchesNoImage(c, segments)))
            && (forall k :: 0 <= k < |segments| && segments[k].count > 0 && begin <= segments[k].offset ==>
                  Chunk(segments[k].offset, segments[k].count) in chunks)
    decreases end - begin
  {
    if begin < end {
      var maximum := Min(capacity, end - begin);
      var c := Chunk(begin, Plan(begin, maximum, segments));
      PlanOneChunk(begin, end, maximum, segments);
      ChunksNeverSplitAnImage(c.End(), end, capacity, segments);
      var rest := Chunks(c.End(), end, capacity, segments).value;
      var chunks := [c] + rest;
      assert chunks[1..] == rest;
    }
  }

  /** The chunk is an image, fills the capacity, or stops at the start of a segment or at the end. */
  ghost predicate IsLargest(c: Chunk, end: nat, capacity: nat, segments: seq<Segment>) {
    || IsImage(c, segments)
    || c.tokens == capacity || c.End() == end
    || exists k :: 0 <= k < |segments| && c.End() == segments[k].offset
  }

  lemma PlanIsLargest(begin: nat, end: nat, capacity: nat, segments: seq<Segment>)
    requires Placed(begin, end, segments) && begin < end
    ensures IsLargest(Chunk(begin, Plan(begin, Min(capacity, end - begin), segments)), end, capacity, segments)
  {
    var maximum := Min(capacity, end - begin);
    if k :| 0 <= k < |segments| && Covers(segments[k], begin) {
      PlanInside(begin, maximum, segments, k);
      assert segments[k].offset == begin;
    } else {
      PlanOutside(begin, maximum, segments);
    }
  }

  /** No chunk is smaller than it has to be. */
  lemma {:induction false} ChunksAreLargest(begin: nat, end: nat, capacity: nat, segments: seq<Segment>)
    requires Placed(begin, end, segments) && Chunks(begin, end, capacity, segments).Ok?
    ensures forall c :: c in Chunks(begin, end, capacity, segments).value ==> IsLargest(c, end, capacity, segments)
    decreases end - begin
  {
    hide IsLargest, IsImage, Plan, Placed, InBounds;
    if begin < end {
      var maximum := Min(capacity, end - begin);
      PlanStep(begin, end, capacity, segments);
      var c := Chunk(begin, Plan(begin, maximum, segments));
      PlanIsLargest(begin, end, capacity, segments);
      ChunksAreLargest(c.End(), end, capacity, segments);
    }
  }

  lemma PlanStep(begin: nat, end: nat, capacity: nat, segments: seq<Segment>)
    requires Placed(begin, end, segments) && begin < end && Chunks(begin, end, capacity, segments).Ok?
    ensures var c := Chunk(begin, Plan(begin, Min(capacity, end - begin), segments));
            && 0 < c.tokens && c.End() <= end && Placed(c.End(), end, segments)
            && Chunks(c.End(), end, capacity, segments).Ok?
            && Chunks(begin, end, capacity, segments).value == [c] + Chunks(c.End(), end, capacity, segments).value
  {
    hide Plan, Placed, IsImage, TouchesNoImage;
    var maximum := Min(capacity, end - begin);
    ChunksSucceedExactly(begin, end, capacity, segments);
    PlanOneChunk(begin, end, maximum, segments);
  }

  /** Exactness: the loop succeeds exactly when there is nothing to do, or the capacity is
      positive and holds every image still ahead. */
  lemma {:induction false} ChunksSucceedExactly(begin: nat, end: nat, capacity: nat, segments: seq<Segment>)
    requires Placed(begin, end, segments)
    ensures Chunks(begin, end, capacity, segments).Ok? <==>
      begin == end || (capacity > 0 && forall k :: 0 <= k < |segments| && begin <= segments[k].offset ==>
                                                   segments[k].count <= capacity)
    decreases end - begin
  {
    if begin < end && capacity > 0 {
      var maximum := Min(capacity, end - begin);
      var c := Chunk(begin, Plan(begin, maximum, segments));
      PlanOneChunk(begin, end, maximum, segments);
      ChunksSucceedExactly(c.End(), end, capacity, segments);
      PlanOutsideOrImage(begin, maximum, segments);
    }
  }

  lemma PlanOutsideOrImage(begin: nat, maximum: nat, segments: seq<Segment>)
    requires Disjoint(segments)
    ensures var r := Plan(begin, maximum, segments);
            r <= maximum || exists k :: 0 <= k < |segments| && Covers(segments[k], begin) && r == segments[k].End() - begin
  {
    if k :| 0 <= k < |segments| && Covers(segments[k], begin) {
      PlanInside(begin, maximum, segments, k);
    } else {
      PlanOutside(begin, maximum, segments);
    }
  }
}
