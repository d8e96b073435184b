/** What every run of the resident chat session keeps. */
module ChatRuns {
  import opened Wrappers
  import opened Seqs
  import opened Text
  import opened Bpe
  import opened ChatTemplate
  import opened Media
  import opened ChatSession
  import RC = ResponseChannel
  import CS = ConversationSession

  /** The session invariant. */
  ghost predicate Inv(setup: Setup, s: Snapshot) {
    && |s.cachedPrefix| <= setup.maxContext
    && (s.cachedPrefix == [] ==> s.pending == None)
    && (!s.poisoned ==>
          && s.cache == CS.Cache(s.cachedPrefix, false)
          && (s.cachedPrefix == [] <==> s.committed == [])
          && (s.committed != [] ==> s.committed[|s.committed| - 1].role == Assistant))
  }

  /** The prompt handed to the backend is the resident tokens, if any, and what the call adds. */
  lemma PromptExtendsTranscript(setup: Setup, s: Snapshot, q: Request)
    requires Inv(setup, s) && Prepare(setup, s, q).Ok?
    ensures Transcript(s) <= Prepare(setup, s, q).value.prompt
    ensures s.cachedPrefix <= Prepare(setup, s, q).value.prompt
    ensures |Prepare(setup, s, q).value.prompt| <= setup.maxContext
    ensures 1 <= Prepare(setup, s, q).value.limit <= setup.maxContext - |Prepare(setup, s, q).value.prompt| + 1
  {
    hide Refusal, MaterializeSpec, Locate, ReasoningFor, ResolveResults;
    PositiveLimit(setup, s, q);
    RefusalExcludes(setup, s, q);
    var m := MaterializeSpec(q.messages, s.committed).value;
    var prompt := PromptFor(setup, s, q, m).value;
    if s.cachedPrefix != [] {
      assert Transcript(s) <= prompt;
      assert s.cachedPrefix <= Transcript(s);
    } else {
      assert Transcript(s) == [];
    }
  }

  lemma PositiveLimit(setup: Setup, s: Snapshot, q: Request)
    ensures Refusal(setup, s, q).None? ==> q.maxGenerated != Some(0)
  {
  }

  /** A generation that succeeds stays within its limit. */
  lemma OutputsWithinLimit(setup: Setup, s: Snapshot, job: Job, o: CS.Oracle)
    ensures var (_, inference) := CS.GenerateSpec(
              setup.maxContext, setup.p.stops, s.cache, job.prompt, job.limit, job.reasoning, o, job.audio, job.vision);
            inference.Ok? ==>
              && 1 <= |inference.value.outputs| <= job.limit
              && (inference.value.stopped <==> inference.value.outputs[|inference.value.outputs| - 1] in setup.p.stops)
              && job.prompt != []
  {
    hide CS.Generated, CS.Aligned;
    if CS.Acceptable(setup.maxContext, job.prompt, job.limit, job.reasoning, job.audio, job.vision) {
      CS.GeneratedKeeps(job.reasoning, setup.p.stops, o, job.prompt, job.limit);
    }
  }

  function BackendOf(setup: Setup, s: Snapshot, job: Job, o: CS.Oracle): (CS.Cache, Result<CS.Inference>) {
    CS.GenerateSpec(setup.maxContext, setup.p.stops, s.cache, job.prompt, job.limit, job.reasoning, o, job.audio, job.vision)
  }

  /** Main result: one call, whatever the request, the model and the callback do, keeps the
      invariant. */
  lemma StepKeepsInv(setup: Setup, s: Snapshot, q: Request, o: CS.Oracle)
    requires Inv(setup, s)
    ensures Inv(setup, GenerateSpec(setup, s, q, o).0)
  {
    hide Prepare, Respond, CS.GenerateSpec;
    if Prepare(setup, s, q).Ok? {
      var job := Prepare(setup, s, q).value;
      PromptExtendsTranscript(setup, s, q);
      PrepareExcludes(setup, s, q);
      SuccessKeepsPrompt(setup, s, job, o);
      OutputsWithinLimit(setup, s, job, o);
      FailureKeepsOrPoisons(setup, s, job, o);
      var (cache, inference) := BackendOf(setup, s, job, o);
      if inference.Ok? {
        AdvanceKeepsInv(setup, s, q, job, inference.value, cache);
      }
    }
  }

  lemma AdvanceKeepsInv(setup: Setup, s: Snapshot, q: Request, job: Job, inference: CS.Inference, cache: CS.Cache)
    requires Inv(setup, s) && !s.poisoned && q.messages != [] && |s.committed| <= |q.messages|
    requires job.prompt != [] && |job.prompt| <= setup.maxContext && job.limit <= setup.maxContext - |job.prompt| + 1
    requires 1 <= |inference.outputs| <= job.limit && cache == CS.Cache(job.prompt + Kept(inference.outputs), false)
    ensures Inv(setup, Advance(s, job, inference, cache).(poisoned := true))
    ensures forall r :: Inv(setup, Commit(Advance(s, job, inference, cache), q, r))
  {
  }

  lemma FailureKeepsOrPoisons(setup: Setup, s: Snapshot, job: Job, o: CS.Oracle)
    ensures var (cache, inference) := BackendOf(setup, s, job, o);
            inference.Err? ==> cache == s.cache || cache.poisoned
  {
    hide CS.Generated, CS.Acceptable;
  }

  /** Main result: committed messages only grow, a refused call changes nothing, and once the
      session is poisoned nothing changes at all. */
  lemma StepIsTransactional(setup: Setup, s: Snapshot, q: Request, o: CS.Oracle)
    requires Inv(setup, s)
    ensures var (after, r) := GenerateSpec(setup, s, q, o);
            && s.committed <= after.committed
            && (s.poisoned ==> after == s && r.Err?)
            && (Prepare(setup, s, q).Err? ==> after == s && r.Err?)
            && (r.Err? ==> after.committed == s.committed && (after == s || after.poisoned))
            && (r.Ok? ==> !after.poisoned && |s.committed| < |after.committed|)
  {
    hide Prepare, Respond, CS.GenerateSpec;
    if s.poisoned {
      PoisonRefuses(setup, s, q);
    }
    if Prepare(setup, s, q).Ok? {
      var job := Prepare(setup, s, q).value;
      PrepareExcludes(setup, s, q);
      SuccessKeepsPrompt(setup, s, job, o);
      FailureKeepsOrPoisons(setup, s, job, o);
    }
  }

  lemma PoisonRefuses(setup: Setup, s: Snapshot, q: Request)
    requires s.poisoned
    ensures Prepare(setup, s, q) == Err(Internal)
  {
    hide MaterializeSpec, Locate, PromptFor;
  }

  /** One call of a run: the request, and how the model and the callback answer. */
  datatype Call = Call(q: Request, o: CS.Oracle)

  /** A whole run. */
  function Run(setup: Setup, s: Snapshot, calls: seq<Call>): (r: Snapshot)
    requires Inv(setup, s)
    ensures Inv(setup, r)
    decreases |calls|
  {
    if calls == [] then s
    else
      (StepKeepsInv(setup, s, calls[0].q, calls[0].o);
       Run(setup, GenerateSpec(setup, s, calls[0].q, calls[0].o).0, calls[1..]))
  }

  /** Over every run: committed messages only grow, and poison freezes the session. */
  lemma {:induction false} RunIsMonotone(setup: Setup, s: Snapshot, calls: seq<Call>)
    requires Inv(setup, s)
    ensures s.committed <= Run(setup, s, calls).committed
    ensures s.poisoned ==> Run(setup, s, calls) == s
    decreases |calls|
  {
    hide GenerateSpec;
    if calls != [] {
      StepKeepsInv(setup, s, calls[0].q, calls[0].o);
      StepIsTransactional(setup, s, calls[0].q, calls[0].o);
      RunIsMonotone(setup, GenerateSpec(setup, s, calls[0].q, calls[0].o).0, calls[1..]);
    }
  }

  lemma {:induction false} RunConcat(setup: Setup, s: Snapshot, a: seq<Call>, b: seq<Call>)
    requires Inv(setup, s)
    ensures Run(setup, s, a + b) == Run(setup, Run(setup, s, a), b)
    decreases |a|
  {
    hide GenerateSpec;
    if a == [] {
      EmptyUnits(b);
    } else {
      StepKeepsInv(setup, s, a[0].q, a[0].o);
      TailOfConcat(a, b);
      RunConcat(setup, GenerateSpec(setup, s, a[0].q, a[0].o).0, a[1..], b);
    }
  }

  /** Main result over runs: at every point of every run from a fresh session, the prompt of the
      next call extends the tokens cached so far, and fits the context. */
  lemma EveryPromptExtendsTheCache(setup: Setup, calls: seq<Call>, q: Request)
    ensures var s := Run(setup, Opened(), calls);
            Prepare(setup, s, q).Ok? ==>
              && s.cachedPrefix <= Prepare(setup, s, q).value.prompt
              && |Prepare(setup, s, q).value.prompt| <= setup.maxContext
              && s.cache == CS.Cache(s.cachedPrefix, false)
  {
    hide Run;
    var s := Run(setup, Opened(), calls);
    if Prepare(setup, s, q).Ok? {
      PromptExtendsTranscript(setup, s, q);
      PrepareExcludes(setup, s, q);
    }
  }

  // ---------------------------------------------------------------- nothing is lost

  /** Main result: a successful call extends the resident transcript by exactly the generated
      tokens without a final stop token, behind the prompt. */
  lemma TranscriptGrows(setup: Setup, s: Snapshot, q: Request, o: CS.Oracle)
    requires Inv(setup, s) && GenerateSpec(setup, s, q, o).1.Ok?
    ensures var (after, r) := GenerateSpec(setup, s, q, o);
            && r.value.prompt == Prepare(setup, s, q).value.prompt
            && Transcript(after) == r.value.prompt + CS.ContentIds(setup.p.stops, r.value.inference.outputs)
  {
    hide Prepare, CS.GenerateSpec, RC.Extract;
    var job := Prepare(setup, s, q).value;
    SuccessKeepsPrompt(setup, s, job, o);
    OutputsWithinLimit(setup, s, job, o);
    var inference := BackendOf(setup, s, job, o).1.value;
    TranscriptOf(job.prompt, inference.outputs, setup.p.stops, inference.stopped);
  }

  lemma TranscriptOf(prompt: seq<Token>, outputs: seq<Token>, stops: seq<Token>, stopped: bool)
    requires outputs != [] && (stopped <==> outputs[|outputs| - 1] in stops)
    ensures (prompt + Kept(outputs)) + PendingTokens(if !stopped && outputs != [] then Some(outputs[|outputs| - 1]) else None)
         == prompt + CS.ContentIds(stops, outputs)
  {
    assert outputs == outputs[..|outputs| - 1] + [outputs[|outputs| - 1]];
  }

  // ---------------------------------------------------------------- the backend's checks

  /** What the tokenizer side owes: nonempty in-vocabulary encodings and usable markers. */
  ghost predicate Reliable(p: Processor) {
    && (forall m, t, d :: p.encode(m, t, d).Ok? ==> p.encode(m, t, d).value != [] && CS.InVocabulary(p.encode(m, t, d).value))
    && (forall u, t :: p.continueUser(u, t).Ok? ==> p.continueUser(u, t).value != [] && CS.InVocabulary(p.continueUser(u, t).value))
    && (forall r, t :: p.continueTools(r, t).Ok? ==> p.continueTools(r, t).value != [] && CS.InVocabulary(p.continueTools(r, t).value))
    && p.controls.opener != [] && |p.controls.opener| <= CS.MAXIMUM_OPEN_TOKENS && p.controls.close < CS.VOCABULARY
  }

  ghost predicate Bounded(counts: seq<nat>, maximum: nat) {
    forall k :: 0 <= k < |counts| ==> 0 < counts[k] <= maximum
  }

  lemma {:induction false} PartsAreBounded(message: Message, n: nat)
    requires n <= |message.content|
    ensures var d := AddParts(message, n);
            d.Ok? ==> Bounded(d.value.audio, MAXIMUM_AUDIO_TOKENS) && Bounded(d.value.images, MAXIMUM_PATCHES)
  {
    hide BlockString;
    if n > 0 {
      PartsAreBounded(message, n - 1);
    }
  }

  lemma {:induction false} MediaAreBounded(messages: seq<Message>, canonical: seq<Message>, n: nat)
    requires n <= |messages|
    ensures var m := MaterializeFirst(messages, canonical, n);
            m.Ok? ==> Bounded(m.value.audio, MAXIMUM_AUDIO_TOKENS) && Bounded(m.value.images, MAXIMUM_PATCHES)
  {
    hide AddParts;
    if n > 0 {
      MediaAreBounded(messages, canonical, n - 1);
      var message := CanonicalAt(messages, canonical, n - 1);
      PartsAreBounded(message, |message.content|);
    }
  }

  lemma LocatedIsAligned(prompt: seq<Token>, kind: Kind, counts: seq<nat>, maximum: nat, positions: seq<seq<int>>)
    requires Locate(prompt, MarksOf(kind), counts, 0).Ok? && Bounded(counts, maximum)
    ensures CS.Aligned(prompt, MarksOf(kind).placeholder, maximum, CS.Placement(Locate(prompt, MarksOf(kind), counts, 0).value, counts, positions))
  {
    hide Locate;
    LocatedIsWellPlaced(prompt, MarksOf(kind), counts, 0);
  }

  lemma ReasoningIsUsable(p: Processor, q: Request, toolResults: bool, limit: nat)
    requires Reliable(p) && limit > 0
    ensures CS.ReasoningUsable(ReasoningFor(p.controls, q, toolResults, limit))
  {
  }

  lemma PromptIsInVocabulary(setup: Setup, s: Snapshot, q: Request, m: Materialized)
    requires Inv(setup, s) && !s.poisoned && Reliable(setup.p) && CS.InVocabulary(Transcript(s))
    requires m.messages != [] && |s.committed| <= |q.messages| && PromptFor(setup, s, q, m).Ok?
    ensures CS.InVocabulary(PromptFor(setup, s, q, m).value)
    ensures s.cachedPrefix < PromptFor(setup, s, q, m).value
  {
    hide ResolveResults;
    if s.cachedPrefix != [] {
      assert s.cachedPrefix <= Transcript(s);
    }
  }

  // ---------------------------------------------------------------- image positions

  predicate PartsInGrid(message: Message, n: nat)
    requires n <= |message.content|
  {
    forall j :: 0 <= j < n && message.content[j].ImagePart? ==> CS.InGrid(message.content[j].image.positions)
  }

  /** Every image of the message has its patches on the position grid. */
  predicate MessageInGrid(message: Message) {
    PartsInGrid(message, |message.content|)
  }

  /** The same for the messages a call adds to the resident ones. */
  ghost predicate AddedInGrid(s: Snapshot, q: Request) {
    forall k :: |s.committed| <= k < |q.messages| ==> MessageInGrid(q.messages[k])
  }

  ghost predicate CommittedInGrid(s: Snapshot) {
    forall k :: 0 <= k < |s.committed| ==> MessageInGrid(s.committed[k])
  }

  ghost predicate AllInGrid(positions: seq<seq<int>>) {
    forall k :: 0 <= k < |positions| ==> CS.InGrid(positions[k])
  }

  /** Two coordinates for every patch, as the session checks them. */
  ghost predicate Paired(images: seq<nat>, positions: seq<seq<int>>) {
    |positions| == |images| && forall k :: 0 <= k < |images| ==> |positions[k]| == 2 * images[k]
  }

  lemma AllInGridConcat(a: seq<seq<int>>, b: seq<seq<int>>)
    ensures AllInGrid(a + b) <==> AllInGrid(a) && AllInGrid(b)
  {
    hide CS.InGrid;
    if AllInGrid(a + b) {
      forall k | 0 <= k < |a|
        ensures CS.InGrid(a[k])
      {
        assert (a + b)[k] == a[k];
      }
      forall k | 0 <= k < |b|
        ensures CS.InGrid(b[k])
      {
        assert (a + b)[|a| + k] == b[k];
      }
    }
  }

  lemma {:induction false} PartPositions(message: Message, n: nat)
    requires n <= |message.content| && AddParts(message, n).Ok?
    ensures var d := AddParts(message, n).value;
            Paired(d.images, d.positions) && (AllInGrid(d.positions) <==> PartsInGrid(message, n))
  {
    hide BlockString, CS.InGrid;
    if n > 0 {
      PartPositions(message, n - 1);
      var part := message.content[n - 1];
      if part.ImagePart? {
        AllInGridConcat(AddParts(message, n - 1).value.positions, [part.image.positions]);
        assert [part.image.positions][0] == part.image.positions;
      }
    }
  }

  lemma {:induction false} MessagePositions(messages: seq<Message>, canonical: seq<Message>, n: nat)
    requires n <= |messages| && MaterializeFirst(messages, canonical, n).Ok?
    ensures var m := MaterializeFirst(messages, canonical, n).value;
            && Paired(m.images, m.positions)
            && (AllInGrid(m.positions) <==> forall k :: 0 <= k < n ==> MessageInGrid(CanonicalAt(messages, canonical, k)))
  {
    hide AddParts, MessageInGrid, AllInGrid;
    if n == 0 {
      NoPositions();
    } else {
      MessagePositions(messages, canonical, n - 1);
      var message := CanonicalAt(messages, canonical, n - 1);
      PartPositions(message, |message.content|);
      WholeMessage(message);
      AllInGridConcat(MaterializeFirst(messages, canonical, n - 1).value.positions, MaterializeOne(message).value.positions);
    }
  }

  lemma NoPositions()
    ensures AllInGrid([])
  {
  }

  lemma WholeMessage(message: Message)
    ensures MessageInGrid(message) <==> PartsInGrid(message, |message.content|)
  {
  }

  /** The position test of the backend, in terms of the messages of the call. */
  lemma PositionedExactly(setup: Setup, s: Snapshot, q: Request)
    requires Inv(setup, s) && Prepare(setup, s, q).Ok?
    ensures CS.Positioned(Prepare(setup, s, q).value.vision)
       <==> forall k :: 0 <= k < |q.messages| ==> MessageInGrid(CanonicalAt(q.messages, s.committed, k))
  {
    hide Refusal, MaterializeFirst, Locate, PromptFor, ReasoningFor, MessageInGrid, CS.InGrid;
    MessagePositions(q.messages, s.committed, |q.messages|);
  }

  // ---------------------------------------------------------------- acceptance by the backend

  /** Main result: on a usable session every prepared job passes all of the backend's own checks
      but one: the errors "prompt differs from the resident prefix", "no new tokens", "does not fit"
      and "placeholders misaligned" cannot happen, and the job is accepted exactly when every image
      position of its messages lies on the grid. */
  lemma BackendAcceptsExactly(setup: Setup, s: Snapshot, q: Request)
    requires Inv(setup, s) && Reliable(setup.p) && CS.InVocabulary(Transcript(s)) && Prepare(setup, s, q).Ok?
    ensures var job := Prepare(setup, s, q).value;
            && CS.ExtendsCache(s.cache.tokens, job.prompt) && !s.cache.poisoned
            && (CS.Acceptable(setup.maxContext, job.prompt, job.limit, job.reasoning, job.audio, job.vision)
                <==> forall k :: 0 <= k < |q.messages| ==> MessageInGrid(CanonicalAt(q.messages, s.committed, k)))
  {
    hide Refusal, MaterializeFirst, Locate, PromptFor, ReasoningFor, CS.Aligned, CS.Positioned, Reliable, MessageInGrid;
    var m := MaterializeSpec(q.messages, s.committed).value;
    var job := Prepare(setup, s, q).value;
    RefusalExcludes(setup, s, q);
    PositiveLimit(setup, s, q);
    MediaAreBounded(q.messages, s.committed, |q.messages|);
    LocatedIsAligned(job.prompt, Audio, m.audio, MAXIMUM_AUDIO_TOKENS, []);
    LocatedIsAligned(job.prompt, Image, m.images, MAXIMUM_PATCHES, m.positions);
    PromptIsInVocabulary(setup, s, q, m);
    ReasoningIsUsable(setup.p, q, job.toolResults, job.limit);
    PositionedExactly(setup, s, q);
  }

  /** Only accepted images become resident. */
  lemma StepKeepsGrid(setup: Setup, s: Snapshot, q: Request, o: CS.Oracle)
    requires Inv(setup, s) && CommittedInGrid(s)
    ensures CommittedInGrid(GenerateSpec(setup, s, q, o).0)
  {
    hide Prepare, Respond, CS.Generated, CS.Aligned, CS.Positioned, MessageInGrid;
    StepIsTransactional(setup, s, q, o);
    var (after, r) := GenerateSpec(setup, s, q, o);
    if r.Ok? {
      PrepareExcludes(setup, s, q);
      PositionedExactly(setup, s, q);
      AssistantInGrid(r.value.assistantText, r.value.calls);
      forall k | 0 <= k < |after.committed|
        ensures MessageInGrid(after.committed[k])
      {
        if |s.committed| <= k < |q.messages| {
          assert after.committed[k] == CanonicalAt(q.messages, s.committed, k);
        }
      }
    }
  }

  lemma AssistantInGrid(text: Text, calls: seq<ToolCall>)
    ensures MessageInGrid(AssistantMessage(text, calls))
  {
    CallsAreNoImages(calls);
  }

  lemma {:induction false} CallsAreNoImages(calls: seq<ToolCall>)
    ensures forall j :: 0 <= j < |CallParts(calls)| ==> !CallParts(calls)[j].ImagePart?
  {
    if calls != [] {
      CallsAreNoImages(calls[1..]);
    }
  }

  lemma {:induction false} RunKeepsGrid(setup: Setup, s: Snapshot, calls: seq<Call>)
    requires Inv(setup, s) && CommittedInGrid(s)
    ensures CommittedInGrid(Run(setup, s, calls))
    decreases |calls|
  {
    hide GenerateSpec, CommittedInGrid;
    if calls != [] {
      StepKeepsInv(setup, s, calls[0].q, calls[0].o);
      StepKeepsGrid(setup, s, calls[0].q, calls[0].o);
      RunKeepsGrid(setup, GenerateSpec(setup, s, calls[0].q, calls[0].o).0, calls[1..]);
    }
  }

  lemma OutputsInVocabulary(setup: Setup, s: Snapshot, job: Job, o: CS.Oracle)
    requires CS.Selects(o)
    ensures var inference := BackendOf(setup, s, job, o).1;
            inference.Ok? ==> CS.InVocabulary(job.prompt) && CS.InVocabulary(inference.value.outputs)
  {
    hide CS.Generated, CS.Aligned;
    if CS.Acceptable(setup.maxContext, job.prompt, job.limit, job.reasoning, job.audio, job.vision) {
      CS.GeneratedInVocabulary(job.reasoning, setup.p.stops, o, job.prompt, job.limit);
    }
  }

  lemma StepKeepsVocabulary(setup: Setup, s: Snapshot, q: Request, o: CS.Oracle)
    requires Inv(setup, s) && CS.Selects(o) && CS.InVocabulary(Transcript(s))
    ensures CS.InVocabulary(Transcript(GenerateSpec(setup, s, q, o).0))
  {
    hide Prepare, Respond, CS.GenerateSpec, CS.Selects;
    if Prepare(setup, s, q).Ok? {
      var job := Prepare(setup, s, q).value;
      OutputsInVocabulary(setup, s, job, o);
      PrepareExcludes(setup, s, q);
    }
  }

  ghost predicate AllSelect(calls: seq<Call>) {
    forall k :: 0 <= k < |calls| ==> CS.Selects(calls[k].o)
  }

  lemma {:induction false} RunKeepsVocabulary(setup: Setup, s: Snapshot, calls: seq<Call>)
    requires Inv(setup, s) && AllSelect(calls) && CS.InVocabulary(Transcript(s))
    ensures CS.InVocabulary(Transcript(Run(setup, s, calls)))
    decreases |calls|
  {
    hide GenerateSpec, Transcript, CS.InVocabulary;
    if calls != [] {
      StepKeepsInv(setup, s, calls[0].q, calls[0].o);
      StepKeepsVocabulary(setup, s, calls[0].q, calls[0].o);
      RunKeepsVocabulary(setup, GenerateSpec(setup, s, calls[0].q, calls[0].o).0, calls[1..]);
    }
  }

  /** A call that is refused behind the preparation: an argument error that leaves no trace. */
  ghost predicate Refused(setup: Setup, s: Snapshot, q: Request, o: CS.Oracle)
    requires Inv(setup, s)
  {
    GenerateSpec(setup, s, q, o) == (s, Err(InvalidArgument))
  }

  /** Main result over runs: from a fresh session, a prepared call is refused by the backend if and
      only if an image it adds has a position off the grid; any other failure behind the
      preparation poisons. */
  lemma BackendRefusesExactly(setup: Setup, calls: seq<Call>, q: Request, o: CS.Oracle)
    requires Reliable(setup.p) && AllSelect(calls)
    requires Prepare(setup, Run(setup, Opened(), calls), q).Ok?
    ensures var s := Run(setup, Opened(), calls);
            && (Refused(setup, s, q, o) <==> !AddedInGrid(s, q))
            && (GenerateSpec(setup, s, q, o).1.Err? && AddedInGrid(s, q) ==> GenerateSpec(setup, s, q, o).0.poisoned)
  {
    hide Prepare, Run, CS.Acceptable, CS.Generated, Reliable, Respond, MessageInGrid;
    var s := Run(setup, Opened(), calls);
    assert Transcript(Opened()) == [];
    RunKeepsVocabulary(setup, Opened(), calls);
    RunKeepsGrid(setup, Opened(), calls);
    BackendAcceptsExactly(setup, s, q);
    PrepareExcludes(setup, s, q);
    forall k | 0 <= k < |q.messages|
      ensures CanonicalAt(q.messages, s.committed, k) == if k < |s.committed| then s.committed[k] else q.messages[k]
    {
    }
  }

  /** A processor that renders every conversation as one image of one patch. */
  function OneImageProcessor(): Processor {
    Processor((m, t, d) => Ok(Print([Block(Image, 1)])), (u, t) => Err(Internal), (r, t) => Err(Internal),
              (ids, skip) => Ok([]), ids => Ok([]), text => Ok([]), (d, c, calls) => true, d => true, RC.Controls([100], 101), [])
  }

  /** A user message with that image, its patch at the given position. */
  function OneImageRequest(position: seq<int>): Request {
    Request([Message(User, [ImagePart(ProcessedImage(1, seq(6912, _ => 0.0), position, 1))])],
            None, Off, [], ToolChoice(Auto, []), true)
  }

  lemma OneImageIsPrepared(position: seq<int>)
    requires |position| == 2
    ensures Prepare(Setup(OneImageProcessor(), 100), Opened(), OneImageRequest(position)).Ok?
  {
    hide BlockString, ReasoningFor, Print;
    var setup, q := Setup(OneImageProcessor(), 100), OneImageRequest(position);
    var message := q.messages[0];
    assert AddParts(message, 0) == Ok(EmptyDraft(User));
    assert AddParts(message, 1).Ok? && AddParts(message, 1).value.audio == [] && AddParts(message, 1).value.images == [1];
    assert MaterializeFirst(q.messages, [], 0) == Ok(Materialized([], [], [], []));
    var m := MaterializeSpec(q.messages, []).value;
    assert m.audio == [] && m.images == [1] && |m.messages| == 1;
    var prompt := Print([Block(Image, 1)]);
    OneBlockIsLocated();
  }

  lemma OneBlockIsLocated()
    ensures |Print([Block(Image, 1)])| == 3 && CS.InVocabulary(Print([Block(Image, 1)]))
    ensures Locate(Print([Block(Image, 1)]), MarksOf(Image), [1], 0).Ok?
    ensures Locate(Print([Block(Image, 1)]), MarksOf(Audio), [], 0).Ok?
  {
    var items := [Block(Image, 1)];
    assert items[1..] == [] && Print(items) == [255999] + Repeat(258880, 1) + [258882];
    assert Repeat(258880, 1) == [258880];
    PrintThenLocate(items, Image, Print(items), 0);
    assert Counts(items, Image) == [1];
  }

  /** A position at the end of the grid is prepared, and then refused without a trace. */
  lemma PositionRefusalHappens(o: CS.Oracle)
    ensures var setup, q := Setup(OneImageProcessor(), 100), OneImageRequest([1120, 0]);
            Prepare(setup, Opened(), q).Ok? && GenerateSpec(setup, Opened(), q, o) == (Opened(), Err(InvalidArgument))
  {
    hide Prepare, CS.Generated, Respond, Print, CS.Acceptable;
    var setup, q := Setup(OneImageProcessor(), 100), OneImageRequest([1120, 0]);
    OneImageIsPrepared([1120, 0]);
    OneBlockIsLocated();
    BackendAcceptsExactly(setup, Opened(), q);
    var message := CanonicalAt(q.messages, [], 0);
    assert message.content[0].image.positions[0] == 1120;
    assert !MessageInGrid(message);
  }

  // ---------------------------------------------------------------- when a success poisons

  /** The outputs that are content, those of them that are shown, and those that are reasoning. */
  function ContentOf(p: Processor, outputs: seq<Token>): seq<Token> {
    CS.ContentIds(p.stops, outputs)
  }

  function VisibleOf(p: Processor, job: Job, outputs: seq<Token>): seq<Token> {
    RC.Extract(p.controls, job.toolResults, ContentOf(p, outputs), RC.Visible)
  }

  function ReasoningOf(p: Processor, job: Job, outputs: seq<Token>): seq<Token> {
    RC.Extract(p.controls, job.toolResults, ContentOf(p, outputs), RC.Reasoning)
  }

  /** The streamed count of reasoning tokens differs from the one taken of the content: with
      reasoning observed, a stop token ended the run inside it; without, the content holds a token
      of the reasoning channel. */
  ghost predicate Miscounted(p: Processor, job: Job, outputs: seq<Token>) {
    if job.reasoning.enabled then CS.StoppedInReasoning(job.reasoning, p.stops, outputs)
    else
      var content := ContentOf(p, outputs);
      exists i :: 0 <= i < |content| && RC.Label(p.controls, RC.Start(false), content, i) == RC.Reasoning
  }

  lemma {:induction false} SomeOnChannel(c: RC.Controls, s0: RC.State, ts: seq<Token>, n: nat, channel: RC.Channel)
    requires RC.InBounds(c, s0) && n <= |ts|
    ensures RC.OnChannel(c, s0, ts, n, channel) == [] <==> forall i :: 0 <= i < n ==> RC.Label(c, s0, ts, i) != channel
  {
    hide RC.Label, RC.InBounds;
    if n > 0 {
      SomeOnChannel(c, s0, ts, n - 1, channel);
    }
  }

  /** The two counts differ exactly when the outputs are miscounted, in either mode. */
  lemma CountsDifferExactly(setup: Setup, s: Snapshot, q: Request, o: CS.Oracle)
    requires Inv(setup, s) && Prepare(setup, s, q).Ok? && BackendOf(setup, s, Prepare(setup, s, q).value, o).1.Ok?
    ensures var job := Prepare(setup, s, q).value;
            var inference := BackendOf(setup, s, job, o).1.value;
            |ReasoningOf(setup.p, job, inference.outputs)| != inference.reasoningTokens <==> Miscounted(setup.p, job, inference.outputs)
  {
    hide Prepare, CS.Generated, CS.Acceptable, CS.ContentIds, CS.StoppedInReasoning, RC.OnChannel, RC.Label;
    var job := Prepare(setup, s, q).value;
    JobReasoning(setup, s, q);
    PrepareExcludes(setup, s, q);
    if job.reasoning.enabled {
      AcceptedIsUsable(setup.maxContext, job);
      CS.AccountingAgreesExactly(job.reasoning, setup.p.stops, o, job.prompt, job.limit);
    } else {
      var inference := BackendOf(setup, s, job, o).1.value;
      var content := ContentOf(setup.p, inference.outputs);
      SomeOnChannel(setup.p.controls, RC.Start(false), content, |content|, RC.Reasoning);
      assert inference.reasoningTokens == 0 && !job.toolResults;
    }
  }

  /** Without observation, for an opener that the tracker recognises exactly, that is a first opener
      in the content with a token other than the close token behind it. */
  lemma MiscountedByOpener(p: Processor, job: Job, outputs: seq<Token>)
    requires !job.reasoning.enabled
    requires p.controls.opener != [] && RC.BordersContinue(p.controls.opener) && p.controls.close !in p.controls.opener
    ensures var content := ContentOf(p, outputs);
            Miscounted(p, job, outputs)
            <==> exists e: nat :: RC.OpensAt(p.controls, false, content, e) && e < |content| && content[e] != p.controls.close
  {
    hide CS.ContentIds, RC.BordersContinue, RC.OnChannel, RC.Label, RC.OpensAt;
    var content := ContentOf(p, outputs);
    SomeOnChannel(p.controls, RC.Start(false), content, |content|, RC.Reasoning);
    RC.NoReasoningExactly(p.controls, content);
    forall e: nat | RC.OpensAt(p.controls, false, content, e)
      ensures e <= |content|
    {
      RC.OpensInReasoning(p.controls, false, content, e);
    }
  }

  lemma JobReasoning(setup: Setup, s: Snapshot, q: Request)
    requires (!s.poisoned ==> Usable(s)) && Prepare(setup, s, q).Ok?
    ensures var job := Prepare(setup, s, q).value;
            && (job.reasoning.enabled <==> q.effort != Off || job.toolResults)
            && (job.reasoning.enabled ==> job.reasoning.controls == setup.p.controls && job.reasoning.startsInReasoning == job.toolResults)
            && (q.effort == Off && job.toolResults ==> job.reasoning.budget == 1)
  {
    hide Refusal, MaterializeSpec, Locate, PromptFor;
  }

  lemma AcceptedIsUsable(maxContext: nat, job: Job)
    ensures CS.Acceptable(maxContext, job.prompt, job.limit, job.reasoning, job.audio, job.vision) ==>
              job.limit > 0 && CS.ReasoningUsable(job.reasoning)
  {
  }

  /** After tool results with thinking off the reasoning opener is not in the prompt, yet the session
      counts the first output as reasoning and forces the close token as the second. */
  lemma ToolAnswerWithoutThinking(setup: Setup, s: Snapshot, q: Request, o: CS.Oracle)
    requires Inv(setup, s) && Prepare(setup, s, q).Ok? && q.effort == Off && Prepare(setup, s, q).value.toolResults
    requires var inference := BackendOf(setup, s, Prepare(setup, s, q).value, o).1;
             inference.Ok? && inference.value.outputs != [] && inference.value.outputs[0] != setup.p.controls.close
    ensures var outputs := BackendOf(setup, s, Prepare(setup, s, q).value, o).1.value.outputs;
            && RC.Label(setup.p.controls, RC.Start(true), outputs, 0) == RC.Reasoning
            && (|outputs| > 1 ==> outputs[1] == setup.p.controls.close)
  {
    hide Prepare, CS.Generated, CS.Acceptable;
    var job := Prepare(setup, s, q).value;
    JobReasoning(setup, s, q);
    AcceptedIsUsable(setup.maxContext, job);
    var outputs := BackendOf(setup, s, job, o).1.value.outputs;
    CS.GeneratedKeeps(job.reasoning, setup.p.stops, o, job.prompt, job.limit);
    if |outputs| > 1 {
      CS.BudgetCloses(job.reasoning, setup.p.stops, o, job.prompt, job.limit);
      assert outputs[..2] == [outputs[0], outputs[1]];
    }
  }
}
