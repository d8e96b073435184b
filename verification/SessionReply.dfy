/** What a successful call answers and holds, in terms of the generated tokens. */
module SessionReply {
  import opened Wrappers
  import opened Bpe
  import opened Tokenizer
  import opened TokenizerDecode
  import opened ResponseContent
  import opened ChatTemplate
  import opened Media
  import opened ChatSession
  import opened ChatRuns
  import opened SessionText
  import D = DecodedText
  import V = VisibleTokens
  import RC = ResponseChannel
  import CS = ConversationSession

  // ---------------------------------------------------------------- the answer

  /** The outputs without a final stop token. */
  function Content(setup: Setup, outputs: seq<Token>): seq<Token> {
    if outputs != [] && outputs[|outputs| - 1] in setup.p.stops then outputs[..|outputs| - 1] else outputs
  }

  /** The answer to these outputs: the texts of the content, of its shown part without fields and calls,
      and of its thought, the calls found in it, and why it ended. */
  ghost predicate Answers(setup: Setup, tk: Tables, t: Template, job: Job, r: Response)
    requires NonEmpty(t.markers)
  {
    var content := Content(setup, r.inference.outputs);
    var shown := RC.Extract(setup.p.controls, job.toolResults, content, RC.Visible);
    var thought := RC.Extract(setup.p.controls, job.toolResults, content, RC.Reasoning);
    && D.AllHaveText(tk, content) && r.assistantContent == D.AllSay(tk, content, false)
    && D.AllHaveText(tk, shown) && ExtractSpec(t.markers, D.AllSay(tk, shown, false)) == Ok(r.assistantText)
    && D.AllHaveText(tk, thought) && r.reasoningText == D.AllSay(tk, thought, true)
    && |thought| == r.inference.reasoningTokens
    && setup.p.parseCalls(r.assistantContent) == Ok(r.calls)
    && r.prompt == job.prompt
    && r.reason == (if r.calls != [] then FinishToolCalls else if r.inference.stopped then FinishStop else FinishLength)
  }

  lemma RespondAnswers(setup: Setup, tk: Tables, t: Template, q: Request, job: Job, inference: CS.Inference)
    requires Sound(setup, tk, t) && Respond(setup, q, job, inference).Ok?
    ensures Answers(setup, tk, t, job, Respond(setup, q, job, inference).value)
    ensures Respond(setup, q, job, inference).value.inference == inference
    ensures setup.p.admitsCalls(q.tools, q.choice, Respond(setup, q, job, inference).value.calls)
  {
    hide DecodeSpec, D.AllSay, D.AllHaveText, ExtractSpec, Consistent, RC.OnChannel, EncodeSpec, RenderSpec, Continuation, ToolPrompt;
    var content := Content(setup, inference.outputs);
    D.DecodedExactly(tk, content, false);
    D.DecodedExactly(tk, RC.Extract(setup.p.controls, job.toolResults, content, RC.Visible), false);
    D.DecodedExactly(tk, RC.Extract(setup.p.controls, job.toolResults, content, RC.Reasoning), true);
  }

  /** Main result: a successful call answers what was generated, and then holds what it held, what the
      request added, and the answer as one assistant message. */
  lemma SuccessAnswers(setup: Setup, tk: Tables, t: Template, s: Snapshot, q: Request, o: CS.Oracle)
    requires Sound(setup, tk, t) && Inv(setup, s) && GenerateSpec(setup, s, q, o).1.Ok?
    ensures NonEmpty(t.markers) && Prepare(setup, s, q).Ok? && |s.committed| <= |q.messages|
    ensures var (after, r) := GenerateSpec(setup, s, q, o);
            && Answers(setup, tk, t, Prepare(setup, s, q).value, r.value)
            && BackendOf(setup, s, Prepare(setup, s, q).value, o).1 == Ok(r.value.inference)
            && after.committed
               == s.committed + q.messages[|s.committed|..] + [AssistantMessage(r.value.assistantText, r.value.calls)]
            && after.tools == q.tools && after.choice == q.choice && !after.poisoned
  {
    hide Prepare, Respond, CS.GenerateSpec, Answers, AssistantMessage, Uses, Consistent;
    SoundParts(setup, tk, t);
    PrepareExcludes(setup, s, q);
    var job := Prepare(setup, s, q).value;
    SuccessKeepsPrompt(setup, s, job, o);
    RespondAnswers(setup, tk, t, q, job, BackendOf(setup, s, job, o).1.value);
  }

  /** A reply that thinks any number of times: the user is shown the texts around the thoughts, and the
      first thought is reported. */
  lemma ThoughtsAreHidden(
    setup: Setup, tk: Tables, t: Template, s: Snapshot, q: Request, o: CS.Oracle, head: seq<Token>, blocks: seq<V.Block>)
    requires Sound(setup, tk, t) && Inv(setup, s) && GenerateSpec(setup, s, q, o).1.Ok? && !Prepare(setup, s, q).value.toolResults
    requires setup.p.controls.opener != [] && setup.p.controls.close !in setup.p.controls.opener
    requires V.PlainText(setup.p.controls, head) && forall i :: 0 <= i < |blocks| ==> V.PlainBlock(setup.p.controls, blocks[i])
    requires Content(setup, GenerateSpec(setup, s, q, o).1.value.inference.outputs) == V.Stream(setup.p.controls, head, blocks)
    ensures var r := GenerateSpec(setup, s, q, o).1.value;
            && D.AllHaveText(tk, V.Shown(head, blocks)) && D.AllHaveText(tk, V.FirstThought(blocks)) && NonEmpty(t.markers)
            && ExtractSpec(t.markers, D.AllSay(tk, V.Shown(head, blocks), false)) == Ok(r.assistantText)
            && r.reasoningText == D.AllSay(tk, V.FirstThought(blocks), true)
  {
    hide Prepare, GenerateSpec, D.AllSay, D.AllHaveText, ExtractSpec, Sound, RC.Extract, V.PlainText, V.PlainBlock, V.Stream, V.Shown, V.FirstThought, Content;
    SuccessAnswers(setup, tk, t, s, q, o);
    V.BlocksAreHidden(setup.p.controls, head, blocks);
  }

  // ---------------------------------------------------------------- what may be generated

  /** The tokens kept for the answer behind a thought: 128, or half of a smaller limit. */
  function Reserve(limit: nat): nat {
    if limit <= 128 then limit / 2 else 128
  }

  function EffortTokens(effort: Effort): nat {
    match effort
    case Off => 1
    case Small => 1024
    case Medium => 4096
    case High => 8192
  }

  /** Main result: the output limit is what was asked for, or all that the context leaves behind the
      prompt, counting that the last output is never processed; and the reasoning budget is the largest
      one that the effort allows and that leaves the reserve, but at least one. */
  lemma LimitsAreLargest(setup: Setup, s: Snapshot, q: Request)
    requires Inv(setup, s) && Prepare(setup, s, q).Ok?
    ensures var job := Prepare(setup, s, q).value;
            && |job.prompt| + job.limit <= setup.maxContext + 1 && job.limit > 0
            && (q.maxGenerated.Some? ==> job.limit == q.maxGenerated.value)
            && (q.maxGenerated.None? ==> |job.prompt| + job.limit == setup.maxContext + 1)
            && (job.reasoning.enabled <==> q.effort != Off || job.toolResults)
            && (job.reasoning.enabled ==>
                  && job.reasoning.startsInReasoning == job.toolResults && job.reasoning.controls == setup.p.controls
                  && IsLargest(EffortTokens(q.effort), job.limit, job.reasoning.budget))
  {
    hide Refusal, MaterializeSpec, PromptFor;
    PreparedLimit(setup, s, q);
  }

  /** The budget leaves the reserve. */
  predicate LeavesReserve(limit: nat, budget: nat) {
    budget + Reserve(limit) <= limit
  }

  /** The largest budget within `most` that leaves the reserve, but at least one. */
  predicate IsLargest(most: nat, limit: nat, budget: nat) {
    && 1 <= budget <= most && (budget == 1 || LeavesReserve(limit, budget))
    && (budget == most || !LeavesReserve(limit, budget + 1))
  }

  // ---------------------------------------------------------------- where the media stand

  /** Whole blocks of these marks, one behind the other, and no begin mark passed over up to the last. */
  ghost predicate BlocksStand(prompt: seq<Token>, p: CS.Placement, begin: Token, placeholder: Token, end: Token) {
    && |p.offsets| == |p.counts|
    && (forall k :: 0 <= k < |p.offsets| ==>
          && 1 <= p.offsets[k] && p.offsets[k] + p.counts[k] < |prompt|
          && prompt[p.offsets[k] - 1] == begin && prompt[p.offsets[k] + p.counts[k]] == end
          && forall i :: p.offsets[k] <= i < p.offsets[k] + p.counts[k] ==> prompt[i] == placeholder)
    && (forall j, k :: 0 <= j < k < |p.offsets| ==> p.offsets[j] + p.counts[j] + 1 < p.offsets[k])
    && (forall i: nat, k: nat :: k < |p.offsets| && i < p.offsets[k] && prompt[i] == begin ==> i + 1 in p.offsets)
  }

  lemma LocatedStand(prompt: seq<Token>, kind: Kind, p: CS.Placement)
    requires Locate(prompt, MarksOf(kind), p.counts, 0) == Ok(p.offsets)
    ensures BlocksStand(prompt, p, MarksOf(kind).begin, MarksOf(kind).placeholder, MarksOf(kind).end)
  {
    hide Locate;
    LocatedIsWellPlaced(prompt, MarksOf(kind), p.counts, 0);
    forall i: nat, k: nat | k < |p.offsets| && i < p.offsets[k] && prompt[i] == MarksOf(kind).begin
      ensures i + 1 in p.offsets
    {
      LocatedAreFirst(prompt, MarksOf(kind), p.counts, 0, i);
    }
  }

  /** Main result: the media of a prepared call are the first blocks of their kind in its prompt. */
  lemma MediaStandInPrompt(setup: Setup, s: Snapshot, q: Request)
    requires Inv(setup, s) && Prepare(setup, s, q).Ok?
    ensures var job := Prepare(setup, s, q).value;
            && BlocksStand(job.prompt, job.audio, 256000, 258881, 258883)
            && BlocksStand(job.prompt, job.vision, 255999, 258880, 258882)
  {
    hide Refusal, MaterializeSpec, PromptFor, ReasoningFor, OutputLimit, Locate, BlocksStand;
    var job := Prepare(setup, s, q).value;
    LocatedStand(job.prompt, Audio, job.audio);
    LocatedStand(job.prompt, Image, job.vision);
  }

  lemma PreparedLimit(setup: Setup, s: Snapshot, q: Request)
    requires Inv(setup, s) && Prepare(setup, s, q).Ok?
    ensures q.maxGenerated != Some(0)
  {
    hide MaterializeSpec, PromptFor, ReasoningFor, OutputLimit;
  }
}
