/** The prompt that answers a reply's tool calls, read back as text. */
module SessionTools {
  import opened Wrappers
  import opened Seqs
  import opened Text
  import opened Tokenizer
  import opened TokenizerDecode
  import opened ResponseContent
  import opened ChatTemplate
  import opened Media
  import opened ChatSession
  import opened ChatRuns
  import opened SessionText
  import opened SessionRender
  import CS = ConversationSession

  /** A tool message as clients send it: one result. */
  predicate HoldsResult(message: Message) {
    message.role == Tool && |message.content| == 1 && message.content[0].ResultPart?
  }

  function ResultTurn(message: Message): ChatMessage
    requires HoldsResult(message)
  {
    ChatMessage(Tool, message.content[0].output, [], message.content[0].callId, [])
  }

  function ResultTurns(messages: seq<Message>): (r: seq<ChatMessage>)
    requires forall k :: 0 <= k < |messages| ==> HoldsResult(messages[k])
    ensures |r| == |messages| && forall k :: 0 <= k < |r| ==> r[k] == ResultTurn(messages[k])
  {
    seq(|messages|, k requires 0 <= k < |messages| => ResultTurn(messages[k]))
  }

  lemma ResultIsMaterialized(message: Message)
    requires HoldsResult(message)
    ensures MaterializeOne(message) == Ok(Draft(ResultTurn(message), [], [], []))
  {
    hide BlockString;
    assert AddParts(message, 0) == Ok(EmptyDraft(Tool));
    EmptyUnits(message.content[0].output);
  }

  lemma ResultTurnsSnoc(messages: seq<Message>, m: Message)
    requires HoldsResult(m) && forall k :: 0 <= k < |messages| ==> HoldsResult(messages[k])
    ensures ResultTurns(messages + [m]) == ResultTurns(messages) + [ResultTurn(m)]
  {
  }

  lemma OneMaterialized(messages: seq<Message>, canonical: seq<Message>, n: nat)
    requires |canonical| < n <= |messages| && MaterializeFirst(messages, canonical, n).Ok? && HoldsResult(messages[n - 1])
    ensures MaterializeFirst(messages, canonical, n - 1).Ok?
    ensures MaterializeFirst(messages, canonical, n).value.messages
         == MaterializeFirst(messages, canonical, n - 1).value.messages + [ResultTurn(messages[n - 1])]
  {
    hide MaterializeOne;
    ResultIsMaterialized(messages[n - 1]);
  }

  /** The added tool messages as the template gets them. */
  lemma {:induction false} AddedResults(messages: seq<Message>, canonical: seq<Message>, n: nat)
    requires |canonical| <= n <= |messages| && MaterializeFirst(messages, canonical, n).Ok?
    requires forall k :: |canonical| <= k < n ==> HoldsResult(messages[k])
    ensures MaterializeFirst(messages, canonical, n).value.messages[|canonical|..] == ResultTurns(messages[|canonical|..n])
    decreases n
  {
    hide MaterializeFirst, ResultTurns, ResultTurn, HoldsResult;
    if n > |canonical| {
      var added, last := messages[|canonical|..n - 1], messages[n - 1];
      OneMaterialized(messages, canonical, n);
      AddedResults(messages, canonical, n - 1);
      var before := MaterializeFirst(messages, canonical, n - 1).value.messages;
      DropOfConcat(before, [ResultTurn(last)], |canonical|);
      assert messages[|canonical|..n] == added + [last];
      ResultTurnsSnoc(added, last);
    } else {
      NoResults(messages, canonical, n);
    }
  }

  lemma NoResults(messages: seq<Message>, canonical: seq<Message>, n: nat)
    requires n == |canonical| <= |messages| && MaterializeFirst(messages, canonical, n).Ok?
    ensures MaterializeFirst(messages, canonical, n).value.messages[|canonical|..] == [] == ResultTurns(messages[|canonical|..n])
  {
    hide MaterializeOne;
  }

  /** Calls are found by ID among the parts of a committed reply as among the calls themselves. */
  lemma {:induction false} NameAmongParts(calls: seq<ToolCall>, id: Text)
    ensures CallName(CallParts(calls), id) == NameOfCall(calls, id)
  {
    if calls != [] {
      NameAmongParts(calls[1..], id);
      assert CallParts(calls)[0] == CallPart(calls[0]) && CallParts(calls)[1..] == CallParts(calls[1..]);
    }
  }

  lemma NameInReply(text: Text, calls: seq<ToolCall>, id: Text)
    ensures CallName(AssistantMessage(text, calls).content, id) == NameOfCall(calls, id)
  {
    hide CallParts;
    NameAmongParts(calls, id);
    var content := AssistantMessage(text, calls).content;
    if text != [] || calls == [] {
      assert content[0] == TextPart(text) && content[1..] == CallParts(calls);
    } else {
      EmptyUnits(CallParts(calls));
    }
  }

  /** The results that the continuation gets are those that the rendering names. */
  lemma {:induction false} ResolvedIsNamed(text: Text, calls: seq<ToolCall>, added: seq<Message>)
    requires forall k :: 0 <= k < |added| ==> HoldsResult(added[k])
    requires ResolveResults(AssistantMessage(text, calls).content, added).Ok?
    ensures ResolveResults(AssistantMessage(text, calls).content, added).value == Named(calls, ResultTurns(added))
    ensures Responses(calls, ResultTurns(added)).Ok?
  {
    hide AssistantMessage, CallName, NameOfCall, FormatToolResponse;
    if added != [] {
      ResolvedIsNamed(text, calls, added[1..]);
      NameInReply(text, calls, added[0].content[0].callId);
      assert ResultTurns(added)[1..] == ResultTurns(added[1..]);
    }
  }

  /** A call that answers the calls of the last reply, with results only. */
  ghost predicate ResultsRequest(s: Snapshot, q: Request) {
    && q.effort != Off && AnswersTools(q)
    && forall k :: |s.committed| <= k < |q.messages| ==> HoldsResult(q.messages[k])
  }

  /** The text that the continuation encodes. */
  function ResultsText(calls: seq<ToolCall>, s: Snapshot, q: Request): Text
    requires |s.committed| <= |q.messages| && forall k :: |s.committed| <= k < |q.messages| ==> HoldsResult(q.messages[k])
  {
    var text := ToolContinuation(Named(calls, ResultTurns(Added(s, q))), true);
    if text.Ok? then text.value else []
  }

  /** The prompt of a prepared call with tool results. */
  lemma ToolPromptOf(setup: Setup, s: Snapshot, q: Request)
    requires Inv(setup, s) && s.cachedPrefix != [] && Prepare(setup, s, q).Ok? && q.effort != Off && AnswersTools(q)
    ensures !s.poisoned && s.committed != [] && |s.committed| < |q.messages| && MaterializeSpec(q.messages, s.committed).Ok?
    ensures s.tools == q.tools && s.choice == q.choice
    ensures var results := ResolveResults(s.committed[|s.committed| - 1].content, Added(s, q));
            && results.Ok? && setup.p.continueTools(results.value, true).Ok?
            && Prepare(setup, s, q).value.prompt == Transcript(s) + setup.p.continueTools(results.value, true).value
  {
    hide MaterializeSpec, Locate, ReasoningFor, ResolveResults, OutputLimit, Extends, Transcript;
    RefusalExcludes(setup, s, q);
    LastOfCall(s, q);
  }

  lemma AddedAreResults(setup: Setup, s: Snapshot, q: Request)
    requires Inv(setup, s) && s.cachedPrefix != [] && Prepare(setup, s, q).Ok? && ResultsRequest(s, q)
    ensures |s.committed| < |q.messages| && MessagesOf(s, q) == Resident(s) + ResultTurns(Added(s, q))
  {
    hide Prepare, MaterializeFirst;
    ToolPromptOf(setup, s, q);
    MessagesExtend(setup, s, q);
    AddedResults(q.messages, s.committed, |q.messages|);
    assert q.messages[|s.committed|..|q.messages|] == Added(s, q);
  }

  /** What a prepared call with tool results adds to the resident tokens. */
  lemma PreparedResults(setup: Setup, s: Snapshot, q: Request, text: Text, calls: seq<ToolCall>)
    requires Inv(setup, s) && s.cachedPrefix != [] && Prepare(setup, s, q).Ok? && ResultsRequest(s, q)
    requires s.committed != [] && s.committed[|s.committed| - 1] == AssistantMessage(text, calls)
    ensures |s.committed| < |q.messages| && MaterializeSpec(q.messages, s.committed).Ok?
    ensures s.tools == q.tools && s.choice == q.choice
    ensures var results := ResultTurns(Added(s, q));
            && results != [] && Responses(calls, results).Ok?
            && MessagesOf(s, q) == Resident(s) + results
            && var next := setup.p.continueTools(Named(calls, results), true);
               next.Ok? && Prepare(setup, s, q).value.prompt == Transcript(s) + next.value
  {
    hide Prepare, ResolveResults, Named, AssistantMessage, Responses, Transcript, MessagesOf, Resident, MaterializeSpec;
    ToolPromptOf(setup, s, q);
    AddedAreResults(setup, s, q);
    ResolvedIsNamed(text, calls, Added(s, q));
  }

  /** Main result: behind a run of plain user turns whose replies were all kept, and one more turn
      that calls tools, the prompt with the results reads as a fresh rendering of all messages if and
      only if the reply shows no text and was generated as its calls are formatted. */
  lemma ToolPromptReadsAsFreshExactly(setup: Setup, tk: Tables, t: Template, calls: seq<Call>, c: Call, q: Request)
    requires Sound(setup, tk, t) && UserRun(setup, t, Opened(), calls) && AllKept(setup, t, Opened(), calls)
    requires var s := Run(setup, Opened(), calls); PlainRequest(t, s, c.q) && GenerateSpec(setup, s, c.q, c.o).1.Ok?
    requires var after := Run(setup, Opened(), calls + [c]);
             && Prepare(setup, after, q).Ok? && ResultsRequest(after, q)
             && (|after.committed| <= |q.messages| ==>
                   !Contains(ResultsText(GenerateSpec(setup, Run(setup, Opened(), calls), c.q, c.o).1.value.calls, after, q), MARKER))
    ensures var after, r := Run(setup, Opened(), calls + [c]), GenerateSpec(setup, Run(setup, Opened(), calls), c.q, c.o).1.value;
            DecodeSpec(tk, Prepare(setup, after, q).value.prompt, false)
            == RenderSpec(t, MessagesOf(after, q), true, true, Shown(q.tools, q.choice))
            <==> && AssistantContent(t, ChatMessage(Assistant, r.assistantText, r.calls, [], [])) == Ok([])
                 && Joined(t.formatCall, r.calls) == Ok(r.assistantContent)
  {
    hide Run, UserRun, AllKept, PlainRequest, Prepare, MessagesOf, DecodeSpec, RenderSpec, Sound, GenerateSpec, Transcript,
         AssistantMessage, ResultsRequest, AssistantContent, Joined, Contains, ResultsText, Resident;
    SoundParts(setup, tk, t);
    var s := Run(setup, Opened(), calls);
    RunConcat(setup, Opened(), calls, [c]);
    RunOfOne(setup, s, c);
    CallHolds(setup, tk, t, calls, c);
    var (after, r) := GenerateSpec(setup, s, c.q, c.o);
    StepKeepsInv(setup, s, c.q, c.o);
    StepIsTransactional(setup, s, c.q, c.o);
    ResultsReadExactly(setup, tk, t, after, q, MessagesOf(s, c.q), r.value.assistantText, r.value.calls, r.value.assistantContent);
  }

  /** The session after the call: its tokens read as a valid rendering and the generated text. */
  ghost predicate CallsHeld(
    tk: Tables, t: Template, s: Snapshot, front: seq<ChatMessage>, text: Text, calls: seq<ToolCall>, raw: Text)
    requires NonEmpty(t.markers)
  {
    && s.cachedPrefix != [] && s.committed != [] && s.committed[|s.committed| - 1] == AssistantMessage(text, calls)
    && Resident(s) == front + [ChatMessage(Assistant, text, calls, [], [])]
    && EndsWithUser(t, front, true, Shown(s.tools, s.choice))
    && DecodeSpec(tk, Transcript(s), false) == Ok(RenderSpec(t, front, true, true, Shown(s.tools, s.choice)).value + raw)
  }

  lemma CallHolds(setup: Setup, tk: Tables, t: Template, calls: seq<Call>, c: Call)
    requires Sound(setup, tk, t) && UserRun(setup, t, Opened(), calls) && AllKept(setup, t, Opened(), calls)
    requires var s := Run(setup, Opened(), calls); PlainRequest(t, s, c.q) && GenerateSpec(setup, s, c.q, c.o).1.Ok?
    ensures NonEmpty(t.markers)
    ensures var s := Run(setup, Opened(), calls);
            var (after, r) := GenerateSpec(setup, s, c.q, c.o);
            CallsHeld(tk, t, after, MessagesOf(s, c.q), r.value.assistantText, r.value.calls, r.value.assistantContent)
  {
    hide Run, UserRun, AllKept, PlainRequest, Prepare, MessagesOf, DecodeSpec, RenderSpec, Consistent, Accounted, GenerateSpec,
         Transcript, CS.ContentIds, AssistantMessage, Resident, MaterializeSpec, Contains;
    var s := Run(setup, Opened(), calls);
    var (after, r) := GenerateSpec(setup, s, c.q, c.o);
    OpenedIsAccounted(tk, t);
    RunAccounted(setup, tk, t, Opened(), calls, true);
    SuccessLeaves(setup, s, c.q, c.o);
    TranscriptGrows(setup, s, c.q, c.o);
    PromptAccounted(setup, tk, t, s, c.q, true);
    PreparedPrompt(setup, s, c.q);
    CommitAppends(s, c.q, after, r.value.assistantText, r.value.calls);
    DecodeConcat(tk, r.value.prompt, CS.ContentIds(setup.p.stops, r.value.inference.outputs), false);
    StepKeepsInv(setup, s, c.q, c.o);
    StepIsTransactional(setup, s, c.q, c.o);
  }

  lemma ResultsReadExactly(
    setup: Setup, tk: Tables, t: Template, s: Snapshot, q: Request, front: seq<ChatMessage>, text: Text, calls: seq<ToolCall>, raw: Text)
    requires Sound(setup, tk, t) && Inv(setup, s) && CallsHeld(tk, t, s, front, text, calls, raw)
    requires Prepare(setup, s, q).Ok? && ResultsRequest(s, q)
    requires |s.committed| <= |q.messages| ==> !Contains(ResultsText(calls, s, q), MARKER)
    ensures DecodeSpec(tk, Prepare(setup, s, q).value.prompt, false)
         == RenderSpec(t, MessagesOf(s, q), true, true, Shown(q.tools, q.choice))
       <==> && AssistantContent(t, ChatMessage(Assistant, text, calls, [], [])) == Ok([])
            && Joined(t.formatCall, calls) == Ok(raw)
  {
    hide Prepare, MessagesOf, DecodeSpec, EncodeSpec, RenderSpec, Consistent, Transcript, AssistantMessage, AssistantContent, Joined,
         Resident, MaterializeSpec, Contains, Responses, Named, EndsWithUser, ToolContinuation;
    PreparedResults(setup, s, q, text, calls);
    var results := ResultTurns(Added(s, q));
    var m := ChatMessage(Assistant, text, calls, [], []);
    ToolResultsRenderExactly(t, front, m, results, raw, Shown(q.tools, q.choice));
    var next := ToolContinuation(Named(calls, results), true).value;
    RoundTrip(tk, next);
    DecodeConcat(tk, Transcript(s), EncodeSpec(tk, next).value, false);
    Assoc(front, [m], results);
  }
}
