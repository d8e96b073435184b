/** The session's own prompts, read back as text, against a fresh rendering of the conversation. */
module SessionText {
  import opened Wrappers
  import opened Seqs
  import opened Text
  import opened Bpe
  import opened Tokenizer
  import opened TokenizerDecode
  import opened ResponseContent
  import opened ChatTemplate
  import opened ChatSession
  import opened ChatRuns
  import opened Media
  import RC = ResponseChannel
  import CS = ConversationSession

  // ---------------------------------------------------------------- the chat processor

  ghost function RenderedPrompt(
    tk: Tables, t: Template, messages: seq<ChatMessage>, thinking: bool, tools: seq<ToolDefinition>): Result<seq<Token>>
    requires AddedNonEmpty(tk.added) && NonEmpty(t.markers)
  {
    var text := RenderSpec(t, messages, thinking, true, tools);
    if text.Err? then Err(text.code) else EncodeSpec(tk, text.value)
  }

  ghost function ToolPrompt(tk: Tables, results: seq<ToolResult>, thinking: bool): Result<seq<Token>>
    requires AddedNonEmpty(tk.added)
  {
    var text := ToolContinuation(results, thinking);
    if text.Err? then Err(text.code) else EncodeSpec(tk, text.value)
  }

  /** `DecodeResponseText`: decoding, then extraction. */
  function ResponseText(tk: Tables, t: Template, ids: seq<Token>): Result<Text>
    requires NonEmpty(t.markers)
  {
    var text := DecodeSpec(tk, ids, false);
    if text.Err? then text else ExtractSpec(t.markers, text.value)
  }

  /** The session's processor renders and extracts with `t`, encodes and decodes with `tk`, and
      finds no calls in a text that holds no call. */
  ghost predicate Uses(p: Processor, tk: Tables, t: Template)
    requires AddedNonEmpty(tk.added) && NonEmpty(t.markers)
  {
    && (forall messages, thinking, tools :: p.encode(messages, thinking, tools) == RenderedPrompt(tk, t, messages, thinking, tools))
    && (forall user, thinking :: p.continueUser(user, thinking) == EncodeSpec(tk, Continuation(user, thinking)))
    && (forall results, thinking :: p.continueTools(results, thinking) == ToolPrompt(tk, results, thinking))
    && (forall ids, skip :: p.decode(ids, skip) == DecodeSpec(tk, ids, skip))
    && (forall ids :: p.decodeResponse(ids) == ResponseText(tk, t, ids))
    && (forall text :: !Contains(text, t.markers.toolCallStart) ==> p.parseCalls(text) == Ok([]))
  }

  ghost predicate Sound(setup: Setup, tk: Tables, t: Template) {
    && Consistent(tk) && AddedNonEmpty(tk.added) && NonEmpty(t.markers)
    && Uses(setup.p, tk, t)
  }

  lemma SoundParts(setup: Setup, tk: Tables, t: Template)
    requires Sound(setup, tk, t)
    ensures AddedNonEmpty(tk.added) && NonEmpty(t.markers)
  {
  }

  // ---------------------------------------------------------------- the conversation as messages

  function Shown(tools: seq<ToolDefinition>, choice: ToolChoice): seq<ToolDefinition> {
    if choice.mode != NoTools then tools else []
  }

  /** The messages the template gets for a call: the resident ones and those the call adds. */
  function MessagesOf(s: Snapshot, q: Request): seq<ChatMessage> {
    var m := MaterializeSpec(q.messages, s.committed);
    if m.Ok? then m.value.messages else []
  }

  /** The resident messages as the template would get them. */
  function Resident(s: Snapshot): seq<ChatMessage> {
    var m := MaterializeFirst(s.committed, s.committed, |s.committed|);
    if m.Ok? then m.value.messages else []
  }

  lemma {:induction false} SameMessages(a: seq<Message>, ca: seq<Message>, b: seq<Message>, cb: seq<Message>, n: nat)
    requires n <= |a| && n <= |b| && forall k :: 0 <= k < n ==> CanonicalAt(a, ca, k) == CanonicalAt(b, cb, k)
    ensures MaterializeFirst(a, ca, n) == MaterializeFirst(b, cb, n)
  {
    hide MaterializeOne;
    if n > 0 {
      SameMessages(a, ca, b, cb, n - 1);
    }
  }

  /** A user message becomes a user turn. */
  lemma {:induction false} UserParts(message: Message, n: nat)
    requires message.role == User && n <= |message.content| && AddParts(message, n).Ok?
    ensures AddParts(message, n).value.message == UserTurn(AddParts(message, n).value.message.content)
  {
    hide BlockString;
    if n > 0 {
      UserParts(message, n - 1);
    }
  }

  /** With one new user turn the call shows the resident messages and that turn. */
  lemma MessagesOfUserTurn(s: Snapshot, q: Request)
    requires MaterializeSpec(q.messages, s.committed).Ok? && |q.messages| == |s.committed| + 1
    requires q.messages[|s.committed|].role == User
    ensures MessagesOf(s, q) != []
    ensures var user := MessagesOf(s, q)[|s.committed|].content;
            MessagesOf(s, q) == Resident(s) + [UserTurn(user)]
    ensures |Resident(s)| == |s.committed|
  {
    hide AddParts;
    var n := |s.committed|;
    SameMessages(q.messages, s.committed, s.committed, s.committed, n);
    var message := q.messages[n];
    UserParts(message, |message.content|);
  }

  // ---------------------------------------------------------------- committed assistant messages

  lemma {:induction false} CallPartAt(calls: seq<ToolCall>, i: nat)
    requires i < |calls|
    ensures |CallParts(calls)| == |calls| && CallParts(calls)[i] == CallPart(calls[i])
  {
    CallPartsLength(calls);
    if i > 0 {
      CallPartAt(calls[1..], i - 1);
    }
  }

  lemma {:induction false} CallPartsLength(calls: seq<ToolCall>)
    ensures |CallParts(calls)| == |calls|
  {
    if calls != [] {
      CallPartsLength(calls[1..]);
    }
  }

  /** How many parts of a committed reply stand in front of its calls. */
  function Texts(text: Text, calls: seq<ToolCall>): nat {
    if text != [] || calls == [] then 1 else 0
  }

  lemma AssistantPartAt(text: Text, calls: seq<ToolCall>, i: nat)
    requires i < |AssistantMessage(text, calls).content|
    ensures |AssistantMessage(text, calls).content| == Texts(text, calls) + |calls|
    ensures AssistantMessage(text, calls).role == Assistant
    ensures AssistantMessage(text, calls).content[i]
         == if i < Texts(text, calls) then TextPart(text) else CallPart(calls[i - Texts(text, calls)])
  {
    hide CallParts;
    CallPartsLength(calls);
    if i >= Texts(text, calls) {
      CallPartAt(calls, i - Texts(text, calls));
    }
  }

  /** What the first `n` parts of a committed reply become. */
  function PartsDraft(text: Text, calls: seq<ToolCall>, n: nat): Draft
    requires n <= Texts(text, calls) + |calls|
  {
    var shown := if n > 0 then text else [];
    var named := if n <= Texts(text, calls) then [] else calls[..n - Texts(text, calls)];
    Draft(ChatMessage(Assistant, shown, named, [], []), [], [], [])
  }

  lemma TextIsAdded(message: Message, d: Draft, text: Text)
    ensures AddPart(message, d, TextPart(text)) == Ok(AppendText(d, text))
  {
  }

  lemma CallIsAdded(message: Message, d: Draft, call: ToolCall)
    requires message.role == Assistant
    ensures AddPart(message, d, CallPart(call)) == Ok(d.(message := d.message.(toolCalls := d.message.toolCalls + [call])))
  {
  }

  lemma NextPart(text: Text, calls: seq<ToolCall>, n: nat)
    requires 0 < n <= Texts(text, calls) + |calls|
    ensures var part := if n <= Texts(text, calls) then TextPart(text) else CallPart(calls[n - 1 - Texts(text, calls)]);
            AddPart(AssistantMessage(text, calls), PartsDraft(text, calls, n - 1), part) == Ok(PartsDraft(text, calls, n))
  {
    hide AddPart, CallParts;
    var k, message, d := Texts(text, calls), AssistantMessage(text, calls), PartsDraft(text, calls, n - 1);
    if n <= k {
      TextIsAdded(message, d, text);
      EmptyUnits(text);
    } else {
      CallIsAdded(message, d, calls[n - 1 - k]);
      assert calls[..n - k] == calls[..n - 1 - k] + [calls[n - 1 - k]];
    }
  }

  /** The first parts of a committed reply. */
  lemma {:induction false} AssistantParts(text: Text, calls: seq<ToolCall>, n: nat)
    requires n <= |AssistantMessage(text, calls).content|
    ensures |AssistantMessage(text, calls).content| == Texts(text, calls) + |calls|
    ensures AddParts(AssistantMessage(text, calls), n) == Ok(PartsDraft(text, calls, n))
  {
    hide AddPart, AssistantMessage, CallParts;
    if n == 0 {
      PartsCount(text, calls);
    } else {
      AssistantPartAt(text, calls, n - 1);
      AssistantParts(text, calls, n - 1);
      NextPart(text, calls, n);
    }
  }

  lemma PartsCount(text: Text, calls: seq<ToolCall>)
    ensures |AssistantMessage(text, calls).content| == Texts(text, calls) + |calls|
    ensures AssistantMessage(text, calls).role == Assistant
  {
    hide CallParts;
    CallPartsLength(calls);
  }

  /** What the template gets for a committed reply: its text and its calls. */
  lemma AssistantIsMaterialized(text: Text, calls: seq<ToolCall>)
    ensures MaterializeOne(AssistantMessage(text, calls)) == Ok(Draft(ChatMessage(Assistant, text, calls, [], []), [], [], []))
  {
    hide AddParts, CallParts;
    var n := |AssistantMessage(text, calls).content|;
    AssistantParts(text, calls, n);
    assert calls[..|calls|] == calls;
  }

  /** Committing a reply appends it to what the call showed. */
  lemma CommitAppends(s: Snapshot, q: Request, after: Snapshot, text: Text, calls: seq<ToolCall>)
    requires MaterializeSpec(q.messages, s.committed).Ok? && |s.committed| <= |q.messages|
    requires after.committed == s.committed + Added(s, q) + [AssistantMessage(text, calls)]
    ensures Resident(after) == MessagesOf(s, q) + [ChatMessage(Assistant, text, calls, [], [])]
  {
    hide MaterializeOne, AssistantMessage;
    var n := |q.messages|;
    forall k | 0 <= k < n
      ensures CanonicalAt(after.committed, after.committed, k) == CanonicalAt(q.messages, s.committed, k)
    {
    }
    SameMessages(after.committed, after.committed, q.messages, s.committed, n);
    AssistantIsMaterialized(text, calls);
  }

  // ---------------------------------------------------------------- what the resident tokens read as

  /** A user turn with thinking on, whose new text holds no U+2581. */
  ghost predicate PlainRequest(t: Template, s: Snapshot, q: Request)
    requires NonEmpty(t.markers)
  {
    var messages := MessagesOf(s, q);
    && q.effort != Off
    && (messages != [] ==>
          var last := messages[|messages| - 1];
          && last.role == User
          && (if s.cachedPrefix == [] then
                var text := RenderSpec(t, messages, true, true, Shown(q.tools, q.choice));
                text.Ok? ==> !Contains(text.value, MARKER)
              else !Contains(Continuation(last.content, true), MARKER)))
  }

  /** The resident messages are a conversation up to a user turn and a reply, and the resident tokens
      read as the text `shown` for the one and `raw` for the other. */
  ghost predicate Reads(tk: Tables, s: Snapshot, shown: Text, raw: Text) {
    var all := Resident(s);
    && |all| > 1
    && all[|all| - 1] == Reply(all[|all| - 1].content) && all[|all| - 2].role == User
    && DecodeSpec(tk, Transcript(s), false) == Ok(shown + raw)
  }

  /** A reply without calls whose committed text is rendered as what was generated. */
  ghost predicate Kept(t: Template, r: Response)
    requires NonEmpty(t.markers)
  {
    r.calls == [] && Inserts(t, r.assistantText, r.assistantContent)
  }

  /** A fresh rendering is never longer than what the tokens read as, and `kept` says that it is the
      same. */
  ghost predicate Within(tk: Tables, t: Template, s: Snapshot, shown: Text, raw: Text, kept: bool)
    requires NonEmpty(t.markers)
  {
    && Reads(tk, s, shown, raw)
    && var all := Resident(s);
       var front, last := all[..|all| - 1], all[|all| - 1];
       AtMost(t, front, last.content, shown, raw, Shown(s.tools, s.choice))
       && (kept <==> RenderSpec(t, front, true, true, Shown(s.tools, s.choice)) == Ok(shown) && Inserts(t, last.content, raw))
  }

  ghost predicate AtMost(t: Template, front: seq<ChatMessage>, reply: Text, shown: Text, raw: Text, tools: seq<ToolDefinition>)
    requires NonEmpty(t.markers)
  {
    var anew, content := RenderSpec(t, front, true, true, tools), AssistantContent(t, Reply(reply));
    (anew.Ok? ==> |anew.value| <= |shown|) && (content.Ok? ==> |content.value| <= |raw|)
  }

  /** What the calls so far left: a fresh session, or one whose tokens are accounted for. */
  ghost predicate Accounted(tk: Tables, t: Template, s: Snapshot, kept: bool)
    requires NonEmpty(t.markers)
  {
    !s.poisoned ==>
      if s.cachedPrefix == [] then kept else exists shown, raw :: Within(tk, t, s, shown, raw, kept)
  }

  lemma SplitEqual(a: Text, b: Text, x: Text, y: Text, c: Text)
    requires |a| <= |x| && |b| <= |y|
    ensures a + b + c == x + y + c <==> a == x && b == y
  {
    if a + b + c == x + y + c {
      assert |a| + |b| == |x| + |y|;
      assert (a + b + c)[..|a|] == a && (x + y + c)[..|x|] == x;
      assert (a + b + c)[|a|..|a| + |b|] == b && (x + y + c)[|x|..|x| + |y|] == y;
    }
  }

  /** With texts that are never longer anew, the longer conversation renders as it was generated
      exactly when both of its parts do. */
  lemma NextRendersExactly(
    t: Template, front: seq<ChatMessage>, reply: Text, shown: Text, raw: Text, user: Text, tools: seq<ToolDefinition>)
    requires NonEmpty(t.markers) && front != [] && front[|front| - 1].role == User && AtMost(t, front, reply, shown, raw, tools)
    ensures var anew := RenderSpec(t, front + [Reply(reply), UserTurn(user)], true, true, tools);
            var text := shown + raw + Continuation(user, true);
            && (anew == Ok(text) <==> RenderSpec(t, front, true, true, tools) == Ok(shown) && Inserts(t, reply, raw))
            && (anew.Ok? ==> |anew.value| <= |text|)
  {
    hide RenderSpec, AssistantContent, Continuation;
    var base, content := RenderSpec(t, front, true, true, tools), AssistantContent(t, Reply(reply));
    if base.Err? {
      FailureStays(t, front, [Reply(reply), UserTurn(user)], true, tools);
    } else if content.Ok? {
      ReplyRendersExactly(t, front, reply, content.value, user, tools);
      SplitEqual(base.value, content.value, shown, raw, Continuation(user, true));
    } else {
      UnextractedFails(t, front, reply, user, tools);
    }
  }

  lemma UnextractedFails(t: Template, front: seq<ChatMessage>, reply: Text, user: Text, tools: seq<ToolDefinition>)
    requires NonEmpty(t.markers) && EndsWithUser(t, front, true, tools) && AssistantContent(t, Reply(reply)).Err?
    ensures RenderSpec(t, front + [Reply(reply), UserTurn(user)], true, true, tools).Err?
  {
    hide RenderSpec, AssistantContent, Header, Turns, Conversation, Ascii, EndsWithUser;
    RenderedReply(t, front, reply, user, true, tools);
  }

  // ---------------------------------------------------------------- one call

  /** What a prepared user turn's prompt is made of. */
  lemma PreparedPrompt(setup: Setup, s: Snapshot, q: Request)
    requires Inv(setup, s) && Prepare(setup, s, q).Ok?
    ensures MessagesOf(s, q) != [] && !s.poisoned && MaterializeSpec(q.messages, s.committed).Ok?
    ensures |s.committed| < |q.messages|
    ensures s.cachedPrefix != [] ==> s.tools == q.tools && s.choice == q.choice
    ensures var messages := MessagesOf(s, q);
            var last := messages[|messages| - 1];
            var thinking := q.effort != Off;
            var added := if s.cachedPrefix == [] then setup.p.encode(messages, thinking, Shown(q.tools, q.choice))
                         else setup.p.continueUser(last.content, thinking);
            && last.role == q.messages[|q.messages| - 1].role
            && (last.role == User && s.cachedPrefix != [] ==> |q.messages| == |s.committed| + 1)
            && (last.role == User ==>
                  added.Ok? && Prepare(setup, s, q).value.prompt == (if s.cachedPrefix == [] then [] else Transcript(s)) + added.value)
  {
    hide MaterializeSpec, Locate, ReasoningFor, ResolveResults, OutputLimit, Extends;
    RefusalExcludes(setup, s, q);
    LastOfCall(s, q);
    var m := MaterializeSpec(q.messages, s.committed).value;
    var prompt := PromptFor(setup, s, q, m).value;
    EmptyUnits(prompt);
  }

  lemma LastOfCall(s: Snapshot, q: Request)
    requires |s.committed| < |q.messages|
    ensures var m := MaterializeSpec(q.messages, s.committed);
            m.Ok? ==> m.value.messages[|m.value.messages| - 1].role == q.messages[|q.messages| - 1].role
                      && |m.value.messages| == |q.messages|
  {
  }

  /** The first prompt reads as the rendering it encodes. */
  lemma FirstPromptReads(setup: Setup, tk: Tables, t: Template, s: Snapshot, q: Request)
    requires Sound(setup, tk, t) && Inv(setup, s) && s.cachedPrefix == []
    requires PlainRequest(t, s, q) && Prepare(setup, s, q).Ok?
    ensures EndsWithUser(t, MessagesOf(s, q), true, Shown(q.tools, q.choice))
    ensures DecodeSpec(tk, Prepare(setup, s, q).value.prompt, false)
         == RenderSpec(t, MessagesOf(s, q), true, true, Shown(q.tools, q.choice))
  {
    hide Prepare, DecodeSpec, EncodeSpec, RenderSpec, Continuation, Consistent, MessagesOf, ResponseText, Transcript, Contains;
    PreparedPrompt(setup, s, q);
    var text := RenderSpec(t, MessagesOf(s, q), true, true, Shown(q.tools, q.choice)).value;
    EmptyUnits(EncodeSpec(tk, text).value);
    RoundTrip(tk, text);
  }

  /** What a user turn's prompt reads as, against a fresh rendering of all messages. */
  lemma ContinuedPromptReads(setup: Setup, tk: Tables, t: Template, s: Snapshot, q: Request, shown: Text, raw: Text, kept: bool)
    requires Sound(setup, tk, t) && Inv(setup, s) && s.cachedPrefix != [] && Within(tk, t, s, shown, raw, kept)
    requires PlainRequest(t, s, q) && Prepare(setup, s, q).Ok?
    ensures MessagesOf(s, q) != [] && MessagesOf(s, q)[|MessagesOf(s, q)| - 1].role == User
    ensures PromptWithin(tk, t, s, q, Prepare(setup, s, q).value.prompt, kept)
  {
    hide Prepare, DecodeSpec, EncodeSpec, RenderSpec, Continuation, Consistent, MessagesOf, Resident, MaterializeSpec,
         ResponseText, Transcript, Contains, Inserts, AtMost;
    PreparedPrompt(setup, s, q);
    MessagesOfUserTurn(s, q);
    var all, messages := Resident(s), MessagesOf(s, q);
    var front, last := all[..|all| - 1], all[|all| - 1];
    var user := messages[|messages| - 1].content;
    var next := Continuation(user, true);
    RoundTrip(tk, next);
    DecodeConcat(tk, Transcript(s), EncodeSpec(tk, next).value, false);
    assert front[|front| - 1] == all[|all| - 2];
    NextRendersExactly(t, front, last.content, shown, raw, user, Shown(q.tools, q.choice));
    assert messages == front + [Reply(last.content), UserTurn(user)];
  }

  /** The prompt decodes, to no less than a fresh rendering, and to the same exactly when `kept`. */
  ghost predicate PromptWithin(tk: Tables, t: Template, s: Snapshot, q: Request, prompt: seq<Token>, kept: bool)
    requires NonEmpty(t.markers)
  {
    var read, anew := DecodeSpec(tk, prompt, false), RenderSpec(t, MessagesOf(s, q), true, true, Shown(q.tools, q.choice));
    && read.Ok? && (read == anew <==> kept) && (anew.Ok? ==> |anew.value| <= |read.value|)
  }

  /** One call: whatever was accounted for, the prompt is within a fresh rendering. */
  lemma PromptAccounted(setup: Setup, tk: Tables, t: Template, s: Snapshot, q: Request, kept: bool)
    requires Sound(setup, tk, t) && Inv(setup, s) && Accounted(tk, t, s, kept)
    requires PlainRequest(t, s, q) && Prepare(setup, s, q).Ok?
    ensures MessagesOf(s, q) != [] && MessagesOf(s, q)[|MessagesOf(s, q)| - 1].role == User
    ensures PromptWithin(tk, t, s, q, Prepare(setup, s, q).value.prompt, kept)
  {
    hide Prepare, DecodeSpec, RenderSpec, MessagesOf, Within, Consistent, Uses, Contains, Continuation;
    PreparedPrompt(setup, s, q);
    if s.cachedPrefix == [] {
      FirstPromptReads(setup, tk, t, s, q);
    } else {
      var shown, raw :| Within(tk, t, s, shown, raw, kept);
      ContinuedPromptReads(setup, tk, t, s, q, shown, raw, kept);
    }
  }

  /** What a successful call leaves. */
  lemma SuccessLeaves(setup: Setup, s: Snapshot, q: Request, o: CS.Oracle)
    requires Inv(setup, s) && GenerateSpec(setup, s, q, o).1.Ok?
    ensures var (after, r) := GenerateSpec(setup, s, q, o);
            && Prepare(setup, s, q).Ok? && |s.committed| <= |q.messages|
            && after.tools == q.tools && after.choice == q.choice
            && after.committed == s.committed + Added(s, q) + [AssistantMessage(r.value.assistantText, r.value.calls)]
            && Ok(r.value.assistantContent) == setup.p.decode(CS.ContentIds(setup.p.stops, r.value.inference.outputs), false)
  {
    hide Prepare, CS.GenerateSpec, CS.ContentIds;
    if Prepare(setup, s, q).Ok? {
      PrepareExcludes(setup, s, q);
    }
  }

  // ---------------------------------------------------------------- a reply is no longer than what was generated

  /** What is shown of a stream is no longer than the stream. */
  lemma {:induction false} ChannelShortens(tk: Tables, c: RC.Controls, s0: RC.State, ts: seq<Token>, n: nat, channel: RC.Channel)
    requires RC.InBounds(c, s0) && n <= |ts| && DecodeSpec(tk, ts[..n], false).Ok?
    ensures var part := DecodeSpec(tk, RC.OnChannel(c, s0, ts, n, channel), false);
            part.Ok? && |part.value| <= |DecodeSpec(tk, ts[..n], false).value|
  {
    hide RC.Label, DecodeSpec;
    DecodeNothing(tk);
    if n > 0 {
      var front := RC.OnChannel(c, s0, ts, n - 1, channel);
      assert ts[..n] == ts[..n - 1] + [ts[n - 1]];
      DecodeConcat(tk, ts[..n - 1], [ts[n - 1]], false);
      ChannelShortens(tk, c, s0, ts, n - 1, channel);
      DecodeConcat(tk, front, [ts[n - 1]], false);
      EmptyUnits(front);
    }
  }

  lemma DecodeNothing(tk: Tables)
    ensures DecodeSpec(tk, [], false) == Ok([])
  {
  }

  /** Rendering a committed reply never inserts more than was generated. */
  lemma ReplyShortens(setup: Setup, tk: Tables, t: Template, q: Request, job: Job, inference: CS.Inference)
    requires Sound(setup, tk, t) && Respond(setup, q, job, inference).Ok?
    ensures var r := Respond(setup, q, job, inference).value;
            var content := AssistantContent(t, Reply(r.assistantText));
            content.Ok? ==> |content.value| <= |r.assistantContent|
  {
    hide DecodeSpec, ExtractSpec, EncodeSpec, RenderSpec, Consistent, Contains, CS.ContentIds, RC.OnChannel;
    var r := Respond(setup, q, job, inference).value;
    var content := CS.ContentIds(setup.p.stops, inference.outputs);
    assert content[..|content|] == content;
    ChannelShortens(tk, setup.p.controls, RC.Start(job.toolResults), content, |content|, RC.Visible);
    var visible := RC.Extract(setup.p.controls, job.toolResults, content, RC.Visible);
    ExtractShortens(t.markers, DecodeSpec(tk, visible, false).value);
    ExtractShortens(t.markers, r.assistantText);
  }

  /** After a successful plain call without tool calls the tokens are accounted for again. */
  lemma SuccessAccounted(setup: Setup, tk: Tables, t: Template, s: Snapshot, c: Call, kept: bool)
    requires Sound(setup, tk, t) && Inv(setup, s) && Accounted(tk, t, s, kept) && PlainRequest(t, s, c.q)
    requires var r := GenerateSpec(setup, s, c.q, c.o).1; r.Ok? && r.value.calls == []
    ensures var (after, r) := GenerateSpec(setup, s, c.q, c.o);
            Accounted(tk, t, after, kept && Kept(t, r.value))
  {
    hide GenerateSpec, Prepare, DecodeSpec, RenderSpec, MessagesOf, Resident, Transcript, CS.ContentIds, PlainRequest,
         Accounted, Consistent, Contains, ResponseText, MaterializeSpec, AssistantContent, AssistantMessage;
    var (after, r) := GenerateSpec(setup, s, c.q, c.o);
    SuccessLeaves(setup, s, c.q, c.o);
    TranscriptGrows(setup, s, c.q, c.o);
    PromptAccounted(setup, tk, t, s, c.q, kept);
    PreparedPrompt(setup, s, c.q);
    CommitAppends(s, c.q, after, r.value.assistantText, []);
    DecodeConcat(tk, r.value.prompt, CS.ContentIds(setup.p.stops, r.value.inference.outputs), false);
    SuccessShortens(setup, tk, t, s, c);
    StepKeepsInv(setup, s, c.q, c.o);
    StepIsTransactional(setup, s, c.q, c.o);
    var front := MessagesOf(s, c.q);
    var all := front + [Reply(r.value.assistantText)];
    assert all[..|all| - 1] == front && all[|all| - 2] == front[|front| - 1];
    WithinIsAccounted(tk, t, after, DecodeSpec(tk, r.value.prompt, false).value, r.value.assistantContent, kept && Kept(t, r.value));
  }

  lemma SuccessShortens(setup: Setup, tk: Tables, t: Template, s: Snapshot, c: Call)
    requires Sound(setup, tk, t) && Inv(setup, s) && GenerateSpec(setup, s, c.q, c.o).1.Ok?
    ensures var r := GenerateSpec(setup, s, c.q, c.o).1.value;
            var content := AssistantContent(t, Reply(r.assistantText));
            content.Ok? ==> |content.value| <= |r.assistantContent|
  {
    hide Prepare, CS.GenerateSpec, Respond, Sound, AssistantContent;
    SoundParts(setup, tk, t);
    PrepareExcludes(setup, s, c.q);
    var job := Prepare(setup, s, c.q).value;
    ReplyShortens(setup, tk, t, c.q, job, BackendOf(setup, s, job, c.o).1.value);
  }

  lemma WithinIsAccounted(tk: Tables, t: Template, s: Snapshot, shown: Text, raw: Text, kept: bool)
    requires NonEmpty(t.markers) && s.cachedPrefix != [] && Within(tk, t, s, shown, raw, kept)
    ensures Accounted(tk, t, s, kept)
  {
    hide Within;
  }

  // ---------------------------------------------------------------- which replies are kept

  lemma {:induction false} AllVisible(c: RC.Controls, ts: seq<Token>, n: nat)
    requires n <= |ts| && forall i :: 0 <= i < n ==> RC.Label(c, RC.Start(false), ts, i) == RC.Visible
    ensures RC.OnChannel(c, RC.Start(false), ts, n, RC.Visible) == ts[..n]
  {
    hide RC.Label;
    if n > 0 {
      AllVisible(c, ts, n - 1);
      assert ts[..n] == ts[..n - 1] + [ts[n - 1]];
    }
  }

  /** A reply is kept when the tracker finds all its tokens visible and extraction leaves its text
      alone. */
  lemma VisibleReplyIsKept(setup: Setup, tk: Tables, t: Template, s: Snapshot, q: Request, o: CS.Oracle)
    requires Sound(setup, tk, t) && Inv(setup, s)
    requires GenerateSpec(setup, s, q, o).1.Ok? && !Prepare(setup, s, q).value.toolResults
    requires var content := CS.ContentIds(setup.p.stops, GenerateSpec(setup, s, q, o).1.value.inference.outputs);
             forall i :: 0 <= i < |content| ==> RC.Label(setup.p.controls, RC.Start(false), content, i) == RC.Visible
    requires var text := GenerateSpec(setup, s, q, o).1.value.assistantContent; ExtractSpec(t.markers, text) == Ok(text)
    ensures Kept(t, GenerateSpec(setup, s, q, o).1.value)
  {
    hide Prepare, CS.GenerateSpec, CS.ContentIds, RC.Label, RC.OnChannel, DecodeSpec, ExtractSpec, Contains, Consistent, EncodeSpec, RenderSpec;
    var r := GenerateSpec(setup, s, q, o).1.value;
    var content := CS.ContentIds(setup.p.stops, r.inference.outputs);
    PrepareExcludes(setup, s, q);
    AllVisible(setup.p.controls, content, |content|);
    assert content[..|content|] == content;
    ExtractFixesExactly(t.markers, r.assistantContent);
    ReplyIsInserted(t, r.assistantContent);
  }

  // ---------------------------------------------------------------- whole runs

  /** Every call of the run is a plain user turn, and no reply calls a tool. */
  ghost predicate UserRun(setup: Setup, t: Template, s: Snapshot, calls: seq<Call>)
    requires Inv(setup, s) && NonEmpty(t.markers)
    decreases |calls|
  {
    calls != [] ==>
      var (after, r) := GenerateSpec(setup, s, calls[0].q, calls[0].o);
      && PlainRequest(t, s, calls[0].q) && (r.Ok? ==> r.value.calls == [])
      && (StepKeepsInv(setup, s, calls[0].q, calls[0].o);
          UserRun(setup, t, after, calls[1..]))
  }

  /** Every reply of the run was kept. */
  ghost predicate AllKept(setup: Setup, t: Template, s: Snapshot, calls: seq<Call>)
    requires Inv(setup, s) && NonEmpty(t.markers)
    decreases |calls|
  {
    calls != [] ==>
      var (after, r) := GenerateSpec(setup, s, calls[0].q, calls[0].o);
      && (r.Ok? ==> Kept(t, r.value))
      && (StepKeepsInv(setup, s, calls[0].q, calls[0].o);
          AllKept(setup, t, after, calls[1..]))
  }

  lemma StepAccounted(setup: Setup, tk: Tables, t: Template, s: Snapshot, c: Call, kept: bool)
    requires Sound(setup, tk, t) && Inv(setup, s) && Accounted(tk, t, s, kept) && PlainRequest(t, s, c.q)
    requires GenerateSpec(setup, s, c.q, c.o).1.Ok? ==> GenerateSpec(setup, s, c.q, c.o).1.value.calls == []
    ensures var (after, r) := GenerateSpec(setup, s, c.q, c.o);
            Accounted(tk, t, after, kept && (r.Ok? ==> Kept(t, r.value)))
  {
    hide GenerateSpec, Within, PlainRequest, Kept, Sound;
    SoundParts(setup, tk, t);
    StepIsTransactional(setup, s, c.q, c.o);
    if GenerateSpec(setup, s, c.q, c.o).1.Ok? {
      SuccessAccounted(setup, tk, t, s, c, kept);
    }
  }

  lemma {:induction false} RunAccounted(setup: Setup, tk: Tables, t: Template, s: Snapshot, calls: seq<Call>, kept: bool)
    requires Sound(setup, tk, t) && Inv(setup, s) && Accounted(tk, t, s, kept) && UserRun(setup, t, s, calls)
    ensures Accounted(tk, t, Run(setup, s, calls), kept && AllKept(setup, t, s, calls))
    decreases |calls|
  {
    hide GenerateSpec, Accounted, PlainRequest, Kept, Sound;
    if calls != [] {
      var c := calls[0];
      var (after, r) := GenerateSpec(setup, s, c.q, c.o);
      StepKeepsInv(setup, s, c.q, c.o);
      SoundParts(setup, tk, t);
      StepAccounted(setup, tk, t, s, c, kept);
      RunAccounted(setup, tk, t, after, calls[1..], kept && (r.Ok? ==> Kept(t, r.value)));
    }
  }

  lemma OpenedIsAccounted(tk: Tables, t: Template)
    requires NonEmpty(t.markers)
    ensures Accounted(tk, t, Opened(), true)
  {
  }

  /** Main result: at any point of any run of plain user turns from a fresh session, with calls
      failing or succeeding, the prompt of the next call, built by appending tokens only, reads as the
      text of rendering from scratch the messages the session holds and the call adds, if and only if
      every reply so far was kept. */
  lemma EveryPromptReadsAsFreshExactly(setup: Setup, tk: Tables, t: Template, calls: seq<Call>, q: Request)
    requires Sound(setup, tk, t) && UserRun(setup, t, Opened(), calls)
    requires var s := Run(setup, Opened(), calls);
             PlainRequest(t, s, q) && Prepare(setup, s, q).Ok?
    ensures var s := Run(setup, Opened(), calls);
            DecodeSpec(tk, Prepare(setup, s, q).value.prompt, false)
            == RenderSpec(t, MessagesOf(s, q), true, true, Shown(q.tools, q.choice))
            <==> AllKept(setup, t, Opened(), calls)
  {
    hide Run, UserRun, AllKept, PlainRequest, Prepare, MessagesOf, DecodeSpec, RenderSpec, Consistent, Accounted;
    OpenedIsAccounted(tk, t);
    RunAccounted(setup, tk, t, Opened(), calls, true);
    PromptAccounted(setup, tk, t, Run(setup, Opened(), calls), q, AllKept(setup, t, Opened(), calls));
  }

  lemma RunOfOne(setup: Setup, s: Snapshot, c: Call)
    requires Inv(setup, s)
    ensures Run(setup, s, [c]) == GenerateSpec(setup, s, c.q, c.o).0
  {
    hide GenerateSpec;
    StepKeepsInv(setup, s, c.q, c.o);
    assert [c][1..] == [];
  }
}
