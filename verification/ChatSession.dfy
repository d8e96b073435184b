/** The resident chat session: which requests extend the conversation, what prompt they become,
    and how the committed state moves. */
module ChatSession {
  import opened Wrappers
  import opened Seqs
  import opened Text
  import opened Utf8
  import opened Bpe
  import opened Tokenizer
  import opened ResponseContent
  import opened ChatTemplate
  import opened Media
  import RC = ResponseChannel
  import CS = ConversationSession

  // ---------------------------------------------------------------- requests

  datatype ProcessedImage = ProcessedImage(patchCount: nat, patches: seq<real>, positions: seq<int>, sourceFingerprint: nat)

  /** One audio sample: a finite value, or none for a NaN or an infinity. */
  type Sample = Option<real>

  datatype Part =
    | TextPart(text: Text)
    | AudioPart(sampleRate: nat, samples: seq<Sample>)
    | ImagePart(image: ProcessedImage)
    | CallPart(call: ToolCall)
    | ResultPart(callId: Text, output: Text)

  datatype Message = Message(role: Role, content: seq<Part>)

  datatype Effort = Off | Small | Medium | High

  datatype ChoiceMode = Auto | NoTools | Required | Function
  datatype ToolChoice = ToolChoice(mode: ChoiceMode, functionName: Text)

  datatype Request = Request(
    messages: seq<Message>, maxGenerated: Option<nat>, effort: Effort,
    tools: seq<ToolDefinition>, choice: ToolChoice, parallel: bool)

  function ThinkingBudgetTokens(effort: Effort): nat {
    match effort
    case Off => 0
    case Small => 1024
    case Medium => 4096
    case High => 8192
  }

  /** Rendering, tokenising, decoding and tool-call parsing, as any functions. */
  datatype Processor = Processor(
    encode: (seq<ChatMessage>, bool, seq<ToolDefinition>) -> Result<seq<Token>>,
    continueUser: (Text, bool) -> Result<seq<Token>>,
    continueTools: (seq<ToolResult>, bool) -> Result<seq<Token>>,
    decode: (seq<Token>, bool) -> Result<Text>,
    decodeResponse: seq<Token> -> Result<Text>,
    parseCalls: Text -> Result<seq<ToolCall>>,
    admitsCalls: (seq<ToolDefinition>, ToolChoice, seq<ToolCall>) -> bool,
    admitsTools: seq<ToolDefinition> -> bool,
    controls: RC.Controls,
    stops: seq<Token>)

  // ---------------------------------------------------------------- materialisation

  const AUDIO_BLOCK: BlockText := BlockText(
    AddedToken(Ascii("<|audio>"), 256000), AddedToken(Ascii("<|audio|>"), 258881), AddedToken(Ascii("<audio|>"), 258883))
  const IMAGE_BLOCK: BlockText := BlockText(
    AddedToken(Ascii("<|image>"), 255999), AddedToken(Ascii("<|image|>"), 258880), AddedToken(Ascii("<image|>"), 258882))

  const SAMPLES_PER_TOKEN: nat := 640
  const MAXIMUM_AUDIO_TOKENS: nat := 750
  const MAXIMUM_PATCHES: nat := 280

  /** Messages as the template wants them, and the media they hold, as placeholder counts. */
  datatype Materialized = Materialized(messages: seq<ChatMessage>, audio: seq<nat>, images: seq<nat>, positions: seq<seq<int>>)

  /** One message under construction. */
  datatype Draft = Draft(message: ChatMessage, audio: seq<nat>, images: seq<nat>, positions: seq<seq<int>>)

  function AppendText(d: Draft, text: Text): Draft {
    d.(message := d.message.(content := d.message.content + text))
  }

  function AudioFrames(samples: nat): nat {
    (samples + SAMPLES_PER_TOKEN - 1) / SAMPLES_PER_TOKEN
  }

  predicate UsableImage(image: ProcessedImage) {
    && 0 < image.patchCount <= MAXIMUM_PATCHES
    && |image.patches| == image.patchCount * 6912 && |image.positions| == image.patchCount * 2
  }

  /** The body of the part loop of `MaterializeContent`. */
  function AddPart(message: Message, d: Draft, part: Part): (r: Result<Draft>)
    ensures r.Ok? ==> r.value.message.role == d.message.role
  {
    match part
    case TextPart(text) => Ok(AppendText(d, text))
    case CallPart(call) =>
      if message.role != Assistant then Err(InvalidArgument)
      else Ok(d.(message := d.message.(toolCalls := d.message.toolCalls + [call])))
    case ResultPart(callId, output) =>
      if message.role != Tool || |message.content| != 1 then Err(InvalidArgument)
      else Ok(AppendText(d.(message := d.message.(toolCallId := callId)), output))
    case ImagePart(image) =>
      if message.role != User || !UsableImage(image) then Err(InvalidArgument)
      else Ok(AppendText(d, BlockString(IMAGE_BLOCK, image.patchCount)).(
             images := d.images + [image.patchCount], positions := d.positions + [image.positions]))
    case AudioPart(sampleRate, samples) =>
      if message.role != User || sampleRate != 16000 || samples == [] then Err(InvalidArgument)
      else if exists k :: 0 <= k < |samples| && samples[k].None? then Err(InvalidArgument)
      else if AudioFrames(|samples|) > MAXIMUM_AUDIO_TOKENS then Err(Unsupported)
      else Ok(AppendText(d, BlockString(AUDIO_BLOCK, AudioFrames(|samples|))).(audio := d.audio + [AudioFrames(|samples|)]))
  }

  function EmptyDraft(role: Role): Draft {
    Draft(ChatMessage(role, [], [], [], []), [], [], [])
  }

  function AddParts(message: Message, n: nat): (r: Result<Draft>)
    requires n <= |message.content|
    ensures r.Ok? ==> r.value.message.role == message.role
  {
    if n == 0 then Ok(EmptyDraft(message.role))
    else
      var d := AddParts(message, n - 1);
      if d.Err? then d else AddPart(message, d.value, message.content[n - 1])
  }

  /** `MaterializeContent`. */
  function MaterializeOne(message: Message): (r: Result<Draft>)
    ensures r.Ok? ==> r.value.message.role == message.role
  {
    if message.content == [] then Err(InvalidArgument) else AddParts(message, |message.content|)
  }

  method MaterializeContent(message: Message) returns (r: Result<Draft>)
    ensures r == MaterializeOne(message)
  {
    if message.content == [] {
      return Err(InvalidArgument);
    }
    var draft := EmptyDraft(message.role);
    for k := 0 to |message.content|
      invariant AddParts(message, k) == Ok(draft)
    {
      var next := AddPart(message, draft, message.content[k]);
      if next.Err? {
        ErrorStays(message, k + 1, |message.content|);
        return next;
      }
      draft := next.value;
    }
    return Ok(draft);
  }

  lemma {:induction false} ErrorStays(message: Message, k: nat, n: nat)
    requires k <= n <= |message.content| && AddParts(message, k).Err?
    ensures AddParts(message, n) == AddParts(message, k)
  {
    if k < n {
      ErrorStays(message, k, n - 1);
    }
  }

  /** The message actually materialised at `k`: the resident one where there is one. */
  function CanonicalAt(messages: seq<Message>, canonical: seq<Message>, k: nat): Message
    requires k < |messages|
  {
    if k < |canonical| then canonical[k] else messages[k]
  }

  function MaterializeFirst(messages: seq<Message>, canonical: seq<Message>, n: nat): (r: Result<Materialized>)
    requires n <= |messages|
    ensures r.Ok? ==> |r.value.messages| == n
    ensures r.Ok? ==> forall k :: 0 <= k < n ==> r.value.messages[k].role == CanonicalAt(messages, canonical, k).role
  {
    if n == 0 then Ok(Materialized([], [], [], []))
    else
      var before := MaterializeFirst(messages, canonical, n - 1);
      if before.Err? then before
      else
        var d := MaterializeOne(CanonicalAt(messages, canonical, n - 1));
        if d.Err? then Err(d.code)
        else
          var m := before.value;
          Ok(Materialized(m.messages + [d.value.message], m.audio + d.value.audio, m.images + d.value.images,
                          m.positions + d.value.positions))
  }

  function MaterializeSpec(messages: seq<Message>, canonical: seq<Message>): (r: Result<Materialized>)
    ensures r.Ok? ==> messages != [] && |r.value.messages| == |messages|
    ensures r.Ok? ==> forall k :: 0 <= k < |messages| ==> r.value.messages[k].role == CanonicalAt(messages, canonical, k).role
  {
    if messages == [] then Err(InvalidArgument) else MaterializeFirst(messages, canonical, |messages|)
  }

  method MaterializeMessages(messages: seq<Message>, canonical: seq<Message>) returns (r: Result<Materialized>)
    ensures r == MaterializeSpec(messages, canonical)
  {
    if messages == [] {
      return Err(InvalidArgument);
    }
    var m := Materialized([], [], [], []);
    for k := 0 to |messages|
      invariant MaterializeFirst(messages, canonical, k) == Ok(m)
    {
      var d := MaterializeContent(CanonicalAt(messages, canonical, k));
      if d.Err? {
        MaterializeErrorStays(messages, canonical, k + 1, |messages|);
        return Err(d.code);
      }
      m := Materialized(m.messages + [d.value.message], m.audio + d.value.audio, m.images + d.value.images,
                        m.positions + d.value.positions);
    }
    return Ok(m);
  }

  lemma {:induction false} MaterializeErrorStays(messages: seq<Message>, canonical: seq<Message>, k: nat, n: nat)
    requires k <= n <= |messages| && MaterializeFirst(messages, canonical, k).Err?
    ensures MaterializeFirst(messages, canonical, n) == MaterializeFirst(messages, canonical, k)
  {
    if k < n {
      MaterializeErrorStays(messages, canonical, k, n - 1);
    }
  }

  // ---------------------------------------------------------------- equivalence with the resident messages

  predicate PartEquivalent(role: Role, left: Part, right: Part) {
    match (left, right)
    case (ImagePart(a), ImagePart(b)) =>
      if a.sourceFingerprint != 0 && b.sourceFingerprint != 0 then a.sourceFingerprint == b.sourceFingerprint else a == b
    case (TextPart(a), TextPart(b)) => if role == Assistant then TrimSpec(a) == TrimSpec(b) else a == b
    case _ => left == right
  }

  predicate MessageEquivalent(cached: Message, supplied: Message) {
    && cached.role == supplied.role && |cached.content| == |supplied.content|
    && forall k :: 0 <= k < |cached.content| ==> PartEquivalent(cached.role, cached.content[k], supplied.content[k])
  }

  /** `ResidentMessageEquivalent`. */
  method ResidentMessageEquivalent(cached: Message, supplied: Message) returns (r: bool)
    ensures r == MessageEquivalent(cached, supplied)
  {
    if cached.role != supplied.role || |cached.content| != |supplied.content| {
      return false;
    }
    for k := 0 to |cached.content|
      invariant forall i :: 0 <= i < k ==> PartEquivalent(cached.role, cached.content[i], supplied.content[i])
    {
      if !PartEquivalent(cached.role, cached.content[k], supplied.content[k]) {
        return false;
      }
    }
    return true;
  }

  // ---------------------------------------------------------------- the session as a value

  datatype Setup = Setup(p: Processor, maxContext: nat)

  datatype Snapshot = Snapshot(
    committed: seq<Message>, tools: seq<ToolDefinition>, choice: ToolChoice,
    cachedPrefix: seq<Token>, pending: Option<Token>, poisoned: bool, cache: CS.Cache)

  datatype FinishReason = FinishToolCalls | FinishStop | FinishLength

  datatype Response = Response(
    assistantContent: Text, assistantText: Text, reasoningText: Text, calls: seq<ToolCall>,
    prompt: seq<Token>, reason: FinishReason, inference: CS.Inference)

  const NO_CHOICE: ToolChoice := ToolChoice(Auto, [])

  function Opened(): Snapshot {
    Snapshot([], [], NO_CHOICE, [], None, false, CS.Cache([], false))
  }

  // ---------------------------------------------------------------- admission

  predicate Extends(committed: seq<Message>, messages: seq<Message>) {
    && |messages| > |committed|
    && forall k :: 0 <= k < |committed| ==> MessageEquivalent(committed[k], messages[k])
  }

  predicate AddsOneUserTurn(committed: seq<Message>, messages: seq<Message>) {
    |messages| == |committed| + 1 && messages[|committed|].role == User
  }

  predicate AddsToolResults(committed: seq<Message>, messages: seq<Message>) {
    forall k :: |committed| <= k < |messages| ==> messages[k].role == Tool
  }

  /** The checks before anything is materialised, in their order. */
  function Refusal(setup: Setup, s: Snapshot, q: Request): Option<StatusCode> {
    if s.poisoned || s.cache.poisoned then Some(Internal)
    else if q.maxGenerated == Some(0) then Some(InvalidArgument)
    else if q.choice.mode != Auto && q.choice.mode != NoTools then Some(Unsupported)
    else if !q.parallel then Some(Unsupported)
    else if !setup.p.admitsTools(q.tools) then Some(InvalidArgument)
    else if q.messages == [] then Some(InvalidArgument)
    else if q.messages[|q.messages| - 1].role != User && q.messages[|q.messages| - 1].role != Tool then Some(InvalidArgument)
    else if s.committed == [] then None
    else if !Extends(s.committed, q.messages) then Some(InvalidArgument)
    else if !AddsOneUserTurn(s.committed, q.messages) && !AddsToolResults(s.committed, q.messages) then Some(InvalidArgument)
    else if q.tools != s.tools then Some(InvalidArgument)
    else if q.choice != s.choice then Some(InvalidArgument)
    else None
  }

  // ---------------------------------------------------------------- the prompt

  /** The call ID and output a tool message is read for; other parts read as empty. */
  function ResultOf(message: Message): (Text, Text) {
    if message.content != [] && message.content[0].ResultPart? then (message.content[0].callId, message.content[0].output)
    else ([], [])
  }

  function CallName(parts: seq<Part>, id: Text): Text {
    if parts == [] then []
    else if parts[0].CallPart? && parts[0].call.id == id then parts[0].call.name
    else CallName(parts[1..], id)
  }

  /** The added tool results with the names of the resident assistant's calls. */
  function ResolveResults(calls: seq<Part>, added: seq<Message>): Result<seq<ToolResult>> {
    if added == [] then Ok([])
    else
      var (id, output) := ResultOf(added[0]);
      var name := CallName(calls, id);
      if name == [] then Err(InvalidArgument)
      else Prepend([ToolResult(name, output)], ResolveResults(calls, added[1..]))
  }

  function PendingTokens(pending: Option<Token>): seq<Token> {
    if pending.Some? then [pending.value] else []
  }

  /** What the resident tokens are: the cached prefix and the token not yet processed. */
  function Transcript(s: Snapshot): seq<Token> {
    s.cachedPrefix + PendingTokens(s.pending)
  }

  function Added(s: Snapshot, q: Request): seq<Message>
    requires |s.committed| <= |q.messages|
  {
    q.messages[|s.committed|..]
  }

  function PromptFor(setup: Setup, s: Snapshot, q: Request, m: Materialized): Result<seq<Token>>
    requires m.messages != [] && |s.committed| <= |q.messages|
    requires s.cachedPrefix != [] ==> s.committed != []
  {
    var thinking := q.effort != Off;
    var last := m.messages[|m.messages| - 1];
    if s.cachedPrefix == [] then
      setup.p.encode(m.messages, thinking, if q.choice.mode != NoTools then q.tools else [])
    else if last.role == Tool then
      var results := ResolveResults(s.committed[|s.committed| - 1].content, Added(s, q));
      if results.Err? then Err(results.code)
      else Prepend(Transcript(s), setup.p.continueTools(results.value, thinking))
    else Prepend(Transcript(s), setup.p.continueUser(last.content, thinking))
  }

  // ---------------------------------------------------------------- limits

  /** How many tokens may be generated, if the prompt fits and the request asks for no more. */
  function OutputLimit(setup: Setup, q: Request, prompt: seq<Token>): Result<nat> {
    if |prompt| > setup.maxContext then Err(InvalidArgument)
    else
      var remaining := setup.maxContext - |prompt| + 1;
      var limit := if q.maxGenerated.Some? then q.maxGenerated.value else remaining;
      if limit > remaining then Err(InvalidArgument) else Ok(limit)
  }

  function ReasoningFor(c: RC.Controls, q: Request, toolResults: bool, limit: nat): CS.ReasoningOptions {
    if q.effort != Off || toolResults then
      var reserve := if limit > 128 then 128 else limit / 2;
      var requested := if q.effort == Off then 1 else ThinkingBudgetTokens(q.effort);
      var available := if limit - reserve > 1 then limit - reserve else 1;
      CS.ReasoningOptions(true, c, if requested < available then requested else available, toolResults)
    else CS.ReasoningOptions(false, RC.Controls([], 0), 0, false)
  }

  // ---------------------------------------------------------------- one call

  /** What the session hands to the backend. */
  datatype Job = Job(
    prompt: seq<Token>, limit: nat, reasoning: CS.ReasoningOptions, audio: CS.Placement, vision: CS.Placement,
    toolResults: bool)

  predicate Usable(s: Snapshot) {
    s.cachedPrefix != [] ==> s.committed != []
  }

  function Prepare(setup: Setup, s: Snapshot, q: Request): Result<Job>
    requires !s.poisoned ==> Usable(s)
  {
    var refusal := Refusal(setup, s, q);
    if refusal.Some? then Err(refusal.value)
    else
      var materialized := MaterializeSpec(q.messages, s.committed);
      if materialized.Err? then Err(materialized.code)
      else
        var m := materialized.value;
        var toolResults := m.messages[|m.messages| - 1].role == Tool;
        var prompt := PromptFor(setup, s, q, m);
        if prompt.Err? then Err(prompt.code)
        else
          var audio := Locate(prompt.value, MarksOf(Audio), m.audio, 0);
          if audio.Err? then Err(audio.code)
          else
            var vision := Locate(prompt.value, MarksOf(Image), m.images, 0);
            if vision.Err? then Err(vision.code)
            else
              var limit := OutputLimit(setup, q, prompt.value);
              if limit.Err? then Err(limit.code)
              else Ok(Job(prompt.value, limit.value, ReasoningFor(setup.p.controls, q, toolResults, limit.value),
                          CS.Placement(audio.value, m.audio, []), CS.Placement(vision.value, m.images, m.positions),
                    toolResults))
  }

  function AssistantMessage(text: Text, calls: seq<ToolCall>): Message {
    Message(Assistant, (if text != [] || calls == [] then [TextPart(text)] else []) + CallParts(calls))
  }

  function CallParts(calls: seq<ToolCall>): seq<Part> {
    if calls == [] then [] else [CallPart(calls[0])] + CallParts(calls[1..])
  }

  /** Decoding and checking the outputs. */
  function Respond(setup: Setup, q: Request, job: Job, inference: CS.Inference): Result<Response> {
    var p := setup.p;
    var content := CS.ContentIds(p.stops, inference.outputs);
    var assistantContent := p.decode(content, false);
    if assistantContent.Err? then Err(assistantContent.code)
    else
      var text := p.decodeResponse(RC.Extract(p.controls, job.toolResults, content, RC.Visible));
      if text.Err? then Err(text.code)
      else
        var reasoningIds := RC.Extract(p.controls, job.toolResults, content, RC.Reasoning);
        if |reasoningIds| != inference.reasoningTokens then Err(Internal)
        else
          var reasoningText := p.decode(reasoningIds, true);
          if reasoningText.Err? then Err(reasoningText.code)
          else
            var calls := p.parseCalls(assistantContent.value);
            if calls.Err? then Err(calls.code)
            else if !p.admitsCalls(q.tools, q.choice, calls.value) then Err(InvalidArgument)
            else
              var reason := if calls.value != [] then FinishToolCalls
                            else if inference.stopped then FinishStop else FinishLength;
              Ok(Response(assistantContent.value, text.value, reasoningText.value, calls.value, job.prompt, reason, inference))
  }

  function Kept(outputs: seq<Token>): seq<Token> {
    if |outputs| > 1 then outputs[..|outputs| - 1] else []
  }

  /** The token state after a successful inference. */
  function Advance(s: Snapshot, job: Job, inference: CS.Inference, cache: CS.Cache): Snapshot {
    var outputs := inference.outputs;
    s.(cachedPrefix := job.prompt + Kept(outputs),
       pending := if !inference.stopped && outputs != [] then Some(outputs[|outputs| - 1]) else None,
       cache := cache)
  }

  function Commit(s: Snapshot, q: Request, r: Response): Snapshot
    requires |s.committed| <= |q.messages|
  {
    s.(committed := s.committed + Added(s, q) + [AssistantMessage(r.assistantText, r.calls)],
       tools := q.tools, choice := q.choice)
  }

  /** `ChatSession::Generate` as a step on values. */
  function GenerateSpec(setup: Setup, s: Snapshot, q: Request, o: CS.Oracle): (Snapshot, Result<Response>)
    requires !s.poisoned ==> Usable(s)
  {
    var prepared := Prepare(setup, s, q);
    if prepared.Err? then (s, Err(prepared.code))
    else
      var job := prepared.value;
      var (cache, inference) := CS.GenerateSpec(
        setup.maxContext, setup.p.stops, s.cache, job.prompt, job.limit, job.reasoning, o, job.audio, job.vision);
      if inference.Err? then (s.(cache := cache, poisoned := cache.poisoned), Err(inference.code))
      else
        var advanced := Advance(s, job, inference.value, cache);
        var response := Respond(setup, q, job, inference.value);
        if response.Err? then (advanced.(poisoned := true), Err(response.code))
        else (Commit(advanced, q, response.value), response)
  }

  // ---------------------------------------------------------------- the session object

  method ExtendsResident(committed: seq<Message>, messages: seq<Message>) returns (r: bool)
    ensures r == Extends(committed, messages)
  {
    if |messages| <= |committed| {
      return false;
    }
    for k := 0 to |committed|
      invariant forall i :: 0 <= i < k ==> MessageEquivalent(committed[i], messages[i])
    {
      var equivalent := ResidentMessageEquivalent(committed[k], messages[k]);
      if !equivalent {
        return false;
      }
    }
    return true;
  }

  method OnlyToolResults(committed: seq<Message>, messages: seq<Message>) returns (r: bool)
    ensures r == AddsToolResults(committed, messages)
  {
    var k := |committed|;
    while k < |messages|
      invariant |committed| <= k
      invariant forall i :: |committed| <= i < k && i < |messages| ==> messages[i].role == Tool
    {
      if messages[k].role != Tool {
        return false;
      }
      k := k + 1;
    }
    return true;
  }

  method FindCall(parts: seq<Part>, id: Text) returns (name: Text)
    ensures name == CallName(parts, id)
  {
    assert parts[0..] == parts;
    for k := 0 to |parts|
      invariant CallName(parts, id) == CallName(parts[k..], id)
    {
      assert parts[k..][1..] == parts[k + 1..];
      if parts[k].CallPart? && parts[k].call.id == id {
        return parts[k].call.name;
      }
    }
    return [];
  }

  method CollectResults(calls: seq<Part>, messages: seq<Message>, from: nat) returns (r: Result<seq<ToolResult>>)
    requires from <= |messages|
    ensures r == ResolveResults(calls, messages[from..])
  {
    hide ResultOf, CallName;
    var results: seq<ToolResult> := [];
    for k := from to |messages|
      invariant ResolveResults(calls, messages[from..]) == Prepend(results, ResolveResults(calls, messages[k..]))
    {
      assert messages[k..][0] == messages[k] && messages[k..][1..] == messages[k + 1..];
      var (id, output) := ResultOf(messages[k]);
      var name := FindCall(calls, id);
      if name == [] {
        return Err(InvalidArgument);
      }
      PrependPrepend(results, [ToolResult(name, output)], ResolveResults(calls, messages[k + 1..]));
      results := results + [ToolResult(name, output)];
    }
    assert messages[|messages|..] == [];
    return Ok(results);
  }

  /** `ChatSession`. */
  class Session {
    const setup: Setup
    const backend: CS.Session
    var committedMessages: seq<Message>
    var committedTools: seq<ToolDefinition>
    var committedToolChoice: ToolChoice
    var cachedPrefixTokenIds: seq<Token>
    var pendingAssistantTokenId: Option<Token>
    var poisoned: bool

    ghost predicate Valid()
      reads this, backend, backend.engine
    {
      && backend.Valid() && backend.stopTokenIds == setup.p.stops && backend.maxContext == setup.maxContext
      && (!poisoned ==> Usable(Current()))
    }

    ghost function Current(): Snapshot
      reads this, backend
    {
      Snapshot(committedMessages, committedTools, committedToolChoice, cachedPrefixTokenIds, pendingAssistantTokenId,
               poisoned, CS.Cache(backend.cachedTokenIds, backend.poisoned))
    }

    /** The state up to what a poisoned backend cache happens to hold. */
    ghost predicate Is(s: Snapshot)
      reads this, backend
    {
      Current().(cache := s.cache) == s && backend.Is(s.cache)
    }

    constructor (setup: Setup, backend: CS.Session)
      requires backend.Valid() && backend.Is(CS.Cache([], false))
      requires backend.stopTokenIds == setup.p.stops && backend.maxContext == setup.maxContext
      ensures Valid() && Is(Opened()) && this.setup == setup && this.backend == backend
    {
      this.setup, this.backend := setup, backend;
      committedMessages, committedTools, committedToolChoice := [], [], NO_CHOICE;
      cachedPrefixTokenIds, pendingAssistantTokenId, poisoned := [], None, false;
    }

    /** The checks of a request against the resident conversation. */
    method Check(q: Request) returns (refusal: Option<StatusCode>)
      requires Valid()
      ensures refusal == Refusal(setup, Current(), q)
    {
      hide MessageEquivalent;
      if poisoned || backend.poisoned {
        return Some(Internal);
      }
      if q.maxGenerated == Some(0) {
        return Some(InvalidArgument);
      }
      if q.choice.mode != Auto && q.choice.mode != NoTools {
        return Some(Unsupported);
      }
      if !q.parallel {
        return Some(Unsupported);
      }
      if !setup.p.admitsTools(q.tools) {
        return Some(InvalidArgument);
      }
      if q.messages == [] {
        return Some(InvalidArgument);
      }
      var last := q.messages[|q.messages| - 1].role;
      if last != User && last != Tool {
        return Some(InvalidArgument);
      }
      if committedMessages != [] {
        var extendsPrefix := ExtendsResident(committedMessages, q.messages);
        if !extendsPrefix {
          return Some(InvalidArgument);
        }
        var oneUser := |q.messages| == |committedMessages| + 1 && q.messages[|committedMessages|].role == User;
        var toolResults := OnlyToolResults(committedMessages, q.messages);
        if !oneUser && !toolResults {
          return Some(InvalidArgument);
        }
        if q.tools != committedTools {
          return Some(InvalidArgument);
        }
        if q.choice != committedToolChoice {
          return Some(InvalidArgument);
        }
      }
      return None;
    }

    /** The prompt: a first rendering, or the resident tokens and a continuation. */
    method BuildPrompt(q: Request, m: Materialized) returns (r: Result<seq<Token>>)
      requires Valid() && !poisoned && m.messages != [] && |committedMessages| <= |q.messages|
      ensures r == PromptFor(setup, Current(), q, m)
    {
      hide ResolveResults;
      var thinking := q.effort != Off;
      if cachedPrefixTokenIds == [] {
        return setup.p.encode(m.messages, thinking, if q.choice.mode != NoTools then q.tools else []);
      }
      var last := m.messages[|m.messages| - 1];
      var continuation: Result<seq<Token>>;
      if last.role == Tool {
        var results := CollectResults(committedMessages[|committedMessages| - 1].content, q.messages, |committedMessages|);
        if results.Err? {
          return Err(results.code);
        }
        continuation := setup.p.continueTools(results.value, thinking);
      } else {
        continuation := setup.p.continueUser(last.content, thinking);
      }
      if continuation.Err? {
        return continuation;
      }
      var tokenIds := cachedPrefixTokenIds;
      if pendingAssistantTokenId.Some? {
        tokenIds := tokenIds + [pendingAssistantTokenId.value];
      } else {
        EmptyUnits(tokenIds);
      }
      return Ok(tokenIds + continuation.value);
    }

    /** Everything up to the call of the backend. */
    method PrepareJob(q: Request) returns (r: Result<Job>)
      requires Valid()
      ensures r == Prepare(setup, Current(), q)
    {
      hide Refusal, MaterializeSpec, Locate, PromptFor, ReasoningFor;
      var refusal := Check(q);
      if refusal.Some? {
        return Err(refusal.value);
      }
      RefusalExcludes(setup, Current(), q);
      var materialized := MaterializeMessages(q.messages, committedMessages);
      if materialized.Err? {
        return Err(materialized.code);
      }
      var m := materialized.value;
      var toolResults := m.messages[|m.messages| - 1].role == Tool;
      var prompt := BuildPrompt(q, m);
      if prompt.Err? {
        return Err(prompt.code);
      }
      var audio := LocateSegments(prompt.value, Audio, m.audio);
      if audio.Err? {
        return Err(audio.code);
      }
      var vision := LocateSegments(prompt.value, Image, m.images);
      if vision.Err? {
        return Err(vision.code);
      }
      var limit := OutputLimit(setup, q, prompt.value);
      if limit.Err? {
        return Err(limit.code);
      }
      return Ok(Job(prompt.value, limit.value, ReasoningFor(setup.p.controls, q, toolResults, limit.value),
                    CS.Placement(audio.value, m.audio, []), CS.Placement(vision.value, m.images, m.positions),
                    toolResults));
    }

    /** Decode the outputs and check them. */
    method BuildResponse(q: Request, job: Job, inference: CS.Inference) returns (r: Result<Response>)
      ensures r == Respond(setup, q, job, inference)
    {
      var p := setup.p;
      var contentIds := CS.ContentIds(p.stops, inference.outputs);
      var assistantContent := p.decode(contentIds, false);
      if assistantContent.Err? {
        return Err(assistantContent.code);
      }
      var visibleIds := RC.ExtractTokenIds(contentIds, p.controls, job.toolResults, RC.Visible);
      var text := p.decodeResponse(visibleIds);
      if text.Err? {
        return Err(text.code);
      }
      var reasoningIds := RC.ExtractTokenIds(contentIds, p.controls, job.toolResults, RC.Reasoning);
      if |reasoningIds| != inference.reasoningTokens {
        return Err(Internal);
      }
      var reasoningText := p.decode(reasoningIds, true);
      if reasoningText.Err? {
        return Err(reasoningText.code);
      }
      var calls := p.parseCalls(assistantContent.value);
      if calls.Err? {
        return Err(calls.code);
      }
      if !p.admitsCalls(q.tools, q.choice, calls.value) {
        return Err(InvalidArgument);
      }
      var reason := if calls.value != [] then FinishToolCalls else if inference.stopped then FinishStop else FinishLength;
      return Ok(Response(assistantContent.value, text.value, reasoningText.value, calls.value, job.prompt, reason, inference));
    }

    /** `ChatSession::Generate`. */
    method Generate(q: Request, o: CS.Oracle) returns (r: Result<Response>)
      requires Valid() && CS.Selects(o)
      modifies this, backend, backend.engine
      ensures Valid()
      ensures Is(GenerateSpec(setup, old(Current()), q, o).0) && r == GenerateSpec(setup, old(Current()), q, o).1
    {
      hide Prepare, Respond, CS.GenerateSpec, CS.ContentIds, RC.Extract;
      ghost var s := Current();
      var prepared := PrepareJob(q);
      if prepared.Err? {
        return Err(prepared.code);
      }
      var job := prepared.value;
      PrepareExcludes(setup, s, q);
      var inference := backend.Generate(job.prompt, job.limit, job.reasoning, o, job.audio, job.vision);
      if inference.Err? {
        poisoned := backend.poisoned;
        return Err(inference.code);
      }
      SuccessKeepsPrompt(setup, s, job, o);
      var outputs := inference.value.outputs;
      cachedPrefixTokenIds := job.prompt;
      if |outputs| > 1 {
        cachedPrefixTokenIds := cachedPrefixTokenIds + outputs[..|outputs| - 1];
      } else {
        EmptyUnits(job.prompt);
      }
      pendingAssistantTokenId := None;
      if !inference.value.stopped && outputs != [] {
        pendingAssistantTokenId := Some(outputs[|outputs| - 1]);
      }
      var response := BuildResponse(q, job, inference.value);
      if response.Err? {
        poisoned := true;
        return response;
      }
      CommitTurn(q, response.value);
      return response;
    }

    /** The last step: the request's new messages and the assistant's become resident. */
    method CommitTurn(q: Request, r: Response)
      requires |committedMessages| <= |q.messages|
      modifies `committedMessages, `committedTools, `committedToolChoice
      ensures committedMessages
           == old(committedMessages) + q.messages[|old(committedMessages)|..] + [AssistantMessage(r.assistantText, r.calls)]
      ensures committedTools == q.tools && committedToolChoice == q.choice
    {
      var assistant := AssistantMessage(r.assistantText, r.calls);
      if committedMessages == [] {
        EmptyUnits(q.messages);
        committedMessages := q.messages;
      } else {
        committedMessages := committedMessages + q.messages[|committedMessages|..];
      }
      committedMessages := committedMessages + [assistant];
      committedTools := q.tools;
      committedToolChoice := q.choice;
    }
  }

  // ---------------------------------------------------------------- facts about one call

  lemma RefusalExcludes(setup: Setup, s: Snapshot, q: Request)
    ensures Refusal(setup, s, q).None? ==> !s.poisoned && !s.cache.poisoned && q.messages != [] && |s.committed| <= |q.messages|
    ensures Refusal(setup, s, q).None? && s.committed != [] ==> |s.committed| < |q.messages|
  {
  }

  lemma PrepareExcludes(setup: Setup, s: Snapshot, q: Request)
    requires !s.poisoned ==> Usable(s)
    ensures Prepare(setup, s, q).Ok? ==> !s.poisoned && !s.cache.poisoned && q.messages != [] && |s.committed| <= |q.messages|
  {
    hide Refusal, MaterializeSpec, Locate, PromptFor, ReasoningFor;
    RefusalExcludes(setup, s, q);
  }

  /** A successful backend call leaves exactly the prompt and all outputs but the last. */
  lemma SuccessKeepsPrompt(setup: Setup, s: Snapshot, job: Job, o: CS.Oracle)
    ensures var (cache, inference) := CS.GenerateSpec(
              setup.maxContext, setup.p.stops, s.cache, job.prompt, job.limit, job.reasoning, o, job.audio, job.vision);
            inference.Ok? ==>
              && !s.cache.poisoned && cache == CS.Cache(job.prompt + Kept(inference.value.outputs), false)
              && CS.Acceptable(setup.maxContext, job.prompt, job.limit, job.reasoning, job.audio, job.vision)
              && CS.ExtendsCache(s.cache.tokens, job.prompt)
  {
    hide CS.Generated, CS.Acceptable;
  }
}
