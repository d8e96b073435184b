/** The chat template: rendering a whole conversation, and the texts that continue one. */
module ChatTemplate {
  import opened Wrappers
  import opened Seqs
  import opened Text
  import opened Utf8
  import opened ResponseContent

  datatype Role = System | Developer | User | Assistant | Tool | OtherRole(name: Text)

  datatype ToolCall = ToolCall(id: Text, name: Text, arguments: Text)
  datatype ToolDefinition = ToolDefinition(name: Text, description: Text, parameters: Text, strict: bool)
  datatype ToolResult = ToolResult(name: Text, output: Text)

  datatype ChatMessage = ChatMessage(
    role: Role, content: Text, toolCalls: seq<ToolCall>, toolCallId: Text, toolName: Text)

  /** The JSON formatters are parameters: any functions that may fail. */
  datatype Template = Template(
    formatTool: ToolDefinition -> Result<Text>,
    formatCall: ToolCall -> Result<Text>,
    markers: Markers)

  const BOS: Text := Ascii("<bos>")
  const TURN: Text := Ascii("<|turn>")
  const TURN_END: Text := Ascii("<turn|>\n")
  const SYSTEM: Text := Ascii("<|turn>system\n")
  const THINK: Text := Ascii("<|think|>\n")
  const MODEL_NAME: Text := Ascii("model\n")
  const USER_NAME: Text := Ascii("user\n")
  const OPEN_THOUGHT: Text := Ascii("<|channel>thought\n")
  const CLOSED_THOUGHT: Text := Ascii("<|channel>thought\n<channel|>")
  const RESPONSE_OPEN: Text := Ascii("<|tool_response>")

  function FormatToolResponse(name: Text, output: Text): Text {
    Ascii("<|tool_response>response:") + name + Ascii("{value:<|\"|>") + output + Ascii("<|\"|>}<tool_response|>")
  }

  // ---------------------------------------------------------------- pieces

  function Joined<T>(format: T -> Result<Text>, items: seq<T>): Result<Text> {
    if items == [] then Ok([])
    else
      var head := format(items[0]);
      if head.Err? then head else Prepend(head.value, Joined(format, items[1..]))
  }

  function Leading(messages: seq<ChatMessage>): (n: nat)
    ensures n <= |messages|
    ensures forall i :: 0 <= i < n ==> messages[i].role == Tool
    ensures n < |messages| ==> messages[n].role != Tool
  {
    if messages != [] && messages[0].role == Tool then
      var n := Leading(messages[1..]);
      assert forall i :: 1 <= i <= n ==> messages[i] == messages[1..][i - 1];
      n + 1
    else 0
  }

  /** The first call with this ID names the tool. */
  function NameOfCall(calls: seq<ToolCall>, id: Text): Text {
    if calls == [] then [] else if calls[0].id == id then calls[0].name else NameOfCall(calls[1..], id)
  }

  function ResultName(calls: seq<ToolCall>, message: ChatMessage): Text {
    if message.toolName != [] then message.toolName else NameOfCall(calls, message.toolCallId)
  }

  function Responses(calls: seq<ToolCall>, results: seq<ChatMessage>): Result<Text> {
    if results == [] then Ok([])
    else
      var name := ResultName(calls, results[0]);
      if name == [] then Err(InvalidArgument)
      else Prepend(FormatToolResponse(name, results[0].content), Responses(calls, results[1..]))
  }

  /** Calls, then content, then tool results of one assistant turn, without its closing. */
  function AssistantBody(t: Template, m: ChatMessage, results: seq<ChatMessage>): Result<Text>
    requires NonEmpty(t.markers)
  {
    var calls := Joined(t.formatCall, m.toolCalls);
    if calls.Err? then calls
    else
      var content := AssistantContent(t, m);
      if content.Err? then content
      else Prepend(calls.value, Prepend(content.value, Responses(m.toolCalls, results)))
  }

  function AssistantContent(t: Template, m: ChatMessage): Result<Text>
    requires NonEmpty(t.markers)
  {
    if m.content == [] then Ok([]) else ExtractSpec(t.markers, m.content)
  }

  function AssistantHasContent(t: Template, m: ChatMessage): bool
    requires NonEmpty(t.markers)
  {
    var content := AssistantContent(t, m);
    content.Ok? && content.value != []
  }

  // ---------------------------------------------------------------- the turns

  /** Rendered text so far, and the role that the generation prompt looks at. */
  datatype Rendered = Rendered(text: Text, last: Role)

  const NOBODY: Role := OtherRole([])

  function Then(head: Text, tail: Result<Rendered>): (r: Result<Rendered>)
    ensures head == [] ==> r == tail
    ensures tail.Ok? ==> r.Ok? && r.value.last == tail.value.last
  {
    if tail.Err? then tail
    else
      assert head == [] ==> head + tail.value.text == tail.value.text;
      Ok(tail.value.(text := head + tail.value.text))
  }

  /** Checks at the head of a turn, in the order of the loop body. */
  function TurnError(m: ChatMessage, previous: Role): Option<StatusCode> {
    if m.role == Tool then Some(InvalidArgument)
    else if m.role != User && m.role != Assistant then Some(Unsupported)
    else if m.role == previous then Some(InvalidArgument)
    else None
  }

  function UserText(content: Text): Text {
    TURN + USER_NAME + TrimSpec(content) + TURN_END
  }

  /** One assistant turn with its tool results, in front of the rendering of what follows.  Calls
      without results leave an open response; results without content at the end leave the turn open. */
  function AssistantTurn(t: Template, m: ChatMessage, results: seq<ChatMessage>, atEnd: bool, tail: Result<Rendered>): Result<Rendered>
    requires NonEmpty(t.markers)
  {
    var body := AssistantBody(t, m, results);
    if body.Err? then Err(body.code)
    else if m.toolCalls != [] && results == [] then Then(TURN + MODEL_NAME + body.value + RESPONSE_OPEN, tail)
    else if results != [] && !AssistantHasContent(t, m) && atEnd then Ok(Rendered(TURN + MODEL_NAME + body.value, Tool))
    else Then(TURN + MODEL_NAME + body.value + TURN_END, tail)
  }

  function Turns(t: Template, messages: seq<ChatMessage>, previous: Role): Result<Rendered>
    requires NonEmpty(t.markers)
    decreases |messages|
  {
    if messages == [] then Ok(Rendered([], previous))
    else
      var m := messages[0];
      var error := TurnError(m, previous);
      if error.Some? then Err(error.value)
      else if m.role == User then
        Then(UserText(m.content), Turns(t, messages[1..], User))
      else
        var n := Leading(messages[1..]);
        var rest := messages[1 + n..];
        AssistantTurn(t, m, messages[1..1 + n], rest == [], Turns(t, rest, Assistant))
  }

  lemma UnfoldUserTurn(t: Template, messages: seq<ChatMessage>, previous: Role)
    requires NonEmpty(t.markers) && messages != [] && messages[0].role == User && TurnError(messages[0], previous).None?
    ensures Turns(t, messages, previous) == Then(UserText(messages[0].content), Turns(t, messages[1..], User))
  {
    hide UserText, AssistantTurn;
  }

  lemma UnfoldAssistantTurn(t: Template, messages: seq<ChatMessage>, previous: Role)
    requires NonEmpty(t.markers) && messages != [] && messages[0].role == Assistant && TurnError(messages[0], previous).None?
    ensures var n := Leading(messages[1..]);
            var rest := messages[1 + n..];
            Turns(t, messages, previous) == AssistantTurn(t, messages[0], messages[1..1 + n], rest == [], Turns(t, rest, Assistant))
  {
    hide UserText, AssistantTurn, Leading;
  }

  predicate HasSystem(messages: seq<ChatMessage>)
    requires messages != []
  {
    messages[0].role == System || messages[0].role == Developer
  }

  /** The system turn: present for thinking, for tools, or for a leading system message. */
  function Header(t: Template, messages: seq<ChatMessage>, thinking: bool, tools: seq<ToolDefinition>): Result<Text>
    requires messages != []
  {
    if thinking || tools != [] || HasSystem(messages) then
      var definitions := Joined(t.formatTool, tools);
      if definitions.Err? then definitions
      else Ok(SYSTEM + (if thinking then THINK else [])
              + (if HasSystem(messages) then TrimSpec(messages[0].content) else []) + definitions.value + TURN_END)
    else Ok([])
  }

  /** What `add_generation_prompt` appends. */
  function GenerationPrompt(last: Role, thinking: bool): Result<Text> {
    if last == Tool then Ok(if thinking then OPEN_THOUGHT else [])
    else if last != User then Err(InvalidArgument)
    else Ok(TURN + MODEL_NAME + (if thinking then [] else CLOSED_THOUGHT))
  }

  function Conversation(messages: seq<ChatMessage>): seq<ChatMessage>
    requires messages != []
  {
    if HasSystem(messages) then messages[1..] else messages
  }

  function RenderSpec(t: Template, messages: seq<ChatMessage>, thinking: bool, addPrompt: bool, tools: seq<ToolDefinition>): Result<Text>
    requires NonEmpty(t.markers)
  {
    if messages == [] then Err(InvalidArgument)
    else
      var header := Header(t, messages, thinking, tools);
      if header.Err? then header
      else
        var turns := Turns(t, Conversation(messages), NOBODY);
        if turns.Err? then Err(turns.code)
        else
          var text := BOS + header.value + turns.value.text;
          if !addPrompt then Ok(text)
          else
            var prompt := GenerationPrompt(turns.value.last, thinking);
            if prompt.Err? then prompt else Ok(text + prompt.value)
  }

  // ---------------------------------------------------------------- the continuations

  /** What `EncodeContinuation` encodes. */
  function Continuation(user: Text, thinking: bool): Text {
    TURN_END + TURN + USER_NAME + TrimSpec(user) + TURN_END + TURN + MODEL_NAME
    + (if thinking then [] else CLOSED_THOUGHT)
  }

  /** What `EncodeToolResultsContinuation` encodes. */
  function ToolContinuation(results: seq<ToolResult>, thinking: bool): Result<Text> {
    if results == [] then Err(InvalidArgument)
    else
      var texts := Joined(FormatNamed, results);
      if texts.Err? then texts else Ok(texts.value + (if thinking then OPEN_THOUGHT else []))
  }

  function FormatNamed(r: ToolResult): Result<Text> {
    if r.name == [] then Err(InvalidArgument) else Ok(FormatToolResponse(r.name, r.output))
  }

  // ---------------------------------------------------------------- the rendering loops

  lemma ThenThen(a: Text, b: Text, tail: Result<Rendered>)
    ensures Then(a, Then(b, tail)) == Then(a + b, tail)
  {
    if tail.Ok? {
      Assoc(a, b, tail.value.text);
    }
  }

  method FormatAll<T>(format: T -> Result<Text>, items: seq<T>) returns (r: Result<Text>)
    ensures r == Joined(format, items)
  {
    var result: Text := [];
    assert items[0..] == items;
    for k := 0 to |items|
      invariant Joined(format, items) == Prepend(result, Joined(format, items[k..]))
    {
      assert items[k..][1..] == items[k + 1..];
      var formatted := format(items[k]);
      if formatted.Err? {
        return formatted;
      }
      PrependPrepend(result, formatted.value, Joined(format, items[k + 1..]));
      result := result + formatted.value;
    }
    assert items[|items|..] == [];
    return Ok(result);
  }

  /** The scan for the call that a result belongs to. */
  method FindCallName(calls: seq<ToolCall>, id: Text) returns (name: Text)
    ensures name == NameOfCall(calls, id)
  {
    assert calls[0..] == calls;
    for k := 0 to |calls|
      invariant NameOfCall(calls, id) == NameOfCall(calls[k..], id)
    {
      assert calls[k..][1..] == calls[k + 1..];
      if calls[k].id == id {
        return calls[k].name;
      }
    }
    return [];
  }

  function ResultsEnd(messages: seq<ChatMessage>, from: nat): (end: nat)
    requires from <= |messages|
    ensures from <= end <= |messages|
    ensures forall i :: from <= i < end ==> messages[i].role == Tool
    ensures end < |messages| ==> messages[end].role != Tool
  {
    var ahead := messages[from..];
    assert forall i :: from <= i < |messages| ==> messages[i] == ahead[i - from];
    from + Leading(ahead)
  }

  lemma ResponsesStep(calls: seq<ToolCall>, messages: seq<ChatMessage>, next: nat, end: nat, text: Text)
    requires next < end <= |messages|
    ensures var name := ResultName(calls, messages[next]);
            Prepend(text, Responses(calls, messages[next..end]))
            == if name == [] then Err(InvalidArgument)
               else Prepend(text + FormatToolResponse(name, messages[next].content), Responses(calls, messages[next + 1..end]))
  {
    hide FormatToolResponse;
    var results := messages[next..end];
    assert results[0] == messages[next] && results[1..] == messages[next + 1..end];
    var name := ResultName(calls, messages[next]);
    PrependPrepend(text, FormatToolResponse(name, messages[next].content), Responses(calls, messages[next + 1..end]));
  }

  /** The loop over the tool results behind an assistant turn; `next` is where it stops. */
  method RenderResults(calls: seq<ToolCall>, messages: seq<ChatMessage>, from: nat) returns (r: Result<Text>, next: nat)
    requires from <= |messages|
    ensures r.Ok? ==> next == ResultsEnd(messages, from)
    ensures r == Responses(calls, messages[from..ResultsEnd(messages, from)])
  {
    hide FormatToolResponse, Responses;
    var text: Text := [];
    next := from;
    ghost var end := ResultsEnd(messages, from);
    while next < |messages| && messages[next].role == Tool
      invariant from <= next <= end
      invariant Responses(calls, messages[from..end]) == Prepend(text, Responses(calls, messages[next..end]))
    {
      var message := messages[next];
      ResponsesStep(calls, messages, next, end, text);
      var name := message.toolName;
      if name == [] {
        name := FindCallName(calls, message.toolCallId);
      }
      if name == [] {
        return Err(InvalidArgument), next;
      }
      text := text + FormatToolResponse(name, message.content);
      next := next + 1;
    }
    NoResponses(calls, messages, end);
    return Ok(text), next;
  }

  lemma NoResponses(calls: seq<ToolCall>, messages: seq<ChatMessage>, end: nat)
    requires end <= |messages|
    ensures Responses(calls, messages[end..end]) == Ok([])
  {
  }

  lemma StopAtError(t: Template, messages: seq<ChatMessage>, previous: Role)
    requires NonEmpty(t.markers) && messages != [] && TurnError(messages[0], previous).Some?
    ensures Turns(t, messages, previous) == Err(TurnError(messages[0], previous).value)
  {
  }

  lemma NoTurns(t: Template, previous: Role)
    requires NonEmpty(t.markers)
    ensures Turns(t, [], previous) == Ok(Rendered([], previous))
  {
  }

  /** An assistant turn in terms of its rendered parts. */
  lemma AssistantTurnOf(
    t: Template, m: ChatMessage, results: seq<ChatMessage>, atEnd: bool, tail: Result<Rendered>,
    calls: Text, content: Text, responses: Text)
    requires NonEmpty(t.markers) && Joined(t.formatCall, m.toolCalls) == Ok(calls)
    requires AssistantContent(t, m) == Ok(content) && Responses(m.toolCalls, results) == Ok(responses)
    ensures var text := TURN + MODEL_NAME + (calls + (content + responses));
            AssistantTurn(t, m, results, atEnd, tail)
            == if m.toolCalls != [] && results == [] then Then(text + RESPONSE_OPEN, tail)
               else if results != [] && content == [] && atEnd then Ok(Rendered(text, Tool))
               else Then(text + TURN_END, tail)
  {
    hide Ascii, Joined, Responses, AssistantContent, Then;
  }

  /** The calls, content and results of one assistant message, without the turn around them. */
  method RenderAssistant(t: Template, message: ChatMessage, messages: seq<ChatMessage>, from: nat)
    returns (body: Result<Text>, hasContent: bool, next: nat)
    requires NonEmpty(t.markers) && from <= |messages|
    ensures body == AssistantBody(t, message, messages[from..ResultsEnd(messages, from)])
    ensures body.Ok? ==> next == ResultsEnd(messages, from) && hasContent == AssistantHasContent(t, message)
  {
    hide ExtractSpec, Joined, Responses, Leading;
    next, hasContent := from, false;
    var calls := FormatAll(t.formatCall, message.toolCalls);
    if calls.Err? {
      return Err(calls.code), false, from;
    }
    var content: Result<Text> := Ok([]);
    if message.content != [] {
      content := ExtractResponseContent(t.markers, message.content);
      if content.Err? {
        return Err(content.code), false, from;
      }
      hasContent := content.value != [];
    }
    var responses, end := RenderResults(message.toolCalls, messages, from);
    if responses.Err? {
      return Err(responses.code), false, from;
    }
    return Ok(calls.value + (content.value + responses.value)), hasContent, end;
  }

  /** Where the loop stands behind an assistant turn whose body renders, or what it returns there. */
  lemma AssistantBranch(
    t: Template, m: ChatMessage, results: seq<ChatMessage>, atEnd: bool, tail: Result<Rendered>, head: Text)
    requires NonEmpty(t.markers) && AssistantBody(t, m, results).Ok?
    ensures var text := TURN + MODEL_NAME + AssistantBody(t, m, results).value;
            Then(head, AssistantTurn(t, m, results, atEnd, tail))
            == if m.toolCalls != [] && results == [] then Then(head + (text + RESPONSE_OPEN), tail)
               else if results != [] && !AssistantHasContent(t, m) && atEnd then Ok(Rendered(head + text, Tool))
               else Then(head + (text + TURN_END), tail)
  {
    hide Ascii, AssistantBody, AssistantHasContent;
    var text := TURN + MODEL_NAME + AssistantBody(t, m, results).value;
    ThenThen(head, text + RESPONSE_OPEN, tail);
    ThenThen(head, text + TURN_END, tail);
  }

  lemma AssistantFails(t: Template, m: ChatMessage, results: seq<ChatMessage>, atEnd: bool, tail: Result<Rendered>)
    requires NonEmpty(t.markers) && AssistantBody(t, m, results).Err?
    ensures AssistantTurn(t, m, results, atEnd, tail) == Err(AssistantBody(t, m, results).code)
  {
    hide AssistantBody, AssistantHasContent;
  }

  lemma AfterNothing(tail: Result<Rendered>)
    ensures Then([], tail) == tail
  {
  }

  lemma BeforeNothing(head: Text, last: Role)
    ensures Then(head, Ok(Rendered([], last))) == Ok(Rendered(head, last))
  {
    EmptyUnits(head);
  }

  lemma TurnRoles(m: ChatMessage, previous: Role)
    requires TurnError(m, previous).None?
    ensures m.role == User || m.role == Assistant
  {
  }

  lemma ThenFails(head: Text, code: StatusCode)
    ensures Then(head, Err(code)) == Err(code)
  {
  }

  /** What the assistant turn at `index` makes of the text so far. */
  lemma AssistantStep(t: Template, messages: seq<ChatMessage>, index: nat, previous: Role, head: Text)
    requires NonEmpty(t.markers) && index < |messages| && messages[index].role == Assistant
    requires TurnError(messages[index], previous).None?
    ensures var m, next := messages[index], ResultsEnd(messages, index + 1);
            var body := AssistantBody(t, m, messages[index + 1..next]);
            var tail := Turns(t, messages[next..], Assistant);
            && index < next <= |messages|
            && Then(head, Turns(t, messages[index..], previous))
               == if body.Err? then Err(body.code)
                  else
                    var text := TURN + MODEL_NAME + body.value;
                    if m.toolCalls != [] && next == index + 1 then Then(head + (text + RESPONSE_OPEN), tail)
                    else if next > index + 1 && !AssistantHasContent(t, m) && next == |messages| then Ok(Rendered(head + text, Tool))
                    else Then(head + (text + TURN_END), tail)
  {
    hide Leading, Ascii, Turns, AssistantBody, AssistantHasContent, AssistantTurn, Then;
    var ahead := messages[index..];
    var n := Leading(ahead[1..]);
    assert ahead[1..] == messages[index + 1..];
    SliceOfDrop(messages, index, 1, 1 + n);
    UnfoldAssistantTurn(t, ahead, previous);
    var results, rest := ahead[1..1 + n], ahead[1 + n..];
    if AssistantBody(t, messages[index], results).Err? {
      AssistantFails(t, messages[index], results, rest == [], Turns(t, rest, Assistant));
      ThenFails(head, AssistantBody(t, messages[index], results).code);
    } else {
      AssistantBranch(t, messages[index], results, rest == [], Turns(t, rest, Assistant), head);
    }
  }

  lemma UserStep(t: Template, messages: seq<ChatMessage>, index: nat, previous: Role, head: Text)
    requires NonEmpty(t.markers) && index < |messages| && messages[index].role == User
    requires TurnError(messages[index], previous).None?
    ensures Then(head, Turns(t, messages[index..], previous))
         == Then(head + (TURN + USER_NAME + TrimSpec(messages[index].content) + TURN_END), Turns(t, messages[index + 1..], User))
  {
    hide Ascii, Turns, Then, TrimSpec;
    var ahead := messages[index..];
    assert ahead[1..] == messages[index + 1..];
    UnfoldUserTurn(t, ahead, previous);
    ThenThen(head, UserText(messages[index].content), Turns(t, ahead[1..], User));
  }

  /** The message loop of `Render`. */
  method RenderTurns(t: Template, messages: seq<ChatMessage>) returns (r: Result<Rendered>)
    requires NonEmpty(t.markers)
    ensures r == Turns(t, messages, NOBODY)
  {
    hide Leading, Ascii, TrimSpec, Turns, AssistantBody, AssistantHasContent, Then, TurnError, ResultsEnd;
    var result: Text := [];
    AfterNothing(Turns(t, messages, NOBODY));
    var index: nat := 0;
    var previous := NOBODY;
    assert messages[0..] == messages;
    while index < |messages|
      invariant index <= |messages|
      invariant Turns(t, messages, NOBODY) == Then(result, Turns(t, messages[index..], previous))
      decreases |messages| - index
    {
      var message := messages[index];
      var error := TurnError(message, previous);
      if error.Some? {
        StopAtError(t, messages[index..], previous);
        ThenFails(result, error.value);
        return Err(error.value);
      }
      TurnRoles(message, previous);
      if message.role == User {
        var content := Trim(message.content);
        UserStep(t, messages, index, previous, result);
        result, previous, index := result + (TURN + USER_NAME + content + TURN_END), User, index + 1;
        continue;
      }
      AssistantStep(t, messages, index, previous, result);
      var body, hasContent, next := RenderAssistant(t, message, messages, index + 1);
      if body.Err? {
        return Err(body.code);
      }
      if message.toolCalls != [] && next == index + 1 {
        result, previous, index := result + (TURN + MODEL_NAME + body.value + RESPONSE_OPEN), Assistant, next;
      } else if next > index + 1 && !hasContent && next == |messages| {
        return Ok(Rendered(result + (TURN + MODEL_NAME + body.value), Tool));
      } else {
        result, previous, index := result + (TURN + MODEL_NAME + body.value + TURN_END), Assistant, next;
      }
    }
    assert messages[index..] == [];
    NoTurns(t, previous);
    BeforeNothing(result, previous);
    return Ok(Rendered(result, previous));
  }

  /** `GemmaChatProcessor::Render`. */
  method Render(t: Template, messages: seq<ChatMessage>, thinking: bool, addPrompt: bool, tools: seq<ToolDefinition>)
    returns (r: Result<Text>)
    requires NonEmpty(t.markers)
    ensures r == RenderSpec(t, messages, thinking, addPrompt, tools)
  {
    hide Turns, TrimSpec, Joined;
    if messages == [] {
      return Err(InvalidArgument);
    }
    var result := BOS;
    if thinking || tools != [] || HasSystem(messages) {
      var header := SYSTEM + (if thinking then THINK else []);
      if HasSystem(messages) {
        var content := Trim(messages[0].content);
        header := header + content;
      } else {
        EmptyUnits(header);
      }
      var definitions := FormatAll(t.formatTool, tools);
      if definitions.Err? {
        return definitions;
      }
      result := result + (header + definitions.value + TURN_END);
    } else {
      EmptyUnits(result);
    }
    var turns := RenderTurns(t, Conversation(messages));
    if turns.Err? {
      return Err(turns.code);
    }
    result := result + turns.value.text;
    if addPrompt {
      var prompt := GenerationPrompt(turns.value.last, thinking);
      if prompt.Err? {
        return prompt;
      }
      result := result + prompt.value;
    }
    return Ok(result);
  }

  // ---------------------------------------------------------------- which conversations render

  /** Who spoke last before message `k`, tool messages aside; `previous` if nobody did. */
  function Speaker(messages: seq<ChatMessage>, previous: Role, k: nat): Role
    requires k <= |messages|
  {
    if k == 0 then previous
    else if messages[k - 1].role == Tool then Speaker(messages, previous, k - 1)
    else messages[k - 1].role
  }

  /** A tool message answers an assistant; any other speaker is the user or the assistant, and not
      the one who spoke last. */
  predicate InTurn(messages: seq<ChatMessage>, previous: Role, k: nat)
    requires k < |messages|
  {
    var role := messages[k].role;
    if role == Tool then Speaker(messages, previous, k) == Assistant
    else (role == User || role == Assistant) && role != Speaker(messages, previous, k)
  }

  ghost predicate Alternates(messages: seq<ChatMessage>, previous: Role) {
    forall k: nat :: k < |messages| ==> InTurn(messages, previous, k)
  }

  /** The tool messages right behind message `k`. */
  function ResultsOf(messages: seq<ChatMessage>, k: nat): seq<ChatMessage>
    requires k < |messages|
  {
    messages[k + 1..k + 1 + Leading(messages[k + 1..])]
  }

  /** The calls of an assistant message format, its content extracts, its results have names. */
  ghost predicate Renders(t: Template, messages: seq<ChatMessage>, k: nat)
    requires NonEmpty(t.markers) && k < |messages|
  {
    messages[k].role == Assistant ==>
      var m := messages[k];
      && (forall i :: 0 <= i < |m.toolCalls| ==> t.formatCall(m.toolCalls[i]).Ok?)
      && (m.content == [] || ExtractSpec(t.markers, m.content).Ok?)
      && forall i :: 0 <= i < |ResultsOf(messages, k)| ==> ResultName(m.toolCalls, ResultsOf(messages, k)[i]) != []
  }

  ghost predicate AllRender(t: Template, messages: seq<ChatMessage>)
    requires NonEmpty(t.markers)
  {
    forall k: nat :: k < |messages| ==> Renders(t, messages, k)
  }

  lemma {:induction false} JoinedExactly<T>(format: T -> Result<Text>, items: seq<T>)
    ensures Joined(format, items).Ok? <==> forall i :: 0 <= i < |items| ==> format(items[i]).Ok?
  {
    if items != [] {
      JoinedExactly(format, items[1..]);
      assert forall i :: 1 <= i < |items| ==> items[i] == items[1..][i - 1];
    }
  }

  lemma {:induction false} ResponsesExactly(calls: seq<ToolCall>, results: seq<ChatMessage>)
    ensures Responses(calls, results).Ok? <==> forall i :: 0 <= i < |results| ==> ResultName(calls, results[i]) != []
  {
    hide FormatToolResponse, ResultName;
    if results != [] {
      ResponsesExactly(calls, results[1..]);
      assert forall i :: 1 <= i < |results| ==> results[i] == results[1..][i - 1];
    }
  }

  lemma BodyExactly(t: Template, messages: seq<ChatMessage>, k: nat)
    requires NonEmpty(t.markers) && k < |messages| && messages[k].role == Assistant
    ensures AssistantBody(t, messages[k], ResultsOf(messages, k)).Ok? <==> Renders(t, messages, k)
  {
    hide Joined, Responses, ResultsOf, ExtractSpec, ResultName;
    JoinedExactly(t.formatCall, messages[k].toolCalls);
    ResponsesExactly(messages[k].toolCalls, ResultsOf(messages, k));
  }

  /** Behind a turn of `n` messages, the rest of the conversation stands on its own. */
  lemma {:induction false} SpeakerBehind(messages: seq<ChatMessage>, previous: Role, n: nat, k: nat)
    requires n + k <= |messages|
    ensures Speaker(messages, previous, n + k) == Speaker(messages[n..], Speaker(messages, previous, n), k)
  {
    if k > 0 {
      SpeakerBehind(messages, previous, n, k - 1);
      assert messages[n..][k - 1] == messages[n + k - 1];
    }
  }

  lemma AlternatesBehind(messages: seq<ChatMessage>, previous: Role, n: nat)
    requires n <= |messages|
    ensures Alternates(messages, previous)
       <==> (forall k: nat :: k < n ==> InTurn(messages, previous, k)) && Alternates(messages[n..], Speaker(messages, previous, n))
  {
    hide Speaker;
    var rest := messages[n..];
    forall k: nat | k < |rest|
      ensures InTurn(messages, previous, n + k) == InTurn(rest, Speaker(messages, previous, n), k)
    {
      SpeakerBehind(messages, previous, n, k);
    }
    if (forall k: nat :: k < n ==> InTurn(messages, previous, k)) && Alternates(rest, Speaker(messages, previous, n)) {
      forall k: nat | k < |messages|
        ensures InTurn(messages, previous, k)
      {
        if k >= n {
          assert InTurn(rest, Speaker(messages, previous, n), k - n);
        }
      }
    }
  }

  lemma ResultsBehind(messages: seq<ChatMessage>, n: nat, k: nat)
    requires n + k < |messages|
    ensures ResultsOf(messages[n..], k) == ResultsOf(messages, n + k)
  {
    hide Leading;
    SliceOfDrop(messages, n, k + 1, k + 1);
    var m := Leading(messages[n + k + 1..]);
    SliceOfDrop(messages, n, k + 1, k + 1 + m);
  }

  lemma AllRenderBehind(t: Template, messages: seq<ChatMessage>, n: nat)
    requires NonEmpty(t.markers) && n <= |messages|
    ensures AllRender(t, messages)
       <==> (forall k: nat :: k < n ==> Renders(t, messages, k)) && AllRender(t, messages[n..])
  {
    hide ExtractSpec, ResultsOf, ResultName;
    var rest := messages[n..];
    forall k: nat | k < |rest|
      ensures Renders(t, messages, n + k) == Renders(t, rest, k)
    {
      ResultsBehind(messages, n, k);
    }
    if (forall k: nat :: k < n ==> Renders(t, messages, k)) && AllRender(t, rest) {
      forall k: nat | k < |messages|
        ensures Renders(t, messages, k)
      {
        if k >= n {
          assert Renders(t, rest, k - n);
        }
      }
    }
  }

  lemma {:induction false} SpeakerOverTools(messages: seq<ChatMessage>, previous: Role, n: nat)
    requires messages != [] && messages[0].role != Tool && n < |messages|
    requires forall k :: 1 <= k <= n ==> messages[k].role == Tool
    ensures Speaker(messages, previous, n + 1) == messages[0].role
  {
    if n > 0 {
      SpeakerOverTools(messages, previous, n - 1);
    }
  }

  /** One assistant turn with its `n` results. */
  lemma AssistantTurnExactly(t: Template, messages: seq<ChatMessage>, previous: Role, n: nat)
    requires NonEmpty(t.markers) && messages != [] && messages[0].role == Assistant && previous != Assistant
    requires n == Leading(messages[1..])
    ensures var rest := messages[1 + n..];
            && (Turns(t, messages, previous).Ok? <==> Renders(t, messages, 0) && (rest == [] || Turns(t, rest, Assistant).Ok?))
            && (Alternates(messages, previous) <==> Alternates(rest, Assistant))
            && (AllRender(t, messages) <==> Renders(t, messages, 0) && AllRender(t, rest))
  {
    hide Turns, Leading, AssistantBody, AssistantHasContent, ExtractSpec, ResultName, Renders, Alternates, AllRender, Ascii;
    UnfoldAssistantTurn(t, messages, previous);
    BodyExactly(t, messages, 0);
    NoTurns(t, Assistant);
    assert forall k :: 1 <= k <= n ==> messages[k] == messages[1..][k - 1];
    SpeakerOverTools(messages, previous, n);
    AlternatesBehind(messages, previous, 1 + n);
    AllRenderBehind(t, messages, 1 + n);
    forall k: nat | 1 <= k < 1 + n
      ensures InTurn(messages, previous, k) && Renders(t, messages, k)
    {
      SpeakerOverTools(messages, previous, k - 1);
      ToolRenders(t, messages, k);
    }
    assert InTurn(messages, previous, 0);
  }

  lemma ToolRenders(t: Template, messages: seq<ChatMessage>, k: nat)
    requires NonEmpty(t.markers) && k < |messages| && messages[k].role != Assistant
    ensures Renders(t, messages, k)
  {
  }

  lemma UserTurnExactly(t: Template, messages: seq<ChatMessage>, previous: Role)
    requires NonEmpty(t.markers) && messages != [] && messages[0].role == User && previous != User
    ensures var rest := messages[1..];
            && (Turns(t, messages, previous).Ok? <==> Turns(t, rest, User).Ok?)
            && (Alternates(messages, previous) <==> Alternates(rest, User))
            && (AllRender(t, messages) <==> AllRender(t, rest))
  {
    hide Turns, Renders, Alternates, AllRender, UserText;
    UnfoldUserTurn(t, messages, previous);
    AlternatesBehind(messages, previous, 1);
    AllRenderBehind(t, messages, 1);
    ToolRenders(t, messages, 0);
    assert Speaker(messages, previous, 1) == User;
    assert InTurn(messages, previous, 0);
  }

  /** Main result: the turns of a conversation render exactly when the speakers alternate, every
      tool message answers the assistant, and every assistant message renders on its own. */
  lemma {:induction false} TurnsRenderExactly(t: Template, messages: seq<ChatMessage>, previous: Role)
    requires NonEmpty(t.markers) && (previous == Assistant && messages != [] ==> messages[0].role != Tool)
    ensures Turns(t, messages, previous).Ok? <==> Alternates(messages, previous) && AllRender(t, messages)
    decreases |messages|
  {
    hide Turns, Renders, Leading, AllRender;
    if messages == [] {
      NoTurns(t, previous);
      AllRenderNothing(t);
    } else if TurnError(messages[0], previous).Some? {
      StopAtError(t, messages, previous);
      assert !InTurn(messages, previous, 0);
    } else if messages[0].role == User {
      TurnsRenderExactly(t, messages[1..], User);
      UserTurnExactly(t, messages, previous);
    } else {
      var n := Leading(messages[1..]);
      assert n < |messages[1..]| ==> messages[1..][n] == messages[1 + n..][0];
      TurnsRenderExactly(t, messages[1 + n..], Assistant);
      AssistantTurnExactly(t, messages, previous, n);
      NoTurns(t, Assistant);
    }
  }

  lemma AllRenderNothing(t: Template)
    requires NonEmpty(t.markers)
    ensures AllRender(t, [])
  {
  }

  /** The message that the trailing tool messages answer, or the last one. */
  function Owner(messages: seq<ChatMessage>): (k: nat)
    requires messages != []
    ensures k < |messages|
  {
    if |messages| > 1 && messages[|messages| - 1].role == Tool then Owner(messages[..|messages| - 1]) else |messages| - 1
  }

  /** Whom a generation prompt finds at the end. */
  function Ending(t: Template, messages: seq<ChatMessage>, previous: Role): Role
    requires NonEmpty(t.markers)
  {
    if messages == [] then previous
    else
      var k := Owner(messages);
      if k < |messages| - 1 && !AssistantHasContent(t, messages[k]) then Tool else messages[k].role
  }

  lemma {:induction false} OwnerBehind(messages: seq<ChatMessage>, n: nat)
    requires n < |messages| && messages[n].role != Tool
    ensures Owner(messages) == n + Owner(messages[n..])
    decreases |messages|
  {
    if |messages| > n + 1 && messages[|messages| - 1].role == Tool {
      OwnerBehind(messages[..|messages| - 1], n);
      assert messages[n..][..|messages| - n - 1] == messages[..|messages| - 1][n..];
    }
  }

  lemma {:induction false} OwnerOfTools(messages: seq<ChatMessage>)
    requires messages != [] && forall k :: 1 <= k < |messages| ==> messages[k].role == Tool
    ensures Owner(messages) == 0
  {
    if |messages| > 1 {
      OwnerOfTools(messages[..|messages| - 1]);
    }
  }

  lemma EndingBehind(t: Template, messages: seq<ChatMessage>, previous: Role, n: nat)
    requires NonEmpty(t.markers) && n < |messages| && messages[n].role != Tool
    ensures Ending(t, messages, previous) == Ending(t, messages[n..], messages[n].role)
  {
    hide AssistantHasContent;
    OwnerBehind(messages, n);
  }

  /** Turns that render end with whoever spoke last, or open for the answer to tool results. */
  lemma {:induction false} TurnsEnding(t: Template, messages: seq<ChatMessage>, previous: Role)
    requires NonEmpty(t.markers) && Turns(t, messages, previous).Ok?
    ensures Turns(t, messages, previous).value.last == Ending(t, messages, previous)
    decreases |messages|
  {
    hide Turns, Leading, AssistantHasContent, AssistantBody, UserText, Ascii;
    if messages == [] {
      NoTurns(t, previous);
    } else if TurnError(messages[0], previous).Some? {
      StopAtError(t, messages, previous);
    } else if messages[0].role == User {
      UnfoldUserTurn(t, messages, previous);
      TurnsEnding(t, messages[1..], User);
      if |messages| > 1 {
        if TurnError(messages[1], User).Some? {
          StopAtError(t, messages[1..], User);
        }
        EndingBehind(t, messages, previous, 1);
      }
    } else {
      var n := Leading(messages[1..]);
      UnfoldAssistantTurn(t, messages, previous);
      assert forall k :: 1 <= k <= n ==> messages[k] == messages[1..][k - 1];
      if 1 + n == |messages| {
        NoTurns(t, Assistant);
        OwnerOfTools(messages);
      } else {
        assert messages[1 + n] == messages[1..][n];
        TurnsEnding(t, messages[1 + n..], Assistant);
        EndingBehind(t, messages, previous, 1 + n);
      }
    }
  }

  /** The tool definitions that the header shows. */
  ghost predicate ToolsFormat(t: Template, tools: seq<ToolDefinition>) {
    forall i :: 0 <= i < |tools| ==> t.formatTool(tools[i]).Ok?
  }

  /** Main result: a conversation renders exactly when its tools format, its speakers alternate, every
      assistant message renders on its own, and, for a generation prompt, the user or a tool ended it. */
  lemma RenderSucceedsExactly(t: Template, messages: seq<ChatMessage>, thinking: bool, addPrompt: bool, tools: seq<ToolDefinition>)
    requires NonEmpty(t.markers)
    ensures RenderSpec(t, messages, thinking, addPrompt, tools).Ok?
       <==> messages != [] && ToolsFormat(t, tools)
            && var c := Conversation(messages);
               && Alternates(c, NOBODY) && AllRender(t, c)
               && (addPrompt ==> Ending(t, c, NOBODY) == User || Ending(t, c, NOBODY) == Tool)
  {
    hide Turns, Alternates, AllRender, Ending, Ascii, TrimSpec, Joined;
    if messages != [] {
      JoinedExactly(t.formatTool, tools);
      var c := Conversation(messages);
      TurnsRenderExactly(t, c, NOBODY);
      if Turns(t, c, NOBODY).Ok? {
        TurnsEnding(t, c, NOBODY);
      }
    }
  }

  // ---------------------------------------------------------------- incremental rendering

  lemma {:induction false} LeadingExtends(a: seq<ChatMessage>, b: seq<ChatMessage>)
    requires a != [] && a[|a| - 1].role == User
    ensures Leading(a + b) == Leading(a) < |a|
  {
    if a[0].role == Tool {
      TailOfConcat(a, b);
      LeadingExtends(a[1..], b);
    } else {
      assert (a + b)[0] == a[0];
    }
  }

  function Follow(head: Result<Rendered>, tail: Result<Rendered>): Result<Rendered> {
    if head.Err? then head else Then(head.value.text, tail)
  }

  lemma FollowThen(a: Text, head: Result<Rendered>, tail: Result<Rendered>)
    ensures Follow(Then(a, head), tail) == Then(a, Follow(head, tail))
  {
    if head.Ok? {
      ThenThen(a, head.value.text, tail);
    }
  }

  lemma ExtendUserTurn(t: Template, messages: seq<ChatMessage>, more: seq<ChatMessage>, previous: Role)
    requires NonEmpty(t.markers) && messages != [] && messages[0].role == User
    requires TurnError(messages[0], previous).None?
    requires Turns(t, messages[1..] + more, User) == Follow(Turns(t, messages[1..], User), Turns(t, more, User))
    ensures Turns(t, messages + more, previous) == Follow(Turns(t, messages, previous), Turns(t, more, User))
  {
    hide Turns, UserText, Then, Follow, TurnError;
    TailOfConcat(messages, more);
    UnfoldUserTurn(t, messages, previous);
    UnfoldUserTurn(t, messages + more, previous);
    FollowThen(UserText(messages[0].content), Turns(t, messages[1..], User), Turns(t, more, User));
  }

  /** What follows an assistant turn follows its tail. */
  lemma FollowAssistantTurn(t: Template, m: ChatMessage, results: seq<ChatMessage>, tail: Result<Rendered>, next: Result<Rendered>)
    requires NonEmpty(t.markers)
    ensures Follow(AssistantTurn(t, m, results, false, tail), next) == AssistantTurn(t, m, results, false, Follow(tail, next))
  {
    hide AssistantBody, AssistantHasContent, Ascii;
    var body := AssistantBody(t, m, results);
    if body.Ok? {
      var end := if m.toolCalls != [] && results == [] then RESPONSE_OPEN else TURN_END;
      FollowThen(TURN + MODEL_NAME + body.value + end, tail, next);
    }
  }

  lemma ExtendAssistantTurn(t: Template, messages: seq<ChatMessage>, more: seq<ChatMessage>, previous: Role, n: nat)
    requires NonEmpty(t.markers) && messages != [] && messages[0].role == Assistant
    requires TurnError(messages[0], previous).None?
    requires n == Leading(messages[1..]) == Leading(messages[1..] + more) && 1 + n < |messages|
    requires Turns(t, messages[1 + n..] + more, Assistant)
          == Follow(Turns(t, messages[1 + n..], Assistant), Turns(t, more, User))
    ensures Turns(t, messages + more, previous) == Follow(Turns(t, messages, previous), Turns(t, more, User))
  {
    hide Turns, AssistantTurn, Leading, Follow, TurnError;
    TailOfConcat(messages, more);
    DropOfConcat(messages, more, 1 + n);
    assert (messages + more)[1..1 + n] == messages[1..1 + n];
    UnfoldAssistantTurn(t, messages, previous);
    UnfoldAssistantTurn(t, messages + more, previous);
    FollowAssistantTurn(t, messages[0], messages[1..1 + n], Turns(t, messages[1 + n..], Assistant), Turns(t, more, User));
  }

  /** Turns behind a final user turn are rendered as if the conversation started there. */
  lemma {:induction false} TurnsExtend(t: Template, messages: seq<ChatMessage>, more: seq<ChatMessage>, previous: Role)
    requires NonEmpty(t.markers) && messages != [] && messages[|messages| - 1].role == User
    ensures Turns(t, messages + more, previous) == Follow(Turns(t, messages, previous), Turns(t, more, User))
    ensures Turns(t, messages, previous).Ok? ==> Turns(t, messages, previous).value.last == User
    decreases |messages|
  {
    hide Turns, Leading, Follow;
    var m, rest := messages[0], messages[1..];
    if TurnError(m, previous).Some? {
      BadTurnStops(t, messages, more, previous);
    } else if m.role == User {
      if rest == [] {
        LastUserTurn(t, more);
      } else {
        TurnsExtend(t, rest, more, User);
      }
      ExtendUserTurn(t, messages, more, previous);
      LastOfUserTurn(t, messages, previous);
    } else {
      LeadingExtends(rest, more);
      var n := Leading(rest);
      TurnsExtend(t, messages[1 + n..], more, Assistant);
      ExtendAssistantTurn(t, messages, more, previous, n);
      LastOfAssistantTurn(t, messages, previous);
    }
  }

  lemma LastOfUserTurn(t: Template, messages: seq<ChatMessage>, previous: Role)
    requires NonEmpty(t.markers) && messages != [] && messages[0].role == User && TurnError(messages[0], previous).None?
    ensures Turns(t, messages, previous).Ok? ==>
      Turns(t, messages[1..], User).Ok? && Turns(t, messages, previous).value.last == Turns(t, messages[1..], User).value.last
    ensures messages[1..] == [] ==> Turns(t, messages[1..], User) == Ok(Rendered([], User))
  {
    hide UserText;
    UnfoldUserTurn(t, messages, previous);
  }

  lemma LastOfAssistantTurn(t: Template, messages: seq<ChatMessage>, previous: Role)
    requires NonEmpty(t.markers) && messages != [] && messages[0].role == Assistant && TurnError(messages[0], previous).None?
    ensures var rest := messages[1 + Leading(messages[1..])..];
            rest != [] && Turns(t, messages, previous).Ok? ==>
              Turns(t, rest, Assistant).Ok? && Turns(t, messages, previous).value.last == Turns(t, rest, Assistant).value.last
  {
    hide Turns, Leading, AssistantBody, AssistantHasContent, Ascii;
    UnfoldAssistantTurn(t, messages, previous);
  }

  lemma BadTurnStops(t: Template, messages: seq<ChatMessage>, more: seq<ChatMessage>, previous: Role)
    requires NonEmpty(t.markers) && messages != [] && TurnError(messages[0], previous).Some?
    ensures Turns(t, messages + more, previous) == Follow(Turns(t, messages, previous), Turns(t, more, User))
    ensures Turns(t, messages, previous).Err?
  {
    TailOfConcat(messages, more);
  }

  lemma LastUserTurn(t: Template, more: seq<ChatMessage>)
    requires NonEmpty(t.markers)
    ensures Turns(t, [] + more, User) == Follow(Turns(t, [], User), Turns(t, more, User))
  {
    EmptyUnits(more);
  }

  /** A valid conversation ending in a user turn, as the resident session first renders it. */
  ghost predicate EndsWithUser(t: Template, messages: seq<ChatMessage>, thinking: bool, tools: seq<ToolDefinition>)
    requires NonEmpty(t.markers)
  {
    messages != [] && messages[|messages| - 1].role == User && RenderSpec(t, messages, thinking, true, tools).Ok?
  }

  /** Rendering the longer conversation is rendering the shorter one up to its generation
      prompt, and going on with the added turns. */
  lemma RenderExtends(t: Template, messages: seq<ChatMessage>, more: seq<ChatMessage>, thinking: bool, tools: seq<ToolDefinition>)
    requires NonEmpty(t.markers) && EndsWithUser(t, messages, thinking, tools)
    ensures Turns(t, Conversation(messages), NOBODY).Ok?
    ensures var head := Turns(t, Conversation(messages), NOBODY).value.text;
            var lead := Header(t, messages, thinking, tools).value;
            && RenderSpec(t, messages, thinking, true, tools)
               == Ok(BOS + lead + head + (TURN + MODEL_NAME + (if thinking then [] else CLOSED_THOUGHT)))
            && Header(t, messages + more, thinking, tools) == Ok(lead)
            && Turns(t, Conversation(messages + more), NOBODY) == Then(head, Turns(t, more, User))
  {
    hide Ascii, TrimSpec, Turns, Joined;
    var c := Conversation(messages);
    assert (messages + more)[0] == messages[0];
    assert c != [] && c[|c| - 1] == messages[|messages| - 1];
    TailOfConcat(messages, more);
    assert Conversation(messages + more) == c + more;
    TurnsExtend(t, c, more, NOBODY);
  }

  /** What does not render up to a user turn does not render with more behind it either. */
  lemma FailureStays(t: Template, messages: seq<ChatMessage>, more: seq<ChatMessage>, thinking: bool, tools: seq<ToolDefinition>)
    requires NonEmpty(t.markers) && messages != [] && messages[|messages| - 1].role == User
    requires RenderSpec(t, messages, thinking, true, tools).Err?
    ensures RenderSpec(t, messages + more, thinking, true, tools).Err?
  {
    hide Ascii, TrimSpec, Turns, Joined;
    var c := Conversation(messages);
    assert (messages + more)[0] == messages[0];
    assert c != [] && c[|c| - 1] == messages[|messages| - 1];
    TailOfConcat(messages, more);
    assert Conversation(messages + more) == c + more;
    TurnsExtend(t, c, more, NOBODY);
  }

  /** The reply as a message: no tool calls. */
  function Reply(content: Text): ChatMessage {
    ChatMessage(Assistant, content, [], [], [])
  }

  function UserTurn(content: Text): ChatMessage {
    ChatMessage(User, content, [], [], [])
  }

  /** A reply and the next user message behind a user turn. */
  lemma ReplyAndUserTurns(t: Template, a: Text, u: Text)
    requires NonEmpty(t.markers)
    ensures var content := AssistantContent(t, Reply(a));
            Turns(t, [Reply(a), UserTurn(u)], User)
            == if content.Err? then Err(content.code)
               else Ok(Rendered((TURN + MODEL_NAME + content.value + TURN_END) + UserText(u), User))
  {
    hide Ascii, UserText, ExtractSpec, Turns, AssistantTurn, AssistantContent;
    var both := [Reply(a), UserTurn(u)];
    assert both[1..] == [UserTurn(u)] && both[1..1] == [] && [UserTurn(u)][1..] == [];
    assert Leading(both[1..]) == 0;
    UnfoldAssistantTurn(t, both, User);
    UnfoldUserTurn(t, both[1..], Assistant);
    NoTurns(t, User);
    EmptyUnits(UserText(u));
    ReplyTurn(t, a, Turns(t, both[1..], Assistant));
  }

  lemma ReplyTurn(t: Template, a: Text, tail: Result<Rendered>)
    requires NonEmpty(t.markers)
    ensures var content := AssistantContent(t, Reply(a));
            AssistantTurn(t, Reply(a), [], false, tail)
            == if content.Err? then Err(content.code) else Then(TURN + MODEL_NAME + content.value + TURN_END, tail)
  {
    hide Ascii, AssistantContent, Then;
    var content := AssistantContent(t, Reply(a));
    if content.Ok? {
      EmptyUnits(content.value);
    }
  }

  /** The reply as rendering inserts it: unchanged when empty, else extracted. */
  ghost predicate Inserts(t: Template, committed: Text, raw: Text)
    requires NonEmpty(t.markers)
  {
    AssistantContent(t, Reply(committed)) == Ok(raw)
  }

  lemma ReplyIsInserted(t: Template, a: Text)
    requires NonEmpty(t.markers)
    ensures Inserts(t, a, a) <==> a == [] || ExtractSpec(t.markers, a) == Ok(a)
  {
  }

  /** Main result: behind any valid conversation ending in a user turn and with thinking on, the
      generated text `raw` followed by the continuation is the text of a fresh rendering in which
      the reply was committed as `committed`, exactly when rendering turns `committed` into `raw`. */
  lemma ReplyRendersExactly(
    t: Template, messages: seq<ChatMessage>, committed: Text, raw: Text, u: Text, tools: seq<ToolDefinition>)
    requires NonEmpty(t.markers) && EndsWithUser(t, messages, true, tools)
    ensures var base := RenderSpec(t, messages, true, true, tools).value;
            RenderSpec(t, messages + [Reply(committed), UserTurn(u)], true, true, tools) == Ok(base + raw + Continuation(u, true))
            <==> Inserts(t, committed, raw)
  {
    hide TrimSpec, AssistantContent, Turns, Header, Conversation, Ascii;
    RenderedReply(t, messages, committed, u, true, tools);
    var content := AssistantContent(t, Reply(committed));
    if content.Ok? {
      var head := BOS + Header(t, messages, true, tools).value + Turns(t, Conversation(messages), NOBODY).value.text;
      IncrementalTexts(head, content.value, raw, TrimSpec(u), true);
    }
  }

  /** Fresh rendering of the longer conversation, piece by piece. */
  lemma RenderedReply(t: Template, messages: seq<ChatMessage>, a: Text, u: Text, thinking: bool, tools: seq<ToolDefinition>)
    requires NonEmpty(t.markers) && EndsWithUser(t, messages, thinking, tools)
    ensures Header(t, messages, thinking, tools).Ok? && Turns(t, Conversation(messages), NOBODY).Ok?
    ensures var head := BOS + Header(t, messages, thinking, tools).value + Turns(t, Conversation(messages), NOBODY).value.text;
            var prompt := TURN + MODEL_NAME + (if thinking then [] else CLOSED_THOUGHT);
            var content := AssistantContent(t, Reply(a));
            && RenderSpec(t, messages, thinking, true, tools) == Ok(head + prompt)
            && RenderSpec(t, messages + [Reply(a), UserTurn(u)], thinking, true, tools)
               == if content.Err? then Err(content.code)
                  else Ok(head + ((TURN + MODEL_NAME + content.value + TURN_END) + UserText(u)) + prompt)
  {
    hide TrimSpec, AssistantContent, Turns, Header, Conversation, Ascii, UserText;
    RenderExtends(t, messages, [Reply(a), UserTurn(u)], thinking, tools);
    ReplyAndUserTurns(t, a, u);
    var content := AssistantContent(t, Reply(a));
    if content.Ok? {
      Assoc(BOS + Header(t, messages, thinking, tools).value, Turns(t, Conversation(messages), NOBODY).value.text,
            (TURN + MODEL_NAME + content.value + TURN_END) + UserText(u));
    }
  }

  /** Main result: a resident conversation that appends the reply and the continuation holds exactly
      the text a fresh rendering would produce, if and only if thinking is on and extraction leaves
      the reply alone. */
  lemma RenderIsIncremental(
    t: Template, messages: seq<ChatMessage>, a: Text, u: Text, thinking: bool, tools: seq<ToolDefinition>)
    requires NonEmpty(t.markers) && EndsWithUser(t, messages, thinking, tools)
    ensures var base := RenderSpec(t, messages, thinking, true, tools).value;
            RenderSpec(t, messages + [Reply(a), UserTurn(u)], thinking, true, tools)
            == Ok(base + a + Continuation(u, thinking))
            <==> thinking && (a == [] || ExtractSpec(t.markers, a) == Ok(a))
  {
    hide TrimSpec, Turns, Header, Conversation, Ascii, ExtractSpec;
    RenderedReply(t, messages, a, u, thinking, tools);
    ReplyIsInserted(t, a);
    ExtractShortens(t.markers, a);
    var content := AssistantContent(t, Reply(a));
    if content.Ok? {
      var head := BOS + Header(t, messages, thinking, tools).value + Turns(t, Conversation(messages), NOBODY).value.text;
      IncrementalTexts(head, content.value, a, TrimSpec(u), thinking);
    }
  }

  /** The texts behind `RenderIsIncremental`: `content` is what rendering inserts, `raw` what was
      generated. */
  lemma IncrementalTexts(head: Text, content: Text, raw: Text, u: Text, thinking: bool)
    requires thinking || |content| <= |raw|
    ensures var prompt := TURN + MODEL_NAME + (if thinking then [] else CLOSED_THOUGHT);
            var anew := head + ((TURN + MODEL_NAME + content + TURN_END) + (TURN + USER_NAME + u + TURN_END)) + prompt;
            var resident := (head + prompt) + raw
              + (TURN_END + TURN + USER_NAME + u + TURN_END + TURN + MODEL_NAME + (if thinking then [] else CLOSED_THOUGHT));
            anew == resident <==> thinking && content == raw
  {
    hide Ascii;
    var prompt := TURN + MODEL_NAME + (if thinking then [] else CLOSED_THOUGHT);
    var user := TURN + USER_NAME + u + TURN_END;
    if thinking {
      EmptyUnits(TURN + MODEL_NAME);
      RegroupReply(head, TURN + MODEL_NAME, content, TURN_END, user, TURN + MODEL_NAME);
      RegroupContinuation(TURN_END, TURN, USER_NAME, u, TURN_END, TURN, MODEL_NAME, []);
      EmptyUnits(TURN_END + TURN + USER_NAME + u + TURN_END + TURN + MODEL_NAME);
      Cancel(head + (TURN + MODEL_NAME), content, raw, TURN_END + user + (TURN + MODEL_NAME));
    } else {
      assert |CLOSED_THOUGHT| > 0;
    }
  }

  lemma RegroupReply(base: Text, open: Text, a: Text, end: Text, user: Text, last: Text)
    ensures base + ((open + a + end) + user) + last == (base + open) + a + (end + user + last)
  {
  }

  lemma Cancel(head: Text, a: Text, b: Text, tail: Text)
    ensures head + a + tail == head + b + tail <==> a == b
  {
    var x, y := head + a + tail, head + b + tail;
    if x == y {
      assert |a| == |b|;
      forall i | 0 <= i < |a|
        ensures a[i] == b[i]
      {
        assert x[|head| + i] == a[i] && y[|head| + i] == b[i];
      }
    }
  }

  lemma RegroupContinuation(a: Text, b: Text, c: Text, d: Text, e: Text, f: Text, g: Text, h: Text)
    ensures a + b + c + d + e + f + g + h == a + (b + c + d + e) + (f + g + h)
  {
  }

  /** A content-free assistant message that only calls tools. */
  function Calls(calls: seq<ToolCall>): ChatMessage {
    ChatMessage(Assistant, [], calls, [], [])
  }

  /** The results as the continuation receives them: with resolved names. */
  function Named(calls: seq<ToolCall>, results: seq<ChatMessage>): seq<ToolResult> {
    if results == [] then []
    else [ToolResult(ResultName(calls, results[0]), results[0].content)] + Named(calls, results[1..])
  }

  lemma {:induction false} NamedResponses(calls: seq<ToolCall>, results: seq<ChatMessage>)
    ensures Joined(FormatNamed, Named(calls, results)) == Responses(calls, results)
    ensures |Named(calls, results)| == |results|
  {
    hide FormatToolResponse;
    if results != [] {
      NamedResponses(calls, results[1..]);
      var head := ToolResult(ResultName(calls, results[0]), results[0].content);
      assert ([head] + Named(calls, results[1..]))[1..] == Named(calls, results[1..]);
    }
  }

  lemma {:induction false} AllLead(results: seq<ChatMessage>)
    requires forall i :: 0 <= i < |results| ==> results[i].role == Tool
    ensures Leading(results) == |results|
  {
    if results != [] {
      AllLead(results[1..]);
    }
  }

  lemma CallTurns(t: Template, calls: seq<ToolCall>, results: seq<ChatMessage>)
    requires NonEmpty(t.markers) && results != [] && forall i :: 0 <= i < |results| ==> results[i].role == Tool
    requires Joined(t.formatCall, calls).Ok? && Responses(calls, results).Ok?
    ensures Turns(t, [Calls(calls)] + results, User)
         == Ok(Rendered(TURN + MODEL_NAME + (Joined(t.formatCall, calls).value + Responses(calls, results).value), Tool))
  {
    hide Ascii, Joined, Responses, Turns, AssistantTurn;
    var both := [Calls(calls)] + results;
    assert both[1..] == results && both[0] == Calls(calls);
    AllLead(results);
    assert both[1..1 + |results|] == results && both[1 + |results|..] == [];
    UnfoldAssistantTurn(t, both, User);
    AssistantTurnOf(t, Calls(calls), results, true, Turns(t, [], Assistant), Joined(t.formatCall, calls).value, [], Responses(calls, results).value);
    EmptyUnits(Responses(calls, results).value);
  }

  lemma IncrementalCallTexts(head: Text, body: Text, responses: Text, thinking: bool)
    ensures var prompt := TURN + MODEL_NAME + (if thinking then [] else CLOSED_THOUGHT);
            var open := if thinking then OPEN_THOUGHT else [];
            (head + (TURN + MODEL_NAME + (body + responses)) + open == (head + prompt) + body + (responses + open)) <==> thinking
  {
    hide Ascii;
    var open := if thinking then OPEN_THOUGHT else [];
    if thinking {
      EmptyUnits(TURN + MODEL_NAME);
      RegroupCalls(head, TURN + MODEL_NAME, body, responses, open);
    } else {
      assert |CLOSED_THOUGHT| > 0;
    }
  }

  lemma RegroupCalls(head: Text, model: Text, body: Text, responses: Text, open: Text)
    ensures head + (model + (body + responses)) + open == (head + model) + body + (responses + open)
  {
  }

  /** The same for tool use: appending a content-free calling message and its results renders as
      the calls followed by the tool continuation, exactly when thinking is enabled. */
  lemma ToolRenderIsIncremental(
    t: Template, messages: seq<ChatMessage>, calls: seq<ToolCall>, results: seq<ChatMessage>,
    thinking: bool, tools: seq<ToolDefinition>)
    requires NonEmpty(t.markers) && EndsWithUser(t, messages, thinking, tools)
    requires results != [] && forall i :: 0 <= i < |results| ==> results[i].role == Tool
    requires Joined(t.formatCall, calls).Ok? && Responses(calls, results).Ok?
    ensures var base := RenderSpec(t, messages, thinking, true, tools).value;
            var next := ToolContinuation(Named(calls, results), thinking);
            && next.Ok?
            && ((RenderSpec(t, messages + ([Calls(calls)] + results), thinking, true, tools)
                 == Ok(base + Joined(t.formatCall, calls).value + next.value)) <==> thinking)
  {
    hide TrimSpec, ExtractSpec, Turns, Header, Conversation, Ascii, Joined, Responses;
    var more := [Calls(calls)] + results;
    RenderExtends(t, messages, more, thinking, tools);
    CallTurns(t, calls, results);
    NamedResponses(calls, results);
    var lead := BOS + Header(t, messages, thinking, tools).value;
    var turns := Turns(t, Conversation(messages), NOBODY).value.text;
    var body, responses := Joined(t.formatCall, calls).value, Responses(calls, results).value;
    IncrementalCallTexts(lead + turns, body, responses, thinking);
    Assoc(lead, turns, TURN + MODEL_NAME + (body + responses));
    EmptyUnits(lead + turns + (TURN + MODEL_NAME + (body + responses)));
  }

  /** An assistant message with its results at the end of a conversation. */
  lemma AnsweredTurn(t: Template, m: ChatMessage, results: seq<ChatMessage>)
    requires NonEmpty(t.markers) && m.role == Assistant && Responses(m.toolCalls, results).Ok?
    requires results != [] && forall i :: 0 <= i < |results| ==> results[i].role == Tool
    ensures var turns := Turns(t, [m] + results, User);
            if Joined(t.formatCall, m.toolCalls).Err? || AssistantContent(t, m).Err? then turns.Err?
            else if AssistantContent(t, m).value != [] then turns.Ok? && turns.value.last == Assistant
            else turns == Ok(Rendered(TURN + MODEL_NAME + (Joined(t.formatCall, m.toolCalls).value + Responses(m.toolCalls, results).value), Tool))
  {
    hide Ascii, Joined, Responses, Turns, AssistantTurn, AssistantContent;
    var both := [m] + results;
    assert both[1..] == results && both[0] == m;
    AllLead(results);
    assert both[1..1 + |results|] == results && both[1 + |results|..] == [];
    UnfoldAssistantTurn(t, both, User);
    NoTurns(t, Assistant);
    if Joined(t.formatCall, m.toolCalls).Ok? && AssistantContent(t, m).Ok? {
      var calls, content, responses := Joined(t.formatCall, m.toolCalls).value, AssistantContent(t, m).value, Responses(m.toolCalls, results).value;
      AssistantTurnOf(t, m, results, true, Turns(t, [], Assistant), calls, content, responses);
      EmptyUnits(responses);
    } else {
      BodyFails(t, m, results);
      AssistantFails(t, m, results, true, Turns(t, [], Assistant));
    }
  }

  lemma BodyFails(t: Template, m: ChatMessage, results: seq<ChatMessage>)
    requires NonEmpty(t.markers) && (Joined(t.formatCall, m.toolCalls).Err? || AssistantContent(t, m).Err?)
    ensures AssistantBody(t, m, results).Err?
  {
    hide Joined, Responses, AssistantContent;
  }

  /** Behind any valid conversation ending in a user turn and with thinking on, the generated text
      `raw` followed by the tool continuation is the text of a fresh rendering of the reply and its
      results, exactly when the reply has no content and `raw` is the text of its calls. */
  lemma ToolResultsRenderExactly(
    t: Template, messages: seq<ChatMessage>, m: ChatMessage, results: seq<ChatMessage>, raw: Text, tools: seq<ToolDefinition>)
    requires NonEmpty(t.markers) && EndsWithUser(t, messages, true, tools) && m.role == Assistant
    requires results != [] && forall i :: 0 <= i < |results| ==> results[i].role == Tool
    requires Responses(m.toolCalls, results).Ok?
    ensures var base, next := RenderSpec(t, messages, true, true, tools).value, ToolContinuation(Named(m.toolCalls, results), true);
            && next.Ok?
            && (RenderSpec(t, messages + ([m] + results), true, true, tools) == Ok(base + raw + next.value)
                <==> AssistantContent(t, m) == Ok([]) && Joined(t.formatCall, m.toolCalls) == Ok(raw))
  {
    hide *;
    BaseIsFront(t, messages, tools);
    FreshWithResults(t, messages, m, results, tools);
    ContinuationOfResults(m.toolCalls, results);
    if Joined(t.formatCall, m.toolCalls).Ok? {
      ToolTexts(Front(t, messages, tools), Joined(t.formatCall, m.toolCalls).value, Responses(m.toolCalls, results).value, raw);
    }
  }

  /** The fresh rendering of a reply and its results. */
  lemma FreshWithResults(t: Template, messages: seq<ChatMessage>, m: ChatMessage, results: seq<ChatMessage>, tools: seq<ToolDefinition>)
    requires NonEmpty(t.markers) && EndsWithUser(t, messages, true, tools) && m.role == Assistant
    requires results != [] && forall i :: 0 <= i < |results| ==> results[i].role == Tool
    requires Responses(m.toolCalls, results).Ok?
    ensures var calls, anew := Joined(t.formatCall, m.toolCalls), RenderSpec(t, messages + ([m] + results), true, true, tools);
            if calls.Err? || AssistantContent(t, m) != Ok([]) then anew.Err?
            else
              var text := TURN + MODEL_NAME + (calls.value + Responses(m.toolCalls, results).value);
              anew == Ok(Front(t, messages, tools) + text + OPEN_THOUGHT)
  {
    hide RenderSpec, Turns, Joined, Responses, AssistantContent, Front, Ascii, EndsWithUser, GenerationPrompt;
    RenderedWith(t, messages, [m] + results, tools);
    AnsweredTurn(t, m, results);
    AfterToolsOnly();
  }

  lemma ContinuationOfResults(calls: seq<ToolCall>, results: seq<ChatMessage>)
    requires results != [] && Responses(calls, results).Ok?
    ensures ToolContinuation(Named(calls, results), true) == Ok(Responses(calls, results).value + OPEN_THOUGHT)
  {
    hide Responses, Ascii;
    NamedResponses(calls, results);
  }

  /** A generation prompt with thinking on, behind tool results or an assistant message. */
  lemma AfterToolsOnly()
    ensures GenerationPrompt(Tool, true) == Ok(OPEN_THOUGHT) && GenerationPrompt(Assistant, true).Err?
  {
  }

  /** The rendering of a valid conversation in front of its generation prompt. */
  function Front(t: Template, messages: seq<ChatMessage>, tools: seq<ToolDefinition>): Text
    requires NonEmpty(t.markers) && messages != []
  {
    var header, turns := Header(t, messages, true, tools), Turns(t, Conversation(messages), NOBODY);
    BOS + (if header.Ok? then header.value else []) + (if turns.Ok? then turns.value.text else [])
  }

  lemma BaseIsFront(t: Template, messages: seq<ChatMessage>, tools: seq<ToolDefinition>)
    requires NonEmpty(t.markers) && EndsWithUser(t, messages, true, tools)
    ensures messages != [] && RenderSpec(t, messages, true, true, tools) == Ok(Front(t, messages, tools) + (TURN + MODEL_NAME + []))
  {
    hide RenderSpec, Turns, Ascii, Front, GenerationPrompt;
    RenderedWith(t, messages, [], tools);
  }

  lemma RenderedWith(t: Template, messages: seq<ChatMessage>, more: seq<ChatMessage>, tools: seq<ToolDefinition>)
    requires NonEmpty(t.markers) && EndsWithUser(t, messages, true, tools)
    ensures RenderSpec(t, messages, true, true, tools) == Ok(Front(t, messages, tools) + (TURN + MODEL_NAME + []))
    ensures var turns := Turns(t, more, User);
            RenderSpec(t, messages + more, true, true, tools)
            == if turns.Err? then Err(turns.code)
               else if GenerationPrompt(turns.value.last, true).Err? then Err(GenerationPrompt(turns.value.last, true).code)
               else Ok(Front(t, messages, tools) + turns.value.text + GenerationPrompt(turns.value.last, true).value)
  {
    hide TrimSpec, Turns, Header, Conversation, Ascii;
    RenderExtends(t, messages, more, true, tools);
    var turns := Turns(t, more, User);
    if turns.Ok? {
      Assoc(BOS + Header(t, messages, true, tools).value, Turns(t, Conversation(messages), NOBODY).value.text, turns.value.text);
    }
  }

  lemma ToolTexts(head: Text, calls: Text, responses: Text, raw: Text)
    ensures head + (TURN + MODEL_NAME + (calls + responses)) + OPEN_THOUGHT
         == (head + (TURN + MODEL_NAME + [])) + raw + (responses + OPEN_THOUGHT)
       <==> calls == raw
  {
    hide Ascii;
    var model := TURN + MODEL_NAME;
    EmptyUnits(model);
    RegroupCalls(head, model, calls, responses, OPEN_THOUGHT);
    Cancel(head + model, calls, raw, responses + OPEN_THOUGHT);
  }

  lemma {:induction false} LeadingBefore(results: seq<ChatMessage>, tail: seq<ChatMessage>)
    requires forall i :: 0 <= i < |results| ==> results[i].role == Tool
    requires tail != [] && tail[0].role != Tool
    ensures Leading(results + tail) == |results|
  {
    if results == [] {
      EmptyUnits(tail);
    } else {
      TailOfConcat(results, tail);
      LeadingBefore(results[1..], tail);
    }
  }

  lemma SecondReplyFails(t: Template, call: ChatMessage, results: seq<ChatMessage>, tail: seq<ChatMessage>)
    requires NonEmpty(t.markers) && call.role == Assistant
    requires forall i :: 0 <= i < |results| ==> results[i].role == Tool
    requires tail != [] && tail[0].role == Assistant
    ensures Turns(t, [call] + (results + tail), User).Err?
  {
    hide AssistantTurn, Leading, Turns;
    var both := [call] + (results + tail);
    assert both[0] == call && both[1..] == results + tail;
    LeadingBefore(results, tail);
    assert both[1 + |results|..] == tail;
    StopAtError(t, tail, Assistant);
    UnfoldAssistantTurn(t, both, User);
    FailedTail(t, call, both[1..1 + |results|], Turns(t, tail, Assistant));
  }

  lemma FailedTail(t: Template, m: ChatMessage, results: seq<ChatMessage>, tail: Result<Rendered>)
    requires NonEmpty(t.markers) && tail.Err?
    ensures AssistantTurn(t, m, results, false, tail).Err?
  {
    hide AssistantBody, AssistantHasContent, Ascii;
  }

  /** A conversation that goes on after tool results can be continued but never rendered afresh:
      the reply to the results counts as a second assistant turn in a row. */
  lemma ReplyAfterToolsIsRefused(
    t: Template, messages: seq<ChatMessage>, call: ChatMessage, results: seq<ChatMessage>, tail: seq<ChatMessage>,
    thinking: bool, addPrompt: bool, tools: seq<ToolDefinition>)
    requires NonEmpty(t.markers) && EndsWithUser(t, messages, thinking, tools)
    requires call.role == Assistant && forall i :: 0 <= i < |results| ==> results[i].role == Tool
    requires tail != [] && tail[0].role == Assistant
    ensures RenderSpec(t, messages + ([call] + (results + tail)), thinking, addPrompt, tools).Err?
  {
    hide Turns, Header, Conversation, Ascii;
    RenderExtends(t, messages, [call] + (results + tail), thinking, tools);
    SecondReplyFails(t, call, results, tail);
  }
}
