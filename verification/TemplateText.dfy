/** The text of a rendered conversation, written out. */
module TemplateText {
  import opened Wrappers
  import opened Seqs
  import opened Text
  import opened ResponseContent
  import opened ChatTemplate

  /** A tool message and the name of the tool it answers for. */
  datatype Answer = Answer(message: ChatMessage, name: Text)

  /** A user turn, the reply to it with its calls, and the answers to those. */
  datatype Exchange = Exchange(user: Text, reply: Text, calls: seq<ToolCall>, answers: seq<Answer>)

  /** A conversation ends with a user turn, or with answers that the model is to go on from. */
  datatype Ending = UserTurn(user: Text) | OpenAnswers(exchange: Exchange)

  function Said(role: Role, content: Text): ChatMessage {
    ChatMessage(role, content, [], [], [])
  }

  function Replied(e: Exchange): ChatMessage {
    ChatMessage(Assistant, e.reply, e.calls, [], [])
  }

  function Sent(answers: seq<Answer>): (messages: seq<ChatMessage>)
    ensures |messages| == |answers|
  {
    if answers == [] then [] else [answers[0].message] + Sent(answers[1..])
  }

  /** The messages of a conversation. */
  function Dialogue(exchanges: seq<Exchange>, ending: Ending): seq<ChatMessage> {
    if exchanges == [] then
      match ending
      case UserTurn(user) => [Said(User, user)]
      case OpenAnswers(e) => [Said(User, e.user), Replied(e)] + Sent(e.answers)
    else
      [Said(User, exchanges[0].user), Replied(exchanges[0])] + (Sent(exchanges[0].answers) + Dialogue(exchanges[1..], ending))
  }

  /** What is shown of a reply. */
  function Shown(t: Template, reply: Text): Result<Text>
    requires NonEmpty(t.markers)
  {
    if reply == [] then Ok([]) else ExtractSpec(t.markers, reply)
  }

  ghost predicate AllFormat<T(!new)>(format: T -> Result<Text>, items: seq<T>) {
    forall i :: 0 <= i < |items| ==> format(items[i]).Ok?
  }

  /** Formatted items, one after the other. */
  ghost function Formatted<T(!new)>(format: T -> Result<Text>, items: seq<T>): Text
    requires AllFormat(format, items)
  {
    if items == [] then [] else Formatted(format, items[..|items| - 1]) + format(items[|items| - 1]).value
  }

  /** An answer names its tool, or answers the first call with its ID, which does. */
  ghost predicate Names(calls: seq<ToolCall>, a: Answer) {
    && a.message.role == Tool && a.name != []
    && (a.message.toolName == a.name
        || (a.message.toolName == []
            && exists k: nat :: k < |calls| && calls[k].id == a.message.toolCallId && calls[k].name == a.name
                 && forall j: nat :: j < k ==> calls[j].id != a.message.toolCallId))
  }

  /** Calls format, the reply extracts, and the answers find their tools. */
  ghost predicate Writable(t: Template, e: Exchange)
    requires NonEmpty(t.markers)
  {
    && AllFormat(t.formatCall, e.calls) && Shown(t, e.reply).Ok?
    && forall i :: 0 <= i < |e.answers| ==> Names(e.calls, e.answers[i])
  }

  ghost predicate AllWritable(t: Template, exchanges: seq<Exchange>)
    requires NonEmpty(t.markers)
  {
    forall i :: 0 <= i < |exchanges| ==> Writable(t, exchanges[i])
  }

  /** Nothing is shown of the reply of an open end. */
  ghost predicate Ends(t: Template, ending: Ending)
    requires NonEmpty(t.markers)
  {
    ending.OpenAnswers? ==>
      Writable(t, ending.exchange) && ending.exchange.answers != [] && Shown(t, ending.exchange.reply) == Ok([])
  }

  function UserSays(text: Text): Text {
    Ascii("<|turn>user\n") + TrimSpec(text) + Ascii("<turn|>\n")
  }

  /** The text of tool results, in order. */
  function ResultTexts(results: seq<ToolResult>): Text {
    if results == [] then []
    else
      ResultTexts(results[..|results| - 1])
      + (Ascii("<|tool_response>response:") + results[|results| - 1].name + Ascii("{value:<|\"|>") + results[|results| - 1].output
         + Ascii("<|\"|>}<tool_response|>"))
  }

  function Resolved(answers: seq<Answer>): (results: seq<ToolResult>) {
    if answers == [] then [] else [ToolResult(answers[0].name, answers[0].message.content)] + Resolved(answers[1..])
  }

  /** The calls, what is shown, and the answers. */
  ghost function ModelSays(t: Template, e: Exchange): Text
    requires NonEmpty(t.markers) && Writable(t, e)
  {
    Ascii("<|turn>model\n") + (Formatted(t.formatCall, e.calls) + (Shown(t, e.reply).value + ResultTexts(Resolved(e.answers))))
  }

  /** A turn with calls is left open for their answers. */
  ghost function Closing(e: Exchange): Text {
    if e.calls != [] && e.answers == [] then Ascii("<|tool_response>") else Ascii("<turn|>\n")
  }

  /** The text of the turns. */
  ghost function Script(t: Template, exchanges: seq<Exchange>, ending: Ending): Text
    requires NonEmpty(t.markers) && AllWritable(t, exchanges) && Ends(t, ending)
  {
    if exchanges == [] then
      match ending
      case UserTurn(user) => UserSays(user)
      case OpenAnswers(e) => UserSays(e.user) + ModelSays(t, e)
    else
      UserSays(exchanges[0].user) + ((ModelSays(t, exchanges[0]) + Closing(exchanges[0])) + Script(t, exchanges[1..], ending))
  }

  lemma TurnTexts()
    ensures TURN + USER_NAME == Ascii("<|turn>user\n") && TURN + MODEL_NAME == Ascii("<|turn>model\n")
    ensures TURN_END == Ascii("<turn|>\n")
  {
    hide Ascii;
    AsciiConcat("<|turn>", "user\n");
    AsciiConcat("<|turn>", "model\n");
    assert "<|turn>user\n" == "<|turn>" + "user\n" && "<|turn>model\n" == "<|turn>" + "model\n";
  }

  // ---------------------------------------------------------------- calls and answers

  lemma {:induction false} JoinedSnoc<T(!new)>(format: T -> Result<Text>, items: seq<T>, last: T)
    requires Joined(format, items).Ok? && format(last).Ok?
    ensures Joined(format, items + [last]) == Ok(Joined(format, items).value + format(last).value)
  {
    var text := format(last).value;
    if items == [] {
      assert [] + [last] == [last] && [last][1..] == [];
      EmptyUnits(text);
    } else {
      TailOfConcat(items, [last]);
      JoinedSnoc(format, items[1..], last);
      Assoc(format(items[0]).value, Joined(format, items[1..]).value, text);
    }
  }

  lemma {:induction false} JoinedIsFormatted<T(!new)>(format: T -> Result<Text>, items: seq<T>)
    requires AllFormat(format, items)
    ensures Joined(format, items) == Ok(Formatted(format, items))
  {
    hide Joined;
    if items == [] {
      NothingJoined(format);
    } else {
      var before, last := items[..|items| - 1], items[|items| - 1];
      JoinedIsFormatted(format, before);
      JoinedSnoc(format, before, last);
      assert items == before + [last];
    }
  }

  lemma NothingJoined<T(!new)>(format: T -> Result<Text>)
    ensures Joined(format, []) == Ok([])
  {
  }

  lemma {:induction false} ResultsAreFormatted(results: seq<ToolResult>)
    requires forall i :: 0 <= i < |results| ==> results[i].name != []
    ensures Joined(FormatNamed, results) == Ok(ResultTexts(results))
  {
    hide Joined, Ascii;
    if results == [] {
      NothingJoined(FormatNamed);
    } else {
      var before, last := results[..|results| - 1], results[|results| - 1];
      ResultsAreFormatted(before);
      JoinedSnoc(FormatNamed, before, last);
      assert results == before + [last];
    }
  }

  lemma {:induction false} FirstNames(calls: seq<ToolCall>, id: Text, k: nat)
    requires k < |calls| && calls[k].id == id && forall j: nat :: j < k ==> calls[j].id != id
    ensures NameOfCall(calls, id) == calls[k].name
  {
    if k > 0 {
      assert calls[0].id != id;
      FirstNames(calls[1..], id, k - 1);
    }
  }

  lemma NamedByCall(calls: seq<ToolCall>, a: Answer)
    requires Names(calls, a)
    ensures ResultName(calls, a.message) == a.name
  {
    if a.message.toolName == [] {
      var k: nat :| k < |calls| && calls[k].id == a.message.toolCallId && calls[k].name == a.name
                    && forall j: nat :: j < k ==> calls[j].id != a.message.toolCallId;
      FirstNames(calls, a.message.toolCallId, k);
    }
  }

  ghost predicate AllName(calls: seq<ToolCall>, answers: seq<Answer>) {
    forall i :: 0 <= i < |answers| ==> Names(calls, answers[i])
  }

  lemma {:induction false} AnswersAreResults(calls: seq<ToolCall>, answers: seq<Answer>)
    requires AllName(calls, answers)
    ensures Responses(calls, Sent(answers)) == Joined(FormatNamed, Resolved(answers))
    ensures |Resolved(answers)| == |answers| && forall i :: 0 <= i < |answers| ==> Resolved(answers)[i].name != []
  {
    hide FormatToolResponse, Names, ResultName;
    if answers != [] {
      AnswersAreResults(calls, answers[1..]);
      NamedByCall(calls, answers[0]);
      NamedHere(calls, answers[0]);
      assert Sent(answers)[1..] == Sent(answers[1..]) && Resolved(answers)[1..] == Resolved(answers[1..]);
    }
  }

  lemma NamedHere(calls: seq<ToolCall>, a: Answer)
    requires Names(calls, a)
    ensures a.message.role == Tool && a.name != []
  {
  }

  lemma {:induction false} AnswersLead(calls: seq<ToolCall>, answers: seq<Answer>, rest: seq<ChatMessage>)
    requires AllName(calls, answers) && (rest == [] || rest[0].role != Tool)
    ensures Leading(Sent(answers) + rest) == |answers|
  {
    hide Names;
    var all := Sent(answers) + rest;
    if answers == [] {
      EmptyUnits(rest);
    } else {
      AnswersLead(calls, answers[1..], rest);
      NamedHere(calls, answers[0]);
      assert all[0] == answers[0].message && all[1..] == Sent(answers[1..]) + rest;
    }
  }

  // ---------------------------------------------------------------- the turns

  /** The turn of the model, in front of the rest or at the end. */
  lemma ModelTurn(t: Template, e: Exchange, atEnd: bool, tail: Result<Rendered>)
    requires NonEmpty(t.markers) && Writable(t, e) && (atEnd ==> e.answers != [] && Shown(t, e.reply) == Ok([]))
    ensures AssistantTurn(t, Replied(e), Sent(e.answers), atEnd, tail)
         == if atEnd then Ok(Rendered(ModelSays(t, e), Tool)) else Then(ModelSays(t, e) + Closing(e), tail)
  {
    hide Ascii, ExtractSpec, Then, Joined, Responses, ResultTexts, Formatted, Names;
    TurnTexts();
    JoinedIsFormatted(t.formatCall, e.calls);
    AnswersAreResults(e.calls, e.answers);
    ResultsAreFormatted(Resolved(e.answers));
    AssistantTurnOf(t, Replied(e), Sent(e.answers), atEnd, tail, Formatted(t.formatCall, e.calls), Shown(t, e.reply).value,
                    ResultTexts(Resolved(e.answers)));
  }

  lemma Slices<T>(m: T, results: seq<T>, rest: seq<T>)
    ensures var d := [m] + (results + rest);
            && d[0] == m && d[1..] == results + rest
            && d[1..1 + |results|] == results && d[1 + |results|..] == rest
  {
  }

  /** A reply with the tool messages behind it is one turn. */
  lemma ReplyTurn(t: Template, m: ChatMessage, results: seq<ChatMessage>, rest: seq<ChatMessage>)
    requires NonEmpty(t.markers) && m.role == Assistant && Leading(results + rest) == |results|
    ensures Turns(t, [m] + (results + rest), User) == AssistantTurn(t, m, results, rest == [], Turns(t, rest, Assistant))
  {
    hide AssistantTurn, Turns, Leading;
    UnfoldAssistantTurn(t, [m] + (results + rest), User);
    Slices(m, results, rest);
  }

  lemma OneExchange(t: Template, e: Exchange, rest: seq<ChatMessage>, previous: Role)
    requires NonEmpty(t.markers) && Writable(t, e) && previous != User
    requires rest != [] ==> rest[0].role == User
    requires rest == [] ==> e.answers != [] && Shown(t, e.reply) == Ok([])
    ensures Turns(t, [Said(User, e.user), Replied(e)] + (Sent(e.answers) + rest), previous)
         == Then(UserSays(e.user), if rest == [] then Ok(Rendered(ModelSays(t, e), Tool))
                                   else Then(ModelSays(t, e) + Closing(e), Turns(t, rest, Assistant)))
  {
    hide Ascii, TrimSpec, Then, AssistantTurn, Shown, ModelSays, Closing, Formatted, Names, Turns, Sent;
    var behind := Sent(e.answers) + rest;
    var c := [Said(User, e.user), Replied(e)] + behind;
    TurnTexts();
    UnfoldUserTurn(t, c, previous);
    assert c[1..] == [Replied(e)] + behind;
    AnswersLead(e.calls, e.answers, rest);
    ReplyTurn(t, Replied(e), Sent(e.answers), rest);
    ModelTurn(t, e, rest == [], Turns(t, rest, Assistant));
  }

  lemma LastTurn(t: Template, last: Text, previous: Role)
    requires NonEmpty(t.markers) && previous != User
    ensures Turns(t, [Said(User, last)], previous) == Ok(Rendered(UserSays(last), User))
  {
    hide Ascii, TrimSpec;
    TurnTexts();
    NoTurns(t, User);
    UnfoldUserTurn(t, [Said(User, last)], previous);
    assert [Said(User, last)][1..] == [];
    EmptyUnits(UserSays(last));
  }

  lemma {:induction false} TurnsAreScript(t: Template, exchanges: seq<Exchange>, ending: Ending, previous: Role)
    requires NonEmpty(t.markers) && AllWritable(t, exchanges) && Ends(t, ending) && previous != User
    ensures Turns(t, Dialogue(exchanges, ending), previous)
         == Ok(Rendered(Script(t, exchanges, ending), if ending.UserTurn? then User else Tool))
    decreases |exchanges|
  {
    hide Turns, UserSays, ModelSays, Shown, Sent, Writable, Closing;
    if exchanges != [] {
      TurnsAreScript(t, exchanges[1..], ending, Assistant);
      DialogueStarts(exchanges[1..], ending);
      OneExchange(t, exchanges[0], Dialogue(exchanges[1..], ending), previous);
    } else {
      match ending
      case UserTurn(user) =>
        LastTurn(t, user, previous);
      case OpenAnswers(e) =>
        EmptyUnits(Sent(e.answers));
        OneExchange(t, e, [], previous);
    }
  }

  lemma DialogueStarts(exchanges: seq<Exchange>, ending: Ending)
    ensures Dialogue(exchanges, ending) != [] && Dialogue(exchanges, ending)[0].role == User
  {
  }

  /** The system turn: for thinking, for a system text, or for tools. */
  ghost function Head(t: Template, system: Option<Text>, thinking: bool, tools: seq<ToolDefinition>): Text
    requires AllFormat(t.formatTool, tools)
  {
    if system.None? && !thinking && tools == [] then []
    else
      Ascii("<|turn>system\n") + (if thinking then Ascii("<|think|>\n") else [])
      + (if system.Some? then TrimSpec(system.value) else []) + Formatted(t.formatTool, tools) + Ascii("<turn|>\n")
  }

  function Opened(system: Option<Text>, messages: seq<ChatMessage>): seq<ChatMessage> {
    if system.Some? then [Said(System, system.value)] + messages else messages
  }

  function ModelPrompt(thinking: bool): Text {
    Ascii("<|turn>model\n") + if thinking then [] else Ascii("<|channel>thought\n<channel|>")
  }

  /** What the model goes on from. */
  function Prompted(ending: Ending, thinking: bool): Text {
    if ending.UserTurn? then ModelPrompt(thinking) else if thinking then Ascii("<|channel>thought\n") else []
  }

  /** Main result: a conversation, with or without a system message and tools, is rendered as written out
      here: `<bos>`, the system turn, every user turn trimmed, every reply as its calls, what is shown of
      it and the answers to its calls, and the start of the model's turn, with a closed thought when
      thinking is off, or an open thought behind the last answers when it is on. */
  lemma DialogueRenders(
    t: Template, system: Option<Text>, tools: seq<ToolDefinition>, exchanges: seq<Exchange>, ending: Ending, thinking: bool)
    requires NonEmpty(t.markers) && AllWritable(t, exchanges) && Ends(t, ending) && AllFormat(t.formatTool, tools)
    ensures RenderSpec(t, Opened(system, Dialogue(exchanges, ending)), thinking, true, tools)
         == Ok(Ascii("<bos>") + Head(t, system, thinking, tools) + Script(t, exchanges, ending) + Prompted(ending, thinking))
  {
    hide Ascii, TrimSpec, Turns, Script, Shown, Dialogue, Formatted, AllFormat, AllWritable, Ends, Header, Head;
    var dialogue := Dialogue(exchanges, ending);
    var messages := Opened(system, dialogue);
    DialogueStarts(exchanges, ending);
    TurnTexts();
    TurnsAreScript(t, exchanges, ending, NOBODY);
    HeadIsHeader(t, system, dialogue, thinking, tools);
    if system.Some? {
      assert messages[1..] == dialogue;
    }
    assert Conversation(messages) == dialogue;
  }

  lemma HeadIsHeader(t: Template, system: Option<Text>, dialogue: seq<ChatMessage>, thinking: bool, tools: seq<ToolDefinition>)
    requires dialogue != [] && dialogue[0].role == User && AllFormat(t.formatTool, tools)
    ensures Header(t, Opened(system, dialogue), thinking, tools) == Ok(Head(t, system, thinking, tools))
  {
    hide Ascii, TrimSpec, Formatted, Joined;
    TurnTexts();
    JoinedIsFormatted(t.formatTool, tools);
  }

  // ---------------------------------------------------------------- continuations

  /** The text that continues a resident conversation with a user turn. */
  lemma ContinuationText(user: Text, thinking: bool)
    ensures Continuation(user, thinking)
         == Ascii("<turn|>\n") + Ascii("<|turn>user\n") + TrimSpec(user) + Ascii("<turn|>\n") + ModelPrompt(thinking)
  {
    hide Ascii, TrimSpec;
    TurnTexts();
    Regroup(TURN_END, TURN, USER_NAME, TrimSpec(user), TURN_END, TURN, MODEL_NAME, if thinking then [] else CLOSED_THOUGHT);
  }

  lemma Regroup(a: Text, b: Text, c: Text, d: Text, e: Text, f: Text, g: Text, h: Text)
    ensures a + b + c + d + e + f + g + h == a + (b + c) + d + e + ((f + g) + h)
  {
  }

  /** The text that continues it with named tool results. */
  lemma ToolContinuationText(results: seq<ToolResult>, thinking: bool)
    requires results != [] && forall i :: 0 <= i < |results| ==> results[i].name != []
    ensures ToolContinuation(results, thinking)
         == Ok(ResultTexts(results) + if thinking then Ascii("<|channel>thought\n") else [])
  {
    hide Joined, ResultTexts, Ascii;
    ResultsAreFormatted(results);
  }
}
