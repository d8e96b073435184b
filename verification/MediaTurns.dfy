/** Media in the first conversation of a session: from its messages, through the template and the
    encoding, to the located placeholders. */
module MediaTurns {
  import opened Wrappers
  import opened Seqs
  import opened Text
  import opened Tokenizer
  import opened TokenizerDecode
  import opened ResponseContent
  import opened ChatTemplate
  import opened Media
  import opened MediaText
  import opened ChatSession
  import opened SessionText

  // ---------------------------------------------------------------- the turns as written texts

  function Led(lead: Text, w: Written): Written {
    w.(head := lead + w.head)
  }

  /** What an assistant turn writes: its body, and what closes it. */
  function TurnText(t: Template, m: ChatMessage, results: seq<ChatMessage>, atEnd: bool): Text
    requires NonEmpty(t.markers)
  {
    var body := AssistantBody(t, m, results);
    if body.Err? then []
    else
      TURN + MODEL_NAME + body.value
      + if m.toolCalls != [] && results == [] then RESPONSE_OPEN
        else if results != [] && !AssistantHasContent(t, m) && atEnd then []
        else TURN_END
  }

  lemma TurnWrites(t: Template, m: ChatMessage, results: seq<ChatMessage>, atEnd: bool, tail: Result<Rendered>)
    requires NonEmpty(t.markers) && AssistantTurn(t, m, results, atEnd, tail).Ok?
    requires atEnd ==> tail.Ok? && tail.value.text == []
    ensures tail.Ok? && AssistantTurn(t, m, results, atEnd, tail).value.text == TurnText(t, m, results, atEnd) + tail.value.text
  {
    hide AssistantBody, AssistantHasContent, Ascii;
    EmptyUnits(TurnText(t, m, results, atEnd));
    EmptyUnits(TURN + MODEL_NAME + AssistantBody(t, m, results).value);
  }

  /** The conversation as text and media blocks, with `end` behind it; `ws` holds the written form of
      each user message. */
  function TurnsWritten(t: Template, c: seq<ChatMessage>, ws: seq<Written>, end: Written): Written
    requires NonEmpty(t.markers) && |c| == |ws|
    decreases |c|
  {
    if c == [] then end
    else if c[0].role == User then
      Framed(ws[0], TURN + USER_NAME, Led(TURN_END, TurnsWritten(t, c[1..], ws[1..], end)))
    else
      var n := 1 + Leading(c[1..]);
      Led(TurnText(t, c[0], c[1..n], c[n..] == []), TurnsWritten(t, c[n..], ws[n..], end))
  }

  /** `ws` holds what the user messages hold; the others hold no media. */
  ghost predicate Shows(c: seq<ChatMessage>, ws: seq<Written>) {
    && |c| == |ws|
    && forall k :: 0 <= k < |c| ==>
         if c[k].role == User then c[k].content == Write(ws[k].head, ws[k].pieces) else ws[k].pieces == []
  }

  /** The media counts of all messages. */
  function AllCounts(ws: seq<Written>, kind: Kind): seq<nat> {
    if ws == [] then [] else CountsOf(ws[0].pieces, kind) + AllCounts(ws[1..], kind)
  }

  lemma {:induction false} SkipCounts(ws: seq<Written>, n: nat, kind: Kind)
    requires n <= |ws| && forall k :: 0 <= k < n ==> ws[k].pieces == []
    ensures AllCounts(ws, kind) == AllCounts(ws[n..], kind)
  {
    if n > 0 {
      SkipCounts(ws[1..], n - 1, kind);
      assert ws[1..][n - 1..] == ws[n..];
    }
  }

  lemma {:induction false} AddCounts(ws: seq<Written>, w: Written, kind: Kind)
    ensures AllCounts(ws + [w], kind) == AllCounts(ws, kind) + CountsOf(w.pieces, kind)
  {
    hide CountsOf;
    if ws == [] {
      assert (ws + [w])[1..] == [];
      EmptyUnits(CountsOf(w.pieces, kind));
    } else {
      TailOfConcat(ws, [w]);
      AddCounts(ws[1..], w, kind);
      Assoc(CountsOf(ws[0].pieces, kind), AllCounts(ws[1..], kind), CountsOf(w.pieces, kind));
    }
  }

  lemma ShowsBehind(c: seq<ChatMessage>, ws: seq<Written>, n: nat)
    requires Shows(c, ws) && n <= |c|
    ensures Shows(c[n..], ws[n..])
  {
    hide Write;
  }

  /** The rendered turns are the written ones, and hold the media of their messages. */
  lemma {:induction false} TurnsAreWritten(t: Template, c: seq<ChatMessage>, ws: seq<Written>, previous: Role, prompt: Text)
    requires NonEmpty(t.markers) && Shows(c, ws) && Turns(t, c, previous).Ok?
    ensures var w := TurnsWritten(t, c, ws, Written(prompt, []));
            && Write(w.head, w.pieces) == Turns(t, c, previous).value.text + prompt
            && forall kind :: CountsOf(w.pieces, kind) == AllCounts(ws, kind)
    decreases |c|, 1
  {
    if c == [] {
      TextWrites(prompt);
      EmptyUnits(prompt);
    } else if c[0].role == User {
      UserTurnIsWritten(t, c, ws, previous, prompt);
    } else {
      ReplyIsWritten(t, c, ws, previous, prompt);
    }
  }

  lemma ReplyIsWritten(t: Template, c: seq<ChatMessage>, ws: seq<Written>, previous: Role, prompt: Text)
    requires NonEmpty(t.markers) && Shows(c, ws) && Turns(t, c, previous).Ok? && c != [] && c[0].role != User
    ensures var w := TurnsWritten(t, c, ws, Written(prompt, []));
            && Write(w.head, w.pieces) == Turns(t, c, previous).value.text + prompt
            && forall kind :: CountsOf(w.pieces, kind) == AllCounts(ws, kind)
    decreases |c|, 0
  {
    hide Write, CountsOf, AllCounts, Framed, AssistantTurn, TurnText, UserText, Ascii;
    var n := 1 + Leading(c[1..]);
    var tail := Turns(t, c[n..], Assistant);
    UnfoldAssistantTurn(t, c, previous);
    LeadingRoles(c);
    if c[n..] == [] {
      NoTurns(t, Assistant);
    }
    assert c[1..][..n - 1] == c[1..n] && c[1..][n - 1..] == c[n..];
    TurnWrites(t, c[0], c[1..n], c[n..] == [], tail);
    ShowsBehind(c, ws, n);
    TurnsAreWritten(t, c[n..], ws[n..], Assistant, prompt);
    var rest, lead := TurnsWritten(t, c[n..], ws[n..], Written(prompt, [])), TurnText(t, c[0], c[1..n], c[n..] == []);
    LeadWrites(lead, rest.head, rest.pieces);
    Assoc(lead, tail.value.text, prompt);
    forall kind
      ensures CountsOf(rest.pieces, kind) == AllCounts(ws, kind)
    {
      SkipCounts(ws, n, kind);
    }
  }

  lemma LeadingRoles(c: seq<ChatMessage>)
    requires c != [] && c[0].role != User
    ensures var n := 1 + Leading(c[1..]); n <= |c| && forall k :: 0 <= k < n ==> c[k].role != User
  {
    var n := 1 + Leading(c[1..]);
    forall k | 1 <= k < n
      ensures c[k].role != User
    {
      assert c[k] == c[1..][k - 1];
    }
  }

  lemma UserTurnIsWritten(t: Template, c: seq<ChatMessage>, ws: seq<Written>, previous: Role, prompt: Text)
    requires NonEmpty(t.markers) && Shows(c, ws) && Turns(t, c, previous).Ok? && c != [] && c[0].role == User
    ensures var w := TurnsWritten(t, c, ws, Written(prompt, []));
            && Write(w.head, w.pieces) == Turns(t, c, previous).value.text + prompt
            && forall kind :: CountsOf(w.pieces, kind) == AllCounts(ws, kind)
    decreases |c|, 0
  {
    hide Write, CountsOf, Framed, AssistantTurn, TurnText, TrimSpec, Ascii;
    UnfoldUserTurn(t, c, previous);
    ShowsBehind(c, ws, 1);
    TurnsAreWritten(t, c[1..], ws[1..], User, prompt);
    var rest, tail := TurnsWritten(t, c[1..], ws[1..], Written(prompt, [])), Turns(t, c[1..], User).value.text;
    LeadWrites(TURN_END, rest.head, rest.pieces);
    FramedWrites(ws[0], TURN + USER_NAME, Led(TURN_END, rest));
    RegroupUser(TURN + USER_NAME, TrimSpec(c[0].content), TURN_END, tail, prompt);
  }

  lemma RegroupUser(ahead: Text, content: Text, end: Text, tail: Text, prompt: Text)
    ensures (ahead + content + end) + tail + prompt == ahead + (content + (end + (tail + prompt)))
  {
  }

  // ---------------------------------------------------------------- without begin marks

  /** The text of every assistant turn holds no begin mark. */
  ghost predicate QuietTurns(t: Template, c: seq<ChatMessage>)
    requires NonEmpty(t.markers)
    decreases |c|
  {
    c != [] ==>
      if c[0].role == User then QuietTurns(t, c[1..])
      else
        var n := 1 + Leading(c[1..]);
        Quiet(TurnText(t, c[0], c[1..n], c[n..] == [])) && QuietTurns(t, c[n..])
  }

  predicate OpensWithMark(text: Text) {
    text == [] || text[0] == LESS
  }

  lemma TemplateMarks()
    ensures Quiet(TURN + USER_NAME) && OpensWithMark(TURN + USER_NAME) && (TURN + USER_NAME)[|TURN + USER_NAME| - 1] == '\n' as Byte
    ensures Quiet(TURN_END) && TURN_END != [] && TURN_END[0] == LESS && TURN_END[|TURN_END| - 1] == '\n' as Byte
    ensures |TURN| > 0 && TURN[0] == LESS
  {
    hide Ascii, Quiet;
    NoLetter("<turn|>\n");
    NoLetter("<|turn>");
    NoLetter("user\n");
    QuietWithoutLetter(TURN + USER_NAME);
    QuietWithoutLetter(TURN_END);
    FirstByte("<|turn>", '<');
    FirstByte("<turn|>\n", '<');
    LastByte("<turn|>\n", '\n');
    LastByte("user\n", '\n');
  }

  lemma QuietInFront(tk: Tables, lead: Text, text: Text)
    requires MediaTables(tk) && Quiet(lead) && Quiet(text) && OpensWithMark(text)
    ensures Quiet(lead + text)
  {
    hide Quiet, MediaTables;
    if text == [] {
      EmptyUnits(lead);
    } else {
      QuietConcat(tk, lead, text);
    }
  }

  lemma UserStaysQuiet(tk: Tables, w: Written, rest: Written)
    requires MediaTables(tk) && AllQuiet(w.head, w.pieces) && AllQuiet(rest.head, rest.pieces) && OpensWithMark(rest.head)
    ensures var f := Framed(w, TURN + USER_NAME, Led(TURN_END, rest)); AllQuiet(f.head, f.pieces) && OpensWithMark(f.head)
  {
    hide Quiet, MediaTables, Framed, Ascii;
    TemplateMarks();
    QuietInFront(tk, TURN_END, rest.head);
    FramedQuiet(tk, w, TURN + USER_NAME, Led(TURN_END, rest));
    FramedOpens(w, TURN + USER_NAME, Led(TURN_END, rest));
  }

  lemma ReplyStaysQuiet(tk: Tables, lead: Text, rest: Written)
    requires MediaTables(tk) && Quiet(lead) && OpensWithMark(lead) && AllQuiet(rest.head, rest.pieces) && OpensWithMark(rest.head)
    ensures AllQuiet(Led(lead, rest).head, Led(lead, rest).pieces) && OpensWithMark(Led(lead, rest).head)
  {
    hide Quiet, MediaTables;
    QuietInFront(tk, lead, rest.head);
  }

  lemma TurnOpens(t: Template, m: ChatMessage, results: seq<ChatMessage>, atEnd: bool)
    requires NonEmpty(t.markers)
    ensures OpensWithMark(TurnText(t, m, results, atEnd))
  {
    hide Ascii, AssistantBody, AssistantHasContent;
    FirstByte("<|turn>", '<');
  }

  lemma {:induction false} TurnsStayQuiet(tk: Tables, t: Template, c: seq<ChatMessage>, ws: seq<Written>, end: Written)
    requires NonEmpty(t.markers) && MediaTables(tk) && |c| == |ws| && QuietTurns(t, c)
    requires forall k :: 0 <= k < |c| && c[k].role == User ==> AllQuiet(ws[k].head, ws[k].pieces)
    requires AllQuiet(end.head, end.pieces) && OpensWithMark(end.head)
    ensures var w := TurnsWritten(t, c, ws, end); AllQuiet(w.head, w.pieces) && OpensWithMark(w.head)
    decreases |c|
  {
    hide AllQuiet, MediaTables, Framed, TurnText, OpensWithMark, Quiet;
    if c != [] {
      if c[0].role == User {
        TurnsStayQuiet(tk, t, c[1..], ws[1..], end);
        UserStaysQuiet(tk, ws[0], TurnsWritten(t, c[1..], ws[1..], end));
      } else {
        var n := 1 + Leading(c[1..]);
        TurnsStayQuiet(tk, t, c[n..], ws[n..], end);
        TurnOpens(t, c[0], c[1..n], c[n..] == []);
        ReplyStaysQuiet(tk, TurnText(t, c[0], c[1..n], c[n..] == []), TurnsWritten(t, c[n..], ws[n..], end));
      }
    }
  }

  lemma FramedOpens(w: Written, before: Text, after: Written)
    requires before != [] && before[0] == LESS
    ensures OpensWithMark(Framed(w, before, after).head)
  {
    hide TrimSpec, TrimLeft;
  }

  lemma PromptIsQuiet(last: Role, thinking: bool)
    requires GenerationPrompt(last, thinking).Ok?
    ensures Quiet(GenerationPrompt(last, thinking).value) && OpensWithMark(GenerationPrompt(last, thinking).value)
  {
    hide Ascii, Quiet;
    NoLetter("<|turn>");
    NoLetter("model\n");
    NoLetter("<|channel>thought\n");
    NoLetter("<|channel>thought\n<channel|>");
    FirstByte("<|turn>", '<');
    FirstByte("<|channel>thought\n", '<');
    QuietWithoutLetter(GenerationPrompt(last, thinking).value);
  }

  // ---------------------------------------------------------------- the first conversation of a session

  function WrittenAt(message: Message): Written {
    if message.role == User then WrittenOf(message, |message.content|) else Written([], [])
  }

  function AllWritten(messages: seq<Message>): (ws: seq<Written>)
    ensures |ws| == |messages|
  {
    seq(|messages|, k requires 0 <= k < |messages| => WrittenAt(messages[k]))
  }

  lemma OneIsWritten(message: Message)
    requires MaterializeOne(message).Ok?
    ensures var d, w := MaterializeOne(message).value, WrittenAt(message);
            && d.message.role == message.role
            && (if message.role == User then d.message.content == Write(w.head, w.pieces) else w.pieces == [])
            && d.audio == CountsOf(w.pieces, Audio) && d.images == CountsOf(w.pieces, Image)
  {
    hide AddParts, WrittenOf, Write;
    if message.role == User {
      ContentIsWritten(message, |message.content|);
    } else {
      OnlyUsersHoldMedia(message, |message.content|);
    }
  }

  /** The materialised messages are the written ones, in order. */
  lemma {:induction false} MessagesAreWritten(messages: seq<Message>, n: nat)
    requires n <= |messages| && MaterializeFirst(messages, [], n).Ok?
    ensures var m, ws := MaterializeFirst(messages, [], n).value, AllWritten(messages)[..n];
            Shows(m.messages, ws) && m.audio == AllCounts(ws, Audio) && m.images == AllCounts(ws, Image)
  {
    hide MaterializeOne, WrittenAt, Write, CountsOf;
    if n > 0 {
      MessagesAreWritten(messages, n - 1);
      OneIsWritten(messages[n - 1]);
      var before := AllWritten(messages)[..n - 1];
      assert AllWritten(messages)[..n] == before + [WrittenAt(messages[n - 1])];
      AddCounts(before, WrittenAt(messages[n - 1]), Audio);
      AddCounts(before, WrittenAt(messages[n - 1]), Image);
    }
  }

  /** What the template writes in front of the turns. */
  function Opening(t: Template, messages: seq<ChatMessage>, thinking: bool, tools: seq<ToolDefinition>): Text
    requires messages != []
  {
    var header := Header(t, messages, thinking, tools);
    BOS + if header.Ok? then header.value else []
  }

  /** The written forms of the messages that the turns are rendered from. */
  function Turned(messages: seq<ChatMessage>, ws: seq<Written>): seq<Written>
    requires messages != [] && |ws| == |messages|
  {
    if HasSystem(messages) then ws[1..] else ws
  }

  /** The whole rendered conversation as text and media blocks. */
  function Prompted(t: Template, messages: seq<ChatMessage>, ws: seq<Written>, thinking: bool, tools: seq<ToolDefinition>, prompt: Text): Written
    requires NonEmpty(t.markers) && messages != [] && |ws| == |messages|
  {
    Led(Opening(t, messages, thinking, tools), TurnsWritten(t, Conversation(messages), Turned(messages, ws), Written(prompt, [])))
  }

  lemma RenderIsWritten(t: Template, messages: seq<ChatMessage>, ws: seq<Written>, thinking: bool, tools: seq<ToolDefinition>)
    requires NonEmpty(t.markers) && messages != [] && Shows(messages, ws) && RenderSpec(t, messages, thinking, true, tools).Ok?
    ensures Turns(t, Conversation(messages), NOBODY).Ok?
    ensures GenerationPrompt(Turns(t, Conversation(messages), NOBODY).value.last, thinking).Ok?
    ensures var prompt := GenerationPrompt(Turns(t, Conversation(messages), NOBODY).value.last, thinking).value;
            var w := Prompted(t, messages, ws, thinking, tools, prompt);
            && RenderSpec(t, messages, thinking, true, tools) == Ok(Write(w.head, w.pieces))
            && forall kind :: CountsOf(w.pieces, kind) == AllCounts(ws, kind)
  {
    hide Turns, Header, Write, CountsOf, TurnsWritten, GenerationPrompt, Ascii;
    var c, turned := Conversation(messages), Turned(messages, ws);
    var turns := Turns(t, c, NOBODY).value;
    var prompt := GenerationPrompt(turns.last, thinking).value;
    if HasSystem(messages) {
      ShowsBehind(messages, ws, 1);
    }
    TurnsAreWritten(t, c, turned, NOBODY, prompt);
    forall kind
      ensures AllCounts(turned, kind) == AllCounts(ws, kind)
    {
      if HasSystem(messages) {
        SkipCounts(ws, 1, kind);
      }
    }
    var w, lead := TurnsWritten(t, c, turned, Written(prompt, [])), Opening(t, messages, thinking, tools);
    LeadWrites(lead, w.head, w.pieces);
    Assoc(lead, turns.text, prompt);
  }

  /** No text of the conversation holds a begin mark: user texts, assistant turns, and the header. */
  ghost predicate QuietConversation(t: Template, q: Request)
    requires NonEmpty(t.markers) && MaterializeSpec(q.messages, []).Ok?
  {
    var m := MaterializeSpec(q.messages, []).value;
    && (forall k :: 0 <= k < |q.messages| && q.messages[k].role == User ==>
          var w := WrittenOf(q.messages[k], |q.messages[k].content|); AllQuiet(w.head, w.pieces))
    && Quiet(Opening(t, m.messages, q.effort != Off, Shown(q.tools, q.choice)))
    && QuietTurns(t, Conversation(m.messages))
  }

  lemma PromptedIsQuiet(
    tk: Tables, t: Template, messages: seq<ChatMessage>, ws: seq<Written>, thinking: bool, tools: seq<ToolDefinition>, prompt: Text)
    requires NonEmpty(t.markers) && MediaTables(tk) && messages != [] && |ws| == |messages|
    requires forall k :: 0 <= k < |messages| && messages[k].role == User ==> AllQuiet(ws[k].head, ws[k].pieces)
    requires Quiet(Opening(t, messages, thinking, tools)) && QuietTurns(t, Conversation(messages))
    requires Quiet(prompt) && OpensWithMark(prompt)
    ensures var w := Prompted(t, messages, ws, thinking, tools, prompt); AllQuiet(w.head, w.pieces)
  {
    hide Quiet, MediaTables, TurnsWritten, QuietTurns, Opening, OpensWithMark;
    TurnsStayQuiet(tk, t, Conversation(messages), Turned(messages, ws), Written(prompt, []));
    QuietInFront(tk, Opening(t, messages, thinking, tools),
                 TurnsWritten(t, Conversation(messages), Turned(messages, ws), Written(prompt, [])).head);
  }

  /** Main result: whatever conversation opens a session, with texts and media mixed in any of its user
      messages, no locator refuses it when its texts hold no begin mark: it is prepared exactly when it
      is admitted, renders, encodes, and leaves room to answer. */
  lemma FirstCallIsPrepared(setup: Setup, tk: Tables, t: Template, q: Request)
    requires Sound(setup, tk, t) && MediaTables(tk)
    requires Refusal(setup, Opened(), q).None? && MaterializeSpec(q.messages, []).Ok? && QuietConversation(t, q)
    ensures var m := MaterializeSpec(q.messages, []).value;
            m.messages != []
            && var prompt := PromptFor(setup, Opened(), q, m);
            && (prompt.Ok? ==> Locate(prompt.value, MarksOf(Audio), m.audio, 0).Ok? && Locate(prompt.value, MarksOf(Image), m.images, 0).Ok?)
            && (Prepare(setup, Opened(), q).Ok? <==> prompt.Ok? && OutputLimit(setup, q, prompt.value).Ok?)
  {
    hide Refusal, Locate, OutputLimit, ReasoningFor, MediaTables, EncodeSpec, RenderSpec, Consistent,
         WrittenOf, Write, AllQuiet, Quiet, Opening, QuietTurns, Turns, GenerationPrompt, MaterializeFirst, CountsOf, TurnsWritten;
    var m, ws := MaterializeSpec(q.messages, []).value, AllWritten(q.messages);
    var thinking, tools := q.effort != Off, Shown(q.tools, q.choice);
    MessagesAreWritten(q.messages, |q.messages|);
    assert ws[..|q.messages|] == ws;
    if PromptFor(setup, Opened(), q, m).Ok? {
      RenderIsWritten(t, m.messages, ws, thinking, tools);
      var last := Turns(t, Conversation(m.messages), NOBODY).value.last;
      PromptIsQuiet(last, thinking);
      var prompt := GenerationPrompt(last, thinking).value;
      PromptedIsQuiet(tk, t, m.messages, ws, thinking, tools, prompt);
      var w := Prompted(t, m.messages, ws, thinking, tools, prompt);
      WrittenIsLocated(tk, w.head, w.pieces, Audio);
      WrittenIsLocated(tk, w.head, w.pieces, Image);
    }
  }
}
