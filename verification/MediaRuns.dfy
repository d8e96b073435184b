/** Media on later turns: when the locators find what a call adds behind the resident tokens, over whole
    runs of a session. */
module MediaRuns {
  import opened Wrappers
  import opened Seqs
  import opened Text
  import opened Utf8
  import opened Bpe
  import opened Tokenizer
  import opened TokenizerDecode
  import opened ResponseContent
  import opened ChatTemplate
  import opened Media
  import opened MediaText
  import opened ChatSession
  import opened ChatRuns
  import opened SessionText
  import opened SessionPoison
  import RC = ResponseChannel
  import CS = ConversationSession

  // ---------------------------------------------------------------- how continuations start

  /** The text is an added token of its own, which wins the search where it stands. */
  ghost predicate Knows(tk: Tables, text: Text) {
    exists a: AddedToken :: a.content == text && Dominant(tk.added, a)
  }

  /** The tables know the media tokens and the tokens that open the continuations. */
  ghost predicate TurnTables(tk: Tables) {
    MediaTables(tk) && Knows(tk, Ascii("<turn|>")) && Knows(tk, Ascii("<|tool_response>"))
  }

  lemma DominantIsAdded(tk: Tables, a: AddedToken)
    requires Dominant(tk.added, a)
    ensures a in tk.added
  {
    assert FirstMatch(tk.added, a.content + []) == Some(a);
  }

  /** A text that opens with another added token than those of a block encodes to tokens that do. */
  lemma OpensOutside(tk: Tables, text: Text, rest: Text)
    requires MediaTables(tk) && Knows(tk, text) && text != [] && EncodeSpec(tk, text + rest).Ok?
    requires forall kind :: |text| != |BlockOf(kind).placeholder.content| && |text| != |BlockOf(kind).end.content|
    ensures EncodeSpec(tk, text + rest).value != []
    ensures forall kind :: BreaksBlock(MarksOf(kind), EncodeSpec(tk, text + rest).value[0])
  {
    hide EncodeSpec, FirstMatch, VocabularyAgrees, MergesAgree, Ascii, BlockOf, MarksOf;
    var a: AddedToken :| a.content == text && Dominant(tk.added, a);
    EncodeDominant(tk, a, rest);
    DominantIsAdded(tk, a);
    AddedIds(tk, a);
    forall kind: Kind
      ensures BreaksBlock(MarksOf(kind), a.id)
    {
      var block := BlockOf(kind);
      assert Prints(tk, block, kind);
      DominantIsAdded(tk, block.placeholder);
      DominantIsAdded(tk, block.end);
      AddedIds(tk, block.placeholder);
      AddedIds(tk, block.end);
    }
  }

  lemma BlockLengths(kind: Kind)
    ensures |BlockOf(kind).placeholder.content| == 9 && |BlockOf(kind).end.content| == 8
  {
  }

  /** What a user turn's continuation writes in front of the content. */
  const AHEAD: Text := TURN_END + TURN + USER_NAME

  lemma ContinuationFrame(user: Text, thinking: bool)
    ensures Continuation(user, thinking) == AHEAD + (TrimSpec(user) + After(thinking))
    ensures AHEAD[|AHEAD| - 1] == '\n' as Byte && After(thinking) != [] && After(thinking)[0] == LESS
  {
    hide Ascii, TrimSpec;
    LastByte("user\n", '\n');
    FirstByte("<turn|>\n", '<');
    RegroupTurn(TURN_END + TURN + USER_NAME, TrimSpec(user), TURN_END, TURN, MODEL_NAME, if thinking then [] else CLOSED_THOUGHT);
  }

  lemma RegroupTurn(ahead: Text, user: Text, end: Text, turn: Text, name: Text, thought: Text)
    ensures ahead + user + end + turn + name + thought == ahead + (user + (end + (turn + name + thought)))
  {
  }

  lemma TurnEndSplits()
    ensures TURN_END == Ascii("<turn|>") + Ascii("\n") && |Ascii("<turn|>")| == 7
  {
    hide Ascii;
    AsciiConcat("<turn|>", "\n");
    assert "<turn|>\n" == "<turn|>" + "\n";
  }

  lemma UserTurnOpens(tk: Tables, user: Text, thinking: bool)
    requires TurnTables(tk) && EncodeSpec(tk, Continuation(user, thinking)).Ok?
    ensures var ids := EncodeSpec(tk, Continuation(user, thinking)).value;
            ids != [] && forall kind :: BreaksBlock(MarksOf(kind), ids[0])
  {
    hide EncodeSpec, Ascii, TrimSpec, Consistent, Knows, BlockOf;
    TurnEndSplits();
    ContinuationFrame(user, thinking);
    BlockLengths(Audio);
    BlockLengths(Image);
    var mark, feed := Ascii("<turn|>"), Ascii("\n");
    var behind := TURN + USER_NAME + (TrimSpec(user) + After(thinking));
    RegroupAhead(mark, feed, TURN, USER_NAME, TrimSpec(user) + After(thinking));
    OpensOutside(tk, mark, feed + behind);
  }

  lemma RegroupAhead(mark: Text, feed: Text, turn: Text, name: Text, tail: Text)
    ensures mark + feed + turn + name + tail == mark + (feed + (turn + name + tail))
  {
  }

  lemma ResponseSplits()
    ensures Ascii("<|tool_response>response:") == Ascii("<|tool_response>") + Ascii("response:") && |Ascii("<|tool_response>")| == 16
  {
    hide Ascii;
    AsciiConcat("<|tool_response>", "response:");
    assert "<|tool_response>response:" == "<|tool_response>" + "response:";
  }

  /** The text of tool results starts with the response mark. */
  lemma ToolTextOpens(results: seq<ToolResult>, thinking: bool)
    requires ToolContinuation(results, thinking).Ok?
    ensures exists rest :: ToolContinuation(results, thinking).value == Ascii("<|tool_response>") + rest
  {
    hide Ascii;
    ResponseSplits();
    var texts := Joined(FormatNamed, results).value;
    var head := FormatToolResponse(results[0].name, results[0].output);
    assert FormatNamed(results[0]) == Ok(head);
    var tail := Joined(FormatNamed, results[1..]).value;
    var inner := results[0].name + Ascii("{value:<|\"|>") + results[0].output + Ascii("<|\"|>}<tool_response|>");
    RegroupResponse(Ascii("<|tool_response>"), Ascii("response:"), results[0].name, Ascii("{value:<|\"|>"), results[0].output,
                    Ascii("<|\"|>}<tool_response|>"), tail, if thinking then OPEN_THOUGHT else []);
    assert texts == head + tail;
  }

  lemma RegroupResponse(mark: Text, word: Text, name: Text, open: Text, output: Text, close: Text, tail: Text, thought: Text)
    ensures ((mark + word) + name + open + output + close + tail) + thought == mark + (word + name + open + output + close + tail + thought)
  {
  }

  lemma ToolTurnOpens(tk: Tables, results: seq<ToolResult>, thinking: bool)
    requires TurnTables(tk) && ToolPrompt(tk, results, thinking).Ok?
    ensures var ids := ToolPrompt(tk, results, thinking).value;
            ids != [] && forall kind :: BreaksBlock(MarksOf(kind), ids[0])
  {
    hide EncodeSpec, Ascii, Consistent, Knows, BlockOf, ToolContinuation;
    ToolTextOpens(results, thinking);
    ResponseSplits();
    BlockLengths(Audio);
    BlockLengths(Image);
    var rest :| ToolContinuation(results, thinking).value == Ascii("<|tool_response>") + rest;
    OpensOutside(tk, Ascii("<|tool_response>"), rest);
  }

  // ---------------------------------------------------------------- the resident media

  function MediaIn(m: Materialized, kind: Kind): seq<nat> {
    match kind
    case Audio => m.audio
    case Image => m.images
  }

  /** The media of the resident messages. */
  function Held(s: Snapshot, kind: Kind): seq<nat> {
    var m := MaterializeFirst(s.committed, s.committed, |s.committed|);
    if m.Ok? then MediaIn(m.value, kind) else []
  }

  /** The resident tokens hold the resident media. */
  ghost predicate HoldsMedia(s: Snapshot) {
    !s.poisoned ==> forall kind :: Locate(Transcript(s), MarksOf(kind), Held(s, kind), 0).Ok?
  }

  /** Materialising more messages only adds media behind those of the first ones. */
  lemma {:induction false} MediaOfFirst(messages: seq<Message>, canonical: seq<Message>, k: nat, n: nat)
    requires k <= n <= |messages| && MaterializeFirst(messages, canonical, n).Ok?
    ensures MaterializeFirst(messages, canonical, k).Ok?
    ensures forall kind :: MediaIn(MaterializeFirst(messages, canonical, k).value, kind) <= MediaIn(MaterializeFirst(messages, canonical, n).value, kind)
    decreases n
  {
    hide MaterializeOne, MaterializeFirst;
    if k < n {
      OneMoreMessage(messages, canonical, n);
      MediaOfFirst(messages, canonical, k, n - 1);
    }
  }

  lemma OneMoreMessage(messages: seq<Message>, canonical: seq<Message>, n: nat)
    requires 0 < n <= |messages| && MaterializeFirst(messages, canonical, n).Ok?
    ensures MaterializeFirst(messages, canonical, n - 1).Ok?
    ensures forall kind :: MediaIn(MaterializeFirst(messages, canonical, n - 1).value, kind) <= MediaIn(MaterializeFirst(messages, canonical, n).value, kind)
  {
    hide MaterializeOne;
  }

  /** What a call adds to the media of its conversation. */
  function AddedMedia(s: Snapshot, q: Request, kind: Kind): seq<nat> {
    var m := MaterializeSpec(q.messages, s.committed);
    if m.Ok? && |Held(s, kind)| <= |MediaIn(m.value, kind)| then MediaIn(m.value, kind)[|Held(s, kind)|..] else []
  }

  lemma HeldThenAdded(s: Snapshot, q: Request, kind: Kind)
    requires MaterializeSpec(q.messages, s.committed).Ok? && |s.committed| <= |q.messages|
    ensures MediaIn(MaterializeSpec(q.messages, s.committed).value, kind) == Held(s, kind) + AddedMedia(s, q, kind)
    ensures forall i :: 0 <= i < |AddedMedia(s, q, kind)| ==> AddedMedia(s, q, kind)[i] > 0
  {
    hide MaterializeFirst;
    var n := |s.committed|;
    SameMessages(q.messages, s.committed, s.committed, s.committed, n);
    MediaOfFirst(q.messages, s.committed, n, |q.messages|);
    MediaAreBounded(q.messages, s.committed, |q.messages|);
    var all := MediaIn(MaterializeSpec(q.messages, s.committed).value, kind);
    assert all[..|Held(s, kind)|] == Held(s, kind);
    forall i | 0 <= i < |AddedMedia(s, q, kind)|
      ensures AddedMedia(s, q, kind)[i] > 0
    {
      assert AddedMedia(s, q, kind)[i] == all[|Held(s, kind)| + i];
    }
  }

  /** Committing a reply adds no media. */
  lemma HeldAfterCommit(s: Snapshot, q: Request, after: Snapshot, text: Text, calls: seq<ToolCall>, kind: Kind)
    requires MaterializeSpec(q.messages, s.committed).Ok? && |s.committed| <= |q.messages|
    requires after.committed == s.committed + Added(s, q) + [AssistantMessage(text, calls)]
    ensures Held(after, kind) == MediaIn(MaterializeSpec(q.messages, s.committed).value, kind)
  {
    hide MaterializeOne, AssistantMessage;
    var n := |q.messages|;
    forall k | 0 <= k < n
      ensures CanonicalAt(after.committed, after.committed, k) == CanonicalAt(q.messages, s.committed, k)
    {
    }
    SameMessages(after.committed, after.committed, q.messages, s.committed, n);
    AssistantIsMaterialized(text, calls);
    EmptyUnits(MediaIn(MaterializeSpec(q.messages, s.committed).value, kind));
  }

  lemma PreparedMedia(setup: Setup, s: Snapshot, q: Request)
    requires Inv(setup, s) && Prepare(setup, s, q).Ok?
    ensures MaterializeSpec(q.messages, s.committed).Ok? && |s.committed| <= |q.messages|
    ensures forall kind :: Locate(Prepare(setup, s, q).value.prompt, MarksOf(kind), MediaIn(MaterializeSpec(q.messages, s.committed).value, kind), 0).Ok?
  {
    hide Refusal, MaterializeSpec, Locate, ReasoningFor, PromptFor, OutputLimit;
    RefusalExcludes(setup, s, q);
  }

  lemma LocatedInLonger(t: seq<Token>, more: seq<Token>, marks: Marks, counts: seq<nat>)
    requires Locate(t, marks, counts, 0).Ok?
    ensures Locate(t + more, marks, counts, 0) == Locate(t, marks, counts, 0)
  {
    hide Locate;
    LocateIsPrefixStable(t, more, marks, counts, [], 0);
    var offsets := Locate(t, marks, counts, 0).value;
    LocateNothing(t + more, marks, SearchAfter(counts, offsets, 0));
    EmptyUnits(counts);
    EmptyUnits(offsets);
  }

  lemma StepHoldsMedia(setup: Setup, s: Snapshot, c: Call)
    requires Inv(setup, s) && HoldsMedia(s)
    ensures HoldsMedia(GenerateSpec(setup, s, c.q, c.o).0)
  {
    hide GenerateSpec, Prepare, Locate, Transcript, Held, MaterializeSpec, AssistantMessage, CS.ContentIds, MarksOf;
    var (after, r) := GenerateSpec(setup, s, c.q, c.o);
    StepIsTransactional(setup, s, c.q, c.o);
    if r.Ok? {
      SuccessLeaves(setup, s, c.q, c.o);
      TranscriptGrows(setup, s, c.q, c.o);
      PreparedMedia(setup, s, c.q);
      forall kind
        ensures Locate(Transcript(after), MarksOf(kind), Held(after, kind), 0).Ok?
      {
        HeldAfterCommit(s, c.q, after, r.value.assistantText, r.value.calls, kind);
        LocatedInLonger(r.value.prompt, CS.ContentIds(setup.p.stops, r.value.inference.outputs), MarksOf(kind), Held(after, kind));
      }
    }
  }

  lemma OpenedHoldsMedia()
    ensures HoldsMedia(Opened())
  {
  }

  /** Over every run the resident tokens hold the resident media. */
  lemma {:induction false} RunHoldsMedia(setup: Setup, s: Snapshot, calls: seq<Call>)
    requires Inv(setup, s) && HoldsMedia(s)
    ensures HoldsMedia(Run(setup, s, calls))
    decreases |calls|
  {
    hide GenerateSpec, HoldsMedia;
    if calls != [] {
      StepKeepsInv(setup, s, calls[0].q, calls[0].o);
      StepHoldsMedia(setup, s, calls[0]);
      RunHoldsMedia(setup, GenerateSpec(setup, s, calls[0].q, calls[0].o).0, calls[1..]);
    }
  }

  // ---------------------------------------------------------------- one later call

  /** Where the search for added media starts in the resident tokens. */
  ghost function SearchFrom(s: Snapshot, kind: Kind): nat
    requires Locate(Transcript(s), MarksOf(kind), Held(s, kind), 0).Ok?
    ensures SearchFrom(s, kind) <= |Transcript(s)|
  {
    SearchStaysInside(Transcript(s), MarksOf(kind), Held(s, kind), 0);
    SearchAfter(Held(s, kind), Locate(Transcript(s), MarksOf(kind), Held(s, kind), 0).value, 0)
  }

  /** The resident tokens behind the resident media of a kind. */
  ghost function LeftBehind(s: Snapshot, kind: Kind): seq<Token>
    requires Locate(Transcript(s), MarksOf(kind), Held(s, kind), 0).Ok?
  {
    Transcript(s)[SearchFrom(s, kind)..]
  }

  /** What was left behind lets media with these counts be found. */
  ghost predicate HasRoom(s: Snapshot, kind: Kind, counts: seq<nat>)
    requires Locate(Transcript(s), MarksOf(kind), Held(s, kind), 0).Ok?
  {
    Room(Transcript(s), MarksOf(kind), counts, SearchFrom(s, kind), counts)
  }

  /** Without a begin mark there is always room; with one and no end mark there is none. */
  lemma HasRoomExactly(s: Snapshot, kind: Kind, counts: seq<nat>)
    requires Locate(Transcript(s), MarksOf(kind), Held(s, kind), 0).Ok?
    ensures MarksOf(kind).begin !in LeftBehind(s, kind) ==> HasRoom(s, kind, counts)
    ensures MarksOf(kind).begin in LeftBehind(s, kind) && MarksOf(kind).end !in LeftBehind(s, kind) ==> (HasRoom(s, kind, counts) <==> counts == [])
  {
    hide Locate, Transcript, Held, Room;
    if counts == [] {
      RoomForNothing(Transcript(s), MarksOf(kind), SearchFrom(s, kind), []);
    } else if MarksOf(kind).begin !in LeftBehind(s, kind) {
      RoomWithoutBegin(Transcript(s), MarksOf(kind), counts, SearchFrom(s, kind), counts);
    } else if MarksOf(kind).end !in LeftBehind(s, kind) {
      RoomWithoutEnd(Transcript(s), MarksOf(kind), counts, SearchFrom(s, kind));
    }
  }

  /** A user turn behind resident messages. */
  predicate ContinuesWithUser(s: Snapshot, q: Request) {
    && s.cachedPrefix != [] && |q.messages| == |s.committed| + 1
    && q.messages[|s.committed|].role == User
  }

  lemma AheadIsQuiet()
    ensures Quiet(AHEAD)
  {
    hide Ascii, Quiet;
    NoLetter("<turn|>\n");
    NoLetter("<|turn>");
    NoLetter("user\n");
    QuietWithoutLetter(AHEAD);
  }

  /** The new text holds no begin mark. */
  ghost predicate QuietTurn(s: Snapshot, q: Request)
    requires ContinuesWithUser(s, q)
  {
    var user := q.messages[|s.committed|];
    var w := WrittenOf(user, |user.content|);
    AllQuiet(w.head, w.pieces)
  }

  /** The content and the media of the new message. */
  lemma UserTurnIsWritten(s: Snapshot, q: Request, kind: Kind)
    requires ContinuesWithUser(s, q) && MaterializeSpec(q.messages, s.committed).Ok?
    ensures var m, user := MaterializeSpec(q.messages, s.committed).value, q.messages[|s.committed|];
            var w := WrittenOf(user, |user.content|);
            && m.messages != [] && m.messages[|m.messages| - 1].role == User
            && m.messages[|m.messages| - 1].content == Write(w.head, w.pieces)
            && AddedMedia(s, q, kind) == CountsOf(w.pieces, kind)
  {
    hide AddParts, WrittenOf, Write, CountsOf;
    var n := |s.committed|;
    var user := q.messages[n];
    ContentIsWritten(user, |user.content|);
    SameMessages(q.messages, s.committed, s.committed, s.committed, n);
    var w := WrittenOf(user, |user.content|);
    SplitOfConcat(Held(s, kind), CountsOf(w.pieces, kind));
  }

  /** The printed form of a quiet continuation. */
  lemma TurnEncodes(tk: Tables, w: Written, user: Text, thinking: bool)
    requires TurnTables(tk) && AllQuiet(w.head, w.pieces)
    requires user == Write(w.head, w.pieces) && EncodeSpec(tk, Continuation(user, thinking)).Ok?
    ensures var f := Framed(w, AHEAD, Written(After(thinking), []));
            && EncodeSpec(tk, Continuation(user, thinking)) == Ok(Print(ItemsOf(tk, f.head, f.pieces)))
            && BoundaryFree(ItemsOf(tk, f.head, f.pieces))
            && forall kind :: Counts(ItemsOf(tk, f.head, f.pieces), kind) == CountsOf(w.pieces, kind)
  {
    hide EncodeSpec, Ascii, TrimSpec, Consistent, Knows, Quiet, Continuation, After, Write, Counts, Print, BoundaryFree, CountsOf;
    ContinuationFrame(user, thinking);
    TextWrites(After(thinking));
    FramedWrites(w, AHEAD, Written(After(thinking), []));
    forall kind
      ensures CountsOf(w.pieces, kind) + CountsOf([], kind) == CountsOf(w.pieces, kind)
    {
      EmptyUnits(CountsOf(w.pieces, kind));
    }
    AheadIsQuiet();
    AfterIsQuiet(thinking);
    FramedQuiet(tk, w, AHEAD, Written(After(thinking), []));
    var f := Framed(w, AHEAD, Written(After(thinking), []));
    WriteEncodes(tk, f.head, f.pieces);
  }

  lemma TurnPrompt(setup: Setup, tk: Tables, t: Template, s: Snapshot, q: Request)
    requires Sound(setup, tk, t) && Inv(setup, s) && ContinuesWithUser(s, q) && MaterializeSpec(q.messages, s.committed).Ok?
    requires !s.poisoned
    ensures var m := MaterializeSpec(q.messages, s.committed).value;
            && m.messages != [] && m.messages[|m.messages| - 1].role == User
            && var user := m.messages[|m.messages| - 1].content;
               PromptFor(setup, s, q, m) == Prepend(Transcript(s), EncodeSpec(tk, Continuation(user, q.effort != Off)))
  {
    hide MaterializeFirst, Transcript, EncodeSpec, RenderSpec, Continuation, Consistent, ResolveResults;
  }

  /** The locators on a later user turn: each accepts exactly when what was left behind has room. */
  lemma LaterTurnLocates(setup: Setup, tk: Tables, t: Template, s: Snapshot, q: Request, kind: Kind)
    requires Sound(setup, tk, t) && TurnTables(tk) && Inv(setup, s) && HoldsMedia(s) && !s.poisoned
    requires ContinuesWithUser(s, q) && MaterializeSpec(q.messages, s.committed).Ok? && QuietTurn(s, q)
    requires PromptFor(setup, s, q, MaterializeSpec(q.messages, s.committed).value).Ok?
    ensures var m := MaterializeSpec(q.messages, s.committed).value;
            Locate(PromptFor(setup, s, q, m).value, MarksOf(kind), MediaIn(m, kind), 0).Ok? <==> HasRoom(s, kind, AddedMedia(s, q, kind))
  {
    hide MaterializeSpec, Transcript, EncodeSpec, RenderSpec, Continuation, Consistent, Locate, Held, PromptFor, WrittenOf, Write,
         Room, Print, BoundaryFree, Counts, CountsOf, Knows, AllQuiet, Quiet, AddedMedia, ItemsOf, Framed;
    var m, user := MaterializeSpec(q.messages, s.committed).value, q.messages[|s.committed|];
    var w, thinking := WrittenOf(user, |user.content|), q.effort != Off;
    TurnPrompt(setup, tk, t, s, q);
    UserTurnIsWritten(s, q, kind);
    HeldThenAdded(s, q, kind);
    TurnEncodes(tk, w, Write(w.head, w.pieces), thinking);
    UserTurnOpens(tk, Write(w.head, w.pieces), thinking);
    var f := Framed(w, AHEAD, Written(After(thinking), []));
    var items := ItemsOf(tk, f.head, f.pieces);
    LaterMediaExactly(Transcript(s), Print(items), Held(s, kind), items, kind);
  }

  lemma PrepareSplits(setup: Setup, s: Snapshot, q: Request)
    requires Inv(setup, s) && Refusal(setup, s, q).None? && MaterializeSpec(q.messages, s.committed).Ok?
    ensures !s.poisoned && |s.committed| <= |q.messages|
    ensures var m := MaterializeSpec(q.messages, s.committed).value;
            && m.messages != []
            && var prompt := PromptFor(setup, s, q, m);
               Prepare(setup, s, q).Ok?
               <==> && prompt.Ok? && OutputLimit(setup, q, prompt.value).Ok?
                    && forall kind :: Locate(prompt.value, MarksOf(kind), MediaIn(m, kind), 0).Ok?
  {
    hide Refusal, MaterializeSpec, Locate, ReasoningFor, PromptFor, OutputLimit;
    RefusalExcludes(setup, s, q);
    var m := MaterializeSpec(q.messages, s.committed).value;
    var prompt := PromptFor(setup, s, q, m);
    if prompt.Ok? && forall kind :: Locate(prompt.value, MarksOf(kind), MediaIn(m, kind), 0).Ok? {
      assert Locate(prompt.value, MarksOf(Audio), MediaIn(m, Audio), 0).Ok?;
      assert Locate(prompt.value, MarksOf(Image), MediaIn(m, Image), 0).Ok?;
    }
  }

  /** Main result over runs: an admitted later user turn of texts and media without begin marks is
      prepared exactly when it encodes, leaves room to answer, and what the resident tokens hold behind
      the resident media of each kind lets the added ones be found. */
  lemma LaterMediaTurnExactly(setup: Setup, tk: Tables, t: Template, calls: seq<Call>, q: Request)
    requires Sound(setup, tk, t) && TurnTables(tk)
    requires var s := Run(setup, Opened(), calls);
             && Refusal(setup, s, q).None? && ContinuesWithUser(s, q) && QuietTurn(s, q)
             && MaterializeSpec(q.messages, s.committed).Ok?
    ensures var s := Run(setup, Opened(), calls);
            var m := MaterializeSpec(q.messages, s.committed).value;
            && (forall kind :: Locate(Transcript(s), MarksOf(kind), Held(s, kind), 0).Ok?)
            && m.messages != [] && |s.committed| <= |q.messages|
            && var prompt := PromptFor(setup, s, q, m);
               Prepare(setup, s, q).Ok?
               <==> && prompt.Ok? && OutputLimit(setup, q, prompt.value).Ok?
                    && HasRoom(s, Audio, AddedMedia(s, q, Audio)) && HasRoom(s, Image, AddedMedia(s, q, Image))
  {
    hide Run, Refusal, MaterializeSpec, Locate, PromptFor, OutputLimit, QuietTurn, HasRoom, AddedMedia, Sound, TurnTables, Transcript, Prepare;
    var s := Run(setup, Opened(), calls);
    OpenedHoldsMedia();
    RunHoldsMedia(setup, Opened(), calls);
    PrepareSplits(setup, s, q);
    var m := MaterializeSpec(q.messages, s.committed).value;
    if PromptFor(setup, s, q, m).Ok? {
      LaterTurnLocates(setup, tk, t, s, q, Audio);
      LaterTurnLocates(setup, tk, t, s, q, Image);
      BothKinds(PromptFor(setup, s, q, m).value, m);
    }
  }

  lemma BothKinds(prompt: seq<Token>, m: Materialized)
    ensures (forall kind :: Locate(prompt, MarksOf(kind), MediaIn(m, kind), 0).Ok?)
       <==> Locate(prompt, MarksOf(Audio), MediaIn(m, Audio), 0).Ok? && Locate(prompt, MarksOf(Image), MediaIn(m, Image), 0).Ok?
  {
    hide Locate;
  }

  // ---------------------------------------------------------------- tool results

  lemma {:induction false} ToolsAddNoMedia(messages: seq<Message>, canonical: seq<Message>, n: nat)
    requires |canonical| <= n <= |messages| && MaterializeFirst(messages, canonical, n).Ok?
    requires forall k :: |canonical| <= k < n ==> messages[k].role == Tool
    ensures MaterializeFirst(messages, canonical, |canonical|).Ok?
    ensures forall kind :: MediaIn(MaterializeFirst(messages, canonical, n).value, kind)
                        == MediaIn(MaterializeFirst(messages, canonical, |canonical|).value, kind)
    decreases n
  {
    hide AddParts;
    if n > |canonical| {
      ToolsAddNoMedia(messages, canonical, n - 1);
      OnlyUsersHoldMedia(messages[n - 1], |messages[n - 1].content|);
    }
  }

  /** Tokens that continue no block. */
  ghost predicate OutsideBlocks(added: seq<Token>) {
    added != [] && forall kind :: BreaksBlock(MarksOf(kind), added[0])
  }

  /** A later call adds tokens behind the resident ones that start outside any block. */
  ghost predicate StartsOutsideBlocks(p: Processor) {
    && (forall u, t :: p.continueUser(u, t).Ok? ==> OutsideBlocks(p.continueUser(u, t).value))
    && (forall r, t :: p.continueTools(r, t).Ok? ==> OutsideBlocks(p.continueTools(r, t).value))
  }

  lemma SoundStartsOutside(setup: Setup, tk: Tables, t: Template)
    requires Sound(setup, tk, t) && TurnTables(tk)
    ensures StartsOutsideBlocks(setup.p)
  {
    hide EncodeSpec, ToolPrompt, Continuation, Consistent, Knows, RenderSpec, TurnTables;
    forall u, th | setup.p.continueUser(u, th).Ok?
      ensures OutsideBlocks(setup.p.continueUser(u, th).value)
    {
      UserTurnOpens(tk, u, th);
    }
    forall r, th | setup.p.continueTools(r, th).Ok?
      ensures OutsideBlocks(setup.p.continueTools(r, th).value)
    {
      ToolTurnOpens(tk, r, th);
    }
  }

  /** The prompt of any later call: the resident tokens, and what starts outside any block. */
  lemma LaterPrompt(setup: Setup, s: Snapshot, q: Request, m: Materialized)
    requires Inv(setup, s) && s.cachedPrefix != [] && !s.poisoned && m.messages != [] && |s.committed| <= |q.messages|
    requires StartsOutsideBlocks(setup.p) && PromptFor(setup, s, q, m).Ok?
    ensures exists added :: PromptFor(setup, s, q, m).value == Transcript(s) + added && OutsideBlocks(added)
  {
    hide ResolveResults, BreaksBlock, Transcript;
    var last := m.messages[|m.messages| - 1];
    if last.role == Tool {
      var results := ResolveResults(s.committed[|s.committed| - 1].content, Added(s, q));
      assert results.Ok?;
      var added := setup.p.continueTools(results.value, q.effort != Off).value;
      assert PromptFor(setup, s, q, m).value == Transcript(s) + added && OutsideBlocks(added);
    } else {
      var added := setup.p.continueUser(last.content, q.effort != Off).value;
      assert PromptFor(setup, s, q, m).value == Transcript(s) + added && OutsideBlocks(added);
    }
  }

  /** Main result: over every run, no locator refuses a call that answers tools. */
  lemma LaterToolTurnIsLocated(setup: Setup, tk: Tables, t: Template, calls: seq<Call>, q: Request)
    requires Sound(setup, tk, t) && TurnTables(tk)
    requires var s := Run(setup, Opened(), calls);
             && Refusal(setup, s, q).None? && s.cachedPrefix != [] && MaterializeSpec(q.messages, s.committed).Ok?
             && |s.committed| <= |q.messages| && forall k :: |s.committed| <= k < |q.messages| ==> q.messages[k].role == Tool
    ensures var s := Run(setup, Opened(), calls);
            var m := MaterializeSpec(q.messages, s.committed).value;
            && m.messages != []
            && var prompt := PromptFor(setup, s, q, m);
               Prepare(setup, s, q).Ok? <==> prompt.Ok? && OutputLimit(setup, q, prompt.value).Ok?
  {
    hide Run, Refusal, Locate, PromptFor, OutputLimit, Sound, TurnTables, Transcript, Prepare, MaterializeFirst, StartsOutsideBlocks;
    var s := Run(setup, Opened(), calls);
    OpenedHoldsMedia();
    RunHoldsMedia(setup, Opened(), calls);
    SoundStartsOutside(setup, tk, t);
    PrepareSplits(setup, s, q);
    var m := MaterializeSpec(q.messages, s.committed).value;
    var prompt := PromptFor(setup, s, q, m);
    if prompt.Ok? {
      LaterPrompt(setup, s, q, m);
      var added :| prompt.value == Transcript(s) + added;
      ToolsAddNoMedia(q.messages, s.committed, |q.messages|);
      SameMessages(q.messages, s.committed, s.committed, s.committed, |s.committed|);
      forall kind: Kind
        ensures Locate(prompt.value, MarksOf(kind), MediaIn(m, kind), 0).Ok?
      {
        LocatedInLonger(Transcript(s), added, MarksOf(kind), Held(s, kind));
      }
    }
  }

  // ---------------------------------------------------------------- a begin mark left behind

  /** A begin mark, but no end mark, stands behind the resident media of the kind. */
  ghost predicate Stuck(s: Snapshot, kind: Kind) {
    && !s.poisoned && s.cachedPrefix != [] && Locate(Transcript(s), MarksOf(kind), Held(s, kind), 0).Ok?
    && MarksOf(kind).begin in LeftBehind(s, kind) && MarksOf(kind).end !in LeftBehind(s, kind)
  }

  lemma {:induction false} LocateCode(prompt: seq<Token>, marks: Marks, counts: seq<nat>, search: nat)
    requires search <= |prompt|
    ensures Locate(prompt, marks, counts, search).Err? ==> Locate(prompt, marks, counts, search).code == DataLoss
    decreases |counts|
  {
    hide FindToken, Placeholders;
    if counts != [] && LocateOne(prompt, marks, counts[0], search).Ok? {
      LocateCode(prompt, marks, counts[1..], LocateOne(prompt, marks, counts[0], search).value + counts[0] + 1);
    }
  }

  /** Nothing of that kind is found behind it. */
  lemma StuckLocates(t: seq<Token>, added: seq<Token>, kind: Kind, resident: seq<nat>, counts: seq<nat>)
    requires Locate(t, MarksOf(kind), resident, 0).Ok? && added != [] && BreaksBlock(MarksOf(kind), added[0])
    requires counts != [] && counts[0] > 0
    requires var left := Behind(t, MarksOf(kind), resident, 0); MarksOf(kind).begin in left && MarksOf(kind).end !in left
    ensures Locate(t + added, MarksOf(kind), resident + counts, 0) == Err(DataLoss)
  {
    hide Locate, LocateOne, FindToken;
    SearchStaysInside(t, MarksOf(kind), resident, 0);
    var from := SearchAfter(resident, Locate(t, MarksOf(kind), resident, 0).value, 0);
    LocateIsPrefixStable(t, added, MarksOf(kind), resident, counts, 0);
    FindNone(t, MarksOf(kind).begin, from);
    NoBlockAcross(t, added, MarksOf(kind), counts[0], from);
    BlockHasEnd(t, MarksOf(kind), counts[0], from);
    LocateFails(t + added, MarksOf(kind), counts, from);
  }

  lemma PrepareFailsToLocate(setup: Setup, s: Snapshot, q: Request, kind: Kind)
    requires Inv(setup, s) && Refusal(setup, s, q).None? && MaterializeSpec(q.messages, s.committed).Ok?
    requires var m := MaterializeSpec(q.messages, s.committed).value;
             && m.messages != [] && |s.committed| <= |q.messages| && (s.cachedPrefix != [] ==> s.committed != [])
             && PromptFor(setup, s, q, m).Ok?
             && Locate(PromptFor(setup, s, q, m).value, MarksOf(kind), MediaIn(m, kind), 0).Err?
    ensures Prepare(setup, s, q) == Err(DataLoss)
  {
    hide Refusal, MaterializeSpec, Locate, ReasoningFor, PromptFor, OutputLimit;
    var m := MaterializeSpec(q.messages, s.committed).value;
    LocateCode(PromptFor(setup, s, q, m).value, MarksOf(Audio), m.audio, 0);
    LocateCode(PromptFor(setup, s, q, m).value, MarksOf(Image), m.images, 0);
  }

  /** A call that would add media of the kind is refused with DataLoss and changes nothing. */
  lemma StuckRefuses(setup: Setup, s: Snapshot, q: Request, o: CS.Oracle, kind: Kind)
    requires Inv(setup, s) && Stuck(s, kind) && StartsOutsideBlocks(setup.p)
    requires Refusal(setup, s, q).None? && MaterializeSpec(q.messages, s.committed).Ok? && AddedMedia(s, q, kind) != []
    requires var m := MaterializeSpec(q.messages, s.committed).value;
             m.messages != [] && |s.committed| <= |q.messages| && PromptFor(setup, s, q, m).Ok?
    ensures Prepare(setup, s, q) == Err(DataLoss) && GenerateSpec(setup, s, q, o) == (s, Err(DataLoss))
  {
    hide Refusal, Locate, PromptFor, OutputLimit, Transcript, Prepare, MaterializeSpec, StartsOutsideBlocks, AddedMedia, Held;
    var m := MaterializeSpec(q.messages, s.committed).value;
    LaterPrompt(setup, s, q, m);
    var added :| PromptFor(setup, s, q, m).value == Transcript(s) + added && OutsideBlocks(added);
    HeldThenAdded(s, q, kind);
    StuckLocates(Transcript(s), added, kind, Held(s, kind), AddedMedia(s, q, kind));
    PrepareFailsToLocate(setup, s, q, kind);
  }

  /** A call that succeeds adds no such media, and leaves the begin mark where it is. */
  lemma StuckStep(setup: Setup, s: Snapshot, c: Call, kind: Kind)
    requires Inv(setup, s) && Stuck(s, kind) && StartsOutsideBlocks(setup.p)
    ensures var after := GenerateSpec(setup, s, c.q, c.o).0;
            after.poisoned
            || (&& after.cachedPrefix != [] && Locate(Transcript(after), MarksOf(kind), Held(after, kind), 0).Ok?
                && Held(after, kind) == Held(s, kind) && LeftBehind(s, kind) <= LeftBehind(after, kind))
  {
    hide GenerateSpec, Prepare, Locate, Transcript, Held, MaterializeSpec, AssistantMessage, CS.ContentIds, MarksOf, StartsOutsideBlocks, AddedMedia,
         Refusal, PromptFor, SearchFrom, LeftBehind;
    var (after, r) := GenerateSpec(setup, s, c.q, c.o);
    StepIsTransactional(setup, s, c.q, c.o);
    if r.Ok? {
      SuccessLeaves(setup, s, c.q, c.o);
      TranscriptGrows(setup, s, c.q, c.o);
      StepKeepsInv(setup, s, c.q, c.o);
      PreparedMedia(setup, s, c.q);
      PromptExtendsTranscript(setup, s, c.q);
      SuccessAddsNone(setup, s, c.q, c.o, kind);
      HeldThenAdded(s, c.q, kind);
      HeldAfterCommit(s, c.q, after, r.value.assistantText, r.value.calls, kind);
      EmptyUnits(Held(s, kind));
      StaysLocated(s, after, kind);
    }
  }

  lemma StaysLocated(s: Snapshot, after: Snapshot, kind: Kind)
    requires Locate(Transcript(s), MarksOf(kind), Held(s, kind), 0).Ok?
    requires Transcript(s) <= Transcript(after) && Held(after, kind) == Held(s, kind)
    ensures Locate(Transcript(after), MarksOf(kind), Held(after, kind), 0).Ok?
    ensures LeftBehind(s, kind) <= LeftBehind(after, kind)
  {
    hide Locate, Transcript, Held, MarksOf;
    var more := Transcript(after)[|Transcript(s)|..];
    assert Transcript(after) == Transcript(s) + more;
    LocatedInLonger(Transcript(s), more, MarksOf(kind), Held(s, kind));
    SearchStaysInside(Transcript(s), MarksOf(kind), Held(s, kind), 0);
    DropOfConcat(Transcript(s), more, SearchFrom(s, kind));
  }

  lemma SuccessAddsNone(setup: Setup, s: Snapshot, q: Request, o: CS.Oracle, kind: Kind)
    requires Inv(setup, s) && Stuck(s, kind) && StartsOutsideBlocks(setup.p) && Prepare(setup, s, q).Ok?
    ensures AddedMedia(s, q, kind) == []
  {
    hide Locate, Transcript, Held, AddedMedia, StartsOutsideBlocks, MaterializeSpec, Refusal, PromptFor, OutputLimit, ReasoningFor, Stuck;
    RefusalExcludes(setup, s, q);
    if AddedMedia(s, q, kind) != [] {
      StuckRefuses(setup, s, q, o, kind);
    }
  }

  /** No state of the run has an end mark behind its media of the kind. */
  ghost predicate EndFree(setup: Setup, s: Snapshot, calls: seq<Call>, kind: Kind)
    requires Inv(setup, s)
    decreases |calls|
  {
    calls != [] ==>
      var after := GenerateSpec(setup, s, calls[0].q, calls[0].o).0;
      && (!after.poisoned && Locate(Transcript(after), MarksOf(kind), Held(after, kind), 0).Ok? ==>
            MarksOf(kind).end !in LeftBehind(after, kind))
      && (StepKeepsInv(setup, s, calls[0].q, calls[0].o);
          EndFree(setup, after, calls[1..], kind))
  }

  lemma {:induction false} RunStaysStuck(setup: Setup, s: Snapshot, calls: seq<Call>, kind: Kind)
    requires Inv(setup, s) && (s.poisoned || Stuck(s, kind)) && StartsOutsideBlocks(setup.p) && EndFree(setup, s, calls, kind)
    ensures Run(setup, s, calls).poisoned || Stuck(Run(setup, s, calls), kind)
    decreases |calls|
  {
    hide GenerateSpec, Locate, Transcript, Held, StartsOutsideBlocks;
    if calls != [] {
      var c := calls[0];
      var after := GenerateSpec(setup, s, c.q, c.o).0;
      StepKeepsInv(setup, s, c.q, c.o);
      StepIsTransactional(setup, s, c.q, c.o);
      if !s.poisoned {
        StuckStep(setup, s, c, kind);
      }
      RunStaysStuck(setup, after, calls[1..], kind);
    }
  }

  /** Main result: once a begin mark stands behind the media of a kind, media of that kind are refused
      with DataLoss for good, without poison, as long as no end mark is generated or written. */
  lemma RefusedForGood(setup: Setup, tk: Tables, t: Template, calls: seq<Call>, more: seq<Call>, q: Request, o: CS.Oracle, kind: Kind)
    requires Sound(setup, tk, t) && TurnTables(tk)
    requires Stuck(Run(setup, Opened(), calls), kind) && EndFree(setup, Run(setup, Opened(), calls), more, kind)
    requires var s := Run(setup, Opened(), calls + more);
             && Refusal(setup, s, q).None? && MaterializeSpec(q.messages, s.committed).Ok? && AddedMedia(s, q, kind) != []
             && var m := MaterializeSpec(q.messages, s.committed).value;
                m.messages != [] && |s.committed| <= |q.messages| && (s.cachedPrefix != [] ==> s.committed != []) && PromptFor(setup, s, q, m).Ok?
    ensures var s := Run(setup, Opened(), calls + more);
            GenerateSpec(setup, s, q, o) == (s, Err(DataLoss))
  {
    hide Run, EndFree, Refusal, MaterializeSpec, PromptFor, AddedMedia, Stuck, Sound, TurnTables, GenerateSpec, StartsOutsideBlocks;
    var s := Run(setup, Opened(), calls + more);
    SoundStartsOutside(setup, tk, t);
    RunConcat(setup, Opened(), calls, more);
    RunStaysStuck(setup, Run(setup, Opened(), calls), more, kind);
    NoPoisonAdmitted(setup, s, q);
    StuckRefuses(setup, s, q, o, kind);
  }

  lemma NoPoisonAdmitted(setup: Setup, s: Snapshot, q: Request)
    requires Refusal(setup, s, q).None?
    ensures !s.poisoned
  {
  }

  /** A begin mark among the generated content sticks, unless an end mark follows the media too. */
  lemma GeneratedBeginSticks(setup: Setup, s: Snapshot, c: Call, kind: Kind)
    requires Inv(setup, s) && HoldsMedia(s) && GenerateSpec(setup, s, c.q, c.o).1.Ok?
    requires MarksOf(kind).begin in CS.ContentIds(setup.p.stops, GenerateSpec(setup, s, c.q, c.o).1.value.inference.outputs)
    ensures var after := GenerateSpec(setup, s, c.q, c.o).0;
            && Locate(Transcript(after), MarksOf(kind), Held(after, kind), 0).Ok?
            && (MarksOf(kind).end !in LeftBehind(after, kind) ==> Stuck(after, kind))
  {
    hide GenerateSpec, Prepare, Locate, Transcript, Held, MaterializeSpec, AssistantMessage, CS.ContentIds, MarksOf;
    var (after, r) := GenerateSpec(setup, s, c.q, c.o);
    var content := CS.ContentIds(setup.p.stops, r.value.inference.outputs);
    SuccessLeaves(setup, s, c.q, c.o);
    TranscriptGrows(setup, s, c.q, c.o);
    StepKeepsInv(setup, s, c.q, c.o);
    StepIsTransactional(setup, s, c.q, c.o);
    PreparedMedia(setup, s, c.q);
    HeldAfterCommit(s, c.q, after, r.value.assistantText, r.value.calls, kind);
    LocatedInLonger(r.value.prompt, content, MarksOf(kind), Held(after, kind));
    SearchStaysInside(r.value.prompt, MarksOf(kind), Held(after, kind), 0);
    DropOfConcat(r.value.prompt, content, SearchFrom(after, kind));
    var behind := r.value.prompt[SearchFrom(after, kind)..];
    InTail(behind, content, MarksOf(kind).begin);
  }

  lemma InTail(a: seq<Token>, b: seq<Token>, x: Token)
    requires x in b
    ensures x in a + b
  {
    var i :| 0 <= i < |b| && b[i] == x;
    assert (a + b)[|a| + i] == x;
  }

  /** A text without openers of any kind extracts. */
  lemma ExtractsWithoutOpeners(k: Markers, text: Text)
    requires NonEmpty(k) && !Contains(text, k.thinkingOpen) && !Contains(text, k.toolCallStart)
    ensures ExtractSpec(k, text).Ok?
  {
    hide Contains, Find, ContentEnd, Ascii, TrimSpec;
    FindIsContains(text, k.thinkingOpen);
    assert text[0..] == text;
    var part := VisiblePart(k, text);
    PrefixFree(text, k.toolCallStart, 0, |part|);
    assert part == text[0..|part|];
    FindIsContains(part, k.toolCallStart);
  }

  /** It happens: a model that answers the image begin mark once, at a limit of one, in a session
      without images, succeeds; and from then on the session is stuck for images. */
  lemma GeneratedBeginHappens(setup: Setup, tk: Tables, t: Template, s: Snapshot, q: Request)
    requires Sound(setup, tk, t) && TurnTables(tk) && Inv(setup, s) && HoldsMedia(s)
    requires Prepare(setup, s, q).Ok? && Prepare(setup, s, q).value.limit == 1 && !Prepare(setup, s, q).value.toolResults
    requires BackendOf(setup, s, Prepare(setup, s, q).value, Always(255999)).1.Ok?
    requires 255999 !in setup.p.stops && setup.p.controls.opener != [] && 255999 != setup.p.controls.opener[0] && 255999 != setup.p.controls.close
    requires !Contains(BeginText(Image), t.markers.thinkingOpen) && !Contains(BeginText(Image), t.markers.toolCallStart)
    requires setup.p.admitsCalls(q.tools, q.choice, []) && 258882 !in Prepare(setup, s, q).value.prompt
    ensures var (after, r) := GenerateSpec(setup, s, q, Always(255999));
            r.Ok? && r.value.inference.outputs == [255999] && Stuck(after, Image)
  {
    hide Prepare, Sound, MarkersApart, ExtractSpec, GenerateSpec, TokenizerDecode.Piece, TurnTables, Locate, Held, Stuck, Contains, BlockOf, Transcript, HoldsMedia;
    SoundParts(setup, tk, t);
    var job := Prepare(setup, s, q).value;
    OneOutput(setup, s, job, 255999);
    OneVisible(setup.p.controls, 255999);
    assert ContentOf(setup.p, [255999]) == [255999] && VisibleOf(setup.p, job, [255999]) == [255999];
    BeginDecodes(setup, tk, t);
    ExtractsWithoutOpeners(t.markers, BeginText(Image));
    assert !Miscounted(setup.p, job, [255999]);
    BeginHasNoCalls(setup, tk, t);
    SuccessPoisonsExactly(setup, tk, t, s, q, Always(255999));
    NoPoisonSucceeds(setup, s, q, Always(255999));
    GeneratedBeginSticks(setup, s, Call(q, Always(255999)), Image);
    NoEndLeft(setup, s, q);
  }

  lemma BeginDecodes(setup: Setup, tk: Tables, t: Template)
    requires Sound(setup, tk, t) && TurnTables(tk)
    ensures DecodeSpec(tk, [255999], false) == Ok(BeginText(Image)) && !HoldsAbsent(tk, [255999])
  {
    hide FirstMatch, VocabularyAgrees, MergesAgree, Ascii;
    var begin := BlockOf(Image).begin;
    assert Prints(tk, BlockOf(Image), Image);
    DominantIsAdded(tk, begin);
    AddedIds(tk, begin);
    EmptyUnits(begin.content);
    assert [255999][1..] == [];
    assert DecodeSpec(tk, [255999], false) == Prepend(TokenizerDecode.Piece(tk, 255999), DecodeSpec(tk, [], false));
  }

  lemma BeginHasNoCalls(setup: Setup, tk: Tables, t: Template)
    requires Sound(setup, tk, t) && !Contains(BeginText(Image), t.markers.toolCallStart)
    ensures setup.p.parseCalls(BeginText(Image)) == Ok([])
  {
    hide Contains, BlockOf, Consistent;
  }

  lemma NoPoisonSucceeds(setup: Setup, s: Snapshot, q: Request, o: CS.Oracle)
    requires Inv(setup, s) && Prepare(setup, s, q).Ok? && BackendOf(setup, s, Prepare(setup, s, q).value, o).1.Ok?
    requires !GenerateSpec(setup, s, q, o).0.poisoned
    ensures var r := GenerateSpec(setup, s, q, o).1;
            r.Ok? && r.value.inference == BackendOf(setup, s, Prepare(setup, s, q).value, o).1.value
  {
    hide Prepare, CS.GenerateSpec, CS.ContentIds, RC.OnChannel;
  }

  lemma NoEndLeft(setup: Setup, s: Snapshot, q: Request)
    requires Inv(setup, s) && GenerateSpec(setup, s, q, Always(255999)).1.Ok?
    requires GenerateSpec(setup, s, q, Always(255999)).1.value.inference.outputs == [255999]
    requires Prepare(setup, s, q).Ok? && 258882 !in Prepare(setup, s, q).value.prompt
    ensures var after := GenerateSpec(setup, s, q, Always(255999)).0;
            Locate(Transcript(after), MarksOf(Image), Held(after, Image), 0).Ok? ==> MarksOf(Image).end !in LeftBehind(after, Image)
  {
    hide Prepare, GenerateSpec, Transcript, Held, Locate;
    TranscriptGrows(setup, s, q, Always(255999));
  }
}
