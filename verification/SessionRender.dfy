/** Whether the messages a chat session holds can be rendered afresh. */
module SessionRender {
  import opened Seqs
  import opened Tokenizer
  import opened TokenizerDecode
  import opened ResponseContent
  import opened ChatTemplate
  import opened ChatSession
  import opened ChatRuns
  import opened Media
  import opened SessionText

  // ---------------------------------------------------------------- longer conversations

  lemma {:induction false} SpeakerOfPrefix(a: seq<ChatMessage>, b: seq<ChatMessage>, previous: Role, k: nat)
    requires k <= |a|
    ensures Speaker(a + b, previous, k) == Speaker(a, previous, k)
  {
    if k > 0 {
      SpeakerOfPrefix(a, b, previous, k - 1);
    }
  }

  /** Alternation of a longer conversation, message by message. */
  lemma AlternatesConcat(a: seq<ChatMessage>, b: seq<ChatMessage>, previous: Role)
    ensures Alternates(a + b, previous) <==> Alternates(a, previous) && Alternates(b, Speaker(a, previous, |a|))
  {
    hide Speaker;
    var c := a + b;
    SplitOfConcat(a, b);
    SpeakerOfPrefix(a, b, previous, |a|);
    AlternatesBehind(c, previous, |a|);
    forall k: nat | k < |a|
      ensures InTurn(c, previous, k) == InTurn(a, previous, k)
    {
      SpeakerOfPrefix(a, b, previous, k);
    }
  }

  lemma AlternatesOne(m: ChatMessage, previous: Role)
    ensures Alternates([m], previous)
       <==> if m.role == Tool then previous == Assistant else (m.role == User || m.role == Assistant) && m.role != previous
  {
    assert InTurn([m], previous, 0) <==> Alternates([m], previous);
  }

  lemma {:induction false} SpeakerOverResults(b: seq<ChatMessage>, previous: Role, n: nat)
    requires n <= |b| && forall k :: 0 <= k < n ==> b[k].role == Tool
    ensures Speaker(b, previous, n) == previous
  {
    if n > 0 {
      SpeakerOverResults(b, previous, n - 1);
    }
  }

  lemma AlternatesTools(b: seq<ChatMessage>)
    requires forall k :: 0 <= k < |b| ==> b[k].role == Tool
    ensures Alternates(b, Assistant)
  {
    forall k: nat | k < |b|
      ensures InTurn(b, Assistant, k)
    {
      SpeakerOverResults(b, Assistant, k);
    }
  }

  /** Who speaks last in a conversation in turn. */
  lemma LastSpeaker(c: seq<ChatMessage>, previous: Role)
    requires c != [] && Alternates(c, previous)
    ensures Speaker(c, previous, |c|) == if c[|c| - 1].role == Tool then Assistant else c[|c| - 1].role
  {
    assert InTurn(c, previous, |c| - 1);
  }

  /** The roles that a call shows, without a system message. */
  function Turned(messages: seq<ChatMessage>): seq<ChatMessage> {
    if messages == [] then [] else Conversation(messages)
  }

  lemma TurnedConcat(a: seq<ChatMessage>, b: seq<ChatMessage>)
    requires a != []
    ensures Turned(a + b) == Turned(a) + b
  {
    TailOfConcat(a, b);
  }

  ghost predicate InOrder(messages: seq<ChatMessage>) {
    Alternates(Turned(messages), NOBODY)
  }

  // ---------------------------------------------------------------- the messages of a call

  /** What a call adds to the resident messages, as the template gets it. */
  function AddedOf(s: Snapshot, q: Request): seq<ChatMessage>
    requires |Resident(s)| <= |MessagesOf(s, q)|
  {
    MessagesOf(s, q)[|Resident(s)|..]
  }

  lemma {:induction false} FirstMessages(messages: seq<Message>, canonical: seq<Message>, k: nat, n: nat)
    requires k <= n <= |messages| && MaterializeFirst(messages, canonical, n).Ok?
    ensures MaterializeFirst(messages, canonical, k).Ok?
    ensures MaterializeFirst(messages, canonical, k).value.messages == MaterializeFirst(messages, canonical, n).value.messages[..k]
  {
    hide MaterializeOne;
    if k < n {
      FirstMessages(messages, canonical, k, n - 1);
      var m := MaterializeFirst(messages, canonical, n).value.messages;
      assert m[..n - 1][..k] == m[..k];
    }
  }

  /** A prepared call on a session with history shows the resident messages and its own. */
  lemma MessagesExtend(setup: Setup, s: Snapshot, q: Request)
    requires Inv(setup, s) && Prepare(setup, s, q).Ok? && s.cachedPrefix != []
    ensures |Resident(s)| == |s.committed| < |MessagesOf(s, q)| == |q.messages| && Resident(s) != []
    ensures MessagesOf(s, q) == Resident(s) + AddedOf(s, q)
    ensures Resident(s)[|Resident(s)| - 1].role == Assistant
    ensures var added := AddedOf(s, q);
            if q.messages[|q.messages| - 1].role == Tool then forall k :: 0 <= k < |added| ==> added[k].role == Tool
            else |added| == 1 && added[0].role == User
  {
    hide Refusal, Locate, ReasoningFor, ResolveResults, OutputLimit, PromptFor, MaterializeOne;
    AddedRoles(setup, s, q);
    var n := |s.committed|;
    FirstMessages(q.messages, s.committed, n, |q.messages|);
    SameMessages(q.messages, s.committed, s.committed, s.committed, n);
    var all := MessagesOf(s, q);
    assert all[..n] == Resident(s);
    SplitAt(all, n);
  }

  lemma SplitAt<T>(s: seq<T>, n: nat)
    requires n <= |s|
    ensures s == s[..n] + s[n..]
  {
  }

  lemma AddedRoles(setup: Setup, s: Snapshot, q: Request)
    requires Inv(setup, s) && Prepare(setup, s, q).Ok? && s.cachedPrefix != []
    ensures !s.poisoned && s.committed != [] && |s.committed| < |q.messages| && MaterializeSpec(q.messages, s.committed).Ok?
    ensures s.committed[|s.committed| - 1].role == Assistant
    ensures if q.messages[|q.messages| - 1].role == Tool then forall k :: |s.committed| <= k < |q.messages| ==> q.messages[k].role == Tool
            else |q.messages| == |s.committed| + 1 && q.messages[|s.committed|].role == User
  {
    hide MaterializeSpec, Locate, ReasoningFor, ResolveResults, OutputLimit, PromptFor, Extends;
    RefusalExcludes(setup, s, q);
  }

  /** A prepared first call shows what its messages are. */
  lemma FirstCall(setup: Setup, s: Snapshot, q: Request)
    requires Inv(setup, s) && Prepare(setup, s, q).Ok? && s.cachedPrefix == []
    ensures s.committed == [] && q.messages != [] && |MessagesOf(s, q)| == |q.messages|
    ensures MessagesOf(s, q)[|q.messages| - 1].role == q.messages[|q.messages| - 1].role
    ensures q.messages[|q.messages| - 1].role == User || q.messages[|q.messages| - 1].role == Tool
    ensures setup.p.encode(MessagesOf(s, q), q.effort != Off, Shown(q.tools, q.choice)).Ok?
  {
    hide MaterializeSpec, Locate, ReasoningFor, ResolveResults, OutputLimit, Extends;
    PrepareExcludes(setup, s, q);
  }

  // ---------------------------------------------------------------- one call

  /** The last message of the call is a tool result. */
  predicate AnswersTools(q: Request) {
    q.messages != [] && q.messages[|q.messages| - 1].role == Tool
  }

  /** What the calls so far left: a session without history, or one whose messages are in order
      exactly when no call answered tools. */
  ghost predicate Ordered(s: Snapshot, answered: bool) {
    !s.poisoned ==>
      if s.cachedPrefix == [] then !answered
      else Resident(s) != [] && (InOrder(Resident(s)) <==> !answered)
  }

  /** The messages of a prepared call are in order exactly when the resident ones are. */
  lemma CallInOrder(setup: Setup, tk: Tables, t: Template, s: Snapshot, q: Request, answered: bool)
    requires Sound(setup, tk, t) && Inv(setup, s) && Ordered(s, answered) && Prepare(setup, s, q).Ok?
    ensures MessagesOf(s, q) != [] && (InOrder(MessagesOf(s, q)) <==> !answered)
    ensures InOrder(MessagesOf(s, q)) ==>
              Speaker(Turned(MessagesOf(s, q)), NOBODY, |Turned(MessagesOf(s, q))|) == if AnswersTools(q) then Assistant else User
  {
    hide Prepare, MessagesOf, Resident, Sound, Alternates, Speaker, Turned;
    PrepareExcludes(setup, s, q);
    if s.cachedPrefix == [] {
      FirstCallInOrder(setup, tk, t, s, q);
    } else {
      MessagesExtend(setup, s, q);
      var added := AddedOf(s, q);
      TurnedConcat(Resident(s), added);
      ExtendInOrder(Turned(Resident(s)), Resident(s), added);
    }
  }

  lemma FirstCallInOrder(setup: Setup, tk: Tables, t: Template, s: Snapshot, q: Request)
    requires Sound(setup, tk, t) && Inv(setup, s) && s.cachedPrefix == [] && Prepare(setup, s, q).Ok?
    ensures MessagesOf(s, q) != [] && InOrder(MessagesOf(s, q))
    ensures Speaker(Turned(MessagesOf(s, q)), NOBODY, |Turned(MessagesOf(s, q))|) == if AnswersTools(q) then Assistant else User
  {
    hide Prepare, MessagesOf, Resident, RenderSpec, EncodeSpec, Consistent, Alternates, Speaker, AllRender, Ending;
    PrepareExcludes(setup, s, q);
    FirstCall(setup, s, q);
    RenderSucceedsExactly(t, MessagesOf(s, q), q.effort != Off, true, Shown(q.tools, q.choice));
    LastOfTurned(MessagesOf(s, q), t);
    LastSpeaker(Turned(MessagesOf(s, q)), NOBODY);
  }

  /** A conversation that a generation prompt can follow holds more than a system message. */
  lemma LastOfTurned(messages: seq<ChatMessage>, t: Template)
    requires NonEmpty(t.markers) && messages != []
    requires Ending(t, Conversation(messages), NOBODY) == User || Ending(t, Conversation(messages), NOBODY) == Tool
    ensures Turned(messages) != [] && Turned(messages)[|Turned(messages)| - 1] == messages[|messages| - 1]
  {
  }

  /** Behind an assistant message a user turn and tool results are both in order. */
  lemma ExtendInOrder(c: seq<ChatMessage>, resident: seq<ChatMessage>, added: seq<ChatMessage>)
    requires resident != [] && resident[|resident| - 1].role == Assistant && c == Turned(resident)
    requires (forall k :: 0 <= k < |added| ==> added[k].role == Tool) || (|added| == 1 && added[0].role == User)
    requires added != []
    ensures Alternates(c + added, NOBODY) <==> Alternates(c, NOBODY)
    ensures Alternates(c + added, NOBODY) ==>
              Speaker(c + added, NOBODY, |c + added|) == if added[|added| - 1].role == Tool then Assistant else User
  {
    hide Alternates, Speaker;
    AlternatesConcat(c, added, NOBODY);
    assert c != [] && c[|c| - 1].role == Assistant;
    if Alternates(c, NOBODY) {
      LastSpeaker(c, NOBODY);
      if added[0].role == Tool {
        AlternatesTools(added);
      } else {
        assert added == [added[0]];
        AlternatesOne(added[0], Assistant);
      }
    }
    if Alternates(c + added, NOBODY) {
      LastSpeaker(c + added, NOBODY);
    }
  }

  /** One call: a success that answers tools puts the messages out of order for good, any other call
      leaves their order as it is. */
  lemma StepOrdered(setup: Setup, tk: Tables, t: Template, s: Snapshot, c: Call, answered: bool)
    requires Sound(setup, tk, t) && Inv(setup, s) && Ordered(s, answered)
    ensures var (after, r) := GenerateSpec(setup, s, c.q, c.o);
            Ordered(after, answered || (r.Ok? && AnswersTools(c.q)))
  {
    hide GenerateSpec, Prepare, MessagesOf, Resident, Sound, Alternates, Speaker, MaterializeSpec, AssistantMessage;
    var (after, r) := GenerateSpec(setup, s, c.q, c.o);
    StepIsTransactional(setup, s, c.q, c.o);
    if r.Ok? {
      SuccessLeaves(setup, s, c.q, c.o);
      TranscriptGrows(setup, s, c.q, c.o);
      StepKeepsInv(setup, s, c.q, c.o);
      PreparedPrompt(setup, s, c.q);
      CallInOrder(setup, tk, t, s, c.q, answered);
      var shown, reply := MessagesOf(s, c.q), ChatMessage(Assistant, r.value.assistantText, r.value.calls, [], []);
      CommitAppends(s, c.q, after, r.value.assistantText, r.value.calls);
      TurnedConcat(shown, [reply]);
      AlternatesConcat(Turned(shown), [reply], NOBODY);
      AlternatesOne(reply, Speaker(Turned(shown), NOBODY, |Turned(shown)|));
    }
  }

  // ---------------------------------------------------------------- whole runs

  /** Some successful call of the run answered tools. */
  ghost predicate Answered(setup: Setup, s: Snapshot, calls: seq<Call>)
    requires Inv(setup, s)
    decreases |calls|
  {
    calls != [] &&
      var (after, r) := GenerateSpec(setup, s, calls[0].q, calls[0].o);
      || (r.Ok? && AnswersTools(calls[0].q))
      || (StepKeepsInv(setup, s, calls[0].q, calls[0].o);
          Answered(setup, after, calls[1..]))
  }

  lemma {:induction false} RunOrdered(setup: Setup, tk: Tables, t: Template, s: Snapshot, calls: seq<Call>, answered: bool)
    requires Sound(setup, tk, t) && Inv(setup, s) && Ordered(s, answered)
    ensures Ordered(Run(setup, s, calls), answered || Answered(setup, s, calls))
    decreases |calls|
  {
    hide GenerateSpec, Ordered, Sound;
    if calls != [] {
      var c := calls[0];
      var (after, r) := GenerateSpec(setup, s, c.q, c.o);
      StepKeepsInv(setup, s, c.q, c.o);
      StepOrdered(setup, tk, t, s, c, answered);
      RunOrdered(setup, tk, t, after, calls[1..], answered || (r.Ok? && AnswersTools(c.q)));
    }
  }

  /** Main result over runs: the messages that the session holds and a prepared call adds render
      afresh exactly when no successful call so far answered tools, the tool definitions format,
      every assistant message renders on its own, and the call is no answer to a reply with content. */
  lemma HeldMessagesRenderExactly(setup: Setup, tk: Tables, t: Template, calls: seq<Call>, q: Request, thinking: bool)
    requires Sound(setup, tk, t) && Prepare(setup, Run(setup, Opened(), calls), q).Ok?
    ensures var messages := MessagesOf(Run(setup, Opened(), calls), q);
            && messages != []
            && (RenderSpec(t, messages, thinking, true, Shown(q.tools, q.choice)).Ok?
                <==> && !Answered(setup, Opened(), calls)
                     && ToolsFormat(t, Shown(q.tools, q.choice)) && AllRender(t, Conversation(messages))
                     && (AnswersTools(q) ==> Ending(t, Conversation(messages), NOBODY) == Tool))
  {
    hide Run, Prepare, MessagesOf, RenderSpec, Alternates, AllRender, Ending, Ordered, Answered, ToolsFormat, Speaker, Sound;
    SoundParts(setup, tk, t);
    var s := Run(setup, Opened(), calls);
    FreshIsOrdered();
    RunOrdered(setup, tk, t, Opened(), calls, false);
    CallInOrder(setup, tk, t, s, q, Answered(setup, Opened(), calls));
    var messages := MessagesOf(s, q);
    RenderSucceedsExactly(t, messages, thinking, true, Shown(q.tools, q.choice));
    if InOrder(messages) {
      EndingOfCall(setup, t, s, q);
    }
  }

  lemma FreshIsOrdered()
    ensures Ordered(Opened(), false)
  {
  }

  /** A user turn ends a conversation as the user's; tool results end it as theirs, or as the
      assistant's when the reply that they answer has content. */
  lemma EndingOfCall(setup: Setup, t: Template, s: Snapshot, q: Request)
    requires NonEmpty(t.markers) && Inv(setup, s) && Prepare(setup, s, q).Ok? && MessagesOf(s, q) != []
    requires InOrder(MessagesOf(s, q))
    ensures var ending := Ending(t, Conversation(MessagesOf(s, q)), NOBODY);
            if AnswersTools(q) then ending == Tool || ending == Assistant else ending == User
  {
    hide Prepare, MessagesOf, Speaker, AssistantHasContent;
    PreparedPrompt(setup, s, q);
    LastRoleOfCall(setup, s, q);
    var c := Conversation(MessagesOf(s, q));
    var all := MessagesOf(s, q);
    assert c != [] && c[|c| - 1] == all[|all| - 1];
    OwnerSpeaks(c, NOBODY);
  }

  lemma LastRoleOfCall(setup: Setup, s: Snapshot, q: Request)
    requires Inv(setup, s) && Prepare(setup, s, q).Ok?
    ensures q.messages != [] && (q.messages[|q.messages| - 1].role == User || q.messages[|q.messages| - 1].role == Tool)
  {
    hide MaterializeSpec, Locate, ReasoningFor, ResolveResults, OutputLimit, PromptFor, Extends;
  }

  /** In a conversation in turn, trailing tool messages answer an assistant message. */
  lemma OwnerSpeaks(c: seq<ChatMessage>, previous: Role)
    requires c != [] && Alternates(c, previous) && previous == NOBODY
    ensures c[|c| - 1].role == Tool ==> Owner(c) < |c| - 1 && c[Owner(c)].role == Assistant
    ensures c[|c| - 1].role != Tool ==> Owner(c) == |c| - 1
  {
    OwnerIsSpeaker(c, previous, |c|);
    assert c[..|c|] == c;
    if c[|c| - 1].role == Tool {
      LastSpeaker(c, previous);
    }
  }

  lemma {:induction false} OwnerIsSpeaker(c: seq<ChatMessage>, previous: Role, n: nat)
    requires 0 < n <= |c| && Alternates(c, previous) && previous == NOBODY
    ensures Owner(c[..n]) < n && c[Owner(c[..n])].role == Speaker(c, previous, n)
    ensures c[n - 1].role == Tool ==> Owner(c[..n]) < n - 1
    decreases n
  {
    assert InTurn(c, previous, n - 1);
    if c[n - 1].role == Tool {
      if n > 1 {
        OwnerIsSpeaker(c, previous, n - 1);
        assert c[..n][..n - 1] == c[..n - 1];
      }
    }
  }
}
