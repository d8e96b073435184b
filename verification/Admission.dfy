/** Which requests a resident session admits, in terms of the messages it holds. */
module Admission {
  import opened Wrappers
  import opened Text
  import opened ChatTemplate
  import opened ChatSession
  import opened ChatRuns
  import CS = ConversationSession

  // ---------------------------------------------------------------- repeated messages

  /** A part sent again: the same kind, and the same value, up to white space around assistant text and
      up to the nonzero fingerprint that stands for an image. */
  predicate RepeatsPart(role: Role, held: Part, sent: Part) {
    match held
    case TextPart(text) => sent.TextPart? && if role == Assistant then TrimSpec(text) == TrimSpec(sent.text) else text == sent.text
    case ImagePart(image) =>
      && sent.ImagePart?
      && (image == sent.image || (image.sourceFingerprint == sent.image.sourceFingerprint && image.sourceFingerprint != 0))
    case CallPart(call) => sent.CallPart? && call == sent.call
    case ResultPart(callId, output) => sent.ResultPart? && callId == sent.callId && output == sent.output
    case AudioPart(sampleRate, samples) => sent.AudioPart? && sampleRate == sent.sampleRate && samples == sent.samples
  }

  predicate RepeatsMessage(held: Message, sent: Message) {
    && held.role == sent.role && |held.content| == |sent.content|
    && forall k :: 0 <= k < |held.content| ==> RepeatsPart(held.role, held.content[k], sent.content[k])
  }

  /** Every held message is sent again, in its place. */
  predicate RepeatsHistory(s: Snapshot, q: Request) {
    && |s.committed| <= |q.messages|
    && forall k :: 0 <= k < |s.committed| ==> RepeatsMessage(s.committed[k], q.messages[k])
  }

  lemma PartRepeatsExactly(role: Role, held: Part, sent: Part)
    ensures PartEquivalent(role, held, sent) <==> RepeatsPart(role, held, sent)
  {
  }

  lemma MessageRepeatsExactly(held: Message, sent: Message)
    ensures MessageEquivalent(held, sent) <==> RepeatsMessage(held, sent)
  {
    hide PartEquivalent, RepeatsPart;
    if held.role == sent.role && |held.content| == |sent.content| {
      forall k | 0 <= k < |held.content|
        ensures PartEquivalent(held.role, held.content[k], sent.content[k]) <==> RepeatsPart(held.role, held.content[k], sent.content[k])
      {
        PartRepeatsExactly(held.role, held.content[k], sent.content[k]);
      }
    }
  }

  // ---------------------------------------------------------------- admission

  /** What a request must ask for, whatever the session holds. */
  predicate AsksProperly(setup: Setup, q: Request) {
    && q.maxGenerated != Some(0)
    && (q.choice.mode == Auto || q.choice.mode == NoTools) && q.parallel
    && setup.p.admitsTools(q.tools)
    && q.messages != [] && (q.messages[|q.messages| - 1].role == User || q.messages[|q.messages| - 1].role == Tool)
  }

  /** What a request adds to a conversation: one user turn, or tool results. */
  predicate AddsOneTurn(s: Snapshot, q: Request)
    requires |s.committed| < |q.messages|
  {
    || (|q.messages| == |s.committed| + 1 && q.messages[|s.committed|].role == User)
    || (forall k :: |s.committed| <= k < |q.messages| ==> q.messages[k].role == Tool)
  }

  /** Main result: a request is admitted if and only if the session is not poisoned, the request asks
      properly, and, when the session holds messages, repeats all of them, adds one turn, and keeps the
      tools and the choice. */
  lemma AdmittedExactly(setup: Setup, s: Snapshot, q: Request)
    ensures Refusal(setup, s, q).None?
       <==> && !s.poisoned && !s.cache.poisoned && AsksProperly(setup, q)
            && (s.committed != [] ==>
                  && RepeatsHistory(s, q) && |s.committed| < |q.messages| && AddsOneTurn(s, q)
                  && q.tools == s.tools && q.choice == s.choice)
  {
    hide MessageEquivalent, RepeatsMessage;
    HistoryRepeatsExactly(s, q);
  }

  lemma HistoryRepeatsExactly(s: Snapshot, q: Request)
    ensures Extends(s.committed, q.messages) <==> |s.committed| < |q.messages| && RepeatsHistory(s, q)
  {
    hide MessageEquivalent, RepeatsMessage;
    forall k | 0 <= k < |s.committed| && k < |q.messages|
      ensures MessageEquivalent(s.committed[k], q.messages[k]) <==> RepeatsMessage(s.committed[k], q.messages[k])
    {
      MessageRepeatsExactly(s.committed[k], q.messages[k]);
    }
  }

  /** The code of a refusal: of several reasons the first one counts. */
  lemma RefusedWith(setup: Setup, s: Snapshot, q: Request)
    ensures (s.poisoned || s.cache.poisoned) ==> Refusal(setup, s, q) == Some(Internal)
    ensures !s.poisoned && !s.cache.poisoned && Refusal(setup, s, q).Some? ==>
              Refusal(setup, s, q).value
              == if q.maxGenerated != Some(0) && !((q.choice.mode == Auto || q.choice.mode == NoTools) && q.parallel) then Unsupported else InvalidArgument
  {
    hide Extends;
  }

  /** A request that does not repeat the messages held changes nothing, over every run; it gets
      InvalidArgument unless the session is poisoned or the request asks for what is not supported. */
  lemma ChangedHistoryIsRefused(setup: Setup, calls: seq<Call>, q: Request, o: CS.Oracle)
    requires !RepeatsHistory(Run(setup, Opened(), calls), q)
    ensures var s := Run(setup, Opened(), calls);
            && GenerateSpec(setup, s, q, o).0 == s && GenerateSpec(setup, s, q, o).1.Err?
            && (!s.poisoned && (q.choice.mode == Auto || q.choice.mode == NoTools) && q.parallel ==>
                  GenerateSpec(setup, s, q, o).1 == Err(InvalidArgument))
  {
    hide Run, RepeatsHistory, Refusal, MaterializeSpec, CS.GenerateSpec, Respond;
    var s := Run(setup, Opened(), calls);
    AdmittedExactly(setup, s, q);
    EmptyHistoryRepeats(s, q);
    RefusedWith(setup, s, q);
  }

  lemma EmptyHistoryRepeats(s: Snapshot, q: Request)
    ensures s.committed == [] ==> RepeatsHistory(s, q)
  {
  }

  /** In particular a request that changes the text of a user message already answered. */
  lemma RewrittenTextIsRefused(setup: Setup, calls: seq<Call>, q: Request, o: CS.Oracle, k: nat, j: nat)
    requires var s := Run(setup, Opened(), calls);
             && k < |s.committed| && k < |q.messages| && s.committed[k].role == User
             && j < |s.committed[k].content| && j < |q.messages[k].content|
             && s.committed[k].content[j].TextPart? && q.messages[k].content[j].TextPart?
             && s.committed[k].content[j].text != q.messages[k].content[j].text
             && !s.poisoned && (q.choice.mode == Auto || q.choice.mode == NoTools) && q.parallel
    ensures var s := Run(setup, Opened(), calls); GenerateSpec(setup, s, q, o) == (s, Err(InvalidArgument))
  {
    hide Run, GenerateSpec;
    var s := Run(setup, Opened(), calls);
    assert !RepeatsMessage(s.committed[k], q.messages[k]) by {
      assert !RepeatsPart(s.committed[k].role, s.committed[k].content[j], q.messages[k].content[j]);
    }
    ChangedHistoryIsRefused(setup, calls, q, o);
  }
}
