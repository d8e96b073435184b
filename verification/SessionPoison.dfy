/** When a successful inference poisons the chat session. */
module SessionPoison {
  import opened Wrappers
  import opened Seqs
  import opened Text
  import opened Utf8
  import opened Bpe
  import opened Tokenizer
  import opened TokenizerDecode
  import opened ResponseContent
  import opened ChatTemplate
  import opened ChatSession
  import opened ChatRuns
  import opened SessionText
  import RC = ResponseChannel
  import CS = ConversationSession

  /** Some token has no text. */
  ghost predicate HoldsAbsent(tk: Tables, ids: seq<Token>) {
    exists i :: 0 <= i < |ids| && !Present(tk, ids[i])
  }

  /** Decoding fails exactly for a token without a text. */
  lemma {:induction false} DecodeFailsExactly(tk: Tables, ids: seq<Token>, skip: bool)
    ensures DecodeSpec(tk, ids, skip).Err? <==> HoldsAbsent(tk, ids)
  {
    hide Present;
    if ids != [] {
      DecodeFailsExactly(tk, ids[1..], skip);
      if HoldsAbsent(tk, ids[1..]) {
        var i :| 0 <= i < |ids[1..]| && !Present(tk, ids[1..][i]);
        assert !Present(tk, ids[i + 1]);
      }
      if HoldsAbsent(tk, ids) && Present(tk, ids[0]) {
        var i :| 0 <= i < |ids| && !Present(tk, ids[i]);
        assert !Present(tk, ids[1..][i - 1]);
      }
    }
  }

  /** What is on a channel is part of the stream. */
  lemma {:induction false} ChannelIsPart(c: RC.Controls, s0: RC.State, ts: seq<Token>, n: nat, channel: RC.Channel)
    requires RC.InBounds(c, s0) && n <= |ts|
    ensures forall t :: t in RC.OnChannel(c, s0, ts, n, channel) ==> t in ts
  {
    hide RC.Label;
    if n > 0 {
      ChannelIsPart(c, s0, ts, n - 1, channel);
    }
  }

  lemma PartIsPresent(tk: Tables, part: seq<Token>, all: seq<Token>)
    requires (forall t :: t in part ==> t in all) && !HoldsAbsent(tk, all)
    ensures !HoldsAbsent(tk, part)
  {
    hide Present;
    forall i | 0 <= i < |part|
      ensures Present(tk, part[i])
    {
      assert part[i] in all;
    }
  }

  /** The text of the content, of its visible part. */
  function ContentText(tk: Tables, p: Processor, outputs: seq<Token>): Text {
    var text := DecodeSpec(tk, ContentOf(p, outputs), false);
    if text.Ok? then text.value else []
  }

  function VisibleText(tk: Tables, p: Processor, job: Job, outputs: seq<Token>): Text {
    var text := DecodeSpec(tk, VisibleOf(p, job, outputs), false);
    if text.Ok? then text.value else []
  }

  /** The reply is cut off inside a thinking field, or inside a tool call. */
  ghost predicate CutOff(k: Markers, text: Text)
    requires NonEmpty(k)
  {
    || LeftOpen(text, k.thinkingOpen, k.thinkingClose, 0, |k.thinkingOpen|)
    || (DropThinking(k, text, 0).Ok? && LeftOpen(VisiblePart(k, text), k.toolCallStart, TOOL_CALL_END, 0, 0))
  }

  /** The parser fails on the content, or finds calls that the request does not admit. */
  predicate BadCalls(p: Processor, q: Request, content: Text) {
    var calls := p.parseCalls(content);
    calls.Err? || !p.admitsCalls(q.tools, q.choice, calls.value)
  }

  /** What each step of `Respond` fails for. */
  lemma RespondFailsExactly(setup: Setup, tk: Tables, t: Template, q: Request, job: Job, inference: CS.Inference)
    requires Sound(setup, tk, t)
    ensures var p := setup.p;
            Respond(setup, q, job, inference).Err?
            <==> || HoldsAbsent(tk, ContentOf(p, inference.outputs))
                 || ExtractSpec(t.markers, VisibleText(tk, p, job, inference.outputs)).Err?
                 || |ReasoningOf(p, job, inference.outputs)| != inference.reasoningTokens
                 || BadCalls(p, q, ContentText(tk, p, inference.outputs))
  {
    hide DecodeSpec, HoldsAbsent, ExtractSpec, Consistent, CS.ContentIds, RC.OnChannel, EncodeSpec, RenderSpec;
    var p := setup.p;
    var content := ContentOf(p, inference.outputs);
    var visible, reasoning := VisibleOf(p, job, inference.outputs), ReasoningOf(p, job, inference.outputs);
    DecodeFailsExactly(tk, content, false);
    DecodeFailsExactly(tk, visible, false);
    DecodeFailsExactly(tk, reasoning, true);
    ChannelIsPart(p.controls, RC.Start(job.toolResults), content, |content|, RC.Visible);
    ChannelIsPart(p.controls, RC.Start(job.toolResults), content, |content|, RC.Reasoning);
    if !HoldsAbsent(tk, content) {
      PartIsPresent(tk, visible, content);
      PartIsPresent(tk, reasoning, content);
    }
  }

  lemma CutOffExactly(k: Markers, text: Text)
    requires NonEmpty(k) && MarkersApart(k)
    ensures CutOff(k, text) <==> ExtractSpec(k, text).Err?
  {
    hide ExtractSpec, DropThinking, LeftOpen;
    ExtractFailsExactly(k, text);
  }

  /** Main result: a successful inference poisons the session exactly when its content holds a token
      without a text, or its visible text does not extract, or its reasoning is miscounted, or its tool
      calls do not parse or are not admitted; and a text does not extract exactly when it is cut off
      inside a thinking field or a tool call. */
  lemma SuccessPoisonsExactly(setup: Setup, tk: Tables, t: Template, s: Snapshot, q: Request, o: CS.Oracle)
    requires Sound(setup, tk, t) && Inv(setup, s) && Prepare(setup, s, q).Ok?
    requires BackendOf(setup, s, Prepare(setup, s, q).value, o).1.Ok?
    ensures var p, job := setup.p, Prepare(setup, s, q).value;
            var outputs := BackendOf(setup, s, job, o).1.value.outputs;
            GenerateSpec(setup, s, q, o).0.poisoned
            <==> || HoldsAbsent(tk, ContentOf(p, outputs))
                 || ExtractSpec(t.markers, VisibleText(tk, p, job, outputs)).Err?
                 || Miscounted(p, job, outputs)
                 || BadCalls(p, q, ContentText(tk, p, outputs))
    ensures MarkersApart(t.markers) ==>
              forall text :: ExtractSpec(t.markers, text).Err? <==> CutOff(t.markers, text)
  {
    hide Prepare, CS.GenerateSpec, Respond, HoldsAbsent, CutOff, Miscounted, BadCalls, Sound, MarkersApart, ExtractSpec;
    SoundParts(setup, tk, t);
    if MarkersApart(t.markers) {
      forall text
        ensures ExtractSpec(t.markers, text).Err? <==> CutOff(t.markers, text)
      {
        CutOffExactly(t.markers, text);
      }
    }
    var job := Prepare(setup, s, q).value;
    PrepareExcludes(setup, s, q);
    RespondFailsExactly(setup, tk, t, q, job, BackendOf(setup, s, job, o).1.value);
    CountsDifferExactly(setup, s, q, o);
  }

  // ---------------------------------------------------------------- a cut-off tool call

  /** A visible text that starts a tool call and does not end it, and holds nothing else to cut. */
  ghost predicate CallCutOff(k: Markers, text: Text) {
    && Contains(text, k.toolCallStart) && !Contains(text, TOOL_CALL_END) && !Contains(text, k.thinkingOpen)
    && forall i :: 0 <= i < |k.contentClose| ==> !Contains(text, k.contentClose[i])
  }

  /** Such a reply poisons the session, whatever its tokens. */
  lemma CutOffCallPoisons(setup: Setup, tk: Tables, t: Template, s: Snapshot, q: Request, o: CS.Oracle)
    requires Sound(setup, tk, t) && Inv(setup, s) && Prepare(setup, s, q).Ok?
    requires BackendOf(setup, s, Prepare(setup, s, q).value, o).1.Ok?
    requires CallCutOff(t.markers, VisibleText(tk, setup.p, Prepare(setup, s, q).value, BackendOf(setup, s, Prepare(setup, s, q).value, o).1.value.outputs))
    ensures GenerateSpec(setup, s, q, o).0.poisoned
  {
    hide Prepare, CS.GenerateSpec, HoldsAbsent, CutOff, Miscounted, BadCalls, Sound, MarkersApart, VisibleText, CallCutOff, GenerateSpec, ExtractSpec;
    SoundParts(setup, tk, t);
    SuccessPoisonsExactly(setup, tk, t, s, q, o);
    var job := Prepare(setup, s, q).value;
    CallDoesNotExtract(t.markers, VisibleText(tk, setup.p, job, BackendOf(setup, s, job, o).1.value.outputs));
  }

  lemma CallDoesNotExtract(k: Markers, text: Text)
    requires NonEmpty(k) && CallCutOff(k, text)
    ensures ExtractSpec(k, text).Err?
  {
    hide Contains, Find, Ascii, TrimSpec;
    FindIsContains(text, k.thinkingOpen);
    FindIsContains(text, k.toolCallStart);
    ContentEndExactly(text, k.contentClose);
    assert text[0..] == text && text[..|text|] == text;
    assert VisiblePart(k, text) == text;
    FindAbsent(text, TOOL_CALL_END, Find(text, k.toolCallStart, 0).value);
  }

  lemma FindAbsent(text: Text, pattern: Text, begin: nat)
    requires begin <= |text| && !Contains(text, pattern)
    ensures Find(text, pattern, begin).None?
  {
    FindIsLeftmost(text, pattern, begin);
  }

  /** The model that answers one token, whatever the context. */
  function Always(x: Token): CS.Oracle {
    CS.Oracle(_ => Ok(x), _ => Ok(()))
  }

  /** It happens: one output token that reads as the call start, at a limit of one, poisons a session
      although the reply has a text, nothing is miscounted, and the model did nothing wrong. */
  lemma CutOffCallHappens(setup: Setup, tk: Tables, t: Template, s: Snapshot, q: Request, x: Token)
    requires Sound(setup, tk, t) && Inv(setup, s) && Prepare(setup, s, q).Ok?
    requires Prepare(setup, s, q).value.limit == 1 && !Prepare(setup, s, q).value.toolResults
    requires BackendOf(setup, s, Prepare(setup, s, q).value, Always(x)).1.Ok?
    requires x !in setup.p.stops && setup.p.controls.opener != [] && x != setup.p.controls.opener[0] && x != setup.p.controls.close
    requires Present(tk, x) && Piece(tk, x) == t.markers.toolCallStart && CallCutOff(t.markers, t.markers.toolCallStart)
    ensures var job := Prepare(setup, s, q).value;
            var outputs := BackendOf(setup, s, job, Always(x)).1.value.outputs;
            && outputs == [x] && !HoldsAbsent(tk, outputs) && !Miscounted(setup.p, job, outputs)
            && GenerateSpec(setup, s, q, Always(x)).0.poisoned
  {
    hide Prepare, Sound, CallCutOff, GenerateSpec, Piece;
    SoundParts(setup, tk, t);
    var job := Prepare(setup, s, q).value;
    OneOutput(setup, s, job, x);
    OneVisible(setup.p.controls, x);
    assert ContentOf(setup.p, [x]) == [x];
    assert VisibleOf(setup.p, job, [x]) == [x];
    assert [x][1..] == [];
    EmptyUnits(Piece(tk, x));
    assert DecodeSpec(tk, [x], false) == Prepend(Piece(tk, x), DecodeSpec(tk, [], false));
    CutOffCallPoisons(setup, tk, t, s, q, Always(x));
  }

  lemma OneOutput(setup: Setup, s: Snapshot, job: Job, x: Token)
    requires job.limit == 1 && BackendOf(setup, s, job, Always(x)).1.Ok?
    ensures BackendOf(setup, s, job, Always(x)).1.value.outputs == [x]
  {
    hide CS.Acceptable, RC.Step;
    CS.BeforeIsTracked(job.reasoning);
    var p := CS.Emit(job.reasoning, setup.p.stops, CS.Before(job.reasoning), x);
    assert p.outputs == [x];
  }

  lemma OneVisible(c: RC.Controls, x: Token)
    requires c.opener != [] && x != c.opener[0] && x != c.close
    ensures RC.Extract(c, false, [x], RC.Visible) == [x]
    ensures RC.Label(c, RC.Start(false), [x], 0) == RC.Visible
  {
    assert RC.After(c, RC.Start(false), [x], 0) == RC.Start(false);
    assert RC.OnChannel(c, RC.Start(false), [x], 0, RC.Visible) == [];
    assert RC.OnChannel(c, RC.Start(false), [x], 1, RC.Visible) == [] + RC.Keep(RC.Visible, RC.Visible, x);
    EmptyUnits([x]);
  }
}
