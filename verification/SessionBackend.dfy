/** What the tokenizer's tables and the template owe the backend: sound sessions meet its checks, and
    prefill cuts none of their images. */
module SessionBackend {
  import opened Wrappers
  import opened Text
  import opened Tokenizer
  import opened TokenizerDecode
  import opened ResponseContent
  import opened ChatTemplate
  import opened Media
  import opened ChatSession
  import opened ChatRuns
  import opened SessionText
  import opened SessionPoison
  import opened MediaRuns
  import MC = MediaChunks
  import PrefillPlan
  import CS = ConversationSession

  /** The reasoning markers as loading encodes them, and token tables of the model's size. */
  ghost predicate LoadedWith(setup: Setup, tk: Tables, t: Template) {
    && Sound(setup, tk, t)
    && |tk.tokens| <= CS.VOCABULARY
    && EncodeSpec(tk, TrimRight(t.markers.thinkingOpen)) == Ok(setup.p.controls.opener)
    && 0 < |setup.p.controls.opener| <= CS.MAXIMUM_OPEN_TOKENS
    && EncodeSpec(tk, t.markers.thinkingClose) == Ok([setup.p.controls.close])
  }

  /** Encodings decode, so they hold tokens of the table only. */
  lemma EncodeInVocabulary(tk: Tables, text: Text)
    requires Consistent(tk) && AddedNonEmpty(tk.added) && |tk.tokens| <= CS.VOCABULARY
    ensures EncodeSpec(tk, text).Ok? ==> CS.InVocabulary(EncodeSpec(tk, text).value)
    ensures EncodeSpec(tk, text).Ok? && text != [] ==> EncodeSpec(tk, text).value != []
  {
    hide EncodeFrom, Consistent, Readback, DecodeSpec;
    if EncodeSpec(tk, text).Ok? {
      var ids := EncodeSpec(tk, text).value;
      EncodeReadsBack(tk, [], text);
      DecodeFailsExactly(tk, ids, false);
      forall i | 0 <= i < |ids|
        ensures ids[i] < CS.VOCABULARY
      {
        assert Present(tk, ids[i]);
      }
      if text != [] {
        assert [] + text == text;
        EncodeNonEmpty(tk, [], text);
      }
    }
  }

  lemma RenderNonEmpty(t: Template, messages: seq<ChatMessage>, thinking: bool, tools: seq<ToolDefinition>)
    requires NonEmpty(t.markers)
    ensures RenderSpec(t, messages, thinking, true, tools).Ok? ==> RenderSpec(t, messages, thinking, true, tools).value != []
  {
    hide Turns, Header, GenerationPrompt, Conversation;
  }

  /** Main result: the tables of a loaded processor give the backend what it checks for. */
  lemma LoadedIsReliable(setup: Setup, tk: Tables, t: Template)
    requires LoadedWith(setup, tk, t)
    ensures Reliable(setup.p)
  {
    hide EncodeSpec, RenderSpec, Continuation, ToolContinuation, Consistent, CS.InVocabulary;
    forall m, th, d | setup.p.encode(m, th, d).Ok?
      ensures setup.p.encode(m, th, d).value != [] && CS.InVocabulary(setup.p.encode(m, th, d).value)
    {
      RenderNonEmpty(t, m, th, d);
      EncodeInVocabulary(tk, RenderSpec(t, m, th, true, d).value);
    }
    forall u, th | setup.p.continueUser(u, th).Ok?
      ensures setup.p.continueUser(u, th).value != [] && CS.InVocabulary(setup.p.continueUser(u, th).value)
    {
      ContinuationFrame(u, th);
      EncodeInVocabulary(tk, Continuation(u, th));
    }
    forall r, th | setup.p.continueTools(r, th).Ok?
      ensures setup.p.continueTools(r, th).value != [] && CS.InVocabulary(setup.p.continueTools(r, th).value)
    {
      ToolTextOpens(r, th);
      ResponseSplits();
      EncodeInVocabulary(tk, ToolContinuation(r, th).value);
    }
    CloseInVocabulary(setup, tk, t);
  }

  lemma CloseInVocabulary(setup: Setup, tk: Tables, t: Template)
    requires LoadedWith(setup, tk, t)
    ensures setup.p.controls.close < CS.VOCABULARY
  {
    hide EncodeSpec, Consistent, Uses;
    EncodeInVocabulary(tk, t.markers.thinkingClose);
    assert [setup.p.controls.close][0] == setup.p.controls.close;
  }

  /** Continuations of a sound session start with a token that is no part of an image. */
  lemma SoundIsSeparating(setup: Setup, tk: Tables, t: Template)
    requires Sound(setup, tk, t) && TurnTables(tk)
    ensures MC.Separating(setup.p)
  {
    hide Sound, TurnTables;
    SoundStartsOutside(setup, tk, t);
    forall u, th | setup.p.continueUser(u, th).Ok?
      ensures MC.Breaks(setup.p.continueUser(u, th).value, 0)
    {
      assert OutsideBlocks(setup.p.continueUser(u, th).value);
      assert BreaksBlock(MarksOf(Image), setup.p.continueUser(u, th).value[0]);
    }
    forall r, th | setup.p.continueTools(r, th).Ok?
      ensures MC.Breaks(setup.p.continueTools(r, th).value, 0)
    {
      assert OutsideBlocks(setup.p.continueTools(r, th).value);
      assert BreaksBlock(MarksOf(Image), setup.p.continueTools(r, th).value[0]);
    }
  }

  /** Main result over runs of a loaded session: a prepared call is refused by the backend exactly for
      an added image off the position grid, and any other failure behind the preparation poisons. */
  lemma LoadedSessionRefusesExactly(setup: Setup, tk: Tables, t: Template, calls: seq<Call>, q: Request, o: CS.Oracle)
    requires LoadedWith(setup, tk, t) && AllSelect(calls)
    requires Prepare(setup, Run(setup, Opened(), calls), q).Ok?
    ensures var s := Run(setup, Opened(), calls);
            && (Refused(setup, s, q, o) <==> !AddedInGrid(s, q))
            && (GenerateSpec(setup, s, q, o).1.Err? && AddedInGrid(s, q) ==> GenerateSpec(setup, s, q, o).0.poisoned)
  {
    hide LoadedWith, Prepare, Run, Refused, AddedInGrid, Reliable, GenerateSpec;
    LoadedIsReliable(setup, tk, t);
    BackendRefusesExactly(setup, calls, q, o);
  }

  /** Main result over runs of a sound session: prefilling the new part of a prompt cuts no image, and
      fails only for a capacity below a new image. */
  lemma SoundSessionImagesAreChunks(setup: Setup, tk: Tables, t: Template, calls: seq<Call>, q: Request, capacity: nat)
    requires Sound(setup, tk, t) && TurnTables(tk)
    requires Prepare(setup, Run(setup, Opened(), calls), q).Ok?
    ensures var s := Run(setup, Opened(), calls);
            var job := Prepare(setup, s, q).value;
            && |job.vision.offsets| == |job.vision.counts|
            && PrefillPlan.Placed(|s.cachedPrefix|, |job.prompt|, MC.Segments(job.vision.offsets, job.vision.counts))
            && MC.ChunksImages(job.prompt, job.vision.offsets, job.vision.counts, capacity, |s.cachedPrefix|)
  {
    hide Sound, TurnTables, Prepare, Run, MC.ChunksImages, MC.Separating;
    SoundIsSeparating(setup, tk, t);
    MC.ResidentImagesAreChunks(setup, calls, q, capacity);
  }
}
