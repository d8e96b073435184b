/** What a generation consists of, token by token, in terms of the model, the callback and the options. */
module GeneratedOutputs {
  import opened Wrappers
  import opened Bpe
  import opened ResponseChannel
  import opened Media
  import opened ConversationSession

  // ---------------------------------------------------------------- one more token

  /** Reasoning opened at `e`, and no close token came since. */
  ghost predicate ThinksSince(re: ReasoningOptions, before: seq<Token>, e: nat) {
    && e <= |before| && OpensAt(re.controls, re.startsInReasoning, before, e)
    && forall j :: e <= j < |before| ==> before[j] != re.controls.close
  }

  /** The thought has used up its budget. */
  ghost predicate Exhausted(re: ReasoningOptions, before: seq<Token>) {
    re.enabled && exists e: nat :: ThinksSince(re, before, e) && |before| - e >= re.budget
  }

  /** The next output: the close token once the budget is used up, else what the model selects after the
      whole prompt and all outputs. */
  ghost predicate Chosen(re: ReasoningOptions, o: Oracle, prompt: seq<Token>, before: seq<Token>, token: Token) {
    && o.next(prompt + before).Ok?
    && token == if Exhausted(re, before) then re.controls.close else o.next(prompt + before).value
  }

  /** The outputs so far: each one chosen; each but the last one accepted by the callback, and no stop. */
  ghost predicate Grown(re: ReasoningOptions, stops: seq<Token>, o: Oracle, prompt: seq<Token>, outputs: seq<Token>) {
    forall n: nat :: n < |outputs| ==> GrownAt(re, stops, o, prompt, outputs, n)
  }

  ghost predicate GrownAt(re: ReasoningOptions, stops: seq<Token>, o: Oracle, prompt: seq<Token>, outputs: seq<Token>, n: nat)
    requires n < |outputs|
  {
    && Chosen(re, o, prompt, outputs[..n], outputs[n])
    && (n + 1 < |outputs| ==> o.observe(outputs[..n + 1]).Ok? && outputs[n] !in stops)
  }

  /** The generation may go on behind these outputs. */
  ghost predicate Open(stops: seq<Token>, o: Oracle, outputs: seq<Token>) {
    outputs != [] ==> o.observe(outputs).Ok? && outputs[|outputs| - 1] !in stops
  }

  predicate Regular(re: ReasoningOptions) {
    re.enabled ==> re.controls.opener != [] && re.controls.close !in re.controls.opener && re.budget != 0
  }

  ghost predicate Exact(re: ReasoningOptions) {
    Regular(re) && (re.enabled ==> BordersContinue(re.controls.opener))
  }

  // ---------------------------------------------------------------- the budget

  lemma ThinkingState(re: ReasoningOptions, before: seq<Token>, e: nat)
    requires Exact(re) && re.enabled && ThinksSince(re, before, e)
    ensures After(re.controls, Start(re.startsInReasoning), before, |before|) == Start(true).(count := |before| - e)
  {
    hide After, BordersContinue, OpensAt;
    OpensInReasoning(re.controls, re.startsInReasoning, before, e);
    ReasoningUntilClose(re.controls, Start(re.startsInReasoning), before, e, |before|);
  }

  lemma ThinkingOpened(re: ReasoningOptions, before: seq<Token>) returns (e: nat)
    requires Exact(re) && re.enabled
    requires var s := After(re.controls, Start(re.startsInReasoning), before, |before|); s.inReasoning && !s.complete
    ensures ThinksSince(re, before, e)
  {
    hide After, BordersContinue, OpenerEndsAt;
    var c, n := re.controls, |before|;
    if re.startsInReasoning {
      e := 0;
    } else {
      if NoOpenerBefore(c.opener, before, n + 1) {
        BeforeFirstOpener(c, before, n);
        assert false;
      }
      e := FirstOpener(c.opener, before, n + 1);
    }
    OpensInReasoning(c, re.startsInReasoning, before, e);
    var d := FirstClose(c, before, e);
    ClosedForGood(c, Start(re.startsInReasoning), before, e, d);
  }

  lemma ClosedForGood(c: Controls, s0: State, ts: seq<Token>, e: nat, d: nat)
    requires InBounds(c, s0) && e <= |ts| && After(c, s0, ts, e) == Start(true) && ClosesAt(c, ts, e, d)
    requires !After(c, s0, ts, |ts|).complete
    ensures d == |ts|
  {
    ReasoningUntilClose(c, s0, ts, e, d);
    if d < |ts| {
      NoReasoningAfterClose(c, s0, ts, d + 1, |ts|);
    }
  }

  /** The loop forces the close token exactly when the budget is used up. */
  lemma ForcedExactly(re: ReasoningOptions, p: Progress)
    requires Exact(re) && Tracked(re, p) && Follows(re, p)
    ensures Forced(re, p) <==> Exhausted(re, p.outputs)
  {
    hide After, BordersContinue, ThinksSince, InBounds;
    BeforeIsTracked(re);
    if re.enabled {
      var all := After(re.controls, Start(re.startsInReasoning), p.outputs, |p.outputs|);
      if e: nat :| ThinksSince(re, p.outputs, e) && |p.outputs| - e >= re.budget {
        ThinkingState(re, p.outputs, e);
      }
      if Forced(re, p) {
        var e := ThinkingOpened(re, p.outputs);
        ThinkingState(re, p.outputs, e);
        SinceIsInside(re, p.outputs, e);
      }
    }
  }

  lemma SinceIsInside(re: ReasoningOptions, before: seq<Token>, e: nat)
    requires ThinksSince(re, before, e)
    ensures e <= |before|
  {
  }

  // ---------------------------------------------------------------- whole generations

  lemma GrowsByOne(re: ReasoningOptions, stops: seq<Token>, o: Oracle, prompt: seq<Token>, outputs: seq<Token>, token: Token)
    requires Grown(re, stops, o, prompt, outputs) && Open(stops, o, outputs) && Chosen(re, o, prompt, outputs, token)
    ensures Grown(re, stops, o, prompt, outputs + [token])
  {
    hide Chosen;
    var more := outputs + [token];
    forall n: nat | n < |more|
      ensures GrownAt(re, stops, o, prompt, more, n)
    {
      assert more[..n] == outputs[..n];
      if n < |outputs| {
        assert GrownAt(re, stops, o, prompt, outputs, n) && more[n] == outputs[n];
        assert more[..n + 1] == outputs[..n + 1];
        assert n + 1 == |outputs| ==> outputs[..n + 1] == outputs;
      } else {
        assert outputs[..n] == outputs;
      }
    }
  }

  /** How a generation ends: at the limit or at a stop token, with all outputs accepted. */
  ghost predicate Completed(stops: seq<Token>, o: Oracle, max: nat, p: Progress) {
    && p.outputs != [] && |p.outputs| <= max && o.observe(p.outputs).Ok?
    && (p.stopped <==> p.outputs[|p.outputs| - 1] in stops)
    && (|p.outputs| == max || p.stopped)
  }

  /** How a generation fails: the callback refuses the outputs, or the model selects nothing behind them. */
  ghost predicate Broken(stops: seq<Token>, o: Oracle, prompt: seq<Token>, max: nat, outputs: seq<Token>, code: StatusCode) {
    || (outputs != [] && |outputs| <= max && o.observe(outputs) == Err(code))
    || (|outputs| < max && Open(stops, o, outputs) && o.next(prompt + outputs) == Err(code))
  }

  ghost predicate Breaks(re: ReasoningOptions, stops: seq<Token>, o: Oracle, prompt: seq<Token>, max: nat, code: StatusCode) {
    exists outputs :: Grown(re, stops, o, prompt, outputs) && Broken(stops, o, prompt, max, outputs, code)
  }

  /** One round of the loop. */
  lemma EmitGrows(re: ReasoningOptions, stops: seq<Token>, o: Oracle, prompt: seq<Token>, p: Progress)
    requires Exact(re) && Tracked(re, p) && Follows(re, p)
    requires Grown(re, stops, o, prompt, p.outputs) && Open(stops, o, p.outputs) && o.next(prompt + p.outputs).Ok?
    ensures var q := Emit(re, stops, p, Selected(re, p, o.next(prompt + p.outputs).value));
            Grown(re, stops, o, prompt, q.outputs) && Follows(re, q) && Tracked(re, q)
  {
    hide Grown, Open, Follows, Forced, Exhausted, BordersContinue, InBounds, Step;
    var t := Selected(re, p, o.next(prompt + p.outputs).value);
    ForcedExactly(re, p);
    EmitFollows(re, stops, p, t);
    GrowsByOne(re, stops, o, prompt, p.outputs, t);
  }

  lemma {:induction false} FinishIsChosen(re: ReasoningOptions, stops: seq<Token>, o: Oracle, prompt: seq<Token>, max: nat, p: Progress)
    requires Exact(re) && Tracked(re, p) && Follows(re, p) && Grown(re, stops, o, prompt, p.outputs)
    requires p.outputs != [] && |p.outputs| <= max && o.observe(p.outputs).Ok?
    requires p.stopped <==> p.outputs[|p.outputs| - 1] in stops
    ensures var r := Finish(re, stops, o, prompt, max, p);
            && (r.Ok? ==> Grown(re, stops, o, prompt, r.value.outputs) && Completed(stops, o, max, r.value))
            && (r.Err? ==> Breaks(re, stops, o, prompt, max, r.code))
    decreases max - |p.outputs|
  {
    hide Grown, Follows, Exact, InBounds, Step;
    if |p.outputs| < max && !p.stopped {
      var next := o.next(prompt + p.outputs);
      if next.Err? {
        assert Broken(stops, o, prompt, max, p.outputs, next.code);
      } else {
        var t := Selected(re, p, next.value);
        var q := Emit(re, stops, p, t);
        EmitGrows(re, stops, o, prompt, p);
        EmitStaysComplete(re, stops, p, t);
        if o.observe(q.outputs).Err? {
          assert Broken(stops, o, prompt, max, q.outputs, o.observe(q.outputs).code);
        } else {
          FinishIsChosen(re, stops, o, prompt, max, q);
        }
      }
    }
  }

  lemma NothingGrown(re: ReasoningOptions, stops: seq<Token>, o: Oracle, prompt: seq<Token>)
    ensures Grown(re, stops, o, prompt, []) && Open(stops, o, []) && prompt + [] == prompt
    ensures Follows(re, Before(re)) && Tracked(re, Before(re))
  {
    BeforeIsTracked(re);
  }

  lemma NothingForced(re: ReasoningOptions)
    requires Regular(re)
    ensures !Forced(re, Before(re))
  {
  }

  /** Main result: every generation consists of the outputs that are chosen one after the other, up to the
      limit or the first stop token, each accepted by the callback; it fails only with the code of the
      callback, or of the model, behind outputs chosen that way. */
  lemma OutputsAreChosen(re: ReasoningOptions, stops: seq<Token>, o: Oracle, prompt: seq<Token>, max: nat)
    requires Exact(re) && max > 0
    ensures var r := Generated(re, stops, o, prompt, max);
            && (r.Ok? ==> Grown(re, stops, o, prompt, r.value.outputs) && Completed(stops, o, max, r.value))
            && (r.Err? ==> Breaks(re, stops, o, prompt, max, r.code))
  {
    hide Grown, Follows, InBounds, Step, Finish, Forced;
    var p := Before(re);
    NothingGrown(re, stops, o, prompt);
    NothingForced(re);
    var first := o.next(prompt);
    if first.Err? {
      assert Broken(stops, o, prompt, max, [], first.code);
    } else {
      EmitGrows(re, stops, o, prompt, p);
      EmitStaysComplete(re, stops, p, first.value);
      var q := Emit(re, stops, p, first.value);
      if o.observe(q.outputs).Err? {
        assert Broken(stops, o, prompt, max, q.outputs, o.observe(q.outputs).code);
      } else {
        FinishIsChosen(re, stops, o, prompt, max, q);
      }
    }
  }

  /** There is only one such outcome: outputs chosen for the same model and options never part. */
  lemma {:induction false} ChosenIsUnique(
    re: ReasoningOptions, stops: seq<Token>, o: Oracle, prompt: seq<Token>, a: seq<Token>, b: seq<Token>, n: nat)
    requires Grown(re, stops, o, prompt, a) && Grown(re, stops, o, prompt, b) && n <= |a| && n <= |b|
    ensures a[..n] == b[..n]
  {
    hide Chosen;
    if n > 0 {
      ChosenIsUnique(re, stops, o, prompt, a, b, n - 1);
      assert GrownAt(re, stops, o, prompt, a, n - 1) && GrownAt(re, stops, o, prompt, b, n - 1);
      SameChoice(re, o, prompt, a[..n - 1], a[n - 1], b[n - 1]);
      assert a[..n] == a[..n - 1] + [a[n - 1]] && b[..n] == b[..n - 1] + [b[n - 1]];
    }
  }

  lemma SameChoice(re: ReasoningOptions, o: Oracle, prompt: seq<Token>, before: seq<Token>, s: Token, t: Token)
    requires Chosen(re, o, prompt, before, s) && Chosen(re, o, prompt, before, t)
    ensures s == t
  {
  }

  // ---------------------------------------------------------------- admission

  /** Each placement covers placeholders inside the prompt, between one and `maximum` of them. */
  ghost predicate Covers(prompt: seq<Token>, m: Placement, placeholder: Token, maximum: nat) {
    && |m.offsets| == |m.counts|
    && forall k :: 0 <= k < |m.counts| ==>
         && 1 <= m.counts[k] <= maximum && m.offsets[k] + m.counts[k] <= |prompt|
         && forall i :: m.offsets[k] <= i < m.offsets[k] + m.counts[k] ==> prompt[i] == placeholder
  }

  ghost predicate OnGrid(m: Placement) {
    && |m.positions| == |m.counts|
    && forall k :: 0 <= k < |m.counts| ==>
         && |m.positions[k]| == 2 * m.counts[k]
         && forall i :: 0 <= i < |m.positions[k]| ==> 0 <= m.positions[k][i] < 1120
  }

  /** What the backend asks of a call. */
  ghost predicate WellFormed(maxContext: nat, prompt: seq<Token>, max: nat, re: ReasoningOptions, audio: Placement, vision: Placement) {
    && 0 < |prompt| && 0 < max && |prompt| + max <= maxContext + 1
    && (forall i :: 0 <= i < |prompt| ==> prompt[i] < 262144)
    && Covers(prompt, audio, 258881, 750) && Covers(prompt, vision, 258880, 280) && OnGrid(vision)
    && (re.enabled ==> 0 < |re.controls.opener| <= 8 && re.controls.close < 262144 && 0 < re.budget)
  }

  lemma CoversExactly(prompt: seq<Token>, m: Placement, placeholder: Token, maximum: nat)
    ensures Aligned(prompt, placeholder, maximum, m) <==> Covers(prompt, m, placeholder, maximum)
  {
    if |m.offsets| == |m.counts| {
      forall k | 0 <= k < |m.counts| && 0 < m.counts[k] && m.offsets[k] + m.counts[k] <= |prompt|
        ensures Placeholders(prompt, placeholder, m.offsets[k], m.counts[k])
           <==> forall i :: m.offsets[k] <= i < m.offsets[k] + m.counts[k] ==> prompt[i] == placeholder
      {
      }
    }
  }

  /** Main result: a usable session turns a call away without touching anything if and only if the call
      is not well formed, or the prompt does not extend the cached tokens; every other call generates
      from the whole prompt, and every failure of it poisons. */
  lemma CallsAreChosen(
    maxContext: nat, stops: seq<Token>, cache: Cache, prompt: seq<Token>, max: nat, re: ReasoningOptions, o: Oracle,
    audio: Placement, vision: Placement)
    requires !cache.poisoned
    ensures var (after, r) := GenerateSpec(maxContext, stops, cache, prompt, max, re, o, audio, vision);
            if WellFormed(maxContext, prompt, max, re, audio, vision) && |cache.tokens| < |prompt| && cache.tokens <= prompt then
              var g := Generated(re, stops, o, prompt, max);
              if g.Err? then after.poisoned && r == Err(g.code)
              else
                && g.value.outputs != []
                && after == Cache(prompt + g.value.outputs[..|g.value.outputs| - 1], false)
                && r == Ok(Inference(g.value.outputs, g.value.stopped, ReportedReasoning(re, g.value)))
            else after == cache && r == Err(InvalidArgument)
  {
    hide Generated, Aligned, Covers;
    CoversExactly(prompt, audio, 258881, 750);
    CoversExactly(prompt, vision, 258880, 280);
    if Acceptable(maxContext, prompt, max, re, audio, vision) {
      GeneratedKeeps(re, stops, o, prompt, max);
    }
  }

  /** The reported reasoning tokens are those that the recogniser finds in the outputs. */
  lemma ReportedIsObserved(re: ReasoningOptions, stops: seq<Token>, o: Oracle, prompt: seq<Token>, max: nat)
    requires max > 0 && ReasoningUsable(re) && Generated(re, stops, o, prompt, max).Ok?
    ensures var p := Generated(re, stops, o, prompt, max).value;
            ReportedReasoning(re, p)
            == if re.enabled then |Extract(re.controls, re.startsInReasoning, p.outputs, Channel.Reasoning)| else 0
  {
    hide Generated, Step, InBounds;
    var p := Generated(re, stops, o, prompt, max).value;
    GeneratedKeeps(re, stops, o, prompt, max);
    BeforeIsTracked(re);
    CounterIsExtractLength(re.controls, Start(re.startsInReasoning), p.outputs, |p.outputs|);
  }
}
