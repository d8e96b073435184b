/** The token-level conversation session: a resident key/value cache that only ever processes the
    new suffix of a prompt, and the ordinary decode loop with its reasoning budget. */
module ConversationSession {
  import opened Wrappers
  import opened Bpe
  import opened ResponseChannel
  import opened Media

  const VOCABULARY: nat := 262144
  const MAXIMUM_OPEN_TOKENS: nat := 8

  /** The model and the caller's callback, as any functions: the token selected after a context,
      and what the callback says of the outputs so far; either may fail with any code. */
  datatype Oracle = Oracle(next: seq<Token> -> Result<Token>, observe: seq<Token> -> Result<()>)

  /** Selected tokens come from the vocabulary. */
  ghost predicate Selects(o: Oracle) {
    forall context :: o.next(context).Ok? ==> o.next(context).value < VOCABULARY
  }

  datatype ReasoningOptions = ReasoningOptions(enabled: bool, controls: Controls, budget: nat, startsInReasoning: bool)

  /** Where the placeholders of one kind lie in the prompt, and for images the grid positions of
      their patches, two coordinates a patch. */
  datatype Placement = Placement(offsets: seq<nat>, counts: seq<nat>, positions: seq<seq<int>>)

  const POSITIONS: int := 1120

  // ---------------------------------------------------------------- the engine

  /** The cache holds one token per processed position. */
  class Engine {
    var kv: seq<Token>
    const maxContext: nat

    constructor (maxContext: nat)
      ensures kv == [] && this.maxContext == maxContext
    {
      kv := [];
      this.maxContext := maxContext;
    }

    /** Process `suffix` at `start` and select the token that follows. */
    method PrefillAt(suffix: seq<Token>, start: nat, o: Oracle) returns (r: Result<Token>)
      requires start <= |kv|
      modifies this
      ensures suffix != [] && start + |suffix| <= maxContext ==> kv == old(kv)[..start] + suffix && r == o.next(kv)
      ensures suffix == [] || start + |suffix| > maxContext ==> unchanged(this) && r == Err(InvalidArgument)
    {
      if suffix == [] || start > maxContext || |suffix| > maxContext - start {
        return Err(InvalidArgument);
      }
      kv := kv[..start] + suffix;
      return o.next(kv);
    }

    /** Process one token at `position` and select the token that follows. */
    method Forward(token: Token, position: nat, o: Oracle) returns (r: Result<Token>)
      requires position <= |kv|
      modifies this
      ensures token < VOCABULARY && position < maxContext ==> kv == old(kv)[..position] + [token] && r == o.next(kv)
      ensures token >= VOCABULARY || position >= maxContext ==> unchanged(this) && r == Err(InvalidArgument)
    {
      if token >= VOCABULARY || position >= maxContext {
        return Err(InvalidArgument);
      }
      kv := kv[..position] + [token];
      return o.next(kv);
    }
  }

  // ---------------------------------------------------------------- generation from a full prompt

  /** What has been generated: outputs, the reasoning tracker, and how far reasoning has come. */
  datatype Progress = Progress(outputs: seq<Token>, tracker: State, complete: bool, stopped: bool)

  function Before(re: ReasoningOptions): Progress {
    Progress([], Start(re.startsInReasoning), !re.enabled, false)
  }

  predicate Tracked(re: ReasoningOptions, p: Progress) {
    InBounds(re.controls, p.tracker)
  }

  /** Record one output: the tracker looks at it until reasoning is complete. */
  function Emit(re: ReasoningOptions, stops: seq<Token>, p: Progress, token: Token): (q: Progress)
    requires Tracked(re, p)
    ensures Tracked(re, q) && q.outputs == p.outputs + [token]
  {
    var observed := if p.complete then p.tracker else Step(re.controls, p.tracker, token).0;
    Progress(p.outputs + [token], observed,
             p.complete || (p.tracker.inReasoning && !observed.inReasoning), token in stops)
  }

  /** The reasoning budget is used up: the next output is the close token. */
  predicate Forced(re: ReasoningOptions, p: Progress) {
    !p.complete && p.tracker.inReasoning && p.tracker.count >= re.budget
  }

  function Selected(re: ReasoningOptions, p: Progress, token: Token): Token {
    if Forced(re, p) then re.controls.close else token
  }

  /** Run the decode loop on: every step conditions on the whole prompt and all outputs. */
  function Finish(re: ReasoningOptions, stops: seq<Token>, o: Oracle, prompt: seq<Token>, max: nat, p: Progress): Result<Progress>
    requires Tracked(re, p)
    decreases max - |p.outputs|
  {
    if |p.outputs| >= max || p.stopped then Ok(p)
    else
      var next := o.next(prompt + p.outputs);
      if next.Err? then Err(next.code)
      else
        var q := Emit(re, stops, p, Selected(re, p, next.value));
        var observed := o.observe(q.outputs);
        if observed.Err? then Err(observed.code) else Finish(re, stops, o, prompt, max, q)
  }

  /** Generation as a session without any cache would do it. */
  function Generated(re: ReasoningOptions, stops: seq<Token>, o: Oracle, prompt: seq<Token>, max: nat): Result<Progress> {
    var first := o.next(prompt);
    if first.Err? then Err(first.code)
    else
      var p := Emit(re, stops, Before(re), first.value);
      var observed := o.observe(p.outputs);
      if observed.Err? then Err(observed.code) else Finish(re, stops, o, prompt, max, p)
  }

  // ---------------------------------------------------------------- admission

  predicate Aligned(prompt: seq<Token>, placeholder: Token, maximum: nat, m: Placement) {
    && |m.offsets| == |m.counts|
    && forall k :: 0 <= k < |m.offsets| ==>
         && 0 < m.counts[k] <= maximum && m.offsets[k] < |prompt| && m.counts[k] <= |prompt| - m.offsets[k]
         && Placeholders(prompt, placeholder, m.offsets[k], m.counts[k])
  }

  predicate InGrid(positions: seq<int>) {
    forall i :: 0 <= i < |positions| ==> 0 <= positions[i] < POSITIONS
  }

  /** Every image brings two coordinates for each of its patches, all of them inside the grid. */
  predicate Positioned(m: Placement) {
    && |m.positions| == |m.counts|
    && forall k :: 0 <= k < |m.counts| ==> |m.positions[k]| == 2 * m.counts[k] && InGrid(m.positions[k])
  }

  predicate ReasoningUsable(re: ReasoningOptions) {
    re.enabled ==> re.controls.opener != [] && |re.controls.opener| <= MAXIMUM_OPEN_TOKENS
                   && re.controls.close < VOCABULARY && re.budget != 0
  }

  /** Everything `Generate` checks before it touches the cache, apart from the resident prefix. */
  predicate Acceptable(maxContext: nat, prompt: seq<Token>, max: nat, re: ReasoningOptions, audio: Placement, vision: Placement) {
    && prompt != [] && max != 0 && ReasoningUsable(re)
    && |prompt| <= maxContext && max - 1 <= maxContext - |prompt|
    && (forall i :: 0 <= i < |prompt| ==> prompt[i] < VOCABULARY)
    && Aligned(prompt, MarksOf(Audio).placeholder, 750, audio)
    && Aligned(prompt, MarksOf(Image).placeholder, 280, vision) && Positioned(vision)
  }

  /** The prompt extends the cached tokens by at least one. */
  predicate ExtendsCache(cached: seq<Token>, prompt: seq<Token>) {
    cached < prompt
  }

  // ---------------------------------------------------------------- the session

  datatype Inference = Inference(outputs: seq<Token>, stopped: bool, reasoningTokens: nat)

  /** The session as a value: the cached tokens, and whether a failure has left the cache unusable. */
  datatype Cache = Cache(tokens: seq<Token>, poisoned: bool)

  /** What is reported as `reasoning_tokens`: zero unless reasoning is observed. */
  function ReportedReasoning(re: ReasoningOptions, p: Progress): nat {
    if re.enabled then p.tracker.count else 0
  }

  function GenerateSpec(
    maxContext: nat, stops: seq<Token>, cache: Cache, prompt: seq<Token>, max: nat, re: ReasoningOptions, o: Oracle,
    audio: Placement, vision: Placement): (Cache, Result<Inference>)
  {
    if cache.poisoned then (cache, Err(Internal))
    else if !Acceptable(maxContext, prompt, max, re, audio, vision) then (cache, Err(InvalidArgument))
    else if !ExtendsCache(cache.tokens, prompt) then (cache, Err(InvalidArgument))
    else
      match Generated(re, stops, o, prompt, max)
      case Err(code) => (Cache([], true), Err(code))
      case Ok(p) =>
        var kept := if |p.outputs| > 1 then p.outputs[..|p.outputs| - 1] else [];
        (Cache(prompt + kept, false), Ok(Inference(p.outputs, p.stopped, ReportedReasoning(re, p))))
  }

  class Session {
    var cachedTokenIds: seq<Token>
    var poisoned: bool
    const engine: Engine
    const stopTokenIds: seq<Token>
    const maxContext: nat

    /** While the session is usable, the engine's cache is exactly the recorded token list. */
    ghost predicate Valid()
      reads this, engine
    {
      engine.maxContext == maxContext && (!poisoned ==> engine.kv == cachedTokenIds)
    }

    /** The state up to what a poisoned cache happens to hold. */
    ghost predicate Is(c: Cache)
      reads this
    {
      poisoned == c.poisoned && (!poisoned ==> cachedTokenIds == c.tokens)
    }

    constructor (engine: Engine, stopTokenIds: seq<Token>)
      requires engine.kv == []
      ensures Valid() && Is(Cache([], false)) && this.engine == engine
      ensures this.stopTokenIds == stopTokenIds && maxContext == engine.maxContext
    {
      this.engine, this.stopTokenIds, maxContext := engine, stopTokenIds, engine.maxContext;
      cachedTokenIds, poisoned := [], false;
    }

    /** The decode loop.  The cache already holds the prompt and all outputs but the last. */
    method Decode(prompt: seq<Token>, max: nat, re: ReasoningOptions, o: Oracle, start: Progress) returns (r: Result<Progress>)
      requires Valid() && !poisoned && Selects(o) && (re.enabled ==> re.controls.close < VOCABULARY)
      requires Tracked(re, start) && (!re.enabled ==> start.complete)
      requires start.outputs != [] && forall i :: 0 <= i < |start.outputs| ==> start.outputs[i] < VOCABULARY
      requires cachedTokenIds == prompt + start.outputs[..|start.outputs| - 1]
      requires max > 0 && |prompt| + max - 1 <= maxContext && |start.outputs| <= max
      modifies this, engine
      ensures Valid()
      ensures r == Finish(re, stopTokenIds, o, prompt, max, start)
      ensures poisoned == r.Err?
      ensures r.Ok? ==> r.value.outputs != [] && cachedTokenIds == prompt + r.value.outputs[..|r.value.outputs| - 1]
    {
      hide Emit, Step, InBounds;
      var p := start;
      while |p.outputs| < max && !p.stopped
        invariant Valid() && !poisoned && Tracked(re, p)
        invariant Finish(re, stopTokenIds, o, prompt, max, start) == Finish(re, stopTokenIds, o, prompt, max, p)
        invariant p.outputs != [] && |p.outputs| <= max && (!re.enabled ==> p.complete)
        invariant forall i :: 0 <= i < |p.outputs| ==> p.outputs[i] < VOCABULARY
        invariant cachedTokenIds == prompt + p.outputs[..|p.outputs| - 1]
        decreases max - |p.outputs|
      {
        var position := |cachedTokenIds|;
        var input := p.outputs[|p.outputs| - 1];
        KeepsAll(prompt, p.outputs);
        assert engine.kv[..position] == cachedTokenIds;
        var forwarded := engine.Forward(input, position, o);
        if forwarded.Err? {
          poisoned := true;
          return Err(forwarded.code);
        }
        cachedTokenIds := cachedTokenIds + [input];
        assert cachedTokenIds == prompt + p.outputs;
        var next := Selected(re, p, forwarded.value);
        EmitStaysComplete(re, stopTokenIds, p, next);
        p := Emit(re, stopTokenIds, p, next);
        var observed := o.observe(p.outputs);
        if observed.Err? {
          poisoned := true;
          return Err(observed.code);
        }
      }
      return Ok(p);
    }

    /** `ConversationSession::Generate` without speculative decoding. */
    method Generate(prompt: seq<Token>, max: nat, re: ReasoningOptions, o: Oracle, audio: Placement, vision: Placement)
      returns (r: Result<Inference>)
      requires Valid() && Selects(o)
      modifies this, engine
      ensures Valid()
      ensures var (cache, inference) := GenerateSpec(maxContext, stopTokenIds, Cache(old(cachedTokenIds), old(poisoned)),
                                                     prompt, max, re, o, audio, vision);
              Is(cache) && r == inference
    {
      hide Finish, Emit, Step, Aligned, Positioned, InBounds;
      if poisoned {
        return Err(Internal);
      }
      if !Acceptable(maxContext, prompt, max, re, audio, vision) {
        return Err(InvalidArgument);
      }
      if !ExtendsCache(cachedTokenIds, prompt) {
        return Err(InvalidArgument);
      }
      var prefix := |cachedTokenIds|;
      var suffix := prompt[prefix..];
      assert engine.kv[..prefix] + suffix == prompt;
      var prefilled := engine.PrefillAt(suffix, prefix, o);
      if prefilled.Err? {
        poisoned := true;
        return Err(prefilled.code);
      }
      cachedTokenIds := cachedTokenIds + suffix;
      BeforeIsTracked(re);
      EmitStaysComplete(re, stopTokenIds, Before(re), prefilled.value);
      var p := Emit(re, stopTokenIds, Before(re), prefilled.value);
      assert p.outputs == [prefilled.value] && p.outputs[..0] == [] && prompt + [] == prompt;
      var observed := o.observe(p.outputs);
      if observed.Err? {
        poisoned := true;
        return Err(observed.code);
      }
      var done := Decode(prompt, max, re, o, p);
      if done.Err? {
        return Err(done.code);
      }
      return Ok(Inference(done.value.outputs, done.value.stopped, ReportedReasoning(re, done.value)));
    }
  }

  lemma KeepsAll(prompt: seq<Token>, outputs: seq<Token>)
    requires outputs != []
    ensures (prompt + outputs[..|outputs| - 1]) + [outputs[|outputs| - 1]] == prompt + outputs
    ensures outputs[..|outputs| - 1] + [outputs[|outputs| - 1]] == outputs
  {
  }

  lemma BeforeIsTracked(re: ReasoningOptions)
    ensures Tracked(re, Before(re))
  {
  }

  lemma EmitStaysComplete(re: ReasoningOptions, stops: seq<Token>, p: Progress, token: Token)
    requires Tracked(re, p)
    ensures p.complete ==> Emit(re, stops, p, token).complete
    ensures Emit(re, stops, p, token).stopped <==> token in stops
    ensures Emit(re, stops, p, token).outputs[..|p.outputs|] == p.outputs
  {
    assert (p.outputs + [token])[..|p.outputs|] == p.outputs;
  }

  // ---------------------------------------------------------------- what every generation keeps

  lemma {:induction false} AfterOfLonger(c: Controls, s0: State, ts: seq<Token>, t: Token, n: nat)
    requires InBounds(c, s0) && n <= |ts|
    ensures After(c, s0, ts + [t], n) == After(c, s0, ts, n)
  {
    if n > 0 {
      AfterOfLonger(c, s0, ts, t, n - 1);
    }
  }

  /** The tracker stands where a tracker over all outputs stands, or reasoning is over for both
      with the same count. */
  ghost predicate Follows(re: ReasoningOptions, p: Progress) {
    var all := After(re.controls, Start(re.startsInReasoning), p.outputs, |p.outputs|);
    if !re.enabled then p.complete
    else if p.complete then all.complete && !all.inReasoning && p.tracker.count == all.count
    else p.tracker == all && !all.complete
  }

  ghost predicate StopsLast(stops: seq<Token>, p: Progress) {
    && (forall i :: 0 <= i < |p.outputs| - 1 ==> p.outputs[i] !in stops)
    && (p.stopped <==> p.outputs != [] && p.outputs[|p.outputs| - 1] in stops)
  }

  ghost predicate WithinBudget(re: ReasoningOptions, p: Progress) {
    re.enabled ==> p.tracker.count <= re.budget
  }

  lemma StepAfterCompletion(c: Controls, s: State, t: Token)
    requires InBounds(c, s) && s.complete && !s.inReasoning
    ensures var q := Step(c, s, t).0; q.complete && !q.inReasoning && q.count == s.count
  {
  }

  lemma StepBeforeCompletion(c: Controls, s: State, t: Token)
    requires InBounds(c, s) && !s.complete
    ensures var q := Step(c, s, t).0;
            && (q.complete <==> s.inReasoning && t == c.close)
            && (s.inReasoning && !q.inReasoning <==> q.complete)
            && q.count == s.count + (if s.inReasoning && t != c.close then 1 else 0)
  {
  }

  lemma EmitFollows(re: ReasoningOptions, stops: seq<Token>, p: Progress, t: Token)
    requires Tracked(re, p) && Follows(re, p)
    ensures Follows(re, Emit(re, stops, p, t))
  {
    hide Step, InBounds;
    var s0, n := Start(re.startsInReasoning), |p.outputs|;
    BeforeIsTracked(re);
    if re.enabled {
      AfterOfLonger(re.controls, s0, p.outputs, t, n);
      var all := After(re.controls, s0, p.outputs, n);
      assert After(re.controls, s0, p.outputs + [t], n + 1) == Step(re.controls, all, t).0;
      if p.complete {
        StepAfterCompletion(re.controls, all, t);
      } else {
        StepBeforeCompletion(re.controls, all, t);
      }
    }
  }

  lemma EmitStopsLast(re: ReasoningOptions, stops: seq<Token>, p: Progress, t: Token)
    requires Tracked(re, p) && StopsLast(stops, p) && !p.stopped
    ensures StopsLast(stops, Emit(re, stops, p, t))
  {
  }

  lemma EmitWithinBudget(re: ReasoningOptions, stops: seq<Token>, p: Progress, t: Token)
    requires Tracked(re, p) && Follows(re, p) && WithinBudget(re, p)
    requires p.tracker.count < re.budget || t == Selected(re, p, t)
    ensures WithinBudget(re, Emit(re, stops, p, t))
  {
    hide After;
    if re.enabled && !p.complete {
      StepBeforeCompletion(re.controls, p.tracker, t);
    }
  }

  /** Main result: every run of the decode loop keeps the output limit and the reasoning budget,
      stops at the first stop token and nowhere else, and counts reasoning as a tracker over all
      outputs would. */
  lemma {:induction false} FinishKeeps(re: ReasoningOptions, stops: seq<Token>, o: Oracle, prompt: seq<Token>, max: nat, p: Progress)
    requires Tracked(re, p) && Follows(re, p) && StopsLast(stops, p) && WithinBudget(re, p) && |p.outputs| <= max
    ensures var r := Finish(re, stops, o, prompt, max, p);
            r.Ok? ==>
              && Tracked(re, r.value) && Follows(re, r.value) && StopsLast(stops, r.value) && WithinBudget(re, r.value)
              && p.outputs <= r.value.outputs && |r.value.outputs| <= max
              && (|r.value.outputs| == max || r.value.stopped)
    decreases max - |p.outputs|
  {
    hide Follows, StopsLast, WithinBudget, Emit, InBounds;
    if |p.outputs| < max && !p.stopped {
      var next := o.next(prompt + p.outputs);
      if next.Ok? {
        var t := Selected(re, p, next.value);
        EmitFollows(re, stops, p, t);
        EmitStopsLast(re, stops, p, t);
        EmitWithinBudget(re, stops, p, t);
        FinishKeeps(re, stops, o, prompt, max, Emit(re, stops, p, t));
      }
    }
  }

  lemma GeneratedKeeps(re: ReasoningOptions, stops: seq<Token>, o: Oracle, prompt: seq<Token>, max: nat)
    requires max > 0 && ReasoningUsable(re)
    ensures var r := Generated(re, stops, o, prompt, max);
            r.Ok? ==>
              && Follows(re, r.value) && StopsLast(stops, r.value) && WithinBudget(re, r.value)
              && 1 <= |r.value.outputs| <= max && (|r.value.outputs| == max || r.value.stopped)
  {
    var first := o.next(prompt);
    if first.Ok? {
      var p := Before(re);
      BeforeIsTracked(re);
      EmitFollows(re, stops, p, first.value);
      EmitStopsLast(re, stops, p, first.value);
      EmitWithinBudget(re, stops, p, first.value);
      FinishKeeps(re, stops, o, prompt, max, Emit(re, stops, p, first.value));
    }
  }

  lemma {:induction false} OpenCounts(c: Controls, ts: seq<Token>, n: nat)
    requires n <= |ts| && c.close !in ts[..n]
    ensures After(c, Start(true), ts, n) == Start(true).(count := n)
  {
    if n > 0 {
      assert ts[n - 1] in ts[..n];
      assert forall t :: t in ts[..n - 1] ==> t in ts[..n];
      OpenCounts(c, ts, n - 1);
    }
  }

  lemma {:induction false} CountGrows(c: Controls, s0: State, ts: seq<Token>, m: nat, n: nat)
    requires InBounds(c, s0) && m <= n <= |ts|
    ensures After(c, s0, ts, m).count <= After(c, s0, ts, n).count
  {
    hide Step, InBounds;
    if m < n {
      CountGrows(c, s0, ts, m, n - 1);
      StepCount(c, After(c, s0, ts, n - 1), ts[n - 1]);
    }
  }

  /** A generation that starts inside reasoning closes it within its budget, if it gets that far. */
  lemma BudgetCloses(re: ReasoningOptions, stops: seq<Token>, o: Oracle, prompt: seq<Token>, max: nat)
    requires max > 0 && ReasoningUsable(re) && re.enabled && re.startsInReasoning
    requires var r := Generated(re, stops, o, prompt, max); r.Ok? && |r.value.outputs| > re.budget
    ensures re.controls.close in Generated(re, stops, o, prompt, max).value.outputs[..re.budget + 1]
  {
    hide Generated, Step, InBounds;
    var p := Generated(re, stops, o, prompt, max).value;
    GeneratedKeeps(re, stops, o, prompt, max);
    BeforeIsTracked(re);
    if re.controls.close !in p.outputs[..re.budget + 1] {
      OpenCounts(re.controls, p.outputs, re.budget + 1);
      CountGrows(re.controls, Start(true), p.outputs, re.budget + 1, |p.outputs|);
      assert false;
    }
  }

  // ---------------------------------------------------------------- accounting

  /** The outputs without a final stop token, as the chat layer decodes them. */
  function ContentIds(stops: seq<Token>, outputs: seq<Token>): seq<Token> {
    if outputs != [] && outputs[|outputs| - 1] in stops then outputs[..|outputs| - 1] else outputs
  }

  /** The last output is a stop token that arrived inside the reasoning channel. */
  predicate StoppedInReasoning(re: ReasoningOptions, stops: seq<Token>, outputs: seq<Token>) {
    && outputs != [] && outputs[|outputs| - 1] in stops && outputs[|outputs| - 1] != re.controls.close
    && After(re.controls, Start(re.startsInReasoning), outputs, |outputs| - 1).inReasoning
  }

  lemma {:induction false} OnChannelOfPrefix(c: Controls, s0: State, ts: seq<Token>, us: seq<Token>, n: nat)
    requires InBounds(c, s0) && n <= |ts| && ts <= us
    ensures OnChannel(c, s0, us, n, ResponseChannel.Channel.Reasoning) == OnChannel(c, s0, ts, n, ResponseChannel.Channel.Reasoning)
    ensures After(c, s0, us, n) == After(c, s0, ts, n)
  {
    hide Step, Keep;
    if n > 0 {
      OnChannelOfPrefix(c, s0, ts, us, n - 1);
    }
  }

  /** The reasoning length the chat layer recomputes from the content tokens. */
  function Recounted(c: Controls, startsInReasoning: bool, stops: seq<Token>, outputs: seq<Token>): nat {
    |Extract(c, startsInReasoning, ContentIds(stops, outputs), ResponseChannel.Channel.Reasoning)|
  }

  lemma RecountedIsAfter(c: Controls, startsInReasoning: bool, stops: seq<Token>, outputs: seq<Token>)
    ensures var n := |ContentIds(stops, outputs)|;
            n <= |outputs| &&
            Recounted(c, startsInReasoning, stops, outputs) == After(c, Start(startsInReasoning), outputs, n).count
  {
    var content := ContentIds(stops, outputs);
    CounterIsExtractLength(c, Start(startsInReasoning), content, |content|);
    OnChannelOfPrefix(c, Start(startsInReasoning), content, outputs, |content|);
  }

  lemma StepCount(c: Controls, s: State, t: Token)
    requires InBounds(c, s)
    ensures Step(c, s, t).0.count == s.count + (if s.inReasoning && t != c.close then 1 else 0)
  {
  }

  /** Main result: with reasoning enabled, the session's own count of reasoning tokens and the one
      recomputed from the decoded content agree exactly when no stop token arrived inside the
      reasoning channel. */
  lemma AccountingAgreesExactly(re: ReasoningOptions, stops: seq<Token>, o: Oracle, prompt: seq<Token>, max: nat)
    requires max > 0 && ReasoningUsable(re) && re.enabled && Generated(re, stops, o, prompt, max).Ok?
    ensures var p := Generated(re, stops, o, prompt, max).value;
            Recounted(re.controls, re.startsInReasoning, stops, p.outputs) == ReportedReasoning(re, p)
            <==> !StoppedInReasoning(re, stops, p.outputs)
  {
    hide Step, InBounds, Generated, Extract;
    var p := Generated(re, stops, o, prompt, max).value;
    var n := |p.outputs|;
    GeneratedKeeps(re, stops, o, prompt, max);
    RecountedIsAfter(re.controls, re.startsInReasoning, stops, p.outputs);
    BeforeIsTracked(re);
    StepCount(re.controls, After(re.controls, Start(re.startsInReasoning), p.outputs, n - 1), p.outputs[n - 1]);
  }

  /** With reasoning disabled nothing is reported, so the counts agree exactly when the first full
      opener in the content, if any, is followed by a close token or by nothing. */
  lemma DisabledAccountingAgreesExactly(c: Controls, re: ReasoningOptions, stops: seq<Token>, p: Progress)
    requires !re.enabled && c.opener != [] && BordersContinue(c.opener) && c.close !in c.opener
    ensures var content := ContentIds(stops, p.outputs);
            Recounted(c, false, stops, p.outputs) == ReportedReasoning(re, p) <==>
              forall e: nat :: OpensAt(c, false, content, e) ==> e == |content| || content[e] == c.close
  {
    NoReasoningExactly(c, ContentIds(stops, p.outputs));
  }

  /** The disagreement happens: a model that answers a tool result with a stop token at once. */
  lemma StopInsideReasoningHappens()
    ensures var re := ReasoningOptions(true, Controls([5], 6), 1, true);
            var o := Oracle(_ => Ok(7), _ => Ok(()));
            var r := Generated(re, [7], o, [0], 4);
            && r.Ok? && StoppedInReasoning(re, [7], r.value.outputs)
            && Recounted(re.controls, true, [7], r.value.outputs) == 0 && ReportedReasoning(re, r.value) == 1
  {
    var re := ReasoningOptions(true, Controls([5], 6), 1, true);
    var o := Oracle(_ => Ok(7), _ => Ok(()));
    var p := Emit(re, [7], Before(re), 7);
    assert p == Progress([7], Start(true).(count := 1), false, true) by { assert [] + [7] == [7]; }
    assert Generated(re, [7], o, [0], 4) == Ok(p);
    RecountedIsAfter(re.controls, true, [7], [7]);
    assert ContentIds([7], [7]) == [];
  }

  ghost predicate InVocabulary(ids: seq<Token>) {
    forall i :: 0 <= i < |ids| ==> ids[i] < VOCABULARY
  }

  lemma {:induction false} FinishInVocabulary(
    re: ReasoningOptions, stops: seq<Token>, o: Oracle, prompt: seq<Token>, max: nat, p: Progress)
    requires Tracked(re, p) && Selects(o) && InVocabulary(p.outputs)
    requires re.enabled ==> re.controls.close < VOCABULARY
    requires !re.enabled ==> p.complete
    ensures var r := Finish(re, stops, o, prompt, max, p); r.Ok? ==> InVocabulary(r.value.outputs)
    decreases max - |p.outputs|
  {
    hide Step, InBounds;
    if |p.outputs| < max && !p.stopped {
      var next := o.next(prompt + p.outputs);
      if next.Ok? {
        FinishInVocabulary(re, stops, o, prompt, max, Emit(re, stops, p, Selected(re, p, next.value)));
      }
    }
  }

  /** Generated tokens, forced close tokens included, are vocabulary tokens. */
  lemma GeneratedInVocabulary(re: ReasoningOptions, stops: seq<Token>, o: Oracle, prompt: seq<Token>, max: nat)
    requires Selects(o) && (re.enabled ==> re.controls.close < VOCABULARY)
    ensures var r := Generated(re, stops, o, prompt, max); r.Ok? ==> InVocabulary(r.value.outputs)
  {
    hide Step, InBounds, Finish;
    var first := o.next(prompt);
    if first.Ok? {
      BeforeIsTracked(re);
      FinishInVocabulary(re, stops, o, prompt, max, Emit(re, stops, Before(re), first.value));
    }
  }
}
