/** The per-token recogniser that separates reasoning from visible text, proved to be an exact
    streaming matcher for the channel opener. */
module ResponseChannel {
  import opened Bpe

  datatype Channel = Control | Reasoning | Visible

  datatype Controls = Controls(opener: seq<Token>, close: Token)

  datatype State = State(
    matched: nat,
    count: nat,
    inReasoning: bool,
    complete: bool,
    suppressing: bool)

  function Start(startsInReasoning: bool): State {
    State(0, 0, startsInReasoning, false, false)
  }

  /** The index into the opener is in bounds whenever it can be used. */
  predicate InBounds(c: Controls, s: State) {
    s.matched == 0 || s.matched < |c.opener|
  }

  function Step(c: Controls, s: State, token: Token): (r: (State, Channel))
    requires InBounds(c, s)
    ensures InBounds(c, r.0)
  {
    if s.inReasoning then
      if token == c.close then (s.(inReasoning := false, complete := true), Control)
      else (s.(count := s.count + 1), Reasoning)
    else if s.suppressing then
      (if token == c.close then s.(suppressing := false) else s, Control)
    else if token == c.close then (s.(matched := 0), Control)
    else if c.opener == [] then (s, Visible)
    else if token == c.opener[s.matched] then
      if s.matched + 1 == |c.opener| then
        (if s.complete then s.(matched := 0, suppressing := true) else s.(matched := 0, inReasoning := true), Control)
      else (s.(matched := s.matched + 1), Control)
    else if token == c.opener[0] then (s.(matched := 1), Control)
    else (s.(matched := 0), Visible)
  }

  /** `ResponseChannelTracker`. */
  class ResponseChannelTracker {
    const thinkingOpenTokenIds: seq<Token>
    const thinkingCloseTokenId: Token
    var openMatchLength: nat
    var reasoningTokenCount: nat
    var inReasoning: bool
    var reasoningComplete: bool
    var suppressingAdditionalReasoning: bool

    function Config(): Controls {
      Controls(thinkingOpenTokenIds, thinkingCloseTokenId)
    }

    function Current(): State
      reads this
    {
      State(openMatchLength, reasoningTokenCount, inReasoning, reasoningComplete, suppressingAdditionalReasoning)
    }

    predicate Valid()
      reads this
    {
      InBounds(Config(), Current())
    }

    constructor (controls: Controls, startsInReasoning: bool)
      ensures Config() == controls && Current() == Start(startsInReasoning) && Valid()
    {
      thinkingOpenTokenIds, thinkingCloseTokenId := controls.opener, controls.close;
      openMatchLength, reasoningTokenCount := 0, 0;
      inReasoning, reasoningComplete, suppressingAdditionalReasoning := startsInReasoning, false, false;
    }

    method Observe(tokenId: Token) returns (channel: Channel)
      requires Valid()
      modifies this
      ensures Valid()
      ensures (Current(), channel) == Step(Config(), old(Current()), tokenId)
    {
      if inReasoning {
        if tokenId == thinkingCloseTokenId {
          inReasoning := false;
          reasoningComplete := true;
          return Control;
        }
        reasoningTokenCount := reasoningTokenCount + 1;
        return Reasoning;
      }
      if suppressingAdditionalReasoning {
        if tokenId == thinkingCloseTokenId {
          suppressingAdditionalReasoning := false;
        }
        return Control;
      }
      if tokenId == thinkingCloseTokenId {
        openMatchLength := 0;
        return Control;
      }
      if thinkingOpenTokenIds == [] {
        return Visible;
      }
      if tokenId == thinkingOpenTokenIds[openMatchLength] {
        openMatchLength := openMatchLength + 1;
        if openMatchLength == |thinkingOpenTokenIds| {
          openMatchLength := 0;
          if reasoningComplete {
            suppressingAdditionalReasoning := true;
          } else {
            inReasoning := true;
          }
        }
        return Control;
      }
      openMatchLength := if tokenId == thinkingOpenTokenIds[0] then 1 else 0;
      return if openMatchLength == 0 then Visible else Control;
    }
  }

  // ---------------------------------------------------------------- runs

  /** The state after reading the first `n` tokens of `ts`. */
  function After(c: Controls, s0: State, ts: seq<Token>, n: nat): (s: State)
    requires InBounds(c, s0) && n <= |ts|
    ensures InBounds(c, s)
  {
    if n == 0 then s0 else Step(c, After(c, s0, ts, n - 1), ts[n - 1]).0
  }

  /** The channel given to the `i`th token. */
  function Label(c: Controls, s0: State, ts: seq<Token>, i: nat): Channel
    requires InBounds(c, s0) && i < |ts|
  {
    Step(c, After(c, s0, ts, i), ts[i]).1
  }

  /** Those of the first `n` tokens that are on one channel, in order. */
  function OnChannel(c: Controls, s0: State, ts: seq<Token>, n: nat, channel: Channel): seq<Token>
    requires InBounds(c, s0) && n <= |ts|
  {
    if n == 0 then []
    else OnChannel(c, s0, ts, n - 1, channel) + Keep(Label(c, s0, ts, n - 1), channel, ts[n - 1])
  }

  /** `ExtractReasoningTokenIds` (channel `Reasoning`) and `ExtractVisibleTokenIds` (`Visible`). */
  function Extract(c: Controls, startsInReasoning: bool, ts: seq<Token>, channel: Channel): seq<Token> {
    OnChannel(c, Start(startsInReasoning), ts, |ts|, channel)
  }

  method ExtractTokenIds(tokenIds: seq<Token>, controls: Controls, startsInReasoning: bool, channel: Channel)
    returns (ids: seq<Token>)
    ensures ids == Extract(controls, startsInReasoning, tokenIds, channel)
  {
    var tracker := new ResponseChannelTracker(controls, startsInReasoning);
    ids := [];
    for k := 0 to |tokenIds|
      invariant tracker.Valid() && fresh(tracker) && tracker.Config() == controls
      invariant tracker.Current() == After(controls, Start(startsInReasoning), tokenIds, k)
      invariant ids == OnChannel(controls, Start(startsInReasoning), tokenIds, k, channel)
    {
      var observed := tracker.Observe(tokenIds[k]);
      if observed == channel {
        ids := ids + [tokenIds[k]];
      }
    }
  }

  lemma StepCounts(c: Controls, s: State, t: Token)
    requires InBounds(c, s)
    ensures Step(c, s, t).0.count == s.count + |Keep(Step(c, s, t).1, Reasoning, t)|
  {
  }

  /** The running counter is the length of the extracted reasoning, for any opener. */
  lemma {:induction false} CounterIsExtractLength(c: Controls, s0: State, ts: seq<Token>, n: nat)
    requires InBounds(c, s0) && n <= |ts|
    ensures After(c, s0, ts, n).count == s0.count + |OnChannel(c, s0, ts, n, Reasoning)|
  {
    hide Step, Keep;
    if n > 0 {
      CounterIsExtractLength(c, s0, ts, n - 1);
      StepCounts(c, After(c, s0, ts, n - 1), ts[n - 1]);
    }
  }

  function Keep(given: Channel, channel: Channel, t: Token): seq<Token> {
    if given == channel then [t] else []
  }

  lemma OneChannelGrows(r: seq<Token>, v: seq<Token>, k: seq<Token>, given: Channel, t: Token)
    ensures multiset(r + Keep(given, Reasoning, t)) + multiset(v + Keep(given, Visible, t)) + multiset(k + Keep(given, Control, t))
         == multiset(r) + multiset(v) + multiset(k) + multiset{t}
  {
    assert r + [] == r && v + [] == v && k + [] == k;
  }

  lemma TakeOneMore(ts: seq<Token>, m: nat)
    requires m < |ts|
    ensures multiset(ts[..m + 1]) == multiset(ts[..m]) + multiset{ts[m]}
  {
    assert ts[..m + 1] == ts[..m] + [ts[m]];
  }

  lemma OnChannelGrows(c: Controls, s0: State, ts: seq<Token>, m: nat, channel: Channel)
    requires InBounds(c, s0) && m < |ts|
    ensures OnChannel(c, s0, ts, m + 1, channel)
         == OnChannel(c, s0, ts, m, channel) + Keep(Label(c, s0, ts, m), channel, ts[m])
  {
  }

  /** The three channels partition the stream. */
  lemma {:induction false} ChannelsPartition(c: Controls, s0: State, ts: seq<Token>, n: nat)
    requires InBounds(c, s0) && n <= |ts|
    ensures multiset(ts[..n]) == multiset(OnChannel(c, s0, ts, n, Reasoning))
                               + multiset(OnChannel(c, s0, ts, n, Visible))
                               + multiset(OnChannel(c, s0, ts, n, Control))
  {
    hide Step, Keep, Label;
    if n > 0 {
      var m := n - 1;
      ChannelsPartition(c, s0, ts, m);
      TakeOneMore(ts, m);
      OnChannelGrows(c, s0, ts, m, Reasoning);
      OnChannelGrows(c, s0, ts, m, Visible);
      OnChannelGrows(c, s0, ts, m, Control);
      OneChannelGrows(OnChannel(c, s0, ts, m, Reasoning), OnChannel(c, s0, ts, m, Visible),
                      OnChannel(c, s0, ts, m, Control), Label(c, s0, ts, m), ts[m]);
    }
  }

  // ---------------------------------------------------------------- exact matching

  /** The tokens read since the last channel event: a close token, a completed opener, or any
      token while a channel is open. */
  ghost function Since(c: Controls, s0: State, ts: seq<Token>, n: nat): seq<Token>
    requires InBounds(c, s0) && n <= |ts|
  {
    if n == 0 then []
    else SinceStep(c, After(c, s0, ts, n - 1), Since(c, s0, ts, n - 1), ts[n - 1])
  }

  ghost function SinceStep(c: Controls, s: State, w: seq<Token>, t: Token): seq<Token>
    requires InBounds(c, s)
  {
    var next := Step(c, s, t).0;
    if s.inReasoning || s.suppressing || t == c.close || next.inReasoning || next.suppressing then [] else w + [t]
  }

  /** The opener's first `k` tokens are the last `k` tokens of `w`. */
  ghost predicate Overlap(opener: seq<Token>, w: seq<Token>, k: nat) {
    k <= |opener| && k <= |w| && opener[..k] == w[|w| - k..]
  }

  ghost predicate LongestOverlap(opener: seq<Token>, w: seq<Token>, k: nat) {
    Overlap(opener, w, k) && forall j: nat :: Overlap(opener, w, j) ==> j <= k
  }

  /** Every border of a proper prefix continues with the token that follows the prefix.
      It holds in particular when the opener's first token does not recur. */
  ghost predicate BordersContinue(opener: seq<Token>) {
    forall j: nat, b: nat :: 1 <= b < j < |opener| && Overlap(opener, opener[..j], b) ==> opener[b] == opener[j]
  }

  lemma NoRecurrenceHasNoBorders(opener: seq<Token>)
    requires opener != [] && opener[0] !in opener[1..]
    ensures BordersContinue(opener)
  {
    forall j: nat, b: nat | 1 <= b < j < |opener|
      ensures !Overlap(opener, opener[..j], b)
    {
      assert opener[..j][j - b..][0] == opener[1..][j - b - 1];
      assert opener[1..][j - b - 1] != opener[0] == opener[..b][0];
    }
  }

  lemma OverlapSnoc(opener: seq<Token>, w: seq<Token>, t: Token, k: nat)
    requires k < |opener|
    ensures Overlap(opener, w + [t], k + 1) <==> Overlap(opener, w, k) && opener[k] == t
  {
    if k <= |w| {
      var v := w + [t];
      assert v[|v| - (k + 1)..] == w[|w| - k..] + [t];
      assert opener[..k + 1] == opener[..k] + [opener[k]];
      if opener[..k + 1] == v[|v| - (k + 1)..] {
        assert opener[..k] == opener[..k + 1][..k] == w[|w| - k..];
        assert opener[k] == opener[..k + 1][k] == t;
      }
    }
  }

  lemma OverlapOfOverlap(opener: seq<Token>, w: seq<Token>, j: nat, b: nat)
    requires Overlap(opener, w, j) && Overlap(opener, w, b) && b <= j
    ensures Overlap(opener, opener[..j], b)
  {
    assert opener[..j][j - b..] == w[|w| - j..][j - b..] == w[|w| - b..];
  }

  function NextMatch(opener: seq<Token>, j: nat, t: Token): nat
    requires j < |opener|
  {
    if t == opener[j] then j + 1 else if t == opener[0] then 1 else 0
  }

  lemma NextMatchBounds(opener: seq<Token>, w: seq<Token>, j: nat, t: Token, k: nat)
    requires BordersContinue(opener)
    requires LongestOverlap(opener, w, j) && j < |opener| && Overlap(opener, w + [t], k)
    ensures k <= NextMatch(opener, j, t)
  {
    if k > 0 {
      OverlapSnoc(opener, w, t, k - 1);
      if k > 1 {
        OverlapOfOverlap(opener, w, j, k - 1);
      }
    }
  }

  /** One matching step keeps the longest overlap. */
  lemma StepKeepsLongest(opener: seq<Token>, w: seq<Token>, j: nat, t: Token)
    requires BordersContinue(opener)
    requires LongestOverlap(opener, w, j) && j < |opener|
    ensures LongestOverlap(opener, w + [t], NextMatch(opener, j, t))
  {
    forall k: nat | Overlap(opener, w + [t], k)
      ensures k <= NextMatch(opener, j, t)
    {
      NextMatchBounds(opener, w, j, t, k);
    }
    OverlapSnoc(opener, w, t, j);
    OverlapSnoc(opener, w, t, 0);
  }

  ghost predicate Tracks(c: Controls, s: State, w: seq<Token>) {
    && LongestOverlap(c.opener, w, s.matched)
    && (s.inReasoning || s.suppressing ==> s.matched == 0)
  }

  lemma StepTracks(c: Controls, s: State, w: seq<Token>, t: Token)
    requires c.opener != [] && BordersContinue(c.opener) && InBounds(c, s) && Tracks(c, s, w)
    ensures Tracks(c, Step(c, s, t).0, SinceStep(c, s, w, t))
  {
    var next := Step(c, s, t).0;
    if SinceStep(c, s, w, t) == [] {
      assert next.matched == 0;
    } else {
      StepKeepsLongest(c.opener, w, s.matched, t);
      assert next.matched == NextMatch(c.opener, s.matched, t);
    }
  }

  /** Main result: after every stream the match length is the longest opener prefix that is a
      suffix of what was read since the last channel event. */
  lemma {:induction false} MatchIsLongest(c: Controls, s0: State, ts: seq<Token>, n: nat)
    requires s0.matched == 0 && c.opener != [] && BordersContinue(c.opener) && n <= |ts|
    ensures Tracks(c, After(c, s0, ts, n), Since(c, s0, ts, n))
  {
    hide Step, SinceStep, BordersContinue;
    if n > 0 {
      MatchIsLongest(c, s0, ts, n - 1);
      StepTracks(c, After(c, s0, ts, n - 1), Since(c, s0, ts, n - 1), ts[n - 1]);
    }
  }

  lemma {:induction false} PrefixIsMatched(c: Controls, ts: seq<Token>, j: nat)
    requires c.close !in c.opener && j < |c.opener| && c.opener[..j] <= ts
    ensures After(c, Start(false), ts, j) == Start(false).(matched := j)
    ensures Since(c, Start(false), ts, j) == c.opener[..j]
  {
    if j > 0 {
      PrefixIsMatched(c, ts, j - 1);
      assert ts[j - 1] == c.opener[..j][j - 1] == c.opener[j - 1] && c.opener[j - 1] in c.opener;
    }
  }

  ghost predicate MatchesExactly(c: Controls, ts: seq<Token>) {
    LongestOverlap(c.opener, Since(c, Start(false), ts, |ts|), After(c, Start(false), ts, |ts|).matched)
  }

  lemma MismatchFallsBack(c: Controls, j: nat, t: Token)
    requires j < |c.opener| && t != c.close && t != c.opener[j]
    ensures var s := Start(false).(matched := j);
            Step(c, s, t).0.matched <= 1 && forall w :: SinceStep(c, s, w, t) == w + [t]
  {
  }

  lemma BrokenBorderFools(c: Controls, j: nat, b: nat)
    requires c.close !in c.opener
    requires 1 <= b < j < |c.opener| && Overlap(c.opener, c.opener[..j], b) && c.opener[b] != c.opener[j]
    ensures !MatchesExactly(c, c.opener[..j] + [c.opener[b]])
  {
    hide Step, SinceStep, Overlap;
    var p, t := c.opener[..j], c.opener[b];
    var ts := p + [t];
    PrefixIsMatched(c, ts, j);
    assert t in c.opener && ts[j] == t;
    MismatchFallsBack(c, j, t);
    assert Since(c, Start(false), ts, j + 1) == ts;
    OverlapSnoc(c.opener, p, t, b);
    assert Overlap(c.opener, ts, b + 1);
  }

  /** The border condition is exactly what matching every stream needs. */
  lemma MatchIsLongestExactly(c: Controls)
    requires c.opener != [] && c.close !in c.opener
    ensures BordersContinue(c.opener) <==> forall ts :: MatchesExactly(c, ts)
  {
    if BordersContinue(c.opener) {
      forall ts
        ensures MatchesExactly(c, ts)
      {
        MatchIsLongest(c, Start(false), ts, |ts|);
      }
    } else {
      var j: nat, b: nat :|
        1 <= b < j < |c.opener| && Overlap(c.opener, c.opener[..j], b) && c.opener[b] != c.opener[j];
      BrokenBorderFools(c, j, b);
    }
  }

  // ---------------------------------------------------------------- where reasoning lies

  /** A full opener ends exactly before position `e`. */
  ghost predicate OpenerEndsAt(opener: seq<Token>, ts: seq<Token>, e: nat) {
    |opener| <= e <= |ts| && ts[e - |opener|..e] == opener
  }

  ghost predicate NoOpenerBefore(opener: seq<Token>, ts: seq<Token>, n: nat) {
    forall e: nat :: e < n ==> !OpenerEndsAt(opener, ts, e)
  }

  lemma OverlapCompletes(opener: seq<Token>, ts: seq<Token>, w: seq<Token>, n: nat)
    requires opener != [] && 0 < n <= |ts| && |w| < n && w == ts[n - 1 - |w|..n - 1]
    requires Overlap(opener, w, |opener| - 1) && ts[n - 1] == opener[|opener| - 1]
    ensures OpenerEndsAt(opener, ts, n)
  {
    var k := |opener| - 1;
    assert ts[n - |opener|..n] == ts[n - 1 - |w|..n - 1][|w| - k..] + [ts[n - 1]];
    assert opener == opener[..k] + [opener[k]];
  }

  ghost predicate Quiet(c: Controls, ts: seq<Token>, n: nat, s: State, w: seq<Token>)
    requires n <= |ts|
  {
    && s == Start(false).(matched := s.matched)
    && |w| <= n && w == ts[n - |w|..n]
    && (|w| == n || ts[n - |w| - 1] == c.close)
  }

  lemma QuietStep(c: Controls, ts: seq<Token>, n: nat, s: State, w: seq<Token>)
    requires c.opener != [] && n < |ts| && InBounds(c, s) && Quiet(c, ts, n, s, w)
    requires !Completes(c, s, ts[n])
    ensures Quiet(c, ts, n + 1, Step(c, s, ts[n]).0, SinceStep(c, s, w, ts[n]))
  {
    assert ts[n - |w|..n + 1] == ts[n - |w|..n] + [ts[n]];
  }

  predicate Completes(c: Controls, s: State, t: Token)
    requires c.opener != [] && InBounds(c, s)
  {
    s.matched + 1 == |c.opener| && t == c.opener[s.matched] && t != c.close
  }

  lemma NoCompletionYet(c: Controls, ts: seq<Token>, n: nat, s: State, w: seq<Token>)
    requires c.opener != [] && n < |ts| && InBounds(c, s) && Quiet(c, ts, n, s, w)
    requires Overlap(c.opener, w, s.matched) && !OpenerEndsAt(c.opener, ts, n + 1)
    ensures !Completes(c, s, ts[n])
  {
    if Completes(c, s, ts[n]) {
      OverlapCompletes(c.opener, ts, w, n + 1);
    }
  }

  /** Before the first full opener no channel is open, and matching looks back to the last close. */
  lemma {:induction false} BeforeFirstOpener(c: Controls, ts: seq<Token>, n: nat)
    requires c.opener != [] && BordersContinue(c.opener) && n <= |ts| && NoOpenerBefore(c.opener, ts, n + 1)
    ensures Quiet(c, ts, n, After(c, Start(false), ts, n), Since(c, Start(false), ts, n))
  {
    if n > 0 {
      var m := n - 1;
      BeforeFirstOpener(c, ts, m);
      MatchIsLongest(c, Start(false), ts, m);
      var s, w := After(c, Start(false), ts, m), Since(c, Start(false), ts, m);
      NoCompletionYet(c, ts, m, s, w);
      QuietStep(c, ts, m, s, w);
    }
  }

  lemma CompletionOverlaps(c: Controls, ts: seq<Token>, e: nat, w: seq<Token>)
    requires c.opener != [] && c.close !in c.opener && OpenerEndsAt(c.opener, ts, e)
    requires |w| < e && w == ts[e - 1 - |w|..e - 1] && (|w| == e - 1 || ts[e - 1 - |w| - 1] == c.close)
    ensures Overlap(c.opener, w, |c.opener| - 1)
  {
    var k := |c.opener| - 1;
    var from := e - |c.opener|;
    forall i | from <= i < e
      ensures ts[i] != c.close
    {
      assert ts[i] == ts[from..e][i - from] == c.opener[i - from];
    }
    assert w[|w| - k..] == ts[from..e][..k] == c.opener[..k];
  }

  lemma CompletingStep(c: Controls, t: Token)
    requires c.opener != [] && t == c.opener[|c.opener| - 1] && t != c.close
    ensures Step(c, Start(false).(matched := |c.opener| - 1), t).0 == Start(true)
  {
  }

  lemma LastOpenerToken(c: Controls, ts: seq<Token>, e: nat)
    requires c.opener != [] && c.close !in c.opener && OpenerEndsAt(c.opener, ts, e)
    ensures ts[e - 1] == c.opener[|c.opener| - 1] && ts[e - 1] != c.close
  {
    assert ts[e - 1] == ts[e - |c.opener|..e][|c.opener| - 1];
  }

  /** The first full opener opens the reasoning channel. */
  lemma FirstOpenerOpens(c: Controls, ts: seq<Token>, e: nat)
    requires c.opener != [] && BordersContinue(c.opener) && c.close !in c.opener
    requires OpenerEndsAt(c.opener, ts, e) && NoOpenerBefore(c.opener, ts, e)
    ensures After(c, Start(false), ts, e) == Start(true)
  {
    hide BordersContinue, Step, SinceStep, Overlap;
    var m := e - 1;
    BeforeFirstOpener(c, ts, m);
    MatchIsLongest(c, Start(false), ts, m);
    LastOpenerToken(c, ts, e);
    CompletionOverlaps(c, ts, e, Since(c, Start(false), ts, m));
    CompletingStep(c, ts[m]);
  }

  /** From an open reasoning channel: everything up to the first close is reasoning. */
  lemma {:induction false} ReasoningUntilClose(c: Controls, s0: State, ts: seq<Token>, e: nat, n: nat)
    requires InBounds(c, s0) && e <= n <= |ts|
    requires After(c, s0, ts, e) == Start(true)
    requires forall i :: e <= i < n ==> ts[i] != c.close
    ensures After(c, s0, ts, n) == Start(true).(count := n - e)
  {
    if n > e {
      ReasoningUntilClose(c, s0, ts, e, n - 1);
    }
  }

  /** After the close, reasoning never resumes, for any opener. */
  lemma {:induction false} NoReasoningAfterClose(c: Controls, s0: State, ts: seq<Token>, m: nat, n: nat)
    requires InBounds(c, s0) && m <= n <= |ts|
    requires var s := After(c, s0, ts, m); s.complete && !s.inReasoning
    ensures var s := After(c, s0, ts, n); s.complete && !s.inReasoning && s.count == After(c, s0, ts, m).count
  {
    if n > m {
      NoReasoningAfterClose(c, s0, ts, m, n - 1);
    }
  }

  /** `e` is where reasoning opens: at once when the prompt opened it, else after the first full
      opener. */
  ghost predicate OpensAt(c: Controls, startsInReasoning: bool, ts: seq<Token>, e: nat) {
    if startsInReasoning then e == 0
    else OpenerEndsAt(c.opener, ts, e) && NoOpenerBefore(c.opener, ts, e)
  }

  /** `d` is the first close at or after `e`, or the end of the stream. */
  ghost predicate ClosesAt(c: Controls, ts: seq<Token>, e: nat, d: nat) {
    && e <= d <= |ts| && (forall i :: e <= i < d ==> ts[i] != c.close)
    && (d == |ts| || ts[d] == c.close)
  }

  lemma OpensInReasoning(c: Controls, startsInReasoning: bool, ts: seq<Token>, e: nat)
    requires c.opener != [] && BordersContinue(c.opener) && c.close !in c.opener
    requires OpensAt(c, startsInReasoning, ts, e)
    ensures e <= |ts| && After(c, Start(startsInReasoning), ts, e) == Start(true)
  {
    if !startsInReasoning {
      FirstOpenerOpens(c, ts, e);
    }
  }

  lemma NotReasoningBefore(c: Controls, ts: seq<Token>, i: nat)
    requires c.opener != [] && BordersContinue(c.opener) && i < |ts| && NoOpenerBefore(c.opener, ts, i + 1)
    ensures Label(c, Start(false), ts, i) != Reasoning
  {
    BeforeFirstOpener(c, ts, i);
  }

  lemma LabelsFromOpen(c: Controls, s0: State, ts: seq<Token>, e: nat, d: nat, i: nat)
    requires InBounds(c, s0) && ClosesAt(c, ts, e, d) && After(c, s0, ts, e) == Start(true)
    requires e <= i < |ts|
    ensures Label(c, s0, ts, i) == Reasoning <==> i < d
  {
    if i <= d {
      ReasoningUntilClose(c, s0, ts, e, i);
    } else {
      ReasoningUntilClose(c, s0, ts, e, d);
      NoReasoningAfterClose(c, s0, ts, d + 1, i);
    }
  }

  /** Main result: a token is reasoning exactly when it lies between where reasoning opens and
      the first close after that. */
  lemma ReasoningIsOneBlock(c: Controls, startsInReasoning: bool, ts: seq<Token>, e: nat, d: nat, i: nat)
    requires c.opener != [] && BordersContinue(c.opener) && c.close !in c.opener
    requires OpensAt(c, startsInReasoning, ts, e) && ClosesAt(c, ts, e, d) && i < |ts|
    ensures Label(c, Start(startsInReasoning), ts, i) == Reasoning <==> e <= i < d
  {
    if i < e {
      NotReasoningBefore(c, ts, i);
    } else {
      OpensInReasoning(c, startsInReasoning, ts, e);
      LabelsFromOpen(c, Start(startsInReasoning), ts, e, d, i);
    }
  }

  /** A stream that was not opened by the prompt and holds no full opener has no reasoning. */
  lemma {:induction false} NoOpenerNoReasoning(c: Controls, ts: seq<Token>, n: nat)
    requires c.opener != [] && BordersContinue(c.opener)
    requires NoOpenerBefore(c.opener, ts, |ts| + 1) && n <= |ts|
    ensures OnChannel(c, Start(false), ts, n, Reasoning) == []
  {
    if n > 0 {
      NoOpenerNoReasoning(c, ts, n - 1);
      NotReasoningBefore(c, ts, n - 1);
    }
  }

  function BlockUpTo(ts: seq<Token>, e: nat, d: nat, n: nat): seq<Token>
    requires e <= d <= |ts| && n <= |ts|
  {
    if n <= e then [] else if n <= d then ts[e..n] else ts[e..d]
  }

  lemma BlockGrows(ts: seq<Token>, e: nat, d: nat, m: nat, given: Channel)
    requires e <= d <= |ts| && m < |ts| && (given == Reasoning <==> e <= m < d)
    ensures BlockUpTo(ts, e, d, m + 1) == BlockUpTo(ts, e, d, m) + Keep(given, Reasoning, ts[m])
  {
  }

  ghost predicate ReasoningExactlyIn(c: Controls, s0: State, ts: seq<Token>, e: nat, d: nat)
    requires InBounds(c, s0)
  {
    forall i :: 0 <= i < |ts| ==> (Label(c, s0, ts, i) == Reasoning <==> e <= i < d)
  }

  lemma {:induction false} ExtractOfBlock(c: Controls, s0: State, ts: seq<Token>, e: nat, d: nat, n: nat)
    requires InBounds(c, s0) && e <= d <= |ts| && n <= |ts| && ReasoningExactlyIn(c, s0, ts, e, d)
    ensures OnChannel(c, s0, ts, n, Reasoning) == BlockUpTo(ts, e, d, n)
  {
    if n > 0 {
      var given := Label(c, s0, ts, n - 1);
      ExtractOfBlock(c, s0, ts, e, d, n - 1);
      BlockGrows(ts, e, d, n - 1, given);
    }
  }

  /** The extracted reasoning is that block of the stream, and the counter is its length. */
  lemma ExtractedReasoningIsBlock(c: Controls, startsInReasoning: bool, ts: seq<Token>, e: nat, d: nat)
    requires c.opener != [] && BordersContinue(c.opener) && c.close !in c.opener
    requires OpensAt(c, startsInReasoning, ts, e) && ClosesAt(c, ts, e, d)
    ensures Extract(c, startsInReasoning, ts, Reasoning) == ts[e..d]
    ensures After(c, Start(startsInReasoning), ts, |ts|).count == d - e
  {
    var s0 := Start(startsInReasoning);
    forall i | 0 <= i < |ts|
      ensures Label(c, s0, ts, i) == Reasoning <==> e <= i < d
    {
      ReasoningIsOneBlock(c, startsInReasoning, ts, e, d, i);
    }
    ExtractOfBlock(c, s0, ts, e, d, |ts|);
    assert BlockUpTo(ts, e, d, |ts|) == ts[e..d];
    CounterIsExtractLength(c, s0, ts, |ts|);
  }

  lemma {:induction false} FirstOpener(opener: seq<Token>, ts: seq<Token>, n: nat) returns (e: nat)
    requires !NoOpenerBefore(opener, ts, n)
    ensures e < n && OpenerEndsAt(opener, ts, e) && NoOpenerBefore(opener, ts, e)
  {
    if NoOpenerBefore(opener, ts, n - 1) {
      e := n - 1;
    } else {
      e := FirstOpener(opener, ts, n - 1);
    }
  }

  /** The first close token at or after `e`, or the end of the stream. */
  function FirstClose(c: Controls, ts: seq<Token>, e: nat): (d: nat)
    requires e <= |ts|
    ensures ClosesAt(c, ts, e, d)
    decreases |ts| - e
  {
    if e == |ts| || ts[e] == c.close then e else FirstClose(c, ts, e + 1)
  }

  /** A stream that the prompt did not open holds no reasoning exactly when its first full
      opener, if any, is followed by a close token or by nothing. */
  lemma NoReasoningExactly(c: Controls, ts: seq<Token>)
    requires c.opener != [] && BordersContinue(c.opener) && c.close !in c.opener
    ensures Extract(c, false, ts, Reasoning) == [] <==>
      forall e: nat :: OpensAt(c, false, ts, e) ==> e == |ts| || ts[e] == c.close
  {
    if NoOpenerBefore(c.opener, ts, |ts| + 1) {
      NoOpenerNoReasoning(c, ts, |ts|);
    } else {
      var e := FirstOpener(c.opener, ts, |ts| + 1);
      var d := FirstClose(c, ts, e);
      ExtractedReasoningIsBlock(c, false, ts, e, d);
      assert OpensAt(c, false, ts, e);
      forall k: nat | OpensAt(c, false, ts, k)
        ensures k == e
      {
      }
    }
  }

  lemma {:induction false} StaysOrCompletes(c: Controls, s0: State, ts: seq<Token>, m: nat, n: nat)
    requires InBounds(c, s0) && m <= n <= |ts| && After(c, s0, ts, m).inReasoning
    ensures var s := After(c, s0, ts, n); s.inReasoning || s.complete
  {
    if n > m {
      StaysOrCompletes(c, s0, ts, m, n - 1);
    }
  }

  /** With any opener at all, reasoning is one contiguous block. */
  lemma ReasoningIsContiguous(c: Controls, startsInReasoning: bool, ts: seq<Token>, i: nat, j: nat, k: nat)
    requires i < j < k < |ts|
    requires Label(c, Start(startsInReasoning), ts, i) == Reasoning == Label(c, Start(startsInReasoning), ts, k)
    ensures Label(c, Start(startsInReasoning), ts, j) == Reasoning
  {
    var s0 := Start(startsInReasoning);
    StaysOrCompletes(c, s0, ts, i, j);
    if !After(c, s0, ts, j).inReasoning {
      NoReasoningAfterClose(c, s0, ts, j, k);
    } else if ts[j] == c.close {
      NoReasoningAfterClose(c, s0, ts, j + 1, k);
    }
  }
}
