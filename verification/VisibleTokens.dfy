/** Which tokens of a stream are shown, in terms of the tokens alone. */
module VisibleTokens {
  import opened Seqs
  import opened Bpe
  import opened ResponseChannel

  // ---------------------------------------------------------------- open channels

  ghost predicate NoClose(c: Controls, ts: seq<Token>, e: nat, n: nat)
    requires n <= |ts|
  {
    forall j :: e <= j < n ==> ts[j] != c.close
  }

  /** A full opener ends at `e`, or the prompt opened the channel there. */
  ghost predicate Opened(c: Controls, startsInReasoning: bool, ts: seq<Token>, e: nat) {
    OpenerEndsAt(c.opener, ts, e) || (startsInReasoning && e == 0)
  }

  /** Some opening at or before `n` has no close token between its end and `n`. */
  ghost predicate Inside(c: Controls, startsInReasoning: bool, ts: seq<Token>, n: nat)
    requires n <= |ts|
  {
    exists e: nat :: e <= n && Opened(c, startsInReasoning, ts, e) && NoClose(c, ts, e, n)
  }

  /** Where the tokens behind the last close token start. */
  function Behind(c: Controls, ts: seq<Token>, n: nat): (b: nat)
    requires n <= |ts|
    ensures b <= n && (b == 0 || ts[b - 1] == c.close)
    ensures forall j :: b <= j < n ==> ts[j] != c.close
  {
    if n == 0 || ts[n - 1] == c.close then n else Behind(c, ts, n - 1)
  }

  /** What was read since the last close token ends in a nonempty prefix of the opener. */
  ghost predicate MayOpen(c: Controls, ts: seq<Token>, n: nat)
    requires n <= |ts|
  {
    exists k: nat :: k > 0 && Overlap(c.opener, ts[Behind(c, ts, n)..n], k)
  }

  predicate Idle(s: State) {
    !s.inReasoning && !s.suppressing
  }

  /** The recogniser's state and window, in terms of the tokens. */
  ghost predicate Knows(c: Controls, startsInReasoning: bool, ts: seq<Token>, n: nat, s: State, w: seq<Token>)
    requires n <= |ts|
  {
    && !(s.inReasoning && s.suppressing)
    && (Inside(c, startsInReasoning, ts, n) <==> !Idle(s))
    && (Idle(s) ==> w == ts[Behind(c, ts, n)..n])
  }

  lemma CloseEndsAll(c: Controls, startsInReasoning: bool, ts: seq<Token>, m: nat)
    requires c.opener != [] && c.close !in c.opener && m < |ts| && ts[m] == c.close
    ensures !Inside(c, startsInReasoning, ts, m + 1)
  {
    forall e: nat | e <= m + 1 && Opened(c, startsInReasoning, ts, e)
      ensures !NoClose(c, ts, e, m + 1)
    {
      if e == m + 1 {
        LastOpenerToken(c, ts, e);
      }
    }
  }

  lemma OtherTokenKeeps(c: Controls, startsInReasoning: bool, ts: seq<Token>, m: nat)
    requires m < |ts| && ts[m] != c.close
    ensures Inside(c, startsInReasoning, ts, m + 1)
       <==> Inside(c, startsInReasoning, ts, m) || OpenerEndsAt(c.opener, ts, m + 1)
    ensures Behind(c, ts, m + 1) == Behind(c, ts, m)
  {
    if Inside(c, startsInReasoning, ts, m) {
      var e: nat :| e <= m && Opened(c, startsInReasoning, ts, e) && NoClose(c, ts, e, m);
      assert NoClose(c, ts, e, m + 1);
    }
    if OpenerEndsAt(c.opener, ts, m + 1) {
      assert Opened(c, startsInReasoning, ts, m + 1) && NoClose(c, ts, m + 1, m + 1);
    }
    if Inside(c, startsInReasoning, ts, m + 1) {
      var e: nat :| e <= m + 1 && Opened(c, startsInReasoning, ts, e) && NoClose(c, ts, e, m + 1);
      if e <= m {
        assert NoClose(c, ts, e, m);
      }
    }
  }

  lemma EndsCompletes(c: Controls, ts: seq<Token>, m: nat, s: State, w: seq<Token>)
    requires c.opener != [] && c.close !in c.opener && m < |ts| && InBounds(c, s) && LongestOverlap(c.opener, w, s.matched)
    requires |w| <= m && w == ts[m - |w|..m] && (|w| == m || ts[m - |w| - 1] == c.close)
    requires OpenerEndsAt(c.opener, ts, m + 1)
    ensures Completes(c, s, ts[m])
  {
    hide Overlap, OpenerEndsAt;
    LastOpenerToken(c, ts, m + 1);
    CompletionOverlaps(c, ts, m + 1, w);
  }

  lemma CompletedEnds(c: Controls, ts: seq<Token>, m: nat, s: State, w: seq<Token>)
    requires c.opener != [] && m < |ts| && InBounds(c, s) && Overlap(c.opener, w, s.matched)
    requires |w| <= m && w == ts[m - |w|..m] && Completes(c, s, ts[m])
    ensures OpenerEndsAt(c.opener, ts, m + 1)
  {
    hide Overlap, OpenerEndsAt;
    OverlapCompletes(c.opener, ts, w, m + 1);
  }

  /** In an idle state the opener completes exactly when the recogniser completes it. */
  lemma CompletesExactly(c: Controls, ts: seq<Token>, m: nat, s: State, w: seq<Token>)
    requires c.opener != [] && c.close !in c.opener && m < |ts| && ts[m] != c.close && InBounds(c, s)
    requires w == ts[Behind(c, ts, m)..m] && LongestOverlap(c.opener, w, s.matched)
    ensures OpenerEndsAt(c.opener, ts, m + 1) <==> Completes(c, s, ts[m])
  {
    hide Overlap, OpenerEndsAt, Behind, Completes;
    assert |w| == m - Behind(c, ts, m);
    if Completes(c, s, ts[m]) {
      CompletedEnds(c, ts, m, s, w);
    }
    if OpenerEndsAt(c.opener, ts, m + 1) {
      EndsCompletes(c, ts, m, s, w);
    }
  }

  lemma KnowsNext(c: Controls, startsInReasoning: bool, ts: seq<Token>, m: nat, s: State, w: seq<Token>)
    requires c.opener != [] && c.close !in c.opener && m < |ts| && InBounds(c, s)
    requires Knows(c, startsInReasoning, ts, m, s, w) && Tracks(c, s, w)
    ensures Knows(c, startsInReasoning, ts, m + 1, Step(c, s, ts[m]).0, SinceStep(c, s, w, ts[m]))
  {
    hide Inside, OpenerEndsAt, LongestOverlap;
    if ts[m] == c.close {
      CloseEndsAll(c, startsInReasoning, ts, m);
    } else {
      OtherTokenKeeps(c, startsInReasoning, ts, m);
      if Idle(s) {
        CompletesExactly(c, ts, m, s, w);
        assert ts[Behind(c, ts, m)..m + 1] == ts[Behind(c, ts, m)..m] + [ts[m]];
      }
    }
  }

  lemma StartKnows(c: Controls, startsInReasoning: bool, ts: seq<Token>)
    requires c.opener != []
    ensures Knows(c, startsInReasoning, ts, 0, Start(startsInReasoning), [])
  {
    assert Opened(c, startsInReasoning, ts, 0) <==> startsInReasoning;
    assert NoClose(c, ts, 0, 0);
  }

  /** Over every stream a channel is open exactly when some opening has not been closed yet. */
  lemma {:induction false} RunKnows(c: Controls, startsInReasoning: bool, ts: seq<Token>, n: nat)
    requires c.opener != [] && BordersContinue(c.opener) && c.close !in c.opener && n <= |ts|
    ensures Knows(c, startsInReasoning, ts, n, After(c, Start(startsInReasoning), ts, n), Since(c, Start(startsInReasoning), ts, n))
  {
    hide Knows, Step, SinceStep, BordersContinue, Tracks;
    var s0 := Start(startsInReasoning);
    if n == 0 {
      StartKnows(c, startsInReasoning, ts);
    } else {
      RunKnows(c, startsInReasoning, ts, n - 1);
      MatchIsLongest(c, s0, ts, n - 1);
      KnowsNext(c, startsInReasoning, ts, n - 1, After(c, s0, ts, n - 1), Since(c, s0, ts, n - 1));
    }
  }

  /** Where the match length is longest, a token is shown exactly when nothing matches any more. */
  lemma ShownWhenIdle(c: Controls, s: State, w: seq<Token>, t: Token)
    requires c.opener != [] && BordersContinue(c.opener) && InBounds(c, s) && Idle(s) && t != c.close
    requires LongestOverlap(c.opener, w, s.matched)
    ensures Step(c, s, t).1 == Visible <==> forall k: nat :: k > 0 ==> !Overlap(c.opener, w + [t], k)
  {
    hide Overlap, BordersContinue;
    StepKeepsLongest(c.opener, w, s.matched, t);
    assert Step(c, s, t).1 == Visible <==> NextMatch(c.opener, s.matched, t) == 0;
  }

  /** Main result: a token is shown if and only if it is no close token, no opening at or before it is
      still unclosed, and the tokens since the last close token up to it end in no opener prefix. */
  lemma VisibleExactly(c: Controls, startsInReasoning: bool, ts: seq<Token>, i: nat)
    requires c.opener != [] && BordersContinue(c.opener) && c.close !in c.opener && i < |ts|
    ensures Label(c, Start(startsInReasoning), ts, i) == Visible
       <==> ts[i] != c.close && !Inside(c, startsInReasoning, ts, i) && !MayOpen(c, ts, i + 1)
  {
    hide Inside, BordersContinue, Overlap;
    var s0 := Start(startsInReasoning);
    var s, w := After(c, s0, ts, i), Since(c, s0, ts, i);
    RunKnows(c, startsInReasoning, ts, i);
    MatchIsLongest(c, s0, ts, i);
    if ts[i] != c.close && Idle(s) {
      OtherTokenKeeps(c, startsInReasoning, ts, i);
      assert ts[Behind(c, ts, i)..i + 1] == w + [ts[i]];
      ShownWhenIdle(c, s, w, ts[i]);
    }
  }

  // ---------------------------------------------------------------- whole replies

  lemma {:induction false} AfterConcat(c: Controls, s0: State, x: seq<Token>, y: seq<Token>, k: nat)
    requires InBounds(c, s0) && k <= |y|
    ensures After(c, s0, x + y, |x|) == After(c, s0, x, |x|)
    ensures After(c, s0, x + y, |x| + k) == After(c, After(c, s0, x, |x|), y, k)
  {
    hide Step;
    if k == 0 {
      AfterPrefix(c, s0, x, y, |x|);
    } else {
      AfterConcat(c, s0, x, y, k - 1);
    }
  }

  lemma {:induction false} AfterPrefix(c: Controls, s0: State, x: seq<Token>, y: seq<Token>, n: nat)
    requires InBounds(c, s0) && n <= |x|
    ensures After(c, s0, x + y, n) == After(c, s0, x, n)
  {
    hide Step;
    if n > 0 {
      AfterPrefix(c, s0, x, y, n - 1);
    }
  }

  lemma {:induction false} ChannelPrefix(c: Controls, s0: State, x: seq<Token>, y: seq<Token>, n: nat, channel: Channel)
    requires InBounds(c, s0) && n <= |x|
    ensures OnChannel(c, s0, x + y, n, channel) == OnChannel(c, s0, x, n, channel)
  {
    hide Step;
    if n > 0 {
      ChannelPrefix(c, s0, x, y, n - 1, channel);
      AfterPrefix(c, s0, x, y, n - 1);
    }
  }

  lemma LabelConcat(c: Controls, s0: State, x: seq<Token>, y: seq<Token>, k: nat)
    requires InBounds(c, s0) && k < |y|
    ensures Label(c, s0, x + y, |x| + k) == Label(c, After(c, s0, x, |x|), y, k)
  {
    hide Step, After;
    AfterConcat(c, s0, x, y, k);
  }

  /** What one part of a stream adds to a channel, from the state in front of it. */
  lemma {:induction false} ChannelConcat(c: Controls, s0: State, x: seq<Token>, y: seq<Token>, k: nat, channel: Channel)
    requires InBounds(c, s0) && k <= |y|
    ensures OnChannel(c, s0, x + y, |x| + k, channel)
         == OnChannel(c, s0, x, |x|, channel) + OnChannel(c, After(c, s0, x, |x|), y, k, channel)
  {
    hide Step, After, Label, Keep;
    if k == 0 {
      ChannelPrefix(c, s0, x, y, |x|, channel);
      EmptyUnits(OnChannel(c, s0, x, |x|, channel));
    } else {
      ChannelConcat(c, s0, x, y, k - 1, channel);
      LabelConcat(c, s0, x, y, k - 1);
      Assoc(OnChannel(c, s0, x, |x|, channel), OnChannel(c, After(c, s0, x, |x|), y, k - 1, channel),
            Keep(Label(c, After(c, s0, x, |x|), y, k - 1), channel, y[k - 1]));
    }
  }

  /** Behind plain text or a closed block: nothing matched, nothing open. */
  predicate Ready(s: State) {
    Idle(s) && s.matched == 0
  }

  /** Text that starts no opener and closes nothing. */
  predicate PlainText(c: Controls, a: seq<Token>) {
    c.close !in a && (c.opener != [] ==> c.opener[0] !in a)
  }

  lemma StepOnPlain(c: Controls, s: State, t: Token)
    requires c.opener != [] && Ready(s) && t != c.close && t != c.opener[0]
    ensures Step(c, s, t) == (s, Visible)
  {
  }

  lemma StepOnOpener(c: Controls, s: State, n: nat)
    requires c.close !in c.opener && Ready(s) && n < |c.opener|
    ensures Step(c, s.(matched := n), c.opener[n])
         == (if n + 1 < |c.opener| then s.(matched := n + 1)
             else if s.complete then s.(suppressing := true) else s.(inReasoning := true), Control)
  {
    assert c.opener[n] in c.opener;
  }

  lemma StepInside(c: Controls, s: State, t: Token)
    requires s.inReasoning != s.suppressing && InBounds(c, s) && t != c.close
    ensures Step(c, s, t) == if s.inReasoning then (s.(count := s.count + 1), Reasoning) else (s, Control)
  {
  }

  lemma PlainAt(c: Controls, a: seq<Token>, i: nat)
    requires c.opener != [] && PlainText(c, a) && i < |a|
    ensures a[i] != c.close && a[i] != c.opener[0]
  {
    assert a[i] in a;
  }

  /** One more token of a stream: the state behind it, and what is on the channels. */
  lemma OneToken(c: Controls, s0: State, ts: seq<Token>, m: nat, next: State, given: Channel)
    requires InBounds(c, s0) && m < |ts| && Step(c, After(c, s0, ts, m), ts[m]) == (next, given)
    ensures After(c, s0, ts, m + 1) == next
    ensures forall channel: Channel ::
              OnChannel(c, s0, ts, m + 1, channel)
              == if given == channel then OnChannel(c, s0, ts, m, channel) + [ts[m]] else OnChannel(c, s0, ts, m, channel)
  {
    hide Step, InBounds;
    forall channel: Channel
      ensures OnChannel(c, s0, ts, m + 1, channel)
           == if given == channel then OnChannel(c, s0, ts, m, channel) + [ts[m]] else OnChannel(c, s0, ts, m, channel)
    {
      OnChannelGrows(c, s0, ts, m, channel);
      EmptyUnits(OnChannel(c, s0, ts, m, channel));
    }
  }

  lemma NoToken(c: Controls, s0: State, ts: seq<Token>)
    requires InBounds(c, s0)
    ensures After(c, s0, ts, 0) == s0 && forall channel: Channel :: OnChannel(c, s0, ts, 0, channel) == []
    ensures ts[..0] == []
  {
  }

  lemma {:induction false} PlainIsShown(c: Controls, s: State, a: seq<Token>, n: nat)
    requires c.opener != [] && Ready(s) && PlainText(c, a) && n <= |a|
    ensures After(c, s, a, n) == s
    ensures OnChannel(c, s, a, n, Visible) == a[..n] && OnChannel(c, s, a, n, Reasoning) == []
  {
    hide Step, After, OnChannel, PlainText;
    if n == 0 {
      NoToken(c, s, a);
    } else {
      PlainIsShown(c, s, a, n - 1);
      PlainAt(c, a, n - 1);
      StepOnPlain(c, s, a[n - 1]);
      OneToken(c, s, a, n - 1, s, Visible);
      assert a[..n] == a[..n - 1] + [a[n - 1]];
    }
  }

  /** The state behind the first `n` tokens of the opener. */
  function Opening(c: Controls, s: State, n: nat): State {
    if n < |c.opener| then s.(matched := n) else if s.complete then s.(suppressing := true) else s.(inReasoning := true)
  }

  lemma {:induction false} OpenerIsHidden(c: Controls, s: State, n: nat)
    requires c.opener != [] && c.close !in c.opener && Ready(s) && n <= |c.opener|
    ensures After(c, s, c.opener, n) == Opening(c, s, n)
    ensures OnChannel(c, s, c.opener, n, Visible) == [] && OnChannel(c, s, c.opener, n, Reasoning) == []
  {
    hide Step, After, OnChannel;
    if n == 0 {
      NoToken(c, s, c.opener);
    } else {
      OpenerIsHidden(c, s, n - 1);
      StepOnOpener(c, s, n - 1);
      OneToken(c, s, c.opener, n - 1, Opening(c, s, n), Control);
    }
  }

  lemma {:induction false} ThoughtIsReasoning(c: Controls, s: State, r: seq<Token>, n: nat)
    requires s.inReasoning && !s.suppressing && InBounds(c, s) && c.close !in r && n <= |r|
    ensures After(c, s, r, n) == s.(count := s.count + n)
    ensures OnChannel(c, s, r, n, Visible) == [] && OnChannel(c, s, r, n, Reasoning) == r[..n]
  {
    hide Step, After, OnChannel;
    if n == 0 {
      NoToken(c, s, r);
    } else {
      ThoughtIsReasoning(c, s, r, n - 1);
      NotClose(c, r, n - 1);
      StepInside(c, s.(count := s.count + (n - 1)), r[n - 1]);
      OneToken(c, s, r, n - 1, s.(count := s.count + n), Reasoning);
      assert r[..n] == r[..n - 1] + [r[n - 1]];
    }
  }

  lemma {:induction false} LaterThoughtIsDropped(c: Controls, s: State, r: seq<Token>, n: nat)
    requires !s.inReasoning && s.suppressing && InBounds(c, s) && c.close !in r && n <= |r|
    ensures After(c, s, r, n) == s
    ensures OnChannel(c, s, r, n, Visible) == [] && OnChannel(c, s, r, n, Reasoning) == []
  {
    hide Step, After, OnChannel;
    if n == 0 {
      NoToken(c, s, r);
    } else {
      LaterThoughtIsDropped(c, s, r, n - 1);
      NotClose(c, r, n - 1);
      StepInside(c, s, r[n - 1]);
      OneToken(c, s, r, n - 1, s, Control);
    }
  }

  lemma NotClose(c: Controls, r: seq<Token>, i: nat)
    requires c.close !in r && i < |r|
    ensures r[i] != c.close
  {
    assert r[i] in r;
  }

  lemma InsideIsHidden(c: Controls, s: State, r: seq<Token>)
    requires s.inReasoning != s.suppressing && InBounds(c, s) && c.close !in r
    ensures After(c, s, r, |r|) == if s.inReasoning then s.(count := s.count + |r|) else s
    ensures OnChannel(c, s, r, |r|, Visible) == []
    ensures OnChannel(c, s, r, |r|, Reasoning) == if s.inReasoning then r else []
  {
    hide After, OnChannel, InBounds;
    assert r[..|r|] == r;
    if s.inReasoning {
      ThoughtIsReasoning(c, s, r, |r|);
    } else {
      LaterThoughtIsDropped(c, s, r, |r|);
    }
  }

  lemma CloseIsHidden(c: Controls, s: State)
    requires s.inReasoning != s.suppressing && s.matched == 0
    ensures var next := if s.inReasoning then s.(inReasoning := false, complete := true) else s.(suppressing := false);
            After(c, s, [c.close], 1) == next && Ready(next)
    ensures OnChannel(c, s, [c.close], 1, Visible) == [] && OnChannel(c, s, [c.close], 1, Reasoning) == []
  {
    assert After(c, s, [c.close], 0) == s;
    assert OnChannel(c, s, [c.close], 0, Visible) == [] && OnChannel(c, s, [c.close], 0, Reasoning) == [];
  }

  /** A thought and the text behind it. */
  datatype Block = Block(thought: seq<Token>, text: seq<Token>)

  function BlockText(c: Controls, b: Block): seq<Token> {
    c.opener + (b.thought + ([c.close] + b.text))
  }

  /** A reply: text, then thoughts between the opener and the close token, each with text behind it. */
  function Stream(c: Controls, head: seq<Token>, blocks: seq<Block>): seq<Token> {
    if blocks == [] then head else Stream(c, head, blocks[..|blocks| - 1]) + BlockText(c, blocks[|blocks| - 1])
  }

  function Shown(head: seq<Token>, blocks: seq<Block>): seq<Token> {
    if blocks == [] then head else Shown(head, blocks[..|blocks| - 1]) + blocks[|blocks| - 1].text
  }

  predicate PlainBlock(c: Controls, b: Block) {
    c.close !in b.thought && PlainText(c, b.text)
  }

  /** What one block does to a channel, and the state behind it. */
  lemma BlockIsHidden(c: Controls, s: State, b: Block)
    requires c.opener != [] && c.close !in c.opener && Ready(s) && PlainBlock(c, b)
    ensures var ts := BlockText(c, b);
            && After(c, s, ts, |ts|) == s.(complete := true, count := s.count + if s.complete then 0 else |b.thought|)
            && OnChannel(c, s, ts, |ts|, Visible) == b.text
            && OnChannel(c, s, ts, |ts|, Reasoning) == if s.complete then [] else b.thought
  {
    hide After, OnChannel, PlainText;
    var behind := [c.close] + b.text;
    OpenerIsHidden(c, s, |c.opener|);
    var open := After(c, s, c.opener, |c.opener|);
    InsideIsHidden(c, open, b.thought);
    var full := After(c, open, b.thought, |b.thought|);
    CloseIsHidden(c, full);
    var closed := After(c, full, [c.close], 1);
    PlainIsShown(c, closed, b.text, |b.text|);
    AfterConcat(c, full, [c.close], b.text, |b.text|);
    AfterConcat(c, open, b.thought, behind, |behind|);
    AfterConcat(c, s, c.opener, b.thought + behind, |b.thought + behind|);
    forall channel: Channel
      ensures OnChannel(c, s, c.opener + (b.thought + behind), |c.opener + (b.thought + behind)|, channel)
           == OnChannel(c, s, c.opener, |c.opener|, channel)
              + (OnChannel(c, open, b.thought, |b.thought|, channel)
                 + (OnChannel(c, full, [c.close], 1, channel) + OnChannel(c, closed, b.text, |b.text|, channel)))
    {
      ChannelConcat(c, full, [c.close], b.text, |b.text|, channel);
      ChannelConcat(c, open, b.thought, behind, |behind|, channel);
      ChannelConcat(c, s, c.opener, b.thought + behind, |b.thought + behind|, channel);
    }
    assert b.text[..|b.text|] == b.text;
    EmptyUnits(b.text);
    EmptyUnits(b.thought);
  }

  /** One more block behind a stream that left nothing open. */
  lemma OneMoreBlock(c: Controls, front: seq<Token>, b: Block)
    requires c.opener != [] && c.close !in c.opener && PlainBlock(c, b) && Ready(After(c, Start(false), front, |front|))
    ensures var s, ts := After(c, Start(false), front, |front|), front + BlockText(c, b);
            && Extract(c, false, ts, Visible) == Extract(c, false, front, Visible) + b.text
            && Extract(c, false, ts, Reasoning) == Extract(c, false, front, Reasoning) + (if s.complete then [] else b.thought)
            && Ready(After(c, Start(false), ts, |ts|)) && After(c, Start(false), ts, |ts|).complete
  {
    hide After, OnChannel, PlainBlock;
    var last := BlockText(c, b);
    BlockIsHidden(c, After(c, Start(false), front, |front|), b);
    AfterConcat(c, Start(false), front, last, |last|);
    ChannelConcat(c, Start(false), front, last, |last|, Visible);
    ChannelConcat(c, Start(false), front, last, |last|, Reasoning);
  }

  lemma HeadIsShown(c: Controls, head: seq<Token>)
    requires c.opener != [] && PlainText(c, head)
    ensures Extract(c, false, head, Visible) == head && Extract(c, false, head, Reasoning) == []
    ensures After(c, Start(false), head, |head|) == Start(false)
  {
    hide After, OnChannel, PlainText;
    PlainIsShown(c, Start(false), head, |head|);
    assert head[..|head|] == head;
  }

  function FirstThought(blocks: seq<Block>): seq<Token> {
    if blocks == [] then [] else blocks[0].thought
  }

  /** Main result: of a reply with any number of thoughts exactly the texts around them are shown, in
      order, and exactly the first thought is extracted as reasoning. */
  lemma {:induction false} BlocksAreHidden(c: Controls, head: seq<Token>, blocks: seq<Block>)
    requires c.opener != [] && c.close !in c.opener && PlainText(c, head)
    requires forall i :: 0 <= i < |blocks| ==> PlainBlock(c, blocks[i])
    ensures var ts := Stream(c, head, blocks);
            && Extract(c, false, ts, Visible) == Shown(head, blocks)
            && Extract(c, false, ts, Reasoning) == FirstThought(blocks)
            && Ready(After(c, Start(false), ts, |ts|))
            && (After(c, Start(false), ts, |ts|).complete <==> blocks != [])
  {
    hide After, OnChannel, PlainBlock, PlainText, Extract, BlockText;
    if blocks == [] {
      HeadIsShown(c, head);
    } else {
      var before, b := blocks[..|blocks| - 1], blocks[|blocks| - 1];
      BlocksAreHidden(c, head, before);
      OneMoreBlock(c, Stream(c, head, before), b);
      EmptyUnits(b.thought);
      EmptyUnits(FirstThought(blocks));
    }
  }
}
