/** Cutting the visible content out of a decoded model response. */
module ResponseContent {
  import opened Wrappers
  import opened Text
  import opened Utf8

  function Ascii(s: string): (t: Text)
    ensures |t| == |s|
  {
    seq(|s|, i requires 0 <= i < |s| => (s[i] as int % 256) as Byte)
  }

  lemma AsciiConcat(a: string, b: string)
    ensures Ascii(a + b) == Ascii(a) + Ascii(b)
  {
  }

  datatype Markers = Markers(thinkingOpen: Text, thinkingClose: Text, contentClose: seq<Text>, toolCallStart: Text)

  const TOOL_CALL_END: Text := Ascii("<tool_call|>")

  ghost predicate NonEmpty(k: Markers) {
    k.thinkingOpen != [] && k.toolCallStart != [] && forall i :: 0 <= i < |k.contentClose| ==> k.contentClose[i] != []
  }

  // ---------------------------------------------------------------- thinking fields

  /** Everything outside the thinking fields, from `begin` on. */
  function DropThinking(k: Markers, text: Text, begin: nat): (r: Result<Text>)
    requires k.thinkingOpen != [] && begin <= |text|
    ensures r.Ok? ==> |r.value| <= |text| - begin
    decreases |text| - begin
  {
    var open := Find(text, k.thinkingOpen, begin);
    if open.None? then Ok(text[begin..])
    else
      var close := Find(text, k.thinkingClose, open.value + |k.thinkingOpen|);
      if close.None? then Err(DataLoss)
      else
        Prepend(text[begin..open.value], DropThinking(k, text, close.value + |k.thinkingClose|))
  }

  method RemoveThinking(k: Markers, text: Text) returns (r: Result<Text>)
    requires k.thinkingOpen != []
    ensures r == DropThinking(k, text, 0)
  {
    hide Find;
    var result: Text := [];
    var begin: nat := 0;
    while begin <= |text|
      invariant begin <= |text|
      invariant DropThinking(k, text, 0) == Prepend(result, DropThinking(k, text, begin))
      decreases |text| - begin
    {
      var open := Find(text, k.thinkingOpen, begin);
      if open.None? {
        return Ok(result + text[begin..]);
      }
      var close := Find(text, k.thinkingClose, open.value + |k.thinkingOpen|);
      if close.None? {
        return Err(DataLoss);
      }
      PrependPrepend(result, text[begin..open.value], DropThinking(k, text, close.value + |k.thinkingClose|));
      result := result + text[begin..open.value];
      begin := close.value + |k.thinkingClose|;
    }
    assert false;
    return Ok(result);
  }

  // ---------------------------------------------------------------- content close tokens

  /** The least first position of any of the close tokens, or `end`. */
  function ContentEnd(text: Text, closes: seq<Text>, end: nat): (r: nat)
    requires end <= |text|
    ensures r <= end
  {
    if closes == [] then end
    else
      var position := Find(text, closes[0], 0);
      ContentEnd(text, closes[1..], if position.Some? && position.value < end then position.value else end)
  }

  method FindContentEnd(text: Text, closes: seq<Text>) returns (end: nat)
    ensures end == ContentEnd(text, closes, |text|)
  {
    end := |text|;
    assert closes[0..] == closes;
    for i := 0 to |closes|
      invariant end <= |text| && ContentEnd(text, closes, |text|) == ContentEnd(text, closes[i..], end)
    {
      assert closes[i..][1..] == closes[i + 1..];
      var position := Find(text, closes[i], 0);
      if position.Some? {
        end := if position.value < end then position.value else end;
      }
    }
  }

  // ---------------------------------------------------------------- tool calls

  function Erase(text: Text, from: nat, to: nat): (r: Text)
    requires from <= to <= |text|
    ensures |r| == |text| - (to - from)
  {
    text[..from] + text[to..]
  }

  function DropToolCalls(k: Markers, text: Text, from: nat): (r: Result<Text>)
    requires k.toolCallStart != [] && from <= |text|
    ensures r.Ok? ==> |r.value| <= |text|
    decreases |text|
  {
    var open := Find(text, k.toolCallStart, from);
    if open.None? then Ok(text)
    else
      var close := Find(text, TOOL_CALL_END, open.value);
      if close.None? then Err(DataLoss)
      else DropToolCalls(k, Erase(text, open.value, close.value + |TOOL_CALL_END|), open.value)
  }

  method RemoveToolCalls(k: Markers, text: Text) returns (r: Result<Text>)
    requires k.toolCallStart != []
    ensures r == DropToolCalls(k, text, 0)
  {
    hide Find, Ascii, Erase;
    var result := text;
    var from: nat := 0;
    var toolOpen := Find(result, k.toolCallStart, 0);
    while toolOpen.Some?
      invariant from <= |result| && toolOpen == Find(result, k.toolCallStart, from)
      invariant DropToolCalls(k, text, 0) == DropToolCalls(k, result, from)
      decreases |result|
    {
      var toolClose := Find(result, TOOL_CALL_END, toolOpen.value);
      if toolClose.None? {
        return Err(DataLoss);
      }
      from := toolOpen.value;
      result := Erase(result, from, toolClose.value + |TOOL_CALL_END|);
      toolOpen := Find(result, k.toolCallStart, from);
    }
    return Ok(result);
  }

  // ---------------------------------------------------------------- the whole extraction

  /** The text without its thinking fields, up to the first close token. */
  function VisiblePart(k: Markers, text: Text): Text
    requires k.thinkingOpen != [] && DropThinking(k, text, 0).Ok?
  {
    var outside := DropThinking(k, text, 0).value;
    outside[..ContentEnd(outside, k.contentClose, |outside|)]
  }

  function ExtractSpec(k: Markers, text: Text): Result<Text>
    requires NonEmpty(k)
  {
    var outside := DropThinking(k, text, 0);
    if outside.Err? then outside
    else
      var plain := DropToolCalls(k, VisiblePart(k, text), 0);
      if plain.Err? then plain else Ok(TrimSpec(plain.value))
  }

  /** `ExtractResponseContent`. */
  method ExtractResponseContent(k: Markers, text: Text) returns (r: Result<Text>)
    requires NonEmpty(k)
    ensures r == ExtractSpec(k, text)
  {
    var outside := RemoveThinking(k, text);
    if outside.Err? {
      return outside;
    }
    var contentEnd := FindContentEnd(outside.value, k.contentClose);
    var plain := RemoveToolCalls(k, outside.value[..contentEnd]);
    if plain.Err? {
      return plain;
    }
    var trimmed := Trim(plain.value);
    return Ok(trimmed);
  }

  // ---------------------------------------------------------------- when nothing is cut

  ghost predicate Plain(k: Markers, text: Text) {
    && !Contains(text, k.thinkingOpen)
    && (forall i :: 0 <= i < |k.contentClose| ==> !Contains(text, k.contentClose[i]))
    && !Contains(text, k.toolCallStart)
    && TrimSpec(text) == text
  }

  lemma FindIsContains(text: Text, pattern: Text)
    ensures Find(text, pattern, 0).Some? <==> Contains(text, pattern)
  {
    FindIsLeftmost(text, pattern, 0);
  }

  lemma DropThinkingShortens(k: Markers, text: Text, begin: nat)
    requires k.thinkingOpen != [] && begin <= |text|
    ensures var r := DropThinking(k, text, begin);
            Find(text, k.thinkingOpen, begin).Some? && r.Ok? ==> |r.value| < |text| - begin
  {
  }

  lemma {:induction false} ContentEndExactly(text: Text, closes: seq<Text>)
    requires forall i :: 0 <= i < |closes| ==> closes[i] != []
    ensures ContentEnd(text, closes, |text|) == |text| <==> forall i :: 0 <= i < |closes| ==> !Contains(text, closes[i])
  {
    if closes != [] {
      FindIsContains(text, closes[0]);
      ContentEndExactly(text, closes[1..]);
      assert forall i :: 1 <= i < |closes| ==> closes[i] == closes[1..][i - 1];
    }
  }

  lemma EraseShortens(k: Markers, text: Text)
    requires k.toolCallStart != []
    ensures var r := DropToolCalls(k, text, 0);
            Find(text, k.toolCallStart, 0).Some? && r.Ok? ==> |r.value| < |text|
  {
  }

  lemma {:induction false} TrimShortens(text: Text)
    ensures |TrimSpec(text)| <= |text|
  {
    TrimLeftShortens(text);
  }

  lemma {:induction false} TrimLeftShortens(text: Text)
    ensures |TrimLeft(text)| <= |text|
  {
    if text != [] && IsSpace(text[0]) {
      TrimLeftShortens(text[1..]);
    }
  }

  lemma ExtractShortens(k: Markers, text: Text)
    requires NonEmpty(k)
    ensures ExtractSpec(k, text).Ok? ==> |ExtractSpec(k, text).value| <= |text|
  {
    hide Find, TrimSpec;
    var outside := DropThinking(k, text, 0);
    if outside.Ok? {
      var plain := DropToolCalls(k, outside.value[..ContentEnd(outside.value, k.contentClose, |outside.value|)], 0);
      if plain.Ok? {
        TrimShortens(plain.value);
      }
    }
  }

  /** Extraction leaves a text alone exactly when it holds no thinking opener, no close token and
      no tool call, and is already trimmed. */
  lemma ExtractFixesExactly(k: Markers, text: Text)
    requires NonEmpty(k)
    ensures ExtractSpec(k, text) == Ok(text) <==> Plain(k, text)
  {
    hide Find, Contains, TrimSpec;
    FindIsContains(text, k.thinkingOpen);
    FindIsContains(text, k.toolCallStart);
    ContentEndExactly(text, k.contentClose);
    DropThinkingShortens(k, text, 0);
    EraseShortens(k, text);
    assert text[0..] == text && text[..|text|] == text;
    var outside := DropThinking(k, text, 0);
    if outside.Ok? {
      var cut := outside.value[..ContentEnd(outside.value, k.contentClose, |outside.value|)];
      var plain := DropToolCalls(k, cut, 0);
      if plain.Ok? {
        TrimShortens(plain.value);
      }
    }
  }

  // ---------------------------------------------------------------- when extraction fails

  /** `pattern` stands at `i` in `text`. */
  predicate StandsAt(text: Text, pattern: Text, i: nat) {
    i <= |text| && pattern <= text[i..]
  }

  /** An occurrence of `open` at or after `begin` with no `close` from `gap` bytes behind its start. */
  ghost predicate LeftOpen(text: Text, open: Text, close: Text, begin: nat, gap: nat) {
    exists p: nat :: begin <= p && StandsAt(text, open, p) && NoneFrom(text, close, p + gap)
  }

  ghost predicate NoneFrom(text: Text, pattern: Text, from: nat) {
    forall i: nat :: from <= i ==> !StandsAt(text, pattern, i)
  }

  /** `b` starts inside no occurrence of `a`. */
  predicate StartsOutside(b: Text, a: Text) {
    b != [] && a != [] && b[0] !in a[1..]
  }

  /** No occurrence of one text overlaps one of the other. */
  predicate Separate(a: Text, b: Text) {
    StartsOutside(a, b) && StartsOutside(b, a) && !(a <= b) && !(b <= a)
  }

  lemma FindStands(text: Text, pattern: Text, begin: nat)
    requires begin <= |text|
    ensures var r := Find(text, pattern, begin);
            && (r.Some? ==> StandsAt(text, pattern, r.value) && forall i: nat :: begin <= i < r.value ==> !StandsAt(text, pattern, i))
            && (r.None? ==> NoneFrom(text, pattern, begin))
  {
    FindIsLeftmost(text, pattern, begin);
  }

  lemma Meets(text: Text, a: Text, i: nat, b: Text, p: nat)
    requires StandsAt(text, a, i) && StandsAt(text, b, p) && i < p < i + |a| && b != []
    ensures b[0] in a[1..]
  {
    assert a[1..][p - i - 1] == text[i..][p - i] == text[p..][0];
  }

  lemma SamePlace(text: Text, a: Text, b: Text, p: nat)
    requires StandsAt(text, a, p) && StandsAt(text, b, p)
    ensures a <= b || b <= a
  {
    assert |a| <= |b| ==> a == b[..|a|];
    assert |b| <= |a| ==> b == a[..|b|];
  }

  /** An occurrence of `a` before one of `b` ends at or before it. */
  lemma EndsBefore(text: Text, a: Text, i: nat, b: Text, p: nat)
    requires StandsAt(text, a, i) && StandsAt(text, b, p) && i < p && StartsOutside(b, a)
    ensures i + |a| <= p
  {
    if p < i + |a| {
      Meets(text, a, i, b, p);
    }
  }

  /** A thinking field is unterminated exactly when some opener has no close token behind it. */
  lemma {:induction false} ThinkingFailsExactly(k: Markers, text: Text, begin: nat)
    requires k.thinkingOpen != [] && begin <= |text| && Separate(k.thinkingOpen, k.thinkingClose)
    ensures DropThinking(k, text, begin).Err? <==> LeftOpen(text, k.thinkingOpen, k.thinkingClose, begin, |k.thinkingOpen|)
    decreases |text| - begin
  {
    hide Find, NoneFrom, StandsAt, Separate;
    var open := Find(text, k.thinkingOpen, begin);
    FindStands(text, k.thinkingOpen, begin);
    if open.None? {
      NoOpener(text, k.thinkingOpen, k.thinkingClose, begin, |k.thinkingOpen|);
    } else {
      var behind := open.value + |k.thinkingOpen|;
      var close := Find(text, k.thinkingClose, behind);
      FindStands(text, k.thinkingClose, behind);
      if close.Some? {
        ThinkingFailsExactly(k, text, close.value + |k.thinkingClose|);
        FieldClosed(text, k.thinkingOpen, k.thinkingClose, begin, open.value, close.value);
      }
    }
  }

  lemma NoOpener(text: Text, open: Text, close: Text, begin: nat, gap: nat)
    requires NoneFrom(text, open, begin)
    ensures !LeftOpen(text, open, close, begin, gap)
  {
  }

  /** A closed field leaves nothing open before its end. */
  lemma FieldClosed(text: Text, open: Text, close: Text, begin: nat, at: nat, end: nat)
    requires Separate(open, close) && begin <= at && at + |open| <= end && end + |close| <= |text|
    requires StandsAt(text, open, at) && (forall i: nat :: begin <= i < at ==> !StandsAt(text, open, i))
    requires StandsAt(text, close, end)
    ensures LeftOpen(text, open, close, begin, |open|) <==> LeftOpen(text, open, close, end + |close|, |open|)
  {
    hide StandsAt;
    if p: nat :| begin <= p && StandsAt(text, open, p) && NoneFrom(text, close, p + |open|) {
      if p < end + |close| {
        OpenerBeforeClose(text, open, close, p, end);
      }
    }
  }

  /** With a close token at `end`, an opener before its end lies wholly before it. */
  lemma OpenerBeforeClose(text: Text, open: Text, close: Text, p: nat, end: nat)
    requires Separate(open, close) && StandsAt(text, open, p) && StandsAt(text, close, end) && p < end + |close|
    ensures p + |open| <= end
  {
    if p < end {
      EndsBefore(text, open, p, close, end);
    } else if end < p {
      EndsBefore(text, close, end, open, p);
    } else {
      SamePlace(text, open, close, p);
    }
  }

  lemma ShiftStands(text: Text, pattern: Text, from: nat, to: nat, i: nat)
    requires from <= to <= |text| && pattern != [] && from <= i
    ensures StandsAt(Erase(text, from, to), pattern, i) <==> StandsAt(text, pattern, i + (to - from))
  {
    var e := Erase(text, from, to);
    if i <= |e| {
      assert e[i..] == text[i + (to - from)..];
    }
  }

  lemma ShiftNone(text: Text, pattern: Text, from: nat, to: nat, i: nat)
    requires from <= to <= |text| && pattern != [] && from <= i
    ensures NoneFrom(Erase(text, from, to), pattern, i) <==> NoneFrom(text, pattern, i + (to - from))
  {
    hide StandsAt, Erase;
    var e, d := Erase(text, from, to), to - from;
    if NoneFrom(e, pattern, i) {
      forall j: nat | i + d <= j
        ensures !StandsAt(text, pattern, j)
      {
        ShiftStands(text, pattern, from, to, j - d);
      }
    }
    if NoneFrom(text, pattern, i + d) {
      forall j: nat | i <= j
        ensures !StandsAt(e, pattern, j)
      {
        ShiftStands(text, pattern, from, to, j);
      }
    }
  }

  /** Erasing in front of what is still to be searched changes nothing for it. */
  lemma ErasedLeftOpen(text: Text, open: Text, close: Text, from: nat, to: nat)
    requires from <= to <= |text| && open != [] && close != []
    ensures LeftOpen(Erase(text, from, to), open, close, from, 0) <==> LeftOpen(text, open, close, to, 0)
  {
    hide StandsAt, Erase, NoneFrom;
    var e, d := Erase(text, from, to), to - from;
    if p: nat :| from <= p && StandsAt(e, open, p) && NoneFrom(e, close, p + 0) {
      ShiftStands(text, open, from, to, p);
      ShiftNone(text, close, from, to, p);
      assert to <= p + d && StandsAt(text, open, p + d) && NoneFrom(text, close, p + d + 0);
    }
    if p: nat :| to <= p && StandsAt(text, open, p) && NoneFrom(text, close, p + 0) {
      ShiftStands(text, open, from, to, p - d);
      ShiftNone(text, close, from, to, p - d);
      assert from <= p - d && StandsAt(e, open, p - d) && NoneFrom(e, close, p - d + 0);
    }
  }

  lemma CallClosed(text: Text, open: Text, close: Text, from: nat, at: nat, end: nat)
    requires StartsOutside(open, close) && from <= at <= end && end + |close| <= |text|
    requires (forall i: nat :: from <= i < at ==> !StandsAt(text, open, i)) && StandsAt(text, close, end)
    ensures LeftOpen(text, open, close, from, 0) <==> LeftOpen(text, open, close, end + |close|, 0)
  {
    hide StandsAt;
    if p: nat :| from <= p && StandsAt(text, open, p) && NoneFrom(text, close, p + 0) {
      if end < p {
        EndsBefore(text, close, end, open, p);
      }
    }
  }

  /** A tool call is unterminated exactly when some call start has no end mark behind it. */
  lemma {:induction false} ToolCallFailsExactly(k: Markers, text: Text, from: nat)
    requires k.toolCallStart != [] && from <= |text| && StartsOutside(k.toolCallStart, TOOL_CALL_END)
    ensures DropToolCalls(k, text, from).Err? <==> LeftOpen(text, k.toolCallStart, TOOL_CALL_END, from, 0)
    decreases |text|
  {
    hide Find, NoneFrom, StandsAt, Erase, Ascii, StartsOutside;
    var open := Find(text, k.toolCallStart, from);
    FindStands(text, k.toolCallStart, from);
    if open.None? {
      NoOpener(text, k.toolCallStart, TOOL_CALL_END, from, 0);
    } else {
      var close := Find(text, TOOL_CALL_END, open.value);
      FindStands(text, TOOL_CALL_END, open.value);
      if close.Some? {
        var end := close.value + |TOOL_CALL_END|;
        ToolCallFailsExactly(k, Erase(text, open.value, end), open.value);
        ErasedLeftOpen(text, k.toolCallStart, TOOL_CALL_END, open.value, end);
        CallClosed(text, k.toolCallStart, TOOL_CALL_END, from, open.value, close.value);
      }
    }
  }

  /** Markers that never overlap. */
  ghost predicate MarkersApart(k: Markers) {
    Separate(k.thinkingOpen, k.thinkingClose) && StartsOutside(k.toolCallStart, TOOL_CALL_END)
  }

  /** Main result: extraction fails exactly for a thinking opener without a close token behind it,
      or for a tool-call start without an end mark behind it in what is left to show. */
  lemma ExtractFailsExactly(k: Markers, text: Text)
    requires NonEmpty(k) && MarkersApart(k)
    ensures ExtractSpec(k, text).Err?
       <==> || LeftOpen(text, k.thinkingOpen, k.thinkingClose, 0, |k.thinkingOpen|)
            || (DropThinking(k, text, 0).Ok? && LeftOpen(VisiblePart(k, text), k.toolCallStart, TOOL_CALL_END, 0, 0))
    ensures ExtractSpec(k, text).Err? ==> ExtractSpec(k, text).code == DataLoss
  {
    hide DropThinking, DropToolCalls, LeftOpen, Ascii;
    ThinkingFailsExactly(k, text, 0);
    DropCodes(k, text, 0);
    if DropThinking(k, text, 0).Ok? {
      ToolCallFailsExactly(k, VisiblePart(k, text), 0);
      DropCodes(k, VisiblePart(k, text), 0);
    }
  }

  lemma DropCodes(k: Markers, text: Text, begin: nat)
    requires NonEmpty(k) && begin <= |text|
    ensures DropThinking(k, text, begin).Err? ==> DropThinking(k, text, begin).code == DataLoss
    ensures DropToolCalls(k, text, begin).Err? ==> DropToolCalls(k, text, begin).code == DataLoss
  {
    DropThinkingCode(k, text, begin);
    DropToolCallsCode(k, text, begin);
  }

  lemma {:induction false} DropThinkingCode(k: Markers, text: Text, begin: nat)
    requires k.thinkingOpen != [] && begin <= |text|
    ensures DropThinking(k, text, begin).Err? ==> DropThinking(k, text, begin).code == DataLoss
    decreases |text| - begin
  {
    hide Find;
    var open := Find(text, k.thinkingOpen, begin);
    if open.Some? {
      var close := Find(text, k.thinkingClose, open.value + |k.thinkingOpen|);
      if close.Some? {
        DropThinkingCode(k, text, close.value + |k.thinkingClose|);
      }
    }
  }

  lemma {:induction false} DropToolCallsCode(k: Markers, text: Text, from: nat)
    requires k.toolCallStart != [] && from <= |text|
    ensures DropToolCalls(k, text, from).Err? ==> DropToolCalls(k, text, from).code == DataLoss
    decreases |text|
  {
    hide Find, Erase, Ascii;
    var open := Find(text, k.toolCallStart, from);
    if open.Some? {
      var close := Find(text, TOOL_CALL_END, open.value);
      if close.Some? {
        DropToolCallsCode(k, Erase(text, open.value, close.value + |TOOL_CALL_END|), open.value);
      }
    }
  }
}
