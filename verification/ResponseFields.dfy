/** What extraction returns, on texts put together from their fields. */
module ResponseFields {
  import opened Wrappers
  import opened Seqs
  import opened Text
  import opened Utf8
  import opened ResponseContent

  // ---------------------------------------------------------------- texts with fields

  /** The text inside a field, and the text behind it. */
  datatype Field = Field(inside: Text, behind: Text)

  /** `head`, then each field between the marks with the text behind it. */
  function Fielded(open: Text, close: Text, head: Text, fields: seq<Field>): Text
    decreases |fields|
  {
    if fields == [] then head
    else head + (open + (fields[0].inside + (close + Fielded(open, close, fields[0].behind, fields[1..]))))
  }

  /** The same without the fields. */
  function Outside(head: Text, fields: seq<Field>): Text
    decreases |fields|
  {
    if fields == [] then head else head + Outside(fields[0].behind, fields[1..])
  }

  /** In front of the mark no earlier occurrence of it starts in the text. */
  predicate Free(text: Text, mark: Text)
    requires mark != []
  {
    !Contains(text + mark[..|mark| - 1], mark)
  }

  /** The marks stand where they are meant: no text between fields starts an opener, no field a closer. */
  predicate Parsed(open: Text, close: Text, lead: Text, head: Text, fields: seq<Field>)
    requires open != [] && close != []
    decreases |fields|
  {
    if fields == [] then !Contains(head, open)
    else
      && Free(head, open) && Free(lead + fields[0].inside, close)
      && Parsed(open, close, lead, fields[0].behind, fields[1..])
  }

  lemma StartRecurs(text: Text, mark: Text, i: nat)
    requires mark != [] && i <= |text + mark[..|mark| - 1]| && mark <= (text + mark[..|mark| - 1])[i..]
    requires i + |mark| > |text|
    ensures mark[0] in mark[1..]
  {
    var n := |mark|;
    var t := text + mark[..n - 1];
    assert t[i..][|text| - i] == mark[|text| - i];
    assert t[|text|] == mark[..n - 1][0];
    assert mark[1..][|text| - i - 1] == mark[0];
  }

  /** An occurrence that starts in `text` ends in it, when the first byte of the mark does not recur. */
  lemma WholeInText(text: Text, mark: Text, i: nat)
    requires mark != [] && mark[0] !in mark[1..]
    requires i <= |text + mark[..|mark| - 1]| && mark <= (text + mark[..|mark| - 1])[i..]
    ensures i + |mark| <= |text| && mark <= text[i..]
  {
    if i + |mark| > |text| {
      StartRecurs(text, mark, i);
    }
    assert text[i..i + |mark|] == (text + mark[..|mark| - 1])[i..][..|mark|];
  }

  /** For a mark whose first byte does not recur in it, freedom is not holding it. */
  lemma FreeWithoutBorder(text: Text, mark: Text)
    requires mark != [] && mark[0] !in mark[1..]
    ensures Free(text, mark) <==> !Contains(text, mark)
  {
    var t := text + mark[..|mark| - 1];
    forall i: nat | i <= |t| && mark <= t[i..]
      ensures mark <= text[i..]
    {
      WholeInText(text, mark, i);
    }
    forall i: nat | i <= |text| && mark <= text[i..]
      ensures mark <= t[i..]
    {
    }
  }

  lemma ContainsInTail(text: Text, mark: Text)
    requires text != [] && Contains(text[1..], mark)
    ensures Contains(text, mark)
  {
    var i :| 0 <= i <= |text[1..]| && mark <= text[1..][i..];
    assert text[1..][i..] == text[i + 1..];
  }

  lemma FreeTail(a: Text, mark: Text)
    requires mark != [] && a != [] && Free(a, mark)
    ensures Free(a[1..], mark)
  {
    TailOfConcat(a, mark[..|mark| - 1]);
    if Contains(a[1..] + mark[..|mark| - 1], mark) {
      ContainsInTail(a + mark[..|mark| - 1], mark);
    }
  }

  lemma FreeStart(a: Text, mark: Text, rest: Text)
    requires mark != [] && a != [] && Free(a, mark)
    ensures !(mark <= a + (mark + rest))
  {
    var t, u := a + mark[..|mark| - 1], a + (mark + rest);
    assert t[0..] == t && !(mark <= t[0..]);
    assert t[..|mark|] == u[..|mark|];
  }

  /** The search finds the mark where it was put. */
  lemma {:induction false} FindAt(text: Text, begin: nat, a: Text, mark: Text, rest: Text)
    requires begin <= |text| && text[begin..] == a + (mark + rest) && mark != [] && Free(a, mark)
    ensures Find(text, mark, begin) == Some(begin + |a|)
    decreases |a|
  {
    hide Free;
    if a == [] {
      EmptyUnits(mark + rest);
    } else {
      FreeStart(a, mark, rest);
      FreeTail(a, mark);
      TailOfConcat(a, mark + rest);
      assert text[begin + 1..] == text[begin..][1..];
      FindAt(text, begin + 1, a[1..], mark, rest);
    }
  }

  lemma FoundIsContained(text: Text, begin: nat, mark: Text)
    requires begin <= |text| && Find(text, mark, begin).Some?
    ensures Contains(text[begin..], mark)
  {
    FindIsLeftmost(text, mark, begin);
    var i := Find(text, mark, begin).value;
    assert text[i..] == text[begin..][i - begin..];
  }

  lemma FindNowhere(text: Text, begin: nat, mark: Text)
    requires begin <= |text| && !Contains(text[begin..], mark)
    ensures Find(text, mark, begin).None?
  {
    hide Contains, Find;
    if Find(text, mark, begin).Some? {
      FoundIsContained(text, begin, mark);
    }
  }

  lemma DropSum(text: Text, begin: nat, a: Text, b: Text)
    requires begin <= |text| && text[begin..] == a + b
    ensures begin + |a| <= |text| && text[begin..begin + |a|] == a && text[begin + |a|..] == b
  {
    SplitOfConcat(a, b);
    assert text[begin..begin + |a|] == text[begin..][..|a|];
    assert text[begin + |a|..] == text[begin..][|a|..];
  }

  // ---------------------------------------------------------------- thinking fields

  lemma OneFieldCut(k: Markers, text: Text, begin: nat, head: Text, inside: Text, rest: Text)
    requires k.thinkingOpen != [] && k.thinkingClose != [] && begin <= |text|
    requires text[begin..] == head + (k.thinkingOpen + (inside + (k.thinkingClose + rest)))
    requires Free(head, k.thinkingOpen) && Free(inside, k.thinkingClose)
    ensures var next := begin + |head| + |k.thinkingOpen| + |inside| + |k.thinkingClose|;
            next <= |text| && text[next..] == rest && DropThinking(k, text, begin) == Prepend(head, DropThinking(k, text, next))
  {
    hide Find, Free;
    var open, close := k.thinkingOpen, k.thinkingClose;
    FindAt(text, begin, head, open, inside + (close + rest));
    DropSum(text, begin, head, open + (inside + (close + rest)));
    DropSum(text, begin + |head|, open, inside + (close + rest));
    FindAt(text, begin + |head| + |open|, inside, close, rest);
    DropSum(text, begin + |head| + |open|, inside, close + rest);
    DropSum(text, begin + |head| + |open| + |inside|, close, rest);
  }

  lemma NothingCut(k: Markers, text: Text, begin: nat)
    requires k.thinkingOpen != [] && begin <= |text| && Find(text, k.thinkingOpen, begin).None?
    ensures DropThinking(k, text, begin) == Ok(text[begin..])
  {
  }

  /** Cutting gives exactly the texts outside the fields. */
  lemma {:induction false} CutsFields(k: Markers, text: Text, begin: nat, head: Text, fields: seq<Field>)
    requires k.thinkingOpen != [] && k.thinkingClose != [] && begin <= |text|
    requires text[begin..] == Fielded(k.thinkingOpen, k.thinkingClose, head, fields)
    requires Parsed(k.thinkingOpen, k.thinkingClose, [], head, fields)
    ensures DropThinking(k, text, begin) == Ok(Outside(head, fields))
    decreases |fields|
  {
    hide Find, Free, Contains, DropThinking;
    if fields == [] {
      FindNowhere(text, begin, k.thinkingOpen);
      NothingCut(k, text, begin);
    } else {
      var f := fields[0];
      EmptyUnits(f.inside);
      OneFieldCut(k, text, begin, head, f.inside, Fielded(k.thinkingOpen, k.thinkingClose, f.behind, fields[1..]));
      CutsFields(k, text, begin + |head| + |k.thinkingOpen| + |f.inside| + |k.thinkingClose|, f.behind, fields[1..]);
    }
  }

  lemma NotCarriedBack(text: Text, begin: nat, at: nat, mark: Text, i: nat)
    requires mark != [] && begin <= at && at + |mark| <= |text| && mark <= text[at..]
    requires begin + i <= |text| && !(mark <= text[begin + i..])
    ensures var t := text[begin..at] + mark[..|mark| - 1]; i <= |t| ==> !(mark <= t[i..])
  {
    var t := text[begin..at] + mark[..|mark| - 1];
    assert t <= text[begin..];
    if i <= |t| {
      assert t[i..] <= text[begin..][i..] == text[begin + i..];
    }
  }

  lemma FoundIsFree(text: Text, begin: nat, mark: Text)
    requires begin <= |text| && mark != [] && Find(text, mark, begin).Some?
    ensures var at := Find(text, mark, begin).value;
            && text[begin..] == text[begin..at] + (mark + text[at + |mark|..])
            && Free(text[begin..at], mark)
  {
    hide Find;
    var at, n := Find(text, mark, begin).value, |mark|;
    FindIsLeftmost(text, mark, begin);
    assert text[at..] == mark + text[at + n..];
    assert text[begin..] == text[begin..at] + text[at..];
    var t := text[begin..at] + mark[..n - 1];
    forall i: nat | i <= |t|
      ensures !(mark <= t[i..])
    {
      if begin + i < at {
        NotCarriedBack(text, begin, at, mark, i);
      }
    }
  }

  lemma MissedIsAbsent(text: Text, begin: nat, mark: Text)
    requires begin <= |text| && Find(text, mark, begin).None?
    ensures !Contains(text[begin..], mark)
  {
    hide Find;
    FindIsLeftmost(text, mark, begin);
    forall i: nat | i <= |text[begin..]|
      ensures !(mark <= text[begin..][i..])
    {
      assert text[begin..][i..] == text[begin + i..];
    }
  }

  /** Whatever is cut is put together that way. */
  lemma {:induction false} CutTextHasFields(k: Markers, text: Text, begin: nat) returns (head: Text, fields: seq<Field>)
    requires k.thinkingOpen != [] && k.thinkingClose != [] && begin <= |text| && DropThinking(k, text, begin).Ok?
    ensures text[begin..] == Fielded(k.thinkingOpen, k.thinkingClose, head, fields)
    ensures Parsed(k.thinkingOpen, k.thinkingClose, [], head, fields)
    decreases |text| - begin
  {
    hide Find, Free, Contains;
    var open := Find(text, k.thinkingOpen, begin);
    if open.None? {
      MissedIsAbsent(text, begin, k.thinkingOpen);
      head, fields := text[begin..], [];
    } else {
      var behind := open.value + |k.thinkingOpen|;
      var close := Find(text, k.thinkingClose, behind).value;
      FoundIsFree(text, begin, k.thinkingOpen);
      FoundIsFree(text, behind, k.thinkingClose);
      var h, more := CutTextHasFields(k, text, close + |k.thinkingClose|);
      head, fields := text[begin..open.value], [Field(text[behind..close], h)] + more;
      EmptyUnits(text[behind..close]);
      assert fields[1..] == more;
    }
  }

  // ---------------------------------------------------------------- tool calls

  /** Erasing calls gives exactly the texts outside them, behind what was already searched. */
  lemma {:induction false} ErasesCalls(k: Markers, done: Text, head: Text, calls: seq<Field>)
    requires k.toolCallStart != [] && Parsed(k.toolCallStart, TOOL_CALL_END, k.toolCallStart, head, calls)
    ensures DropToolCalls(k, done + Fielded(k.toolCallStart, TOOL_CALL_END, head, calls), |done|) == Ok(done + Outside(head, calls))
    decreases |calls|
  {
    hide Find, Free, Contains, Erase, Ascii, DropToolCalls;
    var open, close := k.toolCallStart, TOOL_CALL_END;
    var text := done + Fielded(open, close, head, calls);
    SplitOfConcat(done, Fielded(open, close, head, calls));
    if calls == [] {
      FindNowhere(text, |done|, open);
      NothingErased(k, text, |done|);
    } else {
      var f := calls[0];
      var rest := Fielded(open, close, f.behind, calls[1..]);
      FindAt(text, |done|, head, open, f.inside + (close + rest));
      DropSum(text, |done|, head, open + (f.inside + (close + rest)));
      Assoc(open, f.inside, close + rest);
      FindAt(text, |done| + |head|, open + f.inside, close, rest);
      CallErased(done, head, open + f.inside, close, rest);
      OneErased(k, text, |done|);
      ErasesCalls(k, done + head, f.behind, calls[1..]);
      Assoc(done, head, Outside(f.behind, calls[1..]));
    }
  }

  lemma NothingErased(k: Markers, text: Text, from: nat)
    requires k.toolCallStart != [] && from <= |text| && Find(text, k.toolCallStart, from).None?
    ensures DropToolCalls(k, text, from) == Ok(text)
  {
  }

  lemma OneErased(k: Markers, text: Text, from: nat)
    requires k.toolCallStart != [] && from <= |text| && Find(text, k.toolCallStart, from).Some?
    requires Find(text, TOOL_CALL_END, Find(text, k.toolCallStart, from).value).Some?
    ensures var at := Find(text, k.toolCallStart, from).value;
            var end := Find(text, TOOL_CALL_END, at).value + |TOOL_CALL_END|;
            DropToolCalls(k, text, from) == DropToolCalls(k, Erase(text, at, end), at)
  {
    hide Find, Erase, Ascii;
  }

  lemma CallErased(done: Text, head: Text, inside: Text, close: Text, rest: Text)
    ensures var text := done + (head + (inside + (close + rest)));
            && |done| + |head| + |inside| + |close| <= |text|
            && Erase(text, |done| + |head|, |done| + |head| + |inside| + |close|) == (done + head) + rest
  {
    var text := done + (head + (inside + (close + rest)));
    assert text == (done + head) + ((inside + close) + rest);
  }

  /** A call ends behind its start mark. */
  lemma EndsBehindStart(text: Text, start: Text, end: Text, at: nat, close: nat)
    requires Separate(start, end) && StandsAt(text, start, at) && StandsAt(text, end, close) && at <= close
    ensures at + |start| <= close
  {
    if at < close {
      EndsBefore(text, start, at, end, close);
    } else {
      SamePlace(text, start, end, at);
    }
  }

  lemma SplitAtCall(text: Text, from: nat, start: Text, end: Text, at: nat, close: nat)
    requires start != [] && end != [] && from <= at && at + |start| <= close && close + |end| <= |text|
    requires text[from..] == text[from..at] + (start + text[at + |start|..])
    requires text[at..] == text[at..close] + (end + text[close + |end|..])
    ensures text[at..close] == start + text[at + |start|..close]
    ensures text[from..]
         == text[from..at] + (start + (text[at + |start|..close] + (end + text[close + |end|..])))
    ensures Erase(text, at, close + |end|) == text[..from] + text[from..at] + text[close + |end|..]
  {
    assert text[at..] == text[from..][at - from..] == start + text[at + |start|..];
    assert text[at..close] == text[at..][..close - at] == start + text[at + |start|..close];
    assert text[at + |start|..] == text[at + |start|..close] + (end + text[close + |end|..]);
  }

  /** Whatever is erased is put together that way. */
  lemma {:induction false} ErasedTextHasCalls(k: Markers, text: Text, from: nat) returns (head: Text, calls: seq<Field>)
    requires k.toolCallStart != [] && Separate(k.toolCallStart, TOOL_CALL_END) && from <= |text|
    requires DropToolCalls(k, text, from).Ok?
    ensures text[from..] == Fielded(k.toolCallStart, TOOL_CALL_END, head, calls)
    ensures Parsed(k.toolCallStart, TOOL_CALL_END, k.toolCallStart, head, calls)
    decreases |text| - from
  {
    hide Find, Free, Contains, Erase, Ascii, Separate, DropToolCalls;
    var start, end := k.toolCallStart, TOOL_CALL_END;
    var open := Find(text, start, from);
    if open.None? {
      MissedIsAbsent(text, from, start);
      head, calls := text[from..], [];
    } else {
      var at := open.value;
      MarksOfCall(k, text, from);
      var close := Find(text, end, at).value;
      FoundIsFree(text, from, start);
      FoundIsFree(text, at, end);
      SplitAtCall(text, from, start, end, at, close);
      OneErased(k, text, from);
      var next := Erase(text, at, close + |end|);
      assert next[at..] == text[close + |end|..];
      var h, more := ErasedTextHasCalls(k, next, at);
      head, calls := text[from..at], [Field(text[at + |start|..close], h)] + more;
      assert calls[1..] == more;
    }
  }

  lemma MarksOfCall(k: Markers, text: Text, from: nat)
    requires k.toolCallStart != [] && Separate(k.toolCallStart, TOOL_CALL_END) && from <= |text|
    requires DropToolCalls(k, text, from).Ok? && Find(text, k.toolCallStart, from).Some?
    ensures var at := Find(text, k.toolCallStart, from).value;
            Find(text, TOOL_CALL_END, at).Some? && at + |k.toolCallStart| <= Find(text, TOOL_CALL_END, at).value
  {
    hide Find, Erase, Ascii, StandsAt, Separate;
    var at := Find(text, k.toolCallStart, from).value;
    FindStands(text, k.toolCallStart, from);
    FindStands(text, TOOL_CALL_END, at);
    EndsBehindStart(text, k.toolCallStart, TOOL_CALL_END, at, Find(text, TOOL_CALL_END, at).value);
  }

  // ---------------------------------------------------------------- the end of the content

  /** The content ends at the least place where a close token stands, or at the end of the text. */
  lemma {:induction false} ContentEndIsLeast(text: Text, closes: seq<Text>, end: nat)
    requires end <= |text|
    ensures var r := ContentEnd(text, closes, end);
            && (forall j, i: nat :: 0 <= j < |closes| && i < r ==> !StandsAt(text, closes[j], i))
            && (r == end || exists j :: 0 <= j < |closes| && StandsAt(text, closes[j], r))
  {
    hide Find, StandsAt;
    if closes != [] {
      FindStands(text, closes[0], 0);
      var position := Find(text, closes[0], 0);
      var next := if position.Some? && position.value < end then position.value else end;
      ContentEndIsLeast(text, closes[1..], next);
      var r := ContentEnd(text, closes, end);
      forall j, i: nat | 0 <= j < |closes| && i < r
        ensures !StandsAt(text, closes[j], i)
      {
        if j > 0 {
          assert closes[1..][j - 1] == closes[j];
        } else if position.None? {
          NowhereStands(text, closes[0], i);
        }
      }
      if r != end {
        if r == next {
          assert StandsAt(text, closes[0], r);
        } else {
          var j :| 0 <= j < |closes[1..]| && StandsAt(text, closes[1..][j], r);
          assert closes[j + 1] == closes[1..][j];
        }
      }
    }
  }

  lemma NowhereStands(text: Text, pattern: Text, i: nat)
    requires NoneFrom(text, pattern, 0)
    ensures !StandsAt(text, pattern, i)
  {
  }

  /** The text splits there. */
  predicate EndsContent(k: Markers, shown: Text, stop: Text) {
    && (forall j, i: nat :: 0 <= j < |k.contentClose| && i < |shown| ==> !StandsAt(shown + stop, k.contentClose[j], i))
    && (stop == [] || exists j :: 0 <= j < |k.contentClose| && k.contentClose[j] <= stop)
  }

  lemma ContentEndsThere(k: Markers, shown: Text, stop: Text)
    requires EndsContent(k, shown, stop)
    ensures ContentEnd(shown + stop, k.contentClose, |shown + stop|) == |shown|
  {
    var text := shown + stop;
    ContentEndIsLeast(text, k.contentClose, |text|);
    SplitOfConcat(shown, stop);
    if stop != [] {
      var j :| 0 <= j < |k.contentClose| && k.contentClose[j] <= stop;
      assert StandsAt(text, k.contentClose[j], |shown|);
    }
  }

  // ---------------------------------------------------------------- the whole extraction

  /** A reply as it is put together: thinking fields around a content that ends before `stop`, and calls
      in that content. */
  ghost predicate Composed(
    k: Markers, text: Text, head: Text, thoughts: seq<Field>, first: Text, calls: seq<Field>, stop: Text)
    requires NonEmpty(k) && k.thinkingClose != []
  {
    && text == Fielded(k.thinkingOpen, k.thinkingClose, head, thoughts)
    && Parsed(k.thinkingOpen, k.thinkingClose, [], head, thoughts)
    && Outside(head, thoughts) == Fielded(k.toolCallStart, Ascii("<tool_call|>"), first, calls) + stop
    && EndsContent(k, Fielded(k.toolCallStart, Ascii("<tool_call|>"), first, calls), stop)
    && Parsed(k.toolCallStart, Ascii("<tool_call|>"), k.toolCallStart, first, calls)
  }

  /** Main result: extracting such a text gives what lies outside its thoughts, its calls and behind
      its content, trimmed. */
  lemma ComposedExtracts(
    k: Markers, text: Text, head: Text, thoughts: seq<Field>, first: Text, calls: seq<Field>, stop: Text)
    requires NonEmpty(k) && k.thinkingClose != [] && Composed(k, text, head, thoughts, first, calls, stop)
    ensures ExtractSpec(k, text) == Ok(TrimSpec(Outside(first, calls)))
  {
    hide DropThinking, DropToolCalls, Fielded, Outside, Parsed, EndsContent, ContentEnd, TrimSpec, Ascii;
    var shown := Fielded(k.toolCallStart, TOOL_CALL_END, first, calls);
    assert text[0..] == text;
    CutsFields(k, text, 0, head, thoughts);
    ContentEndsThere(k, shown, stop);
    SplitOfConcat(shown, stop);
    ErasesCalls(k, [], first, calls);
    EmptyUnits(shown);
    EmptyUnits(Outside(first, calls));
  }

  /** Conversely, every text that extracts is put together so, when a call cannot end inside its start
      mark. */
  lemma ExtractedIsComposed(k: Markers, text: Text)
    returns (head: Text, thoughts: seq<Field>, first: Text, calls: seq<Field>, stop: Text)
    requires NonEmpty(k) && k.thinkingClose != [] && Separate(k.toolCallStart, TOOL_CALL_END) && ExtractSpec(k, text).Ok?
    ensures Composed(k, text, head, thoughts, first, calls, stop)
    ensures ExtractSpec(k, text) == Ok(TrimSpec(Outside(first, calls)))
  {
    hide DropThinking, DropToolCalls, Fielded, Outside, Parsed, EndsContent, ContentEnd, TrimSpec, Ascii, Separate;
    assert text[0..] == text;
    head, thoughts := CutTextHasFields(k, text, 0);
    CutsFields(k, text, 0, head, thoughts);
    var outside := Outside(head, thoughts);
    var end := ContentEnd(outside, k.contentClose, |outside|);
    var shown := outside[..end];
    stop := outside[end..];
    first, calls := ErasedTextHasCalls(k, shown, 0);
    assert shown[0..] == shown && outside == shown + stop;
    ContentSplits(k, outside);
    ComposedExtracts(k, text, head, thoughts, first, calls, stop);
  }

  lemma ContentSplits(k: Markers, text: Text)
    ensures var end := ContentEnd(text, k.contentClose, |text|); EndsContent(k, text[..end], text[end..])
  {
    hide ContentEnd, StandsAt;
    var end := ContentEnd(text, k.contentClose, |text|);
    ContentEndIsLeast(text, k.contentClose, |text|);
    assert text[..end] + text[end..] == text;
    if end != |text| {
      var j :| 0 <= j < |k.contentClose| && StandsAt(text, k.contentClose[j], end);
      StandsIsPrefix(text, k.contentClose[j], end);
    }
  }

  lemma StandsIsPrefix(text: Text, pattern: Text, i: nat)
    requires StandsAt(text, pattern, i)
    ensures i <= |text| && pattern <= text[i..]
  {
  }
}
