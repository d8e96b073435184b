/** Media in a prompt: printing placeholder blocks and locating them again in the token stream. */
module Media {
  import opened Wrappers
  import opened Seqs
  import opened Text
  import opened Utf8
  import opened Bpe
  import opened Tokenizer

  datatype Kind = Audio | Image

  datatype Marks = Marks(begin: Token, placeholder: Token, end: Token)

  function MarksOf(kind: Kind): Marks {
    match kind
    case Audio => Marks(256000, 258881, 258883)
    case Image => Marks(255999, 258880, 258882)
  }

  // ---------------------------------------------------------------- the locators

  function FindToken(prompt: seq<Token>, token: Token, from: nat): (r: Option<nat>)
    requires from <= |prompt|
    ensures r.Some? ==> from <= r.value < |prompt|
    decreases |prompt| - from
  {
    if from == |prompt| then None
    else if prompt[from] == token then Some(from)
    else FindToken(prompt, token, from + 1)
  }

  lemma {:induction false} FindIsFirst(prompt: seq<Token>, token: Token, from: nat)
    requires from <= |prompt|
    ensures var r := FindToken(prompt, token, from);
            && (r.Some? ==> prompt[r.value] == token)
            && forall i :: from <= i < |prompt| && (r.Some? ==> i < r.value) ==> prompt[i] != token
    decreases |prompt| - from
  {
    if from < |prompt| && prompt[from] != token {
      FindIsFirst(prompt, token, from + 1);
    }
  }

  predicate Placeholders(prompt: seq<Token>, token: Token, first: nat, count: nat)
    requires first + count <= |prompt|
  {
    forall i :: first <= i < first + count ==> prompt[i] == token
  }

  /** The placeholder offset of the first block at or after `search`, if it is the expected one. */
  function LocateOne(prompt: seq<Token>, marks: Marks, count: nat, search: nat): (r: Result<nat>)
    requires search <= |prompt|
    ensures r.Ok? ==> search < r.value && r.value + count < |prompt|
  {
    var begin := FindToken(prompt, marks.begin, search);
    if begin.None? then Err(DataLoss)
    else
      var first := begin.value + 1;
      if count > |prompt| - first then Err(DataLoss)
      else if !Placeholders(prompt, marks.placeholder, first, count) then Err(DataLoss)
      else if first + count >= |prompt| || prompt[first + count] != marks.end then Err(DataLoss)
      else Ok(first)
  }

  function Locate(prompt: seq<Token>, marks: Marks, counts: seq<nat>, search: nat): Result<seq<nat>>
    requires search <= |prompt|
    decreases |counts|
  {
    if counts == [] then Ok([])
    else
      var first := LocateOne(prompt, marks, counts[0], search);
      if first.Err? then Err(first.code)
      else Prepend([first.value], Locate(prompt, marks, counts[1..], first.value + counts[0] + 1))
  }

  /** The body of the locator loop: one block, or the reason to give up. */
  method LocateSegment(prompt: seq<Token>, marks: Marks, count: nat, search: nat) returns (r: Result<nat>)
    requires search <= |prompt|
    ensures r == LocateOne(prompt, marks, count, search)
  {
    var begin := FindToken(prompt, marks.begin, search);
    if begin.None? {
      return Err(DataLoss);
    }
    var first := begin.value + 1;
    if count > |prompt| - first {
      return Err(DataLoss);
    }
    for i := 0 to count
      invariant Placeholders(prompt, marks.placeholder, first, i)
    {
      if prompt[first + i] != marks.placeholder {
        return Err(DataLoss);
      }
    }
    if first + count >= |prompt| || prompt[first + count] != marks.end {
      return Err(DataLoss);
    }
    return Ok(first);
  }

  /** `LocateAudioSegments` and `LocateVisionSegments`: the same loop over different marks. */
  method LocateSegments(prompt: seq<Token>, kind: Kind, counts: seq<nat>) returns (r: Result<seq<nat>>)
    ensures r == Locate(prompt, MarksOf(kind), counts, 0)
  {
    var marks := MarksOf(kind);
    var segments: seq<nat> := [];
    var search: nat := 0;
    assert counts[0..] == counts;
    for k := 0 to |counts|
      invariant search <= |prompt|
      invariant Locate(prompt, marks, counts, 0) == Prepend(segments, Locate(prompt, marks, counts[k..], search))
    {
      var first := LocateSegment(prompt, marks, counts[k], search);
      assert counts[k..][1..] == counts[k + 1..];
      if first.Err? {
        return Err(first.code);
      }
      PrependPrepend(segments, [first.value], Locate(prompt, marks, counts[k + 1..], first.value + counts[k] + 1));
      segments := segments + [first.value];
      search := first.value + counts[k] + 1;
    }
    assert counts[|counts|..] == [];
    return Ok(segments);
  }

  // ---------------------------------------------------------------- print, then locate

  /** A prompt as it is meant: ordinary tokens and media blocks. */
  datatype Item = Plain(tokens: seq<Token>) | Block(kind: Kind, count: nat)

  function Repeat<T>(t: T, n: nat): (r: seq<T>)
    ensures |r| == n && forall i :: 0 <= i < n ==> r[i] == t
  {
    if n == 0 then [] else [t] + Repeat(t, n - 1)
  }

  function PrintItem(item: Item): seq<Token> {
    match item
    case Plain(tokens) => tokens
    case Block(kind, count) =>
      var m := MarksOf(kind);
      [m.begin] + Repeat(m.placeholder, count) + [m.end]
  }

  function Print(items: seq<Item>): seq<Token> {
    if items == [] then [] else PrintItem(items[0]) + Print(items[1..])
  }

  /** Ordinary tokens hold no begin mark. */
  predicate HoldsNoBegin(item: Item) {
    item.Plain? ==> MarksOf(Audio).begin !in item.tokens && MarksOf(Image).begin !in item.tokens
  }

  predicate BoundaryFree(items: seq<Item>) {
    items == [] || (HoldsNoBegin(items[0]) && BoundaryFree(items[1..]))
  }

  predicate IsBlock(item: Item, kind: Kind) {
    item.Block? && item.kind == kind
  }

  function ItemCounts(item: Item, kind: Kind): seq<nat> {
    if IsBlock(item, kind) then [item.count] else []
  }

  function ItemOffsets(item: Item, kind: Kind, at: nat): seq<nat> {
    if IsBlock(item, kind) then [at + 1] else []
  }

  function Counts(items: seq<Item>, kind: Kind): seq<nat> {
    if items == [] then [] else ItemCounts(items[0], kind) + Counts(items[1..], kind)
  }

  /** Where the placeholders of the blocks of one kind start, when printing starts at `at`. */
  function Offsets(items: seq<Item>, kind: Kind, at: nat): seq<nat> {
    if items == [] then []
    else ItemOffsets(items[0], kind, at) + Offsets(items[1..], kind, at + |PrintItem(items[0])|)
  }

  lemma {:induction false} FindSkips(prompt: seq<Token>, token: Token, from: nat, to: nat)
    requires from <= to <= |prompt| && forall i :: from <= i < to ==> prompt[i] != token
    ensures FindToken(prompt, token, from) == FindToken(prompt, token, to)
    decreases |prompt| - from
  {
    if from < to {
      FindSkips(prompt, token, from + 1, to);
    }
  }

  lemma LocateSkips(prompt: seq<Token>, marks: Marks, counts: seq<nat>, from: nat, to: nat)
    requires from <= to <= |prompt| && forall i :: from <= i < to ==> prompt[i] != marks.begin
    ensures Locate(prompt, marks, counts, from) == Locate(prompt, marks, counts, to)
  {
    FindSkips(prompt, marks.begin, from, to);
  }

  lemma OtherItemHasNoBegin(item: Item, kind: Kind)
    requires HoldsNoBegin(item) && !(item.Block? && item.kind == kind)
    ensures MarksOf(kind).begin !in PrintItem(item)
  {
  }

  lemma LocateBlock(prompt: seq<Token>, kind: Kind, count: nat, rest: seq<nat>, at: nat)
    requires at + count + 2 <= |prompt| && prompt[at..at + count + 2] == PrintItem(Block(kind, count))
    ensures Locate(prompt, MarksOf(kind), [count] + rest, at)
         == Prepend([at + 1], Locate(prompt, MarksOf(kind), rest, at + count + 2))
  {
    var m := MarksOf(kind);
    var block := prompt[at..at + count + 2];
    assert block[0] == m.begin && block[count + 1] == m.end;
    assert FindToken(prompt, m.begin, at) == Some(at);
    forall i | at + 1 <= i < at + 1 + count
      ensures prompt[i] == m.placeholder
    {
      assert prompt[i] == block[i - at] == Repeat(m.placeholder, count)[i - at - 1];
    }
    assert ([count] + rest)[1..] == rest;
  }

  lemma LocateOther(prompt: seq<Token>, kind: Kind, printed: seq<Token>, rest: seq<nat>, at: nat)
    requires at + |printed| <= |prompt| && prompt[at..at + |printed|] == printed
    requires MarksOf(kind).begin !in printed
    ensures Locate(prompt, MarksOf(kind), rest, at) == Locate(prompt, MarksOf(kind), rest, at + |printed|)
  {
    forall i | at <= i < at + |printed|
      ensures prompt[i] != MarksOf(kind).begin
    {
      assert prompt[i] == prompt[at..at + |printed|][i - at];
    }
    LocateSkips(prompt, MarksOf(kind), rest, at, at + |printed|);
  }

  lemma LocateOwnBlock(prompt: seq<Token>, kind: Kind, item: Item, rest: seq<nat>, at: nat, next: nat)
    requires IsBlock(item, kind) && next == at + |PrintItem(item)| <= |prompt| && prompt[at..next] == PrintItem(item)
    ensures Locate(prompt, MarksOf(kind), ItemCounts(item, kind) + rest, at)
         == Prepend(ItemOffsets(item, kind, at), Locate(prompt, MarksOf(kind), rest, next))
  {
    hide Locate, Repeat;
    assert next == at + item.count + 2;
    LocateBlock(prompt, kind, item.count, rest, at);
    assert ItemCounts(item, kind) == [item.count] && ItemOffsets(item, kind, at) == [at + 1];
  }

  lemma LocateOtherItem(prompt: seq<Token>, kind: Kind, item: Item, rest: seq<nat>, at: nat, next: nat)
    requires HoldsNoBegin(item) && !IsBlock(item, kind)
    requires next == at + |PrintItem(item)| <= |prompt| && prompt[at..next] == PrintItem(item)
    ensures Locate(prompt, MarksOf(kind), ItemCounts(item, kind) + rest, at)
         == Prepend(ItemOffsets(item, kind, at), Locate(prompt, MarksOf(kind), rest, next))
  {
    hide Locate, Repeat, HoldsNoBegin, PrintItem;
    OtherItemHasNoBegin(item, kind);
    LocateOther(prompt, kind, PrintItem(item), rest, at);
    EmptyUnits(rest);
    PrependNothing(Locate(prompt, MarksOf(kind), rest, next));
  }

  lemma LocateAnyItem(prompt: seq<Token>, kind: Kind, item: Item, rest: seq<nat>, at: nat, next: nat, tail: seq<nat>)
    requires HoldsNoBegin(item) && next == at + |PrintItem(item)| <= |prompt| && prompt[at..next] == PrintItem(item)
    requires Locate(prompt, MarksOf(kind), rest, next) == Ok(tail)
    ensures Locate(prompt, MarksOf(kind), ItemCounts(item, kind) + rest, at) == Ok(ItemOffsets(item, kind, at) + tail)
  {
    if IsBlock(item, kind) {
      LocateOwnBlock(prompt, kind, item, rest, at, next);
    } else {
      LocateOtherItem(prompt, kind, item, rest, at, next);
    }
  }

  lemma PrintSplits(prompt: seq<Token>, at: nat, printed: seq<Token>, rest: seq<Token>)
    requires at <= |prompt| && prompt[at..] == printed + rest
    ensures at + |printed| <= |prompt|
    ensures prompt[at..at + |printed|] == printed && prompt[at + |printed|..] == rest
  {
    assert prompt[at..at + |printed|] == prompt[at..][..|printed|];
    assert prompt[at + |printed|..] == prompt[at..][|printed|..];
  }

  lemma UnfoldPlan(items: seq<Item>, kind: Kind, at: nat)
    requires items != []
    ensures Counts(items, kind) == ItemCounts(items[0], kind) + Counts(items[1..], kind)
    ensures Offsets(items, kind, at)
         == ItemOffsets(items[0], kind, at) + Offsets(items[1..], kind, at + |PrintItem(items[0])|)
    ensures Print(items) == PrintItem(items[0]) + Print(items[1..])
    ensures BoundaryFree(items) ==> HoldsNoBegin(items[0]) && BoundaryFree(items[1..])
  {
  }

  lemma LocateNone(prompt: seq<Token>, kind: Kind, at: nat)
    requires at <= |prompt|
    ensures Locate(prompt, MarksOf(kind), Counts([], kind), at) == Ok(Offsets([], kind, at))
  {
  }

  /** Main result: whatever is printed is located again, for either kind, in order, at exactly
      the printed offsets, however the two kinds are mixed. */
  lemma {:induction false} PrintThenLocate(items: seq<Item>, kind: Kind, prompt: seq<Token>, at: nat)
    requires BoundaryFree(items) && at <= |prompt| && prompt[at..] == Print(items)
    ensures Locate(prompt, MarksOf(kind), Counts(items, kind), at) == Ok(Offsets(items, kind, at))
    decreases |items|
  {
    hide *;
    if items == [] {
      LocateNone(prompt, kind, at);
    } else {
      var item, rest := items[0], items[1..];
      var next := at + |PrintItem(item)|;
      UnfoldPlan(items, kind, at);
      PrintSplits(prompt, at, PrintItem(item), Print(rest));
      PrintThenLocate(rest, kind, prompt, next);
      LocateAnyItem(prompt, kind, item, Counts(rest, kind), at, next, Offsets(rest, kind, next));
    }
  }

  // ---------------------------------------------------------------- soundness and stability

  /** A whole block behind `search`. */
  ghost predicate BlockAt(prompt: seq<Token>, marks: Marks, count: nat, offset: nat, search: nat) {
    && search < offset && offset + count < |prompt|
    && prompt[offset - 1] == marks.begin && prompt[offset + count] == marks.end
    && Placeholders(prompt, marks.placeholder, offset, count)
  }

  /** Located segments are whole blocks, in order, disjoint and in bounds. */
  ghost predicate WellPlaced(prompt: seq<Token>, marks: Marks, counts: seq<nat>, offsets: seq<nat>, search: nat) {
    && |offsets| == |counts|
    && (forall k :: 0 <= k < |offsets| ==> BlockAt(prompt, marks, counts[k], offsets[k], search))
    && (forall j, k :: 0 <= j < k < |offsets| ==> offsets[j] + counts[j] + 1 < offsets[k])
  }

  lemma ConsWellPlaced(
    prompt: seq<Token>, marks: Marks, count: nat, counts: seq<nat>, first: nat, offsets: seq<nat>, search: nat)
    requires search <= |prompt| && LocateOne(prompt, marks, count, search) == Ok(first)
    requires WellPlaced(prompt, marks, counts, offsets, first + count + 1)
    ensures WellPlaced(prompt, marks, [count] + counts, [first] + offsets, search)
  {
    hide BlockAt, LocateOne;
    FirstBlock(prompt, marks, count, search);
    var cs, os := [count] + counts, [first] + offsets;
    forall k | 0 <= k < |os|
      ensures BlockAt(prompt, marks, cs[k], os[k], search) && (k > 0 ==> os[0] + cs[0] + 1 < os[k])
    {
      if k > 0 {
        assert os[k] == offsets[k - 1] && cs[k] == counts[k - 1];
        LaterBlock(prompt, marks, counts[k - 1], offsets[k - 1], first + count + 1, search);
      }
    }
    forall j, k | 0 < j < k < |os|
      ensures os[j] + cs[j] + 1 < os[k]
    {
      assert os[j] == offsets[j - 1] && cs[j] == counts[j - 1] && os[k] == offsets[k - 1];
    }
  }

  lemma FirstBlock(prompt: seq<Token>, marks: Marks, count: nat, search: nat)
    requires search <= |prompt| && LocateOne(prompt, marks, count, search).Ok?
    ensures BlockAt(prompt, marks, count, LocateOne(prompt, marks, count, search).value, search)
  {
    FindIsFirst(prompt, marks.begin, search);
  }

  lemma LaterBlock(prompt: seq<Token>, marks: Marks, count: nat, offset: nat, after: nat, search: nat)
    requires search <= after && BlockAt(prompt, marks, count, offset, after)
    ensures BlockAt(prompt, marks, count, offset, search) && after < offset
  {
  }

  lemma {:induction false} LocatedIsWellPlaced(prompt: seq<Token>, marks: Marks, counts: seq<nat>, search: nat)
    requires search <= |prompt| && Locate(prompt, marks, counts, search).Ok?
    ensures WellPlaced(prompt, marks, counts, Locate(prompt, marks, counts, search).value, search)
    decreases |counts|
  {
    if counts != [] {
      var first := LocateOne(prompt, marks, counts[0], search).value;
      var next := first + counts[0] + 1;
      LocatedIsWellPlaced(prompt, marks, counts[1..], next);
      ConsWellPlaced(prompt, marks, counts[0], counts[1..], first, Locate(prompt, marks, counts[1..], next).value, search);
      assert counts == [counts[0]] + counts[1..];
    }
  }

  /** Up to its last block no begin mark is passed over: every one starts a block. */
  lemma {:induction false} LocatedAreFirst(prompt: seq<Token>, marks: Marks, counts: seq<nat>, search: nat, i: nat)
    requires search <= i < |prompt| && Locate(prompt, marks, counts, search).Ok? && prompt[i] == marks.begin
    requires marks.begin != marks.placeholder && marks.begin != marks.end
    ensures var offsets := Locate(prompt, marks, counts, search).value;
            i + 1 in offsets || forall k :: 0 <= k < |offsets| ==> offsets[k] <= i
    decreases |counts|
  {
    if counts != [] {
      var first := LocateOne(prompt, marks, counts[0], search).value;
      var next := first + counts[0] + 1;
      FindIsFirst(prompt, marks.begin, search);
      if next <= i {
        LocatedAreFirst(prompt, marks, counts[1..], next, i);
      }
    }
  }

  lemma {:induction false} FindInLonger(p: seq<Token>, q: seq<Token>, token: Token, from: nat)
    requires from <= |p| && FindToken(p, token, from).Some?
    ensures FindToken(p + q, token, from) == FindToken(p, token, from)
    decreases |p| - from
  {
    if p[from] != token {
      FindInLonger(p, q, token, from + 1);
    }
  }

  lemma LocateOneInLonger(p: seq<Token>, q: seq<Token>, marks: Marks, count: nat, search: nat)
    requires search <= |p| && LocateOne(p, marks, count, search).Ok?
    ensures LocateOne(p + q, marks, count, search) == LocateOne(p, marks, count, search)
  {
    FindInLonger(p, q, marks.begin, search);
    var first := FindToken(p, marks.begin, search).value + 1;
    assert forall i :: first <= i <= first + count ==> (p + q)[i] == p[i];
  }

  lemma LocateUnfolds(prompt: seq<Token>, marks: Marks, count: nat, counts: seq<nat>, search: nat)
    requires search <= |prompt| && LocateOne(prompt, marks, count, search).Ok?
    ensures var first := LocateOne(prompt, marks, count, search).value;
            Locate(prompt, marks, [count] + counts, search)
            == Prepend([first], Locate(prompt, marks, counts, first + count + 1))
  {
    assert ([count] + counts)[1..] == counts;
  }

  /** Where the search continues after the located blocks. */
  function SearchAfter(counts: seq<nat>, offsets: seq<nat>, search: nat): nat
    requires |offsets| == |counts|
  {
    if counts == [] then search else SearchAfter(counts[1..], offsets[1..], offsets[0] + counts[0] + 1)
  }

  lemma PrefixStableStep(
    p: seq<Token>, q: seq<Token>, marks: Marks, count: nat, counts: seq<nat>, more: seq<nat>, search: nat,
    first: nat, rest: seq<nat>, tail: Result<seq<nat>>)
    requires search <= |p| && LocateOne(p, marks, count, search) == Ok(first)
    requires Locate(p + q, marks, counts + more, first + count + 1) == Prepend(rest, tail)
    ensures Locate(p + q, marks, ([count] + counts) + more, search) == Prepend([first] + rest, tail)
  {
    hide Locate, LocateOne;
    LocateOneInLonger(p, q, marks, count, search);
    LocateUnfolds(p + q, marks, count, counts + more, search);
    Assoc([count], counts, more);
    PrependPrepend([first], rest, tail);
  }

  /** Main result: what was located in a prompt is found first in every longer prompt with more
      media; only the added media are searched for, and only behind the old blocks. */
  lemma {:induction false} LocateIsPrefixStable(
    p: seq<Token>, q: seq<Token>, marks: Marks, counts: seq<nat>, more: seq<nat>, search: nat)
    requires search <= |p| && Locate(p, marks, counts, search).Ok?
    ensures var offsets := Locate(p, marks, counts, search).value;
            && |offsets| == |counts| && search <= SearchAfter(counts, offsets, search) <= |p|
            && Locate(p + q, marks, counts + more, search)
               == Prepend(offsets, Locate(p + q, marks, more, SearchAfter(counts, offsets, search)))
    decreases |counts|
  {
    hide LocateOne, FindToken;
    if counts == [] {
      EmptyUnits(more);
      PrependNothing(Locate(p + q, marks, more, search));
    } else {
      hide Locate, SearchAfter;
      var count, later := counts[0], counts[1..];
      HeadAndTail(counts);
      LocateSucceeds(p, marks, count, later, search);
      var first := LocateOne(p, marks, count, search).value;
      LocateIsPrefixStable(p, q, marks, later, more, first + count + 1);
      var rest := Locate(p, marks, later, first + count + 1).value;
      SearchStep(count, later, first, rest, search);
      PrefixStableStep(p, q, marks, count, later, more, search, first, rest,
                       Locate(p + q, marks, more, SearchAfter(later, rest, first + count + 1)));
    }
  }

  lemma PrependNothing(tail: Result<seq<nat>>)
    ensures Prepend([], tail) == tail
  {
  }

  lemma LocateSucceeds(p: seq<Token>, marks: Marks, count: nat, later: seq<nat>, search: nat)
    requires search <= |p| && Locate(p, marks, [count] + later, search).Ok?
    ensures LocateOne(p, marks, count, search).Ok?
    ensures var first := LocateOne(p, marks, count, search).value;
            && search < first && first + count + 1 <= |p|
            && Locate(p, marks, later, first + count + 1).Ok?
            && Locate(p, marks, [count] + later, search) == Ok([first] + Locate(p, marks, later, first + count + 1).value)
  {
    hide FindToken, Placeholders;
    assert ([count] + later)[1..] == later;
  }

  lemma SearchStep(count: nat, later: seq<nat>, first: nat, rest: seq<nat>, search: nat)
    requires |rest| == |later|
    ensures SearchAfter([count] + later, [first] + rest, search) == SearchAfter(later, rest, first + count + 1)
  {
    assert ([count] + later)[1..] == later && ([first] + rest)[1..] == rest;
  }

  // ---------------------------------------------------------------- media behind resident tokens

  lemma WrongCount(prompt: seq<Token>, kind: Kind, count: nat, wanted: nat, at: nat)
    requires at + count + 2 <= |prompt| && prompt[at..at + count + 2] == PrintItem(Block(kind, count))
    ensures LocateOne(prompt, MarksOf(kind), wanted, at).Ok? <==> wanted == count
  {
    var m := MarksOf(kind);
    var block := prompt[at..at + count + 2];
    assert block[0] == m.begin && block[count + 1] == m.end;
    assert prompt[at] == block[0] && prompt[at + count + 1] == block[count + 1];
    forall i | at + 1 <= i < at + 1 + count
      ensures prompt[i] == m.placeholder
    {
      assert prompt[i] == block[i - at] == Repeat(m.placeholder, count)[i - at - 1];
    }
  }

  /** Exactness: printed blocks are located for the counts of the first of them, and no others. */
  lemma {:induction false} PrintLocateExactly(items: seq<Item>, kind: Kind, prompt: seq<Token>, at: nat, counts: seq<nat>)
    requires BoundaryFree(items) && at <= |prompt| && prompt[at..] == Print(items)
    ensures Locate(prompt, MarksOf(kind), counts, at).Ok? <==> counts <= Counts(items, kind)
    decreases |items|
  {
    hide Locate, Print, PrintItem, Counts, BoundaryFree, HoldsNoBegin, LocateOne;
    if items == [] {
      PrintNothing(kind);
      LocateAtEnd(prompt, MarksOf(kind), counts);
    } else {
      var item, rest := items[0], items[1..];
      var next := at + |PrintItem(item)|;
      UnfoldPlan(items, kind, at);
      PrintSplits(prompt, at, PrintItem(item), Print(rest));
      if !IsBlock(item, kind) {
        PrintLocateExactly(rest, kind, prompt, next, counts);
        OtherItemHasNoBegin(item, kind);
        LocateOther(prompt, kind, PrintItem(item), counts, at);
        EmptyUnits(Counts(rest, kind));
      } else if counts == [] {
        LocateNothing(prompt, MarksOf(kind), at);
      } else {
        OwnBlockSize(item, kind);
        WrongCount(prompt, kind, item.count, counts[0], at);
        HeadAndTail(counts);
        if counts[0] == item.count {
          PrintLocateExactly(rest, kind, prompt, next, counts[1..]);
          LocateBlock(prompt, kind, item.count, counts[1..], at);
        } else {
          LocateFails(prompt, MarksOf(kind), counts, at);
        }
        PrefixCons(counts, item.count, Counts(rest, kind));
      }
    }
  }

  lemma PrintNothing(kind: Kind)
    ensures Print([]) == [] && Counts([], kind) == []
  {
  }

  lemma OwnBlockSize(item: Item, kind: Kind)
    requires IsBlock(item, kind)
    ensures item == Block(kind, item.count) && |PrintItem(item)| == item.count + 2 && ItemCounts(item, kind) == [item.count]
  {
  }

  lemma PrefixCons(counts: seq<nat>, head: nat, tail: seq<nat>)
    requires counts != []
    ensures counts <= [head] + tail <==> counts[0] == head && counts[1..] <= tail
  {
    var all := [head] + tail;
    assert all[1..] == tail;
    if counts <= all {
      assert counts[1..] == all[1..][..|counts| - 1];
    }
    if counts[0] == head && counts[1..] <= tail {
      assert counts == [head] + counts[1..] == all[..|counts|];
    }
  }

  lemma LocateNothing(prompt: seq<Token>, marks: Marks, search: nat)
    requires search <= |prompt|
    ensures Locate(prompt, marks, [], search) == Ok([])
  {
  }

  lemma LocateFails(prompt: seq<Token>, marks: Marks, counts: seq<nat>, search: nat)
    requires search <= |prompt| && counts != [] && LocateOne(prompt, marks, counts[0], search).Err?
    ensures Locate(prompt, marks, counts, search) == Err(DataLoss)
  {
  }

  lemma LocateAtEnd(prompt: seq<Token>, marks: Marks, counts: seq<nat>)
    ensures Locate(prompt, marks, counts, |prompt|).Ok? <==> counts == []
  {
  }

  /** The token can be no part of a block behind its begin mark. */
  predicate BreaksBlock(marks: Marks, token: Token) {
    token != marks.placeholder && token != marks.end
  }

  /** A block that begins in `t` does not reach into what follows. */
  lemma NoBlockAcross(t: seq<Token>, added: seq<Token>, marks: Marks, count: nat, search: nat)
    requires search <= |t| && count > 0 && added != [] && BreaksBlock(marks, added[0])
    requires FindToken(t, marks.begin, search).Some?
    ensures LocateOne(t + added, marks, count, search).Ok? <==> LocateOne(t, marks, count, search).Ok?
  {
    FindInLonger(t, added, marks.begin, search);
    var first := FindToken(t, marks.begin, search).value + 1;
    var all := t + added;
    assert all[|t|] == added[0];
    if LocateOne(t, marks, count, search).Ok? {
      LocateOneInLonger(t, added, marks, count, search);
    }
    if LocateOne(all, marks, count, search).Ok? {
      BlockTokens(all, marks, count, search);
      assert first + count < |t|;
      assert forall i :: first <= i <= first + count ==> all[i] == t[i];
    }
  }

  lemma BlockTokens(prompt: seq<Token>, marks: Marks, count: nat, search: nat)
    requires search <= |prompt| && LocateOne(prompt, marks, count, search).Ok?
    ensures var first := LocateOne(prompt, marks, count, search).value;
            forall i :: first <= i <= first + count ==> !BreaksBlock(marks, prompt[i])
  {
  }

  /** The first `k` counts are taken by whole blocks that `t` holds behind `search`, and no other begin
      mark is left in it unless all counts are. */
  ghost predicate Takes(t: seq<Token>, marks: Marks, counts: seq<nat>, search: nat, k: nat)
    requires search <= |t| && k <= |counts|
  {
    && Locate(t, marks, counts[..k], search).Ok?
    && (k < |counts| ==> marks.begin !in Behind(t, marks, counts[..k], search))
  }

  /** What `t` holds behind the blocks located in it. */
  ghost function Behind(t: seq<Token>, marks: Marks, counts: seq<nat>, search: nat): seq<Token>
    requires search <= |t| && Locate(t, marks, counts, search).Ok?
  {
    SearchStaysInside(t, marks, counts, search);
    t[SearchAfter(counts, Locate(t, marks, counts, search).value, search)..]
  }

  lemma SearchStaysInside(t: seq<Token>, marks: Marks, counts: seq<nat>, search: nat)
    requires search <= |t| && Locate(t, marks, counts, search).Ok?
    ensures |Locate(t, marks, counts, search).value| == |counts|
    ensures search <= SearchAfter(counts, Locate(t, marks, counts, search).value, search) <= |t|
  {
    LocateIsPrefixStable(t, [], marks, counts, [], search);
  }

  /** The counts are met by blocks in `t`, or by the first printed ones behind it. */
  ghost predicate Room(t: seq<Token>, marks: Marks, counts: seq<nat>, search: nat, printed: seq<nat>)
    requires search <= |t|
  {
    exists k: nat :: k <= |counts| && Takes(t, marks, counts, search, k) && counts[k..] <= printed
  }

  lemma FindNone(t: seq<Token>, token: Token, search: nat)
    requires search <= |t|
    ensures FindToken(t, token, search).None? <==> token !in t[search..]
  {
    FindIsFirst(t, token, search);
    if token in t[search..] {
      var i :| 0 <= i < |t[search..]| && t[search..][i] == token;
      assert t[search + i] == token;
    }
    if FindToken(t, token, search).Some? {
      assert t[search..][FindToken(t, token, search).value - search] == token;
    }
  }

  lemma TakesNothing(t: seq<Token>, marks: Marks, counts: seq<nat>, search: nat)
    requires search <= |t| && counts != []
    ensures Takes(t, marks, counts, search, 0) <==> marks.begin !in t[search..]
  {
    assert counts[..0] == [];
    LocateNothing(t, marks, search);
    assert SearchAfter([], [], search) == search;
  }

  lemma TakesFirst(t: seq<Token>, marks: Marks, counts: seq<nat>, search: nat, k: nat)
    requires search <= |t| && counts != [] && 0 < k <= |counts|
    ensures var one := LocateOne(t, marks, counts[0], search);
            Takes(t, marks, counts, search, k)
            <==> one.Ok? && Takes(t, marks, counts[1..], one.value + counts[0] + 1, k - 1)
  {
    hide LocateOne, FindToken;
    var front, later := counts[..k], counts[1..];
    assert front == [counts[0]] + later[..k - 1];
    var one := LocateOne(t, marks, counts[0], search);
    if one.Err? {
      LocateFails(t, marks, front, search);
    } else {
      LocateUnfolds(t, marks, counts[0], later[..k - 1], search);
      if Locate(t, marks, later[..k - 1], one.value + counts[0] + 1).Ok? {
        SearchStaysInside(t, marks, later[..k - 1], one.value + counts[0] + 1);
        SearchStep(counts[0], later[..k - 1], one.value, Locate(t, marks, later[..k - 1], one.value + counts[0] + 1).value, search);
      }
    }
  }

  lemma RoomWithoutBegin(t: seq<Token>, marks: Marks, counts: seq<nat>, search: nat, printed: seq<nat>)
    requires search <= |t| && counts != [] && marks.begin !in t[search..]
    ensures Room(t, marks, counts, search, printed) <==> counts <= printed
  {
    hide Takes;
    FindNone(t, marks.begin, search);
    TakesNothing(t, marks, counts, search);
    assert counts[0..] == counts;
    forall k: nat | k <= |counts| && Takes(t, marks, counts, search, k)
      ensures k == 0
    {
      if k > 0 {
        TakesFirst(t, marks, counts, search, k);
      }
    }
  }

  lemma RoomBehindBegin(t: seq<Token>, marks: Marks, counts: seq<nat>, search: nat, printed: seq<nat>)
    requires search <= |t| && counts != [] && marks.begin in t[search..]
    ensures var one := LocateOne(t, marks, counts[0], search);
            Room(t, marks, counts, search, printed) <==> one.Ok? && Room(t, marks, counts[1..], one.value + counts[0] + 1, printed)
  {
    hide Takes, LocateOne;
    TakesNothing(t, marks, counts, search);
    var one := LocateOne(t, marks, counts[0], search);
    if k: nat :| k <= |counts| && Takes(t, marks, counts, search, k) && counts[k..] <= printed {
      TakesFirst(t, marks, counts, search, k);
      assert counts[1..][k - 1..] == counts[k..];
    }
    if one.Ok? && Room(t, marks, counts[1..], one.value + counts[0] + 1, printed) {
      var k: nat :| k <= |counts[1..]| && Takes(t, marks, counts[1..], one.value + counts[0] + 1, k) && counts[1..][k..] <= printed;
      TakesFirst(t, marks, counts, search, k + 1);
      assert counts[1..][k..] == counts[k + 1..];
    }
  }

  /** Searching for media behind `search` in tokens that printed blocks follow. */
  lemma {:induction false} LocateBehindExactly(
    t: seq<Token>, added: seq<Token>, items: seq<Item>, kind: Kind, counts: seq<nat>, search: nat)
    requires search <= |t| && BoundaryFree(items) && Print(items) == added
    requires added != [] && BreaksBlock(MarksOf(kind), added[0])
    requires forall i :: 0 <= i < |counts| ==> counts[i] > 0
    ensures Locate(t + added, MarksOf(kind), counts, search).Ok? <==> Room(t, MarksOf(kind), counts, search, Counts(items, kind))
    decreases |counts|
  {
    hide LocateOne, Room, FindToken, Print, Counts, BoundaryFree;
    var m, all := MarksOf(kind), t + added;
    SplitOfConcat(t, added);
    if counts == [] {
      LocateNothing(all, m, search);
      RoomForNothing(t, m, search, Counts(items, kind));
    } else if m.begin !in t[search..] {
      NoBeginInside(t, added, m, search);
      LocateSkips(all, m, counts, search, |t|);
      PrintLocateExactly(items, kind, all, |t|, counts);
      RoomWithoutBegin(t, m, counts, search, Counts(items, kind));
    } else {
      hide Locate;
      FindNone(t, m.begin, search);
      NoBlockAcross(t, added, m, counts[0], search);
      RoomBehindBegin(t, m, counts, search, Counts(items, kind));
      HeadAndTail(counts);
      if LocateOne(t, m, counts[0], search).Ok? {
        LocateOneInLonger(t, added, m, counts[0], search);
        LocateUnfolds(all, m, counts[0], counts[1..], search);
        LocateBehindExactly(t, added, items, kind, counts[1..], LocateOne(t, m, counts[0], search).value + counts[0] + 1);
      } else {
        LocateFails(all, m, counts, search);
      }
    }
  }

  lemma NoBeginInside(t: seq<Token>, added: seq<Token>, m: Marks, search: nat)
    requires search <= |t| && m.begin !in t[search..]
    ensures forall i :: search <= i < |t| ==> (t + added)[i] != m.begin
  {
    forall i | search <= i < |t|
      ensures (t + added)[i] != m.begin
    {
      assert (t + added)[i] == t[i] == t[search..][i - search];
    }
  }

  lemma RoomForNothing(t: seq<Token>, m: Marks, search: nat, printed: seq<nat>)
    requires search <= |t|
    ensures Room(t, m, [], search, printed)
  {
    var none: seq<nat> := [];
    assert none[..0] == none && none[0..] == none;
    LocateNothing(t, m, search);
    assert Takes(t, m, none, search, 0) && none[0..] <= printed;
  }

  /** Main result: media printed behind tokens that hold located media are located with them exactly
      when what stands behind the located blocks leaves room: no begin mark, or begin marks of whole
      blocks that happen to have the wanted counts. */
  lemma LaterMediaExactly(t: seq<Token>, added: seq<Token>, resident: seq<nat>, items: seq<Item>, kind: Kind)
    requires BoundaryFree(items) && Print(items) == added && added != [] && BreaksBlock(MarksOf(kind), added[0])
    requires forall i :: 0 <= i < |Counts(items, kind)| ==> Counts(items, kind)[i] > 0
    requires Locate(t, MarksOf(kind), resident, 0).Ok?
    ensures |Locate(t, MarksOf(kind), resident, 0).value| == |resident|
    ensures SearchAfter(resident, Locate(t, MarksOf(kind), resident, 0).value, 0) <= |t|
    ensures Locate(t + added, MarksOf(kind), resident + Counts(items, kind), 0).Ok?
       <==> Room(t, MarksOf(kind), Counts(items, kind), SearchAfter(resident, Locate(t, MarksOf(kind), resident, 0).value, 0), Counts(items, kind))
  {
    hide Locate, Room, Print, Counts, BoundaryFree;
    LocateIsPrefixStable(t, added, MarksOf(kind), resident, Counts(items, kind), 0);
    LocateBehindExactly(t, added, items, kind, Counts(items, kind),
                        SearchAfter(resident, Locate(t, MarksOf(kind), resident, 0).value, 0));
  }

  /** Where no end mark was left behind, there is room exactly when there is nothing to place or no
      begin mark was left. */
  lemma RoomWithoutEnd(t: seq<Token>, marks: Marks, counts: seq<nat>, search: nat)
    requires search <= |t| && marks.end !in t[search..]
    ensures Room(t, marks, counts, search, counts) <==> counts == [] || marks.begin !in t[search..]
  {
    hide Room, Takes, LocateOne;
    if counts == [] {
      RoomForNothing(t, marks, search, counts);
    } else if marks.begin in t[search..] {
      RoomBehindBegin(t, marks, counts, search, counts);
      BlockHasEnd(t, marks, counts[0], search);
    } else {
      RoomWithoutBegin(t, marks, counts, search, counts);
    }
  }

  lemma BlockHasEnd(t: seq<Token>, marks: Marks, count: nat, search: nat)
    requires search <= |t| && marks.end !in t[search..]
    ensures LocateOne(t, marks, count, search).Err?
  {
    if LocateOne(t, marks, count, search).Ok? {
      EndInBlock(t, marks, count, search);
    }
  }

  lemma EndInBlock(t: seq<Token>, marks: Marks, count: nat, search: nat)
    requires search <= |t| && LocateOne(t, marks, count, search).Ok?
    ensures marks.end in t[search..]
  {
    assert t[search..][LocateOne(t, marks, count, search).value + count - search] == marks.end;
  }

  // ---------------------------------------------------------------- the printed text

  /** `a` wins the added-token search wherever its text stands. */
  ghost predicate Dominant(added: seq<AddedToken>, a: AddedToken) {
    forall rest: Text :: FirstMatch(added, a.content + rest) == Some(a)
  }

  lemma {:induction false} EncodeDominant(tk: Tables, a: AddedToken, rest: Text)
    requires AddedNonEmpty(tk.added) && Dominant(tk.added, a) && a.content != []
    ensures EncodeSpec(tk, a.content + rest) == Prepend([a.id], EncodeSpec(tk, rest))
  {
    var text := a.content + rest;
    assert FirstMatch(tk.added, text) == Some(a);
    assert text[|a.content|..] == rest;
  }

  /** The three added tokens that print a block of one kind. */
  datatype BlockText = BlockText(begin: AddedToken, placeholder: AddedToken, end: AddedToken)

  ghost predicate Prints(tk: Tables, t: BlockText, kind: Kind) {
    && Dominant(tk.added, t.begin) && Dominant(tk.added, t.placeholder) && Dominant(tk.added, t.end)
    && t.begin.content != [] && t.placeholder.content != [] && t.end.content != []
    && MarksOf(kind) == Marks(t.begin.id, t.placeholder.id, t.end.id)
  }

  /** The text `MaterializeContent` appends for one image or audio part. */
  function BlockString(t: BlockText, count: nat): Text {
    t.begin.content + (Repeated(t.placeholder.content, count) + t.end.content)
  }

  function Repeated(text: Text, n: nat): Text {
    if n == 0 then [] else text + Repeated(text, n - 1)
  }

  /** The loop that prints the placeholders of one part. */
  method AppendBlock(text: Text, t: BlockText, count: nat) returns (r: Text)
    ensures r == text + BlockString(t, count)
  {
    r := text + t.begin.content;
    for k := 0 to count
      invariant r + Repeated(t.placeholder.content, count - k) == text + t.begin.content + Repeated(t.placeholder.content, count)
    {
      r := r + t.placeholder.content;
    }
    assert r == text + t.begin.content + Repeated(t.placeholder.content, count);
    r := r + t.end.content;
  }

  lemma EncodeOneMore(tk: Tables, a: AddedToken, ids: seq<Token>, tail: Text, rest: Text)
    requires AddedNonEmpty(tk.added) && Dominant(tk.added, a) && a.content != []
    requires EncodeSpec(tk, tail) == Prepend(ids, EncodeSpec(tk, rest))
    ensures EncodeSpec(tk, a.content + tail) == Prepend([a.id] + ids, EncodeSpec(tk, rest))
  {
    EncodeDominant(tk, a, tail);
    PrependPrepend([a.id], ids, EncodeSpec(tk, rest));
  }

  lemma {:induction false} EncodePlaceholders(tk: Tables, t: BlockText, kind: Kind, count: nat, rest: Text)
    requires AddedNonEmpty(tk.added) && Prints(tk, t, kind)
    ensures EncodeSpec(tk, Repeated(t.placeholder.content, count) + (t.end.content + rest))
         == Prepend(Repeat(t.placeholder.id, count) + [t.end.id], EncodeSpec(tk, rest))
  {
    if count == 0 {
      EmptyUnits(t.end.content + rest);
      EmptyUnits([t.end.id]);
      EncodeDominant(tk, t.end, rest);
    } else {
      var times, ids := Repeated(t.placeholder.content, count - 1), Repeat(t.placeholder.id, count - 1);
      EncodePlaceholders(tk, t, kind, count - 1, rest);
      Assoc(t.placeholder.content, times, t.end.content + rest);
      Assoc([t.placeholder.id], ids, [t.end.id]);
      EncodeOneMore(tk, t.placeholder, ids + [t.end.id], times + (t.end.content + rest), rest);
    }
  }

  /** The printed text of a block encodes to the block of tokens that the locator looks for. */
  lemma BlockTextEncodes(tk: Tables, t: BlockText, kind: Kind, count: nat, rest: Text)
    requires AddedNonEmpty(tk.added) && Prints(tk, t, kind)
    ensures EncodeSpec(tk, BlockString(t, count) + rest)
         == Prepend(PrintItem(Block(kind, count)), EncodeSpec(tk, rest))
  {
    var times, ids := Repeated(t.placeholder.content, count), Repeat(t.placeholder.id, count);
    Assoc(t.begin.content, times + t.end.content, rest);
    Assoc(times, t.end.content, rest);
    EncodePlaceholders(tk, t, kind, count, rest);
    EncodeOneMore(tk, t.begin, ids + [t.end.id], times + (t.end.content + rest), rest);
    Assoc([t.begin.id], ids, [t.end.id]);
  }
}
