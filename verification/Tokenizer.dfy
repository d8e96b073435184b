/** The byte-fallback BPE tokenizer: loading its tables, encoding, decoding. */
module Tokenizer {
  import opened Wrappers
  import opened Seqs
  import opened Text
  import opened Utf8
  import opened Bpe

  /** U+2581, which stands for a space inside the vocabulary. */
  const MARKER: Text := [0xE2, 0x96, 0x81]
  const SPACE: Byte := 0x20

  datatype AddedToken = AddedToken(content: Text, id: Token)

  datatype Tables = Tables(
    vocabulary: map<Text, Token>,
    tokens: seq<Text>,
    merges: MergeTable,
    added: seq<AddedToken>,
    special: set<Token>)

  // ---------------------------------------------------------------- byte-fallback tokens

  function HexDigit(n: Byte): Byte {
    if n < 10 then 0x30 + n else 0x41 + (n - 10)
  }

  /** `<0x%02X>` of a byte. */
  function FallbackText(b: Byte): Text {
    [0x3C, 0x30, 0x78, HexDigit(b >> 4), HexDigit(b & 0x0F), 0x3E]
  }

  /** `ParseByteFallback`: `<0x`, two hexadecimal digits of either case, `>`. */
  function ParseByteFallback(token: Text): (r: Option<Byte>)
    ensures r.Some? ==> |token| == 6
  {
    if |token| != 6 || token[..3] != [0x3C, 0x30, 0x78] || token[5] != 0x3E then None
    else
      var hi, lo := HexValue(token[3]), HexValue(token[4]);
      if hi.None? || lo.None? then None else Some((hi.value << 4) | lo.value)
  }

  lemma FallbackRoundTrip(b: Byte)
    ensures ParseByteFallback(FallbackText(b)) == Some(b)
  {
    var t := FallbackText(b);
    assert t[..3] == [0x3C, 0x30, 0x78];
    assert HexValue(HexDigit(b >> 4)) == Some(b >> 4);
    assert HexValue(HexDigit(b & 0x0F)) == Some(b & 0x0F);
  }

  // ---------------------------------------------------------------- space normalisation

  function Normalize(text: Text): Text {
    if text == [] then []
    else (if text[0] == SPACE then MARKER else [text[0]]) + Normalize(text[1..])
  }

  /** Left-to-right replacement of the marker by a space. */
  function Unmark(text: Text): Text {
    if text == [] then []
    else if MARKER <= text then [SPACE] + Unmark(text[3..])
    else [text[0]] + Unmark(text[1..])
  }

  lemma {:induction false} NormalizeConcat(a: Text, b: Text)
    ensures Normalize(a + b) == Normalize(a) + Normalize(b)
  {
    if a == [] {
      EmptyUnits(b);
      EmptyUnits(Normalize(b));
    } else {
      TailOfConcat(a, b);
      NormalizeConcat(a[1..], b);
      Assoc(if a[0] == SPACE then MARKER else [a[0]], Normalize(a[1..]), Normalize(b));
    }
  }

  lemma {:induction false} UnmarkNormalize(text: Text)
    ensures Unmark(Normalize(text)) == Unmark(text)
  {
    if text == [] {
    } else if MARKER <= text {
      UnmarkNormalize(text[3..]);
      assert text == MARKER + text[3..];
      NormalizeConcat(MARKER, text[3..]);
      NormalizeMarkerFree(MARKER);
      assert Normalize(text)[3..] == Normalize(text[3..]);
    } else if text[0] == SPACE {
      UnmarkNormalize(text[1..]);
      assert Normalize(text)[3..] == Normalize(text[1..]);
    } else {
      UnmarkNormalize(text[1..]);
      var n := Normalize(text);
      assert n[1..] == Normalize(text[1..]);
      assert !(MARKER <= n);
    }
  }

  lemma {:induction false} NormalizeMarkerFree(text: Text)
    requires SPACE !in text
    ensures Normalize(text) == text
  {
    if text != [] {
      NormalizeMarkerFree(text[1..]);
    }
  }

  lemma UnmarkOne(text: Text)
    requires text != [] && text[0] != 0xE2
    ensures Unmark(text) == [text[0]] + Unmark(text[1..])
  {
    assert MARKER[0] == 0xE2;
    assert !(MARKER <= text);
  }

  lemma {:induction false} UnmarkSkips(head: Text, rest: Text)
    requires forall i :: 0 <= i < |head| ==> head[i] != 0xE2
    ensures Unmark(head + rest) == head + Unmark(rest)
  {
    if head == [] {
      EmptyUnits(rest);
      EmptyUnits(Unmark(rest));
    } else {
      TailOfConcat(head, rest);
      UnmarkOne(head + rest);
      UnmarkSkips(head[1..], rest);
      HeadAndTail(head);
      Assoc([head[0]], head[1..], Unmark(rest));
    }
  }

  /** What one character contributes to the decoded text. */
  function CharacterText(c: Text): Text {
    if c == MARKER then [SPACE] else c
  }

  lemma OtherCharacterIsNoMarker(c: Text, rest: Text)
    requires IsCharacter(c) && c != MARKER
    ensures !(MARKER <= c + rest)
  {
    if c[0] == 0xE2 {
      assert |c| == 3;
      assert (c + rest)[..3] == c;
    } else {
      assert (c + rest)[0] == c[0];
    }
  }

  lemma ContinuationIsNoLead(b: Byte)
    requires IsContinuation(b)
    ensures b != 0xE2
  {
  }

  /** What follows the first byte of a character never starts a marker. */
  lemma CharacterTailIsPlain(c: Text)
    requires IsCharacter(c)
    ensures forall i :: 0 <= i < |c[1..]| ==> c[1..][i] != 0xE2
  {
    hide CharLength, IsContinuation;
    forall i | 0 <= i < |c[1..]|
      ensures c[1..][i] != 0xE2
    {
      assert c[1..][i] == c[i + 1];
      ContinuationIsNoLead(c[i + 1]);
    }
  }

  lemma UnmarkCharacter(c: Text, rest: Text)
    requires IsCharacter(c)
    ensures Unmark(c + rest) == CharacterText(c) + Unmark(rest)
  {
    hide CharLength, IsContinuation;
    if c == MARKER {
      SplitOfConcat(c, rest);
    } else {
      OtherCharacterIsNoMarker(c, rest);
      TailOfConcat(c, rest);
      CharacterTailIsPlain(c);
      UnmarkSkips(c[1..], rest);
      HeadAndTail(c);
      Assoc([c[0]], c[1..], Unmark(rest));
    }
  }

  /** A marker cannot straddle the end of a text made of whole characters. */
  lemma {:induction false} UnmarkConcat(a: Text, b: Text)
    requires WholeCharacters(a)
    ensures Unmark(a + b) == Unmark(a) + Unmark(b)
  {
    if a == [] {
      EmptyUnits(b);
      EmptyUnits(Unmark(b));
    } else {
      var c, t := FirstCharacter(a);
      Assoc(c, t, b);
      UnmarkConcat(t, b);
      UnmarkCharacter(c, t);
      UnmarkCharacter(c, t + b);
      Assoc(CharacterText(c), Unmark(t), Unmark(b));
    }
  }

  lemma UnmarkConcatNormalized(a: Text, b: Text)
    requires WholeCharacters(Normalize(a))
    ensures Unmark(a + b) == Unmark(a) + Unmark(b)
  {
    UnmarkNormalize(a);
    UnmarkNormalize(b);
    UnmarkNormalize(a + b);
    NormalizeConcat(a, b);
    UnmarkConcat(Normalize(a), Normalize(b));
  }

  /** Unmarking leaves a text alone exactly when the marker does not occur in it. */
  lemma {:induction false} UnmarkFixes(text: Text)
    ensures |Unmark(text)| <= |text|
    ensures Unmark(text) == text <==> !Contains(text, MARKER)
  {
    if text == [] {
    } else if MARKER <= text {
      UnmarkFixes(text[3..]);
      assert text[0..] == text;
    } else {
      var t := text[1..];
      UnmarkFixes(t);
      assert text == [text[0]] + t;
      if Contains(t, MARKER) {
        var i :| 0 <= i <= |t| && MARKER <= t[i..];
        assert t[i..] == text[i + 1..];
      }
      if Contains(text, MARKER) {
        var i :| 0 <= i <= |text| && MARKER <= text[i..];
        assert text[0..] == text;
        assert t[i - 1..] == text[i..];
      }
    }
  }

  // ---------------------------------------------------------------- ordinary text

  function InitialSymbols(tk: Tables, characters: seq<Text>): Result<seq<Token>> {
    if characters == [] then Ok([])
    else
      var head := CharacterSymbols(tk, characters[0]);
      if head.Err? then head else Prepend(head.value, InitialSymbols(tk, characters[1..]))
  }

  /** One character: its own token, or one fallback token per byte. */
  function CharacterSymbols(tk: Tables, c: Text): Result<seq<Token>> {
    if c in tk.vocabulary then Ok([tk.vocabulary[c]]) else FallbackSymbols(tk, c)
  }

  function FallbackSymbols(tk: Tables, bytes: Text): Result<seq<Token>> {
    if bytes == [] then Ok([])
    else if FallbackText(bytes[0]) !in tk.vocabulary then Err(DataLoss)
    else Prepend([tk.vocabulary[FallbackText(bytes[0])]], FallbackSymbols(tk, bytes[1..]))
  }

  ghost function OrdinarySpec(tk: Tables, text: Text): Result<seq<Token>> {
    var characters := Split(Normalize(text));
    if characters.Err? then Err(characters.code)
    else
      var symbols := InitialSymbols(tk, characters.value);
      if symbols.Err? then symbols else Ok(Batched(symbols.value, tk.merges))
  }

  method BuildInitialSymbols(tk: Tables, characters: seq<Text>) returns (r: Result<seq<Token>>)
    ensures r == InitialSymbols(tk, characters)
  {
    var symbols: seq<Token> := [];
    assert characters[0..] == characters;
    for k := 0 to |characters|
      invariant InitialSymbols(tk, characters) == Prepend(symbols, InitialSymbols(tk, characters[k..]))
    {
      var c := characters[k];
      ghost var rest := characters[k..];
      assert rest[1..] == characters[k + 1..];
      ghost var before := symbols;
      if c in tk.vocabulary {
        symbols := symbols + [tk.vocabulary[c]];
        PrependPrepend(before, [tk.vocabulary[c]], InitialSymbols(tk, rest[1..]));
      } else {
        assert c[0..] == c;
        for i := 0 to |c|
          invariant Prepend(before, FallbackSymbols(tk, c)) == Prepend(symbols, FallbackSymbols(tk, c[i..]))
        {
          ghost var bytes, previous := c[i..], symbols;
          assert bytes[1..] == c[i + 1..];
          var fallback := FallbackText(c[i]);
          if fallback !in tk.vocabulary {
            return Err(DataLoss);
          }
          symbols := symbols + [tk.vocabulary[fallback]];
          PrependPrepend(previous, [tk.vocabulary[fallback]], FallbackSymbols(tk, bytes[1..]));
        }
        assert c[|c|..] == [];
        assert symbols == before + FallbackSymbols(tk, c).value;
        PrependPrepend(before, FallbackSymbols(tk, c).value, InitialSymbols(tk, rest[1..]));
      }
    }
    assert characters[|characters|..] == [];
    return Ok(symbols);
  }

  /** `Impl::EncodeOrdinary`. */
  method EncodeOrdinary(tk: Tables, ordinary: Text) returns (r: Result<seq<Token>>)
    ensures r == OrdinarySpec(tk, ordinary)
  {
    var normalized: Text := [];
    assert ordinary[0..] == ordinary;
    for k := 0 to |ordinary|
      invariant normalized + Normalize(ordinary[k..]) == Normalize(ordinary)
    {
      assert ordinary[k..][1..] == ordinary[k + 1..];
      if ordinary[k] == SPACE {
        normalized := normalized + MARKER;
      } else {
        normalized := normalized + [ordinary[k]];
      }
    }
    assert normalized == Normalize(ordinary);
    var characters := Utf8Characters(normalized);
    if characters.Err? {
      return Err(characters.code);
    }
    var symbols := BuildInitialSymbols(tk, characters.value);
    if symbols.Err? {
      return symbols;
    }
    var merged := MergeSymbols(symbols.value, tk.merges);
    return Ok(merged);
  }

  // ---------------------------------------------------------------- added tokens

  ghost predicate AddedNonEmpty(added: seq<AddedToken>) {
    forall k :: 0 <= k < |added| ==> added[k].content != []
  }

  /** The first added token, in table order, that `text` starts with. */
  function FirstMatch(added: seq<AddedToken>, text: Text): (r: Option<AddedToken>)
    ensures r.Some? ==> r.value in added && r.value.content <= text
    ensures r.None? ==> forall k :: 0 <= k < |added| ==> !(added[k].content <= text)
  {
    if added == [] then None
    else if added[0].content <= text then Some(added[0])
    else FirstMatch(added[1..], text)
  }

  /** In a table sorted by falling length the first match is a longest one. */
  lemma {:induction false} FirstMatchIsLongest(added: seq<AddedToken>, text: Text)
    requires forall i, j :: 0 <= i < j < |added| ==> |added[i].content| >= |added[j].content|
    ensures var r := FirstMatch(added, text);
            r.Some? ==> forall k :: 0 <= k < |added| && added[k].content <= text ==> |added[k].content| <= |r.value.content|
  {
    if added != [] && !(added[0].content <= text) {
      FirstMatchIsLongest(added[1..], text);
      forall k | 0 <= k < |added| && added[k].content <= text
        ensures |added[k].content| <= |FirstMatch(added, text).value.content|
      {
        assert added[k] == added[1..][k - 1];
      }
    }
  }

  ghost function Flush(tk: Tables, pending: Text): Result<seq<Token>> {
    if pending == [] then Ok([]) else OrdinarySpec(tk, pending)
  }

  function Append<T>(a: Result<seq<T>>, b: Result<seq<T>>): Result<seq<T>> {
    if a.Err? then a else Prepend(a.value, b)
  }

  /** The scan, with `pending` ordinary text behind it and `rest` ahead. */
  ghost function EncodeFrom(tk: Tables, pending: Text, rest: Text): Result<seq<Token>>
    requires AddedNonEmpty(tk.added)
    decreases |rest|
  {
    if rest == [] then Flush(tk, pending)
    else
      var matched := FirstMatch(tk.added, rest);
      if matched.None? then EncodeFrom(tk, pending + [rest[0]], rest[1..])
      else
        var a := matched.value;
        Append(Append(Flush(tk, pending), Ok([a.id])), EncodeFrom(tk, [], rest[|a.content|..]))
  }

  ghost function EncodeSpec(tk: Tables, text: Text): Result<seq<Token>>
    requires AddedNonEmpty(tk.added)
  {
    EncodeFrom(tk, [], text)
  }

  /** The linear search over the added tokens at one offset. */
  method MatchAdded(added: seq<AddedToken>, text: Text, offset: nat) returns (r: Option<AddedToken>)
    requires offset <= |text|
    ensures r == FirstMatch(added, text[offset..])
  {
    assert added[0..] == added;
    for k := 0 to |added|
      invariant FirstMatch(added, text[offset..]) == FirstMatch(added[k..], text[offset..])
    {
      assert added[k..][1..] == added[k + 1..];
      if added[k].content <= text[offset..] {
        return Some(added[k]);
      }
    }
    return None;
  }

  lemma AppendAssociates<T>(a: Result<seq<T>>, b: Result<seq<T>>, c: Result<seq<T>>)
    ensures Append(Append(a, b), c) == Append(a, Append(b, c))
  {
    if a.Ok? && b.Ok? {
      PrependPrepend(a.value, b.value, c);
    }
  }

  /** Emitting one added token moves the finished part past the pending text and the token. */
  lemma EncodeAdvances(tk: Tables, result: seq<Token>, pending: Text, rest: Text)
    requires AddedNonEmpty(tk.added) && rest != [] && FirstMatch(tk.added, rest).Some?
    ensures var a := FirstMatch(tk.added, rest).value;
            Append(Ok(result), EncodeFrom(tk, pending, rest))
            == Append(Append(Append(Ok(result), Flush(tk, pending)), Ok([a.id])), EncodeFrom(tk, [], rest[|a.content|..]))
  {
    var a := FirstMatch(tk.added, rest).value;
    var tail := EncodeFrom(tk, [], rest[|a.content|..]);
    AppendAssociates(Ok(result), Append(Flush(tk, pending), Ok([a.id])), tail);
    AppendAssociates(Ok(result), Flush(tk, pending), Ok([a.id]));
  }

  lemma EncodeSkips(tk: Tables, text: Text, begin: nat, offset: nat)
    requires AddedNonEmpty(tk.added) && begin <= offset < |text| && FirstMatch(tk.added, text[offset..]).None?
    ensures EncodeFrom(tk, text[begin..offset], text[offset..]) == EncodeFrom(tk, text[begin..offset + 1], text[offset + 1..])
  {
    assert text[begin..offset] + [text[offset..][0]] == text[begin..offset + 1];
    assert text[offset..][1..] == text[offset + 1..];
  }

  lemma EncodeEnds(tk: Tables, text: Text, begin: nat)
    requires AddedNonEmpty(tk.added) && begin <= |text|
    ensures EncodeFrom(tk, text[begin..|text|], text[|text|..]) == Flush(tk, text[begin..])
  {
    assert text[|text|..] == [] && text[begin..|text|] == text[begin..];
  }

  /** `Tokenizer::Encode`. */
  method Encode(tk: Tables, text: Text) returns (r: Result<seq<Token>>)
    requires AddedNonEmpty(tk.added)
    ensures r == EncodeSpec(tk, text)
  {
    hide EncodeFrom, OrdinarySpec, FirstMatch;
    var result: seq<Token> := [];
    var ordinaryBegin, offset := 0, 0;
    assert text[0..] == text && text[0..0] == [];
    while offset < |text|
      invariant 0 <= ordinaryBegin <= offset <= |text|
      invariant EncodeSpec(tk, text) ==
        Append(Ok(result), EncodeFrom(tk, text[ordinaryBegin..offset], text[offset..]))
    {
      var matched := MatchAdded(tk.added, text, offset);
      if matched.None? {
        EncodeSkips(tk, text, ordinaryBegin, offset);
        offset := offset + 1;
        continue;
      }
      EncodeAdvances(tk, result, text[ordinaryBegin..offset], text[offset..]);
      if offset > ordinaryBegin {
        var ordinary := EncodeOrdinary(tk, text[ordinaryBegin..offset]);
        if ordinary.Err? {
          return ordinary;
        }
        result := result + ordinary.value;
      } else {
        EmptyUnits(result);
      }
      result := result + [matched.value.id];
      assert text[offset..][|matched.value.content|..] == text[offset + |matched.value.content|..];
      offset := offset + |matched.value.content|;
      ordinaryBegin := offset;
      assert text[ordinaryBegin..offset] == [];
    }
    EncodeEnds(tk, text, ordinaryBegin);
    if ordinaryBegin < |text| {
      var ordinary := EncodeOrdinary(tk, text[ordinaryBegin..]);
      if ordinary.Err? {
        return ordinary;
      }
      result := result + ordinary.value;
    } else {
      EmptyUnits(result);
    }
    return Ok(result);
  }

  // ---------------------------------------------------------------- empty added tokens

  /** The loop of `Encode` on any table: its two indices, or nothing once it has returned. */
  datatype Scan = Running(begin: nat, offset: nat) | Returned

  ghost function ScanStep(tk: Tables, text: Text, s: Scan): Scan {
    if s.Returned? || s.begin > s.offset || s.offset >= |text| then Returned
    else
      var matched := FirstMatch(tk.added, text[s.offset..]);
      if matched.None? then Running(s.begin, s.offset + 1)
      else if s.offset > s.begin && OrdinarySpec(tk, text[s.begin..s.offset]).Err? then Returned
      else
        var next := s.offset + |matched.value.content|;
        Running(next, next)
  }

  ghost function ScanFrom(tk: Tables, text: Text, s: Scan, steps: nat): Scan
    decreases steps
  {
    if steps == 0 then s else ScanFrom(tk, text, ScanStep(tk, text, s), steps - 1)
  }

  ghost predicate Returns(tk: Tables, text: Text, s: Scan) {
    exists n: nat :: ScanFrom(tk, text, s, n).Returned?
  }

  /** The scan gets, without an error, to a place where an empty added token matches first. */
  ghost predicate Stalls(tk: Tables, text: Text, begin: nat, offset: nat)
    requires begin <= offset <= |text|
    decreases |text| - offset
  {
    offset < |text| &&
      var matched := FirstMatch(tk.added, text[offset..]);
      if matched.None? then Stalls(tk, text, begin, offset + 1)
      else
        && (offset > begin ==> OrdinarySpec(tk, text[begin..offset]).Ok?)
        && var next := offset + |matched.value.content|;
           next == offset || Stalls(tk, text, next, next)
  }

  lemma {:induction false} NoProgress(tk: Tables, text: Text, offset: nat, n: nat)
    requires offset < |text| && FirstMatch(tk.added, text[offset..]).Some?
    requires FirstMatch(tk.added, text[offset..]).value.content == []
    ensures ScanFrom(tk, text, Running(offset, offset), n) == Running(offset, offset)
  {
    hide FirstMatch;
    if n > 0 {
      NoProgress(tk, text, offset, n - 1);
    }
  }

  lemma ReturnsNext(tk: Tables, text: Text, s: Scan)
    requires s.Running?
    ensures Returns(tk, text, s) <==> Returns(tk, text, ScanStep(tk, text, s))
  {
    hide ScanStep;
    if n: nat :| ScanFrom(tk, text, s, n).Returned? {
      assert ScanFrom(tk, text, ScanStep(tk, text, s), n - 1).Returned?;
    }
    if n: nat :| ScanFrom(tk, text, ScanStep(tk, text, s), n).Returned? {
      assert ScanFrom(tk, text, s, n + 1).Returned?;
    }
  }

  /** Main result: on any table the loop returns if and only if it does not stall. */
  lemma {:induction false} ScanReturnsExactly(tk: Tables, text: Text, begin: nat, offset: nat)
    requires begin <= offset <= |text|
    ensures Returns(tk, text, Running(begin, offset)) <==> !Stalls(tk, text, begin, offset)
    decreases |text| - offset
  {
    hide FirstMatch, OrdinarySpec, ScanFrom, Returns;
    var s := Running(begin, offset);
    ReturnsNext(tk, text, s);
    var next := ScanStep(tk, text, s);
    if next.Returned? {
      ReturnsNow(tk, text);
    } else if next.offset > offset {
      ScanReturnsExactly(tk, text, next.begin, next.offset);
    } else {
      StaysRunning(tk, text, offset);
    }
  }

  lemma ReturnsNow(tk: Tables, text: Text)
    ensures Returns(tk, text, Returned)
  {
    assert ScanFrom(tk, text, Returned, 0).Returned?;
  }

  lemma StaysRunning(tk: Tables, text: Text, offset: nat)
    requires offset < |text| && FirstMatch(tk.added, text[offset..]).Some?
    requires FirstMatch(tk.added, text[offset..]).value.content == []
    ensures !Returns(tk, text, Running(offset, offset))
  {
    forall n: nat
      ensures !ScanFrom(tk, text, Running(offset, offset), n).Returned?
    {
      NoProgress(tk, text, offset, n);
    }
  }

  /** With nonempty added tokens the loop returns on every text. */
  lemma {:induction false} NonEmptyNeverStalls(tk: Tables, text: Text, begin: nat, offset: nat)
    requires AddedNonEmpty(tk.added) && begin <= offset <= |text|
    ensures !Stalls(tk, text, begin, offset)
    decreases |text| - offset
  {
    hide OrdinarySpec;
    if offset < |text| {
      var matched := FirstMatch(tk.added, text[offset..]);
      if matched.None? {
        NonEmptyNeverStalls(tk, text, begin, offset + 1);
      } else {
        var next := offset + |matched.value.content|;
        NonEmptyNeverStalls(tk, text, next, next);
      }
    }
  }

  /** With an empty one it returns on no text that starts with no other added token. */
  lemma EmptyTokenStalls(tk: Tables, text: Text, k: nat)
    requires text != [] && k < |tk.added| && tk.added[k].content == []
    requires forall a :: a in tk.added && a.content <= text ==> a.content == []
    ensures !Returns(tk, text, Running(0, 0))
  {
    assert text[0..] == text;
    assert tk.added[k].content <= text;
    ScanReturnsExactly(tk, text, 0, 0);
  }

  // ---------------------------------------------------------------- composition

  /** The scan of `rest` emits an added token that starts exactly `k` bytes ahead. */
  ghost predicate EmitsAt(added: seq<AddedToken>, rest: Text, k: nat)
    requires AddedNonEmpty(added)
    decreases |rest|
  {
    rest != [] &&
    var matched := FirstMatch(added, rest);
    if matched.None? then k > 0 && EmitsAt(added, rest[1..], k - 1)
    else k == 0 || (k >= |matched.value.content| && EmitsAt(added, rest[|matched.value.content|..], k - |matched.value.content|))
  }

  lemma {:induction false} FirstMatchOfPrefix(added: seq<AddedToken>, s: Text, t: Text)
    requires var r := FirstMatch(added, s + t); r.Some? ==> |r.value.content| <= |s|
    ensures FirstMatch(added, s) == FirstMatch(added, s + t)
  {
    if added != [] {
      var c := added[0].content;
      if c <= s {
        assert c <= s + t;
      } else {
        assert !(c <= s + t);
        FirstMatchOfPrefix(added[1..], s, t);
      }
    }
  }

  /** Main result: encoding splits wherever the scan emits an added token, errors included. */
  lemma {:induction false} EncodeComposes(tk: Tables, pending: Text, s: Text, t: Text)
    requires AddedNonEmpty(tk.added)
    requires EmitsAt(tk.added, s + t, |s|)
    ensures EncodeFrom(tk, pending, s + t) == Append(EncodeFrom(tk, pending, s), EncodeSpec(tk, t))
    decreases |s|
  {
    var matched := FirstMatch(tk.added, s + t);
    if s == [] {
      assert s + t == t;
      var a := matched.value;
      var tail := EncodeFrom(tk, [], t[|a.content|..]);
      AppendAssociates(Flush(tk, pending), Ok([a.id]), tail);
      AppendAssociates(Flush(tk, []), Ok([a.id]), tail);
      assert Append(Flush(tk, []), Append(Ok([a.id]), tail)) == Append(Ok([a.id]), tail);
    } else {
      FirstMatchOfPrefix(tk.added, s, t);
      if matched.None? {
        assert (s + t)[1..] == s[1..] + t;
        EncodeComposes(tk, pending + [s[0]], s[1..], t);
      } else {
        var a := matched.value;
        var n := |a.content|;
        assert (s + t)[n..] == s[n..] + t;
        EncodeComposes(tk, [], s[n..], t);
        AppendAssociates(Append(Flush(tk, pending), Ok([a.id])), EncodeFrom(tk, [], s[n..]), EncodeSpec(tk, t));
      }
    }
  }
}
