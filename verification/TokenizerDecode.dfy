/** Decoding, and the encode/decode round trip. */
module TokenizerDecode {
  import opened Wrappers
  import opened Seqs
  import opened Text
  import opened Utf8
  import opened Bpe
  import opened Tokenizer

  predicate Present(tk: Tables, id: Token) {
    id < |tk.tokens| && tk.tokens[id] != []
  }

  /** What one token contributes to the decoded text. */
  function Piece(tk: Tables, id: Token): Text
    requires Present(tk, id)
  {
    var token := tk.tokens[id];
    if id in tk.special then token
    else
      var fallback := ParseByteFallback(token);
      if fallback.Some? then [fallback.value] else Unmark(token)
  }

  function DecodeSpec(tk: Tables, ids: seq<Token>, skipSpecial: bool): (r: Result<Text>)
    ensures r.Err? ==> r.code == InvalidArgument
  {
    if ids == [] then Ok([])
    else if !Present(tk, ids[0]) then Err(InvalidArgument)
    else
      var head := if skipSpecial && ids[0] in tk.special then [] else Piece(tk, ids[0]);
      Prepend(head, DecodeSpec(tk, ids[1..], skipSpecial))
  }

  lemma UnmarkStep(token: Text, begin: nat)
    requires begin < |token| && !(MARKER <= token[begin..])
    ensures Unmark(token[begin..]) == [token[begin]] + Unmark(token[begin + 1..])
  {
    assert token[begin..][1..] == token[begin + 1..];
  }

  lemma UnmarkAtMarker(token: Text, at: nat)
    requires at <= |token| && MARKER <= token[at..]
    ensures at + 3 <= |token| && Unmark(token[at..]) == [SPACE] + Unmark(token[at + 3..])
  {
    assert token[at..][3..] == token[at + 3..];
  }

  lemma UnmarkNothing(token: Text)
    ensures Unmark(token[|token|..]) == []
  {
  }

  /** Up to the leftmost marker nothing changes. */
  lemma {:induction false} UnmarkUpTo(token: Text, begin: nat, end: nat)
    requires begin <= end <= |token|
    requires forall i :: begin <= i < end ==> !(MARKER <= token[i..])
    ensures Unmark(token[begin..]) == token[begin..end] + Unmark(token[end..])
    decreases |token| - begin
  {
    if begin < end {
      UnmarkUpTo(token, begin + 1, end);
      UnmarkStep(token, begin);
      assert token[begin..end] == [token[begin]] + token[begin + 1..end];
      Assoc([token[begin]], token[begin + 1..end], Unmark(token[end..]));
    } else {
      EmptyUnits(Unmark(token[end..]));
      assert token[begin..end] == [];
    }
  }

  /** The inner loop of `Decode`: copy up to the next marker, write a space, continue. */
  method AppendUnmarked(token: Text, prefix: Text) returns (result: Text)
    ensures result == prefix + Unmark(token)
  {
    hide Unmark;
    result := prefix;
    var begin := 0;
    assert token[0..] == token;
    while begin < |token|
      invariant 0 <= begin <= |token|
      invariant result + Unmark(token[begin..]) == prefix + Unmark(token)
    {
      var marker := Find(token, MARKER, begin);
      FindIsLeftmost(token, MARKER, begin);
      if marker.None? {
        UnmarkUpTo(token, begin, |token|);
        UnmarkNothing(token);
        EmptyUnits(token[begin..|token|]);
        return result + token[begin..];
      }
      var at := marker.value;
      UnmarkUpTo(token, begin, at);
      UnmarkAtMarker(token, at);
      Assoc(result, token[begin..at], Unmark(token[at..]));
      Assoc(result + token[begin..at], [SPACE], Unmark(token[at + 3..]));
      result := result + token[begin..at] + [SPACE];
      begin := at + |MARKER|;
    }
    UnmarkNothing(token);
    EmptyUnits(result);
  }

  /** `Tokenizer::Decode`. */
  method Decode(tk: Tables, ids: seq<Token>, skipSpecial: bool) returns (r: Result<Text>)
    ensures r == DecodeSpec(tk, ids, skipSpecial)
  {
    var result: Text := [];
    assert ids[0..] == ids;
    for k := 0 to |ids|
      invariant DecodeSpec(tk, ids, skipSpecial) == Prepend(result, DecodeSpec(tk, ids[k..], skipSpecial))
    {
      var id := ids[k];
      ghost var tail := DecodeSpec(tk, ids[k + 1..], skipSpecial);
      assert ids[k..][1..] == ids[k + 1..];
      if id >= |tk.tokens| || tk.tokens[id] == [] {
        return Err(InvalidArgument);
      }
      if skipSpecial && id in tk.special {
        PrependPrepend(result, [], tail);
        assert result + [] == result;
        continue;
      }
      PrependPrepend(result, Piece(tk, id), tail);
      var token := tk.tokens[id];
      if id in tk.special {
        result := result + token;
        continue;
      }
      var fallback := ParseByteFallback(token);
      if fallback.Some? {
        result := result + [fallback.value];
        continue;
      }
      result := AppendUnmarked(token, result);
    }
    assert ids[|ids|..] == [];
    return Ok(result);
  }

  /** Decoding is a homomorphism, so text can be decoded token by token. */
  lemma {:induction false} DecodeConcat(tk: Tables, a: seq<Token>, b: seq<Token>, skipSpecial: bool)
    ensures DecodeSpec(tk, a + b, skipSpecial) == Append(DecodeSpec(tk, a, skipSpecial), DecodeSpec(tk, b, skipSpecial))
  {
    if a == [] {
      assert a + b == b;
    } else {
      assert (a + b)[1..] == a[1..] + b;
      DecodeConcat(tk, a[1..], b, skipSpecial);
      if Present(tk, a[0]) {
        var head := if skipSpecial && a[0] in tk.special then [] else Piece(tk, a[0]);
        AppendAssociates(Ok(head), DecodeSpec(tk, a[1..], skipSpecial), DecodeSpec(tk, b, skipSpecial));
      }
    }
  }

  // ---------------------------------------------------------------- the round trip

  /** The token table holds every nonempty vocabulary text under its ID. */
  ghost predicate VocabularyAgrees(tk: Tables) {
    forall t :: t in tk.vocabulary && t != [] ==> tk.vocabulary[t] < |tk.tokens| && tk.tokens[tk.vocabulary[t]] == t
  }

  /** A token that stands for a byte or that is copied verbatim. */
  predicate Reserved(tk: Tables, id: Token) {
    id in tk.special || (id < |tk.tokens| && ParseByteFallback(tk.tokens[id]).Some?)
  }

  /** The merge of `p` results in the token of the joined text. */
  ghost predicate Joins(tk: Tables, p: Pair)
    requires p in tk.merges
  {
    && p.0 < |tk.tokens| && p.1 < |tk.tokens| && tk.merges[p].result < |tk.tokens|
    && tk.tokens[tk.merges[p].result] == tk.tokens[p.0] + tk.tokens[p.1]
  }

  /** Every merge joins two unreserved tokens into the unreserved token of the joined text. */
  ghost predicate MergesAgree(tk: Tables) {
    forall p :: p in tk.merges ==>
      && Joins(tk, p)
      && !Reserved(tk, p.0) && !Reserved(tk, p.1) && !Reserved(tk, tk.merges[p].result)
  }

  /** Added tokens are nonempty, agree with the vocabulary, and do not look like bytes. */
  ghost predicate AddedAgree(tk: Tables) {
    forall k :: 0 <= k < |tk.added| ==>
      var a := tk.added[k];
      && a.content != [] && a.id < |tk.tokens| && tk.tokens[a.id] == a.content
      && (a.id !in tk.special ==> ParseByteFallback(a.content).None?)
  }

  ghost predicate Consistent(tk: Tables) {
    && VocabularyAgrees(tk)
    && MARKER in tk.vocabulary && tk.vocabulary[MARKER] !in tk.special
    && MergesAgree(tk)
    && AddedAgree(tk)
    && forall b: Byte :: FallbackText(b) in tk.vocabulary ==> tk.vocabulary[FallbackText(b)] !in tk.special
  }

  /** The tokens that the merge loop can meet: reserved ones, or whole-character texts. */
  ghost predicate Whole(tk: Tables, id: Token) {
    Present(tk, id) && (Reserved(tk, id) || WholeCharacters(tk.tokens[id]))
  }

  ghost predicate AllWhole(tk: Tables, s: seq<Token>) {
    forall i :: 0 <= i < |s| ==> Whole(tk, s[i])
  }

  /** The concatenated contributions of `s`. */
  ghost function Spell(tk: Tables, s: seq<Token>): Text
    requires AllWhole(tk, s)
  {
    if s == [] then [] else Piece(tk, s[0]) + Spell(tk, s[1..])
  }

  lemma {:induction false} SpellConcat(tk: Tables, a: seq<Token>, b: seq<Token>)
    requires AllWhole(tk, a) && AllWhole(tk, b)
    ensures AllWhole(tk, a + b) && Spell(tk, a + b) == Spell(tk, a) + Spell(tk, b)
  {
    if a == [] {
      EmptyUnits(b);
      EmptyUnits(Spell(tk, b));
    } else {
      SpellConcat(tk, a[1..], b);
      TailOfConcat(a, b);
      Assoc(Piece(tk, a[0]), Spell(tk, a[1..]), Spell(tk, b));
    }
  }

  lemma {:induction false} DecodeIsSpell(tk: Tables, s: seq<Token>)
    requires AllWhole(tk, s)
    ensures DecodeSpec(tk, s, false) == Ok(Spell(tk, s))
  {
    if s != [] {
      assert Whole(tk, s[0]);
      DecodeIsSpell(tk, s[1..]);
    }
  }

  /** One merge joins the contributions of its two tokens. */
  lemma MergePiece(tk: Tables, p: Pair)
    requires MergesAgree(tk) && p in tk.merges && Whole(tk, p.0) && Whole(tk, p.1)
    ensures Whole(tk, tk.merges[p].result)
    ensures Piece(tk, tk.merges[p].result) == Piece(tk, p.0) + Piece(tk, p.1)
  {
    WholeCharactersConcat(tk.tokens[p.0], tk.tokens[p.1]);
    UnmarkConcat(tk.tokens[p.0], tk.tokens[p.1]);
  }

  lemma SpellCons(tk: Tables, id: Token, rest: seq<Token>)
    requires Whole(tk, id) && AllWhole(tk, rest)
    ensures AllWhole(tk, [id] + rest) && Spell(tk, [id] + rest) == Piece(tk, id) + Spell(tk, rest)
  {
    assert ([id] + rest)[1..] == rest;
  }

  lemma SpellTwo(tk: Tables, s: seq<Token>)
    requires |s| >= 2 && AllWhole(tk, s)
    ensures Whole(tk, s[0]) && Whole(tk, s[1]) && AllWhole(tk, s[2..])
    ensures Spell(tk, s) == (Piece(tk, s[0]) + Piece(tk, s[1])) + Spell(tk, s[2..])
  {
    assert s == [s[0]] + ([s[1]] + s[2..]);
    SpellCons(tk, s[1], s[2..]);
    SpellCons(tk, s[0], [s[1]] + s[2..]);
    Assoc(Piece(tk, s[0]), Piece(tk, s[1]), Spell(tk, s[2..]));
  }

  lemma {:induction false} ReplaceAllSpell(tk: Tables, s: seq<Token>, p: Pair)
    requires MergesAgree(tk) && p in tk.merges && AllWhole(tk, s)
    ensures var r := ReplaceAll(s, p, tk.merges[p].result); AllWhole(tk, r) && Spell(tk, r) == Spell(tk, s)
  {
    var c := tk.merges[p].result;
    if |s| < 2 {
    } else if At(s, 0) == p {
      ReplaceAllSpell(tk, s[2..], p);
      SpellTwo(tk, s);
      MergePiece(tk, p);
      SpellCons(tk, c, ReplaceAll(s[2..], p, c));
    } else {
      ReplaceAllSpell(tk, s[1..], p);
      HeadAndTail(s);
      assert Whole(tk, s[0]);
      SpellCons(tk, s[0], ReplaceAll(s[1..], p, c));
    }
  }

  /** The whole merge loop preserves the spelled text. */
  lemma {:induction false} BatchedSpell(tk: Tables, s: seq<Token>)
    requires MergesAgree(tk) && AllWhole(tk, s)
    ensures AllWhole(tk, Batched(s, tk.merges)) && Spell(tk, Batched(s, tk.merges)) == Spell(tk, s)
    decreases |s|
  {
    var b := BestPair(s, tk.merges);
    if b.Some? {
      BestOccurs(s, tk.merges);
      ReplaceShortens(s, b.value, tk.merges[b.value].result);
      ReplaceAllSpell(tk, s, b.value);
      BatchedSpell(tk, ReplaceAll(s, b.value, tk.merges[b.value].result));
    }
  }

  lemma {:induction false} FallbackSpell(tk: Tables, bytes: Text)
    requires Consistent(tk) && FallbackSymbols(tk, bytes).Ok?
    ensures var s := FallbackSymbols(tk, bytes).value; AllWhole(tk, s) && Spell(tk, s) == bytes
  {
    if bytes != [] {
      FallbackSpell(tk, bytes[1..]);
      FallbackRoundTrip(bytes[0]);
      var id := tk.vocabulary[FallbackText(bytes[0])];
      var rest := FallbackSymbols(tk, bytes[1..]).value;
      assert Whole(tk, id) && Piece(tk, id) == [bytes[0]];
      assert ([id] + rest)[1..] == rest;
    }
  }

  lemma CharacterSpell(tk: Tables, c: Text)
    requires Consistent(tk) && IsCharacter(c) && CharacterSymbols(tk, c).Ok?
    ensures var s := CharacterSymbols(tk, c).value; AllWhole(tk, s) && Spell(tk, s) == CharacterText(c)
  {
    if c in tk.vocabulary {
      var id := tk.vocabulary[c];
      UnmarkCharacter(c, []);
      assert c + [] == c;
      SplitFlatten([c]);
      assert Flatten([c]) == c + Flatten([]) == c;
      assert Spell(tk, [id]) == Piece(tk, id) + Spell(tk, []);
    } else {
      FallbackSpell(tk, c);
    }
  }

  lemma {:induction false} InitialSpell(tk: Tables, characters: seq<Text>)
    requires Consistent(tk) && InitialSymbols(tk, characters).Ok?
    requires forall c :: c in characters ==> IsCharacter(c)
    ensures var s := InitialSymbols(tk, characters).value;
            AllWhole(tk, s) && Spell(tk, s) == Unmark(Flatten(characters))
  {
    if characters != [] {
      var c, rest := characters[0], characters[1..];
      assert c in characters;
      InitialSpell(tk, rest);
      CharacterSpell(tk, c);
      SpellConcat(tk, CharacterSymbols(tk, c).value, InitialSymbols(tk, rest).value);
      UnmarkCharacter(c, Flatten(rest));
    }
  }

  /** Ordinary text reads back with every marker turned into a space. */
  lemma OrdinaryReadsBack(tk: Tables, text: Text)
    requires Consistent(tk) && OrdinarySpec(tk, text).Ok?
    ensures DecodeSpec(tk, OrdinarySpec(tk, text).value, false) == Ok(Unmark(text))
  {
    var normalized := Normalize(text);
    var characters := Split(normalized).value;
    var symbols := InitialSymbols(tk, characters).value;
    InitialSpell(tk, characters);
    FlattenSplit(normalized);
    UnmarkNormalize(text);
    BatchedSpell(tk, symbols);
    DecodeIsSpell(tk, Batched(symbols, tk.merges));
  }

  /** What the scan of a text reads back as, segment by segment. */
  ghost function Readback(tk: Tables, pending: Text, rest: Text): Text
    requires AddedNonEmpty(tk.added)
    decreases |rest|
  {
    if rest == [] then Unmark(pending)
    else
      var matched := FirstMatch(tk.added, rest);
      if matched.None? then Readback(tk, pending + [rest[0]], rest[1..])
      else
        var a := matched.value;
        Unmark(pending) + (if a.id in tk.special then a.content else Unmark(a.content))
        + Readback(tk, [], rest[|a.content|..])
  }

  lemma AddedReadsBack(tk: Tables, a: AddedToken)
    requires Consistent(tk) && a in tk.added
    ensures DecodeSpec(tk, [a.id], false) == Ok(if a.id in tk.special then a.content else Unmark(a.content))
  {
    var k :| 0 <= k < |tk.added| && tk.added[k] == a;
    assert DecodeSpec(tk, [a.id], false) == Prepend(Piece(tk, a.id), DecodeSpec(tk, [], false));
  }

  /** Every successful encoding decodes to the read-back of its scan, for every text. */
  lemma {:induction false} EncodeReadsBack(tk: Tables, pending: Text, rest: Text)
    requires Consistent(tk) && AddedNonEmpty(tk.added) && EncodeFrom(tk, pending, rest).Ok?
    ensures DecodeSpec(tk, EncodeFrom(tk, pending, rest).value, false) == Ok(Readback(tk, pending, rest))
    decreases |rest|
  {
    if pending != [] && Flush(tk, pending).Ok? {
      OrdinaryReadsBack(tk, pending);
    }
    if rest != [] {
      var matched := FirstMatch(tk.added, rest);
      if matched.None? {
        EncodeReadsBack(tk, pending + [rest[0]], rest[1..]);
      } else {
        var a := matched.value;
        var tail := EncodeFrom(tk, [], rest[|a.content|..]);
        var head := Flush(tk, pending).value;
        EncodeReadsBack(tk, [], rest[|a.content|..]);
        AddedReadsBack(tk, a);
        DecodeConcat(tk, head, [a.id], false);
        DecodeConcat(tk, head + [a.id], tail.value, false);
      }
    }
  }

  lemma PrefixFree(text: Text, pattern: Text, from: nat, to: nat)
    requires from <= to <= |text| && !Contains(text, pattern)
    ensures !Contains(text[from..to], pattern)
  {
    var t := text[from..to];
    forall i | 0 <= i <= |t|
      ensures !(pattern <= t[i..])
    {
      assert t[i..] <= text[from + i..];
    }
  }

  lemma ConcatMarkerFree(a: Text, b: Text)
    requires !Contains(a + b, MARKER)
    ensures !Contains(a, MARKER) && !Contains(b, MARKER) && Unmark(a) == a
  {
    PrefixFree(a + b, MARKER, 0, |a|);
    PrefixFree(a + b, MARKER, |a|, |a + b|);
    assert (a + b)[0..|a|] == a && (a + b)[|a|..|a + b|] == b;
    UnmarkFixes(a);
  }

  lemma {:induction false} ReadbackMarkerFree(tk: Tables, pending: Text, rest: Text)
    requires AddedNonEmpty(tk.added) && !Contains(pending + rest, MARKER)
    ensures Readback(tk, pending, rest) == pending + rest
    decreases |rest|
  {
    ConcatMarkerFree(pending, rest);
    if rest == [] {
      EmptyUnits(pending);
    } else {
      var matched := FirstMatch(tk.added, rest);
      if matched.None? {
        HeadAndTail(rest);
        Assoc(pending, [rest[0]], rest[1..]);
        ReadbackMarkerFree(tk, pending + [rest[0]], rest[1..]);
      } else {
        var content := matched.value.content;
        var tail := rest[|content|..];
        assert rest == content + tail;
        ConcatMarkerFree(content, tail);
        EmptyUnits(tail);
        ReadbackMarkerFree(tk, [], tail);
        Assoc(pending, content, tail);
      }
    }
  }

  /** Main result: a text without U+2581 that encodes at all decodes to itself. */
  lemma RoundTrip(tk: Tables, text: Text)
    requires Consistent(tk) && AddedNonEmpty(tk.added)
    requires EncodeSpec(tk, text).Ok? && !Contains(text, MARKER)
    ensures DecodeSpec(tk, EncodeSpec(tk, text).value, false) == Ok(text)
  {
    EncodeReadsBack(tk, [], text);
    assert [] + text == text;
    ReadbackMarkerFree(tk, [], text);
  }

  /** Added tokens are whole characters, and the verbatim ones do not hold the marker. */
  ghost predicate AddedPlain(tk: Tables) {
    forall a :: a in tk.added ==>
      WholeCharacters(a.content) && (a.id in tk.special ==> !Contains(a.content, MARKER))
  }

  lemma UnmarkAcrossAdded(tk: Tables, pending: Text, a: AddedToken, tail: Text)
    requires AddedPlain(tk) && a in tk.added && Flush(tk, pending).Ok?
    ensures Unmark(pending + (a.content + tail))
         == Unmark(pending) + (if a.id in tk.special then a.content else Unmark(a.content)) + Unmark(tail)
  {
    UnmarkFixes(a.content);
    UnmarkConcat(a.content, tail);
    if pending != [] {
      UnmarkConcatNormalized(pending, a.content + tail);
    } else {
      assert pending + (a.content + tail) == a.content + tail;
    }
  }

  lemma {:induction false} ReadbackIsUnmark(tk: Tables, pending: Text, rest: Text)
    requires AddedNonEmpty(tk.added) && AddedPlain(tk) && EncodeFrom(tk, pending, rest).Ok?
    ensures Readback(tk, pending, rest) == Unmark(pending + rest)
    decreases |rest|
  {
    if rest == [] {
      assert pending + rest == pending;
    } else {
      var matched := FirstMatch(tk.added, rest);
      if matched.None? {
        assert pending + [rest[0]] + rest[1..] == pending + rest;
        ReadbackIsUnmark(tk, pending + [rest[0]], rest[1..]);
      } else {
        var a := matched.value;
        var tail := rest[|a.content|..];
        assert rest == a.content + tail;
        ReadbackIsUnmark(tk, [], tail);
        assert [] + tail == tail;
        UnmarkAcrossAdded(tk, pending, a, tail);
      }
    }
  }

  /** Exactness: with plain added tokens the round trip holds exactly for texts without U+2581. */
  lemma RoundTripExactly(tk: Tables, text: Text)
    requires Consistent(tk) && AddedNonEmpty(tk.added) && AddedPlain(tk)
    requires EncodeSpec(tk, text).Ok?
    ensures DecodeSpec(tk, EncodeSpec(tk, text).value, false) == Ok(text) <==> !Contains(text, MARKER)
  {
    EncodeReadsBack(tk, [], text);
    assert [] + text == text;
    ReadbackIsUnmark(tk, [], text);
    UnmarkFixes(text);
  }

  /** A nonempty text never encodes to an empty token list. */
  lemma {:induction false} EncodeNonEmpty(tk: Tables, pending: Text, rest: Text)
    requires AddedNonEmpty(tk.added)
    requires EncodeFrom(tk, pending, rest).Ok? && pending + rest != []
    ensures EncodeFrom(tk, pending, rest).value != []
    decreases |rest|
  {
    if rest == [] {
      var characters := Split(Normalize(pending)).value;
      FlattenSplit(Normalize(pending));
      assert characters != [];
      if characters[0] in tk.vocabulary {
      } else {
        assert characters[0] in characters;
      }
      BatchedIsNormal(InitialSymbols(tk, characters).value, tk.merges);
    } else if FirstMatch(tk.added, rest).None? {
      EncodeNonEmpty(tk, pending + [rest[0]], rest[1..]);
    }
  }
}
