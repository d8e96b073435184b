/** What ordinary text hands to merging, character by character. */
module TokenizerInput {
  import opened Wrappers
  import opened Seqs
  import opened Text
  import opened Utf8
  import opened Bpe
  import opened Tokenizer

  // ---------------------------------------------------------------- one character

  /** The vocabulary text of a character: U+2581 for a space, the character itself otherwise. */
  function Looked(c: Text): Text {
    if c == [0x20] then [0xE2, 0x96, 0x81] else c
  }

  const DIGITS: seq<Byte> := [0x30, 0x31, 0x32, 0x33, 0x34, 0x35, 0x36, 0x37, 0x38, 0x39, 0x41, 0x42, 0x43, 0x44, 0x45, 0x46]

  /** `<0x`, two upper-case hexadecimal digits, `>`. */
  function Spelling(b: Byte): Text {
    [0x3C, 0x30, 0x78, DIGITS[b / 16], DIGITS[b % 16], 0x3E]
  }

  predicate Known(tk: Tables, c: Text) {
    Looked(c) in tk.vocabulary
  }

  /** Every byte of the character has a fallback token. */
  predicate SpelledOut(tk: Tables, c: Text) {
    forall j :: 0 <= j < |Looked(c)| ==> Spelling(Looked(c)[j]) in tk.vocabulary
  }

  /** The tokens in the place of one character: its own ID, or one fallback ID per byte. */
  function Place(tk: Tables, c: Text): seq<Token>
    requires Known(tk, c) || SpelledOut(tk, c)
  {
    var d := Looked(c);
    if d in tk.vocabulary then [tk.vocabulary[d]]
    else seq(|d|, j requires 0 <= j < |d| && SpelledOut(tk, c) => tk.vocabulary[Spelling(d[j])])
  }

  function Chained(places: seq<seq<Token>>): seq<Token> {
    if places == [] then [] else places[0] + Chained(places[1..])
  }

  predicate AllPlaced(tk: Tables, cs: seq<Text>) {
    forall i :: 0 <= i < |cs| ==> Known(tk, cs[i]) || SpelledOut(tk, cs[i])
  }

  function Places(tk: Tables, cs: seq<Text>): seq<seq<Token>>
    requires AllPlaced(tk, cs)
  {
    seq(|cs|, i requires 0 <= i < |cs| => Place(tk, cs[i]))
  }

  lemma SpellingIsFallback(b: Byte)
    ensures FallbackText(b) == Spelling(b)
  {
    assert b >> 4 == b / 16 && b & 0x0F == b % 16;
    DigitIs(b / 16);
    DigitIs(b % 16);
  }

  lemma DigitIs(n: Byte)
    requires n < 16
    ensures HexDigit(n) == DIGITS[n]
  {
  }

  // ---------------------------------------------------------------- the characters of a text

  lemma NormalizeOne(c: Text)
    requires IsCharacter(c)
    ensures Normalize(c) == Looked(c) && IsCharacter(Looked(c))
  {
    if |c| == 1 {
      assert c == [c[0]] && c[1..] == [];
      EmptyUnits(if c[0] == SPACE then MARKER else [c[0]]);
    } else {
      LongHasNoSpace(c);
      NormalizeMarkerFree(c);
    }
  }

  lemma LongHasNoSpace(c: Text)
    requires IsCharacter(c) && |c| > 1
    ensures SPACE !in c
  {
    forall i | 0 <= i < |c|
      ensures c[i] != SPACE
    {
      assert i > 0 ==> IsContinuation(c[i]);
    }
  }

  function AllLooked(cs: seq<Text>): (r: seq<Text>)
    ensures |r| == |cs|
  {
    seq(|cs|, i requires 0 <= i < |cs| => Looked(cs[i]))
  }

  lemma {:induction false} NormalizeCharacters(cs: seq<Text>)
    requires forall c :: c in cs ==> IsCharacter(c)
    ensures Normalize(Flatten(cs)) == Flatten(AllLooked(cs))
    ensures forall c :: c in AllLooked(cs) ==> IsCharacter(c)
  {
    hide IsCharacter;
    if cs != [] {
      assert cs[0] in cs;
      NormalizeOne(cs[0]);
      NormalizeCharacters(cs[1..]);
      NormalizeConcat(cs[0], Flatten(cs[1..]));
      assert AllLooked(cs) == [Looked(cs[0])] + AllLooked(cs[1..]);
    }
  }

  lemma {:induction false} FallbackPlaces(tk: Tables, bytes: Text)
    ensures FallbackSymbols(tk, bytes).Ok? <==> forall j :: 0 <= j < |bytes| ==> Spelling(bytes[j]) in tk.vocabulary
    ensures FallbackSymbols(tk, bytes).Err? ==> FallbackSymbols(tk, bytes) == Err(DataLoss)
    ensures FallbackSymbols(tk, bytes).Ok? ==>
              && |FallbackSymbols(tk, bytes).value| == |bytes|
              && forall j :: 0 <= j < |bytes| ==> FallbackSymbols(tk, bytes).value[j] == tk.vocabulary[Spelling(bytes[j])]
  {
    hide FallbackText, Spelling;
    if bytes != [] {
      SpellingIsFallback(bytes[0]);
      FallbackPlaces(tk, bytes[1..]);
      assert forall j :: 1 <= j < |bytes| ==> bytes[j] == bytes[1..][j - 1];
    }
  }

  lemma CharacterPlace(tk: Tables, c: Text)
    ensures CharacterSymbols(tk, Looked(c))
         == if Known(tk, c) || SpelledOut(tk, c) then Ok(Place(tk, c)) else Err(DataLoss)
  {
    hide FallbackSymbols, Spelling;
    if !Known(tk, c) {
      FallbackPlaces(tk, Looked(c));
      if SpelledOut(tk, c) {
        assert FallbackSymbols(tk, Looked(c)).value == Place(tk, c);
      }
    }
  }

  lemma {:induction false} InitialPlaces(tk: Tables, cs: seq<Text>)
    ensures InitialSymbols(tk, AllLooked(cs)) == if AllPlaced(tk, cs) then Ok(Chained(Places(tk, cs))) else Err(DataLoss)
  {
    hide Known, SpelledOut, Place, CharacterSymbols, Looked;
    if cs != [] {
      CharacterPlace(tk, cs[0]);
      InitialPlaces(tk, cs[1..]);
      assert AllLooked(cs)[1..] == AllLooked(cs[1..]);
      assert AllPlaced(tk, cs) <==> (Known(tk, cs[0]) || SpelledOut(tk, cs[0])) && AllPlaced(tk, cs[1..]) by {
        PlacedSplits(tk, cs);
      }
      if AllPlaced(tk, cs) {
        assert Places(tk, cs)[1..] == Places(tk, cs[1..]);
      }
    }
  }

  lemma PlacedSplits(tk: Tables, cs: seq<Text>)
    requires cs != []
    ensures AllPlaced(tk, cs) <==> (Known(tk, cs[0]) || SpelledOut(tk, cs[0])) && AllPlaced(tk, cs[1..])
  {
    hide Known, SpelledOut;
    assert forall i :: 1 <= i < |cs| ==> cs[i] == cs[1..][i - 1];
  }

  /** Main result: ordinary text of whole characters is the merging of its places, in order, or DataLoss
      exactly when some character has neither a token nor fallback tokens for its bytes. */
  lemma OrdinaryIsMerged(tk: Tables, cs: seq<Text>)
    requires forall c :: c in cs ==> IsCharacter(c)
    ensures OrdinarySpec(tk, Flatten(cs))
         == if AllPlaced(tk, cs) then Ok(Batched(Chained(Places(tk, cs)), tk.merges)) else Err(DataLoss)
  {
    hide IsCharacter, AllPlaced, Places, Batched, InitialSymbols, Flatten;
    NormalizeCharacters(cs);
    SplitFlatten(AllLooked(cs));
    InitialPlaces(tk, cs);
  }

  predicate AllKnown(tk: Tables, cs: seq<Text>) {
    forall i :: 0 <= i < |cs| ==> Known(tk, cs[i])
  }

  function KnownIds(tk: Tables, cs: seq<Text>): seq<Token>
    requires AllKnown(tk, cs)
  {
    seq(|cs|, i requires 0 <= i < |cs| => tk.vocabulary[Looked(cs[i])])
  }

  lemma KnownPlaces(tk: Tables, cs: seq<Text>)
    requires AllKnown(tk, cs)
    ensures AllPlaced(tk, cs) && Chained(Places(tk, cs)) == KnownIds(tk, cs)
  {
    hide Looked, SpelledOut, Chained;
    OneEach(Places(tk, cs), KnownIds(tk, cs));
  }

  /** With every character known, merging starts from one token per character. */
  lemma KnownIsMerged(tk: Tables, cs: seq<Text>)
    requires (forall c :: c in cs ==> IsCharacter(c)) && AllKnown(tk, cs)
    ensures OrdinarySpec(tk, Flatten(cs)) == Ok(Batched(KnownIds(tk, cs), tk.merges))
  {
    hide *;
    OrdinaryIsMerged(tk, cs);
    KnownPlaces(tk, cs);
  }

  lemma {:induction false} OneEach(places: seq<seq<Token>>, ids: seq<Token>)
    requires |places| == |ids| && forall i :: 0 <= i < |ids| ==> places[i] == [ids[i]]
    ensures Chained(places) == ids
  {
    if ids != [] {
      OneEach(places[1..], ids[1..]);
      HeadAndTail(ids);
    }
  }

  // ---------------------------------------------------------------- text that is no sequence of characters

  /** Marking spaces neither makes nor breaks a sequence of whole characters. */
  lemma {:induction false} NormalizeKeepsWhole(text: Text)
    requires WholeCharacters(Normalize(text))
    ensures WholeCharacters(text)
  {
    if text != [] {
      if text[0] == SPACE {
        SplitOfConcat(MARKER, Normalize(text[1..]));
        NormalizeKeepsWhole(text[1..]);
        OneSpace(text);
      } else {
        var n := CharLength(text[0]);
        var whole := Normalize(text);
        assert whole[0] == text[0];
        UnchangedUpTo(text, n);
        assert text == text[..n] + text[n..];
        NormalizeConcat(text[..n], text[n..]);
        SplitOfConcat(Normalize(text[..n]), Normalize(text[n..]));
        NormalizeKeepsWhole(text[n..]);
      }
    }
  }

  lemma OneSpace(text: Text)
    requires text != [] && text[0] == SPACE && WholeCharacters(text[1..])
    ensures WholeCharacters(text)
  {
    assert CharLength(text[0]) == 1 && IsCharacter(text[..1]);
  }

  lemma {:induction false} UnchangedUpTo(text: Text, n: nat)
    requires text != [] && text[0] != SPACE && 0 < n <= |Normalize(text)| && IsCharacter(Normalize(text)[..n])
    ensures n <= |text| && Normalize(text[..n]) == text[..n] == Normalize(text)[..n]
    decreases n
  {
    var whole := Normalize(text);
    if n == 1 {
      assert text[..1] == [text[0]] && [text[0]][1..] == [];
      assert whole[..1] == [text[0]];
    } else {
      FollowsUnchanged(text, n, 1);
      NormalizeMarkerFree(text[..n]);
    }
  }

  /** A continuation byte behind text without a space comes from no space. */
  lemma NextByte(text: Text, k: nat)
    requires k <= |text| && SPACE !in text[..k] && k < |Normalize(text)| && IsContinuation(Normalize(text)[k])
    ensures k < |text| && Normalize(text)[k] == text[k] && text[k] != SPACE
  {
    assert text == text[..k] + text[k..];
    NormalizeConcat(text[..k], text[k..]);
    NormalizeMarkerFree(text[..k]);
    assert Normalize(text)[k] == Normalize(text[k..])[0];
  }

  /** Behind a lead byte only continuation bytes follow, and none of them comes from a space. */
  lemma {:induction false} FollowsUnchanged(text: Text, n: nat, k: nat)
    requires text != [] && text[0] != SPACE && 0 < k <= n <= |Normalize(text)| && IsCharacter(Normalize(text)[..n])
    requires k <= |text| && text[..k] == Normalize(text)[..k] && SPACE !in text[..k]
    ensures n <= |text| && text[..n] == Normalize(text)[..n] && SPACE !in text[..n]
    decreases n - k
  {
    hide Normalize, IsContinuation, CharLength;
    if k < n {
      var whole := Normalize(text);
      assert whole[..n][k] == whole[k];
      NextByte(text, k);
      assert text[..k + 1] == text[..k] + [text[k]];
      assert whole[..k + 1] == whole[..k] + [whole[k]];
      FollowsUnchanged(text, n, k + 1);
    }
  }

  /** Any other text is refused, whatever the tables. */
  lemma OtherTextIsRefused(tk: Tables, text: Text)
    requires !WholeCharacters(text)
    ensures OrdinarySpec(tk, text) == Err(InvalidArgument)
  {
    hide InitialSymbols, Batched, Split;
    if WholeCharacters(Normalize(text)) {
      NormalizeKeepsWhole(text);
    }
  }
}
