/** What decoding writes for each token, and what encoding does from the left. */
module DecodedText {
  import opened Wrappers
  import opened Seqs
  import opened Text
  import opened Bpe
  import opened Tokenizer
  import opened TokenizerDecode

  // ---------------------------------------------------------------- byte tokens

  /** The number that a hexadecimal digit of either case stands for, 16 for any other byte. */
  function Digit(b: Byte): nat {
    if 0x30 <= b <= 0x39 then b as nat - 48
    else if 0x41 <= b <= 0x46 then b as nat - 55
    else if 0x61 <= b <= 0x66 then b as nat - 87
    else 16
  }

  lemma HexIsDigit(b: Byte)
    ensures HexValue(b).Some? <==> Digit(b) < 16
    ensures HexValue(b).Some? ==> HexValue(b).value as nat == Digit(b)
  {
  }

  lemma JoinNibbles(hi: Byte, lo: Byte)
    requires hi < 16 && lo < 16
    ensures ((hi << 4) | lo) as nat == 16 * hi as nat + lo as nat
  {
    assert (hi << 4) | lo == 16 * hi + lo;
  }

  /** A token spells a byte exactly when it reads `<0xHH>` with two hexadecimal digits. */
  lemma ParsesExactly(token: Text)
    ensures ParseByteFallback(token).Some?
       <==> && |token| == 6 && token[0] == 0x3C && token[1] == 0x30 && token[2] == 0x78 && token[5] == 0x3E
            && Digit(token[3]) < 16 && Digit(token[4]) < 16
    ensures ParseByteFallback(token).Some? ==>
              ParseByteFallback(token).value as nat == 16 * Digit(token[3]) + Digit(token[4])
  {
    if |token| == 6 {
      assert token[..3] == [token[0], token[1], token[2]];
      HexIsDigit(token[3]);
      HexIsDigit(token[4]);
      if HexValue(token[3]).Some? && HexValue(token[4]).Some? {
        JoinNibbles(HexValue(token[3]).value, HexValue(token[4]).value);
      }
    }
  }

  // ---------------------------------------------------------------- spaces

  /** Texts with a separator between them. */
  function Spaced(head: Text, more: seq<Text>, separator: Text): Text
    decreases |more|
  {
    if more == [] then head else head + (separator + Spaced(more[0], more[1..], separator))
  }

  lemma {:induction false} UnmarkPiece(a: Text, rest: Text)
    requires !Contains(a, MARKER)
    ensures Unmark(a + (MARKER + rest)) == a + ([0x20] + Unmark(rest))
  {
    if a == [] {
      EmptyUnits(MARKER + rest);
      SplitOfConcat(MARKER, rest);
      EmptyUnits([0x20] + Unmark(rest));
    } else {
      TailOfConcat(a, MARKER + rest);
      NoMarkerAhead(a, rest);
      TailHoldsNone(a);
      UnmarkPiece(a[1..], rest);
      HeadAndTail(a);
      Assoc([a[0]], a[1..], [0x20] + Unmark(rest));
    }
  }

  lemma TailHoldsNone(a: Text)
    requires a != [] && !Contains(a, MARKER)
    ensures !Contains(a[1..], MARKER)
  {
    forall i: nat | i <= |a[1..]|
      ensures !(MARKER <= a[1..][i..])
    {
      assert a[1..][i..] == a[i + 1..];
    }
  }

  /** The first byte of the marker does not recur in it. */
  lemma NoMarkerAhead(a: Text, rest: Text)
    requires a != [] && !Contains(a, MARKER)
    ensures !(MARKER <= a + (MARKER + rest))
  {
    var t := a + (MARKER + rest);
    assert a[0..] == a;
    if |a| < 3 {
      assert t[|a|] == 0xE2;
    } else {
      assert t[..3] == a[..3];
    }
  }

  /** Every U+2581 becomes one space, and nothing else changes. */
  lemma {:induction false} UnmarkExactly(head: Text, more: seq<Text>)
    requires !Contains(head, MARKER) && forall i :: 0 <= i < |more| ==> !Contains(more[i], MARKER)
    ensures Unmark(Spaced(head, more, [0xE2, 0x96, 0x81])) == Spaced(head, more, [0x20])
    decreases |more|
  {
    hide Contains, Unmark;
    if more == [] {
      UnmarkFixes(head);
    } else {
      UnmarkPiece(head, Spaced(more[0], more[1..], MARKER));
      UnmarkExactly(more[0], more[1..]);
    }
  }

  // ---------------------------------------------------------------- token by token

  predicate SpellsByte(token: Text) {
    && |token| == 6 && token[0] == 0x3C && token[1] == 0x30 && token[2] == 0x78 && token[5] == 0x3E
    && Digit(token[3]) < 16 && Digit(token[4]) < 16
  }

  predicate HasText(tk: Tables, id: Token) {
    id < |tk.tokens| && tk.tokens[id] != []
  }

  /** The text of one token: a special one verbatim or skipped, a byte, or its text with spaces. */
  function Says(tk: Tables, id: Token, skipSpecial: bool): Text
    requires HasText(tk, id)
  {
    var token := tk.tokens[id];
    if id in tk.special then (if skipSpecial then [] else token)
    else if SpellsByte(token) then [(16 * Digit(token[3]) + Digit(token[4])) as Byte]
    else Unmark(token)
  }

  predicate AllHaveText(tk: Tables, ids: seq<Token>) {
    forall i :: 0 <= i < |ids| ==> HasText(tk, ids[i])
  }

  lemma TextsSplit(tk: Tables, front: seq<Token>, last: Token)
    ensures AllHaveText(tk, front + [last]) <==> AllHaveText(tk, front) && HasText(tk, last)
  {
    hide HasText;
    var ids := front + [last];
    assert ids[|front|] == last && forall i :: 0 <= i < |front| ==> ids[i] == front[i];
  }

  function AllSay(tk: Tables, ids: seq<Token>, skipSpecial: bool): Text
    requires AllHaveText(tk, ids)
  {
    if ids == [] then [] else AllSay(tk, ids[..|ids| - 1], skipSpecial) + Says(tk, ids[|ids| - 1], skipSpecial)
  }

  lemma PieceSays(tk: Tables, id: Token)
    requires HasText(tk, id)
    ensures Present(tk, id)
    ensures Says(tk, id, false) == Piece(tk, id)
    ensures Says(tk, id, true) == if id in tk.special then [] else Piece(tk, id)
  {
    hide ParseByteFallback, Unmark, Digit;
    ParsesExactly(tk.tokens[id]);
  }

  lemma DecodeOne(tk: Tables, id: Token, skipSpecial: bool)
    ensures DecodeSpec(tk, [id], skipSpecial) == if HasText(tk, id) then Ok(Says(tk, id, skipSpecial)) else Err(InvalidArgument)
  {
    hide Piece, Says;
    assert [id][1..] == [];
    if HasText(tk, id) {
      PieceSays(tk, id);
    }
  }

  /** Main result: decoding writes the texts of the tokens one after the other, or is refused exactly for
      a token without a text. */
  lemma {:induction false} DecodedExactly(tk: Tables, ids: seq<Token>, skipSpecial: bool)
    ensures DecodeSpec(tk, ids, skipSpecial)
         == if AllHaveText(tk, ids) then Ok(AllSay(tk, ids, skipSpecial)) else Err(InvalidArgument)
  {
    hide Says, HasText, AllHaveText, Piece, Present;
    if ids == [] {
      NoTexts(tk);
    } else {
      var front, last := ids[..|ids| - 1], ids[|ids| - 1];
      assert ids == front + [last];
      TextsSplit(tk, front, last);
      DecodedExactly(tk, front, skipSpecial);
      DecodeOne(tk, last, skipSpecial);
      DecodeConcat(tk, front, [last], skipSpecial);
    }
  }

  lemma NoTexts(tk: Tables)
    ensures AllHaveText(tk, [])
  {
  }

  /** Skipping drops exactly the special tokens. */
  function Ordinary(tk: Tables, ids: seq<Token>): seq<Token> {
    if ids == [] then []
    else Ordinary(tk, ids[..|ids| - 1]) + if ids[|ids| - 1] in tk.special then [] else [ids[|ids| - 1]]
  }

  lemma {:induction false} SkippedIsDropped(tk: Tables, ids: seq<Token>)
    requires AllHaveText(tk, ids)
    ensures AllHaveText(tk, Ordinary(tk, ids)) && AllSay(tk, ids, true) == AllSay(tk, Ordinary(tk, ids), false)
  {
    hide HasText, AllHaveText;
    if ids == [] {
      NoTexts(tk);
    } else {
      var front, last := ids[..|ids| - 1], ids[|ids| - 1];
      assert ids == front + [last];
      TextsSplit(tk, front, last);
      SkippedIsDropped(tk, front);
      if last in tk.special {
        EmptyUnits(AllSay(tk, front, true));
        EmptyUnits(Ordinary(tk, front));
      } else {
        TextsSplit(tk, Ordinary(tk, front), last);
        SplitOfConcat(Ordinary(tk, front), [last]);
      }
    }
  }

  // ---------------------------------------------------------------- encoding from the left

  /** Entry `k` is the first one in table order that the text starts with. */
  predicate FirstAt(added: seq<AddedToken>, text: Text, k: nat) {
    k < |added| && added[k].content <= text && forall j :: 0 <= j < k ==> !(added[j].content <= text)
  }

  lemma FirstAtLater(added: seq<AddedToken>, text: Text, k: nat)
    requires added != [] && !(added[0].content <= text) && FirstAt(added[1..], text, k)
    ensures FirstAt(added, text, k + 1) && added[k + 1] == added[1..][k]
  {
    assert forall j :: 1 <= j < |added| ==> added[j] == added[1..][j - 1];
  }

  /** Which added token matches: the first one in table order that the text starts with, if any. */
  lemma {:induction false} FirstMatchExactly(added: seq<AddedToken>, text: Text)
    ensures FirstMatch(added, text).None? ==> forall k: nat :: !FirstAt(added, text, k)
    ensures FirstMatch(added, text).Some? ==> exists k: nat :: FirstAt(added, text, k) && added[k] == FirstMatch(added, text).value
  {
    if added != [] {
      if added[0].content <= text {
        assert FirstAt(added, text, 0);
      } else if FirstMatch(added, text).Some? {
        FirstMatchExactly(added[1..], text);
        var k: nat :| FirstAt(added[1..], text, k) && added[1..][k] == FirstMatch(added[1..], text).value;
        FirstAtLater(added, text, k);
      }
    }
  }

  /** No added token matches at any of the first `n` places of the text. */
  ghost predicate NoMatchBefore(added: seq<AddedToken>, text: Text, n: nat)
    requires n <= |text|
  {
    forall i :: 0 <= i < n ==> FirstMatch(added, text[i..]).None?
  }

  lemma {:induction false} PendingGrows(tk: Tables, pending: Text, text: Text, n: nat)
    requires AddedNonEmpty(tk.added) && n <= |text| && NoMatchBefore(tk.added, text, n)
    ensures EncodeFrom(tk, pending, text) == EncodeFrom(tk, pending + text[..n], text[n..])
    decreases n
  {
    hide FirstMatch;
    if n == 0 {
      assert text[..0] == [] && text[0..] == text;
      EmptyUnits(pending);
    } else {
      assert text[0..] == text;
      forall i | 0 <= i < n - 1
        ensures FirstMatch(tk.added, text[1..][i..]).None?
      {
        assert text[1..][i..] == text[i + 1..];
      }
      PendingGrows(tk, pending + [text[0]], text[1..], n - 1);
      assert text[..n] == [text[0]] + text[1..][..n - 1];
      assert text[1..][n - 1..] == text[n..];
      Assoc(pending, [text[0]], text[1..][..n - 1]);
    }
  }

  function OrNothing(text: Text, r: Result<seq<Token>>): Result<seq<Token>> {
    if text == [] then Ok([]) else r
  }

  /** Text in which no added token matches is encoded as ordinary text, as one whole. */
  lemma PlainEncodesWhole(tk: Tables, text: Text)
    requires AddedNonEmpty(tk.added) && NoMatchBefore(tk.added, text, |text|)
    ensures EncodeSpec(tk, text) == OrNothing(text, OrdinarySpec(tk, text))
  {
    hide FirstMatch, OrdinarySpec;
    PendingGrows(tk, [], text, |text|);
    assert text[..|text|] == text && text[|text|..] == [];
    EmptyUnits(text);
  }

  lemma EncodeMatched(tk: Tables, pending: Text, rest: Text)
    requires AddedNonEmpty(tk.added) && rest != [] && FirstMatch(tk.added, rest).Some?
    ensures var a := FirstMatch(tk.added, rest).value;
            EncodeFrom(tk, pending, rest)
            == Append(Append(OrNothing(pending, OrdinarySpec(tk, pending)), Ok([a.id])), EncodeFrom(tk, [], rest[|a.content|..]))
  {
    hide OrdinarySpec, FirstMatch;
  }

  /** Otherwise the text up to the first place where one matches is ordinary, then comes the ID of the
      matching token, and the rest is encoded on its own. */
  lemma EncodesFromTheLeft(tk: Tables, text: Text, n: nat)
    requires AddedNonEmpty(tk.added) && n < |text| && NoMatchBefore(tk.added, text, n)
    requires FirstMatch(tk.added, text[n..]).Some?
    ensures var a := FirstMatch(tk.added, text[n..]).value;
            && n + |a.content| <= |text|
            && EncodeSpec(tk, text)
               == Append(Append(OrNothing(text[..n], OrdinarySpec(tk, text[..n])), Ok([a.id])), EncodeSpec(tk, text[n + |a.content|..]))
  {
    hide FirstMatch, OrdinarySpec, EncodeFrom, NoMatchBefore;
    PendingGrows(tk, [], text, n);
    EmptyUnits(text[..n]);
    EncodeMatched(tk, text[..n], text[n..]);
    var a := FirstMatch(tk.added, text[n..]).value;
    assert text[n..][|a.content|..] == text[n + |a.content|..];
  }
}
