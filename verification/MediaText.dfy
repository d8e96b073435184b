/** Media in the text of a message: from its parts, through rendering and encoding, to the located
    placeholders. */
module MediaText {
  import opened Wrappers
  import opened Seqs
  import opened Text
  import opened Utf8
  import opened Bpe
  import opened Tokenizer
  import opened TokenizerDecode
  import opened ResponseContent
  import opened ChatTemplate
  import opened Media
  import opened ChatSession

  /** The byte that opens every added token of the template. */
  const LESS: Byte := 0x3C

  function BlockOf(kind: Kind): BlockText {
    match kind
    case Audio => AUDIO_BLOCK
    case Image => IMAGE_BLOCK
  }

  function BeginText(kind: Kind): Text {
    BlockOf(kind).begin.content
  }

  /** No added token holds a `<` behind its first byte. */
  ghost predicate OpensOnce(added: seq<AddedToken>) {
    forall a, i :: a in added && 1 <= i < |a.content| ==> a.content[i] != LESS
  }

  /** The tables know the media tokens: each wins the search where its text stands, and the begin
      marks are special. */
  ghost predicate MediaTables(tk: Tables) {
    && Consistent(tk) && AddedNonEmpty(tk.added) && OpensOnce(tk.added)
    && forall kind: Kind :: Prints(tk, BlockOf(kind), kind) && BlockOf(kind).begin.id in tk.special
  }

  lemma FirstByte(s: string, c: char)
    requires s != [] && s[0] == c && c <= '~'
    ensures Ascii(s)[0] == c as int as Byte
  {
  }

  lemma LastByte(s: string, c: char)
    requires s != [] && s[|s| - 1] == c && c <= '~'
    ensures Ascii(s)[|s| - 1] == c as int as Byte
  {
  }

  lemma NoLineFeed(s: string)
    requires forall c :: c in s ==> ' ' <= c <= '~'
    ensures '\n' as Byte !in Ascii(s)
  {
    forall i | 0 <= i < |s|
      ensures Ascii(s)[i] != '\n' as Byte
    {
      assert s[i] in s;
    }
  }

  lemma OpensAndCloses(open: string, close: string)
    requires |open| > 1 && open[0] == '<' && close != [] && close[|close| - 1] == '>' && forall c :: c in open ==> ' ' <= c <= '~'
    ensures |Ascii(open)| > 1 && Ascii(open)[0] == LESS && '\n' as Byte !in Ascii(open)
    ensures !IsSpace(Ascii(open)[0]) && !IsCharacter(Ascii(open))
    ensures |Ascii(close)| > 0 && !IsSpace(Ascii(close)[|close| - 1])
  {
    hide Ascii;
    FirstByte(open, '<');
    LastByte(close, '>');
    NoLineFeed(open);
    assert CharLength(LESS) == 1;
  }

  lemma BeginTexts(kind: Kind)
    ensures |BeginText(kind)| > 1 && BeginText(kind)[0] == LESS && '\n' as Byte !in BeginText(kind)
    ensures !IsSpace(BeginText(kind)[0]) && !IsCharacter(BeginText(kind))
    ensures var end := BlockOf(kind).end.content; |end| > 0 && !IsSpace(end[|end| - 1])
  {
    hide Ascii, IsSpace, IsCharacter;
    OpensAndCloses("<|audio>", "<audio|>");
    OpensAndCloses("<|image>", "<image|>");
  }

  lemma BeginIsAdded(tk: Tables, kind: Kind)
    requires MediaTables(tk)
    ensures BlockOf(kind).begin in tk.added && LESS !in BeginText(kind)[1..]
  {
    var begin := BlockOf(kind).begin;
    assert Prints(tk, BlockOf(kind), kind);
    assert FirstMatch(tk.added, begin.content + []) == Some(begin);
  }

  // ---------------------------------------------------------------- splitting at a block

  lemma NoneAcross(added: seq<AddedToken>, s: Text, t: Text, a: AddedToken)
    requires OpensOnce(added) && a in added && a.content <= s + t && s != [] && t != [] && t[0] == LESS
    ensures |a.content| <= |s|
  {
    assert (s + t)[|s|] == LESS;
  }

  /** The scan emits the added token at a `<`: no earlier token reaches across it. */
  lemma {:induction false} BoundaryEmits(added: seq<AddedToken>, s: Text, t: Text)
    requires AddedNonEmpty(added) && OpensOnce(added)
    requires t != [] && t[0] == LESS && FirstMatch(added, t).Some?
    ensures EmitsAt(added, s + t, |s|)
    decreases |s|
  {
    hide FirstMatch;
    if s == [] {
      EmptyUnits(t);
    } else {
      var matched := FirstMatch(added, s + t);
      if matched.None? {
        TailOfConcat(s, t);
        BoundaryEmits(added, s[1..], t);
      } else {
        var n := |matched.value.content|;
        NoneAcross(added, s, t, matched.value);
        DropOfConcat(s, t, n);
        BoundaryEmits(added, s[n..], t);
      }
    }
  }

  // ---------------------------------------------------------------- quiet text

  lemma {:induction false} ReplaceAllHoldsNo(s: seq<Token>, p: Pair, c: Token, id: Token)
    requires id !in s && id != c
    ensures id !in ReplaceAll(s, p, c)
  {
    if |s| >= 2 {
      if At(s, 0) == p {
        ReplaceAllHoldsNo(s[2..], p, c, id);
      } else {
        ReplaceAllHoldsNo(s[1..], p, c, id);
      }
    }
  }

  /** Merging never makes a special token. */
  lemma {:induction false} BatchedHoldsNo(tk: Tables, s: seq<Token>, id: Token)
    requires MergesAgree(tk) && id in tk.special && id !in s
    ensures id !in Batched(s, tk.merges)
    decreases |s|
  {
    var b := BestPair(s, tk.merges);
    if b.Some? {
      BestOccurs(s, tk.merges);
      var c := tk.merges[b.value].result;
      ReplaceShortens(s, b.value, c);
      assert !Reserved(tk, c);
      ReplaceAllHoldsNo(s, b.value, c, id);
      BatchedHoldsNo(tk, ReplaceAll(s, b.value, c), id);
    }
  }

  lemma {:induction false} FallbackHoldsNo(tk: Tables, bytes: Text, id: Token)
    requires Consistent(tk) && id in tk.special && FallbackSymbols(tk, bytes).Ok?
    ensures id !in FallbackSymbols(tk, bytes).value
  {
    hide FallbackText, MergesAgree, AddedAgree, VocabularyAgrees;
    if bytes != [] {
      FallbackHoldsNo(tk, bytes[1..], id);
    }
  }

  lemma {:induction false} InitialHoldsNo(tk: Tables, characters: seq<Text>, id: Token)
    requires Consistent(tk) && id in tk.special && id < |tk.tokens| && !IsCharacter(tk.tokens[id])
    requires InitialSymbols(tk, characters).Ok? && forall c :: c in characters ==> IsCharacter(c)
    ensures id !in InitialSymbols(tk, characters).value
  {
    hide MergesAgree, AddedAgree, FallbackSymbols;
    if characters != [] {
      var c := characters[0];
      assert c in characters;
      InitialHoldsNo(tk, characters[1..], id);
      if c in tk.vocabulary {
        assert tk.tokens[tk.vocabulary[c]] == c;
      } else {
        FallbackHoldsNo(tk, c, id);
      }
    }
  }

  /** Ordinary text never encodes to a special token of more than one character. */
  lemma OrdinaryHoldsNo(tk: Tables, text: Text, id: Token)
    requires Consistent(tk) && id in tk.special && id < |tk.tokens| && !IsCharacter(tk.tokens[id])
    requires OrdinarySpec(tk, text).Ok?
    ensures id !in OrdinarySpec(tk, text).value
  {
    hide InitialSymbols, Batched, IsCharacter;
    var characters := Split(Normalize(text)).value;
    InitialHoldsNo(tk, characters, id);
    BatchedHoldsNo(tk, InitialSymbols(tk, characters).value, id);
  }

  lemma AddedIds(tk: Tables, a: AddedToken)
    requires AddedAgree(tk) && a in tk.added
    ensures a.id < |tk.tokens| && tk.tokens[a.id] == a.content
  {
  }

  lemma OtherAdded(tk: Tables, a: AddedToken, b: AddedToken, rest: Text)
    requires AddedAgree(tk) && a in tk.added && b in tk.added && b.content <= rest && !(a.content <= rest)
    ensures a.id != b.id
  {
    AddedIds(tk, a);
    AddedIds(tk, b);
  }

  lemma NotInRest(rest: Text, pattern: Text, n: nat)
    requires n <= |rest| && !Contains(rest, pattern)
    ensures !Contains(rest[n..], pattern) && !(pattern <= rest)
  {
    PrefixFree(rest, pattern, n, |rest|);
    assert rest[n..|rest|] == rest[n..] && rest[0..] == rest;
  }

  /** A text without a special added token's text never encodes to that token. */
  lemma {:induction false} EncodeHoldsNo(tk: Tables, pending: Text, rest: Text, a: AddedToken)
    requires Consistent(tk) && AddedNonEmpty(tk.added) && a in tk.added && a.id in tk.special && !IsCharacter(a.content)
    requires !Contains(rest, a.content) && EncodeFrom(tk, pending, rest).Ok?
    ensures a.id !in EncodeFrom(tk, pending, rest).value
    decreases |rest|
  {
    hide OrdinarySpec, IsCharacter, FirstMatch, MergesAgree, VocabularyAgrees, Contains;
    AddedIds(tk, a);
    if pending != [] && Flush(tk, pending).Ok? {
      OrdinaryHoldsNo(tk, pending, a.id);
    }
    if rest != [] {
      var matched := FirstMatch(tk.added, rest);
      if matched.None? {
        NotInRest(rest, a.content, 1);
        EncodeHoldsNo(tk, pending + [rest[0]], rest[1..], a);
      } else {
        var n := |matched.value.content|;
        NotInRest(rest, a.content, n);
        EncodeHoldsNo(tk, [], rest[n..], a);
        OtherAdded(tk, a, matched.value, rest);
      }
    }
  }

  // ---------------------------------------------------------------- text with blocks in it

  /** A block and the text behind it. */
  datatype Piece = Piece(kind: Kind, count: nat, text: Text)

  function Write(head: Text, pieces: seq<Piece>): Text
    decreases |pieces|
  {
    if pieces == [] then head
    else head + (BlockString(BlockOf(pieces[0].kind), pieces[0].count) + Write(pieces[0].text, pieces[1..]))
  }

  ghost predicate Quiet(text: Text) {
    !Contains(text, BeginText(Audio)) && !Contains(text, BeginText(Image))
  }

  ghost predicate AllQuiet(head: Text, pieces: seq<Piece>) {
    Quiet(head) && forall k :: 0 <= k < |pieces| ==> Quiet(pieces[k].text)
  }

  function CountsOf(pieces: seq<Piece>, kind: Kind): seq<nat> {
    if pieces == [] then []
    else (if pieces[0].kind == kind then [pieces[0].count] else []) + CountsOf(pieces[1..], kind)
  }

  ghost function Encoded(tk: Tables, text: Text): seq<Token>
    requires AddedNonEmpty(tk.added)
  {
    if EncodeSpec(tk, text).Ok? then EncodeSpec(tk, text).value else []
  }

  ghost function ItemsOf(tk: Tables, head: Text, pieces: seq<Piece>): seq<Item>
    requires AddedNonEmpty(tk.added)
    decreases |pieces|
  {
    [Plain(Encoded(tk, head))]
    + if pieces == [] then [] else [Block(pieces[0].kind, pieces[0].count)] + ItemsOf(tk, pieces[0].text, pieces[1..])
  }

  lemma QuietEncodes(tk: Tables, text: Text)
    requires MediaTables(tk) && Quiet(text)
    ensures HoldsNoBegin(Plain(Encoded(tk, text)))
  {
    hide EncodeFrom, Contains, Consistent, OpensOnce;
    if EncodeSpec(tk, text).Ok? {
      forall kind: Kind
        ensures BlockOf(kind).begin.id !in EncodeSpec(tk, text).value && BlockOf(kind).begin.id == MarksOf(kind).begin
      {
        BeginTexts(kind);
        BeginIsAdded(tk, kind);
        assert Prints(tk, BlockOf(kind), kind);
        EncodeHoldsNo(tk, [], text, BlockOf(kind).begin);
      }
      assert MarksOf(Audio).begin == BlockOf(Audio).begin.id && MarksOf(Image).begin == BlockOf(Image).begin.id;
    }
  }

  /** Encoding splits in front of every block. */
  lemma EncodeSplits(tk: Tables, head: Text, kind: Kind, count: nat, rest: Text)
    requires MediaTables(tk)
    ensures EncodeSpec(tk, head + (BlockString(BlockOf(kind), count) + rest))
         == Append(EncodeSpec(tk, head), Prepend(PrintItem(Block(kind, count)), EncodeSpec(tk, rest)))
  {
    hide EncodeFrom, Consistent, PrintItem, Repeated;
    assert Prints(tk, BlockOf(kind), kind);
    var begin := BlockOf(kind).begin;
    var block := BlockString(BlockOf(kind), count);
    BeginTexts(kind);
    var behind := Repeated(BlockOf(kind).placeholder.content, count) + BlockOf(kind).end.content;
    Assoc(begin.content, behind, rest);
    assert FirstMatch(tk.added, begin.content + (behind + rest)) == Some(begin);
    BoundaryEmits(tk.added, head, block + rest);
    EncodeComposes(tk, [], head, block + rest);
    BlockTextEncodes(tk, BlockOf(kind), kind, count, rest);
  }

  lemma PrintThree(a: seq<Token>, kind: Kind, count: nat, rest: seq<Item>)
    ensures Print([Plain(a)] + ([Block(kind, count)] + rest)) == a + (PrintItem(Block(kind, count)) + Print(rest))
    ensures BoundaryFree(rest) && HoldsNoBegin(Plain(a)) ==> BoundaryFree([Plain(a)] + ([Block(kind, count)] + rest))
    ensures forall k :: Counts([Plain(a)] + ([Block(kind, count)] + rest), k) == ItemCounts(Block(kind, count), k) + Counts(rest, k)
  {
    var items := [Block(kind, count)] + rest;
    var all := [Plain(a)] + items;
    assert all[1..] == items && items[1..] == rest;
    forall k
      ensures Counts(all, k) == ItemCounts(Block(kind, count), k) + Counts(rest, k)
    {
      UnfoldPlan(all, k, 0);
      UnfoldPlan(items, k, 0);
      EmptyUnits(Counts(items, k));
    }
  }

  lemma PrintPlain(a: seq<Token>)
    ensures Print([Plain(a)] + []) == a
    ensures HoldsNoBegin(Plain(a)) ==> BoundaryFree([Plain(a)] + [])
    ensures forall kind :: Counts([Plain(a)] + [], kind) == []
  {
    assert [Plain(a)] + [] == [Plain(a)] && [Plain(a)][1..] == [];
    EmptyUnits(a);
  }

  /** A written text encodes to the printed tokens of its blocks and its quiet texts. */
  lemma {:induction false} WriteEncodes(tk: Tables, head: Text, pieces: seq<Piece>)
    requires MediaTables(tk) && AllQuiet(head, pieces) && EncodeSpec(tk, Write(head, pieces)).Ok?
    ensures EncodeSpec(tk, Write(head, pieces)) == Ok(Print(ItemsOf(tk, head, pieces)))
    ensures BoundaryFree(ItemsOf(tk, head, pieces))
    ensures forall kind :: Counts(ItemsOf(tk, head, pieces), kind) == CountsOf(pieces, kind)
    decreases |pieces|
  {
    hide MediaTables, EncodeSpec, Print, BoundaryFree, Counts, BlockString, PrintItem, Quiet;
    TablesNonEmpty(tk);
    QuietEncodes(tk, head);
    if pieces == [] {
      PrintPlain(Encoded(tk, head));
    } else {
      var p, rest := pieces[0], pieces[1..];
      EncodeSplits(tk, head, p.kind, p.count, Write(p.text, rest));
      WriteEncodes(tk, p.text, rest);
      PrintThree(Encoded(tk, head), p.kind, p.count, ItemsOf(tk, p.text, rest));
    }
  }

  lemma TablesNonEmpty(tk: Tables)
    requires MediaTables(tk)
    ensures AddedNonEmpty(tk.added)
  {
  }

  /** Main result: whatever text with media blocks encodes, both locators find exactly its blocks,
      when no text between them holds a begin mark. */
  lemma WrittenIsLocated(tk: Tables, head: Text, pieces: seq<Piece>, kind: Kind)
    requires MediaTables(tk) && AllQuiet(head, pieces) && EncodeSpec(tk, Write(head, pieces)).Ok?
    ensures Locate(EncodeSpec(tk, Write(head, pieces)).value, MarksOf(kind), CountsOf(pieces, kind), 0)
         == Ok(Offsets(ItemsOf(tk, head, pieces), kind, 0))
  {
    hide MediaTables, EncodeSpec, Locate;
    TablesNonEmpty(tk);
    WriteEncodes(tk, head, pieces);
    var prompt := EncodeSpec(tk, Write(head, pieces)).value;
    assert prompt[0..] == prompt;
    PrintThenLocate(ItemsOf(tk, head, pieces), kind, prompt, 0);
  }

  // ---------------------------------------------------------------- the text of a message

  /** Text up to the first block, then the blocks, each with the text behind it. */
  datatype Written = Written(head: Text, pieces: seq<Piece>)

  function AddWords(w: Written, text: Text): Written
    decreases |w.pieces|
  {
    if w.pieces == [] then Written(w.head + text, [])
    else
      var p := w.pieces[0];
      var r := AddWords(Written(p.text, w.pieces[1..]), text);
      Written(w.head, [p.(text := r.head)] + r.pieces)
  }

  /** The first `n` parts of a user message, adjacent texts joined. */
  function WrittenOf(message: Message, n: nat): Written
    requires n <= |message.content|
  {
    if n == 0 then Written([], [])
    else
      var w := WrittenOf(message, n - 1);
      match message.content[n - 1]
      case TextPart(text) => AddWords(w, text)
      case AudioPart(_, samples) => w.(pieces := w.pieces + [Piece(Audio, AudioFrames(|samples|), [])])
      case ImagePart(image) => w.(pieces := w.pieces + [Piece(Image, image.patchCount, [])])
      case _ => w
  }

  lemma TextWrites(text: Text)
    ensures Write(text, []) == text && forall kind :: CountsOf([], kind) == []
  {
  }

  lemma {:induction false} WriteWords(w: Written, text: Text)
    ensures var r := AddWords(w, text);
            && Write(r.head, r.pieces) == Write(w.head, w.pieces) + text
            && forall kind :: CountsOf(r.pieces, kind) == CountsOf(w.pieces, kind)
    decreases |w.pieces|
  {
    hide BlockString;
    if w.pieces != [] {
      var p := w.pieces[0];
      var block, rest := BlockString(BlockOf(p.kind), p.count), Written(p.text, w.pieces[1..]);
      WriteWords(rest, text);
      var r := AddWords(rest, text);
      assert ([p.(text := r.head)] + r.pieces)[1..] == r.pieces;
      Assoc(block, Write(p.text, rest.pieces), text);
      Assoc(w.head, block + Write(p.text, rest.pieces), text);
    }
  }

  lemma {:induction false} WriteBlock(head: Text, pieces: seq<Piece>, kind: Kind, count: nat)
    ensures var more := pieces + [Piece(kind, count, [])];
            && Write(head, more) == Write(head, pieces) + BlockString(BlockOf(kind), count)
            && forall k :: CountsOf(more, k) == CountsOf(pieces, k) + (if k == kind then [count] else [])
    decreases |pieces|
  {
    hide BlockString;
    var block := BlockString(BlockOf(kind), count);
    var added := Piece(kind, count, []);
    if pieces == [] {
      EmptyUnits([added]);
      EmptyUnits(block);
      assert [added][1..] == [];
    } else {
      var p := pieces[0];
      var first := BlockString(BlockOf(p.kind), p.count);
      TailOfConcat(pieces, [added]);
      WriteBlock(p.text, pieces[1..], kind, count);
      Assoc(first, Write(p.text, pieces[1..]), block);
      Assoc(head, first + Write(p.text, pieces[1..]), block);
    }
  }

  /** The materialised content is what was written, and the counts are those of its blocks. */
  lemma {:induction false} ContentIsWritten(message: Message, n: nat)
    requires message.role == User && n <= |message.content| && AddParts(message, n).Ok?
    ensures var d, w := AddParts(message, n).value, WrittenOf(message, n);
            && d.message.content == Write(w.head, w.pieces)
            && d.audio == CountsOf(w.pieces, Audio) && d.images == CountsOf(w.pieces, Image)
  {
    hide BlockString, AddWords, Write, CountsOf;
    if n == 0 {
      TextWrites([]);
    } else {
      ContentIsWritten(message, n - 1);
      var w := WrittenOf(message, n - 1);
      match message.content[n - 1] {
        case TextPart(text) => WriteWords(w, text);
        case AudioPart(_, samples) => WriteBlock(w.head, w.pieces, Audio, AudioFrames(|samples|));
        case ImagePart(image) => WriteBlock(w.head, w.pieces, Image, image.patchCount);
        case _ =>
      }
    }
  }

  // ---------------------------------------------------------------- the frame around it

  lemma {:induction false} TrimLeftStops(a: Text, b: Text)
    requires b != [] && !IsSpace(b[0])
    ensures TrimLeft(a + b) == TrimLeft(a) + b
  {
    if a == [] {
      EmptyUnits(b);
    } else {
      TailOfConcat(a, b);
      TrimLeftStops(a[1..], b);
    }
  }

  lemma {:induction false} TrimRightStops(a: Text, b: Text)
    requires a != [] && !IsSpace(a[|a| - 1])
    ensures TrimRight(a + b) == a + TrimRight(b)
  {
    if b == [] {
      EmptyUnits(a);
    } else {
      var c := a + b;
      assert c[..|c| - 1] == a + b[..|b| - 1] && c[|c| - 1] == b[|b| - 1];
      TrimRightStops(a, b[..|b| - 1]);
    }
  }

  /** The last text is trimmed and followed by `after`. */
  function EndTrimmed(pieces: seq<Piece>, after: Written): seq<Piece>
    requires pieces != []
  {
    var p := pieces[0];
    if |pieces| == 1 then [p.(text := TrimRight(p.text) + after.head)] + after.pieces else [p] + EndTrimmed(pieces[1..], after)
  }

  function Framed(w: Written, before: Text, after: Written): Written {
    if w.pieces == [] then Written(before + (TrimSpec(w.head) + after.head), after.pieces)
    else Written(before + TrimLeft(w.head), EndTrimmed(w.pieces, after))
  }

  lemma BlockEnds(kind: Kind, count: nat)
    ensures var block := BlockString(BlockOf(kind), count);
            block != [] && !IsSpace(block[0]) && !IsSpace(block[|block| - 1])
  {
    BeginTexts(kind);
  }

  /** Text in front of a written one. */
  lemma LeadWrites(lead: Text, head: Text, pieces: seq<Piece>)
    ensures Write(lead + head, pieces) == lead + Write(head, pieces)
  {
    hide BlockString;
    if pieces != [] {
      Assoc(lead, head, BlockString(BlockOf(pieces[0].kind), pieces[0].count) + Write(pieces[0].text, pieces[1..]));
    }
  }

  lemma TrimBehindBlock(head: Text, block: Text, text: Text, end: Text)
    requires block != [] && !IsSpace(block[|block| - 1])
    ensures TrimRight(head + (block + text)) + end == head + (block + (TrimRight(text) + end))
  {
    hide TrimRight;
    Assoc(head, block, text);
    TrimRightStops(head + block, text);
    Assoc(head + block, TrimRight(text), end);
    Assoc(head, block, TrimRight(text) + end);
  }

  lemma WritePiece(head: Text, p: Piece, rest: seq<Piece>)
    ensures Write(head, [p] + rest) == head + (BlockString(BlockOf(p.kind), p.count) + Write(p.text, rest))
    ensures forall kind :: CountsOf([p] + rest, kind) == (if p.kind == kind then [p.count] else []) + CountsOf(rest, kind)
  {
    hide BlockString;
    assert ([p] + rest)[1..] == rest;
  }

  lemma {:induction false} TrimRightWrite(head: Text, pieces: seq<Piece>, after: Written)
    requires pieces != []
    ensures TrimRight(Write(head, pieces)) + Write(after.head, after.pieces) == Write(head, EndTrimmed(pieces, after))
    decreases |pieces|
  {
    hide BlockString, TrimRight, Write;
    var p, rest := pieces[0], pieces[1..];
    HeadAndTail(pieces);
    WritePiece(head, p, rest);
    BlockEnds(p.kind, p.count);
    TrimBehindBlock(head, BlockString(BlockOf(p.kind), p.count), Write(p.text, rest), Write(after.head, after.pieces));
    if |pieces| > 1 {
      TrimRightWrite(p.text, rest, after);
      WritePiece(head, p, EndTrimmed(rest, after));
    } else {
      TextWrites(p.text);
      LeadWrites(TrimRight(p.text), after.head, after.pieces);
      WritePiece(head, p.(text := TrimRight(p.text) + after.head), after.pieces);
    }
  }

  lemma {:induction false} TrimRightCounts(pieces: seq<Piece>, after: Written, kind: Kind)
    requires pieces != []
    ensures CountsOf(EndTrimmed(pieces, after), kind) == CountsOf(pieces, kind) + CountsOf(after.pieces, kind)
    decreases |pieces|
  {
    hide CountsOf, TrimRight, Write;
    var p, rest := pieces[0], pieces[1..];
    HeadAndTail(pieces);
    WritePiece([], p, rest);
    if |pieces| > 1 {
      TrimRightCounts(rest, after, kind);
      WritePiece([], p, EndTrimmed(rest, after));
      Assoc(if p.kind == kind then [p.count] else [], CountsOf(rest, kind), CountsOf(after.pieces, kind));
    } else {
      TextWrites([]);
      EmptyUnits(if p.kind == kind then [p.count] else []);
      WritePiece([], p.(text := TrimRight(p.text) + after.head), after.pieces);
    }
  }

  /** Trimming and framing a written text writes the framed one. */
  lemma FramedWrites(w: Written, before: Text, after: Written)
    ensures var f := Framed(w, before, after);
            && Write(f.head, f.pieces) == before + (TrimSpec(Write(w.head, w.pieces)) + Write(after.head, after.pieces))
            && forall kind :: CountsOf(f.pieces, kind) == CountsOf(w.pieces, kind) + CountsOf(after.pieces, kind)
  {
    hide BlockString, TrimLeft, TrimRight;
    if w.pieces == [] {
      LeadWrites(TrimSpec(w.head), after.head, after.pieces);
      LeadWrites(before, TrimSpec(w.head) + after.head, after.pieces);
    } else {
      var p, rest := w.pieces[0], w.pieces[1..];
      var block := BlockString(BlockOf(p.kind), p.count);
      var tail := block + Write(p.text, rest);
      BlockEnds(p.kind, p.count);
      TrimLeftStops(w.head, tail);
      TrimRightWrite(TrimLeft(w.head), w.pieces, after);
      LeadWrites(before, TrimLeft(w.head), EndTrimmed(w.pieces, after));
      forall kind
        ensures CountsOf(EndTrimmed(w.pieces, after), kind) == CountsOf(w.pieces, kind) + CountsOf(after.pieces, kind)
      {
        TrimRightCounts(w.pieces, after, kind);
      }
    }
  }

  /** No occurrence of `pattern` reaches from `a` into `b`. */
  predicate Apart(a: Text, b: Text, pattern: Text) {
    || a == [] || b == [] || pattern == []
    || b[0] !in pattern[1..] || a[|a| - 1] !in pattern[..|pattern| - 1]
  }

  /** An occurrence in a concatenation lies in one part or holds bytes of both. */
  lemma OccurrenceSplits(a: Text, b: Text, pattern: Text, i: nat)
    requires pattern != [] && i <= |a + b| && pattern <= (a + b)[i..]
    ensures Contains(a, pattern) || Contains(b, pattern) || !Apart(a, b, pattern)
  {
    var c, n := a + b, |pattern|;
    assert forall k :: 0 <= k < n ==> pattern[k] == c[i..][k] == c[i + k];
    if i + n <= |a| {
      assert a[i..][..n] == pattern;
    } else if i >= |a| {
      assert b[i - |a|..][..n] == pattern;
    } else {
      assert pattern[1..][|a| - i - 1] == b[0];
      assert pattern[..n - 1][|a| - i - 1] == a[|a| - 1];
    }
  }

  lemma ConcatHoldsNo(a: Text, b: Text, pattern: Text)
    requires pattern != [] && Apart(a, b, pattern) && !Contains(a, pattern) && !Contains(b, pattern)
    ensures !Contains(a + b, pattern)
  {
    hide Apart;
    if i: nat :| i <= |a + b| && pattern <= (a + b)[i..] {
      OccurrenceSplits(a, b, pattern, i);
    }
  }

  lemma QuietConcat(tk: Tables, a: Text, b: Text)
    requires MediaTables(tk) && Quiet(a) && Quiet(b)
    requires (a != [] && a[|a| - 1] == '\n' as Byte) || (b != [] && b[0] == LESS)
    ensures Quiet(a + b)
  {
    hide Contains, BlockOf, Consistent;
    BeginTexts(Audio);
    BeginTexts(Image);
    BeginIsAdded(tk, Audio);
    BeginIsAdded(tk, Image);
    ConcatHoldsNo(a, b, BeginText(Audio));
    ConcatHoldsNo(a, b, BeginText(Image));
  }

  lemma QuietSlice(text: Text, from: nat, to: nat)
    requires from <= to <= |text| && Quiet(text)
    ensures Quiet(text[from..to])
  {
    hide Contains;
    PrefixFree(text, BeginText(Audio), from, to);
    PrefixFree(text, BeginText(Image), from, to);
  }

  lemma {:induction false} TrimLeftIsSuffix(text: Text) returns (n: nat)
    ensures n <= |text| && TrimLeft(text) == text[n..]
  {
    if text != [] && IsSpace(text[0]) {
      var m := TrimLeftIsSuffix(text[1..]);
      return m + 1;
    }
    return 0;
  }

  lemma QuietTrims(text: Text)
    requires Quiet(text)
    ensures Quiet(TrimLeft(text)) && Quiet(TrimRight(text)) && Quiet(TrimSpec(text))
  {
    hide Quiet;
    var n := TrimLeftIsSuffix(text);
    QuietSlice(text, n, |text|);
    assert text[n..|text|] == text[n..];
    QuietSlice(text, 0, |TrimRight(text)|);
    assert text[0..|TrimRight(text)|] == TrimRight(text);
    var l := TrimLeft(text);
    QuietSlice(l, 0, |TrimRight(l)|);
    assert l[0..|TrimRight(l)|] == TrimRight(l);
  }

  lemma {:induction false} EndTrimmedQuiet(tk: Tables, pieces: seq<Piece>, after: Written)
    requires MediaTables(tk) && pieces != [] && AllQuiet(after.head, after.pieces) && after.head != [] && after.head[0] == LESS
    requires forall k :: 0 <= k < |pieces| ==> Quiet(pieces[k].text)
    ensures forall k :: 0 <= k < |EndTrimmed(pieces, after)| ==> Quiet(EndTrimmed(pieces, after)[k].text)
  {
    hide Quiet, TrimRight, MediaTables;
    var p := pieces[0];
    if |pieces| == 1 {
      QuietTrims(p.text);
      QuietConcat(tk, TrimRight(p.text), after.head);
    } else {
      EndTrimmedQuiet(tk, pieces[1..], after);
    }
  }

  /** The frame ends in a line feed before the content, and opens with a `<` behind it. */
  lemma FramedQuiet(tk: Tables, w: Written, before: Text, after: Written)
    requires MediaTables(tk) && AllQuiet(w.head, w.pieces) && Quiet(before) && AllQuiet(after.head, after.pieces)
    requires before != [] && before[|before| - 1] == '\n' as Byte && after.head != [] && after.head[0] == LESS
    ensures AllQuiet(Framed(w, before, after).head, Framed(w, before, after).pieces)
  {
    hide Quiet, TrimLeft, TrimRight, TrimSpec, MediaTables;
    QuietTrims(w.head);
    if w.pieces == [] {
      QuietConcat(tk, TrimSpec(w.head), after.head);
      QuietConcat(tk, before, TrimSpec(w.head) + after.head);
    } else {
      QuietConcat(tk, before, TrimLeft(w.head));
      EndTrimmedQuiet(tk, w.pieces, after);
    }
  }

  lemma OnlyUsersHoldMedia(message: Message, n: nat)
    requires message.role != User && n <= |message.content| && AddParts(message, n).Ok?
    ensures AddParts(message, n).value.audio == [] && AddParts(message, n).value.images == []
  {
    hide BlockString;
    if n > 0 {
      OnlyUsersHoldMedia(message, n - 1);
    }
  }

  // ---------------------------------------------------------------- the texts of the template

  const LETTER: Byte := 0x69

  lemma NoLetter(s: string)
    requires 'i' !in s && forall c :: c in s ==> c <= '~'
    ensures LETTER !in Ascii(s)
  {
    forall i | 0 <= i < |s|
      ensures Ascii(s)[i] != LETTER
    {
      assert s[i] in s;
    }
  }

  lemma HoldsItsBytes(text: Text, pattern: Text, at: nat)
    requires Contains(text, pattern) && at < |pattern|
    ensures pattern[at] in text
  {
    var i :| 0 <= i <= |text| && pattern <= text[i..];
    assert text[i + at] == pattern[at];
  }

  /** Both begin marks hold an i, so a text without one holds no begin mark. */
  lemma QuietWithoutLetter(text: Text)
    requires LETTER !in text
    ensures Quiet(text)
  {
    forall kind
      ensures !Contains(text, BeginText(kind))
    {
      if Contains(text, BeginText(kind)) {
        HoldsItsBytes(text, BeginText(kind), if kind == Audio then 5 else 2);
      }
    }
  }

  /** What the template writes behind a last user turn. */
  function After(thinking: bool): Text {
    TURN_END + (TURN + MODEL_NAME + (if thinking then [] else CLOSED_THOUGHT))
  }

  lemma AfterIsQuiet(thinking: bool)
    ensures Quiet(After(thinking))
  {
    hide Ascii, Quiet;
    NoLetter("<turn|>\n");
    NoLetter("<|turn>");
    NoLetter("model\n");
    NoLetter("<|channel>thought\n<channel|>");
    QuietWithoutLetter(After(thinking));
  }
}
