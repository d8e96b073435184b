/** Splitting a byte string into UTF-8 characters (section 3 of RFC 3629), as the tokenizer does
    it: by lead-byte class and continuation-byte mask, without the overlong and range checks. */
module Utf8 {
  import opened Wrappers
  import opened Seqs
  import opened Text

  function CharLength(first: Byte): (n: nat)
    ensures n <= 4
  {
    if first < 0x80 then 1
    else if first & 0xE0 == 0xC0 then 2
    else if first & 0xF0 == 0xE0 then 3
    else if first & 0xF8 == 0xF0 then 4
    else 0
  }

  predicate IsContinuation(b: Byte) {
    b & 0xC0 == 0x80
  }

  /** `c` is one lead byte with exactly the continuation bytes it announces. */
  predicate IsCharacter(c: Text) {
    c != [] && CharLength(c[0]) == |c| && forall i :: 1 <= i < |c| ==> IsContinuation(c[i])
  }

  function Split(text: Text): (r: Result<seq<Text>>)
    ensures r.Ok? ==> forall c :: c in r.value ==> IsCharacter(c)
    ensures r.Err? ==> r.code == InvalidArgument
  {
    if text == [] then Ok([])
    else
      var n := CharLength(text[0]);
      if n == 0 || n > |text| || !IsCharacter(text[..n]) then Err(InvalidArgument)
      else
        Prepend([text[..n]], Split(text[n..]))
  }

  function Flatten(parts: seq<Text>): Text {
    if parts == [] then [] else parts[0] + Flatten(parts[1..])
  }

  /** The text is a sequence of whole characters. */
  predicate WholeCharacters(text: Text) {
    Split(text).Ok?
  }

  /** Splitting loses nothing and is the only split into characters. */
  lemma {:induction false} SplitFlatten(parts: seq<Text>)
    requires forall c :: c in parts ==> IsCharacter(c)
    ensures Split(Flatten(parts)) == Ok(parts)
  {
    if parts != [] {
      var c := parts[0];
      var text := c + Flatten(parts[1..]);
      assert c in parts;
      assert text[..|c|] == c && text[|c|..] == Flatten(parts[1..]);
      SplitFlatten(parts[1..]);
      assert parts == [c] + parts[1..];
    }
  }

  lemma {:induction false} FlattenSplit(text: Text)
    requires WholeCharacters(text)
    ensures Flatten(Split(text).value) == text
  {
    if text != [] {
      var n := CharLength(text[0]);
      FlattenSplit(text[n..]);
      assert text == text[..n] + text[n..];
    }
  }

  lemma {:induction false} WholeCharactersConcat(a: Text, b: Text)
    requires WholeCharacters(a) && WholeCharacters(b)
    ensures WholeCharacters(a + b)
  {
    if a == [] {
      assert a + b == b;
    } else {
      var n := CharLength(a[0]);
      assert (a + b)[..n] == a[..n];
      assert (a + b)[n..] == a[n..] + b;
      WholeCharactersConcat(a[n..], b);
    }
  }

  function Prepend<T>(head: seq<T>, tail: Result<seq<T>>): (r: Result<seq<T>>)
    ensures head == [] ==> r == tail
    ensures tail == Ok([]) ==> r == Ok(head)
  {
    if tail.Err? then tail
    else
      assert head + [] == head && (head == [] ==> head + tail.value == tail.value);
      Ok(head + tail.value)
  }

  lemma PrependPrepend<T>(a: seq<T>, b: seq<T>, tail: Result<seq<T>>)
    ensures Prepend(a, Prepend(b, tail)) == Prepend(a + b, tail)
  {
    if tail.Ok? {
      Assoc(a, b, tail.value);
    }
  }

  /** A nonempty whole text starts with a character and goes on whole. */
  lemma FirstCharacter(text: Text) returns (c: Text, rest: Text)
    requires WholeCharacters(text) && text != []
    ensures text == c + rest && IsCharacter(c) && WholeCharacters(rest) && |rest| < |text|
    ensures Split(text) == Ok([c] + Split(rest).value)
  {
    var n := CharLength(text[0]);
    c, rest := text[..n], text[n..];
  }

  /** The check of one character at the front of the remaining text. */
  method NextCharacter(text: Text, offset: nat) returns (length: nat)
    requires offset < |text|
    ensures length == 0 <==> Split(text[offset..]) == Err(InvalidArgument) && !StartsWithCharacter(text[offset..])
    ensures length > 0 ==> length <= |text| - offset && IsCharacter(text[offset..offset + length])
  {
    var first := text[offset];
    length := CharLength(first);
    ghost var rest := text[offset..];
    if length == 0 {
      return 0;
    }
    if length > |text| - offset {
      return 0;
    }
    assert rest[..length] == text[offset..offset + length];
    var index := 1;
    while index < length
      invariant 1 <= index <= length
      invariant forall i :: 1 <= i < index ==> IsContinuation(rest[..length][i])
    {
      if !IsContinuation(text[offset + index]) {
        assert !IsContinuation(rest[..length][index]);
        return 0;
      }
      index := index + 1;
    }
  }

  /** The lead byte of `text` announces a length that the bytes behind it honour. */
  predicate StartsWithCharacter(text: Text) {
    text != [] && var n := CharLength(text[0]); 0 < n <= |text| && IsCharacter(text[..n])
  }

  lemma SplitUnfolds(text: Text, offset: nat, length: nat)
    requires offset + length <= |text| && IsCharacter(text[offset..offset + length])
    ensures Split(text[offset..]) == Prepend([text[offset..offset + length]], Split(text[offset + length..]))
  {
    var rest := text[offset..];
    assert rest[..length] == text[offset..offset + length];
    assert rest[length..] == text[offset + length..];
  }

  /** `Utf8Characters`. */
  method Utf8Characters(text: Text) returns (r: Result<seq<Text>>)
    ensures r == Split(text)
  {
    var result: seq<Text> := [];
    var offset := 0;
    assert text[offset..] == text;
    while offset < |text|
      invariant 0 <= offset <= |text|
      invariant Split(text) == Prepend(result, Split(text[offset..]))
    {
      var length := NextCharacter(text, offset);
      if length == 0 {
        return Err(InvalidArgument);
      }
      SplitUnfolds(text, offset, length);
      PrependPrepend(result, [text[offset..offset + length]], Split(text[offset + length..]));
      result := result + [text[offset..offset + length]];
      offset := offset + length;
    }
    assert text[offset..] == [];
    return Ok(result);
  }
}
