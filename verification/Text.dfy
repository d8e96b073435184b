/** Byte strings: prefix tests, substring search and white-space trimming. */
module Text {
  import opened Wrappers

  type Byte = bv8
  type Text = seq<Byte>

  predicate Contains(text: Text, pattern: Text) {
    exists i :: 0 <= i <= |text| && pattern <= text[i..]
  }

  /** `find(pattern, begin)`: the leftmost occurrence at or after `begin`. */
  function Find(text: Text, pattern: Text, begin: nat): (r: Option<nat>)
    requires begin <= |text|
    ensures r.Some? ==> begin <= r.value && r.value + |pattern| <= |text|
    decreases |text| - begin
  {
    if pattern <= text[begin..] then Some(begin)
    else if begin == |text| then None
    else Find(text, pattern, begin + 1)
  }

  lemma {:induction false} FindIsLeftmost(text: Text, pattern: Text, begin: nat)
    requires begin <= |text|
    ensures var r := Find(text, pattern, begin);
            && (r.Some? ==> pattern <= text[r.value..])
            && forall i :: begin <= i <= |text| && (r.Some? ==> i < r.value) ==> !(pattern <= text[i..])
    decreases |text| - begin
  {
    if !(pattern <= text[begin..]) && begin < |text| {
      FindIsLeftmost(text, pattern, begin + 1);
    }
  }

  /** The value of a hexadecimal digit of either case. */
  function HexValue(c: Byte): Option<Byte> {
    if 0x30 <= c <= 0x39 then Some(c - 0x30)
    else if 0x41 <= c <= 0x46 then Some(c - 0x41 + 10)
    else if 0x61 <= c <= 0x66 then Some(c - 0x61 + 10)
    else None
  }

  /** `isspace` in the C locale: tab, line feed, vertical tab, form feed, carriage return, space. */
  predicate IsSpace(b: Byte) {
    b == 0x20 || (0x09 <= b && b <= 0x0D)
  }

  function TrimLeft(text: Text): (r: Text)
    ensures r != [] ==> !IsSpace(r[0])
  {
    if text != [] && IsSpace(text[0]) then TrimLeft(text[1..]) else text
  }

  function TrimRight(text: Text): (r: Text)
    ensures r <= text
    ensures r != [] ==> !IsSpace(r[|r| - 1])
  {
    if text != [] && IsSpace(text[|text| - 1]) then TrimRight(text[..|text| - 1]) else text
  }

  function TrimSpec(text: Text): Text {
    TrimRight(TrimLeft(text))
  }

  lemma TrimLeftStep(text: Text, begin: nat)
    requires begin < |text| && IsSpace(text[begin])
    ensures TrimLeft(text[begin..]) == TrimLeft(text[begin + 1..])
  {
    assert text[begin..][1..] == text[begin + 1..];
  }

  lemma TrimRightStep(text: Text, begin: nat, end: nat)
    requires begin < end <= |text| && IsSpace(text[end - 1])
    ensures TrimRight(text[begin..end]) == TrimRight(text[begin..end - 1])
  {
    var t := text[begin..end];
    assert t[..|t| - 1] == text[begin..end - 1];
  }

  /** `Trim`: two indices move inwards over white space. */
  method Trim(value: Text) returns (r: Text)
    ensures r == TrimSpec(value)
  {
    var begin, end := 0, |value|;
    assert value[0..] == value;
    while begin < end && IsSpace(value[begin])
      invariant 0 <= begin <= end == |value|
      invariant TrimLeft(value[begin..]) == TrimLeft(value)
    {
      TrimLeftStep(value, begin);
      begin := begin + 1;
    }
    ghost var left := value[begin..];
    assert TrimLeft(value) == left && value[begin..end] == left;
    while end > begin && IsSpace(value[end - 1])
      invariant begin <= end <= |value|
      invariant TrimRight(value[begin..end]) == TrimRight(left)
    {
      TrimRightStep(value, begin, end);
      end := end - 1;
    }
    r := value[begin..end];
  }

  /** Trimmed text is exactly the text that trimming leaves alone. */
  lemma TrimIsIdempotent(text: Text)
    ensures TrimSpec(TrimSpec(text)) == TrimSpec(text)
  {
    var l := TrimLeft(text);
    var r := TrimRight(l);
    if r != [] {
      assert r[0] == l[0];
      assert TrimLeft(r) == r;
    }
    assert TrimRight(r) == r;
  }

  predicate Blank(text: Text) {
    forall i :: 0 <= i < |text| ==> text[i] == 0x20 || 0x09 <= text[i] <= 0x0D
  }

  lemma {:induction false} LeftIsBlank(text: Text) returns (lead: Text)
    ensures Blank(lead) && text == lead + TrimLeft(text)
  {
    if text != [] && IsSpace(text[0]) {
      var more := LeftIsBlank(text[1..]);
      lead := [text[0]] + more;
    } else {
      lead := [];
    }
  }

  lemma {:induction false} RightIsBlank(text: Text) returns (tail: Text)
    ensures Blank(tail) && text == TrimRight(text) + tail
  {
    if text != [] && IsSpace(text[|text| - 1]) {
      var more := RightIsBlank(text[..|text| - 1]);
      tail := more + [text[|text| - 1]];
    } else {
      tail := [];
    }
  }

  /** What trimming takes away is white space, and what it leaves starts and ends with none. */
  lemma TrimExactly(text: Text) returns (lead: Text, tail: Text)
    ensures Blank(lead) && Blank(tail) && text == lead + TrimSpec(text) + tail
    ensures var r := TrimSpec(text); r != [] ==> !Blank([r[0]]) && !Blank([r[|r| - 1]])
  {
    lead := LeftIsBlank(text);
    tail := RightIsBlank(TrimLeft(text));
    var r := TrimSpec(text);
    if r != [] {
      assert r[0] == TrimLeft(text)[0];
      assert [r[0]][0] == r[0] && [r[|r| - 1]][0] == r[|r| - 1];
    }
  }
}
