/** UTF-8 as section 3 of RFC 3629 defines it, against what the tokenizer's splitter accepts. */
module Rfc3629 {
  import opened Wrappers
  import opened Text
  import opened Utf8

  /** An octet as a number. */
  function N(b: Byte): nat {
    b as nat
  }

  /** A character number that UTF-8 can encode: up to U+10FFFF and no surrogate. */
  predicate IsScalar(v: nat) {
    v <= 0x10FFFF && !(0xD800 <= v <= 0xDFFF)
  }

  /** The octet is the prefix `10` and the low six bits of `v`. */
  predicate IsTail(b: Byte, v: nat) {
    N(b) == 0x80 + v % 64
  }

  /** `c` is the octet sequence of character number `v`, by the table of the section. */
  predicate Spells(c: Text, v: nat) {
    && IsScalar(v)
    && if v < 0x80 then |c| == 1 && N(c[0]) == v
       else if v < 0x800 then |c| == 2 && N(c[0]) == 0xC0 + v / 64 && IsTail(c[1], v)
       else if v < 0x1_0000 then |c| == 3 && N(c[0]) == 0xE0 + v / 4096 && IsTail(c[1], v / 64) && IsTail(c[2], v)
       else |c| == 4 && N(c[0]) == 0xF0 + v / 262144 && IsTail(c[1], v / 4096) && IsTail(c[2], v / 64) && IsTail(c[3], v)
  }

  ghost predicate Spelled(c: Text) {
    exists v :: Spells(c, v)
  }

  ghost predicate AllSpelled(parts: seq<Text>) {
    forall k :: 0 <= k < |parts| ==> Spelled(parts[k])
  }

  /** The text is a sequence of encoded characters. */
  ghost predicate IsUtf8(text: Text) {
    exists parts :: AllSpelled(parts) && Flatten(parts) == text
  }

  /** What the splitter does not look at: overlong forms, surrogates and numbers out of range. */
  predicate Regular(c: Text)
    requires c != []
  {
    && N(c[0]) != 0xC0 && N(c[0]) != 0xC1 && N(c[0]) < 0xF5
    && (|c| > 1 ==>
          && (N(c[0]) == 0xE0 ==> N(c[1]) >= 0xA0) && (N(c[0]) == 0xED ==> N(c[1]) < 0xA0)
          && (N(c[0]) == 0xF0 ==> N(c[1]) >= 0x90) && (N(c[0]) == 0xF4 ==> N(c[1]) < 0x90))
  }

  /** The masks of the splitter in terms of numbers. */
  lemma OctetClasses(b: Byte)
    ensures N(b) < 256
    ensures CharLength(b) == (if N(b) < 0x80 then 1 else if N(b) < 0xC0 then 0 else if N(b) < 0xE0 then 2
                              else if N(b) < 0xF0 then 3 else if N(b) < 0xF8 then 4 else 0)
    ensures IsContinuation(b) <==> 0x80 <= N(b) < 0xC0
  {
  }

  lemma SpelledIsRegular(c: Text, v: nat)
    requires Spells(c, v)
    ensures IsCharacter(c) && Regular(c)
  {
    hide CharLength, IsContinuation, N;
    OctetClasses(c[0]);
    forall i | 1 <= i < |c|
      ensures IsContinuation(c[i])
    {
      OctetClasses(c[i]);
    }
    if |c| == 3 {
      DigitsOf(v);
    } else if |c| == 4 {
      DigitsOf(v);
    }
  }

  /** The base-64 digits of a number. */
  lemma DigitsOf(v: nat)
    ensures v / 64 == 64 * (v / 4096) + (v / 64) % 64
    ensures v / 4096 == 64 * (v / 262144) + (v / 4096) % 64
    ensures v == 64 * (v / 64) + v % 64
  {
  }

  /** The number a character's bits spell. */
  function Number(c: Text): nat
    requires IsCharacter(c)
  {
    OctetClasses(c[0]);
    if |c| == 1 then N(c[0])
    else
      OctetClasses(c[1]);
      if |c| == 2 then (N(c[0]) - 0xC0) * 64 + (N(c[1]) - 0x80)
      else
        OctetClasses(c[2]);
        if |c| == 3 then (N(c[0]) - 0xE0) * 4096 + (N(c[1]) - 0x80) * 64 + (N(c[2]) - 0x80)
        else
          OctetClasses(c[3]);
          (N(c[0]) - 0xF0) * 262144 + (N(c[1]) - 0x80) * 4096 + (N(c[2]) - 0x80) * 64 + (N(c[3]) - 0x80)
  }

  lemma Join(high: nat, low: nat)
    requires low < 64
    ensures (high * 64 + low) / 64 == high && (high * 64 + low) % 64 == low
  {
  }

  lemma JoinTwo(a: nat, b: nat, c: nat)
    requires b < 64 && c < 64
    ensures var v := a * 4096 + b * 64 + c; v / 64 == a * 64 + b && v / 4096 == a && (v / 64) % 64 == b && v % 64 == c
  {
    Join(a * 64 + b, c);
    Join(a, b);
    DigitsOf(a * 4096 + b * 64 + c);
  }

  lemma JoinThree(a: nat, b: nat, c: nat, d: nat)
    requires b < 64 && c < 64 && d < 64
    ensures var v := a * 262144 + b * 4096 + c * 64 + d;
            v / 262144 == a && (v / 4096) % 64 == b && (v / 64) % 64 == c && v % 64 == d
  {
    JoinTwo(a * 64 + b, c, d);
    Join(a, b);
    DigitsOf(a * 262144 + b * 4096 + c * 64 + d);
  }

  lemma RegularIsSpelled(c: Text)
    requires IsCharacter(c) && Regular(c)
    ensures Spells(c, Number(c))
  {
    hide CharLength, IsContinuation, N, Number;
    OctetClasses(c[0]);
    if |c| > 1 { OctetClasses(c[1]); }
    if |c| > 2 { OctetClasses(c[2]); }
    if |c| > 3 { OctetClasses(c[3]); }
    NumberOf(c);
    if |c| == 2 {
      Join(N(c[0]) - 0xC0, N(c[1]) - 0x80);
    } else if |c| == 3 {
      JoinTwo(N(c[0]) - 0xE0, N(c[1]) - 0x80, N(c[2]) - 0x80);
    } else if |c| == 4 {
      JoinThree(N(c[0]) - 0xF0, N(c[1]) - 0x80, N(c[2]) - 0x80, N(c[3]) - 0x80);
    }
  }

  lemma NumberOf(c: Text)
    requires IsCharacter(c)
    ensures |c| == 1 ==> Number(c) == N(c[0])
    ensures |c| == 2 ==> Number(c) == (N(c[0]) - 0xC0) * 64 + (N(c[1]) - 0x80)
    ensures |c| == 3 ==> Number(c) == (N(c[0]) - 0xE0) * 4096 + (N(c[1]) - 0x80) * 64 + (N(c[2]) - 0x80)
    ensures |c| == 4 ==>
      Number(c) == (N(c[0]) - 0xF0) * 262144 + (N(c[1]) - 0x80) * 4096 + (N(c[2]) - 0x80) * 64 + (N(c[3]) - 0x80)
    ensures 1 <= |c| <= 4
  {
    hide CharLength, IsContinuation, N;
    OctetClasses(c[0]);
  }

  lemma SpelledExactly(c: Text)
    ensures Spelled(c) <==> IsCharacter(c) && Regular(c)
  {
    hide CharLength, IsContinuation, N, Spells;
    if v :| Spells(c, v) {
      SpelledIsRegular(c, v);
    }
    if IsCharacter(c) && Regular(c) {
      RegularIsSpelled(c);
    }
  }

  /** Main result: a text is UTF-8 exactly when the splitter accepts it and every character it finds
      is regular. */
  lemma Utf8Exactly(text: Text)
    ensures IsUtf8(text) <==> WholeCharacters(text) && forall c :: c in Split(text).value ==> Regular(c)
  {
    hide Regular, Spelled, Split, CharLength, IsContinuation, Flatten;
    if parts :| AllSpelled(parts) && Flatten(parts) == text {
      forall c | c in parts
        ensures IsCharacter(c) && Regular(c)
      {
        SpelledExactly(c);
      }
      SplitFlatten(parts);
    }
    if WholeCharacters(text) && forall c :: c in Split(text).value ==> Regular(c) {
      var parts := Split(text).value;
      FlattenSplit(text);
      forall k | 0 <= k < |parts|
        ensures Spelled(parts[k])
      {
        assert parts[k] in parts;
        SpelledExactly(parts[k]);
      }
      assert AllSpelled(parts);
    }
  }

  /** The splitter accepts the overlong form of U+0000, which is no UTF-8. */
  lemma OverlongIsAccepted()
    ensures Split([0xC0, 0x80]) == Ok([[0xC0, 0x80]]) && !IsUtf8([0xC0, 0x80])
  {
    var c: Text := [0xC0, 0x80];
    OctetClasses(c[0]);
    assert IsCharacter(c) && c + [] == c && Flatten([c]) == c;
    SplitFlatten([c]);
    assert !Regular(c);
    assert c in Split(c).value;
    Utf8Exactly(c);
  }
}
