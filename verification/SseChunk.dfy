/** A fixed-capacity encoder of one server-sent event inside one HTTP chunk. */
module SseChunk {
  import opened Wrappers
  import opened Seqs
  import opened Text

  const PREFIX_BYTES: nat := 18
  const SUFFIX_BYTES: nat := 4

  const DATA: Text := [0x64, 0x61, 0x74, 0x61, 0x3A, 0x20]
  const BLANK_LINE: Text := [0x0A, 0x0A]
  const CRLF: Text := [0x0D, 0x0A]
  const QUOTE: Byte := 0x22
  const BACKSLASH: Byte := 0x5C

  // ---------------------------------------------------------------- JSON string escapes

  function LowerHex(n: Byte): Byte {
    if n < 10 then 0x30 + n else 0x57 + n
  }

  function Escape(b: Byte): (e: Text)
    ensures e != []
  {
    if b == 0x22 then [BACKSLASH, 0x22]
    else if b == 0x5C then [BACKSLASH, 0x5C]
    else if b == 0x08 then [BACKSLASH, 0x62]
    else if b == 0x0C then [BACKSLASH, 0x66]
    else if b == 0x0A then [BACKSLASH, 0x6E]
    else if b == 0x0D then [BACKSLASH, 0x72]
    else if b == 0x09 then [BACKSLASH, 0x74]
    else if b < 0x20 then [BACKSLASH, 0x75, 0x30, 0x30, LowerHex(b >> 4), LowerHex(b & 0x0F)]
    else [b]
  }

  function Escaped(s: Text): Text {
    if s == [] then [] else Escape(s[0]) + Escaped(s[1..])
  }

  /** A reader of JSON string contents (section 7 of RFC 8259), for escapes below U+0100 read as
      one byte: the contents up to the closing quote, and what lies behind it. */
  function ReadString(s: Text): Option<(Text, Text)> {
    if s == [] then None
    else if s[0] == QUOTE then Some(([], s[1..]))
    else if s[0] < 0x20 then None
    else if s[0] != BACKSLASH then Put(s[0], ReadString(s[1..]))
    else if |s| < 2 then None
    else if s[1] == 0x75 then
      if |s| < 6 || s[2] != 0x30 || s[3] != 0x30 || HexValue(s[4]).None? || HexValue(s[5]).None? then None
      else Put((HexValue(s[4]).value << 4) | HexValue(s[5]).value, ReadString(s[6..]))
    else
      var simple := SimpleEscape(s[1]);
      if simple.None? then None else Put(simple.value, ReadString(s[2..]))
  }

  function SimpleEscape(c: Byte): Option<Byte> {
    if c == 0x22 || c == 0x5C || c == 0x2F then Some(c)
    else if c == 0x62 then Some(0x08)
    else if c == 0x66 then Some(0x0C)
    else if c == 0x6E then Some(0x0A)
    else if c == 0x72 then Some(0x0D)
    else if c == 0x74 then Some(0x09)
    else None
  }

  function Put(b: Byte, rest: Option<(Text, Text)>): Option<(Text, Text)> {
    if rest.None? then None else Some(([b] + rest.value.0, rest.value.1))
  }

  lemma HexOfLower(n: Byte)
    requires n < 16
    ensures HexValue(LowerHex(n)) == Some(n)
  {
  }

  lemma ControlNibbles(b: Byte)
    ensures b >> 4 < 16 && b & 0x0F < 16 && ((b >> 4) << 4) | (b & 0x0F) == b
  {
  }

  /** One escaped byte reads back as that byte. */
  lemma ReadEscape(b: Byte, rest: Text)
    ensures ReadString(Escape(b) + rest) == Put(b, ReadString(rest))
  {
    var e := Escape(b);
    var s := e + rest;
    assert s[..|e|] == e && s[|e|..] == rest;
    if |e| == 6 {
      HexOfLower(b >> 4);
      HexOfLower(b & 0x0F);
      ControlNibbles(b);
      assert s[0] == BACKSLASH && s[1] == 0x75 && s[2] == 0x30 && s[3] == 0x30;
      assert s[4] == LowerHex(b >> 4) && s[5] == LowerHex(b & 0x0F);
    }
  }

  /** Only what JSON asks for is escaped, and with two bytes whenever JSON has a short form. */
  lemma EscapeIsShortest(b: Byte)
    ensures |Escape(b)| == 1 <==> b >= 0x20 && b != 0x22 && b != 0x5C
    ensures |Escape(b)| == 2 <==> SimpleEscape(0x62) == Some(b) || SimpleEscape(0x66) == Some(b) || SimpleEscape(0x6E) == Some(b)
                                  || SimpleEscape(0x72) == Some(b) || SimpleEscape(0x74) == Some(b) || b == 0x22 || b == 0x5C
    ensures ReadString(Escape(b) + [QUOTE]) == Some(([b], []))
  {
    ReadEscape(b, [QUOTE]);
    EmptyUnits([b]);
    assert [QUOTE][1..] == [];
  }

  /** Main result: a reader of the escaped string, standing in front of its closing quote, gets
      back exactly the original bytes and stops exactly at that quote. */
  lemma {:induction false} EscapeReadsBack(s: Text, rest: Text)
    ensures ReadString(Escaped(s) + ([QUOTE] + rest)) == Some((s, rest))
  {
    var tail := [QUOTE] + rest;
    if s == [] {
      EmptyUnits(tail);
      assert tail[1..] == rest;
    } else {
      EscapeReadsBack(s[1..], rest);
      Assoc(Escape(s[0]), Escaped(s[1..]), tail);
      ReadEscape(s[0], Escaped(s[1..]) + tail);
      HeadAndTail(s);
    }
  }

  lemma EscapeHasNoControls(b: Byte)
    ensures forall i :: 0 <= i < |Escape(b)| ==> Escape(b)[i] >= 0x20
  {
  }

  /** No raw control character is ever written. */
  lemma {:induction false} EscapedHasNoControls(s: Text)
    ensures forall i :: 0 <= i < |Escaped(s)| ==> Escaped(s)[i] >= 0x20
  {
    if s != [] {
      EscapeHasNoControls(s[0]);
      EscapedHasNoControls(s[1..]);
    }
  }

  lemma {:induction false} EscapedConcat(a: Text, b: Text)
    ensures Escaped(a + b) == Escaped(a) + Escaped(b)
  {
    if a == [] {
      EmptyUnits(b);
      EmptyUnits(Escaped(b));
    } else {
      TailOfConcat(a, b);
      EscapedConcat(a[1..], b);
      Assoc(Escape(a[0]), Escaped(a[1..]), Escaped(b));
    }
  }

  // ---------------------------------------------------------------- numerals

  const DIGITS: Text := [0x30, 0x31, 0x32, 0x33, 0x34, 0x35, 0x36, 0x37, 0x38, 0x39, 0x61, 0x62, 0x63, 0x64, 0x65, 0x66]

  /** `to_chars` in base `base`: lower case, no leading zeros. */
  function Numeral(n: nat, base: nat): (t: Text)
    requires 2 <= base <= 16
    ensures t != []
  {
    if n < base then [DIGITS[n]]
    else
      DivisionFact(n, base);
      Numeral(n / base, base) + [DIGITS[n % base]]
  }

  lemma NumeralStep(n: nat, base: nat)
    requires 2 <= base <= 16 && base <= n
    ensures Numeral(n, base) == Numeral(n / base, base) + [DIGITS[n % base]]
  {
  }

  lemma DivisionFact(n: nat, base: nat)
    requires 2 <= base <= n
    ensures 0 < n / base < n && n / base * base + n % base == n
  {
  }

  function DigitValue(b: Byte, below: nat): (v: Option<nat>)
    requires below <= 16
    ensures v.Some? ==> v.value < below && DIGITS[v.value] == b
  {
    if below == 0 then None else if DIGITS[below - 1] == b then Some(below - 1) else DigitValue(b, below - 1)
  }

  function ValueOf(t: Text, base: nat): Option<nat>
    requires 2 <= base <= 16
  {
    if t == [] then Some(0)
    else
      var head := ValueOf(t[..|t| - 1], base);
      var last := DigitValue(t[|t| - 1], base);
      if head.None? || last.None? then None else Some(head.value * base + last.value)
  }

  lemma DigitsAreDistinct(i: nat, j: nat)
    requires i < j < 16
    ensures DIGITS[i] != DIGITS[j]
  {
  }

  lemma {:induction false} DigitReadsBack(n: nat, below: nat)
    requires n < below <= 16
    ensures DigitValue(DIGITS[n], below) == Some(n)
  {
    if n < below - 1 {
      DigitsAreDistinct(n, below - 1);
      DigitReadsBack(n, below - 1);
    }
  }

  lemma AppendDigit(head: Text, digit: Byte, base: nat, q: nat, v: nat)
    requires 2 <= base <= 16 && ValueOf(head, base) == Some(q) && DigitValue(digit, base) == Some(v)
    ensures ValueOf(head + [digit], base) == Some(q * base + v)
  {
    hide DigitValue;
    var t := head + [digit];
    assert t[..|t| - 1] == head;
  }

  /** A numeral reads back as its number, is made of digits, and never starts with a zero unless
      it is zero. */
  lemma {:induction false} NumeralReadsBack(n: nat, base: nat)
    requires 2 <= base <= 16
    ensures ValueOf(Numeral(n, base), base) == Some(n)
    ensures forall i :: 0 <= i < |Numeral(n, base)| ==> DigitValue(Numeral(n, base)[i], 16).Some?
    ensures n > 0 ==> Numeral(n, base)[0] != 0x30
  {
    hide ValueOf, DigitValue;
    if n < base {
      DigitReadsBack(n, base);
      DigitReadsBack(n, 16);
      NoDigits(base);
      AppendDigit([], DIGITS[n], base, 0, n);
      assert [] + [DIGITS[n]] == [DIGITS[n]];
      if n > 0 {
        DigitsAreDistinct(0, n);
      }
    } else {
      hide Numeral;
      DivisionFact(n, base);
      NumeralStep(n, base);
      NumeralReadsBack(n / base, base);
      DigitReadsBack(n % base, base);
      DigitReadsBack(n % base, 16);
      AppendDigit(Numeral(n / base, base), DIGITS[n % base], base, n / base, n % base);
    }
  }

  lemma NoDigits(base: nat)
    requires 2 <= base <= 16
    ensures ValueOf([], base) == Some(0)
  {
  }

  function Power(base: nat, e: nat): nat {
    if e == 0 then 1 else base * Power(base, e - 1)
  }

  lemma QuotientBelow(n: nat, base: nat, p: nat)
    requires 2 <= base <= n && n < base * p
    ensures n / base < p
  {
    DivisionFact(n, base);
    assert (p - n / base) * base > 0;
  }

  lemma {:induction false} NumeralLength(n: nat, base: nat, width: nat)
    requires 2 <= base <= 16 && width > 0 && n < Power(base, width)
    ensures |Numeral(n, base)| <= width
  {
    hide Numeral, Power;
    PowerStep(base, width - 1);
    if n < base {
      OneDigit(n, base);
    } else {
      NumeralStep(n, base);
      QuotientBelow(n, base, Power(base, width - 1));
      ZeroPower(base);
      DivisionFact(n, base);
      NumeralLength(n / base, base, width - 1);
    }
  }

  lemma OneDigit(n: nat, base: nat)
    requires 2 <= base <= 16 && n < base
    ensures |Numeral(n, base)| == 1
  {
  }

  lemma PowerStep(base: nat, e: nat)
    ensures Power(base, e + 1) == base * Power(base, e)
  {
  }

  lemma ZeroPower(base: nat)
    ensures Power(base, 0) == 1
  {
  }

  lemma SixteenDigits()
    ensures Power(16, 16) == 0x1_0000_0000_0000_0000
  {
    assert Power(16, 4) == 0x1_0000;
    assert Power(16, 8) == 0x1_0000_0000;
    assert Power(16, 12) == 0x1_0000_0000_0000;
  }

  // ---------------------------------------------------------------- one HTTP chunk

  /** The bytes of one chunk around `payload`. */
  function ChunkOf(payload: Text): Text {
    Numeral(|payload|, 16) + CRLF + payload + CRLF
  }

  /** How many leading bytes are hexadecimal digits. */
  function DigitRun(t: Text): (n: nat)
    ensures n <= |t|
  {
    if t != [] && DigitValue(t[0], 16).Some? then 1 + DigitRun(t[1..]) else 0
  }

  /** A reader of one chunk without extensions (section 7.1 of RFC 9112): its data, and the rest. */
  function ReadChunk(t: Text): Option<(Text, Text)> {
    var n := DigitRun(t);
    var size := ValueOf(t[..n], 16);
    if n == 0 || size.None? then None
    else
      var body := t[n..];
      if !(CRLF <= body) || |body| < 2 + size.value + 2 || body[2 + size.value..2 + size.value + 2] != CRLF then None
      else Some((body[2..2 + size.value], body[2 + size.value + 2..]))
  }

  lemma {:induction false} DigitRunOf(digits: Text, rest: Text)
    requires forall i :: 0 <= i < |digits| ==> DigitValue(digits[i], 16).Some?
    requires rest != [] && rest[0] == 0x0D
    ensures DigitRun(digits + rest) == |digits|
  {
    if digits == [] {
      EmptyUnits(rest);
      CarriageReturnIsNoDigit(16);
    } else {
      TailOfConcat(digits, rest);
      DigitRunOf(digits[1..], rest);
    }
  }

  lemma {:induction false} CarriageReturnIsNoDigit(below: nat)
    requires below <= 16
    ensures DigitValue(0x0D, below).None?
  {
    if below > 0 {
      CarriageReturnIsNoDigit(below - 1);
    }
  }

  lemma BodyParts(payload: Text, rest: Text)
    ensures var body := CRLF + payload + CRLF + rest;
            && CRLF <= body && |body| >= 2 + |payload| + 2
            && body[2 + |payload|..2 + |payload| + 2] == CRLF
            && body[2..2 + |payload|] == payload && body[2 + |payload| + 2..] == rest
  {
  }

  /** Main result: a chunk reader gets back exactly the payload, whatever follows. */
  lemma ChunkReadsBack(payload: Text, rest: Text)
    ensures ReadChunk(ChunkOf(payload) + rest) == Some((payload, rest))
  {
    hide Numeral, ValueOf, DigitRun;
    var digits := Numeral(|payload|, 16);
    var body := CRLF + payload + CRLF + rest;
    NumeralReadsBack(|payload|, 16);
    assert ChunkOf(payload) + rest == digits + body;
    BodyParts(payload, rest);
    assert body[0] == 0x0D;
    DigitRunOf(digits, body);
    SplitOfConcat(digits, body);
  }

  // ---------------------------------------------------------------- the builder

  /** The header written in front of the payload completes the chunk. */
  lemma ChunkIsAssembled(stored: Text, begin: nat, digits: nat, size: nat, payload: Text)
    requires begin + digits + 2 == PREFIX_BYTES <= size <= |stored|
    requires stored[begin..begin + digits] == Numeral(|payload|, 16)
    requires stored[begin + digits] == 0x0D && stored[begin + digits + 1] == 0x0A
    requires stored[PREFIX_BYTES..size] == payload + CRLF
    ensures stored[begin..size] == ChunkOf(payload)
  {
    hide Numeral;
    var middle := begin + digits;
    assert stored[middle..PREFIX_BYTES] == CRLF;
    JoinSlices(stored, begin, middle, PREFIX_BYTES);
    JoinSlices(stored, begin, PREFIX_BYTES, size);
    Assoc(Numeral(|payload|, 16) + CRLF, payload, CRLF);
  }

  /** `SseChunkBuilder`.  `wanted` is everything asked for since `Reset`, as if space were unlimited. */
  class SseChunkBuilder {
    const storage: array<Byte>
    const payloadCapacity: nat
    var size: nat
    var failed: bool
    ghost var wanted: Text

    /** Either everything wanted is stored behind the prefix, or it does not fit the storage. */
    ghost predicate Valid()
      reads this, storage
    {
      && storage.Length == PREFIX_BYTES + payloadCapacity + SUFFIX_BYTES < 0x1_0000_0000_0000_0000
      && PREFIX_BYTES <= size <= storage.Length
      && (!failed ==> storage[PREFIX_BYTES..size] == wanted)
      && (failed ==> |wanted| > payloadCapacity + SUFFIX_BYTES)
    }

    constructor (payloadCapacity: nat)
      requires PREFIX_BYTES + payloadCapacity + SUFFIX_BYTES < 0x1_0000_0000_0000_0000
      ensures Valid() && fresh(storage) && this.payloadCapacity == payloadCapacity && wanted == []
    {
      storage := new Byte[PREFIX_BYTES + payloadCapacity + SUFFIX_BYTES](_ => 0);
      this.payloadCapacity := payloadCapacity;
      size, failed, wanted := PREFIX_BYTES, false, [];
    }

    method Reset()
      requires Valid()
      modifies this, storage
      ensures Valid() && wanted == DATA
    {
      size, failed, wanted := PREFIX_BYTES, false, [];
      assert storage[PREFIX_BYTES..size] == [];
      var appended := Append(DATA);
      EmptyUnits(DATA);
    }

    method Append(value: Text) returns (ok: bool)
      requires Valid()
      modifies this, storage
      ensures Valid() && wanted == old(wanted) + value && ok == !failed
      ensures old(failed) ==> failed
    {
      ghost var before := wanted;
      wanted := wanted + value;
      if failed || |value| > storage.Length - size {
        failed := true;
        return false;
      }
      var start := size;
      for k := 0 to |value|
        invariant size == start + k && !failed && wanted == before + value
        invariant storage[PREFIX_BYTES..start] == before
        invariant storage[start..size] == value[..k]
      {
        storage[size] := value[k];
        size := size + 1;
      }
      assert storage[PREFIX_BYTES..size] == storage[PREFIX_BYTES..start] + storage[start..size];
      return true;
    }

    method AppendByte(value: Byte) returns (ok: bool)
      requires Valid()
      modifies this, storage
      ensures Valid() && wanted == old(wanted) + [value] && ok == !failed
    {
      wanted := wanted + [value];
      if failed || size == storage.Length {
        failed := true;
        return false;
      }
      storage[size] := value;
      size := size + 1;
      return true;
    }

    method AppendUnsigned(value: nat) returns (ok: bool)
      requires Valid()
      modifies this, storage
      ensures Valid() && wanted == old(wanted) + Numeral(value, 10) && ok == !failed
    {
      ok := Append(Numeral(value, 10));
    }

    method AppendSigned(value: int) returns (ok: bool)
      requires Valid()
      modifies this, storage
      ensures Valid() && ok == !failed
      ensures wanted == old(wanted) + (if value < 0 then [0x2D] + Numeral(-value, 10) else Numeral(value, 10))
    {
      ok := Append(if value < 0 then [0x2D] + Numeral(-value, 10) else Numeral(value, 10));
    }

    /** The escaping loop gives up at the first byte that does not fit; the rest then counts as
        wanted all the same. */
    method AppendJsonEscaped(value: Text) returns (ok: bool)
      requires Valid()
      modifies this, storage
      ensures Valid() && wanted == old(wanted) + Escaped(value)
      ensures ok <==> !failed || value == []
      ensures old(failed) ==> failed
    {
      hide Escape;
      ghost var before := wanted;
      EmptyUnits(before);
      assert value[0..] == value && value[..0] == [];
      for k := 0 to |value|
        invariant Valid() && wanted == before + Escaped(value[..k])
        invariant k == 0 ==> failed == old(failed)
        invariant k > 0 ==> !failed && !old(failed)
      {
        EscapedSnoc(value, k);
        Assoc(before, Escaped(value[..k]), Escape(value[k]));
        var appended := Append(Escape(value[k]));
        if !appended {
          EscapedSplit(value, k + 1);
          Assoc(before, Escaped(value[..k + 1]), Escaped(value[k + 1..]));
          wanted := wanted + Escaped(value[k + 1..]);
          return false;
        }
      }
      assert value[..|value|] == value;
      return true;
    }

    /** The first part that does not fit ends the work; what is left counts as wanted. */
    method AppendJsonString(value: Text) returns (ok: bool)
      requires Valid()
      modifies this, storage
      ensures Valid() && ok == !failed
      ensures wanted == old(wanted) + [QUOTE] + Escaped(value) + [QUOTE]
    {
      ok := AppendByte(QUOTE);
      if !ok {
        wanted := wanted + Escaped(value) + [QUOTE];
        return;
      }
      ok := AppendJsonEscaped(value);
      if !ok {
        wanted := wanted + [QUOTE];
        return;
      }
      ok := AppendByte(QUOTE);
    }

    /** The overload with a prefix: one string made of both parts. */
    method AppendPrefixedJsonString(prefix: Text, value: Text) returns (ok: bool)
      requires Valid()
      modifies this, storage
      ensures Valid() && ok == !failed
      ensures wanted == old(wanted) + [QUOTE] + Escaped(prefix + value) + [QUOTE]
    {
      hide Escaped;
      EscapedConcat(prefix, value);
      ghost var start := wanted + [QUOTE];
      Assoc(start, Escaped(prefix), Escaped(value));
      ok := AppendByte(QUOTE);
      if !ok {
        wanted := wanted + Escaped(prefix + value) + [QUOTE];
        return;
      }
      ok := AppendJsonEscaped(prefix);
      if !ok {
        wanted := wanted + Escaped(value) + [QUOTE];
        return;
      }
      ok := AppendJsonEscaped(value);
      if !ok {
        wanted := wanted + [QUOTE];
        return;
      }
      ok := AppendByte(QUOTE);
    }

    /** The size line, in front of the payload. */
    method WriteSize(hexadecimal: Text, begin: nat)
      requires begin + |hexadecimal| + 2 == PREFIX_BYTES <= storage.Length
      modifies storage
      ensures storage[begin..begin + |hexadecimal|] == hexadecimal
      ensures storage[begin + |hexadecimal|] == 0x0D && storage[begin + |hexadecimal| + 1] == 0x0A
      ensures storage[PREFIX_BYTES..] == old(storage[PREFIX_BYTES..])
    {
      var digits := |hexadecimal|;
      for index := 0 to digits
        invariant storage[begin..begin + index] == hexadecimal[..index]
        invariant storage[PREFIX_BYTES..] == old(storage[PREFIX_BYTES..])
      {
        storage[begin + index] := hexadecimal[index];
      }
      storage[begin + digits] := 0x0D;
      storage[begin + digits + 1] := 0x0A;
    }

    /** The finished chunk, or nothing: exactly when what was wanted exceeds the capacity. */
    method Finish() returns (chunk: Text)
      requires Valid()
      modifies this, storage
      ensures Valid()
      ensures |old(wanted)| <= payloadCapacity ==> chunk == ChunkOf(old(wanted) + BLANK_LINE)
      ensures |old(wanted)| > payloadCapacity ==> chunk == []
    {
      hide Numeral;
      ghost var payload := wanted + BLANK_LINE;
      var appended := Append(BLANK_LINE);
      if !appended {
        return [];
      }
      var payloadSize := size - PREFIX_BYTES;
      appended := Append(CRLF);
      if !appended {
        return [];
      }
      var hexadecimal := Numeral(payloadSize, 16);
      SixteenDigits();
      NumeralLength(payloadSize, 16, 16);
      var digits := |hexadecimal|;
      var begin := PREFIX_BYTES - (digits + 2);
      ghost var behind := storage[PREFIX_BYTES..];
      assert behind[..size - PREFIX_BYTES] == payload + CRLF;
      WriteSize(hexadecimal, begin);
      assert storage[PREFIX_BYTES..size] == storage[PREFIX_BYTES..][..size - PREFIX_BYTES];
      ChunkIsAssembled(storage[..], begin, digits, size, payload);
      return storage[begin..size];
    }
  }

  lemma EscapedSnoc(value: Text, k: nat)
    requires k < |value|
    ensures Escaped(value[..k + 1]) == Escaped(value[..k]) + Escape(value[k])
  {
    hide Escape;
    assert value[..k + 1] == value[..k] + [value[k]];
    EscapedConcat(value[..k], [value[k]]);
    assert [value[k]][1..] == [];
    EmptyUnits(Escape(value[k]));
  }

  lemma EscapedSplit(value: Text, k: nat)
    requires k <= |value|
    ensures Escaped(value) == Escaped(value[..k]) + Escaped(value[k..])
  {
    assert value == value[..k] + value[k..];
    EscapedConcat(value[..k], value[k..]);
  }

  // ---------------------------------------------------------------- the event

  /** A reader of an event of one field, by the event-stream format of the HTML standard: the field name
      `data`, a colon and a space, the value up to the line feed, and an empty line. */
  function ReadEvent(t: Text): Option<Text> {
    var line := LineOf(t);
    if |t| < 6 || t[0] != 0x64 || t[1] != 0x61 || t[2] != 0x74 || t[3] != 0x61 || t[4] != 0x3A || t[5] != 0x20 then None
    else if |line| < 6 || |line| + 2 != |t| || t[|line| + 1] != 0x0A then None
    else Some(line[6..])
  }

  /** The bytes in front of the first line feed. */
  function LineOf(t: Text): (line: Text)
    ensures line <= t && (|line| < |t| ==> t[|line|] == 0x0A)
  {
    if t == [] || t[0] == 0x0A then [] else [t[0]] + LineOf(t[1..])
  }

  lemma {:induction false} LineEnds(line: Text, rest: Text)
    requires 0x0A !in line
    ensures LineOf(line + ([0x0A] + rest)) == line
  {
    if line != [] {
      assert line[0] in line;
      TailOfConcat(line, [0x0A] + rest);
      LineEnds(line[1..], rest);
      HeadAndTail(line);
    }
  }

  lemma NoLineFeedAhead(data: Text)
    requires 0x0A !in data
    ensures 0x0A !in DATA + data
  {
    forall i | 0 <= i < |DATA + data|
      ensures (DATA + data)[i] != 0x0A
    {
      assert i >= 6 ==> (DATA + data)[i] == data[i - 6];
    }
  }

  /** Main result: what is asked for behind the prefix, without a line feed, is read back from the chunk
      as the data of one event, whatever follows on the connection. */
  lemma EventReadsBack(data: Text, rest: Text)
    requires 0x0A !in data
    ensures var read := ReadChunk(ChunkOf(DATA + data + BLANK_LINE) + rest);
            read.Some? && read.value.1 == rest && ReadEvent(read.value.0) == Some(data)
  {
    hide ReadChunk, ChunkOf, LineOf;
    var payload, line := DATA + data + BLANK_LINE, DATA + data;
    ChunkReadsBack(payload, rest);
    NoLineFeedAhead(data);
    assert payload == line + ([0x0A] + [0x0A]);
    LineEnds(line, [0x0A]);
    assert line[6..] == data;
  }

  /** The data around an escaped string holds no line feed, and the string is read back inside it. */
  lemma StringInEvent(before: Text, value: Text, after: Text)
    requires 0x0A !in before && 0x0A !in after
    ensures var data := before + ([QUOTE] + (Escaped(value) + ([QUOTE] + after)));
            && 0x0A !in data
            && data[|before|] == 0x22 && ReadString(data[|before| + 1..]) == Some((value, after))
  {
    hide ReadString, Escaped;
    var data := before + ([QUOTE] + (Escaped(value) + ([QUOTE] + after)));
    EscapedHasNoControls(value);
    EscapeReadsBack(value, after);
    assert data[|before| + 1..] == Escaped(value) + ([QUOTE] + after);
    NotInFour(before, [QUOTE], Escaped(value), [QUOTE] + after);
  }

  lemma NotInFour(a: Text, b: Text, c: Text, d: Text)
    requires 0x0A !in a && 0x0A !in b && 0x0A !in d && forall i :: 0 <= i < |c| ==> c[i] >= 0x20
    ensures 0x0A !in a + (b + (c + d))
  {
  }
}
