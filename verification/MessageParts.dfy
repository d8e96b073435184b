/** What a message becomes, part by part. */
module MessageParts {
  import opened Wrappers
  import opened Seqs
  import opened Text
  import opened ResponseContent
  import opened ChatTemplate
  import opened Media
  import opened ChatSession

  /** A part that may stand in a message of this role, alone in it or not. */
  predicate Sendable(role: Role, alone: bool, part: Part) {
    match part
    case TextPart(_) => true
    case CallPart(_) => role == Assistant
    case ResultPart(_, _) => role == Tool && alone
    case ImagePart(image) =>
      && role == User && 1 <= image.patchCount <= 280
      && |image.patches| == 6912 * image.patchCount && |image.positions| == 2 * image.patchCount
    case AudioPart(sampleRate, samples) =>
      && role == User && sampleRate == 16000 && 1 <= |samples| <= 480000
      && forall k :: 0 <= k < |samples| ==> samples[k].Some?
  }

  /** One audio token for every 640 samples begun. */
  function AudioTokens(samples: nat): (n: nat)
    ensures 640 * n >= samples && (n == 0 || 640 * (n - 1) < samples)
  {
    if samples % 640 == 0 then samples / 640 else samples / 640 + 1
  }

  function Copies(text: Text, n: nat): Text {
    if n == 0 then [] else Copies(text, n - 1) + text
  }

  /** What a part adds to the text of its message. */
  function PartText(part: Part): Text {
    match part
    case TextPart(text) => text
    case CallPart(_) => []
    case ResultPart(_, output) => output
    case ImagePart(image) => Ascii("<|image>") + Copies(Ascii("<|image|>"), image.patchCount) + Ascii("<image|>")
    case AudioPart(_, samples) => Ascii("<|audio>") + Copies(Ascii("<|audio|>"), AudioTokens(|samples|)) + Ascii("<audio|>")
  }

  function TextOf(parts: seq<Part>): Text {
    if parts == [] then [] else TextOf(parts[..|parts| - 1]) + PartText(parts[|parts| - 1])
  }

  function CallsOf(parts: seq<Part>): seq<ToolCall> {
    if parts == [] then []
    else CallsOf(parts[..|parts| - 1]) + if parts[|parts| - 1].CallPart? then [parts[|parts| - 1].call] else []
  }

  /** The call that the last result answers. */
  function AnsweredCall(parts: seq<Part>): Text {
    if parts == [] then []
    else if parts[|parts| - 1].ResultPart? then parts[|parts| - 1].callId
    else AnsweredCall(parts[..|parts| - 1])
  }

  function AudioOf(parts: seq<Part>): seq<nat> {
    if parts == [] then []
    else AudioOf(parts[..|parts| - 1]) + if parts[|parts| - 1].AudioPart? then [AudioTokens(|parts[|parts| - 1].samples|)] else []
  }

  function ImagesOf(parts: seq<Part>): seq<nat> {
    if parts == [] then []
    else ImagesOf(parts[..|parts| - 1]) + if parts[|parts| - 1].ImagePart? then [parts[|parts| - 1].image.patchCount] else []
  }

  function PositionsOf(parts: seq<Part>): seq<seq<int>> {
    if parts == [] then []
    else PositionsOf(parts[..|parts| - 1]) + if parts[|parts| - 1].ImagePart? then [parts[|parts| - 1].image.positions] else []
  }

  predicate AllSendable(role: Role, alone: bool, parts: seq<Part>) {
    forall k :: 0 <= k < |parts| ==> Sendable(role, alone, parts[k])
  }

  lemma {:induction false} CopiesAreRepeated(text: Text, n: nat)
    ensures Copies(text, n) == Repeated(text, n)
  {
    if n > 0 {
      CopiesAreRepeated(text, n - 1);
      RepeatedCommutes(text, n - 1);
    }
  }

  lemma {:induction false} RepeatedCommutes(text: Text, n: nat)
    ensures Repeated(text, n) + text == text + Repeated(text, n)
  {
    if n == 0 {
      EmptyUnits(text);
    } else {
      RepeatedCommutes(text, n - 1);
      Assoc(text, Repeated(text, n - 1), text);
    }
  }

  lemma FramesAreTokens(samples: nat)
    ensures AudioFrames(samples) == AudioTokens(samples)
    ensures AudioFrames(samples) <= 750 <==> samples <= 480000
  {
  }

  lemma BlockIsWritten(begin: Text, placeholder: Text, end: Text, n: nat)
    ensures begin + (Repeated(placeholder, n) + end) == begin + Copies(placeholder, n) + end
  {
    CopiesAreRepeated(placeholder, n);
    Assoc(begin, Copies(placeholder, n), end);
  }

  lemma TextOfPart(part: Part)
    ensures part.ImagePart? ==> BlockString(IMAGE_BLOCK, part.image.patchCount) == PartText(part)
    ensures part.AudioPart? ==> BlockString(AUDIO_BLOCK, AudioFrames(|part.samples|)) == PartText(part)
  {
    hide Ascii, Copies, AudioTokens, AudioFrames;
    match part {
      case ImagePart(image) => BlockIsWritten(Ascii("<|image>"), Ascii("<|image|>"), Ascii("<image|>"), image.patchCount);
      case AudioPart(_, samples) =>
        FramesAreTokens(|samples|);
        BlockIsWritten(Ascii("<|audio>"), Ascii("<|audio|>"), Ascii("<audio|>"), AudioTokens(|samples|));
      case _ =>
    }
  }

  /** What one more part adds to a message under construction. */
  function WithPart(d: Draft, part: Part): Draft {
    var m := d.message;
    Draft(
      ChatMessage(m.role, m.content + PartText(part), m.toolCalls + (if part.CallPart? then [part.call] else []),
                  if part.ResultPart? then part.callId else m.toolCallId, m.toolName),
      d.audio + (if part.AudioPart? then [AudioTokens(|part.samples|)] else []),
      d.images + (if part.ImagePart? then [part.image.patchCount] else []),
      d.positions + (if part.ImagePart? then [part.image.positions] else []))
  }

  lemma PartIsAdded(message: Message, d: Draft, part: Part)
    ensures AddPart(message, d, part).Ok? <==> Sendable(message.role, |message.content| == 1, part)
    ensures AddPart(message, d, part).Ok? ==> AddPart(message, d, part).value == WithPart(d, part)
  {
    hide BlockString, PartText, AudioTokens, AudioFrames, Ascii;
    if part.AudioPart? {
      FramesAreTokens(|part.samples|);
    }
    TextOfPart(part);
    PlainPartText(part);
    EmptyUnits(d.message.content);
    EmptyUnits(d.message.toolCalls);
    EmptyUnits(d.audio);
    EmptyUnits(d.images);
    EmptyUnits(d.positions);
  }

  lemma PlainPartText(part: Part)
    ensures part.TextPart? ==> PartText(part) == part.text
    ensures part.CallPart? ==> PartText(part) == []
    ensures part.ResultPart? ==> PartText(part) == part.output
  {
  }

  /** The message under construction behind its first parts. */
  function DraftOf(role: Role, parts: seq<Part>): Draft {
    Draft(ChatMessage(role, TextOf(parts), CallsOf(parts), AnsweredCall(parts), []), AudioOf(parts), ImagesOf(parts), PositionsOf(parts))
  }

  lemma DraftGrows(role: Role, before: seq<Part>, last: Part)
    ensures DraftOf(role, before + [last]) == WithPart(DraftOf(role, before), last)
  {
    hide PartText, AudioTokens;
    assert (before + [last])[..|before|] == before;
  }

  lemma NoParts(message: Message)
    ensures AddParts(message, 0) == Ok(DraftOf(message.role, [])) && AllSendable(message.role, |message.content| == 1, [])
  {
  }

  lemma AddPartsStep(message: Message, n: nat)
    requires 0 < n <= |message.content|
    ensures var before := AddParts(message, n - 1);
            AddParts(message, n) == if before.Err? then before else AddPart(message, before.value, message.content[n - 1])
  {
    hide AddPart;
  }

  lemma {:induction false} PartsAreAdded(message: Message, n: nat)
    requires n <= |message.content|
    ensures AddParts(message, n).Ok? <==> AllSendable(message.role, |message.content| == 1, message.content[..n])
    ensures AddParts(message, n).Ok? ==> AddParts(message, n).value == DraftOf(message.role, message.content[..n])
  {
    hide AddPart, AddParts, AllSendable, Sendable, WithPart, DraftOf;
    if n == 0 {
      NoParts(message);
      assert message.content[..0] == [];
    } else {
      var before, last := message.content[..n - 1], message.content[n - 1];
      PartsAreAdded(message, n - 1);
      AddPartsStep(message, n);
      assert message.content[..n] == before + [last];
      SendableSplits(message.role, |message.content| == 1, before, last);
      DraftGrows(message.role, before, last);
      if AddParts(message, n - 1).Ok? {
        PartIsAdded(message, AddParts(message, n - 1).value, last);
      }
    }
  }

  lemma SendableSplits(role: Role, alone: bool, before: seq<Part>, last: Part)
    ensures AllSendable(role, alone, before + [last]) <==> AllSendable(role, alone, before) && Sendable(role, alone, last)
  {
    hide Sendable;
    var parts := before + [last];
    assert parts[|before|] == last && forall k :: 0 <= k < |before| ==> parts[k] == before[k];
  }

  /** Too much audio, and nothing else, is unsupported. */
  predicate TooLong(role: Role, part: Part) {
    && part.AudioPart? && role == User && part.sampleRate == 16000 && |part.samples| > 480000
    && forall k :: 0 <= k < |part.samples| ==> part.samples[k].Some?
  }

  lemma PartFailsWith(message: Message, d: Draft, part: Part)
    requires AddPart(message, d, part).Err?
    ensures AddPart(message, d, part).code == if TooLong(message.role, part) then Unsupported else InvalidArgument
  {
    hide BlockString, AudioFrames, Ascii;
    if part.AudioPart? {
      FramesAreTokens(|part.samples|);
    }
  }

  /** A message fails for its first part that may not stand in it. */
  lemma FailsForFirst(message: Message, k: nat)
    requires k < |message.content| && AllSendable(message.role, |message.content| == 1, message.content[..k])
    requires !Sendable(message.role, |message.content| == 1, message.content[k])
    ensures MaterializeOne(message) == Err(if TooLong(message.role, message.content[k]) then Unsupported else InvalidArgument)
  {
    hide AddPart, AddParts, AllSendable, Sendable, DraftOf, TooLong;
    PartsAreAdded(message, k);
    AddPartsStep(message, k + 1);
    var d := AddParts(message, k).value;
    PartIsAdded(message, d, message.content[k]);
    PartFailsWith(message, d, message.content[k]);
    ErrorStays(message, k + 1, |message.content|);
  }

  /** Main result: a message materialises if and only if it has parts and all of them may stand in it;
      its text is the texts of its parts, its calls and media are theirs, in order. */
  lemma MaterializedExactly(message: Message)
    ensures MaterializeOne(message).Ok?
       <==> message.content != [] && AllSendable(message.role, |message.content| == 1, message.content)
    ensures MaterializeOne(message).Ok? ==> MaterializeOne(message).value == DraftOf(message.role, message.content)
  {
    hide AllSendable, DraftOf, AddParts;
    PartsAreAdded(message, |message.content|);
    assert message.content[..|message.content|] == message.content;
  }
}
