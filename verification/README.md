# gem16 host-side model

A Dafny model of the host-side logic of gem16, a local inference server for Gemma checkpoints, and
proofs about it. `dafny verify dfyconfig.toml` checks the whole project.

| module | what it models |
|---|---|
| `Bpe`, `Utf8`, `Rfc3629`, `Text`, `Tokenizer`, `TokenizerDecode`, `TokenizerLoad` | the byte-fallback BPE tokenizer: merging, splitting at added tokens, encoding, decoding, loading; its splitter against section 3 of RFC 3629 |
| `TokenizerInput`, `DecodedText` | what encoding hands to merging, character by character, and what decoding says, token by token |
| `ResponseChannel`, `VisibleTokens` | the per-token recogniser that separates reasoning from visible text, and which tokens it shows |
| `ResponseContent`, `ResponseFields` | response extraction, and what it returns for text put together of fields |
| `ChatTemplate`, `TemplateText` | the chat template and its continuations, and their text written out |
| `Media`, `MediaText`, `MediaTurns`, `MediaRuns` | printing and re-locating media blocks in tokens, in text, in the first conversation, and on later turns over whole runs |
| `PrefillPlan`, `MediaChunks` | prefill chunks that never split an image |
| `ConversationSession`, `GeneratedOutputs` | the backend session: engine cache, prefix check, decode loop, reasoning budget, poison; which outputs it generates |
| `ChatSession`, `ChatRuns` | the resident chat session as a class, as a transition function, and over whole runs |
| `MessageParts`, `Admission`, `SessionReply` | which messages can be sent, which requests a session admits, and what a successful call answers |
| `SessionText`, `SessionTools`, `SessionRender` | the prompts of a session read back as text, against a fresh rendering of what it holds, and when there is one |
| `SessionPoison`, `SessionBackend` | when a successful inference poisons; sessions with real tables meet the backend's checks |
| `Minifloat`, `Nvfp4`, `Nvfp4Storage`, `Fp8` | the E2M1 and E4M3FN codecs and the block and token quantisers (OCP Microscaling Formats v1.0, sections 5.3.3 and 5.3.1) |
| `SseChunk` | one server-sent event in one HTTP chunk (section 7.1 of RFC 9112) with JSON escaping (section 7 of RFC 8259) |
| `Words`, `MemoryPlan`, `Manifest`, `Safetensors` | checked 64-bit arithmetic, the arena plan, manifest accounting, the tensor tables |
| `ImageBudget`, `Sampling` | loading images: target sizes, patch positions and media budgets; the specified sampling stream and filters |
| `Sorting`, `Seqs`, `Wrappers` | sorting as specified, sequence facts, results |

Code that changes state step by step is a class or a method with loops, proved against a function
on values (`...Spec`, `Step`, `Batched`, `Chunks`, ...); what the code is for is then proved about
that function.

## How the results fit together

* A text goes through `Encode`, is merged in batched passes (equal to one merge at a time by
  `BatchedIsClassic`) and comes back through `Decode` unchanged (`RoundTripExactly`).
* A conversation is rendered once and then only extended. `RenderIsIncremental` shows when the
  extension is the text of a full rendering; `RoundTrip` and `DecodeConcat` carry this to tokens;
  `EveryPromptReadsAsFreshExactly` and `ToolPromptReadsAsFreshExactly` state it for the prompts of
  `ChatSession::Generate` over whole runs, against the messages the session holds.
* `EveryPromptExtendsTheCache`, `BackendAcceptsExactly` and `BackendRefusesExactly` connect the chat
  session to the backend: the cached prefix is what the backend holds, each prompt extends it, and
  the backend merely refuses a prepared call only for an image position off its grid, which images
  that were loaded by `LoadVisionImageBytes` never have (`LoadedImagesAreNeverRefused`). What these
  results assume of the chat processor holds for loaded tables (`LoadedIsReliable`).
* Media printed by the session are found again: in tokens by `PrintThenLocate`, from the parts of the
  first conversation through rendering and encoding by `FirstCallIsPrepared`, and on later turns,
  behind whatever was generated, exactly when `LaterMediaTurnExactly` says. They reach the engine in
  chunks that never cut an image, from any cached prefix (`SoundSessionImagesAreChunks`).
* What the specification functions return is also told without them: the selected pair and the end of
  merging (`SelectedExactly`, `LoadedLeaveNothing`), the input of merging (`OrdinaryIsMerged`), decoded
  text (`DecodedExactly`), visible tokens (`VisibleExactly`, `BlocksAreHidden`), extraction
  (`ComposedExtracts` and its converse), rendering (`DialogueRenders`), admission (`AdmittedExactly`),
  outputs (`OutputsAreChosen`), replies (`SuccessAnswers`) and accepted files (`FileExactly`).
* The byte totals of the manifest are what the memory planner recomputes (`ManifestNeverDisagrees`).

## What the proofs found

* Batched merging equals classical BPE on every input for well-ranked tables (`BatchedIsClassic`);
  `BatchedDiffersWhenIllRanked` shows an ill-ranked table and an input on which they differ.
* The recogniser of the thinking channel restarts a failed match at one token at most. It is exact
  if and only if every border of the opener continues like the opener (`MatchIsLongestExactly`).
* A successful inference can still poison the session. `SuccessPoisonsExactly` lists the ways: a
  content token without a text, a visible text cut off inside a thinking field or a tool call, a
  miscount of reasoning tokens, calls that do not parse or are not admitted. A reply that reaches the
  token limit inside a tool call is one (`CutOffCallPoisons`, `CutOffCallHappens`).
* The miscount: a stop token generated inside the reasoning channel is counted as reasoning while
  streaming but is removed before the recount (`StopInsideReasoningHappens`); with reasoning off
  nothing is counted while streaming, but a reasoning block in the content is (`CountsDifferExactly`).
* The locators also read what was generated. A begin mark 255999 or 256000 can be generated, and
  while it stands behind the resident media without an end mark, every call that adds media of that
  kind is refused with DataLoss, without poison (`StuckRefuses`, `RefusedForGood`,
  `GeneratedBeginHappens`). Without a begin mark there, media are always found (`HasRoomExactly`).
* The session checks only how many image positions there are (`src/runtime/chat.cpp:100-104`), the
  backend also their range (`src/cuda/inference_session.cuh:276-284`): an image of another origin
  than the loader can be prepared and then refused (`BackendRefusesExactly`, `PositionRefusalHappens`).
* The comment at `include/gem16/engine.h:52-54` says that tool-result continuations render the
  reasoning opener into the prompt. The code sets `starts_in_reasoning` for every such continuation
  (`src/runtime/chat.cpp:513`) but appends the opener only with thinking on
  (`src/model/tokenizer.cpp:1053`). The model follows the code: with thinking off the first token of
  the answer counts as reasoning and the second is a forced close (`ToolAnswerWithoutThinking`).
* A resident conversation holds the text of a fresh rendering exactly when thinking is on and every
  reply is rendered as it was generated: otherwise the closed thought channel of the generation
  prompt, or the thinking of a reply, stays in it (`RenderIsIncremental`,
  `EveryPromptReadsAsFreshExactly`).
* A conversation with a reply after tool results can be continued but not rendered afresh: the
  renderer refuses the reply as a second assistant turn in a row (`ReplyAfterToolsIsRefused`).
  `HeldMessagesRenderExactly` says over whole runs which resident conversations do render.
* NVFP4 quantisation is not idempotent for two bands of block maxima with scale codes 1 and 2
  (`StableExactly`).
* An empty added token is accepted by the loader and makes `Encode` loop forever on every nonempty text that
  starts with no other added token (`EmptyTokenStalls`; exactly when: `ScanReturnsExactly`).
* A vocabulary in which the empty text shares an ID loads. Its merges still join their texts unless
  a kept merge entry has an empty side (`MergesJoinExactly`), and then the round trip can fail
  (`SharedEmptySideBreaksRoundTrip`).
* `Utf8Characters` checks lead and continuation bytes only. `Utf8Exactly` says which of the texts it
  accepts are UTF-8 by section 3 of RFC 3629, and `OverlongIsAccepted` gives one that is not. The
  model follows the code, and the round trip holds for all of them.

## Model

| member | source | states |
|---|---|---|
| `Bpe.SelectPair` | src/model/tokenizer.cpp:482-493 | the index scan finds the leftmost occurrence of the pair of least rank below 4294967295, or nothing when no neighbouring pair has a merge of such a rank |
| `Bpe.BestIsLeast` | src/model/tokenizer.cpp:482-493 | the selected pair occurs, no selectable neighbouring pair ranks below it, and nothing is selected exactly when nothing is selectable |
| `Bpe.SelectedExactly` | src/model/tokenizer.cpp:482-493 | told from the table alone: something is selected if and only if some neighbouring pair has a merge of a rank below 4294967295, and then the leftmost neighbours of least rank |
| `Bpe.ReplacePass` | src/model/tokenizer.cpp:495-507 | one pass replaces all non-overlapping occurrences of the pair, scanning from the left |
| `Bpe.PassFromTheLeft` | src/model/tokenizer.cpp:495-507 | a pass leaves everything before the first occurrence, puts the new token for it, and goes on behind it; a classical step stops there |
| `Bpe.MergeSymbols` | src/model/tokenizer.cpp:481-509 | the loop of passes ends with the batched normal form of its input, in which no neighbouring pair has a merge of a rank below 4294967295; every pass shortens the symbols, which is the loop measure |
| `Bpe.BatchedIsClassic` | src/model/tokenizer.cpp:481-509 | when every merge that consumes a token ranks after every merge that produces it, batched passes give exactly the result of merging one leftmost least-rank pair at a time |
| `Bpe.BatchedDiffersWhenIllRanked` | src/model/tokenizer.cpp:481-509 | without that ranking the two differ: a two-merge table and a four-symbol input on which the batched result is not the classical one |
| `Bpe.BatchedIsNormal` | src/model/tokenizer.cpp:481-509 | the result holds no mergeable pair, is no longer than the input, and is empty only for the empty input |
| `Bpe.UnrankedNeverMerge` | src/model/tokenizer.cpp:482-493 | merges of rank 4294967295 or above are never applied: the result is that of the table without them |
| `Bpe.NothingLeftToMerge` | src/model/tokenizer.cpp:481-509 | when all ranks are below that, no two neighbours of the result have a merge in the table |
| `Utf8.Utf8Characters` | src/model/tokenizer.cpp:347-377 | the splitter returns the characters, or InvalidArgument exactly when the text is no sequence of whole characters |
| `Utf8.SplitFlatten` | src/model/tokenizer.cpp:347-377 | splitting undoes concatenation: a list of characters is the only split of its text |
| `Utf8.FlattenSplit` | src/model/tokenizer.cpp:347-377 | splitting loses no byte |
| `Rfc3629.SpelledExactly` | src/model/tokenizer.cpp:347-377 | a character of the splitter is an octet sequence of section 3 of RFC 3629 if and only if it is neither overlong nor a surrogate nor beyond U+10FFFF |
| `Rfc3629.Utf8Exactly` | src/model/tokenizer.cpp:347-377 | a text is UTF-8 by that section if and only if the splitter accepts it and all its characters are of that kind |
| `Rfc3629.OverlongIsAccepted` | src/model/tokenizer.cpp:347-377 | the splitter accepts the two bytes C0 80, which are no UTF-8 |
| `Text.Trim` | src/model/tokenizer.cpp:76-82 | the two moving indices cut exactly the leading and trailing white space |
| `Text.TrimIsIdempotent` | src/model/tokenizer.cpp:76-82 | trimmed text is left alone by trimming |
| `Text.TrimExactly` | src/model/tokenizer.cpp:76-82 | what is cut off at either end is white space, and what is left begins and ends with none |
| `Tokenizer.FallbackRoundTrip` | src/model/tokenizer.cpp:379-388 | for every byte, parsing the byte-fallback spelling gives the byte back |
| `Tokenizer.BuildInitialSymbols` | src/model/tokenizer.cpp:462-479 | one vocabulary ID per known character and one fallback ID per byte of an unknown one, or DataLoss when a fallback token is missing |
| `Tokenizer.EncodeOrdinary` | src/model/tokenizer.cpp:449-510 | space normalisation, UTF-8 splitting, byte fallback and merging, with their errors in order |
| `TokenizerInput.OrdinaryIsMerged` | src/model/tokenizer.cpp:449-510 | the tokens of ordinary text are the merging of one place per character: the token of the character, U+2581 standing for a space, or the fallback tokens of its bytes; DataLoss if and only if some character has neither |
| `TokenizerInput.KnownIsMerged` | src/model/tokenizer.cpp:449-510 | with every character known, merging starts from exactly one token per character |
| `TokenizerInput.OtherTextIsRefused` | src/model/tokenizer.cpp:347-377 | text that is no sequence of whole characters gets InvalidArgument, whatever the tables |
| `Tokenizer.MatchAdded` | src/model/tokenizer.cpp:606-618 | the added-token probe at an offset returns the first entry of the table that matches there |
| `DecodedText.FirstMatchExactly` | src/model/tokenizer.cpp:606-618 | a token matches at a place if and only if its text stands there, and of several the one that comes first in the table is taken |
| `Tokenizer.FirstMatchIsLongest` | src/model/tokenizer.cpp:591-594 | on the table sorted by descending length the first match is a longest one |
| `Tokenizer.Encode` | src/model/tokenizer.cpp:598-632 | the scan with its two indices equals leftmost-longest splitting at added tokens with the ordinary encoder between them; it terminates when added tokens are nonempty |
| `Tokenizer.ScanReturnsExactly` | src/model/tokenizer.cpp:598-632 | on any table, empty added tokens included, the loop returns if and only if it does not get, without an error, to a place where an empty added token is the first match |
| `Tokenizer.NonEmptyNeverStalls` | src/model/tokenizer.cpp:598-632 | with nonempty added tokens it never gets to such a place |
| `Tokenizer.EmptyTokenStalls` | src/model/tokenizer.cpp:598-632 | with an empty added token it never returns on a nonempty text that starts with no other added token |
| `Tokenizer.EncodeComposes` | src/model/tokenizer.cpp:598-632 | if the scan of s + t emits an added token starting exactly at |s| and none straddles |s|, encoding s + t is encoding s and then t |
| `DecodedText.PlainEncodesWhole` | src/model/tokenizer.cpp:598-632 | text in which no added token matches is encoded as ordinary text, as one whole |
| `DecodedText.EncodesFromTheLeft` | src/model/tokenizer.cpp:598-632 | otherwise the text before the first match is ordinary, then comes the ID of the matching token, and the rest is encoded on its own |
| `Tokenizer.UnmarkFixes` | src/model/tokenizer.cpp:653-663 | replacing U+2581 by a space changes a text exactly when it holds U+2581 |
| `TokenizerDecode.Decode` | src/model/tokenizer.cpp:634-667 | the decode loop equals, token by token, skipping, byte fallback or the U+2581 rewrite, or fails on an absent ID |
| `DecodedText.DecodedExactly` | src/model/tokenizer.cpp:634-667 | decoding gives the texts of the tokens one after the other: nothing for a skipped special token, its text for an unskipped one, the byte of a byte token, and otherwise its text with spaces; InvalidArgument if and only if a token has no text |
| `DecodedText.SkippedIsDropped` | src/model/tokenizer.cpp:634-667 | skipping special tokens is decoding the list without them |
| `DecodedText.ParsesExactly` | src/model/tokenizer.cpp:379-388 | a token stands for a byte if and only if it reads <0xHH> with two hexadecimal digits, and that is the byte |
| `DecodedText.UnmarkExactly` | src/model/tokenizer.cpp:653-663 | pieces without U+2581 joined by U+2581 become the same pieces joined by spaces |
| `TokenizerDecode.DecodeConcat` | src/model/tokenizer.cpp:634-667 | decoding is compositional: two token lists one after the other decode to their texts one after the other |
| `TokenizerDecode.OrdinaryReadsBack` | src/model/tokenizer.cpp:449-510 | whatever the merges do, decoding the tokens of an ordinary segment gives the segment with U+2581 read as a space |
| `TokenizerDecode.EncodeReadsBack` | src/model/tokenizer.cpp:598-667 | decoding an encoding gives every added token verbatim and every ordinary segment with U+2581 read as a space |
| `TokenizerDecode.RoundTrip` | src/model/tokenizer.cpp:598-667 | for every text without U+2581 on which encoding succeeds, decoding the tokens gives the text back |
| `TokenizerDecode.RoundTripExactly` | src/model/tokenizer.cpp:598-667 | when every added token is whole characters and no special one holds U+2581, the round trip of a text that encodes succeeds if and only if the text holds no U+2581 |
| `TokenizerDecode.EncodeNonEmpty` | src/model/tokenizer.cpp:598-632 | a nonempty text never encodes to no tokens |
| `TokenizerLoad.LoadVocabulary` | src/model/tokenizer.cpp:542-552 | loading fails if and only if an entry takes the ID of an earlier one with a nonempty text, and otherwise fills the ID table and the text table from every entry |
| `TokenizerLoad.AcceptedIdsAreDistinct` | src/model/tokenizer.cpp:542-552 | in an accepted vocabulary nonempty texts have distinct IDs |
| `TokenizerLoad.LoadMerges` | src/model/tokenizer.cpp:554-571 | merges load exactly when all three texts of every entry are in the vocabulary; each pair keeps the rank and result of its first entry |
| `TokenizerLoad.LoadedTablesAgree` | src/model/tokenizer.cpp:534-571 | in all loaded tables every nonempty text is found under its ID, and merge ranks are distinct |
| `TokenizerLoad.LoadedLeaveNothing` | src/model/tokenizer.cpp:554-571 | on tables loaded from at most 4294967295 merge entries no two neighbours of a merged text have a merge left |
| `TokenizerLoad.MergesJoinExactly` | src/model/tokenizer.cpp:554-571 | on loaded tables every merge results in the concatenation of its two texts, if and only if no kept merge entry has an empty side while the empty text shares its ID with another |
| `TokenizerLoad.SharedEmptySideBreaksRoundTrip` | src/model/tokenizer.cpp:545-571 | the exception loads: on one vocabulary with a shared empty text and a merge with an empty side, the text aa encodes to a token that decodes to a |
| `ResponseChannel.ResponseChannelTracker.constructor` | include/gem16/tokenizer.h:66-72 | a tracker starts with nothing matched, in reasoning or not as asked |
| `ResponseChannel.ResponseChannelTracker.Observe` | src/model/tokenizer.cpp:879-915 | one observation updates every field and classifies the token as the step function says, and keeps the match index in bounds |
| `ResponseChannel.ExtractTokenIds` | src/runtime/chat.cpp:276-303 | the extraction loops return the subsequence of tokens on the asked channel |
| `ResponseChannel.CounterIsExtractLength` | src/model/tokenizer.cpp:881-887 | at every point the reasoning counter is the number of tokens classified as reasoning |
| `ResponseChannel.ChannelsPartition` | src/model/tokenizer.cpp:879-915 | reasoning, visible and control tokens together are exactly the stream |
| `ResponseChannel.StepKeepsLongest` | src/model/tokenizer.cpp:900-914 | the fallback of a failed match keeps the longest opener prefix that ends the tokens read |
| `ResponseChannel.MatchIsLongest` | src/model/tokenizer.cpp:895-914 | over every stream the match length is the longest opener prefix that is a suffix of the tokens since the last channel event |
| `ResponseChannel.MatchIsLongestExactly` | src/model/tokenizer.cpp:895-914 | the recogniser is exact on all streams if and only if every border of the opener continues like the opener itself |
| `ResponseChannel.NoRecurrenceHasNoBorders` | src/model/tokenizer.cpp:900-914 | an opener whose first token does not recur in it satisfies that condition |
| `ResponseChannel.FirstOpenerOpens` | src/model/tokenizer.cpp:900-914 | reasoning starts exactly after the first full occurrence of the opener |
| `ResponseChannel.NoReasoningAfterClose` | src/model/tokenizer.cpp:881-893 | once reasoning has closed no later token is counted or classified as reasoning |
| `ResponseChannel.ReasoningIsOneBlock` | src/model/tokenizer.cpp:879-915 | a token is reasoning exactly when it lies between the end of the first opener and the first close token after it |
| `VisibleTokens.VisibleExactly` | src/model/tokenizer.cpp:879-915 | a token is visible if and only if it is no close token, no opening up to it is still unclosed, and the tokens since the last close end in no part of an opener |
| `VisibleTokens.BlocksAreHidden` | src/runtime/chat.cpp:276-303 | of a reply with any number of thought blocks exactly the texts around them are visible and exactly the first thought is reasoning |
| `ResponseChannel.ExtractedReasoningIsBlock` | src/runtime/chat.cpp:276-289 | the extracted reasoning is that one slice of the stream, and the counter is its length |
| `ResponseChannel.NoReasoningExactly` | src/runtime/chat.cpp:276-289 | no reasoning is extracted if and only if no opener is followed by a token other than the close token |
| `ResponseChannel.ReasoningIsContiguous` | src/model/tokenizer.cpp:879-915 | between two reasoning tokens every token is reasoning |
| `Media.LocateSegments` | src/runtime/chat.cpp:164-219 | both locators, as one loop over the wanted counts with a moving search position |
| `Media.PrintThenLocate` | src/runtime/chat.cpp:164-219 | in any stream of boundary-free runs and printed blocks, the locator of a kind returns exactly the offsets of its blocks, in order |
| `Media.LocatedIsWellPlaced` | src/runtime/chat.cpp:164-219 | whatever the prompt, located segments are whole begin-placeholders-end blocks, in order, disjoint and in bounds |
| `Media.LocateIsPrefixStable` | src/runtime/chat.cpp:164-219 | on a longer prompt with more media the result starts with the offsets found in the shorter one |
| `Media.PrintLocateExactly` | src/runtime/chat.cpp:164-219 | behind a printed stream, a locator succeeds if and only if the wanted counts are the first ones printed of its kind |
| `Media.LaterMediaExactly` | src/runtime/chat.cpp:164-219 | behind any tokens that hold the earlier media, the locator of a kind finds those and the printed new ones if and only if what stands behind the last earlier block leaves room: no begin mark, or begin marks of whole blocks with the wanted counts, as far as they go |
| `Media.RoomWithoutEnd` | src/runtime/chat.cpp:164-219 | when no end mark stands behind the last earlier block, that is so if and only if nothing of the kind is added or no begin mark stands there |
| `Media.AppendBlock` | src/runtime/chat.cpp:96-101 | the printing loop appends the begin marker, the placeholders and the end marker |
| `Media.BlockTextEncodes` | src/runtime/chat.cpp:96-137 | when the marker texts win every added-token match, the printed block encodes to its begin token, n placeholders and end token, whatever follows |
| `MediaText.BoundaryEmits` | src/model/tokenizer.cpp:598-632 | the scan emits an added token at every < where one matches: none that starts earlier reaches across it |
| `MediaText.EncodeHoldsNo` | src/model/tokenizer.cpp:449-632 | a text that does not hold the text of a special added token never encodes to that token, merges and byte fallback included |
| `MediaText.WriteEncodes` | src/runtime/chat.cpp:96-137 | texts and printed blocks in any order encode to the encodings of the texts with the token blocks between them |
| `MediaText.WrittenIsLocated` | src/runtime/chat.cpp:164-219 | both locators find exactly the blocks of such a text, at their printed offsets, when the texts hold no begin mark |
| `MediaText.ContentIsWritten` | src/runtime/chat.cpp:69-139 | the content of a user message is its texts and blocks in part order, and the media counts are those of its blocks |
| `MediaText.FramedWrites` | src/model/tokenizer.cpp:940-1005 | trimming the content inside the template touches the first and the last text only, never a block |
| `MediaTurns.TurnsAreWritten` | src/model/tokenizer.cpp:940-1005 | the rendered turns of any conversation are its texts with the media blocks of its user messages between them, each trimmed at the outer texts only, and the blocks are those of all messages in order |
| `MediaTurns.FirstCallIsPrepared` | src/runtime/chat.cpp:362-507 | an admitted first call with any conversation, media in any of its user messages, is prepared if and only if it renders, encodes and leaves room to answer: no locator refuses it when its texts hold no begin mark |
| `MediaRuns.RunHoldsMedia` | src/runtime/chat.cpp:362-619 | over every run both locators find the media of the resident messages in the resident tokens |
| `MediaRuns.LaterMediaTurnExactly` | src/runtime/chat.cpp:362-507 | over every run, an admitted later user turn of texts and media without begin marks is prepared if and only if it encodes, leaves room to answer, and for either kind the resident tokens behind the resident media leave room for what is added |
| `MediaRuns.HasRoomExactly` | src/runtime/chat.cpp:164-219 | without a begin mark among those tokens there is room for anything; with one and no end mark there is room if and only if nothing of the kind is added |
| `MediaRuns.LaterToolTurnIsLocated` | src/runtime/chat.cpp:362-507 | over every run, an admitted call that answers tools is prepared if and only if it encodes and leaves room to answer: no locator refuses it |
| `MediaRuns.StuckRefuses` | src/runtime/chat.cpp:497-507 | when a begin mark but no end mark stands behind the resident media of a kind, every admitted call that adds such media is refused with DataLoss, and the session is left as it was, unpoisoned |
| `MediaRuns.RefusedForGood` | src/runtime/chat.cpp:362-619 | over every continuation of such a run in which no end mark gets behind those media, the same holds after it |
| `MediaRuns.GeneratedBeginSticks` | src/runtime/chat.cpp:540-556 | a reply with a generated begin mark among its content leaves the session in that state, unless an end mark follows the media too |
| `MediaRuns.GeneratedBeginHappens` | src/runtime/chat.cpp:540-556 | a model that answers the image begin mark once, at a limit of one, succeeds in a session of the tables and leaves it in that state |
| `PrefillPlan.PlanVisionAwarePrefillChunk` | src/cuda/engine/media_chunk_plan.h:11-28 | the loop over segments with its early return computes the planned size |
| `PrefillPlan.PlanInside` | src/cuda/engine/media_chunk_plan.h:11-28 | from inside an image the plan is the rest of that image, whatever the other segments say |
| `PrefillPlan.PlanOutside` | src/cuda/engine/media_chunk_plan.h:11-28 | from outside every image the plan is positive, at most the maximum, and stops at the nearest image ahead |
| `PrefillPlan.PrefillChunks` | src/cuda/engine/inference_engine_prefill_api.cuh:34-43 | the prefill loop produces the planned chunks or fails on an empty or oversized one; it always terminates |
| `PrefillPlan.PlanOneChunk` | src/cuda/engine/inference_engine_prefill_api.cuh:34-43 | one planned chunk is a whole image or touches none, and the next position is again not inside an image |
| `PrefillPlan.ChunksNeverSplitAnImage` | src/cuda/engine/inference_engine_prefill_api.cuh:34-43 | successful chunks partition the suffix, each fits the capacity and is a whole image or touches none, and every nonempty image is one of them |
| `PrefillPlan.ChunksSucceedExactly` | src/cuda/engine/inference_engine_prefill_api.cuh:34-43 | chunking succeeds if and only if nothing is left or the positive capacity holds every image ahead |
| `PrefillPlan.ChunksAreLargest` | src/cuda/engine/inference_engine_prefill_api.cuh:34-43 | no chunk could be larger: it ends at the capacity, the end, or an image it may not cut |
| `MediaChunks.LocatedIsPlaced` | src/runtime/chat.cpp:193-219 | located images meet the precondition of the planner from any start where one of the next two tokens is no part of an image |
| `MediaChunks.LocatedImagesAreChunks` | src/cuda/engine/inference_engine_prefill_api.cuh:34-43 | from any such start, prefill succeeds exactly when the capacity holds every image ahead, and each of them is one chunk of placeholder tokens |
| `MediaChunks.ResidentStartIsClean` | src/cuda/inference_session.cuh:300-330 | the cached prefix of a session is such a start on every call, whatever was generated last |
| `MediaChunks.ResidentImagesAreChunks` | src/cuda/inference_session.cuh:300-330 | over every run, prefilling behind the cached prefix cuts no image and fails only for a capacity below an image that is still ahead |
| `SessionBackend.SoundSessionImagesAreChunks` | src/cuda/inference_session.cuh:300-330 | the same over every run of a session whose prompts are written with the tables and the template: its continuations start with a token that is no part of an image |
| `Minifloat.ScanNearest` | src/numeric/nvfp4.cpp:26-38 | the linear scan keeps the best candidate with ties to the even code |
| `Minifloat.ScanIsNearest` | src/numeric/nvfp4.cpp:26-38 | on an increasing grid the scan returns a nearest value, the even code on a tie |
| `Minifloat.NearestIsUnique` | src/numeric/nvfp4.cpp:26-38 | that value is unique, so the scan is the only function with this property |
| `Minifloat.GridIsFixed` | src/numeric/nvfp4.cpp:26-38 | every grid value codes to itself |
| `Minifloat.CodeIsMonotone` | src/numeric/nvfp4.cpp:26-38 | a larger input never gets a smaller code |
| `Minifloat.CodeWithinGap` | src/numeric/nvfp4.cpp:26-38 | between two neighbours the error is at most half their distance |
| `Minifloat.TopIs448` | src/numeric/nvfp4.cpp:91-104 | the largest finite code decodes to 448 |
| `Minifloat.E2M1ByFields` | src/numeric/nvfp4.cpp:13-15 | the eight magnitudes are those of two exponent bits with bias 1 and one significand bit, subnormal included |
| `Minifloat.E4M3ByFields` | src/numeric/nvfp4.cpp:91-104 | every finite code decodes as four exponent bits with bias 7 and three significand bits, subnormals included |
| `Minifloat.ChooseNearestPositiveE4M3Fn` | src/numeric/nvfp4.cpp:40-56 | saturating at 448, otherwise the scan over the 127 finite codes |
| `Minifloat.E4M3CodeIsNearest` | src/numeric/nvfp4.cpp:40-56 | below 448 the code is the nearest of the 127 values, from 448 on it is the top code |
| `Minifloat.E4M3RoundTrip` | src/numeric/nvfp4.cpp:40-56 | every finite code is coded back to itself |
| `Minifloat.E4M3CodeIsMonotone` | src/numeric/nvfp4.cpp:40-56 | E4M3FN coding is monotone, saturation included |
| `Minifloat.E4M3Error` | src/numeric/nvfp4.cpp:40-56 | up to 448 the coding error is at most 16 |
| `Nvfp4.E2M1RoundTrip` | src/numeric/nvfp4.cpp:74-85 | every nibble decodes, encodes and decodes to the same value |
| `Nvfp4.PeakIsSix` | src/numeric/nvfp4.cpp:136-150 | when the stored scale code is at least 3 the block maximum is coded with magnitude 6, saturated scales included |
| `Nvfp4.SameScaleSameValues` | src/numeric/nvfp4.cpp:139-151 | quantising a dequantised block at the same scale changes nothing |
| `Nvfp4.StableExactly` | src/numeric/nvfp4.cpp:128-152 | quantising the dequantised block returns the same scale and values, if and only if the normalised block maximum lies outside two explicit bands, which only scale codes 1 and 2 meet |
| `Nvfp4.ReconstructionError` | src/numeric/nvfp4.cpp:128-152 | with unsaturated scale code at least 3 every element is reconstructed within scale / divisor and within a fifth of the block maximum |
| `Nvfp4Storage.StorePackedNibble` | src/numeric/nvfp4.cpp:64-70 | the stored nibble reads back and no other nibble changes |
| `Nvfp4Storage.NibbleOrder` | src/numeric/nvfp4.cpp:58-70 | a byte holds the even element in its low half and the odd one in its high half |
| `Nvfp4Storage.QuantizeActivation` | src/numeric/nvfp4.cpp:113-154 | succeeds exactly for a nonempty multiple of 16 finite values and a positive finite divisor; the packed storage then holds every block scale and element code |
| `Nvfp4Storage.StorageReadsBack` | src/numeric/nvfp4.cpp:113-154 | unpacking and decoding that storage gives the read-back block of the stability and error results |
| `Nvfp4Storage.DotOfDequantized` | src/numeric/nvfp4.cpp:181-200 | dividing the accumulated local products once by both divisors is the inner product of the dequantised vectors |
| `Nvfp4Storage.ReferenceDotProduct` | src/numeric/nvfp4.cpp:156-201 | the oracle accepts exactly well-shaped finite operands and returns the inner product of the dequantised vectors |
| `Fp8.QuantizeToken` | src/numeric/fp8.cpp:38-60 | succeeds exactly for a nonempty token of finite values; scale and codes decode to the read-back token, all finite |
| `Fp8.TokenNeverSaturates` | src/numeric/fp8.cpp:47-58 | every normalised magnitude is at most 448 |
| `Fp8.TokenError` | src/numeric/fp8.cpp:38-60 | every element is reconstructed within a twenty-eighth of the token maximum |
| `Fp8.TokenIsStable` | src/numeric/fp8.cpp:38-60 | quantising the read-back token returns the same scale and the same values |
| `Fp8.DotOfDequantizedTokens` | src/numeric/fp8.cpp:79-89 | scaling the accumulated code products once is the inner product of the dequantised vectors |
| `Fp8.ReferenceDotProduct` | src/numeric/fp8.cpp:62-90 | the oracle accepts exactly matching finite operands with positive scales and returns the inner product of the dequantised vectors |
| `Fp8.PositiveBf16` | src/numeric/fp8.cpp:34-77 | of all 16-bit patterns exactly those strictly between zero and positive infinity decode to positive finite values, the only ones the oracle takes as a scale |
| `ResponseContent.RemoveThinking` | src/model/tokenizer_config.cpp:224-238 | the thinking fields are cut in order, or DataLoss when one is not closed |
| `ResponseContent.FindContentEnd` | src/model/tokenizer_config.cpp:239-246 | the content ends at the earliest occurrence of any close token |
| `ResponseContent.RemoveToolCalls` | src/model/tokenizer_config.cpp:247-255 | tool calls are erased in place from the left, each search resuming at the erased position, or DataLoss when one is not closed |
| `ResponseContent.ExtractResponseContent` | src/model/tokenizer_config.cpp:220-257 | the three stages and the final trim |
| `ResponseContent.ContentEndExactly` | src/model/tokenizer_config.cpp:239-246 | nothing is cut off exactly when no close token occurs |
| `ResponseContent.ExtractFixesExactly` | src/model/tokenizer_config.cpp:220-257 | extraction leaves a text unchanged if and only if it is trimmed and holds no thinking opener, close token or tool-call start |
| `ResponseContent.ThinkingFailsExactly` | src/model/tokenizer_config.cpp:224-238 | for an opener and a close token that cannot overlap, cutting the thinking fields fails if and only if some opener has no close token behind it |
| `ResponseContent.ToolCallFailsExactly` | src/model/tokenizer_config.cpp:247-255 | for a start mark that can start nowhere inside the end mark, erasing the tool calls fails if and only if some start mark has no end mark at or behind it |
| `ResponseContent.ExtractFailsExactly` | src/model/tokenizer_config.cpp:220-257 | extraction fails, with DataLoss, if and only if the text leaves a thinking field open, or what is left to show leaves a tool call open |
| `ResponseFields.CutsFields` | src/model/tokenizer_config.cpp:224-238 | cutting texts and thinking fields put together gives exactly the texts, when each opener is the first one found and each close token the first behind it |
| `ResponseFields.ErasesCalls` | src/model/tokenizer_config.cpp:247-255 | erasing texts and calls put together that way gives exactly the texts |
| `ResponseFields.ContentEndIsLeast` | src/model/tokenizer_config.cpp:239-246 | the content ends at the least place where any close token stands, or else at the end |
| `ResponseFields.FreeWithoutBorder` | src/model/tokenizer_config.cpp:228-228 | for a mark whose first byte does not recur in it, being found first is not standing in the text before it |
| `ResponseFields.ComposedExtracts` | src/model/tokenizer_config.cpp:220-257 | a text put together of visible texts, thinking fields, calls and a close token extracts to the visible texts in order, trimmed |
| `ResponseFields.ExtractedIsComposed` | src/model/tokenizer_config.cpp:220-257 | conversely every text that extracts is put together so, and extracts to that |
| `ChatTemplate.RenderResults` | src/model/tokenizer.cpp:972-988 | the look-ahead over tool messages renders the whole run of results and stops behind it |
| `ChatTemplate.RenderAssistant` | src/model/tokenizer.cpp:957-989 | calls, extracted content and tool results of one assistant message, with the first error among them |
| `ChatTemplate.RenderTurns` | src/model/tokenizer.cpp:940-1005 | the message loop with its moving index equals the recursive rendering of turns, roles and errors included |
| `ChatTemplate.Render` | src/model/tokenizer.cpp:917-1018 | header, turns and generation prompt, with the errors of each |
| `ChatTemplate.TurnsExtend` | src/model/tokenizer.cpp:940-1005 | behind a user turn, rendering more messages appends their rendering to what was there |
| `ChatTemplate.RenderExtends` | src/model/tokenizer.cpp:917-1018 | rendering a longer conversation repeats the shorter rendering up to its generation prompt |
| `ChatTemplate.ReplyRendersExactly` | src/model/tokenizer.cpp:1028-1037 | with thinking on, what was generated and the user continuation is the text of rendering the longer conversation, if and only if rendering the committed reply inserts exactly what was generated |
| `ChatTemplate.RenderIsIncremental` | src/model/tokenizer.cpp:1028-1037 | appending any reply and the user continuation is the same text as rendering the longer conversation, if and only if thinking is on and extraction leaves the reply unchanged or it is empty |
| `ChatTemplate.ToolRenderIsIncremental` | src/model/tokenizer.cpp:1039-1055 | the same for a content-free tool-call message with its results, again if and only if thinking is on |
| `ChatTemplate.TurnsRenderExactly` | src/model/tokenizer.cpp:940-1005 | the message loop succeeds if and only if every role is user, assistant or tool, tool messages stand only behind an assistant, user and assistant turns alternate once runs of tool messages are taken out, and every assistant message renders on its own: its calls format, its results name a call and its text extracts |
| `ChatTemplate.RenderSucceedsExactly` | src/model/tokenizer.cpp:917-1018 | a conversation renders if and only if it is not empty, its tools format, its turns render as above, and a generation prompt, when asked for, follows a user turn or tool results |
| `TemplateText.DialogueRenders` | src/model/tokenizer.cpp:917-1018 | the rendering of any conversation with system text, tools, calls and their answers is written out with its marks: turns trimmed, the shown part of each reply between its calls and the answers, an answer named by itself or by the first call with its ID, the turn left open for missing answers, and the start of the model turn |
| `TemplateText.ContinuationText` | src/model/tokenizer.cpp:1028-1037 | the continuation by a user turn, written out |
| `TemplateText.ToolContinuationText` | src/model/tokenizer.cpp:1039-1055 | the continuation by named tool results, written out |
| `ChatTemplate.ReplyAfterToolsIsRefused` | src/model/tokenizer.cpp:940-1005 | behind an assistant turn with tool results a further assistant reply is refused, whatever follows |
| `ChatTemplate.ToolResultsRenderExactly` | src/model/tokenizer.cpp:1039-1055 | for any generated text, appending it and the tool results with thinking on is the text of rendering the longer conversation, if and only if the committed message has no content and its formatted calls are that text |
| `ConversationSession.Engine.PrefillAt` | src/cuda/engine/inference_engine_prefill_api.cuh:19-43 | prefill keeps the cached tokens before the start, appends the suffix and selects from the resulting context, or refuses an empty or overlong one unchanged |
| `ConversationSession.Engine.Forward` | src/cuda/engine/inference_engine_forward.cuh:1-12 | a forward pass appends one token at its position and selects from the resulting context, or refuses a token beyond the vocabulary or a full context unchanged |
| `ConversationSession.Session.Decode` | src/cuda/inference_session.cuh:671-702 | the non-speculative decode loop equals the cache-free generation from the whole text; the cache holds the prompt and all outputs but the last |
| `ConversationSession.Session.Generate` | src/cuda/inference_session.cuh:200-400 | one backend call equals the cache-free specification: checks, prefix comparison, prefill, callback, decode, each failure with its own code, poison on every one after the prefill starts |
| `ConversationSession.FinishKeeps` | src/cuda/inference_session.cuh:671-702 | over every run of the loop: reasoning is never over budget, a stop token is only last, outputs only grow, and the loop ends at the limit or at a stop |
| `ConversationSession.GeneratedKeeps` | src/cuda/inference_session.cuh:365-400 | the same from the first token on; between 1 and the limit tokens are produced |
| `ConversationSession.AccountingAgreesExactly` | src/cuda/inference_session.cuh:366-387 | with reasoning on, the streamed reasoning count equals the count taken again from the content, if and only if the run does not end with a stop token inside reasoning |
| `ConversationSession.DisabledAccountingAgreesExactly` | src/cuda/inference_session.cuh:372-374 | with reasoning off the two counts agree if and only if the content holds no nonempty reasoning block |
| `ConversationSession.StopInsideReasoningHappens` | src/cuda/inference_session.cuh:366-400 | a concrete run that ends with a stop token inside reasoning: the counts are 1 and 0 |
| `ConversationSession.BudgetCloses` | src/cuda/inference_session.cuh:671-702 | a generation that starts inside reasoning holds the close token among its first budget + 1 outputs, if it gets that far |
| `ConversationSession.GeneratedInVocabulary` | src/cuda/inference_session.cuh:365-400 | every output is in the vocabulary when the selected tokens are |
| `GeneratedOutputs.OutputsAreChosen` | src/cuda/inference_session.cuh:671-702 | every generation is the outputs chosen one after the other: the close token if and only if the reasoning budget is used up and the close token is due, otherwise what the model selects for all before; it ends at the limit, at the first stop token, or with the first failure of the model or the callback |
| `GeneratedOutputs.ChosenIsUnique` | src/cuda/inference_session.cuh:671-702 | outputs chosen that way never part, so that is the only outcome |
| `GeneratedOutputs.CallsAreChosen` | src/cuda/inference_session.cuh:200-400 | a usable session refuses a call untouched if and only if it is ill-formed or does not extend the cache; otherwise it generates from the prompt, keeps all but the last output, and is poisoned exactly by a failure |
| `GeneratedOutputs.ReportedIsObserved` | src/cuda/inference_session.cuh:366-400 | the reported reasoning tokens are those extracted from the outputs |
| `ChatSession.MaterializeContent` | src/runtime/chat.cpp:69-139 | the part loop appends text, tool calls, results and printed media, or the error of the first unusable part, non-finite samples included |
| `ChatSession.MaterializeMessages` | src/runtime/chat.cpp:141-162 | every message is materialised in order, resident messages taking the place of supplied ones |
| `MessageParts.MaterializedExactly` | src/runtime/chat.cpp:69-139 | a message materialises if and only if it has parts and each may stand in it, bounds on media and finite samples included; its text is the texts of its parts and its calls and media are theirs, in order |
| `MessageParts.FailsForFirst` | src/runtime/chat.cpp:69-139 | it fails for the first part that may not stand in it: Unsupported for audio of more than 480000 samples that is otherwise in order, InvalidArgument for anything else |
| `ChatSession.ResidentMessageEquivalent` | src/runtime/chat.cpp:242-274 | role, length and pairwise equality, with fingerprints for images and trimmed text for assistant turns |
| `ChatSession.Session.constructor` | src/runtime/chat.cpp:305-317 | a session starts empty and unpoisoned |
| `ChatSession.Session.Check` | src/runtime/chat.cpp:367-437 | the checks before materialisation, in their order and with their codes |
| `Admission.AdmittedExactly` | src/runtime/chat.cpp:367-437 | a request is admitted if and only if the session is not poisoned, it asks properly, and it repeats every committed message, adds one turn, and keeps tools and choice; to repeat is: same role and parts, equal texts, calls, results and audio, assistant texts up to surrounding white space, images of equal nonzero fingerprints or equal |
| `Admission.RefusedWith` | src/runtime/chat.cpp:367-437 | Internal for a poisoned session, Unsupported for another tool choice or non-parallel calls behind a usable limit, and otherwise InvalidArgument |
| `Admission.ChangedHistoryIsRefused` | src/runtime/chat.cpp:401-430 | over every run, a request that does not repeat the committed messages is refused and leaves the session as it was |
| `Admission.RewrittenTextIsRefused` | src/runtime/chat.cpp:401-430 | so does in particular one that rewrites a committed user text, with InvalidArgument |
| `ChatSession.Session.BuildPrompt` | src/runtime/chat.cpp:444-496 | a first prompt is encoded whole; a later one is the resident tokens, the pending token and the continuation |
| `ChatSession.Session.PrepareJob` | src/runtime/chat.cpp:438-525 | materialisation, prompt, media location, output limit and reasoning budget |
| `ChatSession.Session.BuildResponse` | src/runtime/chat.cpp:551-595 | content without the stop token, channel extraction, reasoning recount, tool-call checks |
| `ChatSession.Session.Generate` | src/runtime/chat.cpp:362-619 | the whole method changes the session exactly as the transition function on snapshots says, and returns its result |
| `ChatSession.Session.CommitTurn` | src/runtime/chat.cpp:597-617 | the new messages and the assistant message are appended to the committed ones |
| `SessionReply.SuccessAnswers` | src/runtime/chat.cpp:540-619 | a successful call answers with the extracted visible text, the first thought and the calls of what was generated, and holds then exactly what it held, what the request added and that answer |
| `SessionReply.ThoughtsAreHidden` | src/runtime/chat.cpp:551-564 | a reply that thinks any number of times shows the texts around the thoughts and reports the first |
| `SessionReply.LimitsAreLargest` | src/runtime/chat.cpp:505-525 | the output limit is what was asked for or all the room there is, and the reasoning budget is the largest the effort and the answer reserve allow, but at least one |
| `SessionReply.MediaStandInPrompt` | src/runtime/chat.cpp:164-219 | the audio and the images of a prepared call are whole blocks of their marks in its prompt, one behind the other, and every begin mark up to the last of them starts one |
| `ChatRuns.StepKeepsInv` | src/runtime/chat.cpp:362-619 | every call, successful or not, keeps: cached prefix within the context; empty cache exactly with empty history; last committed message from the assistant; backend cache equal to the cached prefix |
| `ChatRuns.PromptExtendsTranscript` | src/runtime/chat.cpp:444-507 | the prompt extends the resident tokens and the pending token, fits the context, and leaves room for at least one output |
| `ChatRuns.StepIsTransactional` | src/runtime/chat.cpp:362-619 | committed messages only grow; a refused call changes nothing; a failed call commits nothing and changes nothing unless it poisons; a poisoned session refuses everything unchanged |
| `ChatRuns.RunIsMonotone` | src/runtime/chat.cpp:362-619 | over every run committed messages only grow, and poison is permanent |
| `ChatRuns.RunConcat` | src/runtime/chat.cpp:362-619 | a run is the composition of its parts |
| `ChatRuns.EveryPromptExtendsTheCache` | src/runtime/chat.cpp:444-502 | at every point of every run the next prompt extends the cached prefix, which is exactly what the backend holds, and fits the context |
| `ChatRuns.TranscriptGrows` | src/runtime/chat.cpp:540-556 | a successful call leaves as resident tokens the prompt and the outputs without a final stop token: nothing is lost or repeated |
| `ChatRuns.BackendAcceptsExactly` | src/cuda/inference_session.cuh:212-318 | a prepared job passes every check of the backend if and only if all image positions of its messages lie in 0 to 1119; every other check passes |
| `ChatRuns.RunKeepsVocabulary` | src/runtime/chat.cpp:362-619 | over every run the resident tokens stay in the vocabulary |
| `ChatRuns.BackendRefusesExactly` | src/runtime/chat.cpp:528-534 | over every run a prepared call is refused without a trace if and only if an image it adds has a position off that grid; every other failure behind the preparation poisons |
| `ChatRuns.PositionRefusalHappens` | src/cuda/inference_session.cuh:276-284 | an image of one patch at position (1120, 0) is prepared and then refused |
| `SessionBackend.LoadedIsReliable` | src/model/tokenizer.cpp:841-876 | a session whose reasoning markers were encoded with tables of the model size meets every assumption of the backend on prompts and markers |
| `SessionBackend.LoadedSessionRefusesExactly` | src/runtime/chat.cpp:528-534 | over every run of such a session a prepared call is refused without a trace if and only if an image it adds has a position off the grid; every other failure behind the preparation poisons |
| `ChatRuns.CountsDifferExactly` | src/runtime/chat.cpp:565-576 | the recount of the reasoning tokens differs from the streamed count if and only if, with reasoning on, the run ended with a stop token inside reasoning, or, with reasoning off, some token of the content is reasoning |
| `ChatRuns.MiscountedByOpener` | src/runtime/chat.cpp:565-576 | with reasoning off that is so if and only if the first opener of the content is followed by a token other than the close token |
| `SessionPoison.RespondFailsExactly` | src/runtime/chat.cpp:551-595 | building the response fails if and only if a content token has no text, the visible text does not extract, the counts differ, or the calls do not parse or are not admitted |
| `SessionPoison.SuccessPoisonsExactly` | src/runtime/chat.cpp:551-595 | a successful inference poisons the session if and only if one of these holds, the count being wrong exactly as above; with marks that cannot overlap a text does not extract if and only if it is cut off inside a thinking field or a tool call |
| `SessionPoison.CutOffCallPoisons` | src/runtime/chat.cpp:559-564 | a reply whose visible text opens a tool call and does not close it poisons the session |
| `SessionPoison.CutOffCallHappens` | src/runtime/chat.cpp:559-564 | a model that answers the tool-call start mark once, at a limit of one, does so, with nothing miscounted |
| `ChatRuns.ToolAnswerWithoutThinking` | src/runtime/chat.cpp:509-522 | after tool results with thinking off, a first output that is no close token counts as reasoning, and the second is the close token |
| `SessionText.NextRendersExactly` | src/runtime/chat.cpp:444-495 | on a conversation whose text reads at most as its fresh rendering, one reply and one user turn keep it so, and read exactly as it if and only if it did and the committed reply renders as generated |
| `SessionText.EveryPromptReadsAsFreshExactly` | src/runtime/chat.cpp:362-619 | over every run of user turns with thinking on, calls failing or succeeding, whose replies have no calls, the next prompt decodes to a fresh rendering of the messages that the session holds and the call adds, if and only if every reply of the run was rendered as it was generated |
| `SessionText.VisibleReplyIsKept` | src/runtime/chat.cpp:551-595 | a reply whose tokens are all visible and that extraction leaves unchanged is committed so that rendering gives it back |
| `SessionTools.ToolPromptReadsAsFreshExactly` | src/runtime/chat.cpp:444-495 | after any such run and one more reply, with calls, the prompt that answers them decodes to the fresh rendering if and only if that reply has no content and its formatted calls are the generated text |
| `SessionRender.HeldMessagesRenderExactly` | src/model/tokenizer.cpp:917-1018 | over every run, the messages that the session holds and a prepared call adds render afresh if and only if no successful call so far answered tools, the tools format, every assistant message renders on its own, and the call is no tool answer to a reply with content |
| `SseChunk.EscapeReadsBack` | src/server/sse_chunk.h:61-99 | reading an escaped string up to its closing quote gives its bytes back, whatever follows |
| `SseChunk.EscapeIsShortest` | src/server/sse_chunk.h:61-99 | a byte is escaped only when JSON asks for it, with two bytes exactly when JSON has a short form, and reads back |
| `SseChunk.EscapedHasNoControls` | src/server/sse_chunk.h:61-99 | an escaped string holds no raw control character |
| `SseChunk.NumeralReadsBack` | src/server/sse_chunk.h:43-59 | a numeral of base 2 to 16 reads back as its number, in digits, without a leading zero unless it is zero |
| `SseChunk.NumeralLength` | src/server/sse_chunk.h:118-125 | a number below base^width has at most width digits, so the header never underruns its prefix |
| `SseChunk.ChunkReadsBack` | src/server/sse_chunk.h:113-132 | a chunk reader (section 7.1 of RFC 9112) gets back exactly the payload, whatever follows |
| `SseChunk.EventReadsBack` | src/server/sse_chunk.h:19-132 | data without a line feed is read back as the data of one server-sent event, whatever follows on the connection |
| `SseChunk.StringInEvent` | src/server/sse_chunk.h:61-103 | a string escaped among such data leaves it without a line feed and is read back inside it |
| `SseChunk.SseChunkBuilder.constructor` | src/server/sse_chunk.h:16-17 | storage for the header prefix, the payload capacity and the suffix |
| `SseChunk.SseChunkBuilder.Reset` | src/server/sse_chunk.h:19-23 | what is asked for starts over with the record prefix |
| `SseChunk.SseChunkBuilder.Append` | src/server/sse_chunk.h:25-32 | bytes are stored, or the builder fails for good when they do not fit |
| `SseChunk.SseChunkBuilder.AppendByte` | src/server/sse_chunk.h:34-41 | the same for one byte |
| `SseChunk.SseChunkBuilder.AppendUnsigned` | src/server/sse_chunk.h:43-50 | the decimal numeral |
| `SseChunk.SseChunkBuilder.AppendSigned` | src/server/sse_chunk.h:52-59 | the decimal numeral with its sign |
| `SseChunk.SseChunkBuilder.AppendJsonEscaped` | src/server/sse_chunk.h:61-99 | the escaped bytes, giving up at the first that does not fit |
| `SseChunk.SseChunkBuilder.AppendJsonString` | src/server/sse_chunk.h:101-103 | the quoted escaped string |
| `SseChunk.SseChunkBuilder.AppendPrefixedJsonString` | src/server/sse_chunk.h:105-109 | one quoted escaped string of both parts |
| `SseChunk.SseChunkBuilder.Finish` | src/server/sse_chunk.h:113-132 | the result is the chunk of everything asked for when that fits the payload capacity, and empty exactly when it does not |
| `Words.PowerOfTwoExactly` | src/runtime/memory_plan.cpp:31-33 | the bit test accepts exactly the powers of two |
| `Words.AndHighBits` | src/runtime/memory_plan.cpp:35-44 | masking with the complement rounds down to a multiple of the power of two |
| `MemoryPlan.CheckedMultiply` | src/runtime/memory_plan.cpp:20-29 | succeeds if and only if every prefix product fits 64 bits, with the exact product |
| `MemoryPlan.RoundUpIsLeast` | src/runtime/memory_plan.cpp:35-44 | the rounded value is the least multiple of the alignment at or above the value |
| `MemoryPlan.AlignUpExactly` | src/runtime/memory_plan.cpp:35-44 | the mask form gives that least multiple, and fails if and only if it does not fit 64 bits |
| `MemoryPlan.Arena.AddRegion` | src/runtime/memory_plan.cpp:73-86 | one region is placed at the next aligned offset, less than one alignment behind the last, and its padding counted, or nothing changes |
| `MemoryPlan.CountLayers` | src/runtime/memory_plan.cpp:137-145 | layers are counted by type, or an unknown type is refused |
| `MemoryPlan.ResidentBytes` | src/runtime/memory_plan.cpp:147-156 | the weight and scale sums are exact, and fail if and only if the whole sum does not fit 64 bits |
| `MemoryPlan.LayOut` | src/runtime/memory_plan.cpp:185-199 | the three regions are aligned, ordered, disjoint and less than one alignment apart, bytes and padding add up to the aligned total, padding stays below three alignments; fails if and only if the end does not fit 64 bits |
| `MemoryPlan.BuildMemoryPlan` | src/runtime/memory_plan.cpp:100-202 | a plan is made if and only if every size fits and the manifest agrees with its tensors; DataLoss is returned exactly for a disagreeing manifest |
| `MemoryPlan.ManifestNeverDisagrees` | src/runtime/memory_plan.cpp:157-160 | for any manifest of BuildManifest the disagreement branch is unreachable |
| `MemoryPlan.PlannedCacheIsPerLayer` | src/runtime/memory_plan.cpp:162-183 | the planned cache is what every layer holds, added up layer by layer: keys and values of each head for every token of the context, or of the window in a sliding layer |
| `Manifest.BuildManifest` | src/model/manifest.cpp:360-372 | the loop records every tensor once: class totals, total, text-only and skipped bytes, modulo 2^64 |
| `Manifest.TextAndSkippedAreAll` | src/model/manifest.cpp:365-366 | text-only and skipped bytes add up to the total, modulo 2^64 |
| `Manifest.ClassTotalsAreAll` | src/model/manifest.cpp:360-372 | the class totals, listed in any order, add up to the total, modulo 2^64 |
| `Safetensors.TensorBytes` | src/model/safetensors.cpp:35-47 | the byte count is the exact product, or DataLoss exactly when a prefix product does not fit 64 bits |
| `Safetensors.DtypeWidths` | src/model/safetensors.cpp:27-33 | types of 8 and 16 bits have one and two bytes, and a BOOL has one |
| `Safetensors.WideDtypeWidths` | src/model/safetensors.cpp:27-33 | types of 32 and 64 bits have four and eight bytes |
| `Safetensors.Alignment` | src/model/safetensors.cpp:49-54 | the halving loop returns the largest power of two up to 4096 that divides the offset |
| `Safetensors.AlignmentIsLargest` | src/model/safetensors.cpp:49-54 | the same from any power of two as the start |
| `Safetensors.ReadEntry` | src/model/safetensors.cpp:85-112 | one header entry: every check in its order with its code, and the described tensor |
| `Safetensors.ReadExactly` | src/model/safetensors.cpp:85-112 | an entry is read if and only if it has its members, natural dimensions, a known type and a range in the payload exactly as long as type and shape ask for; it is read as that range and shape, and only an unknown type of a framed entry is Unsupported |
| `Safetensors.LoadFile` | src/model/safetensors.cpp:56-124 | header bounds, all entries, then the check of sorted neighbours |
| `Safetensors.NeighboursSuffice` | src/model/safetensors.cpp:117-122 | on sorted nonempty intervals neighbours are apart if and only if all pairs are |
| `Safetensors.OverlapExactly` | src/model/safetensors.cpp:113-122 | with readable entries the file is accepted if and only if no two tensors share a byte |
| `Safetensors.AcceptedFits` | src/model/safetensors.cpp:74-122 | accepted tensors are pairwise disjoint, inside the payload, of exactly their type-and-shape size, and together at most the payload |
| `Safetensors.FileExactly` | src/model/safetensors.cpp:56-124 | a file is accepted if and only if its header has 2 to 2^28 bytes and fits, every entry is readable or the metadata object, and no two tensors share a byte |
| `Safetensors.AddTensors` | src/model/safetensors.cpp:190-199 | one file is added exactly when names stay unique over all shards and each tensor is in the shard its index names |
| `Safetensors.LoadDirectory` | src/model/safetensors.cpp:180-206 | missing and escaping shards, file errors, repeated and misplaced names and a wrong count, each at its place and with its code |
| `Safetensors.DirectoryExactly` | src/model/safetensors.cpp:180-206 | the directory loads if and only if every shard loads, names are unique, and a nonempty index assigns every tensor and counts them all; the result holds every tensor, in name order |
| `Safetensors.DirectoryFailsWith` | src/model/safetensors.cpp:180-206 | the first shard that is missing, elsewhere, unreadable or not admitted behind those before it decides the code: NotFound, DataLoss, its own, DataLoss |
| `Safetensors.MiscountFailsWith` | src/model/safetensors.cpp:200-204 | and DataLoss when the index lists other tensors than the shards hold |
| `Safetensors.IndexAgrees` | src/model/safetensors.cpp:192-204 | on acceptance with a nonempty index the loaded names are exactly the indexed ones, each in its assigned shard |
| `Safetensors.SortedByName` | src/model/safetensors.cpp:205-205 | the returned order is by name and loses nothing |
| `Sorting.SortSorts` | src/model/safetensors.cpp:117-117 | sorting orders the elements and keeps their multiset |
| `ImageBudget.TargetSize` | src/model/image.cpp:93-119 | the size with both one-patch strip branches, 32-bit products included |
| `ImageBudget.TargetIsLargest` | src/model/image.cpp:93-119 | unless a side is below one patch, either side becomes the largest whole number of patches not above the scaled side |
| `ImageBudget.GridArea` | src/model/image.cpp:97-106 | two whole sides cover at most the requested number of patches |
| `ImageBudget.TargetIsGrid` | src/model/image.cpp:93-119 | for every size the decoder admits, the target is a grid of 1 to the requested number of whole patches |
| `ImageBudget.StripIsWhole` | src/model/image.cpp:109-117 | within the side limit of the decoder the 32-bit product never wraps: a strip is as many patches long as the ratio of its sides, between one and the budget |
| `ImageBudget.PlacePatches` | src/model/image.cpp:266-272 | the nested loops fill the positions row by row |
| `ImageBudget.PositionOfPatch` | src/model/image.cpp:266-272 | the patch at row y and column x of the grid has exactly that position |
| `ImageBudget.LoadVisionImageBytes` | src/model/image.cpp:229-288 | budget check, decoding, target size, grid checks, positions |
| `ImageBudget.LoadsExactly` | src/model/image.cpp:229-288 | an image loads if and only if it decodes, and fails with the code of the decoder otherwise; a loaded image keeps to its budget and passes every check of the session, its positions included |
| `ImageBudget.LoadsDecodable` | src/model/image.cpp:50-81 | told from the file: 1 to 280 patches asked for, 1 to 2^28 bytes, sides of 1 to 32768 pixels, at most 10^8 pixels, intact data; InvalidArgument, Unsupported or DataLoss otherwise |
| `ImageBudget.LoadedImagesAreNeverRefused` | src/cuda/inference_session.cuh:276-284 | over every run, a prepared call that adds only loaded images is never refused by the backend |
| `ImageBudget.LoadMediaParts` | src/cli/chat_main.cpp:150-191 | all files become parts under the common budget if and only if each one is readable; otherwise the first failure is returned, audio before images |
| `ImageBudget.MediaFitContext` | src/cli/chat_main.cpp:166-172 | media, boundary tokens, template allowance and output fit the context as soon as one token an image is left after the fixed reserve |
| `ImageBudget.BudgetIsLargest` | src/model/image.cpp:218-227 | the budget is the largest one up to 280, but at least 1, that every image can take behind what is reserved |
| `ImageBudget.ReserveIsSum` | src/cli/chat_main.cpp:166-169 | reserved are the audio, two tokens a file, 64 tokens and the output asked for, or the largest number up to 128 of which the context holds four |
| `ImageBudget.ShareFits` | src/model/image.cpp:218-227 | the worst case fits if and only if that much is left |
| `Sampling.MixIsBijective` | tools/validate_sampling.py:29-33 | the mixer is a bijection on 64-bit words, with its inverse given |
| `Sampling.MixedByHand` | tools/validate_sampling.py:29-33 | the increment goes to 0, and two words prepared with the inverse constants go to the folded second multiplier and to 1 |
| `Sampling.DrawsAreDistinct` | tools/validate_sampling.py:29-62 | for one seed distinct steps draw distinct bits, and for one step distinct seeds do |
| `Sampling.StepIsMixedFirst` | tools/validate_sampling.py:62-62 | the step is mixed before the seed comes in: a seed equal to the mixed step leaves the mixing of 0 |
| `Sampling.UniformIsMiddle` | tools/validate_sampling.py:63-63 | a draw is the middle of that one of 2^53 equal parts of the unit interval in which its bits lie |
| `Sampling.Adjust` | tools/validate_sampling.py:41-45 | penalty and temperature, token by token |
| `Sampling.AdjustedExactly` | tools/validate_sampling.py:41-45 | each candidate times the temperature is the logit of its token, a seen one divided by the penalty, or multiplied by it when negative |
| `Sampling.TopKIsBest` | tools/validate_sampling.py:46-47 | the cut keeps candidates in order and no dropped candidate beats a kept one |
| `Sampling.TopKExactly` | tools/validate_sampling.py:46-47 | the cut keeps as many candidates as asked for, 262144 by default, in order of descending value and ascending token, none of the dropped before one of them |
| `Sampling.LikelyIsPrefix` | tools/validate_sampling.py:49-50 | the min-p filter keeps a prefix: exactly the candidates likely enough |
| `Sampling.TopP` | tools/validate_sampling.py:53-61 | the top-p loop returns the shortest nonempty prefix that reaches its share of the mass |
| `Sampling.ShortestIsUnique` | tools/validate_sampling.py:53-61 | that prefix is unique |
| `Sampling.Walk` | tools/validate_sampling.py:64-69 | the walk returns the element whose cumulative share holds the target, or falls through only when the target is not below the total |
| `Sampling.DrawnIsUnique` | tools/validate_sampling.py:64-69 | a target belongs to exactly one element |
| `Sampling.SampleReference` | tools/validate_sampling.py:36-70 | a token is drawn exactly when there are logits and min-p is at most 1; it is the one whose share of the filtered mass holds the draw, and the fallback after the walk is never taken |

## Left out

- IEEE rounding: codecs, image sizes and sampling weights are exact reals. The quantisers and oracles get and refuse non-finite values; the single codecs and the sampler are modelled on finite ones. The sign of negative zero is not modelled. A square root is a nonnegative real whose square is the radicand, and `exp` is any positive increasing function that is 1 at 0.
- Bit operations on bytes: nibble and E4M3FN shifts and masks are written as division and remainder; the 64-bit masks of the planner and the sampler are modelled bit by bit.
- Integer widths: token IDs, ranks and the 64-bit counters of the sessions are unbounded naturals. A merge rank of 2^32 - 1 is unselectable as in the code, and the limit of 2,000,000 JSON values keeps ranks below it. Word arithmetic is explicit in `Words`, `MemoryPlan`, `Manifest`, `Safetensors`, `ImageBudget` and `Sampling`.
- Tokenizer.Encode: requires nonempty added tokens, because the original loops forever on others; `ScanReturnsExactly` says on which texts.
- `DecodeTokenInto` and `WriteDecodedToken`: single-token variants of `Decode` over a buffer and a stream.
- JSON: texts are taken as parsed values. Tool definitions, tool calls and their formatters, the tool-call parser and its validators are arbitrary functions of the template and the processor.
- Fp8.QuantizeToken: a scale that overflows or underflows in single precision is refused by the original; exact scales do neither.
- Nvfp4Storage.QuantizeActivation: the same for a value scaled beyond single precision.
- ConversationSession.Engine.PrefillAt: the engine is its token cache and any next-token function; chunks, kernels, embeddings of media and sampling state are not part of it. The chunk loop is `PrefillPlan.PrefillChunks`.
- ConversationSession.Engine.Forward: one append and one call of that function; the device graph is left out.
- ConversationSession.Session.Generate: the speculative (MTP) path and its device chain are left out; a callback is a function from the tokens so far to a status.
- ChatSession.Session.Generate: the forwarded callback, a moved-from session and session creation are left out.
- SessionText.EveryPromptReadsAsFreshExactly: covers user turns with thinking on and texts without U+2581; without thinking the equality is false (`RenderIsIncremental`). The tool-call parser is assumed to find no calls in a text without a call start.
- SessionTools.ToolPromptReadsAsFreshExactly: covers the first tool answer behind such a run; a reply behind a tool answer has no fresh rendering (`ReplyAfterToolsIsRefused`).
- ResponseContent.ExtractFailsExactly: assumes that the two thinking marks cannot overlap and that the tool-call start can start nowhere inside the end mark of a call: the marks of the checkpoint open with `<` and hold no other.
- VisibleTokens.VisibleExactly: assumes a nonempty opener without the close token whose borders continue like it: on other openers the recogniser itself misses openings (`MatchIsLongestExactly`).
- GeneratedOutputs.OutputsAreChosen: assumes the same of the opener when reasoning is on.
- ResponseFields.ExtractedIsComposed: assumes that no part of the tool-call start can start the end mark, as `ExtractFailsExactly` does.
- MediaTurns.FirstCallIsPrepared: assumes that added tokens hold a `<` only as their first byte, that the begin marks are special tokens, and that the texts of the conversation hold no begin mark.
- MediaRuns.LaterMediaTurnExactly: the same for the new turn, and that the turn-end and tool-response marks are added tokens.
- ImageBudget.LoadVisionImageBytes: decoding is its outcome: the sides in the header, whether the pixel data are intact, and the pixel and side limits (`src/model/image.cpp:16-27`, `third_party/stb/stb_image.h:3272-3273`, `5109-5110`, `5548-5549`). `Filters`, `Resize`, `Cubic` and `SourceFingerprint` are not modelled; patch values are any.
- ImageBudget.LoadMediaParts: file access and the decoding of audio are left out.
- Safetensors.LoadDirectory: a shard is its outcome, missing, outside the directory or loaded; mapping, path resolution and the parsing of the index file are input and output.
- Manifest.BuildManifest: tensors arrive classified; rule matching, roles, dtype checks and inventories are left out because the accounting does not depend on them.
- MemoryPlan.BuildMemoryPlan: only the fields that enter the arithmetic are modelled; names and JSON output of the plan are not.
- Sampling.SampleReference: the sampling kernels are not part of this model; only the specified reference is, for a temperature and a penalty other than zero.
- `layer.cpp` numerics, CUDA kernels, command lines, the HTTP server, file access and metrics.
