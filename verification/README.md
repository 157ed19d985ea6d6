# Token-compression middleware, modelled in Dafny

This project models the trimming core of `token-compression-middleware`. The middleware
keeps a chat transcript under a token budget by deleting messages from its middle.
The model has three pieces, one per source file:

- **Token estimator** (`estimateTokenCount`, module `TokenEstimate`). The text is split on
  runs of whitespace. Each piece costs one token, plus one for each character of the class
  `. , ! ? ; : ( ) [ ] { } " '`. `EstimateTokenCount` keeps the source's accumulator loop. It
  is proved equal to the closed form `1 + (whitespace runs) + (punctuation characters)`.
  The six documented test vectors are lemmas in `TokenEstimateExamples`.
- **Tool-exchange pair indexer** (`groupToolCallPairs`, module `ToolCallPairs`). The source
  fills two `Map`s with last-write-wins `set`, then fills a `Set` with the inclusive range
  between each call and its result. The model keeps those loops as methods over `map` and
  `set` values. They are proved equal to specification functions (`LastPositions`,
  `Ranges`, `ProtectedIndexes`), and exactness and bounds are proved about those functions.
  The documented vectors are lemmas in `ToolCallPairsExamples`.
- **Trimming loop** (`countTokens` and `transformParams`, module `Middleware`). The
  transcript is costed by a left fold of a per-message cost. A prompt within budget is
  returned as it is. Otherwise it is cut with JavaScript `slice` semantics into a pinned
  start, a middle and a pinned end. The middle's tool exchanges are indexed, and the first
  unprotected message of a copy of the middle is `splice`d out until the transcript fits or
  no unprotected position is left. `Compress` keeps that loop. It is proved equal to
  `Compressed`, and `CompressedShape` pins down what the loop does. The protected set is
  never re-indexed, so every deletion happens at the same position `p`: the least position
  that is not protected.

`IntendedTrimming` holds the departures listed under Findings, each with a corrected
definition. The corrected trimming is specified by stages. At stage `b`, exactly the
unprotected middle positions below `b` have been deleted (`Kept`). `TrimMiddle` and
`CompressIntended` stop at a stage reached by deleting those positions one at a time,
earliest first, while the transcript was over budget. They stop only when it fits or no
unprotected position is left (`KeepsExchanges`).

Modelling notes:

- Messages are values (`Messages.Message`): a role, and content that is either a string or a
  list of text, tool-call and tool-result parts. Tool arguments and results are opaque strings.
- The message cost is a parameter `cost: Message -> nat`. `MessageCost` builds it as the
  source does: `tokenCountFn(msg)` when one is supplied, and otherwise the estimate of the
  string content or of its serialization. The serializer (`JSON.stringify`) is the
  parameter `serialize`.
- Sequences are values, so the caller's prompt can never be changed by the trimming. The
  source gets the same guarantee by copying `middle` before `splice`.
- `\s` is the fixed set of JavaScript whitespace characters (`TokenEstimate.IsWhitespace`).
- Tool exchanges are indexed over the middle only, not over the whole transcript
  (middleware.ts:58), so a call in a pinned section and its result in the middle protect
  nothing. The output is the plain concatenation of the three sections (middleware.ts:72):
  no pass repairs calls or results left dangling after trimming.

## Model

| member | source | states |
|---|---|---|
| TokenEstimate.EstimateTokenCount | estimateTokenCount.ts:1-17 | the accumulator loop returns 1 + number of whitespace runs + number of punctuation characters, and equals `Estimate` |
| TokenEstimate.Estimate | estimateTokenCount.ts:2-8 | every text estimates to at least 1 token |
| TokenEstimate.SplitFrom | estimateTokenCount.ts:2 | splitting on whitespace runs yields at least one piece, and no piece holds a whitespace character |
| TokenEstimate.SumWordCosts | estimateTokenCount.ts:7-14 | the sum of the word costs is at least the number of words |
| TokenEstimate.PunctuationFrom | estimateTokenCount.ts:5-13 | the punctuation count of a suffix is at most its length |
| TokenEstimate.SplitFromCost | estimateTokenCount.ts:2-14 | from any position not inside a whitespace run, the pieces cost 1 + runs + punctuation from that position |
| TokenEstimate.EstimateClosedForm | estimateTokenCount.ts:2-14 | closed form: Estimate(text) == 1 + WhitespaceRuns(text) + PunctuationCount(text) |
| TokenEstimate.PunctuationOfWord | estimateTokenCount.ts:10-13 | the punctuation count from a position is that of the word up to a later position plus that of the rest |
| TokenEstimate.RunsOfWord | estimateTokenCount.ts:2 | characters that are not whitespace start no whitespace run |
| TokenEstimate.RunsOfWhitespace | estimateTokenCount.ts:2 | inside a whitespace run only its first position can start a run |
| TokenEstimate.PunctuationOfWhitespace | estimateTokenCount.ts:5 | whitespace holds no punctuation |
| TokenEstimateExamples.EstimateEmpty | __tests__/estimateTokenCount.test.ts:17-19 | "" estimates to 1 |
| TokenEstimateExamples.EstimatePlainWords | __tests__/estimateTokenCount.test.ts:5-7 | "hello world" estimates to 2 |
| TokenEstimateExamples.EstimateAttachedPunctuation | __tests__/estimateTokenCount.test.ts:9-11 | "hello, world!" estimates to 4 |
| TokenEstimateExamples.EstimateRepeatedPunctuation | __tests__/estimateTokenCount.test.ts:13-15 | "Wow!!! Really? Yes..." estimates to 10 |
| TokenEstimateExamples.EstimateMixedContent | __tests__/estimateTokenCount.test.ts:21-23 | "This is a test: (1 + 1) = 2." estimates to 13 |
| TokenEstimateExamples.EstimatePunctuationOnly | __tests__/estimateTokenCount.test.ts:25-27 | "?!..." estimates to 6 |
| ToolCallPairs.GroupToolCallPairs | groupToolCallPairs.ts:3-42 | the indexer returns `ProtectedIndexes(messages)`, and every index in it is a position of the list |
| ToolCallPairs.RecordLastPositions | groupToolCallPairs.ts:10-26 | the `forEach` pass builds exactly the last-write-wins call map and result map |
| ToolCallPairs.RecordParts | groupToolCallPairs.ts:12-24 | the inner loop sets the id of every recorded part to the message's position, in part order |
| ToolCallPairs.AddPairRanges | groupToolCallPairs.ts:28-39 | the second pass adds exactly the union of the inclusive call-to-result ranges of the ids found in both maps |
| ToolCallPairs.PartIds | groupToolCallPairs.ts:12-24 | recorded ids are non-empty, and at most one is recorded per part |
| ToolCallPairs.PartIdsExact | groupToolCallPairs.ts:11-25 | an id is recorded from a part list exactly when a part of the right type carries it and it is non-empty |
| ToolCallPairs.SetAll | groupToolCallPairs.ts:14-22 | repeated `Map.set`: the keys grow by the ids; those ids map to the position and the other entries are kept |
| ToolCallPairs.LastPositions | groupToolCallPairs.ts:10-26 | every position stored in a map is a position of the list |
| ToolCallPairs.LastPositionsExact | groupToolCallPairs.ts:10-26 | an id is in the map exactly when some message records it, and it maps to the last such message (duplicates: last write wins) |
| ToolCallPairs.LastPositionUnique | groupToolCallPairs.ts:14-22 | the last position recording an id is unique |
| ToolCallPairs.Interval | groupToolCallPairs.ts:31-37 | the loop's positions are exactly lo..hi-1 |
| ToolCallPairs.RangesAddId | groupToolCallPairs.ts:28-39 | handling one more call id adds exactly its range when a result exists, and nothing otherwise |
| ToolCallPairs.ProtectedInBounds | groupToolCallPairs.ts:10-36 | every protected index lies in [0, length) |
| ToolCallPairs.ProtectedExact | groupToolCallPairs.ts:28-41 | a position is protected exactly when it lies between the last call and the last result of one id |
| ToolCallPairs.UnmatchedProtectNothing | groupToolCallPairs.ts:29-30 | when no id is recorded on both sides, nothing is protected |
| ToolCallPairsExamples.NoToolPartsProtectNothing | __tests__/groupToolCallPairs.test.ts:32-40 | text-only messages give the empty set |
| ToolCallPairsExamples.ProtectsAdjacentPair | __tests__/groupToolCallPairs.test.ts:42-55 | an adjacent call and result at 1 and 2 give exactly {1, 2} |
| ToolCallPairsExamples.ProtectsSplitPair | __tests__/groupToolCallPairs.test.ts:57-83 | a call at 1 and its result at 3 give exactly {1, 2, 3} |
| ToolCallPairsExamples.IgnoresUnmatchedCall | __tests__/groupToolCallPairs.test.ts:85-99 | a call without a result protects nothing |
| ToolCallPairsExamples.IgnoresUnmatchedResult | __tests__/groupToolCallPairs.test.ts:101-115 | a result without a call protects nothing |
| ToolCallPairsExamples.ProtectsTwoPairs | __tests__/groupToolCallPairs.test.ts:117-130 | two adjacent pairs give exactly {0, 1, 2, 3} |
| ToolCallPairsExamples.OnePairRange | groupToolCallPairs.ts:28-39 | one id seen on both sides protects exactly the range between its positions |
| ToolCallPairsExamples.PositionsOf | groupToolCallPairs.ts:10-26 | when each id is recorded at exactly one position, the map is exactly those positions |
| Middleware.CountTokens | middleware.ts:27-35 | the empty list costs 0, and the total is at least each message's cost |
| Middleware.CountTokensAppend | middleware.ts:27-35 | the count is additive over concatenation |
| Middleware.MessageCost | middleware.ts:29-34 | with a `tokenCountFn` the cost is its value; without one the estimate is at least 1 |
| Middleware.CountTokensWithCallback | middleware.ts:34 | with a `tokenCountFn` the count is the sum of that function |
| Middleware.DefaultCountAtLeastLength | middleware.ts:29-34 | without a `tokenCountFn` the count is at least the number of messages |
| Middleware.SliceBound | middleware.ts:51-56 | a `slice` bound is clamped into [0, length] |
| Middleware.Slice | middleware.ts:51-56 | `slice` is never longer than the array, and with in-range bounds it is the plain subsequence |
| Middleware.PartitionWellFormed | middleware.ts:51-56 | with 0 <= pinnedStartCount, 1 <= pinnedEndCount and pins that fit, the sections are the first pinnedStartCount messages, the messages between and the last pinnedEndCount messages, and they join back to the transcript |
| Middleware.FirstUnprotected | middleware.ts:65-67 | `findIndex`: -1 exactly when every position below n is protected, otherwise the least unprotected position |
| Middleware.FindUnprotected | middleware.ts:65-67 | the search loop returns `FirstUnprotected` |
| Middleware.Trimmed | middleware.ts:61-70 | the trimmed middle is never longer than the middle it started from |
| Middleware.Compress | middleware.ts:47-72 | the compression returns `Compressed`, and returns the prompt itself when it is within budget |
| Middleware.FreePosition | middleware.ts:58-67 | the deletion position is the least position not protected (or the length when all are) |
| Middleware.FirstUnprotectedOfShorter | middleware.ts:58-69 | because the set is not re-indexed, `findIndex` on any shorter middle finds the same position, or -1 once the middle has shrunk to it |
| Middleware.DropAtStep | middleware.ts:69 | one more `splice` at p turns k deletions at p into k + 1 |
| Middleware.TrimmedStep | middleware.ts:61-69 | over budget with a message left after p, the loop deletes at p |
| Middleware.TrimmedDeletesAtFreePosition | middleware.ts:58-70 | every deletion happens at p: after k deletions the loop ends after some j >= k, each made while over budget |
| Middleware.TrimmedExit | middleware.ts:61-68 | on exit the transcript fits, or every remaining middle position is protected |
| Middleware.CompressedShape | middleware.ts:51-72 | over budget, the result is pinnedStart ++ middle[..p] ++ middle[p+j..] ++ pinnedEnd for a run of j deletions at p, so the first p middle messages survive and the result is a subsequence |
| Middleware.CompressedKeepsPins | middleware.ts:51-72 | with pins that fit, the first pinnedStartCount and the last pinnedEndCount messages come out unchanged and in order, and the result is no longer than the prompt and costs no more tokens than it |
| Middleware.CompressedCostNoMore | middleware.ts:59-72 | over budget, the compressed prompt costs no more tokens than the prompt: trimming only deletes middle messages |
| Middleware.DropAtCostNoMore | middleware.ts:69 | deleting messages never raises the token count |
| Middleware.JoinedKeepsSections | middleware.ts:72 | the pinned sections sit unchanged at both ends of the joined result |
| Middleware.TransformParams | middleware.ts:38-77 | generate/stream calls with an array prompt get `Compressed` under `MessageCost`; other calls and prompts within budget pass through; other settings are kept |
| IntendedTrimming.ProtectedCallDeleted | middleware.ts:58-69 | in this 5-message example, position 1 (a tool call) is protected, yet the trimmed result has lost that call and keeps its result |
| IntendedTrimming.ZeroEndPinsEverything | middleware.ts:52 | with pinnedEndCount 0 the pinned end is the whole transcript, so the sections join to the transcript twice |
| IntendedTrimming.ZeroEndNeverFits | middleware.ts:52-72 | with pinnedEndCount 0 an over-budget prompt stays over budget and is repeated at the end of the result |
| IntendedTrimming.OverlappingPinsRepeat | middleware.ts:51-72 | overlapping pins leave the middle empty and repeat the overlap, so the joined sections are longer than the prompt, and over budget the compressed prompt has more messages than the prompt it was meant to shrink |
| IntendedTrimming.PartitionIntended | middleware.ts:51-56 | the corrected sections always join back to the transcript, and are the exact pins whenever the pins fit |
| IntendedTrimming.PartitionIntendedAgrees | middleware.ts:51-56 | where the pins fit and pinnedEndCount >= 1, the corrected sections are those the code takes |
| IntendedTrimming.Pick | middleware.ts:59-69 | the picked messages are those of the middle at the picked original positions |
| IntendedTrimming.PickRemove | middleware.ts:69 | dropping a survivor drops the message picked for it |
| IntendedTrimming.FindUnprotectedSurvivor | middleware.ts:65-67 | the corrected search returns the first survivor whose original position is not protected, or -1 when there is none |
| IntendedTrimming.KeptMembers | middleware.ts:59-69 | the survivors at stage b are exactly the protected middle positions and the positions from b on, in increasing order |
| IntendedTrimming.KeptAdvance | middleware.ts:65-69 | the first unprotected survivor at stage b is the least unprotected position q at or above b; the stages from b to q keep the same survivors, and deleting q gives stage q + 1 |
| IntendedTrimming.TrimmingStep | middleware.ts:59-69 | one pass of the corrected loop over budget: deleting the first unprotected survivor moves to the next stage, keeps the loop state, and shortens the survivors |
| IntendedTrimming.TrimMiddle | middleware.ts:59-69 | the corrected loop stops at a trimming stage: its survivors are that stage's, the remaining middle messages are those at the surviving positions, every deletion happened while over budget, and it stops only when the transcript fits or no unprotected message is left |
| IntendedTrimming.StageKeepsExchanges | middleware.ts:47-72 | stopping at a trimming stage gives the intended outcome `KeepsExchanges` |
| IntendedTrimming.CompressIntended | middleware.ts:47-72 | corrected compression: within budget the prompt; over budget the pinned sections around the middle messages at increasing original positions, where the deleted positions are exactly the unprotected ones below some stage, deleted earliest first while the transcript was over budget; every protected position survives, and the result fits unless every survivor is protected |
| IntendedTrimming.TransformParamsIntended | middleware.ts:38-77 | `transformParams` with the corrected compression: same guard and pass-through, and over budget a prompt that keeps every tool exchange of the middle and deletes exactly the first unprotected messages, earliest first, while over budget |

## Left out

- The middleware adapter: the `LanguageModelV1Middleware` object, the `async` wrapper and the `ctx` destructuring (middleware.ts:19-25, 37-39). `TransformParams` takes the call type, the parameters and the options directly.
- Default option merging (`maxInputTokens` 8000, `pinnedStartCount` 4, `pinnedEndCount` 5). The options are explicit parameters.
- `JSON.stringify` of part lists: a library serializer, modelled as the parameter `serialize`.
- A user `tokenCountFn` that returns a negative, fractional or NaN number. It is modelled as `Message -> nat`.
- Non-integer, NaN or infinite pin counts and budgets. They are modelled as `int`.
- Parameter fields other than `prompt`: they are the opaque `settings`, which are passed through.
- Middleware.TransformParams: follows the code as written and uses `Compress`; the corrected behaviour is `IntendedTrimming.TransformParamsIntended`.
- Characters outside the Basic Multilingual Plane. The split works on UTF-16 code units as JavaScript does, and `\s` holds only BMP characters, so this changes nothing.

## Findings

| source | as written | input that shows it | evidently intended | confidence | as-written member | corrected member |
|---|---|---|---|---|---|---|
| middleware.ts:58-69 | the protected set holds positions of the original middle, but `findIndex` tests it against positions of the shrinking copy, so protected messages slide into unprotected positions and are deleted | messages [user "before", call abc, result abc, assistant "after", user "final"], pinnedStartCount 0, pinnedEndCount 1, one token per message, budget 3: the call at protected position 1 is deleted and its result is kept | only messages whose original position is unprotected are deleted, so every matched call and result survives | not executed | IntendedTrimming.ProtectedCallDeleted | IntendedTrimming.CompressIntended |
| middleware.ts:52 | `messages.slice(-pinnedEndCount)` with `pinnedEndCount` 0 is `slice(-0)`, the whole transcript | any prompt over budget with pinnedEndCount 0 and pinnedStartCount within its length: the result holds the whole prompt after the pinned start and stays over budget | an end pin of 0 pins nothing | not executed | IntendedTrimming.ZeroEndNeverFits | IntendedTrimming.PartitionIntended |
| middleware.ts:51-56 | pins whose sum exceeds the transcript length overlap, and the overlap is taken twice | 3 messages over budget with pinnedStartCount 2 and pinnedEndCount 2: the result has 4 messages | pins are clamped so that the sections never overlap | not executed | IntendedTrimming.OverlappingPinsRepeat | IntendedTrimming.PartitionIntended |
