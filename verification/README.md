# A verified model of inbox-collab

inbox-collab fetches mails, sorts them into threads, cuts quoted older messages out of their bodies and posts the
result to Matrix rooms. This project models that core in Dafny and proves what it keeps.

| module | models |
|---|---|
| `Chunking` | splitting a text into whitespace-separated chunks, and what a splice does to the chunks |
| `SmithWaterman`, `AlignmentProperties`, `AlignmentWeights` | locating an old message in a mail body by local alignment |
| `Levenshtein`, `EditWeights` | the weighted edit distance between two chunk lists |
| `Placeholders`, `History` | placeholders, and cutting a whole thread history out of a body |
| `Matching`, `Extractor` | the message extractor: history loop, restoration, recognition and reordering of messages |
| `Pipeline`, `PipelineRuns`, `PipelineStop` | the work queue of a pipeline stage, in every interleaving of callers, `Stop` and `Run` |
| `Tables`, `Sorting`, `Database` | the sorting pass and manual replies over the `mail` and `thread` tables |
| `Posting`, `Delivery`, `Redaction`, `Rooms` | posting to Matrix, interleaved with retries, redactions, thread moves and manual replies |
| `Truncation` | shortening messages that the Matrix server refuses |
| `Ratios`, `Options` | comparing a quotient of reals with a bound; values that may be missing |

Conventions. Scores of the alignment are tenths, edit costs are halves, and similarities are exact reals. `norm` and
`normPunct` come from an arbitrary function `Normalizer`, so every result holds for any normalization. Imperative
source functions are methods proved against specification functions; the longer ones are divided into one method per
loop. The work queue and the posting protocol are state machines: a run is any list of enabled events. The sorting
pass and the manual reply call `Interference` between their SQL statements, whose contract says what the rest of the
system may do meanwhile.

Each step of a state machine is one access to something that other threads may use: in the pipeline stage the test of
the channel's length and the closing of each waiter are steps of their own, as are all SQL statements and sends. The
edit distance charges a full unit for a punctuation-only chunk as long as the other message is untouched
(internal/textprocessor/levenshtein.go:13-15 and :20) and half a unit everywhere else, so that it depends on whether a
mark stands in front of a word or behind it (`Levenshtein.BorderChargesInFull`).

Where the code does not do what it promises, the model follows the code:

- `QueueWorkBlocking` is meant to return once its work has been done. Run tests the length of the channel and then
  closes the waiters, while callers may still swap `done` and send. So a waiter is closed although no work has begun
  since its request was sent: its caller may have been between swap and send at the test
  (`PipelineRuns.SentRequestIsReleasedEarly`), even since before work was called
  (`PipelineRuns.SlowSenderIsReleasedEarly`), or only registered (`PipelineRuns.LateRequestIsReleasedEarly`).
  `Pipeline.EarlyReleaseExactly` and `Pipeline.ClosesEarlyExactly` say for every run and waiter exactly when this
  happens: if and only if the request had not taken effect when Run tested the length, that is, its caller had neither
  sent nor found work queued.
- `MoveThread` clears the Matrix id of the thread, then those of its mails, then once more that of the thread together
  with its room; a manual reply is put into its thread before its Matrix id is stored. A notification pass in between
  posts mails twice under one head (`Posting.MoveCanPostTwice`, `Posting.ReplyCanPostTwice`). `Posting.PostedAtMostOnce`
  and `Posting.GuardIsExact` give the exact condition: after a run that kept it so far, the next step meets it if and
  only if no continuation that keeps it posts a mail twice. It is violated when mail ids are cleared while some mail is
  posted under the thread's current head, unless the worker is about to clear that head too or the mail's id is about to
  be stored; and when a pass fetches a reply whose id is not stored yet under the head under which it was sent. A second
  post can then follow whatever the worker is doing (`Posting.UnguardedPostsTwice`, `Posting.UnguardedFetchPostsTwice`).
- A move can also lose a mail: it counts as posted but is not under the head of its thread (`Delivery.MoveCanLoseMail`,
  `Delivery.LateIdCanLoseMail`). `Delivery.NothingIsMissing` and `Delivery.LeavingIsExact` give the exact condition: the
  last statement of a move clears the head of a mail whose id is stored, or an id is stored while the mail is not under
  the head of its thread, and no move or redaction is about to clear the ids.
- A move can be undone by the pass under way, which writes back the room that it read before
  (`Rooms.MoveCanBeUndone`). `Rooms.MoveLastsExactly` gives the exact condition: at the move's last statement the pass
  is about to give the thread a head in another room.
- A user command during an iteration of the sorting pass lets it put a mail into a force-closed thread and enable that
  thread again (`Sorting.CommandInBetweenReopens`). `Sorting.PassJoinsClosedExactly` and `Sorting.PassReopensExactly`
  say exactly when, thread by thread and for whole passes: if and only if the command closes the thread after the lookup
  that chose it and before the first write, or, for enabling it, before the second. A manual reply does not look whether
  the thread is force-closed, and enables it in any case (`Sorting.ReplySorts`).
- The alignment's comment says that additional words weigh more than other additional chunks. The code reduces the
  weight of a gap according to the chunk before the one that is skipped
  (internal/textprocessor/smith_waterman.go:50 and :57). A gap weighs what the comment says if and only if the chunk
  before it and its last chunk are both punctuation-only or both not (`AlignmentProperties.GapsWeighAsMeant`); in
  `AlignmentProperties.WordCanWeighLess` an additional word weighs less than an additional mark.

## Model

| member | source | states |
|---|---|---|
| Chunking.ComputeMessageChunks | internal/textprocessor/normalizer.go:51-73 | the scanning loop returns the chunks of the specification, with their offsets and normalized texts |
| Chunking.ChunksAreMaximalRuns | internal/textprocessor/normalizer.go:33-39 | chunks are exactly the maximal runs of non-whitespace, each once, left to right |
| Chunking.ChunkTexts | internal/textprocessor/normalizer.go:51-73 | every chunk carries its own text, normalized without punctuation and with it |
| Chunking.SpacesAreWhiteSpace | internal/textprocessor/normalizer.go:56-60 | the characters that separate chunks, by code point |
| Chunking.WordsConcat | internal/textprocessor/normalizer.go:51-73 | cutting a text where no chunk is cut splits its chunk list |
| Chunking.SpliceWords | internal/textprocessor/extractor.go:163 | replacing chunks i..j by a text that begins and ends in whitespace replaces exactly these chunks and leaves every other text as it was |
| SmithWaterman.Candidates | internal/textprocessor/smith_waterman.go:38-63 | the three candidate values of a cell are those of the recurrence |
| SmithWaterman.FillCell | internal/textprocessor/smith_waterman.go:64-73 | extends both matrices by one cell, ties resolved as stop, diagonal, top, left |
| SmithWaterman.FillRow | internal/textprocessor/smith_waterman.go:35-78 | fills a row and keeps the last best cell |
| SmithWaterman.FillMatrices | internal/textprocessor/smith_waterman.go:20-79 | both matrices hold the recurrence, and the best cell is found |
| SmithWaterman.WalkBack | internal/textprocessor/smith_waterman.go:85-100 | the traceback stays inside the matrix, terminates, and returns the first row of the alignment it spells |
| SmithWaterman.Align | internal/textprocessor/smith_waterman.go:13-102 | similarity and span are those of the specification, also for empty inputs and a zero score |
| SmithWaterman.ScoreBoundsAlignments | internal/textprocessor/smith_waterman.go:31-64 | no local alignment ending at a cell weighs more than the cell's score |
| SmithWaterman.TracedAttainsScore | internal/textprocessor/smith_waterman.go:85-99 | the traced alignment weighs exactly the cell's score |
| SmithWaterman.TracedComesFirst | internal/textprocessor/smith_waterman.go:65-73 | ties: among the alignments of greatest weight that end at a cell, the one traced stops first, and else prefers a match, then a gap in the base |
| SmithWaterman.TracedStartsShared | internal/textprocessor/smith_waterman.go:85-101 | where a traced alignment of positive weight begins, two chunks share their normalized text |
| SmithWaterman.TracedStartsMatched | internal/textprocessor/smith_waterman.go:85-101 | the first step of a traced alignment of positive weight is a diagonal match of the chunks at which the span begins |
| SmithWaterman.BestCellIsBest | internal/textprocessor/smith_waterman.go:74-77 | the chosen cell has the greatest score and is the last such cell in row-major order |
| AlignmentProperties.BestScoreIsMaximum | internal/textprocessor/smith_waterman.go:12-79 | the best score is the maximum weight over all local alignments of the two chunk lists, and is attained |
| AlignmentProperties.BestEndsShared | internal/textprocessor/smith_waterman.go:64-101 | the last step of the best alignment pairs chunks that share their text |
| AlignmentProperties.SpanIsBestAlignment | internal/textprocessor/smith_waterman.go:85-101 | the returned span runs exactly from the first to the last matched base chunk of an alignment of best weight, both of which share their text with the block chunks they are matched with |
| AlignmentProperties.MatchesInOrder | internal/textprocessor/smith_waterman.go:40-63 | matched pairs share their text and increase in both indices |
| AlignmentProperties.SkipBasesWeigh | internal/textprocessor/smith_waterman.go:47-52 | the weight of any gap in the base: that of its chunks as the comment means it, corrected by the chunk before the gap and its last chunk |
| AlignmentProperties.SkipBlocksWeigh | internal/textprocessor/smith_waterman.go:54-59 | the same for a gap in the block |
| AlignmentProperties.GapsWeighAsMeant | internal/textprocessor/smith_waterman.go:49-59 | a gap weighs what the comment says if and only if the chunk before it and its last chunk are both punctuation-only or both not |
| AlignmentProperties.WordCanWeighLess | internal/textprocessor/smith_waterman.go:49-52 | two inputs on which an additional word weighs less than an additional punctuation mark |
| AlignmentProperties.WeightLimitsGaps | internal/textprocessor/smith_waterman.go:38-63 | a weight limits the unmatched chunks of the block and of the span |
| AlignmentProperties.ThresholdInTenths | internal/textprocessor/extractor.go:162 | similarity at least 0.85 means a score of at least 8.5 per block chunk |
| AlignmentProperties.ThresholdBoundsSpan | internal/textprocessor/extractor.go:160-165 | a span above the threshold has in-order counterparts for at least 85% of the block and between 0.85 and 2.5 times its length |
| AlignmentProperties.FullScore | internal/textprocessor/smith_waterman.go:40-73 | a score is at most 10 per block chunk, with equality exactly at the end of an exact match, which the traceback then follows |
| AlignmentProperties.SimilarityRange | internal/textprocessor/smith_waterman.go:101 | the similarity lies in [0, 1] |
| AlignmentProperties.LastOccurrenceFound | internal/textprocessor/smith_waterman.go:74-101 | if the block occurs, the span returned is precisely its last occurrence |
| AlignmentProperties.ExactOccurrence | internal/textprocessor/smith_waterman.go:40-101 | the similarity is 1 if and only if a non-empty block occurs contiguously in the base |
| AlignmentWeights.BestWithinPotential | internal/textprocessor/smith_waterman.go:40-64 | no score exceeds 10 tenths for each block chunk that the base holds, 8 for each that it holds with other punctuation, and none for the others |
| AlignmentWeights.PunctuationCosts | internal/textprocessor/smith_waterman.go:40-46 | a block that occurs except for the punctuation of d of its n chunks scores exactly 10 n - 2 d tenths, and reaches 0.85 if and only if 20 d is at most 15 n |
| AlignmentWeights.ReplacedChunkCosts | internal/textprocessor/smith_waterman.go:40-64 | two lists that have nothing in common but agree everywhere except at one chunk score exactly the longer of the beginning alone and of the whole with 10 tenths less |
| Levenshtein.FillRow | internal/textprocessor/levenshtein.go:20-38 | the inner loop computes the next row of the full recurrence |
| Levenshtein.ComputeSimilarity | internal/textprocessor/levenshtein.go:3-44 | the two swapped rows compute the similarity of the full recurrence |
| Levenshtein.DistanceBoundsScripts | internal/textprocessor/levenshtein.go:17-37 | no edit script costs less than the distance |
| Levenshtein.CheapestScript | internal/textprocessor/levenshtein.go:17-37 | some edit script costs exactly the distance |
| Levenshtein.DistanceIsMinimum | internal/textprocessor/levenshtein.go:10-40 | the distance is the minimum cost over all edit scripts with the coded weights |
| Levenshtein.BorderChargesInFull | internal/textprocessor/levenshtein.go:13-20 | a punctuation mark in front of a word costs twice as much as one behind it |
| Levenshtein.DistanceSymmetric | internal/textprocessor/levenshtein.go:19-37 | the distance does not depend on the order of the messages |
| Levenshtein.DistanceBounds | internal/textprocessor/levenshtein.go:17-43 | the distance is at least half the difference of the lengths and at most the greater length |
| Levenshtein.ZeroDistance | internal/textprocessor/levenshtein.go:30-31 | the distance is 0 exactly for lists that agree chunk by chunk |
| Levenshtein.SimilaritySymmetric | internal/textprocessor/levenshtein_test.go:83-94 | the similarity is symmetric |
| Levenshtein.SimilarityRange | internal/textprocessor/levenshtein.go:6-8 | the similarity lies in [0, 1], is 1 exactly for non-empty equal lists and 0 if a list is empty |
| Levenshtein.SimilarAtLeast | internal/textprocessor/levenshtein.go:42-43 | a cut-off of t tenths holds if and only if the cost is at most that share of the longer list |
| EditWeights.ReplacedChunk | internal/textprocessor/levenshtein.go:30-36 | one replaced chunk costs a whole chunk, or half of one if only its punctuation differs |
| EditWeights.AdditionalChunk | internal/textprocessor/levenshtein.go:23-29 | one more chunk, not the first, costs a whole chunk if it is a word and else half of one |
| EditWeights.WordsCost | internal/textprocessor/levenshtein.go:23-36 | every word that one message has more than the other costs a whole chunk |
| Placeholders.LLM.GetPlaceholder | internal/textprocessor/llm.go:32-34 | every placeholder begins and ends in whitespace |
| Placeholders.PlaceholderIsRecognised | internal/textprocessor/llm.go:71-77 | the placeholder sent to the service is recognised when it comes back |
| Placeholders.PlaceholderForm | internal/textprocessor/llm.go:71-77 | a text is a placeholder if and only if it contains the word PLACEHOLDER between two pairs of equals signs with only blanks in between; for the passthrough model none is |
| History.SpliceBestWords | internal/textprocessor/extractor.go:160-167 | a replacement puts the placeholder exactly in place of one well-matched span of the text, and its chunks in place of the span's |
| History.SpliceBestExactly | internal/textprocessor/extractor.go:160-167 | a span is replaced if and only if some local alignment weighs at least 8.5 tenths per block chunk |
| History.ReplaceOneExactly | internal/textprocessor/extractor.go:71-88 | one entry is flagged as similar if and only if the cheapest edit costs at most a fifth of the longer list, and else cut out if and only if it aligns well; nothing else changes |
| History.FirstMessagesAreKept | internal/textprocessor/extractor.go:74 | for any history each entry is kept by the chunks of its first extracted message |
| History.QuotedMessageIsCut | internal/textprocessor/extractor.go:77-88 | a message quoted word for word is replaced at its last occurrence if and only if the body is not a copy of it |
| History.HistoryKeepsOrder | internal/textprocessor/extractor.go:67-91 | for any history the final chunks are original chunks in original order, interleaved only with placeholder chunks |
| History.SimilarNeverRemoved | internal/textprocessor/extractor.go:71-85 | exactly the extracted entries are flagged, and a similar one is never removed |
| History.HistoryBudget | internal/textprocessor/extractor.go:67-91 | conservation: each message cut out costs 0.85 to 2.5 times its chunks and brings in one placeholder, nothing else changes |
| Extractor.ReplaceBestBlockMatch | internal/textprocessor/extractor.go:160-167 | splices at the span found if the similarity reaches 0.85, and else returns the content |
| Extractor.MoveToFront | internal/textprocessor/extractor.go:149-152 | despite the append into the shared backing array the result is the old list with one element moved to the front |
| Extractor.FrontedIsPermutation | internal/textprocessor/extractor.go:149-152 | moving to the front loses and duplicates nothing |
| Extractor.KeptElements | internal/textprocessor/extractor.go:119-121 | exactly the elements whose text is not a placeholder are kept |
| Extractor.KeptOfBoth | internal/textprocessor/extractor.go:119-121 | what is kept of two lists one after the other is what is kept of each, in order |
| Extractor.KeptDistinct | internal/textprocessor/extractor.go:119-121 | dropping placeholders duplicates nothing |
| Extractor.MessageExtractor.constructor | internal/textprocessor/extractor.go:24-44 | a new extractor starts with empty flags |
| Extractor.MessageExtractor.ReplaceOldMessage | internal/textprocessor/extractor.go:72-88 | one entry: body and flags become those of the specification, and the chunks agree with the body |
| Extractor.MessageExtractor.ReplaceOldMessages | internal/textprocessor/extractor.go:67-91 | the loop over the history, latest entry first, computes the specification |
| Extractor.MessageExtractor.FindRemoved | internal/textprocessor/extractor.go:109-114 | finds a mail that was cut out if there is one |
| Extractor.MessageExtractor.RestorePlaceholder | internal/textprocessor/extractor.go:105-117 | restores the first placeholder, and only that, if and only if the conversation is forwarded and some mail was cut out |
| Extractor.RestorationExactly | internal/textprocessor/extractor.go:105-117 | in a forwarded conversation with a placeholder and a mail that was cut out, the first message of such a mail takes the place of the first placeholder, and otherwise nothing changes |
| Extractor.MessageExtractor.DropPlaceholders | internal/textprocessor/extractor.go:119-121 | keeps what is not a placeholder, in order |
| Extractor.MessageExtractor.Recognise | internal/textprocessor/extractor.go:129-140 | finds an unclaimed eligible old message at least 0.9 similar if there is one |
| Extractor.CandidateExactly | internal/textprocessor/extractor.go:130-134 | an old message may be recognised if and only if it was neither cut out nor similar and the cheapest edit costs at most a tenth of the longer list |
| Extractor.RepeatedMessageIsCandidate | internal/textprocessor/extractor.go:74-134 | after any history, a text that repeats the first message of an entry has it as candidate if and only if the entry was neither cut out nor similar |
| Extractor.MessageExtractor.DetectKnown | internal/textprocessor/extractor.go:123-142 | known messages own distinct old messages, and one is unknown only if all its candidates went to earlier ones |
| Extractor.MessageExtractor.EnsureFirstIsNew | internal/textprocessor/extractor.go:144-156 | the first new message, if there is one, comes first; the others keep their order |
| Extractor.ArrangedStartsNew | internal/textprocessor/extractor.go:144-156 | what is handed on loses and duplicates no message, and starts with a new one whenever one is new |
| Extractor.MessageExtractor.PostExtraction | internal/textprocessor/extractor.go:99-157 | for distinct messages: at most one placeholder is restored, the others are dropped, each old message accounts for at most one known message, and a new message comes first |
| Extractor.ResultIsEmpty | internal/textprocessor/extractor.go:105-121 | the result is empty if and only if all texts are placeholders after the restoration |
| Extractor.MessageExtractor.ExtractMessages | internal/textprocessor/extractor.go:47-64 | an empty body passes through; otherwise the history is cut out first and the answer is restored, filtered, recognised and put in order |
| Matching.GreedyOwner | internal/textprocessor/extractor.go:134-138 | recognising one more message keeps the matching one to one and counts it |
| Matching.GreedyUnknown | internal/textprocessor/extractor.go:141 | leaving a message unknown is justified when all its candidates are taken |
| Matching.UncontestedIsKnown | internal/textprocessor/extractor.go:129-141 | a message with a candidate that no earlier message has is known, one without candidates is not |
| Matching.AllKnownCount | internal/textprocessor/extractor.go:145 | the count of known messages tells whether all are known |
| Pipeline.RunsKeepInv | internal/app/pipeline.go:52-120 | the protocol's invariant holds after every run, in every interleaving, with the length test and each close as separate steps |
| Pipeline.NoRequestIsLost | internal/app/pipeline.go:52-90 | until work begins after a request there is a token, or Run holds one, or a caller is between swap and send |
| Pipeline.ChannelIsSafe | internal/app/pipeline.go:52-120 | at most one token, none while done is set, sends never block or hit a closed channel, at most one launch after close, panic only on a second close |
| Pipeline.WaitersAreServed | internal/app/pipeline.go:68-100 | a waiter channel is closed at most once, and if its request had taken effect at the length test, only once a call of work that began after that effect has finished |
| Pipeline.ReleaseFollowsSuccess | internal/app/pipeline.go:84-100 | waiters are released only after work succeeded or the stage was force-stopped |
| Pipeline.EarlyReleaseExactly | internal/app/pipeline.go:93-99 | for every run and every released waiter whose request takes effect: a call of work that began after the effect had finished at the release if and only if the request had taken effect at the length test |
| Pipeline.ClosesEarlyExactly | internal/app/pipeline.go:93-99 | the next close is early, no work having begun since the request took effect, if and only if the request had not taken effect at the length test |
| Pipeline.ServedSinceSwap | internal/app/pipeline.go:58-62 | counted from the swap, a caller that had swapped before work was called counts as served too |
| PipelineRuns.WaiterCanReturnEarly | internal/app/pipeline.go:68-75 | a concrete run in which QueueWorkBlocking returns with no work begun since its request was sent |
| PipelineRuns.SentRequestIsReleasedEarly | internal/app/pipeline.go:59-62 | a concrete run in which a caller sends between the length test and the close, and is released without work |
| PipelineRuns.SlowSenderIsReleasedEarly | internal/app/pipeline.go:59-62 | the same for a caller that had swapped before work was called |
| PipelineRuns.LateRequestIsReleasedEarly | internal/app/pipeline.go:93-99 | a concrete run in which a caller swaps and sends between the length test and the close, and is released without work |
| Pipeline.HelpfulHelps | internal/app/pipeline.go:52-102 | while a request is under way, the next step on the way to work can always be taken and brings work closer |
| Pipeline.OthersAreHarmless | internal/app/pipeline.go:52-120 | no step of another caller, except one that locks the list for a new waiter, delays work or disables the step on the way to it |
| Pipeline.EveryScheduleReachesWork | internal/app/pipeline.go:52-120 | in every schedule work is called before the threads on the way to it have taken more than a bounded number of steps, where each new waiter adds three |
| Pipeline.WorkFollows | internal/app/pipeline.go:52-102 | from every reachable state with a request under way, short of a panic, the threads already there can reach the next call of work within 13 steps plus one per waiter |
| PipelineStop.RunCanStep | internal/app/pipeline.go:77-102 | once launch is closed Run can step until it has exited, unless a caller registers a waiter right then |
| PipelineStop.EveryScheduleStopsRun | internal/app/pipeline.go:77-102 | in every schedule Run exits before it has taken more than a bounded number of steps after launch was closed, if work succeeds or the context is cancelled |
| PipelineStop.RunCanExit | internal/app/pipeline.go:77-102 | from every reachable state with launch closed, short of a panic, Run can exit in a bounded number of steps |
| PipelineStop.WorkIsNotRetried | internal/app/pipeline.go:88 | work that fails is not called again once the context is cancelled |
| PipelineStop.CallersFindWhatTheyAskedFor | internal/app/pipeline.go:68-75 | QueueWorkBlocking returns only when its waiter is released, Stop and ForceStop leave the stage inactive and launch closed, ForceStop alone cancels the context |
| PipelineStop.IsFirstWorkExactly | internal/app/pipeline.go:92 | IsFirstWork holds exactly until Run has gone through its first launch |
| Sorting.JoinSorts | internal/db/db.go:221-245 | AddMailToThread sorts the mail into the thread, enables it, makes the mail its last one, and sets last_message to the later of both times |
| Sorting.CreateSorts | internal/db/db.go:196-219 | CreateThread leaves the tables consistent although its two statements are not atomic, with the mail as first and last of an open thread unless a command closes it in between |
| Sorting.StepSorts | internal/app/threadsorting.go:44-76 | one iteration sorts its own mail as chosen and disturbs no other |
| Sorting.PassMakesProgress | internal/app/threadsorting.go:36-76 | after n iterations the first n mails of the snapshot are sorted and the others untouched |
| Sorting.PassSortsSnapshot | internal/app/threadsorting.go:23-76 | every mail of the snapshot ends sorted, in the thread of its parent, of a latest reference, in one of its own, or, if blacklisted, in none |
| Sorting.ReplyJoinsParent | internal/app/threadsorting.go:46-51 | a mail whose reply parent is in an open thread ends up in the parent's thread |
| Sorting.ReplyChainStaysTogether | internal/app/threadsorting.go:44-62 | every chain of replies in processing order ends up in one thread while that thread is not force-closed |
| Sorting.QuietReplyChain | internal/app/threadsorting.go:44-62 | if no command opens or closes it, a thread created during a pass takes every chain of replies that begins with its first mail |
| Sorting.ReplyJoinsNewThread | internal/app/threadsorting.go:46-51 | in particular a reply to an earlier mail of the snapshot that starts a thread ends up in that thread |
| Sorting.LatestReferenceWins | internal/db/sqlc/queries.sql:39-44 | a mail without an open reply parent joins the thread of a latest one of the mails it references in threads that are not force-closed |
| Sorting.SnapshotExactly | internal/db/sqlc/queries.sql:34-37 | the snapshot holds exactly the unsorted mails, older ones first |
| Sorting.ForceClosedStaysClosed | internal/app/threadsorting.go:44-63 | while no command changes whether a thread is force-closed, a whole pass puts no mail into it and does not enable it, whatever happens to other threads |
| Sorting.StepJoinsClosedExactly | internal/app/threadsorting.go:46-63 | an iteration puts its mail into a force-closed thread if and only if a command closes the thread between the lookup that chose it and the first write |
| Sorting.StepReopensExactly | internal/db/sqlc/queries.sql:81-84 | an iteration leaves a thread enabled and force-closed if and only if it was so before the second write or a command closes it between the lookup that chose it and the second write |
| Sorting.PassJoinsClosedExactly | internal/app/threadsorting.go:35-76 | the first of these for every mail of a whole pass, at the end of the pass |
| Sorting.PassReopensExactly | internal/app/threadsorting.go:35-76 | for every thread and every iteration of a whole pass: it brings the thread into this state if and only if a command closes it between lookup and second write; nothing else in a pass does |
| Sorting.CommandInBetweenReopens | internal/db/sqlc/queries.sql:57-59 | concrete iterations in which a command before the first or before the second write has this effect |
| Sorting.ReplySorts | internal/app/app.go:204-236 | a manual reply sorts its mail into the thread, moves no other mail, and leaves a force-closed thread enabled |
| Sorting.AutoUpdateKeeps | internal/db/sqlc/queries.sql:61-65 | linking replies keeps the tables consistent |
| Sorting.AutoUpdateLinks | internal/db/sqlc/queries.sql:61-65 | a mail outside any thread is linked to a stored mail that its In-Reply-To names |
| Sorting.OperationEvolves | internal/app/threadsorting.go:11-25 | passes, replies and other changes each keep the tables consistent |
| Sorting.RunsEvolve | internal/app/threadsorting.go:11-85 | over whole runs no mail changes its thread, last_message never decreases, and each thread's first mail belongs to it |
| Database.DbHandler.AutoUpdateMailSorting | internal/db/db.go:158-167 | links exactly the unthreaded mails whose parent is stored |
| Database.DbHandler.GetMailsRequiringSorting | internal/db/sqlc/queries.sql:34-37 | returns exactly the unsorted mails, oldest first |
| Database.DbHandler.GetReferencedThreadParent | internal/db/db.go:169-181 | returns a latest referenced mail in an open thread, if there is one |
| Database.DbHandler.CreateThread | internal/db/db.go:196-219 | both statements, with interference between them |
| Database.DbHandler.AddMailToThread | internal/db/db.go:221-245 | both statements, with interference between them |
| Database.DbHandler.MarkMailAsSorted | internal/db/db.go:247-254 | marks the mail as sorted and changes nothing else |
| Database.DbHandler.SortMail | internal/app/threadsorting.go:45-75 | one iteration takes the branches of the specification |
| Database.DbHandler.SortThreads | internal/app/threadsorting.go:35-79 | the whole pass is a pass of the specification, and the tables evolve consistently |
| Database.DbHandler.AddMail | internal/db/sqlc/queries.sql:9-13 | a mail is inserted if its header id is new, and in any case one with this header id is stored afterwards |
| Tables.InsertedOnce | internal/db/sqlc/queries.sql:9-13 | however often a mail is fetched it is stored once, and header ids stay unique |
| Database.DbHandler.StoreReply | internal/app/app.go:225-236 | the sent mail is stored unless a fetcher was faster, found by its header id, put into the thread of the mail replied to, and given its Matrix id |
| Posting.StepKeepsInv | internal/app/matrixnotifications.go:45-110 | every step keeps track of what is posted under the current heads |
| Posting.PostedAtMostOnce | internal/app/matrixnotifications.go:45-105 | over all interleavings of passes, retries, redactions, moves and manual replies no mail is posted twice under one head, provided mail ids are cleared only where no mail is known to be posted under the current head, and no pass fetches a reply before its id is stored |
| Posting.UnguardedPostsTwice | internal/db/db.go:348-364 | wherever mail ids are cleared against the first condition, whatever the worker is doing, a mail can be posted again |
| Posting.UnguardedFetchPostsTwice | internal/app/app.go:235-236 | wherever a pass fetches against the second, the reply can be posted again |
| Posting.GuardIsExact | internal/app/app.go:165-166 | the two conditions are exact: after a run that kept them, the next step meets them if and only if no continuation that keeps them posts a mail twice |
| Posting.MoveCanPostTwice | internal/app/app.go:165-166 | a concrete run in which it fails |
| Posting.ReplyCanPostTwice | internal/app/app.go:235-236 | a concrete run in which a pass between the last two statements of a manual reply posts it again |
| Delivery.StepKeepsInv | internal/app/matrixnotifications.go:45-110 | every step that does not leave the mail behind keeps it posted under the current head of its thread, or due for clearing |
| Delivery.NothingIsMissing | internal/app/matrixnotifications.go:45-105 | over all interleavings a mail whose id is stored was posted under the head that its thread has, or its id is about to be cleared, as long as no step leaves it behind |
| Delivery.LeavingIsExact | internal/app/app.go:165-166 | the condition is exact: the next step leaves a mail behind if and only if a continuation in which no further step does so ends with the mail missing |
| Delivery.MoveCanLoseMail | internal/app/app.go:165-166 | a concrete run in which a pass between the last two statements of a move posts a mail that the moved thread then lacks |
| Delivery.LateIdCanLoseMail | internal/app/matrixnotifications.go:92-100 | a concrete run in which the id of a mail is stored after the move has cleared the ids |
| Redaction.RedactionGoesOn | internal/app/matrixnotifications.go:93-99 | once the head is found redacted, the pass can go on and does nothing but clear the head and then the ids of the mails |
| Redaction.RedactionIsDealtWith | internal/db/db.go:348-364 | in every interleaving, one step of the pass later the thread has no head, and two steps later none of its mails is stored |
| Redaction.RedactedMailsArePostedAgain | internal/app/matrixnotifications.go:93-99 | a later pass can create the thread again and post any of its mails under the new head |
| Rooms.StaysSettled | internal/app/matrixnotifications.go:45-55 | once the pass under way does not hold the thread with another room, the thread stays in its room until another move of it ends |
| Rooms.MoveLastsExactly | internal/app/app.go:165-166 | a move lasts if and only if at its last statement the pass under way is not about to give the thread a head in another room |
| Rooms.MoveCanBeUndone | internal/app/matrixnotifications.go:47-55 | a concrete run in which the pass writes the old room back after the move |
| Truncation.SplitOfJoin | internal/matrix/format.go:146-149 | splitting undoes joining |
| Truncation.LinesOfHtml | internal/matrix/format.go:105-107 | the lines of the rendered text are the renderings of the text's lines |
| Truncation.TruncationCommutesWithRendering | internal/matrix/format.go:146-154 | truncating the rendered text renders the truncated text |
| Truncation.SplitOfPrefix | internal/matrix/format.go:146-150 | the first lines joined are a prefix of the text and split into the same lines, for any separator |
| Truncation.TruncatedIsPrefix | internal/matrix/format.go:146-150 | however often it is truncated, a number of first lines remains |
| Truncation.TenthIsDropped | internal/matrix/format.go:146-150 | each truncation drops a tenth of the lines, rounded down, but at least one |
| Truncation.RenderedTextIsReadBack | internal/matrix/format.go:105-107 | the rendered text can be read back and so determines the text |
| Truncation.NoticeCommutesWithRendering | internal/matrix/matrix.go:76-85 | the notice put behind text and HTML keeps the HTML the rendering of the text |
| Truncation.NoticeKeepsText | internal/matrix/matrix.go:76-85 | the notice follows the text and ends in the warning |
| Truncation.AttemptsEndEmptied | internal/matrix/matrix.go:78-85 | after as many attempts as lines only the emptied message is sent |
| Truncation.TruncateLarge | internal/matrix/matrix.go:75-86 | sends the message, then ever fewer of its first lines with the notice, and stops within lines + 1 sends if the emptied message is accepted |

## Left out

- Float rounding: scores are exact, so the comparisons with 0.85, 0.8 and 0.9 are those of exact arithmetic.
- Byte offsets: texts are sequences of characters and offsets count characters, while Go slices bytes; both address the same positions. Texts that are not valid UTF-8 are not modelled.
- `NormalizeText`: Unicode tables; it is an arbitrary function.
- The language model, the Python service and its prompts: the answer is arbitrary, except that its messages are distinct objects.
- History entries: they are distinct and those extracted hold at least one message, as internal/app/messageextraction.go:18-35 and internal/textprocessor/extractor.go:74 rely on. `Extractor.ResultIsEmpty` says when the extractor itself stores none, on which internal/textprocessor/extractor.go:74 then fails.
- Matrix, IMAP and SMTP clients, login, reconnecting and configuration. A send that reports an error is taken not to have posted, and database writes are taken to succeed.
- Wall-clock waits, the wait for complete data before sorting (internal/app/threadsorting.go:26-33), `queuedTime`, `isWorking`, logging and `setup`.
- Callers that block on a stage after it was stopped: their request has no effect, and no release is claimed for them.
- Fair scheduling: runs are finite, so `Pipeline.EveryScheduleReachesWork` bounds the steps on the way to work instead of speaking of infinite fair schedules.
- The lock between passes and replies: the tables never change inside one by the other, because both hold the mutex; the mutex itself is not modelled.
- Database.DbHandler.StoreReply: the header id of the sent mail is new, and the mail replied to, which has a Matrix id, is in a thread; composing and sending the reply and storing it in the mailboxes are not part of the model.
- Which mails and threads are ready to post beyond their Matrix ids: a pass of `Posting` may fetch any of them, so extraction is not tracked there. Overview messages and links to recreated threads are left out.
- `AddReply`'s message layout and `truncateChars`, whose only caller ignores the truncated arguments.
- Commands, address and id parsing: mostly the behaviour of regular expressions.
