# Pagoda: verified models

Dafny models of seven parts of Pagoda, a distributed LLM serving runtime, and proofs about all of
their inputs, runs and interleavings.

| part | files | central results |
|---|---|---|
| paged-KV request state (`ActiveSequence`) | BlockMath, SequenceModel, ActiveSequence, Chunking, Driver, Identities, SharedCache, BlockCache | over every scheduler run the signals hold exactly the allocated prefix of the block chain and never free twice; each block is promoted once; any interleaving of several runs on one cache is accepted and holds the sum, and never makes the cache abort if requests draw different UUIDs; chunked and one-shot allocation ask for the same blocks; two requests share a block exactly if their token prefixes agree |
| streaming detokenisation and stop detection | Utf8, CodePoints, ByteDecoder, Streaming, PromptWindow, TokenSequence, StopDecoder, Detokenizers | for every byte stream the joined chunks are the decoding of the tokens read; exactly which prompts lose text or abort a run; nothing received is lost by the stop decoder; exactly when it stops |
| metrics scrape | SeriesKey, MetricsMerge, MergedSeries, MetricsGraph, WalkOrder, Scrape | the walk ends on every graph and visits exactly what is reachable, in depth-first order; the merge fails exactly on conflicting families and keeps exactly the first sample of every series; exactly when two series share a key |
| bootstrap rendezvous | Bootstrap, BootstrapLosses | completions are conserved in every interleaving, no lost wake-up, both arrival orders end alike, rooms commute; exactly when a connection or a completion is lost |
| health registration and monitoring | Health | one task per registration, in order, exactly if nothing was registered before the start |
| endpoint names | PortNames | parse, print, parse is stable on every text; round trips exactly on canonical names; what parsing ignores |
| error chains, metadata index | ErrorChains, MetadataRegistry | what conversion does to classification; the nested index refines the flat map |

State that the source updates in place is a class whose methods are proved against functions on
values; the theorems about runs are about those functions. Concurrent code is a state machine whose
steps are the sections that run under one lock, one message, one wake-up or one timer. Hash functions,
random draws and vocabularies are parameters.

## Properties that turned out to need a condition

- `pop` keeps the block chain sound exactly when the last block is partial (or nothing is left to
  undo), as its comment demands (`SequenceModel.PopShapeIff`).
- `DecodeStream::step` has no guard for a prompt whose last tokens end inside a character. It returns
  every finished continuation, whole, exactly when the window leaves no character unfinished
  (`PromptWindow.ChunkAtEveryFinishIffClean`). The slice of the new text aborts exactly when the unfinished
  character is completed and has four bytes, or has two and a character of several bytes follows
  (`PromptWindow.StepAbortsIff`). So no run aborts exactly when nothing, or a three-byte character, is
  unfinished in the window (`PromptWindow.NoRunAbortsIff`, `PromptWindow.UnfinishedPromptAborts`).
- The stop decoder lets the first hidden sequence that begins with the held text decide, so the order of
  the list matters exactly when one sequence begins another (`StopDecoder.RunOrderIrrelevantIffPrefixFree`).
- A hidden sequence is noticed exactly when it is made of whole pieces, counted from one where matching
  begins, and no earlier sequence in the list begins with it. Matching begins with the first piece and
  behind every shortest run of pieces that begins no hidden sequence, so overlapping occurrences are
  missed (`StopDecoder.StopsIffNoticed`, `StopDecoder.OverlapGoesUnnoticed`).
- Different series can share a deduplication key. Two series do exactly when their families have one name
  and their sorted labels read like the same labels (`SeriesKey.KeyIffSameSplit`). A series shares its key
  with another one exactly when it has several labels, or one whose value can be divided at a comma into
  two labels in sorted order (`SeriesKey.SharesKeyIff`, `SeriesKey.DistinctSeriesOneKey`,
  `SeriesKey.UnsortedCutUnshared`). Among series whose labels have different names, as the Prometheus rules
  demand, the label behind the comma must have the greater name (`SeriesKey.SharesKeyIffDistinctNames`).
- The cache keeps partial blocks as a set of UUIDs. It aborts on no interleaving of the signals of scheduler
  runs if different requests draw different UUIDs, and can abort if they do not
  (`BlockCache.CacheNeverAborts`, `BlockCache.SharedUuidAborts`).
- No continuation of a run ACKs a decode connection exactly when it has timed out, failed to write, or been
  displaced while it waited: another decode arrived at its room, or cleaned the room up after its own
  time-out (`BootstrapLosses.NeverAckedIff`, `BootstrapLosses.EndsUnservedIff`). Such a clean-up also discards a stored
  completion, exactly when one came while nobody waited and nobody has arrived or cleaned up since
  (`BootstrapLosses.CleanupDiscardsIff`).
- A target registered before the health-check manager starts is announced twice; the monitor takes the
  second announcement for a duplicate and stops (`Health.CoveredIff`, `Health.EarlyRegistrationEndsMonitor`).
- Endpoint names ignore blanks and separators around a text and doubled separators exactly when that neither
  hides nor completes the scheme: behind a blank the scheme is read as a name (`PortNames.OuterIgnored`,
  `PortNames.DoubledIgnored`, `PortNames.BlankHidesScheme`).
- Converting a foreign error gives it the type `Unknown`, which changes a classification exactly through
  sets that name `Unknown` (`ErrorChains.MatchAfterConversion`).

Where code and comments differ the code is followed: endpoint names are trimmed of blanks, dots and
slashes only, not of other white space (`lib/runtime/src/protocols.rs:97`), although the comment says white space.

## Model

| member | source | states |
|---|---|---|
| BlockMath.CeilDiv | lib/mocker/src/common/sequence.rs:161-167 | `div_ceil` by a run-time block size: the least count of blocks that holds the tokens |
| SequenceModel.HashOfPrefix | lib/tokens/src/lib.rs:798-840 | block, sequence and lineage hashes of block i depend on the first (i+1)*block_size tokens only |
| SequenceModel.CreatedIsCached | lib/mocker/src/common/sequence.rs:41-74 | a new sequence has the right block count, all blocks but the last full, and caches equal to a recomputation |
| SequenceModel.PromotionIsSafe | lib/mocker/src/common/sequence.rs:260-289 | when a push promotes, the last complete token block is the cached partial block and its parent is full, so neither the unwrap nor the panic can fire |
| SequenceModel.PushShape | lib/mocker/src/common/sequence.rs:248-314 | push keeps the shape and only extends the hash cache |
| SequenceModel.PushKeepsCache | lib/mocker/src/common/sequence.rs:248-314 | push keeps every cached hash and identity equal to a recomputation from the tokens |
| SequenceModel.PopShapeIff | lib/mocker/src/common/sequence.rs:382-395 | pop keeps the shape if and only if the last block is partial or the sequence is empty |
| SequenceModel.PopKeepsCache | lib/mocker/src/common/sequence.rs:382-395 | a legal pop keeps the caches equal to a recomputation |
| SequenceModel.PopUndoesOpening | lib/mocker/src/scheduler/vllm/core.rs:722-731 | a pop after a push that opened a block restores tokens and counters and leaves at most the promotion |
| SequenceModel.FreeSignals | lib/mocker/src/common/sequence.rs:350-366 | one `Deref` per block, last block first |
| SequenceModel.PreparedIsWellFormed | lib/mocker/src/common/sequence.rs:160-195 | every allocation signal meets the consumer's assertions: one lineage hash per full block, hashes and ids absent or one each, a parent that is not partial |
| SequenceModel.PushSignalsWellFormed | lib/mocker/src/kv_cache/local_vllm_cache.rs:313-345 | every signal of a push meets those assertions; a push asks for exactly the drawn partial block, with nothing attached, if and only if it opens a block |
| ActiveSequences.ActiveSequence.CreateSequenceCache | lib/mocker/src/common/sequence.rs:41-74 | the loop over complete blocks builds exactly the three caches of a new sequence |
| ActiveSequences.ActiveSequence.constructor | lib/mocker/src/common/sequence.rs:113-142 | a new object is valid, unallocated, with default block size 64 |
| ActiveSequences.ActiveSequence.PrepareAllocation | lib/mocker/src/common/sequence.rs:160-195 | the signal for the blocks between what is allocated and the target; nothing changes and no slice is out of range |
| ActiveSequences.ActiveSequence.CommitAllocation | lib/mocker/src/common/sequence.rs:211-213 | only the allocation mark moves |
| ActiveSequences.ActiveSequence.AllocateBlocksForChunk | lib/mocker/src/common/sequence.rs:216-220 | prepare, then commit |
| ActiveSequences.ActiveSequence.TakeCreationSignal | lib/mocker/src/common/sequence.rs:223-225 | allocates all that remains |
| ActiveSequences.ActiveSequence.Push | lib/mocker/src/common/sequence.rs:248-314 | new state and signals of a push; the panic on a partial parent is unreachable |
| ActiveSequences.ActiveSequence.Generate | lib/mocker/src/common/sequence.rs:327-348 | push, and at the output limit the release of every block |
| ActiveSequences.ActiveSequence.FreeSignalForTokens | lib/mocker/src/common/sequence.rs:350-366 | frees the covered prefix, last block first |
| ActiveSequences.ActiveSequence.ResetWithSignal | lib/mocker/src/common/sequence.rs:376-380 | frees what is allocated and forgets the allocation, keeping tokens |
| ActiveSequences.ActiveSequence.Pop | lib/mocker/src/common/sequence.rs:382-395 | takes back the last token of a partial block |
| ActiveSequences.ActiveSequence.PromoteLast | lib/mocker/src/common/sequence.rs:260-300 | the trailing partial block becomes the full block of the last complete tokens, and the signal names its predecessor |
| Chunking.ChunksCoverSlice | lib/mocker/src/common/sequence.rs:160-220 | allocating up to any ascending targets delivers in order exactly the chain in between, each chunk naming the last block of the one before as parent |
| Chunking.ChunkedEqualsOneShot | lib/mocker/src/common/sequence.rs:160-225 | however a prompt is chunked, blocks, hashes, lineage hashes and token ids concatenate to the one-shot creation signal |
| Driver.ReplayRefinesLedger | lib/mocker/src/kv_cache/local_vllm_cache.rs:253-278 | what a consumer that frees only the end of the chain accepts, a reference-counting one accepts with the same content |
| Driver.ReplayFrees | lib/mocker/src/common/sequence.rs:350-371 | the release of a chain returns all of it and nothing else |
| Driver.ReplayPush | lib/mocker/src/common/sequence.rs:248-314 | replaying a push's signals turns the chain before into the chain after |
| Driver.StepAllocate | lib/mocker/src/scheduler/vllm/core.rs:540-592 | an allocation that is granted in part commits exactly what was granted |
| Driver.CommitIsGreatest | lib/mocker/src/scheduler/vllm/core.rs:572-588 | after a partial grant the greatest number of tokens is committed, up to the target, that the held blocks can take |
| Driver.StepDecode | lib/mocker/src/scheduler/vllm/core.rs:722-730 | a decode step keeps the consumer at the whole chain, or at nothing at the output limit |
| Driver.StepDecodeRefused | lib/mocker/src/scheduler/vllm/core.rs:722-731 | a refused block request, undone by pop, leaves consumer and chain in agreement |
| Driver.StepRelease | lib/mocker/src/scheduler/vllm/core.rs:199-214 | preemption and removal give back exactly what is held |
| Driver.RunInvariant | lib/mocker/src/scheduler/vllm/core.rs:540-592 | sound caches, agreement with the consumer and a correct promotion log in every state of every run |
| Driver.RunConservesBlocks | lib/mocker/src/common/sequence.rs:216-395 | in every state of every run the consumer holds exactly the allocated prefix of the chain, all of it when fully allocated, nothing after preemption, removal or completion; no block is freed twice |
| Driver.RunPromotesOnce | lib/mocker/src/common/sequence.rs:248-314 | the promotions announced in a run are the blocks filled since creation, once each, in order, with that block's tokens and hashes and its predecessor as parent; every signal is well formed |
| Driver.RunGenerates | lib/mocker/src/common/sequence.rs:327-348 | in every state of every run the tokens are the prompt and the decoded tokens in order, counted right and within the output limit |
| Driver.HistoryKeepsCache | lib/mocker/src/common/sequence.rs:248-395 | after any legal push and pop history the caches equal a recomputation |
| Driver.HistoryPromotesOnce | lib/mocker/src/common/sequence.rs:248-395 | over every legal push and pop history each block is promoted at most once, in order, with its tokens, hashes and parent |
| Driver.EqualPrefixesShareBlocks | lib/mocker/src/common/sequence.rs:51-67 | with prefix caching two requests with any histories agree on commonly promoted blocks of equal prefixes |
| Identities.BlocksJoin | lib/tokens/src/lib.rs:798-840 | the blocks of tokens, one after the other, are the tokens |
| Identities.HistoryChainsIdentities | lib/tokens/src/lib.rs:807-840 | with prefix caching, after every legal history: a block's hash is that of its own tokens, its identity chains that hash to the identity before it, and its lineage hash names both and the position |
| Identities.SameIdentitySamePrefix | lib/tokens/src/lib.rs:807-840 | if hashes do not collide, one identity at one position stands for one token prefix |
| Identities.SharedIffSamePrefix | lib/mocker/src/common/sequence.rs:41-74 | with prefix caching two requests share the block at a position, or its lineage hash, if and only if their tokens agree that far, whatever their histories, as long as hashes do not collide |
| Identities.HistoryDrawsIdentities | lib/mocker/src/common/sequence.rs:54-66 | without prefix caching every full block carries exactly the identity and the lineage drawn for it |
| Identities.DifferentDrawsShareNothing | lib/mocker/src/common/sequence.rs:54-66 | so requests that draw different values share no block, even for equal tokens |
| SharedCache.MixAccepted | lib/mocker/src/kv_cache/local_vllm_cache.rs:471-535 | any interleaving of signal streams that a reference-counting consumer accepts one by one is accepted, and the consumer then holds what they hold together |
| SharedCache.SharedCacheConserves | lib/mocker/src/kv_cache/local_vllm_cache.rs:253-275 | however the signals of any number of scheduler runs are interleaved, none is refused and every block is held exactly as often as requests have it allocated, where a reference is counted for partial blocks too |
| SharedCache.SharedBlockIsKept | lib/mocker/src/kv_cache/local_vllm_cache.rs:471-495 | a block one request has allocated stays held whatever the others release |
| BlockCache.ProcessedMatches | lib/mocker/src/kv_cache/local_vllm_cache.rs:253-535 | as long as no partial block is referenced twice, the set of UUIDs and the reference counts do what a ledger of references does |
| BlockCache.RunIsCareful | lib/mocker/src/common/sequence.rs:216-395 | at every signal of every run at most one partial block is held, the last one |
| BlockCache.RunUsesDrawn | lib/mocker/src/common/sequence.rs:248-314 | a run asks for no partial block whose UUID it has not drawn |
| BlockCache.CacheNeverAborts | lib/mocker/src/kv_cache/local_vllm_cache.rs:253-535 | if different requests draw different UUIDs, the cache aborts on no interleaving of their signals and holds exactly what they have allocated |
| BlockCache.SharedUuidAborts | lib/mocker/src/kv_cache/local_vllm_cache.rs:471-495 | two requests with one UUID: the second release aborts |
| Utf8.LossySplits | lib/tokenizers/src/tiktoken.rs:142-148 | lossy decoding splits wherever no character is unfinished |
| Utf8.SplitsIffClean | lib/tokenizers/src/tiktoken.rs:142-148 | and for all continuations only there |
| Utf8.LossyIsValid | lib/tokenizers/src/tiktoken.rs:146 | the lossy text is valid UTF-8 |
| Utf8.UnfinishedShows | lib/tokenizers/src/lib.rs:107-112 | an unfinished character shows as a trailing U+FFFD, which is what `Partial` detects |
| Utf8.UnfinishedEnd | lib/tokenizers/src/lib.rs:107-112 | completing an unfinished character takes its U+FFFD back |
| CodePoints.ValidIffEncoding | lib/tokenizers/src/tiktoken.rs:142-148 | the strict check accepts exactly the encodings of lists of Unicode scalar values |
| CodePoints.EncodedRoundTrips | lib/tokenizers/src/tiktoken.rs:142-148 | encoding is injective: the scalar values are recovered |
| CodePoints.LossyKeepsChar | lib/tokenizers/src/tiktoken.rs:146 | lossy decoding keeps a character at the front |
| CodePoints.LossyReplacesSubpart | lib/tokenizers/src/tiktoken.rs:146 | where no character stands at the front, one U+FFFD replaces exactly the longest beginning that also begins a character, or one byte |
| CodePoints.UnitIsSubpart | lib/tokenizers/src/tiktoken.rs:146 | that length exists for every input (and `SubpartUnique`: it is unique) |
| CodePoints.StrippedIsWithout | lib/tokenizers/src/lib.rs:516-518 | stripping removes every U+FFFD of a text and nothing else |
| CodePoints.StrippedText | lib/tokenizers/src/lib.rs:516-518 | so text without U+FFFD stays as it is |
| CodePoints.EndsWithReplacementIff | lib/tokenizers/src/lib.rs:107-112 | a text counts as unfinished exactly if its last character is U+FFFD |
| CodePoints.BoundaryIff | lib/tokenizers/src/lib.rs:498-508 | an index is a character boundary exactly if it lies between two characters or at an end |
| ByteDecoder.FilteredDropsSpecial | lib/tokenizers/src/tiktoken.rs:125-142 | skipping drops every occurrence of a special token and no other token |
| ByteDecoder.BytesConcat | lib/tokenizers/src/tiktoken.rs:125-142 | filtering and flattening token bytes distribute over concatenation |
| ByteDecoder.BytesOfOne | lib/tokenizers/src/tiktoken.rs:123-142 | one token stands for its bytes, or for none if it is special and special tokens are skipped |
| ByteDecoder.DecodeText | lib/tokenizers/src/tiktoken.rs:123-150 | the text is the lossy decoding; complete results leave nothing unfinished; complete exactly when strictly valid or not ending in U+FFFD |
| Streaming.StartedWindow | lib/tokenizers/src/lib.rs:358-383 | a new stream has read its prompt, and its window is the last five tokens of it, or all |
| Streaming.StepOnCleanWindow | lib/tokenizers/src/lib.rs:385-412 | for every byte stream: no slice inside a character, a chunk exactly when pending bytes end finished, its text, and a clean next window |
| Streaming.StepOnValidText | lib/tokenizers/src/lib.rs:385-412 | on text valid so far a chunk appears exactly when pending bytes are non-empty and end on a character |
| Streaming.FeedEqualsDecode | lib/tokenizers/src/lib.rs:385-412 | after every run the joined chunks are the decoding of the tokens from the start to the read offset |
| Streaming.FeedValidText | lib/tokenizers/src/lib.rs:385-412 | on text valid so far chunks plus pending bytes are exactly the bytes received |
| Streaming.StreamReturnsWholeText | lib/tokenizers/src/lib.rs:360-412 | after a valid prompt window, streaming a complete text returns exactly its decoding |
| PromptWindow.StepEmits | lib/tokenizers/src/lib.rs:385-412 | on every stream a step is a function of the bytes of its window and the bytes behind it |
| PromptWindow.StepAbortsIff | lib/tokenizers/src/lib.rs:401-411 | on every stream the slice lands off a boundary if and only if the text is finished and completes the window's last character with four bytes, or with two and several more behind |
| PromptWindow.NoStepAbortsIff | lib/tokenizers/src/lib.rs:360-412 | no continuation aborts the first step if and only if nothing, or a three-byte character, is unfinished in the prompt's window |
| PromptWindow.SafeRun | lib/tokenizers/src/lib.rs:385-412 | from such a window no step of any run aborts |
| PromptWindow.NoRunAbortsIff | lib/tokenizers/src/lib.rs:360-412 | over all vocabularies, prompts and token streams, no run aborts if and only if the window is of that kind |
| PromptWindow.ChunkAtEveryFinishIffClean | lib/tokenizers/src/lib.rs:360-412 | every finished continuation is returned with exactly its text if and only if the prompt window leaves no character unfinished |
| PromptWindow.UnfinishedPromptAborts | lib/tokenizers/src/lib.rs:402-403 | concrete prompts and tokens, with a four-byte and with a two-byte character, on which the slice aborts |
| TokenSequence.BackOff | lib/tokenizers/src/lib.rs:505-509 | the greatest character boundary not past the old prefix, for arbitrary text |
| TokenSequence.FindBoundary | lib/tokenizers/src/lib.rs:505-509 | the counting loop finds it and slicing there is legal |
| TokenSequence.AppendMatchesStep | lib/tokenizers/src/lib.rs:489-526 | with a clean window an append returns what a stream step returns, without U+FFFD |
| TokenSequence.SequenceEqualsDecode | lib/tokenizers/src/lib.rs:489-526 | the returned pieces join to the decoding of the tokens read without U+FFFD; for valid text to all of it |
| TokenSequence.SequenceReturnsCharacters | lib/tokenizers/src/lib.rs:489-530 | by characters: every character of the decoding is returned in order but U+FFFD, so valid text without it comes back unchanged |
| TokenSequence.AppendReturnsCharacters | lib/tokenizers/src/lib.rs:489-530 | the same for one appended token on a clean window |
| StopDecoder.Judge | lib/tokenizers/src/lib.rs:639-650 | no match exactly when no hidden sequence begins with the state; partial and full matches name a member |
| StopDecoder.Accept | lib/tokenizers/src/lib.rs:606-654 | exactly when text is given, held, stopped with or without text, or refused, by the token and by all text held; a stop is reported exactly when there is one |
| StopDecoder.NothingIsLost | lib/tokenizers/src/lib.rs:606-654 | given plus held text is all text received; only a proper beginning of a hidden sequence is held; a sequence stop withholds exactly that sequence |
| StopDecoder.StopsIffMember | lib/tokenizers/src/lib.rs:639-650 | for a prefix-free list a sequence stop happens exactly at a member |
| StopDecoder.OrderIrrelevantIffPrefixFree | lib/tokenizers/src/lib.rs:639-650 | one verdict is independent of the list's order if and only if no member begins another |
| StopDecoder.RunOrderIrrelevantIffPrefixFree | lib/tokenizers/src/lib.rs:606-654 | and so are whole runs on all inputs |
| StopDecoder.StopsIffNoticed | lib/tokenizers/src/lib.rs:606-654 | for all rules and inputs the decoder stops if and only if a stop token arrives, or whole pieces counted from one where matching begins join to a hidden sequence that no earlier one begins with |
| StopDecoder.PrefixFreeMembersWin | lib/tokenizers/src/lib.rs:639-650 | in a prefix-free list that is every hidden sequence |
| StopDecoder.OverlapGoesUnnoticed | lib/tokenizers/src/lib.rs:639-653 | a hidden sequence that begins and ends with pieces and is given out |
| StopDecoder.DecoderEqualsDecode | lib/tokenizers/src/lib.rs:606-654 | end to end, given plus held text is the decoding of the tokens read without U+FFFD |
| StopDecoder.DecoderAtStop | lib/tokenizers/src/lib.rs:606-654 | end to end at a stop: the text received is the decoding of the tokens read by then without U+FFFD; a sequence stop has given out all but the hidden sequence, a visible stop token all, a hidden one a beginning; nothing changes afterwards |
| Detokenizers.DecodeStream.Step | lib/tokenizers/src/lib.rs:385-412 | the object computes the step function; clean windows never abort |
| Detokenizers.Sequence.AppendTokenId | lib/tokenizers/src/lib.rs:489-526 | the object computes the append function; on a clean window every character of the pending bytes but U+FFFD |
| Detokenizers.StopSequenceDecoder.AppendTokenId | lib/tokenizers/src/lib.rs:606-654 | sequence and stop state advance together; after a stop only an error is reported; what the caller is told, in each case |
| SeriesKey.Sorted | lib/runtime/src/metrics.rs:901 | sorting labels is a permutation |
| SeriesKey.SortedIsSorted | lib/runtime/src/metrics.rs:901 | in order of name and value |
| SeriesKey.LessIff | lib/runtime/src/metrics.rs:901 | strings compare lexicographically |
| SeriesKey.KeyIffSameSeries | lib/runtime/src/metrics.rs:858-916 | keys are equal if and only if name and labels are, when values embed nothing that reads like a label |
| SeriesKey.KeyIffSameSplit | lib/runtime/src/metrics.rs:858-916 | for label names free of separators, sorted keys are equal if and only if names are and the sorted labels read like the same labels |
| SeriesKey.SharesKeyIff | lib/runtime/src/metrics.rs:858-916 | some other series has the key of a series if and only if it has several labels, or one whose value divides at a comma into two labels in sorted order |
| SeriesKey.SharesKeyIffDistinctNames | lib/runtime/src/metrics.rs:858-916 | the same among series whose labels have different names: the label behind the comma has the greater name |
| SeriesKey.UnsortedCutUnshared | lib/runtime/src/metrics.rs:901-903 | a value that reads like a further label and shares its key with nothing |
| SeriesKey.EmbeddedLabelCollides | lib/runtime/src/metrics.rs:858-865 | a value that embeds `,name=` renders like the list in which that is a label of its own |
| SeriesKey.DistinctSeriesOneKey | lib/runtime/src/metrics.rs:903-914 | two different series with one key |
| MetricsMerge.Merge | lib/runtime/src/metrics.rs:868-919 | fails exactly when two families of one name disagree; otherwise the merge of all families |
| MetricsMerge.FirstsHaveDistinctKeys | lib/runtime/src/metrics.rs:903-914 | no key is kept twice and none is lost |
| MetricsMerge.KeptIffFirst | lib/runtime/src/metrics.rs:894-917 | a sample is kept exactly if it is the first with its key in walk order |
| MergedSeries.KeyOfIffSameSeries | lib/runtime/src/metrics.rs:896-903 | samples count as duplicates exactly if family name and label set agree, when values embed nothing that reads like a label |
| MergedSeries.KeyOfIffSameSplit | lib/runtime/src/metrics.rs:896-903 | and in general exactly if their sorted labels read like the same labels |
| MergedSeries.KeptByPlace | lib/runtime/src/metrics.rs:862-917 | a merged family holds, in order, exactly the first sample of every series of its name, by registry, family and position |
| MergedSeries.EverySeriesKept | lib/runtime/src/metrics.rs:896-917 | no series is lost |
| MergedSeries.KeptAreDifferent | lib/runtime/src/metrics.rs:896-917 | and none is kept twice |
| MetricsMerge.MergedFamiliesNonEmpty | lib/runtime/src/metrics.rs:871-919 | no merged family is empty if no gathered one is and names contain no bar |
| MetricsMerge.IntoValues | lib/runtime/src/metrics.rs:921-922 | all entries, strictly ascending by name |
| MetricsGraph.MetricsRegistry.AddChildRegistry | lib/runtime/src/metrics.rs:779-790 | a child is added once |
| MetricsGraph.Visit | lib/runtime/src/metrics.rs:800-817 | adds unseen registries reached from the visited one, each once, with all their children, in depth-first order |
| MetricsGraph.RegistriesForCombinedScrape | lib/runtime/src/metrics.rs:793-824 | on every graph the walk ends and returns the root first and exactly the reachable registries, each once, in the order of an explicit-stack walk |
| WalkOrder.ScrapeWalkInOrder | lib/runtime/src/metrics.rs:793-824 | every registry of the walk is the first child not seen before of the latest registry that has one |
| Scrape.CombinedFamilies | lib/runtime/src/metrics.rs:843-922 | the scrape fails exactly when two reachable registries conflict; otherwise there is one family for every exposed name and no other, with its help and type, in ascending order, holding exactly the first samples in walk order; exactly one sample of every exposed series, when values embed nothing that reads like a label |
| Bootstrap.StepKeepsTables | lib/mocker/src/common/bootstrap.rs:116-192 | every step keeps the room table sound |
| Bootstrap.StepConserves | lib/mocker/src/common/bootstrap.rs:116-192 | every step accounts for every completion |
| Bootstrap.RunInvariant | lib/mocker/src/common/bootstrap.rs:116-192 | in every interleaving a stored room is ready or has a waiter, never both or neither; a waiting connection is the one its room would wake; completions equal connections served plus stored plus lost |
| Bootstrap.AcksNeverExceedCompletions | lib/mocker/src/common/bootstrap.rs:116-192 | ACKs for a room never outnumber its completions |
| Bootstrap.PairMeets | lib/mocker/src/common/bootstrap.rs:116-192 | the state of one decode and one prefill at every point of every interleaving |
| Bootstrap.RendezvousCompletes | lib/mocker/src/common/bootstrap.rs:104-192 | without time-out both arrival orders end with the decode ACKed and the room gone |
| Bootstrap.RoomsCommute | lib/mocker/src/common/bootstrap.rs:116-192 | steps of different rooms commute |
| BootstrapLosses.DoomedIff | lib/mocker/src/common/bootstrap.rs:104-166 | in every state of every interleaving a connection is in a doomed phase if and only if it timed out, failed to write, or was displaced while it waited |
| BootstrapLosses.DoomedIffNeverAcked | lib/mocker/src/common/bootstrap.rs:104-192 | a connection is in a doomed phase if and only if no continuation of the run ACKs it |
| BootstrapLosses.NeverAckedIff | lib/mocker/src/common/bootstrap.rs:104-192 | in every state of every interleaving no continuation ACKs a connection if and only if it timed out, failed to write, or was displaced while it waited |
| BootstrapLosses.EndsUnservedIff | lib/mocker/src/common/bootstrap.rs:126-159 | a connection that neither times out nor fails to write ends without an ACK if and only if another one arrived at its room or cleaned it up while it waited |
| BootstrapLosses.StoredIff | lib/mocker/src/common/bootstrap.rs:169-192 | a completion is stored if and only if one came while nobody waited and nobody has arrived or cleaned up since |
| BootstrapLosses.CleanupDiscardsIff | lib/mocker/src/common/bootstrap.rs:156-159 | exactly then a clean-up loses a completion and makes the next decode wait that would have been let through |
| BootstrapLosses.SecondDecodeOrphansFirst | lib/mocker/src/common/bootstrap.rs:126-134 | a second decode of a room ends the wait of the first |
| BootstrapLosses.TimeoutCanOrphanAnother | lib/mocker/src/common/bootstrap.rs:126-159 | a run in which a clean-up ends another connection's wait |
| BootstrapLosses.TimeoutCanDiscardCompletion | lib/mocker/src/common/bootstrap.rs:156-192 | a run in which a clean-up discards a stored completion although nobody waits |
| Bootstrap.BootstrapServer.ServeDecode | lib/mocker/src/common/bootstrap.rs:116-145 | the locked section is the connect step |
| Bootstrap.BootstrapServer.CompleteRoom | lib/mocker/src/common/bootstrap.rs:169-192 | `complete_room` is the completion step |
| Bootstrap.BootstrapServer.RemoveAfterTimeout | lib/mocker/src/common/bootstrap.rs:156-159 | the removal after a time-out is the cleanup step |
| Health.ReceiveKeeps | lib/runtime/src/health_check.rs:203-231 | a received registration has no task yet exactly if nothing was registered before the start |
| Health.RunInvariant | lib/runtime/src/health_check.rs:92-238 | tables, channel and tasks agree in every state of every interleaving |
| Health.ExactlyOneTaskEach | lib/runtime/src/health_check.rs:92-238 | with nothing registered at the start: one task per registration, in order, monitor alive, notifier present, no target vanished, and tasks equal targets once the channel is drained |
| Health.ReadyOnlyAfterReports | lib/runtime/src/system_health.rs:243-248 | in every run every target has a status, and overall readiness needs a report on each registered target |
| Health.LateStartMonitorsNothingNew | lib/runtime/src/health_check.rs:203-224 | otherwise nothing registered later is ever monitored |
| Health.CoveredIff | lib/runtime/src/health_check.rs:92-238 | tasks cover targets if and only if nothing was registered before the start or nothing since |
| Health.EarlyRegistrationEndsMonitor | lib/runtime/src/health_check.rs:213-224 | a concrete run in which the monitor stops and a later target gets no task |
| Health.SystemHealth.constructor | lib/runtime/src/system_health.rs:91-123 | configured names start as not ready if probing is enabled, otherwise with the given status |
| Health.SystemHealth.RegisterHealthCheckTarget | lib/runtime/src/system_health.rs:207-258 | a new name enters all tables and the channel once; a known name changes nothing |
| Health.SystemHealth.GetHealthCheckStatus | lib/runtime/src/health_check.rs:353-389 | ready exactly when every registered target is |
| Health.HealthCheckManager.Start | lib/runtime/src/health_check.rs:92-113 | the first start: one task per target found, then the monitor; every further one fails after starting a second task for every target |
| Health.RegisterManaged | lib/runtime/src/system_health.rs:207-258 | registering with a managed health object is a step that keeps the manager valid |
| Health.ReportManaged | lib/runtime/src/system_health.rs:155-161 | so is reporting a status |
| Health.HealthCheckManager.ReceiveOne | lib/runtime/src/health_check.rs:203-231 | one round of the monitor is the receive step |
| Health.StartIsSteps | lib/runtime/src/health_check.rs:92-113 | starting is the protocol's steps in a row |
| PortNames.ParseIsCanonical | lib/runtime/src/protocols.rs:93-212 | every text parses to non-empty separator-free fields without outer blanks |
| PortNames.SegmentsOfJoined | lib/runtime/src/protocols.rs:93-102 | any number of tidy segments is read back, with either separator, with or without the scheme |
| PortNames.FieldsByPosition | lib/runtime/src/protocols.rs:162-213 | which segment becomes which field, the defaults, and that everything after the second segment is the name |
| PortNames.NothingNamed | lib/runtime/src/protocols.rs:119-128 | blanks and separators alone stand for the default identifier |
| PortNames.OuterIgnored | lib/runtime/src/protocols.rs:93-101 | blanks and separators around a text do not matter if and only if they neither hide nor complete a scheme |
| PortNames.DoubledIgnored | lib/runtime/src/protocols.rs:93-101 | nor does a separator behind another one, if and only if it does not complete a scheme |
| PortNames.ParseKeepsColons | lib/runtime/src/protocols.rs:93-213 | every colon of the text behind a scheme ends up in a field, and no other |
| PortNames.BlankHidesScheme | lib/runtime/src/protocols.rs:93-101 | a blank before the scheme makes it part of the name |
| PortNames.PrintedByPosition | lib/runtime/src/protocols.rs:105-252 | the printed forms by position, with slashes, and behind the scheme with dots |
| PortNames.RoundTripsIffCanonical | lib/runtime/src/protocols.rs:105-252 | an identifier survives printing and parsing, either form, if and only if it is canonical |
| PortNames.ParsePrintParse | lib/runtime/src/protocols.rs:93-252 | for every text, parse, print either way and parse again is parse |
| PortNames.ParsedIffCanonical | lib/runtime/src/protocols.rs:188-212 | the canonical identifiers are exactly what parsing can produce |
| ErrorChains.ConversionKeepsChain | lib/runtime/src/error.rs:184-207 | conversion keeps the length, every message and every type, and types foreign errors `Unknown` |
| ErrorChains.ChainOfWrapped | lib/runtime/src/error.rs:173-179 | every error of a nested chain is met, from the outermost in, with its own type and text |
| ErrorChains.MatchErrorChain | lib/runtime/src/error.rs:275-294 | the early-exit loop decides "no error excluded and some error matched" |
| ErrorChains.MatchAfterConversion | lib/runtime/src/error.rs:184-294 | exactly how conversion changes a classification, and that it does not for sets without `Unknown` |
| MetadataRegistry.HistoryRefines | lib/runtime/src/metadata_registry.rs:92-119 | after any history the nested map holds exactly the flat map's entries |
| MetadataRegistry.LastOperationDecides | lib/runtime/src/metadata_registry.rs:92-119 | a key is found with its path exactly if the last operation that decides about it registered it so |
| MetadataRegistry.MetadataArtifactRegistry.Register | lib/runtime/src/metadata_registry.rs:92-98 | adds or replaces one entry |
| MetadataRegistry.MetadataArtifactRegistry.Get | lib/runtime/src/metadata_registry.rs:103-109 | agrees with the flat map |
| MetadataRegistry.MetadataArtifactRegistry.Unregister | lib/runtime/src/metadata_registry.rs:115-119 | removes exactly one scope |
| MetadataRegistry.MetadataArtifactRegistry.Len | lib/runtime/src/metadata_registry.rs:122-125 | the sum over scopes is the flat map's size |
| MetadataRegistry.MetadataArtifactRegistry.IsEmpty | lib/runtime/src/metadata_registry.rs:131-134 | true exactly when the flat map is empty |

## Left out

- `TokenBlockSequence` is a plain sequence of tokens: how it stores blocks and recomputes hashes incrementally is not part of this model.
- Hash quality, the bit packing of lineage hashes and their limit of 2^24 positions: hash functions are parameters, and that different prefixes get different identities is proved for hash functions without collisions.
- The KV cache behind the signals: replay checks that it is never asked to free or promote what it does not hold; eviction, capacity and the pool of inactive blocks are not modelled.
- Unknown token ids, BPE encoding and the other tokenizer back ends: every token id has fixed bytes.
- `Sequence::append_text` and visible stop sequences, which the decoder stores and never reads.
- Update callbacks, exposition callbacks and the Prometheus text encoding of a scrape; what a registry gathers is a given list of families.
- Sockets, accept loop and clocks of the bootstrap server: a time-out may happen at any moment while a connection waits.
- Health probes, canary timers and requests; statuses are set by arbitrary steps. Runs of the protocol contain one start; what a second one does is stated by the method alone.
- `SystemHealth::get_health_status` and the remaining status setters: they would add only easy members.
- Serialisation and builders of errors, equality of endpoint names with lists: they would add only easy members.
- Runtime shutdown, configuration, HTTP, logging, discovery and the network pipeline.
