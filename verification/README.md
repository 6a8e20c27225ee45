# Verified models of the memory engine

This project models the parts of the memory engine whose correctness is hardest to see in the
code, and proves what they promise. `dafny verify dfyconfig.toml` checks all of it. `Lists` and
`Text` hold what several models share: sorting, duplicate-freeness, white space and octets.

The main results, hardest first:

- **Tokenizer and named entities** (`Unigram`, `Words`, `Alignment`, `Iob`, `Ner`). The
  Viterbi search over the indexed vocabulary returns the unique best segmentation among all
  segmentations by vocabulary tokens and the one-rune fallback (`Unigram.Viterbi`). The in-place
  normalization yields the marked words of the text exactly under a condition on its white space
  (`Words.NormalizedIsMarkedWords`). Under three conditions on the vocabulary each token gets the
  number of the word it lies in, so that each word gets the label of its first token
  (`Alignment.TokensAreAligned`, `Ner.RunNer`); without them the numbers are right exactly when
  every piece shows its marker, and each number still has the label of its first token. Decoding the
  B-/I-/O encoding of spans returns the spans.
- **Connection pool** (`Pool`, `PoolSteps`). As a sequential class with exact books, in which the
  total counts idle, active and leaked connections; and as a step system of any number of callers
  with the maintenance loop, where total and open connections exceed the bound by one at most, which
  both of them do in some run whatever the bound is, and no connection is ever lent twice.
- **Data point lifecycle** (`DataPoints`, `Lifecycle`, `Workers`, `Pending`). Over every
  interleaving of single store accesses, failing ones included, chunk rows only move forward and a
  completed document has only completed chunks. A document is marked completed exactly when the
  last synchronization written for it had counted all chunks as completed; it is undone by a stale
  count and by nothing else, which one run shows to happen. A chunk
  ends failed exactly if its work went wrong, and completed otherwise, unless the write of the
  failure itself fails. When a run has come to rest, every submitted document whose text yields a
  chunk and for which nothing failed has chunk rows, all completed, whatever failed for others; and
  without such a stale count, and so whenever count and write are atomic, it is completed itself.
  The worker pool, which submits to the queue it
  serves, deadlocks for some schedule exactly when the tasks that come of what is submitted are at
  least as many as the queue and the workers hold together, and the chunks among them as many as
  the workers; a state that cannot deadlock completes in every run. `CognifyPending` ends exactly
  when no document is in a state that no sweep can complete.
- **Chunk stage** (`Chunks`). Goroutines that write result slots in any order leave the slots as a
  sequential loop would, and the consolidation keeps chunk order.
- **Context segmentation** (`Segments`). Nothing but white space is lost, every segment is non-empty
  and within the limit in runes, sentences that are too long separate greedily packed stretches, and
  the greedy packing uses as few segments as any.
- **Merge, cache and filter algebra** (`Scores`, `Ranking`, `Embedder`, `Labels`). Merged scores are
  maxima and independent of order; the late storage pass never spoils them exactly when the weak
  threshold is at most 0.56; the ranking is a descending, duplicate-free, visible top-k; the
  embedding cache is invisible under partial hits, duplicates, expiries and a failed batch call; label
  sets, joined strings and split filters mean the same.

Most modules close with laws that say in plain terms, with the constants written out, what the
functions of the specification mean to a caller: the octets of a character, the first sentence of a
text, when a provider is asked, which row a session sees.

Conventions. A Go string of valid UTF-8 is a sequence of Unicode scalar values, `len` counts octets
by section 3 of RFC 3629. Scores, logits and vectors are real numbers. What a goroutine cannot
control (health of a connection, answers of a factory, provider, store or text parser, the clock) is a
parameter, arbitrary unless stated. Where the source updates an object or an array in place, the
model is a class or an array and its methods are tied to functions of the old state; where goroutines
share state, the model is a step system whose steps are single accesses.

Where the code does not do what its comments or names suggest, the model follows the code:

- `viterbi` is commented to fall back when no token covers the last rune (`extractor/deberta/tokenizer.go:255`);
  it does so when no token *ends* there, and it yields one id per rune, not one per byte.
- `normalizeSPM` is commented to replace all white space (`extractor/deberta/tokenizer.go:299-300`);
  it replaces four characters, and other white space inside the text survives.
- Closing a connection that fails validation on the fast path of `Get`, and every close in `Put`,
  does not take it off the total (`storage/connection_pool.go:194-198`, `235-258`); the books carry the
  leaked slots.

## Model

| member | source | states |
|---|---|---|
| Unigram.BuildIndex | extractor/deberta/tokenizer.go:75-118 | Builds the vocabulary slice and both indexes; every entry keeps its position as id, each first-rune bucket lists exactly the tokens starting with its rune in ascending id order, the last byte token of an octet wins, and maxTokLen is the length of the longest token. |
| Unigram.WindowMissesNothing | extractor/deberta/tokenizer.go:237 | Starting the scan maxTokLen runes back loses no vocabulary match that ends at the cell. |
| Unigram.ScanFindsExactlyTheMatches | extractor/deberta/tokenizer.go:237-246 | Restricting starts to the window and candidates to the first-rune bucket finds exactly the matches of a scan over all starts and the whole vocabulary. |
| Unigram.ScanBucket | extractor/deberta/tokenizer.go:238-253 | After one start position the cell holds the best of all matches with starts so far; ties keep the smallest start and the lowest id. |
| Unigram.FallBack | extractor/deberta/tokenizer.go:255-279 | Where no token ends, exactly one rune is consumed: by the first of its best-scoring byte tokens, or by UNK with a penalty of 100. |
| Unigram.FillCell | extractor/deberta/tokenizer.go:235-280 | The cell holds a best last step over every allowed piece ending there, the first one in the tie order; no other cell changes. |
| Unigram.TableBoundsTotals | extractor/deberta/tokenizer.go:223-280 | No segmentation of a prefix scores more than the table entry of that prefix. |
| Unigram.TableGivesCanonical | extractor/deberta/tokenizer.go:282-294 | Walking the back pointers always reaches position 0 and yields a segmentation whose total is the table entry, hence the maximum, with ties resolved at every prefix. |
| Unigram.Viterbi | extractor/deberta/tokenizer.go:217-295 | For every vocabulary and text the ids label consecutive non-empty pieces covering the text, of maximal total score among all segmentations by vocabulary matches and the one-rune fallback. |
| Unigram.CanonicalIsUnique | extractor/deberta/tokenizer.go:235-253 | The answer is determined: maximal totals and the tie order leave only one segmentation. |
| Unigram.Backtrack | extractor/deberta/tokenizer.go:282-294 | The ids collected backwards and reversed are those of the path in the text's order. |
| Unigram.ReverseInPlace | extractor/deberta/tokenizer.go:290-293 | The two-index swap loop reverses the array. |
| Unigram.HoldsMeans | extractor/deberta/tokenizer.go:75-118 | Entry by entry what the index holds: a short entry is an empty token with id 0, any other keeps token, score and position; of the six-octet tokens from <0x to > for one octet the last counts. |
| Unigram.WeightMeans | extractor/deberta/tokenizer.go:235-279 | A vocabulary match weighs its token's score; a rune that no token ends at is one piece with the score and id of a byte token of one of its octets, or UNK at -100. |
| Unigram.TiesMean | extractor/deberta/tokenizer.go:246-253 | Of equally good segmentations the one whose last token starts first is chosen, and of tokens spelled alike the one with the lowest id. |
| Unigram.ByteTiesMean | extractor/deberta/tokenizer.go:262-276 | The byte token chosen is a best one, and of equally good ones that of the first octet. |
| Text.Utf8Means | extractor/deberta/tokenizer.go:262-271 | The octets of a rune, read back in plain arithmetic: the first tells how many there are, and their bits make up the code point, in the ranges of section 3 of RFC 3629. |
| Words.SplitWords | extractor/deberta/deberta_extractor.go:613-630 | The builder loop yields the maximal runs without white space. |
| Words.WordsHoldTheInk | extractor/deberta/deberta_extractor.go:613-630 | Words are non-empty, hold no white space, and together are the text without its white space. |
| Words.FirstWord | extractor/deberta/deberta_extractor.go:613-630 | The law of the splitter: white space in front is skipped, the runes up to the next white space are the first word, the rest is split by itself. |
| Words.MarkSpaces | extractor/deberta/tokenizer.go:307-318 | A leading marker, then the text with the four plain kinds of space replaced by markers. |
| Words.Compact | extractor/deberta/tokenizer.go:320-330 | Writing the collapsed text into the array that is being read is safe and yields the text with runs of markers cut to one. |
| Words.NormalizeSPM | extractor/deberta/tokenizer.go:301-331 | Trim, mark and compact together. |
| Words.NormalizedIsMarkedWords | extractor/deberta/tokenizer.go:301-331 | The normalized text is the concatenation of marker and word over the words of splitWords exactly when the inner white space is space, tab, LF or CR and the words' own markers stand alone. |
| Words.PlainTextNormalizes | extractor/deberta/tokenizer.go:301-331 | Text with no white space but space, tab, LF and CR, and without a marker, becomes its words with U+2581 in front of each. |
| Words.NormalizedMeans | extractor/deberta/tokenizer.go:301-331 | For every text: the result is empty exactly when the trimmed text is, starts with a marker, has no two in a row and none of the four kinds of space, and keeps everything else in order. |
| Alignment.Encode | extractor/deberta/tokenizer.go:148-180 | [CLS], if asked for, is the first id and [SEP] the last, both with word id -1; the ids between are those of the best path in order, one each, cut to 32 bits, and their word ids count the leading markers from 0. |
| Alignment.BuildAttentionMask | extractor/deberta/tokenizer.go:184-211 | Cut or pad to the length; the mask is 1 exactly on the real positions, padding has word id -1. |
| Alignment.NumberCountsMarkers | extractor/deberta/tokenizer.go:157-171 | The running word number is the number of markers passed, less one. |
| Alignment.TokensAreAligned | extractor/deberta/tokenizer.go:148-180 | If the marker is a token, no token has a marker after its first rune and UNK has none in front, every content token of every segmentation gets exactly the number of the splitWords word it lies in. |
| Alignment.AlignedExactlyWhenPiecesShow | extractor/deberta/tokenizer.go:165-168 | For any vocabulary, the numbers of a segmentation are right if and only if each piece shows its marker in its token and holds none inside. |
| Alignment.WordHasFirstToken | extractor/deberta/tokenizer.go:157-171 | Every word has a token that starts where the word's block starts and carries the word's number. |
| Iob.DecodeIob | extractor/deberta/deberta_extractor.go:529-570 | The one-pass decoder with its flush closure yields the spans of the tag runs, with words past the list read as empty. |
| Iob.RunsPartitionTheTags | extractor/deberta/deberta_extractor.go:545-568 | Runs start at each B- or change of class, are maximal and ordered, and cover exactly the labelled positions, each once. |
| Iob.DecodeOfEncoding | extractor/deberta/deberta_extractor.go:529-570 | Round trip: decoding the B-/I-/O encoding of any list of disjoint non-empty spans returns the list, adjacent spans of one class included. |
| Iob.SpansMean | extractor/deberta/deberta_extractor.go:529-570 | A span has the class of its run, and its surface is the run's words with blanks between, those past the list being empty; of a one-word run it is that word. |
| Ner.ArgmaxRow | extractor/deberta/deberta_extractor.go:512-519 | The first index of a largest logit of the row. |
| Ner.ArgmaxLabels | extractor/deberta/deberta_extractor.go:509-527 | Each position gets the label of the first largest logit of its row, or O when there is no label for it. |
| Ner.LabelWords | extractor/deberta/deberta_extractor.go:480-501 | One label per word number up to the largest seen: that of its first unmasked position, or O. |
| Ner.RowLabelMeans | extractor/deberta/deberta_extractor.go:509-527 | The label of a position is that of the first largest of its consecutive logits, or O when the label list is shorter. |
| Ner.LabelsFollowTokens | extractor/deberta/deberta_extractor.go:480-501 | With aligned numbers each word that fits gets the label of its first token and the labels never outnumber the words. |
| Ner.RunNer | extractor/deberta/deberta_extractor.go:443-505 | Encoding, padding, argmax, word labels and decoding together: for every text and vocabulary the spans come from one label per word number among the tokens that fit, that of the first token with the number; under the vocabulary condition these are the words' labels, and without truncation all words have one. |
| Segments.SplitIntoSentences | engine/utils.go:9-31 | The match loop yields the sentences of the greedy scanner. |
| Segments.SentencesKeepTheInk | engine/utils.go:9-31 | The non-white-space characters of the sentences in order are those of the text. |
| Segments.SentencesAreSentences | engine/utils.go:10-30 | Each sentence is trimmed, has its terminators at its end and none before; only the last may have none. |
| Segments.FirstSentence | engine/utils.go:9-31 | The law of the splitter: runes other than . ! ? and then as many of these and as many blanks as there are make up the first sentence, trimmed; the rest is split by itself. |
| Segments.LastSentence | engine/utils.go:9-31 | Text without terminators is one sentence, trimmed, or none if it is blank. |
| Segments.Slice | engine/utils.go:57-65 | A long sentence is cut by the loop into the slices that SlicesMean describes, behind the segments so far. |
| Segments.SlicesMean | engine/utils.go:57-65 | The slices concatenate to the sentence, none is empty, and all but the last have exactly maxLength runes. |
| Segments.PackOne | engine/utils.go:45-48 | One fitting sentence goes into the current segment or opens the next, as the greedy packing does. |
| Segments.LongSentenceSeparates | engine/utils.go:43-77 | A sentence that is too long stands as its slices between the segmentations of what is in front of it and of what comes behind, each as if it stood alone. |
| Segments.FittingAreGreedy | engine/utils.go:43-77 | A stretch of sentences that all fit is packed greedily. |
| Segments.SegmentedKeepsInk | engine/utils.go:34-80 | The segments hold the non-white-space characters of the sentences, in order. |
| Segments.SegmentedIsWithin | engine/utils.go:34-80 | Every segment is non-empty and has at most maxLength runes. |
| Segments.SplitContext | engine/utils.go:34-80 | The loops compute exactly this segmentation of the text's sentences, so that segments are non-empty, within the limit in runes and keep all non-white-space characters in order; a non-positive limit returns the context. |
| Segments.GreedyFits | engine/utils.go:43-77 | The greedy packing keeps the sentences in order and every space-joined group fits in maxLength octets. |
| Segments.GreedyIsMinimal | engine/utils.go:43-77 | Greedy stays ahead: no order-preserving packing that fits has fewer groups, or as many and a shorter last one. |
| Segments.FewestSegments | engine/utils.go:43-77 | No order-preserving grouping whose space-joined groups fit uses fewer groups than the segments produced. |
| Pool.SharesMeans | storage/connection_pool.go:100-123 | The accounting's structural part means: idle is duplicate-free and disjoint from active, and the open connections are exactly the idle and the active ones. |
| Pool.GenericConnectionPool.New | storage/connection_pool.go:126-179 | A bad configuration is refused; otherwise the pool starts with the minimum of idle connections and exact books, or a failed creation is reported. |
| Pool.GenericConnectionPool.Get | storage/connection_pool.go:182-215 | Lends the idle connection in front when it is fit; otherwise lends exactly when createAndTrackConnection does on what is left; only a failed validation on the fast path leaks a slot of the total; a pool whose slots have all leaked lends nothing. |
| Pool.GenericConnectionPool.CreateAndTrack | storage/connection_pool.go:353-407 | Below the bound it lends exactly when the factory creates; at the bound exactly when an idle connection comes in time and is fit, or by being closed makes room for one that the factory creates; a failed creation is rolled back, its closes give their slots back. |
| Pool.GenericConnectionPool.Put | storage/connection_pool.go:218-261 | Keeps the books exactly when the connection was active; requeues it or closes it with its slot leaked; the full-channel branch is unreachable for an active connection. |
| Pool.PutAccounts | storage/connection_pool.go:228-260 | Returning a connection keeps the accounting if and only if it is one that is lent. |
| Pool.GenericConnectionPool.Close | storage/connection_pool.go:264-294 | Afterwards nothing is open and as many connections were closed as were created. |
| Pool.GenericConnectionPool.PerformHealthCheck | storage/connection_pool.go:530-571 | Up to three idle connections are tested in order; the sick are closed with their slots, the others rejoin the channel; the books stay exact. |
| Pool.GenericConnectionPool.CleanupIdleConnections | storage/connection_pool.go:456-495 | Worn connections are closed from the front up to the first good one, which goes to the back; then the minimum is restored. |
| Pool.GenericConnectionPool.EnsureMinimumIdle | storage/connection_pool.go:497-528 | Adds the factory's connections until the minimum is there, the total is at its bound, or a creation fails; the full-channel branch is unreachable. |
| Pool.CheckedAccounts | storage/connection_pool.go:530-571 | Closing any subset of the first idle connections and requeueing the rest keeps the accounting. |
| Pool.CheckShares | storage/connection_pool.go:546-571 | Testing connections in front and requeueing the healthy ones neither loses nor duplicates a connection. |
| Pool.AccountsMean | storage/connection_pool.go:100-123 | What the books of an open pool say: the total is idle, lent and leaked, within the bound; open connections are exactly the idle and the lent; none is both. |
| Pool.GotMeans | storage/connection_pool.go:182-215 | What Get hands out was not lent; if it is an old one it is the first idle one that is not sick; all idle ones in front of it were sick, and are closed. |
| Pool.ReturnedMeans | storage/connection_pool.go:218-261 | A connection put back is at the end of the channel and open; one that is closed keeps its slot of the total, which is leaked. |
| Pool.CheckedMeans | storage/connection_pool.go:530-571 | Of the connections looked at exactly the sick are closed, with their slots, and the others go to the end of the channel. |
| PoolSteps.InitInv | storage/connection_pool.go:126-179 | A constructed pool satisfies the invariant. |
| PoolSteps.MaintStepCounted | storage/connection_pool.go:456-571 | Every access of the maintenance loop keeps: total = open + reserved + closed-not-yet-decremented + leak - created-not-yet-counted. |
| PoolSteps.CallerStepPlaced | storage/connection_pool.go:182-261 | Every access of a caller leaves each open connection in exactly one place. |
| PoolSteps.NextInv | storage/connection_pool.go:340-407 | Every step of any number of callers and the maintenance loop keeps the counting, the bound and the placement. |
| PoolSteps.RunInv | storage/connection_pool.go:340-407 | The invariant holds along every run. |
| PoolSteps.NeverMoreThanOneOver | storage/connection_pool.go:353-407 | In every reachable state the counting equation holds, total and open connections are at most MaxConnections + 1, and a lent connection is in no other place. |
| PoolSteps.GetLendsAfresh | storage/connection_pool.go:188-214 | What Get hands out was not lent before, so no connection is lent to two callers. |
| PoolSteps.MaintenanceNeverStuck | storage/connection_pool.go:456-571 | The maintenance loop can always take a step. |
| PoolSteps.OneOverIsReached | storage/connection_pool.go:456-528 | The bound is tight: for every positive MaxConnections a run of a pool with MinIdleConnections 1, in which maintenance finds missing what is missing, ends with a total and with a number of open connections of one more. |
| PoolSteps.OnlyCountingExceeds | storage/connection_pool.go:497-528 | A step takes the total above its bound if and only if maintenance counts the connection it has created while the total is at the bound. |
| PoolSteps.CallersCloseTheBad | storage/connection_pool.go:182-261 | A caller closes a connection exactly when it holds it, not as a new one, and finds it bad, or gives it back to a full channel. |
| PoolSteps.PutGivesBack | storage/connection_pool.go:228-260 | A healthy connection put back while there is room is the channel's last; a closed one leaks its slot. |
| PoolSteps.MaintenanceClosesTheBad | storage/connection_pool.go:456-571 | Maintenance closes nothing but what it has collected as worn, found bad, or cannot send back because the channel is full. |
| PoolSteps.MaintenanceCollects | storage/connection_pool.go:456-495 | Worn connections in front are collected up to the first good one, which goes to the back of the channel. |
| Pending.SyncParent | engine/task_cognify.go:432-467 | Counting the children and comparing writes completed exactly when there are chunks and all are completed. |
| Pending.Memify | engine/task_memify.go:23-26 | A row that is not cognified is refused and nothing is written; otherwise the chunk is completed and its parent synchronized. |
| Pending.ExecuteChunk | engine/task_cognify.go:137-323 | In line, a chunk row goes through processing and cognified to completed, and its parent follows. |
| Pending.ExecuteNewDoc | engine/task_cognify.go:48-119 | A document is split, its chunk rows made and processed one after the other, and the document synchronized. |
| Pending.OneMoreChunk | engine/task_cognify.go:107-119 | Processing one more chunk, from whatever stale copy of its row, adds it to what the sweep has done. |
| Pending.OneMoreNewDoc | engine/task_cognify.go:48-119 | Processing one more unsplit document from its copy does the same, also when its chunks were taken up already. |
| Pending.TakeUp | engine/engine_core.go:260-278 | One turn of the sweep's inner loop, from a copy that may be out of date. |
| Pending.Sweep | engine/engine_core.go:238-283 | A sweep has one outcome, whatever the order of the rows, and ends the loop exactly when the workload is empty. |
| Pending.FailedChunkIsLost | engine/engine_core.go:238-283 | A split document in processing with a failed chunk is a document that can never be completed. |
| Pending.LostStaysLost | engine/engine_core.go:238-283 | Such a document stays so in every sweep and keeps the workload non-empty. |
| Pending.NoneGetsLost | engine/engine_core.go:238-283 | A session without such a document does not get one. |
| Pending.TwoSweepsSuffice | engine/engine_core.go:238-283 | Then two sweeps leave no work, and one does in an ordinary session (see OneSweepSuffices). |
| Pending.OneSweepSuffices | engine/engine_core.go:238-283 | When no chunk starts failed, retrying or cognified, one sweep completes every row of the session. |
| Pending.CognifyPending | engine/engine_core.go:237-285 | Ends by itself if and only if no document is lost, then within three turns; in an ordinary session every row is completed. |
| Pending.SweptChunks | engine/engine_core.go:238-283 | Row by row what a sweep does to chunks: those pending or in processing, and those made by splitting, are completed; all others stay. |
| Pending.SweptDocs | engine/engine_core.go:238-283 | And to documents: one that is taken up or has a chunk that is becomes completed exactly if it has chunks and all are completed afterwards, else processing; all others stay. |
| Lifecycle.StepKeeps | engine/task_cognify.go:137-323 | A step that touches one chunk row at most, and after which that row and the acting task are right, keeps every task, chunk and document right. |
| Lifecycle.NextInv | engine/task_cognify.go:31-323 | Every store access of every task, failing or not, keeps the lifecycle invariant, and chunk rows only go forward in it. |
| Lifecycle.RunKeeps | engine/task_cognify.go:31-323 | So does every run. |
| Lifecycle.LifecycleIsSafe | engine/task_cognify.go:90-133 | Over all interleavings and faults a chunk's status only moves along pending, processing, cognified, completed or failed, never to retrying, and a document marked completed has chunks, all completed. |
| Lifecycle.OnlyAStaleCountUndoesCompletion | engine/task_cognify.go:432-467 | A completed document loses its status in a step if and only if that step writes a synchronization that had counted before the last chunk was completed. |
| Lifecycle.LastSyncDecides | engine/task_cognify.go:432-467 | At every point of every run, faults or not, a document is marked completed if and only if the last synchronization written for it had counted all chunks as completed. |
| Lifecycle.LastWriteDecides | engine/task_cognify.go:48-135 | At every point of every run a document's status is that of its last successful write: a failure, the marking as split, or the count of a synchronization; pending before there is any. |
| Lifecycle.ChunkEndsAsItsWorkWent | engine/task_cognify.go:137-323 | Whatever accesses fail: once nobody works on a chunk and none will, its row is failed exactly if its stages or a write of one went wrong, and completed otherwise, unless the write of the failure itself fails. |
| Lifecycle.ChunksEnd | engine/task_cognify.go:371-376 | With a working store such a row is failed exactly if its chunking or memify stage went bad. |
| Lifecycle.DocumentsEnd | engine/task_cognify.go:48-135 | When a run with a working store has come to rest, a refused document is failed and has no chunks; any other is split, has exactly its chunks, and each is failed or completed as its work went, none pending, processing or cognified. |
| Lifecycle.OneStageAtATime | engine/task_cognify.go:137-323 | With a working store a step takes a chunk row from pending to processing, from there to cognified or failed, or from cognified to completed, and never otherwise. |
| Lifecycle.AtRestExactly | engine/worker_pool.go:47-69 | A run is at rest, with every task over and no chunk queued, if and only if no task has a step to take and none could take up a chunk. |
| Lifecycle.CleanRunsCompleteChunks | engine/task_cognify.go:48-323 | When a run has come to rest, every submitted document whose text yields a chunk and for which nothing failed has chunk rows, all of them completed, whatever failed for other documents. |
| Lifecycle.CleanRunsComplete | engine/task_cognify.go:432-467 | And the document itself is completed, unless a step has undone its completion; so it always is when each count for it is written by the very next step. |
| Lifecycle.AtomicSyncsUndoNothing | engine/task_cognify.go:432-467 | No step undoes a document's completion in a run in which each count for it is written by the very next step. |
| Lifecycle.DocumentStaysInProcessing | engine/task_memify.go:151-161 | Without that, a run without faults can end with every chunk completed and the document in processing. |
| Workers.StepSums | engine/worker_pool.go:55-74 | Outstanding tasks never grow and drop by one with each finished memify task; every step uses up exactly one unit of the measure. |
| Workers.NoSubmitBlocks | engine/worker_pool.go:71-74 | With no more outstanding tasks than the queue holds, every submission can go through at once. |
| Workers.SubmitsNeverBlock | engine/worker_pool.go:71-74 | That stays so throughout every run. |
| Workers.HoldsUpExactly | engine/worker_pool.go:71-74 | A submission to an idle pool can be held up if and only if more tasks come of what is submitted than the queue holds. |
| Workers.StuckExactly | engine/worker_pool.go:55-74 | No step is possible if and only if everything is done, or the queue is full and every worker waits to submit. |
| Workers.NoDeadlockBelow | engine/worker_pool.go:55-74 | From whatever state, no deadlock can be reached with fewer outstanding tasks, a document counting with its chunks, than the queue and the workers hold together, or with fewer submissions to be made by workers than there are workers. |
| Workers.DeadlocksExactly | engine/worker_pool.go:55-74 | An idle pool, to which any number of goroutines submit documents, chunk tasks and memify tasks, each in this order, can deadlock if and only if the tasks that come of them are at least as many as the queue and the workers hold together and those of chunks at least as many as the workers. |
| Workers.OrderMatters | engine/engine_core.go:309-311 | In another order the same tasks need not be enough: one worker, a memify task and then as many chunk tasks as the queue holds cannot deadlock. |
| Workers.SessionDeadlocksExactly | engine/engine_core.go:230-232 | A session of documents and then chunks submitted by one goroutine can deadlock if and only if there are as many chunks in all as queue and workers hold. |
| Workers.NextCares | engine/task_cognify.go:120-133 | No step leaves a chunk uncompleted or a document unsplit without a job for it. |
| Workers.EveryRunCompletes | engine/worker_pool.go:47-74 | From every state that cannot deadlock every maximal run has the same length, ends drained, and completes every chunk and, each task being one step, every document. |
| Workers.EveryChunkCompletes | engine/task_cognify.go:120-133 | And each document that was to be split has all its chunks at the end, completed. |
| Workers.NewDocumentsAreCared | engine/engine_core.go:230-232 | A session of new documents, all submitted, meets the premise of that theorem. |
| Embedder.LookupFindsLastSet | vector/embedder.go:250-314 | After any history of Set, Delete, Clear and past cleanups, which the cache carries as a ghost, a lookup finds the vector of the last Set of its key, up to and including the moment it expires, unless the key was deleted or the cache cleared since, and nothing otherwise: cleanups never show. |
| Embedder.InMemoryEmbeddingCache.Get | vector/embedder.go:250-265 | By the cache's own history: exactly that vector, or nothing. |
| Embedder.InMemoryEmbeddingCache.Cleanup | vector/embedder.go:299-314 | The loop that deletes while it walks over the map leaves exactly the unexpired entries, and no lookup changes, now or later. |
| Embedder.AnswerIsHonest | vector/embedder.go:75-101 | Whichever provider answers first, the answer is the vector of the text. |
| Embedder.AnswersAreTrue | vector/embedder.go:66-102 | An answer, cached or not, is the vector of the text, and the cache agrees again afterwards. |
| Embedder.TrueEntriesNeedKeysThatAgree | vector/embedder.go:220-224 | Right cache entries exist for all texts if and only if texts with one key have one vector. |
| Embedder.AutoEmbedder.GenerateEmbedding | vector/embedder.go:66-102 | The cached vector, or else the first answer of the primary provider and the fallbacks in order, which is then cached for 24 hours. |
| Embedder.SingleCalls | vector/embedder.go:66-102 | Law of a single call, without its functions: an unexpired entry is returned and nobody asked; otherwise primary and fallbacks are asked in turn up to the first that answers, and the answer is cached for 86400 seconds. |
| Embedder.RepeatedCallsAskNobody | vector/embedder.go:66-102 | After an answer, calls for that text up to and including 24 hours later give the same answer and ask nobody, as long as the entry stays. |
| Embedder.AutoEmbedder.FillIn | vector/embedder.go:138-150 | The vectors of the batch go to the positions they were asked for, and into the cache one after the other; nothing else changes. |
| Embedder.AutoEmbedder.OneByOne | vector/embedder.go:153-163 | After a failed batch call the texts are embedded one after the other; the call succeeds exactly when each is answered, and otherwise ends at the first that is not, with what was cached up to it left in the cache. |
| Embedder.AutoEmbedder.GenerateBatchEmbeddings | vector/embedder.go:105-164 | The result, the cache, and the numbers of clock readings and provider calls are determined for all hits, one batch call, a failed one and an unknown provider; a call with all hits asks no provider. |
| Embedder.BatchesAreTrue | vector/embedder.go:105-164 | With honest providers a successful call returns the vector of each text at its position, with duplicates, partial hits, expiries and a failed batch call; the cache stays right also when the call fails. |
| Embedder.BatchesAreCached | vector/embedder.go:105-164 | After a successful call with a cache every text asked for has an entry in it. |
| Embedder.BatchCalls | vector/embedder.go:105-164 | Law of a batch call: exactly the texts without an unexpired entry are sent, in order, in one call of the primary provider, and its vectors go to their positions; the others have what was cached; with no such text nobody is asked. |
| Chunks.EveryOrderFillsTheSlots | engine/task_cognify.go:160-238 | In whatever order the bounded group of goroutines ends, no more than the limit run at once, every maximal run has two steps per chunk, and then each slot holds its own chunk's outcome. |
| Chunks.Consolidate | engine/task_cognify.go:240-253 | Nodes, edges and embeddings of the non-empty slots, in chunk order. |
| Chunks.ConsolidationKeepsOrder | engine/task_cognify.go:240-253 | Nothing found is lost, doubled or moved: parts of the slots contribute their nodes, edges and embeddings one after the other. |
| Chunks.Average | engine/task_cognify.go:255-267 | The in-place sums divided by the number of chunks: each component times that number is the sum of the components. |
| Chunks.OneSlot | engine/task_cognify.go:240-253 | An empty slot contributes nothing, a filled one exactly its nodes, edges and embedding. |
| Scores.Absorb | engine/search_four_tier.go:188-214 | Absorbing a branch leaves for each source the maximum of score times tier multiplier over all hits so far. |
| Scores.Merge | engine/search_four_tier.go:216-219 | The same for all branches together. |
| Scores.HitsAreOffered | engine/search_four_tier.go:188-214 | Each hit of a branch that did not fail is offered at score times the multiplier of its tier, storage hits of the unsorted search only when asked for. |
| Scores.OffersAreHits | engine/search_four_tier.go:188-214 | And nothing else is offered. |
| Scores.MultipliersAre | engine/search_four_tier.go:334-347 | The multipliers 1.12, 1.0, 0.96 and 0.90 of the four tiers, and 1.0 of any other. |
| Scores.OrderOfBranchesIsIrrelevant | engine/search_four_tier.go:216-219 | Whatever order branches and hits are absorbed in, the scores are the same. |
| Scores.RelevanceBounds | engine/search_four_tier.go:349-372 | The relevance score lies in [0.5, 0.95], and is 0.95 exactly when the whole query is in the content. |
| Scores.RelevanceMeans | engine/search_four_tier.go:349-372 | 0.55 for a blank query, 0.95 if the content holds all of it, else 0.5 plus 0.4 of the share of its words, of two octets or more, that stand in the content. |
| Scores.AllWordsFound | engine/search_four_tier.go:349-372 | A content that holds every word of the query scores at least 0.9, one that holds none 0.5. |
| Scores.CoreTextRelevanceScore | engine/search_four_tier.go:349-372 | The counting loop computes the relevance of the content. |
| Scores.BoostCore | engine/search_four_tier.go:235-250 | Core rows enter with their relevance times 1.12, and again each source has its maximum. |
| Scores.MaxScore | engine/search_four_tier.go:252-257 | The largest score, or 0 if none is positive. |
| Scores.StoragePass | engine/search_four_tier.go:259-287 | The late pass gives each source with a storage hit the best of vector and storage offers alone, overwriting a core score. |
| Scores.CoreIsNotWeak | engine/search_four_tier.go:259-262 | With a threshold of at most 0.56 the late pass is reachable only when no core row was loaded. |
| Scores.LateSearchIsHarmlessExactly | engine/search_four_tier.go:259-287 | The overwrite leaves the best of all offers for every input if and only if the weak threshold is at most 0.56. |
| Scores.RetrieveScores | engine/search_four_tier.go:182-287 | The late pass runs exactly when asked for and all else is weak, and with the default threshold the scores are the best of everything found. |
| Ranking.TrackVectorScores | engine/search_four_tier.go:384-422 | Sources with a score are tracked if their row exists and is visible to the session. |
| Ranking.TrackNeighbours | engine/search_four_tier.go:429-442 | Each neighbour adds half a point to its source, tracking it if need be. |
| Ranking.SortDescending | engine/search_four_tier.go:458-460 | The result is a permutation in descending order. |
| Ranking.Rank | engine/search_four_tier.go:444-475 | Results are descending, duplicate-free, visible and carry 0.40/0.30/0.20 of vector, graph and recency; exactly the limit is kept and everything cut scores no higher than everything kept. |
| Ranking.VisibleMeans | engine/search_session_filter.go:9-27 | A row without a session is visible to all, any other only to the session of its name, which is trimmed and default when blank. |
| Ranking.SessionsAreSeparate | engine/search_session_filter.go:9-27 | No row of one named session is visible to another. |
| Ranking.FinalScoreMeans | engine/search_four_tier.go:444-456 | 0.40 of the vector score, 0.30 of half a point per neighbour, 0.20 if younger than seven days. |
| Ranking.OrderOfNeighboursIsIrrelevant | engine/search_four_tier.go:429-442 | Candidates and final scores do not depend on the order in which the graph is walked. |
| Labels.NormalizeLabels | schema/memory_labels.go:41-56 | The seen-map loop keeps the first occurrence of each normal form. |
| Labels.NormalizedMeans | schema/memory_labels.go:41-56 | The normalized list is duplicate-free and holds exactly the non-empty normal forms. |
| Labels.FirstOccurrencesStay | schema/memory_labels.go:44-54 | The order is that of first occurrence: normalizing a prefix gives a prefix. |
| Lists.SortedIsUnique | schema/memory_labels.go:298-299 | There is one sorted arrangement, so comparing sorted lists compares multisets. |
| Labels.LabelSetsEqual | schema/memory_labels.go:290-306 | True exactly when the normalized label sets are equal. |
| Labels.SplitOfJoin | schema/memory_labels.go:109-116 | Splitting the joined string gives what the bars in the labels separate; for labels without a bar it is a round trip. |
| Labels.JoinsEqualExactly | schema/memory_labels.go:109-116 | For labels without a bar, two joined strings are equal exactly when the normalized sets are. |
| Labels.JoinForgetsBars | schema/memory_labels.go:109-116 | With bars they are not: the label x|y is joined like x and y. |
| Labels.JoinLabelsForVector | schema/memory_labels.go:109-116 | The joined string is empty exactly when there is no label; otherwise its pieces are those of the normal forms, which without bars are the normal forms themselves in ascending order, each once. |
| Labels.EmbeddingMetadataHasAnyLabel | schema/memory_labels.go:186-227 | True exactly when nothing is wanted or a wanted normal form is among the primary, joined or listed labels. |
| Labels.MetadataMatchesVectorSearchFilters | schema/memory_labels.go:231-255 | The early-exit loop, in whatever order of keys, decides whether all filters are met. |
| Labels.FilterSplits | schema/memory_labels.go:155-255 | A full filter match equals a match on the engine filter together with the any-label test when there is a label filter. |
| Labels.StoredLabelsAreFound | engine/task_cognify.go:279-288 | Labels stored with an embedding are found by exactly the label filters that share with them, up to case and surrounding space, the primary label or what the bars in the labels separate; without bars these are the labels. |
| Labels.LabelFindsItsOwn | engine/task_cognify.go:279-288 | A stored label is found by its own filter if and only if it has no bar or is the primary label. |
| Labels.CarriedMeans | schema/memory_labels.go:186-227 | The labels an embedding carries are the non-empty normal forms of the primary label, of the pieces of the joined string and of the listed labels, and no others. |
| Labels.MeetsMeans | schema/memory_labels.go:231-255 | A filter on a key is met exactly by an equal value there, so never when the key is absent; the label filter by any shared label, or when it names none. |
| Labels.FieldsMean | schema/memory_labels.go:97-105 | Text that holds labels is cut at commas, bars and semicolons; empty parts do not count. |

## Left out

- JSON parsing of the tokenizer file, its error returns and the override of special ids by added tokens: the model starts from decoded vocabulary pairs and the ids in force.
- The ONNX session and tensors: the logits are an input of `RunNer`; conversion of spans to graph nodes and batching of sentences are not modelled.
- Rounding, infinities and NaN of floating-point scores, logits, similarities and vectors.
- Invalid UTF-8; the regular expression engine (the pattern of the sentence splitter is a greedy scanner).
- Case folding and lower case: arbitrary functions on characters, or on printed values, with the properties a lemma names.
- The pool's 32- and 64-bit counter widths, `Stats`, `Health`, `SetLastUsed`, and the average lifetime.
- PoolSteps.NextInv: starts from a constructed pool and ends before `Close`; the statistics for idle, created, closed and failed connections, which only `ensureMinimumIdleConnections` reads, are not in the interleaved state, so the number of connections it finds missing is arbitrary.
- Pool.GenericConnectionPool.Get: one goroutine at a time, so a wait at the bound ends only with a connection that is idle already or with the context.
- Puts and Gets during or after `Close` beyond their error returns, for which the source promises nothing.
- Lifecycle.LifecycleIsSafe: each document is submitted once and its chunks once, by whichever task split it; content, metadata, graph, vector and LLM effects of the tasks are not in the rows, and a failing LLM call is a failing step.
- Workers.EveryRunCompletes: no faults, no `Stop`, every text yields at least one chunk, and a task finishes in one step, its last one; so no count can be stale here, and what the store accesses one by one can do is in `Lifecycle`.
- Workers.DeadlocksExactly: goroutines that submit a document behind a chunk or memify task, or a chunk task behind a memify task, are not covered by the condition, which is then only necessary (`NoDeadlockBelow`): the task in front may have to be done first (`OrderMatters`).
- Workers.HoldsUpExactly: the same goroutines are not covered; for them the condition is necessary (`SubmitsNeverBlock`).
- PoolSteps.OneOverIsReached: the idle connections that maintenance counts are those in the channel; the statistic it reads agrees with that here, as nobody else has acted yet.
- Pending.CognifyPending: the store does not fail and the limit on rows does not bind; the loop is cut off after a given number of sweeps so that a method can state when it would not end.
- Unscoped sessions, deduplication of inputs, tiers and the history buffer of the engine.
- Text chunking (`formats.TextParser`): an arbitrary total function with at least one chunk.
- SHA-256 of the cache key: an arbitrary key function, and what is needed of it is stated; UUIDs.
- Concurrent calls of the embedder, and callers that write into a vector the cache shares with them.
- Embedder.AutoEmbedder.GenerateBatchEmbeddings: providers give at most one vector per text, as more would end the source with an index out of range.
- The vector and graph stores: hits, neighbours and errors are inputs of `RetrieveScores` and `Rank`; which tier or hit a merged score came from depends on the order and is not claimed.
- The order of results with equal scores, which `sort.Slice` leaves open.
- Deletion, analytics, the provider registry, health monitor and quality scorer: their counters, averages and thresholds are not modelled; nor are prompts, HTTP clients, factories, configuration and command line.
