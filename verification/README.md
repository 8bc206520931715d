# Verification of the tick journal and its watchdogs

A Dafny model of the durable tick journal under `core/journal` (writer, sparse index, compactor,
incremental reader, shared meta file, tick stream), of the generation-guarded watchdogs around the exchange
connection (`core/state`, `core/network`, `exchanges/base_stream.py`) and of the bounded dispatch queue
(`core/routing`), with proofs of what they promise. `dafny verify dfyconfig.toml` checks everything.

## How the model is laid out

Every class of the program that updates its fields is a class here, with loops where the program loops.
Each method is proved equal to a specification function of the old state (`Polled`, `Appended`, `Persisted`,
`Rewound`, ...), and the laws are lemmas about those functions, most of them over whole runs.

- **Files.** A journal is a sequence of bytes. `Kinds(f)` classifies its complete lines as blank, rejected or
  loaded; `Deliver(ks, n)` is what a consumer whose next seq is `n` takes from such lines. Offsets are byte
  positions; a torn tip is whatever follows the last newline.
- **Codec** (`Bytes`, `TickCodec`, `JournalLines`). A small concrete line codec, so that round trips, the torn
  prefix of a record and the merge of a torn tip with the next record are facts about bytes, not assumptions.
- **Writer** (`SymbolDedupBucket`, `TickJournalMeta`, `TickJournalMetaDurability`, `TickJournal`). Main results:
  what a run of appends leaves in the file and in the index (`AppendRuns`), that a clean restart is unobservable,
  that among any number of stores the shared tip never rewinds and no store clobbers a newer file, and how far the
  tip a reader reports may lag (`TipLag`, with the arithmetic in `Multiples`).
- **Index** (`TickJournalSeqIndex`, `IndexRuns`). An entry is sound when the walk from it skips only complete
  lines below its seq. Soundness survives appends, torn writes, compaction, trimming and reloads, and with
  sound entries the index answers exactly what a scan of the whole file answers.
- **Compactor** (`TickJournalCompactor`). Accounting, order, algebra, and soundness of the rebuilt index.
- **Reader** (`JournalIncompleteFragment`, `JournalIncrementalReader`, `LineAccounting`, `ReaderLaws`, `TornTips`,
  `RewriteUnderCursor`, `JournalTail`). Incremental reading equals batch reading; what becomes of each line a poll
  reads; torn tips over whole runs of polls; compaction is invisible to a replay and to a reader left past the end
  of the file; and the exact condition under which a rewrite that leaves the old offset inside the file loses
  nothing.
- **Stream** (`JournalTickStream`, `StreamLaws`, `CursorSafety`, `StreamWitnesses`). Order of delivery, the join
  counter, rewinds in the middle of a consume, restart from the saved cursor, and when that cursor is safe under
  symbol filtering.
- **Watchdogs** (`SubscriptionConfirmationTracker`, `PostReconnectWriteLiveness`, `PostFlapTipCorrelation`,
  `HealCooldown`, `BaseStream`). State machines in which a cancelled timer may still wake. Each law describes
  what happened by the events alone and says exactly when an outcome or a heal is signalled.
- **Queue** (`AsyncQueueDispatcher`). Conservation, order and drop reports over whole runs, kept in a ledger.

## Where the code and its description differ

- A journal rewrite that leaves a reader's offset inside the new file can lose records, because an offset the
  reader trusts is not aligned again. `RewriteInsideCanLose` is a run in which this happens,
  `RewriteInsideLosesNothingIff` the exact condition. The same holds of a reader reset while the journal is missing,
  whose cursor goes where the index points (`ResetBeforeFileLosesNothingIff`).
- With symbol filtering the saved cursor can pass queued ticks, since a filtered tick moves it at once.
  `FilteredTickPassesQueuedTick` is a run in which a tick is lost that way, `CursorStaysSafeIff` the exact condition
  over whole runs.
- The unfinished counter of the stream is queue length plus pending tick only for a consumer that marks before it
  takes again; `CounterExceedsQueueAndPending` is a run of one that does not, `JoinCounter` and `OverwrittenCounts`
  say what the counter is in general.
- The write-liveness guard is told about every dispatched tick, duplicates that leave the file unchanged included,
  so "no journal write" means "no dispatch" in `HealMeansMuteSubscription`.
- The completion branch of the tracker's timeout can never be taken (`WindowEndsAsFated`).

A connect does not cancel the expectation window of the connection before it, so an acknowledgement read before
the resubscription would confirm the old one (`ConfirmationReadTooEarly`). `ConfirmationBelongsIffAnswered` gives the
exact condition, and the program meets it: the connect callback, which resubscribes, is awaited before the new
connection's first message is read (core/network/reconnecting_ws_manager.py:465-469).

## Model

| member | source | states |
|---|---|---|
| TickCodec.TickRoundTrip | core/journal/tick_journal_codec.py:14-38 | decoding an encoded tick gives every field back, for every tick |
| JournalLines.RecordLineRoundTrip | core/journal/journal_record_line_parser.py:26-52 | the line written for a record is one newline-terminated line that parses back to that record |
| JournalLines.MergedLineIsGarbage | core/journal/journal_record_line_parser.py:26-52 | a record appended after a torn, non-blank tip merges with it into a line that carries no seq |
| JournalLines.RemnantDoesNotLoad | core/journal/journal_record_line_parser.py:26-52 | what is left of a record line when reading starts inside it never decodes |
| JournalLines.LineCarriesItsText | core/journal/journal_record_line_parser.py:35-51 | any line is blank exactly when all its bytes are, and otherwise carries its text without the blank bytes at both ends |
| JournalLines.LinesPartition | core/journal/journal_incremental_reader.py:403-432 | the lines of a file are its bytes up to the last newline, cut behind each newline |
| JournalLines.DeliverIsFilter | core/journal/journal_incremental_reader.py:424-432 | on seqs that increase, the running-seq filter of the read loop hands over exactly the records with seq >= the start, once each |
| LineAccounting.DeliveredAreTheDue | core/journal/journal_incremental_reader.py:424-432 | on any lines, the running-seq filter hands over exactly the records at or above the start and above every record before them, in order |
| LineAccounting.DeliveredOrStale | core/journal/journal_incremental_reader.py:424-432 | records = delivered + stale, staleness judged against the running seq when the line is reached |
| SymbolDedup.SymbolDedupBucket.Add | core/journal/symbol_dedup_bucket.py:23-30 | a known id changes nothing; a new one is appended and a full window loses its oldest |
| SymbolDedup.PushedStaysAWindow | core/journal/symbol_dedup_bucket.py:12-30 | the window never exceeds its bound, holds no id twice and always holds the id just added |
| SymbolDedup.WindowRoundTrip | core/journal/symbol_dedup_bucket.py:32-40 | to_list followed by from_list restores the window, order included; into a smaller window, its newest ids |
| SymbolDedup.HydratedIsAWindow | core/journal/symbol_dedup_bucket.py:35-40 | whatever list was stored, what is read back holds no id twice, no more than fit, and only ids of the list |
| JournalMeta.MaxSeqIsTheMaximum | core/journal/tick_journal_meta.py:16-30 | the seq read off an index is its maximum, or 0 when no entry is positive |
| JournalMeta.SymbolKeyIgnoresCase | core/journal/tick_journal_meta.py:154-161 | two symbols share a dedup bucket if and only if they differ at most in case and in blank bytes around them |
| JournalMeta.HydratedByUpperCase | core/journal/tick_journal_meta.py:90-101 | every stored symbol has its newest ids under its upper-case form, and there are no other windows |
| JournalMeta.TickJournalMetaStore.SetLatestSeq | core/journal/tick_journal_meta.py:112-123 | the in-memory tip and the high-water rise to the given seq and never fall |
| JournalMeta.TickJournalMetaStore.EnsureLatestSeqAtLeast | core/journal/tick_journal_meta.py:125-140 | as SetLatestSeq; true exactly when the tip advanced |
| JournalMeta.TickJournalMetaStore.Persist | core/journal/tick_journal_meta.py:163-195 | publishes tip, windows and index, or adopts a newer tip found on disk and leaves the file alone; an unreadable file counts as tip 0 |
| JournalMeta.TickJournalMetaStore.ReadLatestSeqFromDisk | core/journal/tick_journal_meta.py:197-230 | the larger of the disk tip and the high-water, falling back to memory when the file is unreadable; only the high-water may change |
| JournalMeta.TickJournalMetaStore.ReloadFromDisk | core/journal/tick_journal_meta.py:232-256 | index and windows as on disk, every tip clamped up to the high-water |
| JournalMeta.TickJournalMetaStore.HydrateDedupBuckets | core/journal/tick_journal_meta.py:90-101 | one fresh bucket per stored symbol under its upper-case form, holding the last ids that fit |
| JournalMeta.TickJournalMetaStore.GetOrCreateBucket | core/journal/tick_journal_meta.py:154-161 | one bucket per stripped, upper-cased symbol; other buckets are untouched |
| JournalMeta.EventKeepsTips | core/journal/tick_journal_meta.py:112-256 | any operation of any store keeps every store coherent and rewinds no tip; only an outside overwrite can lower the tip on disk |
| JournalMeta.SharedTipNeverRewinds | core/journal/tick_journal_meta.py:163-195 | under any interleaving of set, ensure, persist, read and reload by any number of stores the tip on disk never decreases |
| JournalMeta.FileIsLastPublished | core/journal/tick_journal_meta.py:163-195 | no store clobbers a newer file: after any interleaving without outside overwrites the file is unchanged, or is tip, windows and index of one store as it published them, knowing of a tip at least as high as any the file had shown until then |
| JournalMeta.PublicationAgrees | core/journal/tick_journal_meta.py:170-195 | publishing leaves memory with the larger of its tip and the tip on disk, and the file with the same unless the index runs ahead; an unreadable file is replaced |
| JournalMeta.ToldTipIsDurable | core/journal/tick_journal.py:181-193 | a tip that a store is told and that is news to it is on disk at once, whatever the file held |
| JournalMeta.ReportedTipNeverRewinds | core/journal/tick_journal_meta.py:197-256 | what a store reports never decreases, even when the file is overwritten or corrupted in between |
| JournalMeta.ReportedTipIsTheDisks | core/journal/tick_journal_meta.py:219-230 | on a readable file the tip reported is at least its tip and every seq of its index, and exactly the tip of the file when the store has seen no higher one |
| MetaDurability.TickJournalMetaDurability.NoteAppendLocked | core/journal/tick_journal_meta_durability.py:77-93 | every interval-th append publishes the meta, the others mark it dirty and arm the idle flush |
| MetaDurability.TickJournalMetaDurability.Flush | core/journal/tick_journal_meta_durability.py:95-116 | publishes exactly when dirty, so a stale flush timer is harmless |
| MetaDurability.PublishesWhatIsUnpublished | core/journal/tick_journal_meta_durability.py:77-132 | over any run, an append publishes if and only if it completes an interval; a flush, called or fired, publishes if and only if some append since the last publication has not been, and otherwise touches nothing; while there is such an append an idle flush is armed if the writer uses them |
| TipLag.RunKeepsInv | core/journal/tick_journal_meta_durability.py:77-132 | with an append as two steps and a reader process beside the writer, in every state reachable by appends, flushes, compactions, raised tips and reads the tip on disk trails memory by at most the appends counted since the last publication, and while it trails an idle flush is armed; the reader has never seen a higher tip |
| TipLag.TipLagBound | core/journal/journal_read_progress.py:42-60 | against the tip the reader's own store reports, no reader stands more than one interval past it, so with a tolerance that large the cursor-ahead flag stays off; reported lag is at least the true lag minus the interval, and at most the true lag unless the tip was raised from outside |
| TipLag.ProgramConstantsFit | core/journal/tick_journal_meta_durability.py:18-93 | the same with the interval and the tolerance the program uses, both 50 |
| TipLag.TipLagBoundIsTight | core/journal/tick_journal_meta_durability.py:77-93 | every clean start can reach an overhang of exactly one interval |
| ReadProgress.ResyncIffLag | core/journal/journal_read_progress.py:72-120 | the two caught-up classifiers together let a resync through exactly when the snapshot reports lag_seq >= 1 |
| ReadProgress.ClassifiersTell | core/journal/journal_read_progress.py:72-120 | in terms of offset, size, next seq, tip and stuck tip: idle at EOF, trailing bytes only, or neither |
| ReadProgress.LagTells | core/journal/journal_read_progress.py:42-60 | lag and cursor-ahead flag of a reader at any seq from 1 on |
| SeqIndex.TickJournalSeqIndex.Record | core/journal/tick_journal_seq_index.py:50-62 | adds a checkpoint on interval seqs above the last one and keeps the last 256 |
| SeqIndex.RecordedTells | core/journal/tick_journal_seq_index.py:50-62 | on a table of any shape: when an entry is added, what an empty table counts as, and which entry a full one loses |
| SeqIndex.TickJournalSeqIndex.IndexedHint | core/journal/tick_journal_seq_index.py:64-75 | the offset of the best entry at or below the target |
| SeqIndex.HintIsClosest | core/journal/tick_journal_seq_index.py:64-75 | the lookup finds the last entry before the first one above the target, and the start of the file without one |
| SeqIndex.TickJournalSeqIndex.Resolve | core/journal/tick_journal_seq_index.py:93-138 | clamps and aligns the hint, then walks lines to the target or to where no line is left |
| SeqIndex.ScanFindsTarget | core/journal/tick_journal_seq_index.py:107-138 | the walk passes complete lines below its target only, and stops at the target or where no complete line is left |
| SeqIndex.IndexRefinesScan | core/journal/tick_journal_seq_index.py:77-138 | with a sound index the byte offset of any seq is what a scan from byte 0 finds |
| SeqIndex.PastEofHintRefinesScan | core/journal/tick_journal_seq_index.py:93-106 | a hint past the end of the file leads to the same answer as the full scan |
| SeqIndex.NewEntrySound | core/journal/tick_journal_seq_index.py:50-62 | the checkpoint of a record about to be appended is sound, also when a torn fragment precedes the record |
| SeqIndex.SoundnessSurvivesGrowth | core/journal/tick_journal_seq_index.py:50-62 | a sound entry stays sound whatever is appended to the file |
| IndexRuns.LifeKeepsInv | core/journal/tick_journal_seq_index.py:50-151 | in every state reachable by appends, torn writes, compactions, trims, persists and reloads the journal is well-formed and both copies of the index are sound |
| IndexRuns.IndexAlwaysRefinesScan | core/journal/tick_journal_seq_index.py:77-138 | in every such state, for every seq, memory index and disk index both answer what the scan from byte 0 answers |
| Compactor.TickJournalCompactor.CompactBeforeSeq | core/journal/tick_journal_compactor.py:64-121 | new file, removed count, quarantined lines, index and published meta of a compaction, as one step |
| Compactor.TickJournalCompactor.SelectRetained | core/journal/tick_journal_compactor.py:72-101 | the single pass sorts every line into removed, retained, quarantined or blank |
| Compactor.TickJournalCompactor.Rewrite | core/journal/tick_journal_compactor.py:104-115 | the rewritten body and the checkpoints, with the byte offset carried along |
| Compactor.TickJournalCompactor.MaybeCompact | core/journal/tick_journal_compactor.py:123-143 | nothing unless the processed seq exceeds the lag, else exactly a compaction at the difference: file, count, quarantine, index and meta |
| Compactor.CompactionConserves | core/journal/tick_journal_compactor.py:64-121 | for every file and watermark, nonblank lines before = removed count + quarantined + nonblank lines of the file after; at a watermark up to 1 nothing changes |
| Compactor.RetainedAreTheLines | core/journal/tick_journal_compactor.py:76-101 | kept are exactly the lines with a seq at or above the watermark, once each and in order, whether or not their tick decodes |
| Compactor.SkippedAreTheLines | core/journal/tick_journal_compactor.py:76-98 | quarantined are the texts of exactly the nonblank lines without a seq, once each and in order |
| Compactor.CompactedIsClean | core/journal/tick_journal_compactor.py:64-121 | after a compaction nothing is left to remove at its watermark, nor to quarantine at any |
| Compactor.CleanIsUntouched | core/journal/tick_journal_compactor.py:102-103 | with nothing to remove or quarantine, file, index and meta stay as they are |
| Compactor.CompactionAccounting | core/journal/tick_journal_compactor.py:72-101 | nonblank lines = removed + retained + quarantined |
| Compactor.CompactionKeepsRecords | core/journal/tick_journal_compactor.py:64-121 | on a newline-terminated file the records after compaction are exactly those at or above the watermark, in order |
| Compactor.RebuiltIndexSound | core/journal/tick_journal_compactor.py:104-119 | every rebuilt entry is sound and points at the start of the line that carries its seq |
| Compactor.RebuiltIndexComplete | core/journal/tick_journal_compactor.py:107-118 | besides the leading zero the rebuilt index holds exactly the first record and the interval seqs, each at the start of its line, up to the newest 256 |
| Compactor.RebuiltIndexSorted | core/journal/tick_journal_compactor.py:104-119 | the rebuilt index is strictly sorted by seq |
| Compactor.CompactionKeepsIndexSound | core/journal/tick_journal_compactor.py:64-121 | compaction takes a sound index to an index sound for the new file |
| Compactor.CompactionComposes | core/journal/tick_journal_compactor.py:64-121 | compacting at k1 then k2 leaves the file that compacting at max(k1, k2) leaves, for every file |
| Compactor.CompactionIdempotent | core/journal/tick_journal_compactor.py:64-121 | compacting twice at the same watermark changes nothing more |
| Journal.TickJournal.Append | core/journal/tick_journal.py:214-242 | a blank symbol raises and changes nothing; a trade id in the window changes nothing and returns the current tip; any other appends one line with the next seq, records it in window, tip and index, and publishes on schedule; a tip below -1 raises once line and window are written |
| Journal.TickJournal.EnsureLatestSeqAtLeast | core/journal/tick_journal.py:181-193 | raises the tip and publishes exactly when it advanced |
| Journal.TickJournal.FlushMeta | core/journal/tick_journal.py:244-256 | publishes dirty meta and reports whether it did |
| AppendRuns.AppendRun | core/journal/tick_journal.py:214-242 | from an empty directory the file decodes to the accepted ticks, numbered 1..n in order; a tick is accepted unless its symbol is blank or its id is among the last window ids accepted for its symbol; the index holds exactly the newest 256 interval seqs of the run, each with the place of its line |
| AppendRuns.DuplicatesAreFarApart | core/journal/symbol_dedup_bucket.py:20-30 | two accepted ticks with the same symbol and id have at least dedup_window accepted ticks of that symbol strictly between them |
| AppendRuns.CleanRestartUnobservable | core/journal/tick_journal.py:75-131 | append xs, flush, reopen, append ys: same bytes, same returned seqs and dedup decisions, same tip, windows and index as one run over xs + ys |
| AppendRuns.ReloadFollowsWriter | core/journal/tick_journal_meta.py:232-256 | once the writer has flushed, another process that reloads holds the writer's tip, windows and index, whatever it held before |
| AppendRuns.AppendIsIdempotent | core/journal/tick_journal.py:214-242 | for every writer, offering a tick again right away changes nothing; a tick with a symbol is known even where the first offer raises |
| AppendRuns.StoredIdsAreKnown | core/journal/tick_journal_meta.py:90-101 | a trade id among the newest stored for a symbol, in whatever case, is refused after opening the file |
| AppendRuns.LookupIsShort | core/journal/tick_journal_seq_index.py:50-75 | after a run, the walk to a seq the index reaches back to starts at the last interval seq at or below it |
| FragmentPolicy.IncompleteTrailingFragmentPolicy.ShouldSkipNow | core/journal/journal_incomplete_fragment.py:68-92 | wait or skip, and the pending tip afterwards |
| FragmentPolicy.SkipOnlyAfterWait | core/journal/journal_incomplete_fragment.py:68-92 | an in-progress tip is skipped only when the same offset and length stood for at least the wait, with no clear and no other tip in between |
| FragmentPolicy.UnchangedTipIsSkipped | core/journal/journal_incomplete_fragment.py:68-92 | a tip that stood undisturbed for the wait is always skipped when asked about again |
| FragmentPolicy.PoisonIsSkippedAtOnce | core/journal/journal_incomplete_fragment.py:13-26 | a tip is worth waiting for exactly if a brace comes first, blank bytes aside; any other is skipped at once, and the reason given tells the two apart |
| IncrementalReader.JournalIncrementalReader.Poll | core/journal/journal_incremental_reader.py:164-167 | state, records, quarantine and index after a poll equal a specification stated over the classified lines of the unread bytes |
| IncrementalReader.JournalIncrementalReader.ReadLoop | core/journal/journal_incremental_reader.py:403-432 | reading one line at a time equals reading all complete lines at once, then dealing with the tip |
| IncrementalReader.JournalIncrementalReader.AlignReadOffsetToLineBoundary | core/journal/journal_incremental_reader.py:198-237 | the cursor moves to the next line start or the end of the file, unless it is trusted |
| IncrementalReader.JournalIncrementalReader.AbandonIncompleteTipAtCursor | core/journal/journal_incremental_reader.py:245-273 | an unterminated tip under the cursor is quarantined and passed at once |
| IncrementalReader.JournalIncrementalReader.ResyncIfJournalRewritten | core/journal/journal_incremental_reader.py:345-393 | a cursor past the end reloads the index and resets; a shrunk file re-aligns; otherwise only the size is noted |
| IncrementalReader.JournalIncrementalReader.ResetFromSeq | core/journal/journal_incremental_reader.py:90-107 | cursor, marks and counters after a reset |
| IncrementalReader.JournalIncrementalReader.ForceRebindFromSeq | core/journal/journal_incremental_reader.py:109-135 | cursor, marks and counters after a rebind, which ignores the sticky mark |
| IncrementalReader.JournalIncrementalReader.GetReadProgressSnapshot | core/journal/journal_incremental_reader.py:149-162 | the lag snapshot of the current cursor against the reported tip |
| ReaderLaws.StickyReset | core/journal/journal_incremental_reader.py:169-196 | resetting to the seq the reader stands at moves the cursor to the later of where it is and where the index points, never back inside the file |
| ReaderLaws.AlignmentFindsALineStart | core/journal/journal_incremental_reader.py:198-237 | an untrusted offset moves on to the next line start or the end of the file, passing the rest of one line at most; a trusted one stays |
| ReaderLaws.ResetPassesTip | core/journal/journal_incremental_reader.py:90-107 | for every state, file, index and seq, what a reset leaves to read is nothing or holds a complete line; a torn tip the cursor was placed in front of is quarantined, once and whole |
| ReaderLaws.RebindPassesTip | core/journal/journal_incremental_reader.py:109-135 | the same for a rebind |
| ReaderLaws.ColdAttachPassesTip | core/journal/journal_incremental_reader.py:245-273 | a poll from a seq above everything complete, on a journal with a torn tip, delivers nothing, waits for nothing, quarantines the tip and ends at the end of the file |
| ReaderLaws.FailuresSinceLastRecord | core/journal/journal_incremental_reader.py:282-296 | the failure count is the number of lines rejected since the last record |
| ReaderLaws.PollAccounting | core/journal/journal_incremental_reader.py:395-432 | without a reset the bytes consumed are complete lines plus at most one skipped tip; the lines handed over are exactly the records at or above the start and above every record before them; lines = blank + quarantined + delivered + stale; the quarantine gets the texts of exactly the rejected lines in order, then the skipped tip; the cursor stays inside the file |
| ReaderLaws.RejectedAreQuarantined | core/journal/journal_incremental_reader.py:335-341 | the quarantined texts are those of the rejected lines, all of them, once each and in order |
| ReaderLaws.SkipCounterMatchesQuarantine | core/journal/journal_incremental_reader.py:294-343 | the skip counter grows by exactly the number of quarantined texts, resets included |
| ReaderLaws.EmittedIncreasing | core/journal/journal_incremental_reader.py:395-432 | the seqs emitted over any polls and rebinds strictly increase, whatever happens to file, index and meta between them |
| ReaderLaws.IncrementalEqualsBatch | core/journal/journal_incremental_reader.py:395-432 | however the bytes arrive and whenever a fresh reader polls, as long as no tip is given up, the polls together deliver what one pass over the final file delivers |
| ReaderLaws.TornWriteIsWaitedFor | core/journal/journal_incomplete_fragment.py:13-92 | every proper prefix of a record line is seen as in progress, so only the wait limit can skip it |
| TornTips.ReaderNeverParks | core/journal/journal_incremental_reader.py:413-420 | in any run, however often a file is polled without changing, once the wait has passed since the first of these polls the cursor is at its end |
| TornTips.StaleTipWasWaitedFor | core/journal/journal_incremental_reader.py:413-420 | in any run, a tip that a poll gives up as stale was seen by an earlier poll, at least the wait before, at the same offset and length, and every step between was a poll that saw it so or found no file |
| ReaderLaws.ResetDelivers | core/journal/journal_incremental_reader.py:90-107 | after a reset with a sound index everything due from the start seq is still ahead of the cursor |
| ReaderLaws.CompactionInvisible | core/journal/tick_journal_compactor.py:64-121 | a consumer at or above the watermark is due the same records before and after, on any newline-terminated file |
| ReaderLaws.ResyncAfterCompaction | core/journal/journal_incremental_reader.py:345-393 | a reader left past the end by a compaction at or below its next seq, whatever index it held, reloads the index from the meta file and delivers exactly the records it was due, none lost, none repeated |
| ReaderLaws.ResyncAfterCompactor | core/journal/tick_journal_compactor.py:104-121 | the same with nothing assumed about the index on disk: what the compacting process publishes, if it knew the tip on disk, is what the reader needs |
| ReaderLaws.RebindAfterCompaction | core/journal/journal_tick_stream.py:175-176 | a reader rebound after its process reloaded the index, wherever its cursor and whatever index it held, next delivers exactly the records due from the given seq |
| RewriteUnderCursor.RewriteInsideLosesNothingIff | core/journal/journal_incremental_reader.py:211-215 | a reader whose old offset is still inside a rewritten file, grown since or not, loses nothing if and only if no record it is due starts before that offset |
| RewriteUnderCursor.CompactionInsideLosesNothingIff | core/journal/tick_journal_compactor.py:64-121 | the same condition for any compaction that rewrites, followed by appended records and a torn tip |
| RewriteUnderCursor.RewriteInsideCanLose | core/journal/journal_incremental_reader.py:211-215 | a concrete journal, poll and compaction after which the next poll delivers record 3 without record 2, and no later poll or rebind at the running seq ever delivers record 2 |
| RewriteUnderCursor.ResetBeforeFileLosesNothingIff | core/journal/journal_incremental_reader.py:182-196 | a reset while the journal is missing puts the cursor where the index points; once a journal is there, nothing is lost if and only if no record due starts before that place |
| JournalTail.TailFrom | core/journal/tick_journal.py:258-269 | with a sound index the tail is exactly the records due from the start seq in the whole file |
| JournalTail.TailAcrossCompaction | core/journal/tick_journal.py:258-273 | the tail from any s >= k is the same before and after compact_before_seq(k), and is the records with seq >= s |
| TickStream.JournalTickStream.FollowOnce | core/journal/journal_tick_stream.py:269-290 | one turn of the tail-follow loop: poll, then queue or filter the batch, moving the cursor over filtered ticks |
| StreamLaws.TurnQueuesSubscribed | core/journal/journal_tick_stream.py:238-284 | one turn queues exactly the polled records whose symbol is one of the subscribed ones, all if none are given, in order; the cursor moves to the highest of the others and is saved there |
| TickStream.JournalTickStream.SetCursor | core/journal/journal_tick_stream.py:416-453 | queue drained, pending tick invalidated, counters released, reader reset, cursor saved |
| TickStream.JournalTickStream.WaitForNextTick | core/journal/journal_tick_stream.py:459-463 | hands out the head of the queue and makes it pending |
| TickStream.JournalTickStream.MarkTickAsProcessed | core/journal/journal_tick_stream.py:465-481 | persists the pending seq, forgives one mark after a rewind, fails otherwise |
| TickStream.JournalTickStream.ForceTailResyncIfUnread | core/journal/journal_tick_stream.py:156-190 | if and only if the snapshot reports lag_seq >= 1, the index is reloaded from disk and the reader rebound with it |
| StreamLaws.DeliveryBetweenRewinds | core/journal/journal_tick_stream.py:269-284 | between two set_cursor calls the delivered seqs strictly increase and lie above the cursor that was set |
| StreamLaws.JoinCounter | core/journal/journal_tick_stream.py:442-481 | the unfinished counter is queue length plus the pending tick plus the takes that overwrote a pending tick |
| StreamLaws.OverwrittenCounts | core/journal/journal_tick_stream.py:459-463 | there are no such takes exactly when the consumer always marks before it takes again |
| StreamWitnesses.CounterExceedsQueueAndPending | core/journal/journal_tick_stream.py:459-463 | a run of one poll and two takes after which the unfinished counter is 2 with an empty queue and one pending tick |
| StreamLaws.OneMarkIsForgiven | core/journal/journal_tick_stream.py:416-481 | over any run, after a rewind in the middle of a consume the first mark changes only the flag, and every later mark raises until something is taken |
| StreamLaws.MarkWithoutPendingIff | core/journal/journal_tick_stream.py:465-481 | with no pending tick a mark is accepted if and only if a rewind hit a pending tick and nothing was taken or marked since; it then changes only the flag |
| CursorSafety.BatchKeepsCursorSafeIff | core/journal/journal_tick_stream.py:278-284 | one batch keeps the saved cursor below every queued and pending seq if and only if nothing is filtered behind an unprocessed tick |
| CursorSafety.CursorStaysSafeIff | core/journal/journal_tick_stream.py:243-284 | over any run the saved cursor stays below every queued and pending seq if and only if no turn of the loop filters a tick behind an unprocessed one |
| StreamWitnesses.FilteredTickPassesQueuedTick | core/journal/journal_tick_stream.py:280-282 | a journal of two records after which the saved cursor is past the queued tick, and a stream restarted from it never delivers that tick |
| StreamLaws.AttachIsResumable | core/journal/journal_tick_stream.py:119-123 | after the first poll of a new stream the records read and not yet processed are exactly those above the persisted cursor |
| StreamLaws.OrderlyRunResumable | core/journal/journal_tick_stream.py:243-284 | polls, takes, marks, rewinds and forced resyncs keep that so, over whole runs |
| StreamLaws.ForcedResyncCatchesUp | core/journal/journal_tick_stream.py:156-190 | after a compaction, whatever the reader's cursor and its index, a forced resync loads the index of the meta file and the next turn queues exactly the records still due |
| StreamLaws.RestartRedelivers | core/journal/journal_tick_stream.py:119-123 | a stream started from the saved cursor first queues every pending and queued tick of the old one, in order, then everything unread |
| ConfirmationTracker.SubscriptionConfirmationTracker.BeginExpectation | core/state/subscription_confirmation_tracker.py:67-92 | any open window is cancelled; a nonempty symbol list opens a new one under a new generation |
| ConfirmationTracker.SubscriptionConfirmationTracker.RecordConfirmation | core/state/subscription_confirmation_tracker.py:94-143 | an expected, new symbol is confirmed; the last one completes the window |
| ConfirmationTracker.SubscriptionConfirmationTracker.EvaluateAfterTimeout | core/state/subscription_confirmation_tracker.py:145-182 | a stale generation does nothing; the current one closes the window and reports it |
| ConfirmationTracker.RunKeepsInv | core/state/subscription_confirmation_tracker.py:16-24 | in every reachable state confirmed lies inside expected, strictly while a window is open, and only the current generation watches it |
| ConfirmationTracker.WindowEndsAsFated | core/state/subscription_confirmation_tracker.py:67-182 | a window completes at the acknowledgement that covers it, is partial when its own watchdog wakes first and no earlier than the timeout, and reports nothing when cancelled or replaced; the watchdog never reports completion |
| ConfirmationTracker.EachSymbolIsAnswered | core/state/subscription_confirmation_tracker.py:94-182 | an acknowledgement counts as new exactly for a symbol of the window not acknowledged since it opened; a window is complete only when each symbol has been; a partial report names as missing exactly those that have not |
| ConfirmationTracker.OutcomeHasAWindow | core/state/subscription_confirmation_tracker.py:67-182 | every outcome closes one window that was open, and no window has two |
| WriteLiveness.PostReconnectWriteLivenessGuard.ArmAfterSubscriptionsConfirmed | core/state/post_reconnect_write_liveness.py:115-175 | always arms a new generation, first boot included |
| WriteLiveness.PostReconnectWriteLivenessGuard.EvaluateAfterTimeout | core/state/post_reconnect_write_liveness.py:206-266 | a stale generation does nothing; the current one closes the window and heals unless cooling down |
| WriteLiveness.SilenceHealsIffRested | core/state/post_reconnect_write_liveness.py:206-266 | the watchdog of an undisturbed window wakes no earlier than the timeout and heals if and only if every earlier heal is at least the minimum interval old |
| WriteLiveness.HealMeansSilence | core/state/post_reconnect_write_liveness.py:177-266 | a heal means no write, cancel or new arm since the window was armed; no window heals twice |
| WriteLiveness.UnawaitedWriteIsIgnored | core/state/post_reconnect_write_liveness.py:177-192 | a write that no open window waits for changes nothing |
| WriteLiveness.RunKeepsInv | core/state/post_reconnect_write_liveness.py:194-204 | in every reachable state the watchdog belongs to the current generation, and with no window open nothing of the last one is kept |
| HealCooldown.HealsIffRested | core/state/post_reconnect_write_liveness.py:232-252 | remembering only the last heal is enough: a stale window heals exactly when all earlier heals are the minimum interval old |
| WriteLiveness.EveryArmCounts | core/state/post_reconnect_write_liveness.py:154-159 | the arm count is the number of confirmations so far, the first one included |
| WriteLiveness.FirstBootFlag | core/state/post_reconnect_write_liveness.py:148-161 | an open window is flagged first boot by connect generation 1, or by being the first when none is given |
| WriteLiveness.DetectionIsTheLastHeal | core/state/post_reconnect_write_liveness.py:102-113 | a detection can be consumed exactly when a heal has not been consumed yet, and it is the latest one |
| FlapCorrelation.PostFlapTipCorrelationMonitor.NoteConnectionClosed | core/network/post_flap_tip_correlation.py:239-262 | cancels the watch, remembers the close and samples the tip |
| FlapCorrelation.PostFlapTipCorrelationMonitor.NoteConnectionRestored | core/network/post_flap_tip_correlation.py:264-334 | nothing unless a close is pending; arms on the tip before, else the tip after, else not at all |
| FlapCorrelation.PostFlapTipCorrelationMonitor.RecordTipProgress | core/network/post_flap_tip_correlation.py:161-183 | cancels the watch exactly when the tip has passed the baseline |
| FlapCorrelation.ProgressSatisfiesIff | core/network/post_flap_tip_correlation.py:161-183 | reported progress is called satisfying if and only if a flap is being watched and the tip has passed its baseline |
| FlapCorrelation.DeadlineHealsIffStagnant | core/network/post_flap_tip_correlation.py:363-444 | the deadline wakes no earlier than the window and heals if and only if the tip is readable, has not passed the baseline, and every earlier heal is at least the minimum interval old |
| FlapCorrelation.HealMeansStagnation | core/network/post_flap_tip_correlation.py:239-444 | a heal means a close answered by a restore, no close, cancel or reported progress since, and a tip that did not pass the baseline; no flap heals twice |
| FlapCorrelation.FlapIsTimed | core/network/post_flap_tip_correlation.py:239-298 | the reported flap duration is the monotonic time between the close and the restore that answers it; in between none is reported |
| FlapCorrelation.RestoreWithoutCloseIsIgnored | core/network/post_flap_tip_correlation.py:277-278 | a restore that answers no close changes nothing |
| FlapCorrelation.DetectionIsTheLastHeal | core/network/post_flap_tip_correlation.py:149-159 | a detection can be consumed exactly when a heal has not been consumed yet, and it is the latest one |
| StreamWatch.BaseExchangeStream.HandleConnect | exchanges/base_stream.py:187-193 | counts the connect and drops the write deadline; the tracker is left alone |
| StreamWatch.BaseExchangeStream.ResubscribeAll | exchanges/base_stream.py:358-371 | begins an expectation for the active symbols, or cancels when there are none |
| StreamWatch.BaseExchangeStream.HandleSubscribeMessage | exchanges/base_stream.py:332-336 | records the acknowledgement and arms the guard when it completes the window |
| StreamWatch.BaseExchangeStream.StopWatching | exchanges/base_stream.py:352-355 | cancels both |
| StreamWatch.HealMeansMuteSubscription | exchanges/base_stream.py:165-204 | a heal means a subscription confirmed in time after which, for at least the timeout, nothing was dispatched, no connection was made, the stream was not stopped and no other subscription was confirmed |
| StreamWatch.MuteSubscriptionHealsIffRested | exchanges/base_stream.py:165-204 | when the watchdog of such a subscription wakes, a heal is signalled if and only if every earlier heal is at least the minimum interval old |
| StreamWatch.HealIffMuteSubscription | exchanges/base_stream.py:165-204 | both directions together, over the events of the stream alone |
| StreamWatch.FullConfirmationArms | exchanges/base_stream.py:165-185 | every full confirmation arms the guard for its symbols and connection, flagged first boot exactly on the first connection |
| StreamWatch.ConfirmationBelongsIffAnswered | exchanges/base_stream.py:187-204 | a full confirmation belongs to the connection whose subscription it confirms if and only if it is not read between a connect and the resubscription that answers it |
| StreamWatch.ConfirmationReadTooEarly | exchanges/base_stream.py:187-204 | a run in which the condition fails and the second connection is armed by the first one's subscription |
| QueueDispatcher.AsyncQueueDispatcher.Dispatch | core/routing/async_queue_dispatcher.py:174-258 | queue, counters, saturation start and report after a dispatch under either policy |
| QueueDispatcher.RunIsBalanced | core/routing/async_queue_dispatcher.py:190-258 | dispatched = delivered + dropped + queued, queue length <= maxsize, unfinished = queued + delivered - marked, reported drops + unreported remainder = dropped |
| QueueDispatcher.RunIsInOrder | core/routing/async_queue_dispatcher.py:190-258 | no tick is delivered twice or out of order, under either policy |
| QueueDispatcher.DropOldestKeepsASuffix | core/routing/async_queue_dispatcher.py:239-258 | under DROP_OLDEST the queue is always a contiguous suffix of all dispatched ticks |
| QueueDispatcher.DropNewestKeepsAccepted | core/routing/async_queue_dispatcher.py:221-233 | under DROP_NEWEST a tick that was delivered or queued is never lost again |
| QueueDispatcher.ReportsArePaced | core/routing/async_queue_dispatcher.py:260-325 | an overflow is reported at once if and only if the last report is at least the interval old, and as an error if and only if the drop threshold is reached or the row of overflows has lasted; totals, window and queue length of the report are those of the run |
| QueueDispatcher.BurstKeepsAWindow | core/routing/async_queue_dispatcher.py:25-40 | a burst with no consumer leaves the freshest ticks under DROP_OLDEST and the earliest under DROP_NEWEST, and drops exactly the excess |

## Left out

- JSON grammar, float arithmetic, UTF-8 decoding and universal newlines: lines are ASCII-level bytes in a small codec, and the case folding of symbols is ASCII only.
- TickCodec.TickRoundTrip: price and size are carried as the texts of floats, so the conversion between the two is absent.
- Re-serialisation in the compactor: a retained line is written as the encoding of the object it decoded to, so differences of JSON layout between the two do not appear.
- Meta rows of the wrong shape (an index that is not a list, a tip that is not a number, two stored symbols with the same upper-case form, of which the later wins): a meta file is missing, unreadable or well-typed and free of such pairs.
- OS file locks, fsync, `os.replace` and every OSError branch: what runs under the journal lock is one atomic step that succeeds, except that `TipLag` takes an append as two steps.
- A second writer object on the same directory, and a crash while the meta is dirty: `append` does not re-read the meta, so seqs can be reused then.
- ReaderLaws.IncrementalEqualsBatch: assumes that no torn tip is given up and that the file only grows; `ResyncAfterCompaction` and `RewriteUnderCursor` deal with rewrites.
- ReaderLaws.ResyncAfterCompaction: assumes a journal without a torn tip and an index in the meta file that is sound for the new file; `ResyncAfterCompactor` derives the latter from the compaction itself.
- RewriteUnderCursor.RewriteInsideLosesNothingIff: where the offset lies behind the rewritten part, the growth there is written records and a torn tip; a record merged with a torn tip, read from its middle, is not covered.
- StreamLaws.RestartRedelivers: assumes no symbol filter, no torn tip when a reader attaches, rewinds or rebinds, no torn tip given up, and a consumer that marks before it takes again; `CursorSafety` treats the filter.
- JournalTail.TailAcrossCompaction: one clock reading for both replays, since nothing is waited for.
- The second clamp of a cursor past the end after a resync, and `force=False` of the tip abandonment: no caller reaches them.
- The last skip reason, the recovery log line, empty-poll and unread-lag diagnostics, log text and log rate limits other than the drop reports.
- Observers and reconnect callbacks of the tick stream: a polled batch is one step, so a `set_cursor` in the middle of a batch is not modelled.
- Error backoff and the fatal threshold of the tail-follow loop, and blocking: `WaitForNextTick` needs a queued tick.
- Task scheduling and threads: a timer is a pending event with a generation and a due time that may happen at any later step, and an idle-flush timer is an armed flag.
- Changing the stale window, the heal interval or the tip provider of the flap monitor after construction: they are constants and an argument.
- Callbacks that raise inside the watchdogs, and the loss of the connection while a subscribe request is being sent.
- QueueDispatcher.AsyncQueueDispatcher.Dispatch: the branches for a queue drained or refilled between two statements cannot run on one event loop and are left out.
- WebSocket transport, heartbeat, silence watchdog, retry policy, subscription registry, exchange adapters, message classes and entry points: one-branch facts or network I/O.
