/**
 How far the durable tip may trail the journal, with an append taken as two steps: the line reaches
 the file first, the tip is published afterwards.
 */
module TipLag {
  import opened JournalDisk
  import opened JournalMeta
  import opened MetaDurability
  import opened ReadProgress
  import opened Multiples

  /** `written` is the seq of the last line in the journal file; `reader` is the store of another process. */
  datatype Publication = Publication(
    publisher: Publisher, file: MetaFile, written: int, inFlight: bool, reader: MetaState)

  /**
   `index` is the seq index the step leaves behind. Appends, flushes and compaction share one file lock; the
   reader's steps need none.
   */
  datatype PublishStep =
    | WriteLine
    | CommitMeta(index: seq<IndexEntry>)
    | FlushDirty
    | PersistCompaction(index: seq<IndexEntry>)
    | EnsureTip(tip: nat)
    | OpenReader(window: nat)
    | ReadDiskTip
    | ReloadReader(window: nat)

  ghost predicate CanStep(s: Publication, e: PublishStep) {
    match e
    case WriteLine => !s.inFlight
    case CommitMeta(index) => s.inFlight && MaxSeq(index) <= s.written
    case FlushDirty => !s.inFlight
    case PersistCompaction(index) => !s.inFlight && MaxSeq(index) <= s.written
    case EnsureTip(_) => !s.inFlight
    case OpenReader(window) => window > 0 && !s.file.Corrupt?
    case ReadDiskTip => true
    case ReloadReader(window) => window > 0 && !s.file.Corrupt?
  }

  ghost function Next(s: Publication, e: PublishStep, interval: nat): (s': Publication)
    requires CanStep(s, e) && interval > 0
  {
    var p := s.publisher;
    match e
    case WriteLine => s.(written := p.meta.latest + 1, inFlight := true)
    case CommitMeta(index) =>
      var q := p.(meta := WithLatest(p.meta, s.written).(index := index));
      var (p', file') := NotedAppend(q, s.file, interval, true);
      s.(publisher := p', file := file', inFlight := false)
    case FlushDirty =>
      var (p', file') := Flushed(p, s.file);
      s.(publisher := p', file := file')
    case PersistCompaction(index) =>
      var (m', file') := Persisted(p.meta.(index := index), s.file);
      s.(publisher := p.(meta := m'), file := file')
    case EnsureTip(tip) =>
      var q := p.(meta := WithLatest(p.meta, tip));
      if q.meta.latest > p.meta.latest then
        var (p', file') := PersistedLocked(q, s.file);
        s.(publisher := p', file := file')
      else s.(publisher := q)
    case OpenReader(window) => s.(reader := Opened(s.file, window))
    case ReadDiskTip => s.(reader := ReadTip(s.reader, s.file).0)
    case ReloadReader(window) => s.(reader := Reloaded(s.reader, s.file, window))
  }

  /** The tip the reader's progress snapshot is computed with. */
  ghost function Reported(s: Publication): (tip: int) {
    ReadTip(s.reader, s.file).1
  }

  /**
   A writer that has just opened a journal whose meta is readable and up to date, and a reader that has seen
   no other tips than this file's.
   */
  ghost predicate CleanStart(s: Publication) {
    && !s.inFlight && s.written >= 0
    && s.publisher.meta.latest == s.written == s.publisher.meta.highWater == DiskTip(s.file)
    && MaxSeq(s.publisher.meta.index) <= s.written
    && s.publisher.counter == 0 && !s.publisher.dirty && !s.publisher.timer
    && !s.file.Corrupt? && s.reader.highWater <= DiskTip(s.file)
  }

  /**
   Between publications the disk trails memory by no more than the appends counted since, and while it does, an
   idle flush is armed.
   */
  ghost predicate Inv(s: Publication, interval: nat)
    requires interval > 0
  {
    var p := s.publisher;
    && (if s.inFlight then s.written == p.meta.latest + 1 else s.written <= p.meta.latest)
    && p.meta.highWater == p.meta.latest >= 0
    && MaxSeq(p.meta.index) <= p.meta.latest
    && DiskTip(s.file) <= p.meta.latest <= DiskTip(s.file) + p.counter % interval
    && (DiskTip(s.file) < p.meta.latest ==> p.dirty && p.timer)
    && !s.file.Corrupt? && s.reader.highWater <= DiskTip(s.file)
  }

  ghost predicate IsRun(run: seq<Publication>, steps: seq<PublishStep>, interval: nat) {
    && interval > 0
    && |run| == |steps| + 1
    && CleanStart(run[0])
    && forall i :: 0 <= i < |steps| ==> CanStep(run[i], steps[i]) && run[i + 1] == Next(run[i], steps[i], interval)
  }

  lemma StepKeepsInv(s: Publication, e: PublishStep, interval: nat)
    requires interval > 0 && Inv(s, interval) && CanStep(s, e)
    ensures Inv(Next(s, e, interval), interval)
  {
    ModStep(s.publisher.counter, interval);
  }

  lemma ExtendRun(run: seq<Publication>, steps: seq<PublishStep>, interval: nat, e: PublishStep)
    requires IsRun(run, steps, interval) && CanStep(run[|run| - 1], e)
    ensures IsRun(run + [Next(run[|run| - 1], e, interval)], steps + [e], interval)
  {
    var run', steps' := run + [Next(run[|run| - 1], e, interval)], steps + [e];
    assert forall i :: 0 <= i < |run| ==> run'[i] == run[i];
    assert forall i :: 0 <= i < |steps| ==> steps'[i] == steps[i];
  }

  lemma {:induction false} RunKeepsInv(run: seq<Publication>, steps: seq<PublishStep>, interval: nat, i: nat)
    requires IsRun(run, steps, interval) && i < |run|
    ensures Inv(run[i], interval)
    decreases i
  {
    if i > 0 {
      RunKeepsInv(run, steps, interval, i - 1);
      StepKeepsInv(run[i - 1], steps[i - 1], interval);
    }
  }

  /** A reader takes seqs from the file only, so it stands at most one past the last written line. */
  ghost predicate ReaderAt(s: Publication, nextSeq: int) {
    1 <= nextSeq <= s.written + 1
  }

  /** Without `ensure_latest_seq_at_least` the tip in memory is the seq of the last line but the one in flight. */
  lemma {:induction false} TipIsWritten(run: seq<Publication>, steps: seq<PublishStep>, interval: nat, i: nat)
    requires IsRun(run, steps, interval) && i < |run| && forall k :: 0 <= k < i ==> !steps[k].EnsureTip?
    ensures run[i].written == run[i].publisher.meta.latest + (if run[i].inFlight then 1 else 0)
    decreases i
  {
    if i > 0 {
      TipIsWritten(run, steps, interval, i - 1);
      RunKeepsInv(run, steps, interval, i - 1);
    }
  }

  /**
   In every reachable state, for every reader position: the cursor overhangs the tip that the reader's own store
   reports by at most one publication interval, so with a tolerance that large the sticky-cursor flag stays off;
   the reported lag is at least the true lag minus one interval, and at most the true lag unless the tip was
   raised by `ensure_latest_seq_at_least`.
   */
  lemma TipLagBound(run: seq<Publication>, steps: seq<PublishStep>, interval: nat, i: nat,
                    nextSeq: int, readOffset: nat, journalSize: nat, tolerance: nat)
    requires IsRun(run, steps, interval) && i < |run| && ReaderAt(run[i], nextSeq)
    requires interval <= tolerance
    ensures Reported(run[i]) == DiskTip(run[i].file) && nextSeq - 1 - Reported(run[i]) <= interval
    ensures var s := ComputeSnapshot(readOffset, journalSize, nextSeq, Reported(run[i]), false, tolerance);
      var trueLag := run[i].written - nextSeq + 1;
      !s.cursorAheadOfTip && trueLag - interval <= s.lagSeq
    ensures var s := ComputeSnapshot(readOffset, journalSize, nextSeq, Reported(run[i]), false, tolerance);
      (forall k :: 0 <= k < i ==> !steps[k].EnsureTip?) ==> s.lagSeq <= run[i].written - nextSeq + 1
  {
    RunKeepsInv(run, steps, interval, i);
    ReportedTipIsTheDisks(run[i].reader, run[i].file);
    if forall k :: 0 <= k < i ==> !steps[k].EnsureTip? {
      TipIsWritten(run, steps, interval, i);
    }
  }

  /** The interval and the tolerance the program uses fit each other. */
  lemma ProgramConstantsFit(run: seq<Publication>, steps: seq<PublishStep>, i: nat,
                            nextSeq: int, readOffset: nat, journalSize: nat)
    requires IsRun(run, steps, META_PERSIST_INTERVAL) && i < |run| && ReaderAt(run[i], nextSeq)
    ensures var s := ComputeSnapshot(readOffset, journalSize, nextSeq, Reported(run[i]), false,
                                     TIP_META_LAG_TOLERANCE_SEQ);
      var trueLag := run[i].written - nextSeq + 1;
      && !s.cursorAheadOfTip && trueLag - 50 <= s.lagSeq
      && ((forall k :: 0 <= k < i ==> !steps[k].EnsureTip?) ==> s.lagSeq <= trueLag)
  {
    TipLagBound(run, steps, META_PERSIST_INTERVAL, i, nextSeq, readOffset, journalSize, TIP_META_LAG_TOLERANCE_SEQ);
  }

  /** `k` appends, none of them completing an interval, leave the disk where it was. */
  lemma {:induction false} UnpublishedAppends(s: Publication, interval: nat, k: nat)
    returns (run: seq<Publication>, steps: seq<PublishStep>)
    requires CleanStart(s) && k < interval
    ensures IsRun(run, steps, interval) && run[0] == s
    ensures var t := run[|run| - 1];
      && !t.inFlight && t.written == t.publisher.meta.latest == s.written + k
      && t.file == s.file && t.reader == s.reader && t.publisher.counter == k
    decreases k
  {
    if k == 0 {
      run, steps := [s], [];
    } else {
      var run0, steps0 := UnpublishedAppends(s, interval, k - 1);
      var t0 := run0[|run0| - 1];
      RunKeepsInv(run0, steps0, interval, |run0| - 1);
      var t1 := Next(t0, WriteLine, interval);
      var commit := CommitMeta(t0.publisher.meta.index);
      assert CanStep(t1, commit);
      ModStep(k - 1, interval);
      ModOf(0, k, interval);
      var t2 := Next(t1, commit, interval);
      ExtendRun(run0, steps0, interval, WriteLine);
      ExtendRun(run0 + [t1], steps0 + [WriteLine], interval, commit);
      run, steps := run0 + [t1] + [t2], steps0 + [WriteLine] + [commit];
    }
  }

  /** The bound is tight: every clean start can reach an overhang of exactly one interval. */
  lemma TipLagBoundIsTight(s: Publication, interval: nat)
    returns (run: seq<Publication>, steps: seq<PublishStep>, nextSeq: int)
    requires CleanStart(s) && interval > 0
    ensures IsRun(run, steps, interval) && run[0] == s
    ensures ReaderAt(run[|run| - 1], nextSeq)
    ensures nextSeq - 1 - Reported(run[|run| - 1]) == interval
  {
    var run0, steps0 := UnpublishedAppends(s, interval, interval - 1);
    var t0 := run0[|run0| - 1];
    var t1 := Next(t0, WriteLine, interval);
    run, steps := run0 + [t1], steps0 + [WriteLine];
    ExtendRun(run0, steps0, interval, WriteLine);
    nextSeq := t1.written + 1;
    ReportedTipIsTheDisks(t1.reader, t1.file);
  }
}
