/** `tail_from` (core/journal/tick_journal.py): replay from a seq with a fresh reader until nothing is left. */
module JournalTail {
  import opened Bytes
  import opened JournalLines
  import opened SeqIndex
  import opened Compactor
  import opened Journal
  import opened IncrementalReader
  import opened ReaderLaws

  /** A poll leaves no complete line unread. */
  lemma PollReadsEverything(st: ReaderState, v: View, start: int, wait: real, now: real)
    requires Anchored(st) && v.file.Some?
    ensures var st' := Polled(st, v, start, wait, now).state;
      Anchored(st') && st'.offset <= |v.file.value| && Kinds(v.file.value[st'.offset..]) == []
  {
    var f := v.file.value;
    var st1 := if start == st.nextSeq then st else ResetTo(st, v.file, v.index, start).0;
    if start != st.nextSeq {
      ResetSkips(st, v.file, v.index, start);
    }
    ResyncFacts(st1, v);
    ResyncInside(st1, v);
    var st2 := Aligned(Resynced(st1, v).0, v.file);
    ReadLeavesNothing(st2, f, wait, now);
  }

  lemma ResyncInside(st: ReaderState, v: View)
    requires v.file.Some?
    ensures Aligned(Resynced(st, v).0, v.file).offset <= |v.file.value|
  {
    if st.offset > |v.file.value| {
      ResetStaysInside(st, v.file, DiskIndex(v), st.nextSeq);
    }
  }

  lemma ReadLeavesNothing(st: ReaderState, f: Bytes, wait: real, now: real)
    requires Anchored(st) && st.offset <= |f|
    ensures var st' := ReadAll(st, f[st.offset..], wait, now).0;
      Anchored(st') && st'.offset <= |f| && Kinds(f[st'.offset..]) == []
  {
    hide Kinds, ReadAll, Deliver, NextAfter;
    var s := f[st.offset..];
    ReadAllFacts(st, s, wait, now);
    var st' := ReadAll(st, s, wait, now).0;
    DropDrop(f, st.offset, st'.offset - st.offset);
    var left := s[st'.offset - st.offset..];
    assert !HasNewline(left);
    KindsTorn(left);
  }

  /** What a fresh reader's first poll delivers. */
  lemma FreshPoll(v: View, start: int, wait: real, now: real)
    requires v.file.Some? && IndexSound(v.file.value, v.index)
    ensures Polled(FRESH, v, start, wait, now).records == Deliver(Kinds(v.file.value), start)
    ensures Polled(FRESH, v, start, wait, now).index == v.index
  {
    if start == 1 {
      var mid := ContinuedPoll(FRESH, v, start, wait, now);
      assert v.file.value[0..] == v.file.value;
      ReadAllFacts(mid, v.file.value, wait, now);
    } else {
      RepositionedPoll(FRESH, v, start, wait, now);
    }
  }

  lemma NothingMore(st: ReaderState, v: View, wait: real, now: real)
    requires Continues(st, v, st.nextSeq) && Kinds(v.file.value[st.offset..]) == []
    ensures Polled(st, v, st.nextSeq, wait, now).records == []
    ensures Polled(st, v, st.nextSeq, wait, now).index == v.index
  {
    var mid := ContinuedPoll(st, v, st.nextSeq, wait, now);
    ReadAllFacts(mid, v.file.value[st.offset..], wait, now);
  }

  /** Some batch was delivered and no complete line is left to read. */
  ghost predicate Drained(reader: JournalIncrementalReader, batch: seq<JournalRecord>)
    reads reader, reader.policy, reader.journal.disk, reader.journal.meta
  {
    var v := reader.Seen();
    && batch != [] && v.file.Some? && Continues(reader.State(), v, reader.nextSeq)
    && Kinds(v.file.value[reader.readOffset..]) == []
    && reader.nextSeq == batch[|batch| - 1].seqNo + 1 >= 0
  }

  /** The first poll of a fresh reader: what it delivers, and that it leaves nothing behind. */
  lemma FirstPoll(v: View, start: int, wait: real, now: real)
    requires start >= 0
    ensures var r := Polled(FRESH, v, start, wait, now);
      && (v.file.None? ==> r.records == [])
      && (r.records != [] ==> v.file.Some? && r.state.nextSeq == r.records[|r.records| - 1].seqNo + 1 >= 0
                              && Continues(r.state, v, r.state.nextSeq) && Kinds(v.file.value[r.state.offset..]) == [])
      && (v.file.Some? && IndexSound(v.file.value, v.index) ==>
            r.records == Deliver(Kinds(v.file.value), start) && r.index == v.index)
  {
    var ks := PollDelivers(FRESH, v, start, wait, now);
    DeliverNext(ks, start);
    if v.file.Some? {
      PollReadsEverything(FRESH, v, start, wait, now);
      if IndexSound(v.file.value, v.index) {
        FreshPoll(v, start, wait, now);
      }
    }
  }

  /** With a sound index the tail from `start` is exactly what a consumer at `start` is due in the whole file. */
  method TailFrom(journal: TickJournal, start: nat, now: real) returns (records: seq<JournalRecord>)
    requires journal.Valid()
    modifies journal.disk`quarantine, journal.meta
    ensures journal.Valid() && journal.meta.buckets == old(journal.meta.buckets)
    ensures journal.disk.journal.None? ==> records == []
    ensures journal.disk.journal.Some? && IndexSound(journal.disk.journal.value, old(journal.meta.index)) ==>
      records == Deliver(Kinds(journal.disk.journal.value), start) && journal.meta.index == old(journal.meta.index)
  {
    hide Polled, Kinds, Deliver, IndexSound;
    var reader := new JournalIncrementalReader(journal, DEFAULT_INCOMPLETE_RECORD_MAX_WAIT_SECONDS);
    FirstPoll(reader.Seen(), start, reader.policy.maxWait, now);
    var batch := reader.Poll(start, now);
    records := [];
    ghost var first, index := batch, journal.meta.index;
    while batch != []
      invariant reader.Valid() && reader.journal == journal && fresh(reader) && fresh(reader.policy)
      invariant journal.meta.buckets == old(journal.meta.buckets) && journal.meta.index == index
      invariant records + batch == first
      invariant batch != [] ==> Drained(reader, batch)
      decreases |batch|
    {
      NothingMore(reader.State(), reader.Seen(), reader.policy.maxWait, now);
      records := records + batch;
      var currentSeq := batch[|batch| - 1].seqNo + 1;
      batch := reader.Poll(currentSeq, now);
    }
  }

  /**
   Compaction is invisible at and above its watermark, end to end: replaying from `start` yields the
   same records before and after `compact_before_seq(k)`.
   */
  method TailAcrossCompaction(journal: TickJournal, k: int, start: nat, now: real)
    returns (before: seq<JournalRecord>, after: seq<JournalRecord>)
    requires journal.Valid() && journal.disk.journal.Some? && k <= start
    requires Terminated(journal.disk.journal.value) && Increasing(Kinds(journal.disk.journal.value))
    requires IndexSound(journal.disk.journal.value, journal.meta.index)
    modifies journal.disk`journal, journal.disk`meta, journal.disk`quarantine, journal.meta
    ensures before == after == From(Records(Kinds(old(journal.disk.journal).value)), start)
    ensures journal.disk.journal == Some(Compacted(old(journal.disk.journal).value, k))
  {
    ghost var f, index := journal.disk.journal.value, journal.meta.index;
    before := TailFrom(journal, start, now);
    var _ := journal.CompactBeforeSeq(k);
    AllKindsTerminated(f);
    CompactionKeepsIndexSound(f, k, index, journal.settings.indexInterval);
    after := TailFrom(journal, start, now);
    CompactionInvisible(f, k, start);
    DeliverIsFilter(Kinds(f), start);
  }
}
