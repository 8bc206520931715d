/**
 The incremental reader (core/journal/journal_incremental_reader.py): a byte cursor over a file that
 grows, tears and gets rewritten. `Polled` says what one poll does; it is stated over the lines of
 the unread bytes (`Kinds`, `Deliver`), while the class reads them one `readline` at a time.
 */
module IncrementalReader {
  import opened Bytes
  import opened JournalLines
  import opened JournalDisk
  import opened JournalMeta
  import opened SeqIndex
  import opened FragmentPolicy
  import opened ReadProgress
  import opened Journal

  const DEFAULT_INCOMPLETE_RECORD_MAX_WAIT_SECONDS: real := 2.0

  /** `logicalBol` marks an offset trusted to be the beginning of a line. */
  datatype ReaderState = ReaderState(
    offset: nat, nextSeq: int, logicalBol: Option<nat>, skipped: nat, failures: nat,
    lastSize: Option<nat>, resyncLogged: bool, pending: Option<Pending>)

  const FRESH: ReaderState := ReaderState(0, 1, Some(0), 0, 0, None, false, None)

  /** What a reader sees of the journal: the file, its process's index, and the meta file. */
  datatype View = View(file: Option<Bytes>, index: seq<IndexEntry>, meta: MetaFile)

  datatype PollResult = PollResult(
    state: ReaderState, records: seq<JournalRecord>, quarantined: seq<QuarantineEntry>, index: seq<IndexEntry>)

  /** What a handle reads after seeking to `o`; seeking past the end reads nothing. */
  function Unread(f: Bytes, o: nat): (s: Bytes) {
    if o <= |f| then f[o..] else []
  }

  /** `__choose_reset_offset`, for a cursor at `offset` whose next seq is `nextSeq`. */
  function ChosenOffset(offset: nat, nextSeq: int, file: Option<Bytes>, start: int, indexed: nat): (o: nat) {
    var safe := if file.Some? && indexed > |file.value| then |file.value| else indexed;
    if start != nextSeq || offset <= safe || file.None? || offset > |file.value| then safe else offset
  }

  function ChooseResetOffset(st: ReaderState, file: Option<Bytes>, start: int, indexed: nat): (o: nat) {
    ChosenOffset(st.offset, st.nextSeq, file, start, indexed)
  }

  function Aligned(st: ReaderState, file: Option<Bytes>): (st': ReaderState) {
    if st.offset == 0 then st.(logicalBol := Some(0))
    else if st.logicalBol == Some(st.offset) || file.None? then st
    else
      var f := file.value;
      var o := if st.offset > |f| then |f| else AlignTo(f, st.offset);
      if o != st.offset then st.(offset := o, logicalBol := Some(o), pending := None) else st
  }

  /** Skips an unterminated tip under the cursor at once, as attach and rebind do. */
  function Abandoned(st: ReaderState, file: Option<Bytes>): (r: (ReaderState, seq<QuarantineEntry>)) {
    var s := Unread(Text(file), st.offset);
    if s == [] || HasLine(s) then (st.(pending := None), [])
    else
      var o := st.offset + |s|;
      (st.(offset := o, logicalBol := Some(o), pending := None, skipped := st.skipped + 1, failures := st.failures + 1),
       [QuarantineEntry(s, IncompleteColdAttach)])
  }

  /** The common end of a reset and a rebind, once the cursor has been placed. */
  function Settled(st: ReaderState, file: Option<Bytes>, start: int): (r: (ReaderState, seq<QuarantineEntry>)) {
    var (st', q) := Abandoned(Aligned(st, file), file);
    (st'.(logicalBol := Some(st'.offset), nextSeq := start, failures := 0), q)
  }

  /** `reset_from_seq`. */
  function ResetTo(st: ReaderState, file: Option<Bytes>, index: seq<IndexEntry>, start: int)
    : (r: (ReaderState, seq<QuarantineEntry>))
  {
    Settled(st.(offset := ChooseResetOffset(st, file, start, ByteOffset(file, index, start))), file, start)
  }

  function ReboundOffset(file: Option<Bytes>, index: seq<IndexEntry>, start: int): (o: nat) {
    var indexed := ByteOffset(file, index, start);
    if file.Some? && indexed > |file.value| then |file.value| else indexed
  }

  /** `force_rebind_from_seq`. */
  function Rebound(st: ReaderState, file: Option<Bytes>, index: seq<IndexEntry>, start: int)
    : (r: (ReaderState, seq<QuarantineEntry>))
  {
    var o := ReboundOffset(file, index, start);
    Settled(st.(offset := o, pending := None, logicalBol := None, resyncLogged := false), file, start)
  }

  /** The index the reader's process holds once it has reloaded it from disk. */
  function DiskIndex(v: View): (index: seq<IndexEntry>) {
    IndexOnDisk(v.index, v.meta)
  }

  /** `__resync_if_journal_rewritten` on an existing file. */
  function Resynced(st: ReaderState, v: View): (r: (ReaderState, seq<QuarantineEntry>, seq<IndexEntry>)) {
    var size := |Text(v.file)|;
    if st.offset > size then
      var (st', q) := ResetTo(st, v.file, DiskIndex(v), st.nextSeq);
      (st'.(resyncLogged := true, lastSize := Some(size)), q, DiskIndex(v))
    else if st.lastSize.Some? && size < st.lastSize.value then
      (Aligned(st.(pending := None), v.file).(resyncLogged := false, lastSize := Some(size)), [], v.index)
    else (st.(resyncLogged := false, lastSize := Some(size)), [], v.index)
  }

  /** Consecutive rejected lines since the last good record. */
  function Streak(ks: seq<LineKind>, failures: nat): (n: nat) {
    if ks == [] then failures
    else Streak(ks[1..], if Rejected(ks[0]) then failures + 1 else if RecordOf(ks[0]).Some? then 0 else failures)
  }

  function RejectedText(k: LineKind): (t: Bytes)
    requires Rejected(k)
  {
    k.text
  }

  function RejectedEntries(ks: seq<LineKind>): (q: seq<QuarantineEntry>) {
    if ks == [] then []
    else if Rejected(ks[0]) then [QuarantineEntry(RejectedText(ks[0]), InvalidRecord)] + RejectedEntries(ks[1..])
    else RejectedEntries(ks[1..])
  }

  /** The state after `n` bytes of complete lines, classified as `ks`. */
  function Consumed(st: ReaderState, n: nat, ks: seq<LineKind>): (st': ReaderState) {
    if n == 0 then st
    else st.(offset := st.offset + n, logicalBol := Some(st.offset + n), pending := None,
             nextSeq := NextAfter(ks, st.nextSeq), skipped := st.skipped + CountRejected(ks),
             failures := Streak(ks, st.failures))
  }

  /** The unterminated tip, once all complete lines are consumed: wait for it or skip it. */
  function AtTip(st: ReaderState, tip: Bytes, wait: real, now: real): (r: (ReaderState, seq<QuarantineEntry>)) {
    if tip == [] then (st, [])
    else
      var (pending, skip) := Decide(st.pending, wait, st.offset, tip, now);
      if !skip then (st.(pending := pending), [])
      else
        var o := st.offset + |tip|;
        (st.(offset := o, logicalBol := Some(o), pending := None,
             skipped := st.skipped + 1, failures := st.failures + 1),
         [QuarantineEntry(tip, SkipReason(tip))])
  }

  /** `n` bytes of complete lines classified as `ks`, then the tip. */
  function ReadKinds(st: ReaderState, ks: seq<LineKind>, n: nat, tip: Bytes, wait: real, now: real)
    : (r: (ReaderState, seq<JournalRecord>, seq<QuarantineEntry>))
  {
    var (st', q) := AtTip(Consumed(st, n, ks), tip, wait, now);
    (st', Deliver(ks, st.nextSeq), RejectedEntries(ks) + q)
  }

  /** The read loop over the unread bytes `s`. */
  function ReadAll(st: ReaderState, s: Bytes, wait: real, now: real)
    : (r: (ReaderState, seq<JournalRecord>, seq<QuarantineEntry>))
  {
    ReadKinds(st, Kinds(s), BodyLen(s), s[BodyLen(s)..], wait, now)
  }

  function ReadNew(st: ReaderState, v: View, wait: real, now: real): (r: PollResult) {
    if v.file.None? then PollResult(st, [], [], v.index)
    else
      var (st1, q1, index) := Resynced(st, v);
      var st2 := Aligned(st1, v.file);
      var (st3, out, q3) := ReadAll(st2, Unread(v.file.value, st2.offset), wait, now);
      PollResult(st3, out, q1 + q3, index)
  }

  function Polled(st: ReaderState, v: View, start: int, wait: real, now: real): (r: PollResult) {
    if start == st.nextSeq then ReadNew(st, v, wait, now)
    else
      var (st1, q1) := ResetTo(st, v.file, v.index, start);
      var r := ReadNew(st1, v, wait, now);
      r.(quarantined := q1 + r.quarantined)
  }

  /** A reset on an existing file leaves the cursor inside it. */
  lemma ResetStaysInside(st: ReaderState, file: Option<Bytes>, index: seq<IndexEntry>, start: int)
    requires file.Some?
    ensures ResetTo(st, file, index, start).0.offset <= |file.value|
  {
  }

  /** What one line does to the running counts. */
  lemma OneLine(k: LineKind, next: int, failures: nat)
    ensures NextAfter([k], next) == Step(k, next)
    ensures CountRejected([k]) == if Rejected(k) then 1 else 0
    ensures Streak([k], failures) == if Rejected(k) then failures + 1 else if RecordOf(k).Some? then 0 else failures
    ensures RejectedEntries([k]) == if Rejected(k) then [QuarantineEntry(RejectedText(k), InvalidRecord)] else []
    ensures Deliver([k], next) ==
            if RecordOf(k).Some? && RecordOf(k).value.seqNo >= next then [RecordOf(k).value] else []
  {
    assert [k][1..] == [];
  }

  // ---------- one turn of the read loop ----------

  lemma BodyLenCut(line: Bytes, rest: Bytes)
    requires IsLine(line)
    ensures BodyLen(line + rest) == |line| + BodyLen(rest)
    ensures (line + rest)[BodyLen(line + rest)..] == rest[BodyLen(rest)..]
  {
    LineLenCut(line, rest);
    BodyLenStep(line + rest);
  }

  lemma ConsumedTurn(st: ReaderState, n: nat, k: LineKind, m: nat, ks: seq<LineKind>)
    requires n > 0 && (m == 0 ==> ks == [])
    ensures Consumed(st, n + m, [k] + ks) == Consumed(Consumed(st, n, [k]), m, ks)
  {
    CountsCut(k, ks, st.nextSeq, st.failures);
    if m == 0 {
      assert [k] + ks == [k];
    }
  }

  lemma CountsCut(k: LineKind, ks: seq<LineKind>, next: int, failures: nat)
    ensures NextAfter([k] + ks, next) == NextAfter(ks, NextAfter([k], next))
    ensures CountRejected([k] + ks) == CountRejected([k]) + CountRejected(ks)
    ensures Streak([k] + ks, failures) == Streak(ks, Streak([k], failures))
    ensures RejectedEntries([k] + ks) == RejectedEntries([k]) + RejectedEntries(ks)
  {
    OneLine(k, next, failures);
    DeliverConcat([k], ks, next);
    RecordsConcat([k], ks);
    assert ([k] + ks)[1..] == ks;
  }

  lemma BodyEmpty(s: Bytes)
    requires BodyLen(s) == 0
    ensures Kinds(s) == []
  {
    assert s[0..] == s;
    KindsTorn(s);
  }

  lemma ReadKindsTurn(st: ReaderState, k: LineKind, ks: seq<LineKind>, n: nat, m: nat, tip: Bytes,
                      wait: real, now: real)
    requires n > 0 && (m == 0 ==> ks == [])
    ensures var (st', out, q) := ReadKinds(Consumed(st, n, [k]), ks, m, tip, wait, now);
      ReadKinds(st, [k] + ks, n + m, tip, wait, now) ==
      (st', Deliver([k], st.nextSeq) + out, RejectedEntries([k]) + q)
  {
    ConsumedTurn(st, n, k, m, ks);
    DeliverConcat([k], ks, st.nextSeq);
    CountsCut(k, ks, st.nextSeq, st.failures);
    var (_, q) := AtTip(Consumed(st, n + m, [k] + ks), tip, wait, now);
    Associative(RejectedEntries([k]), RejectedEntries(ks), q);
  }

  lemma ReadTurn(st: ReaderState, line: Bytes, rest: Bytes, wait: real, now: real)
    requires IsLine(line)
    ensures var k := Classify(line);
      var (st', out, q) := ReadAll(Consumed(st, |line|, [k]), rest, wait, now);
      ReadAll(st, line + rest, wait, now) ==
      (st', Deliver([k], st.nextSeq) + out, RejectedEntries([k]) + q)
  {
    hide Kinds, BodyLen, Classify, ReadKinds, Deliver, RejectedEntries, Consumed, NextAfter, Streak;
    var k, ks, m := Classify(line), Kinds(rest), BodyLen(rest);
    KindsCut(line, rest);
    BodyLenCut(line, rest);
    if m == 0 { BodyEmpty(rest); }
    ReadKindsTurn(st, k, ks, |line|, m, rest[m..], wait, now);
  }

  class JournalIncrementalReader {
    const journal: TickJournal
    const policy: IncompleteTrailingFragmentPolicy
    var readOffset: nat
    var nextSeq: int
    var skippedInvalidLines: nat
    var consecutiveParseFailures: nat
    var lastKnownSize: Option<nat>
    var pastEofResyncLogged: bool
    var logicalBolOffset: Option<nat>

    ghost predicate Valid()
      reads journal.meta, journal.meta.buckets.Values
    {
      journal.Valid()
    }

    ghost function State(): ReaderState
      reads this, policy
    {
      ReaderState(readOffset, nextSeq, logicalBolOffset, skippedInvalidLines, consecutiveParseFailures,
                  lastKnownSize, pastEofResyncLogged, policy.pending)
    }

    ghost function Seen(): View
      reads journal.disk, journal.meta
    {
      View(journal.disk.journal, journal.meta.index, journal.disk.meta)
    }

    constructor (journal: TickJournal, maxWait: real)
      requires journal.Valid() && maxWait > 0.0
      ensures Valid() && this.journal == journal && fresh(policy) && policy.maxWait == maxWait
      ensures State() == FRESH
    {
      this.journal := journal;
      policy := new IncompleteTrailingFragmentPolicy(maxWait);
      readOffset, nextSeq := 0, 1;
      skippedInvalidLines, consecutiveParseFailures := 0, 0;
      lastKnownSize, pastEofResyncLogged, logicalBolOffset := None, false, Some(0);
    }

    method AlignReadOffsetToLineBoundary()
      modifies this, policy
      ensures State() == Aligned(old(State()), journal.disk.journal)
    {
      if readOffset <= 0 {
        logicalBolOffset := Some(0);
        return;
      }
      if logicalBolOffset == Some(readOffset) || journal.disk.journal.None? {
        return;
      }
      var f, before := journal.disk.journal.value, readOffset;
      if readOffset >= |f| {
        readOffset := |f|;
      } else if f[readOffset - 1] != NEWLINE {
        readOffset := readOffset + LineLen(f[readOffset..]);
      }
      if readOffset != before {
        policy.ClearWait();
        logicalBolOffset := Some(readOffset);
      }
    }

    method QuarantineInvalidLine(text: Bytes, reason: QuarantineReason)
      modifies this`skippedInvalidLines, this`consecutiveParseFailures, journal.disk`quarantine
      ensures skippedInvalidLines == old(skippedInvalidLines) + 1
      ensures consecutiveParseFailures == old(consecutiveParseFailures) + 1
      ensures journal.disk.quarantine == old(journal.disk.quarantine) + [QuarantineEntry(text, reason)]
    {
      skippedInvalidLines := skippedInvalidLines + 1;
      consecutiveParseFailures := consecutiveParseFailures + 1;
      journal.QuarantineLine(text, reason);
    }

    method AbandonIncompleteTipAtCursor()
      modifies this, policy, journal.disk`quarantine
      ensures var (st, q) := Abandoned(old(State()), journal.disk.journal);
        State() == st && journal.disk.quarantine == old(journal.disk.quarantine) + q
    {
      if journal.disk.journal.None? {
        policy.ClearWait();
        return;
      }
      var line := Unread(journal.disk.journal.value, readOffset);
      if line == [] || HasLine(line) {
        policy.ClearWait();
        return;
      }
      QuarantineInvalidLine(line, IncompleteColdAttach);
      policy.ClearWait();
      readOffset := readOffset + |line|;
      logicalBolOffset := Some(readOffset);
    }

    method ResetFromSeq(start: nat)
      requires Valid()
      modifies this, policy, journal.disk`quarantine
      ensures Valid()
      ensures var (st, q) := ResetTo(old(State()), journal.disk.journal, journal.meta.index, start);
        State() == st && journal.disk.quarantine == old(journal.disk.quarantine) + q
    {
      var indexed := journal.ByteOffsetForSeq(start);
      ghost var st0 := State();
      hide ChosenOffset, ByteOffset, Settled;
      readOffset := ChosenOffset(readOffset, nextSeq, journal.disk.journal, start, indexed);
      assert State() == st0.(offset := readOffset);
      SettleAt(start);
    }

    method ForceRebindFromSeq(start: nat)
      requires Valid()
      modifies this, policy, journal.disk`quarantine
      ensures Valid()
      ensures var (st, q) := Rebound(old(State()), journal.disk.journal, journal.meta.index, start);
        State() == st && journal.disk.quarantine == old(journal.disk.quarantine) + q
    {
      ghost var st0 := State();
      var indexed := ClampedIndexOffset(start);
      readOffset := indexed;
      policy.ClearWait();
      logicalBolOffset := None;
      pastEofResyncLogged := false;
      assert State() == st0.(offset := indexed, pending := None, logicalBol := None, resyncLogged := false);
      SettleAt(start);
    }

    method ClampedIndexOffset(start: nat) returns (indexed: nat)
      requires Valid()
      ensures indexed == ReboundOffset(journal.disk.journal, journal.meta.index, start)
    {
      indexed := journal.ByteOffsetForSeq(start);
      if journal.disk.journal.Some? && indexed > |journal.disk.journal.value| {
        indexed := |journal.disk.journal.value|;
      }
    }

    method SettleAt(start: nat)
      modifies this, policy, journal.disk`quarantine
      ensures var (st, q) := Settled(old(State()), journal.disk.journal, start);
        State() == st && journal.disk.quarantine == old(journal.disk.quarantine) + q
    {
      AlignReadOffsetToLineBoundary();
      AbandonIncompleteTipAtCursor();
      logicalBolOffset := Some(readOffset);
      nextSeq := start;
      consecutiveParseFailures := 0;
    }

    method ResyncIfJournalRewritten()
      requires Valid() && nextSeq >= 0 && journal.disk.journal.Some?
      modifies this, policy, journal.disk`quarantine, journal.meta
      ensures Valid() && journal.meta.buckets == old(journal.meta.buckets)
      ensures var (st, q, index) := Resynced(old(State()), old(Seen()));
        State() == st && journal.disk.quarantine == old(journal.disk.quarantine) + q && journal.meta.index == index
      ensures journal.meta.latest == old(journal.meta.latest) && journal.meta.highWater == old(journal.meta.highWater)
    {
      ghost var st0, v0 := State(), Seen();
      var fileSize := |journal.disk.journal.value|;
      var shrunk := lastKnownSize.Some? && fileSize < lastKnownSize.value;
      if readOffset > fileSize {
        journal.ReloadSeqIndexFromDisk();
        assert journal.meta.State().index == DiskIndex(v0);
        assert journal.meta.index == DiskIndex(v0);
        ResetFromSeq(nextSeq);
        ResetStaysInside(st0, journal.disk.journal, DiskIndex(v0), st0.nextSeq);
        // The source clamps the cursor once more here; the reset never leaves it past the end.
        assert readOffset <= fileSize;
        pastEofResyncLogged := true;
      } else if shrunk {
        policy.ClearWait();
        assert State() == st0.(pending := None);
        AlignReadOffsetToLineBoundary();
        pastEofResyncLogged := false;
      } else {
        pastEofResyncLogged := false;
      }
      lastKnownSize := Some(fileSize);
    }

    /** The `while True: readline()` loop. */
    method ReadLoop(now: real) returns (records: seq<JournalRecord>)
      requires journal.disk.journal.Some?
      modifies this, policy, journal.disk`quarantine
      ensures var (st, out, q) :=
          ReadAll(old(State()), Unread(journal.disk.journal.value, old(readOffset)), policy.maxWait, now);
        State() == st && records == out && journal.disk.quarantine == old(journal.disk.quarantine) + q
    {
      records := [];
      var unread := Unread(journal.disk.journal.value, readOffset);
      ghost var q0 := journal.disk.quarantine;
      ghost var (goal, out, q) := ReadAll(State(), unread, policy.maxWait, now);
      while HasLine(unread)
        invariant journal.disk.journal == old(journal.disk.journal)
        invariant ReadAll(State(), unread, policy.maxWait, now).0 == goal
        invariant records + ReadAll(State(), unread, policy.maxWait, now).1 == out
        invariant journal.disk.quarantine + ReadAll(State(), unread, policy.maxWait, now).2 == q0 + q
        decreases |unread|
      {
        ghost var rest0 := ReadAll(State(), unread, policy.maxWait, now);
        ghost var got, kept := records, journal.disk.quarantine;
        ghost var st0 := State();
        var n := LineLen(unread);
        var line, rest := unread[..n], unread[n..];
        FirstLineCut(unread);
        ReadTurn(st0, line, rest, policy.maxWait, now);
        var record := ConsumeLine(n, Classify(line));
        records := records + record;
        unread := rest;
        ghost var rest1 := ReadAll(State(), unread, policy.maxWait, now);
        Associative(got, record, rest1.1);
        Associative(kept, RejectedEntries([Classify(line)]), rest1.2);
      }
      NoLinesLeft(State(), unread, policy.maxWait, now);
      TakeTip(unread, now);
    }

    /** One complete line of `length` bytes: account for it and hand over its record if it is due. */
    method ConsumeLine(length: nat, k: LineKind) returns (record: seq<JournalRecord>)
      requires length > 0
      modifies this, policy, journal.disk`quarantine
      ensures State() == Consumed(old(State()), length, [k])
      ensures record == Deliver([k], old(nextSeq))
      ensures journal.disk.quarantine == old(journal.disk.quarantine) + RejectedEntries([k])
    {
      policy.ClearWait();
      OneLine(k, nextSeq, consecutiveParseFailures);
      record := [];
      if Rejected(k) {
        QuarantineInvalidLine(k.text, InvalidRecord);
      } else if RecordOf(k).Some? {
        if consecutiveParseFailures > 0 {
          consecutiveParseFailures := 0;
        }
      }
      readOffset := readOffset + length;
      logicalBolOffset := Some(readOffset);
      if RecordOf(k).Some? {
        var r := RecordOf(k).value;
        if r.seqNo >= nextSeq {
          record := [r];
          nextSeq := r.seqNo + 1;
        }
      }
    }

    /** What is left after the complete lines: nothing, or a tip to wait for or to skip. */
    method TakeTip(tip: Bytes, now: real)
      modifies this, policy, journal.disk`quarantine
      ensures var (st, q) := AtTip(old(State()), tip, policy.maxWait, now);
        State() == st && journal.disk.quarantine == old(journal.disk.quarantine) + q
    {
      if tip == [] {
        return;
      }
      var skip := policy.ShouldSkipNow(readOffset, tip, now);
      if skip {
        QuarantineInvalidLine(tip, SkipReason(tip));
        policy.ClearWait();
        readOffset := readOffset + |tip|;
        logicalBolOffset := Some(readOffset);
      }
    }

    method ReadNewRecords(now: real) returns (records: seq<JournalRecord>)
      requires Valid() && nextSeq >= 0
      modifies this, policy, journal.disk`quarantine, journal.meta
      ensures Valid() && journal.meta.buckets == old(journal.meta.buckets)
      ensures var r := ReadNew(old(State()), old(Seen()), policy.maxWait, now);
        State() == r.state && records == r.records && journal.meta.index == r.index
        && journal.disk.quarantine == old(journal.disk.quarantine) + r.quarantined
      ensures journal.meta.latest == old(journal.meta.latest) && journal.meta.highWater == old(journal.meta.highWater)
    {
      if journal.disk.journal.None? {
        return [];
      }
      ghost var q0 := journal.disk.quarantine;
      ghost var (st1, q1, index) := Resynced(State(), Seen());
      ResyncIfJournalRewritten();
      AlignReadOffsetToLineBoundary();
      ghost var (st3, out, q3) :=
        ReadAll(State(), Unread(journal.disk.journal.value, readOffset), policy.maxWait, now);
      records := ReadLoop(now);
      Associative(q0, q1, q3);
    }

    /** The records from `start` on that have become complete since the last poll. */
    method Poll(start: nat, now: real) returns (records: seq<JournalRecord>)
      requires Valid()
      modifies this, policy, journal.disk`quarantine, journal.meta
      ensures Valid() && journal.meta.buckets == old(journal.meta.buckets)
      ensures var r := Polled(old(State()), old(Seen()), start, policy.maxWait, now);
        State() == r.state && records == r.records && journal.meta.index == r.index
        && journal.disk.quarantine == old(journal.disk.quarantine) + r.quarantined
      ensures journal.meta.latest == old(journal.meta.latest) && journal.meta.highWater == old(journal.meta.highWater)
    {
      if start != nextSeq {
        ghost var q0 := journal.disk.quarantine;
        ghost var q1 := ResetTo(State(), journal.disk.journal, journal.meta.index, start).1;
        ResetFromSeq(start);
        ghost var q2 := ReadNew(State(), Seen(), policy.maxWait, now).quarantined;
        records := ReadNewRecords(now);
        Associative(q0, q1, q2);
      } else {
        records := ReadNewRecords(now);
      }
    }

    method GetReadProgressSnapshot() returns (s: Snapshot)
      requires Valid()
      modifies journal.meta
      ensures Valid() && journal.meta.buckets == old(journal.meta.buckets)
      ensures s == ComputeSnapshot(readOffset, |Text(journal.disk.journal)|, nextSeq,
                                   ReadTip(old(journal.meta.State()), journal.disk.meta).1,
                                   policy.pending.Some?, TIP_META_LAG_TOLERANCE_SEQ)
      ensures journal.meta.State() == ReadTip(old(journal.meta.State()), journal.disk.meta).0
    {
      var journalSize := |Text(journal.disk.journal)|;
      var diskLatest := journal.ReadLatestSeqFromDisk();
      var stuck := policy.pending.Some?;
      s := ComputeSnapshot(readOffset, journalSize, nextSeq, diskLatest, stuck, TIP_META_LAG_TOLERANCE_SEQ);
    }
  }

  lemma FirstLineCut(s: Bytes)
    requires HasLine(s)
    ensures IsLine(s[..LineLen(s)]) && s == s[..LineLen(s)] + s[LineLen(s)..]
  {
  }

  lemma NoLinesLeft(st: ReaderState, s: Bytes, wait: real, now: real)
    requires !HasLine(s)
    ensures ReadAll(st, s, wait, now) == (AtTip(st, s, wait, now).0, [], AtTip(st, s, wait, now).1)
  {
    BodyLenNoLine(s);
    BodyEmpty(s);
    assert s[0..] == s;
    assert [] + AtTip(st, s, wait, now).1 == AtTip(st, s, wait, now).1;
  }
}
