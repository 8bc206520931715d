/** What polls guarantee: one poll, runs of polls, polls across compaction. */
module ReaderLaws {
  import opened Bytes
  import opened TickCodec
  import opened JournalLines
  import opened LineAccounting
  import opened JournalDisk
  import opened JournalMeta
  import opened SeqIndex
  import opened FragmentPolicy
  import opened Compactor
  import opened Journal
  import opened IncrementalReader

  /** The cursor is trusted to stand at the beginning of a line. Every operation of the reader restores this. */
  ghost predicate Anchored(st: ReaderState) {
    st.logicalBol == Some(st.offset)
  }

  /** A poll that neither resets nor resyncs: the caller continues at the running seq, inside the file. */
  ghost predicate Continues(st: ReaderState, v: View, start: int) {
    Anchored(st) && start == st.nextSeq && v.file.Some? && st.offset <= |v.file.value|
  }

  ghost predicate TornTipSkipped(st: ReaderState, f: Bytes, wait: real, now: real)
    requires st.offset <= |f|
  {
    var s := f[st.offset..];
    var c := Consumed(st, BodyLen(s), Kinds(s));
    s[BodyLen(s)..] != [] && Decide(c.pending, wait, c.offset, s[BodyLen(s)..], now).1
  }

  lemma ContinuedPoll(st: ReaderState, v: View, start: int, wait: real, now: real)
    returns (mid: ReaderState)
    requires Continues(st, v, start)
    ensures mid.offset == st.offset && mid.nextSeq == start && Anchored(mid)
    ensures mid.skipped == st.skipped && mid.failures == st.failures
    ensures mid.pending == st.pending || mid.pending == None
    ensures (st.lastSize.Some? ==> st.lastSize.value <= |v.file.value|) ==> mid.pending == st.pending
    ensures mid.lastSize == Some(|v.file.value|)
    ensures var r := Polled(st, v, start, wait, now);
      var (st', out, q) := ReadAll(mid, v.file.value[st.offset..], wait, now);
      r == PollResult(st', out, q, v.index)
  {
    hide ReadAll;
    var f := v.file.value;
    mid := Aligned(Resynced(st, v).0, v.file);
    var (st', out, q) := ReadAll(mid, f[st.offset..], wait, now);
    assert [] + q == q;
  }

  /** The read loop in one view: where the cursor ends, what was delivered, what was skipped. */
  lemma ReadAllFacts(st: ReaderState, s: Bytes, wait: real, now: real)
    requires Anchored(st)
    ensures var (st', out, q) := ReadAll(st, s, wait, now);
      && Anchored(st')
      && (st'.offset == st.offset + BodyLen(s) || st'.offset == st.offset + |s|)
      && (st'.offset == st.offset + BodyLen(s) ==> |q| == CountRejected(Kinds(s)))
      && (st'.offset != st.offset + BodyLen(s) ==> |q| == CountRejected(Kinds(s)) + 1)
      && out == Deliver(Kinds(s), st.nextSeq) && st'.nextSeq == NextAfter(Kinds(s), st.nextSeq)
      && st'.skipped == st.skipped + |q| && st'.lastSize == st.lastSize
  {
    var n := BodyLen(s);
    if n == 0 { BodyEmpty(s); }
    ReadKindsFacts(st, Kinds(s), n, s[n..], wait, now);
  }

  lemma ReadKindsFacts(st: ReaderState, ks: seq<LineKind>, n: nat, tip: Bytes, wait: real, now: real)
    requires n == 0 ==> ks == []
    ensures var (st', out, q) := ReadKinds(st, ks, n, tip, wait, now);
      && (Anchored(st) ==> Anchored(st'))
      && (st'.offset == st.offset + n || st'.offset == st.offset + n + |tip|)
      && (st'.offset == st.offset + n ==> |q| == CountRejected(ks))
      && (st'.offset != st.offset + n ==> |q| == CountRejected(ks) + 1)
      && out == Deliver(ks, st.nextSeq) && st'.nextSeq == NextAfter(ks, st.nextSeq)
      && st'.skipped == st.skipped + |q| && st'.lastSize == st.lastSize
  {
    RejectedCount(ks);
  }

  lemma ReadAllSkips(st: ReaderState, s: Bytes, wait: real, now: real)
    ensures var (st', out, q) := ReadAll(st, s, wait, now); st'.skipped == st.skipped + |q|
  {
    var n := BodyLen(s);
    if n == 0 { BodyEmpty(s); }
    ReadKindsFacts(st, Kinds(s), n, s[n..], wait, now);
  }

  lemma ResetSkips(st: ReaderState, file: Option<Bytes>, index: seq<IndexEntry>, start: int)
    ensures var (st', q) := ResetTo(st, file, index, start);
      st'.skipped == st.skipped + |q| && st'.nextSeq == start && Anchored(st')
  {
    AlignedFacts(st.(offset := ChooseResetOffset(st, file, start, ByteOffset(file, index, start))), file);
  }

  lemma ReadNewSkips(st: ReaderState, v: View, wait: real, now: real)
    ensures var r := ReadNew(st, v, wait, now); r.state.skipped == st.skipped + |r.quarantined|
  {
    if v.file.Some? {
      ResyncFacts(st, v);
      var st2 := Aligned(Resynced(st, v).0, v.file);
      ReadAllSkips(st2, Unread(v.file.value, st2.offset), wait, now);
    }
  }

  lemma ResyncFacts(st: ReaderState, v: View)
    ensures var (st1, q, _) := Resynced(st, v);
      && st1.skipped == st.skipped + |q| && Aligned(st1, v.file).skipped == st1.skipped
      && st1.nextSeq == st.nextSeq && Aligned(st1, v.file).nextSeq == st1.nextSeq
      && (Anchored(st) ==> Anchored(st1) && Anchored(Aligned(st1, v.file)))
  {
    var size := |Text(v.file)|;
    var (st1, q, _) := Resynced(st, v);
    if st.offset > size {
      ResetSkips(st, v.file, DiskIndex(v), st.nextSeq);
    } else if st.lastSize.Some? && size < st.lastSize.value {
      AlignedFacts(st.(pending := None), v.file);
    }
    AlignedFacts(st1, v.file);
  }

  lemma AlignedFacts(st: ReaderState, file: Option<Bytes>)
    ensures var st' := Aligned(st, file);
      st'.skipped == st.skipped && st'.nextSeq == st.nextSeq && (Anchored(st) ==> Anchored(st'))
  {
  }

  /** Every poll, whatever it finds, delivers the records due among some lines and anchors the cursor. */
  lemma PollDelivers(st: ReaderState, v: View, start: int, wait: real, now: real) returns (ks: seq<LineKind>)
    requires Anchored(st)
    ensures var r := Polled(st, v, start, wait, now);
      && r.records == Deliver(ks, start) && r.state.nextSeq == NextAfter(ks, start)
      && Anchored(r.state)
  {
    var st1 := if start == st.nextSeq then st else ResetTo(st, v.file, v.index, start).0;
    if v.file.None? {
      ks := [];
    } else {
      ResyncFacts(st1, v);
      var st2 := Aligned(Resynced(st1, v).0, v.file);
      var s := Unread(v.file.value, st2.offset);
      ks := Kinds(s);
      ReadAllFacts(st2, s, wait, now);
    }
  }

  /** The skip counter and the quarantine file grow together, resets and skipped tips included. */
  lemma SkipCounterMatchesQuarantine(st: ReaderState, v: View, start: int, wait: real, now: real)
    ensures var r := Polled(st, v, start, wait, now); r.state.skipped == st.skipped + |r.quarantined|
  {
    if start == st.nextSeq {
      ReadNewSkips(st, v, wait, now);
    } else {
      ResetSkips(st, v.file, v.index, start);
      ReadNewSkips(ResetTo(st, v.file, v.index, start).0, v, wait, now);
    }
  }

  lemma {:induction false} RejectedCount(ks: seq<LineKind>)
    ensures |RejectedEntries(ks)| == CountRejected(ks)
  {
    if ks != [] {
      RejectedCount(ks[1..]);
    }
  }

  /** The entries are the texts of the lines `at`, in order. */
  ghost predicate AreEntriesAt(entries: seq<QuarantineEntry>, ks: seq<LineKind>, at: seq<nat>) {
    && |entries| == |at|
    && forall k :: 0 <= k < |at| ==>
      && at[k] < |ks| && Rejected(ks[at[k]])
      && entries[k] == QuarantineEntry(RejectedText(ks[at[k]]), InvalidRecord)
  }

  /** The rejected lines, all of them, once each and in order. */
  lemma {:induction false} RejectedAreQuarantined(ks: seq<LineKind>) returns (at: seq<nat>)
    ensures Selects(at, |ks|) && AreEntriesAt(RejectedEntries(ks), ks, at)
    ensures forall i :: 0 <= i < |ks| ==> (i in at <==> Rejected(ks[i]))
    decreases |ks|
  {
    hide RejectedEntries, Selects, Rejected, AreEntriesAt;
    if ks == [] {
      at := [];
      NoneRejected();
    } else {
      var n := |ks| - 1;
      var before := RejectedAreQuarantined(ks[..n]);
      SelectsSnoc(before, n, Rejected(ks[n]));
      RejectedSnoc(ks, before);
      at := if Rejected(ks[n]) then before + [n] else before;
      assert forall i :: 0 <= i < n ==> ks[..n][i] == ks[i];
    }
  }

  lemma RejectedSnoc(ks: seq<LineKind>, before: seq<nat>)
    requires ks != [] && AreEntriesAt(RejectedEntries(ks[..|ks| - 1]), ks[..|ks| - 1], before)
    ensures var n := |ks| - 1;
      AreEntriesAt(RejectedEntries(ks), ks, if Rejected(ks[n]) then before + [n] else before)
  {
    hide RejectedEntries, AreEntriesAt, Rejected;
    var n := |ks| - 1;
    assert ks == ks[..n] + [ks[n]];
    RejectedConcat(ks[..n], [ks[n]]);
    OneLine(ks[n], 0, 0);
    EntriesSnoc(RejectedEntries(ks[..n]), ks[..n], before, ks[n]);
    assert RejectedEntries(ks[..n]) + [] == RejectedEntries(ks[..n]);
  }

  lemma EntriesSnoc(entries: seq<QuarantineEntry>, ks: seq<LineKind>, at: seq<nat>, k: LineKind)
    requires AreEntriesAt(entries, ks, at)
    ensures AreEntriesAt(entries, ks + [k], at)
    ensures Rejected(k) ==>
      AreEntriesAt(entries + [QuarantineEntry(RejectedText(k), InvalidRecord)], ks + [k], at + [|ks|])
  {
  }

  lemma NoneRejected()
    ensures Selects([], 0) && AreEntriesAt(RejectedEntries([]), [], [])
  {
  }

  lemma {:induction false} RejectedConcat(a: seq<LineKind>, b: seq<LineKind>)
    ensures RejectedEntries(a + b) == RejectedEntries(a) + RejectedEntries(b)
  {
    if a == [] {
      assert a + b == b;
    } else {
      assert (a + b)[1..] == a[1..] + b;
      RejectedConcat(a[1..], b);
    }
  }

  /** What a skipped tip leaves in the quarantine file. */
  function SkippedTip(tip: Bytes, skipped: bool): (q: seq<QuarantineEntry>) {
    if skipped then [QuarantineEntry(tip, SkipReason(tip))] else []
  }

  /**
   Accounting of a continued poll. The bytes it consumes are complete lines and at most one skipped tip,
   and the cursor stays inside the file. Of the lines, `delivered` are handed over: exactly those with a
   record at or above `start` and above every record before it; the other records are stale. The lines
   `rejected`, exactly those neither blank nor a record, are quarantined in order, then the skipped tip.
   */
  lemma PollAccounting(st: ReaderState, v: View, start: int, wait: real, now: real)
    returns (delivered: seq<nat>, rejected: seq<nat>)
    requires Continues(st, v, start)
    ensures var f := v.file.value;
      var s := f[st.offset..];
      var r := Polled(st, v, start, wait, now);
      (r.state.offset == st.offset + BodyLen(s) || r.state.offset == |f|) && r.state.offset <= |f|
    ensures var ks := Kinds(v.file.value[st.offset..]);
      var r := Polled(st, v, start, wait, now);
      && Selects(delivered, |ks|) && AreRecordsAt(r.records, ks, delivered)
      && (forall i :: 0 <= i < |ks| ==> (i in delivered <==> IsDue(ks, i, start)))
      && |ks| == CountBlank(ks) + CountRejected(ks) + |r.records| + CountStale(ks, start)
    ensures var s := v.file.value[st.offset..];
      var ks, n := Kinds(s), BodyLen(s);
      var r := Polled(st, v, start, wait, now);
      var rest := SkippedTip(s[n..], r.state.offset != st.offset + n);
      && Selects(rejected, |ks|) && (forall i :: 0 <= i < |ks| ==> (i in rejected <==> Rejected(ks[i])))
      && |r.quarantined| == |rejected| + |rest|
      && AreEntriesAt(r.quarantined[..|rejected|], ks, rejected) && r.quarantined[|rejected|..] == rest
  {
    var s := v.file.value[st.offset..];
    var mid := ContinuedPoll(st, v, start, wait, now);
    hide Polled, Kinds, BodyLen, Deliver, NextAfter, IsDue, Rejected, SkippedTip;
    LineCount(Kinds(s));
    DeliveredOrStale(Kinds(s), start);
    delivered := DeliveredAreTheDue(Kinds(s), start);
    rejected := RejectedAreQuarantined(Kinds(s));
    ReadAllFacts(mid, s, wait, now);
    ReadAllQuarantines(mid, s, wait, now);
  }

  lemma ReadAllQuarantines(st: ReaderState, s: Bytes, wait: real, now: real)
    ensures var (st', out, q) := ReadAll(st, s, wait, now);
      q == RejectedEntries(Kinds(s)) + SkippedTip(s[BodyLen(s)..], st'.offset != st.offset + BodyLen(s))
  {
    hide Kinds, RejectedEntries, Decide;
  }

  lemma {:induction false} StreakSinceLastRecord(ks: seq<LineKind>, failures: nat, last: nat)
    requires last <= |ks| && (last > 0 ==> RecordOf(ks[last - 1]).Some?)
    requires forall i :: last <= i < |ks| ==> RecordOf(ks[i]).None?
    ensures Streak(ks, failures) == CountRejected(ks[last..]) + if last == 0 then failures else 0
    decreases |ks|
  {
    if ks != [] {
      var tail, n := ks[1..], if RecordOf(ks[0]).Some? then 0 else if Rejected(ks[0]) then failures + 1 else failures;
      assert forall i :: 0 <= i < |tail| ==> tail[i] == ks[i + 1];
      if last > 0 {
        StreakSinceLastRecord(tail, n, last - 1);
        assert ks[last..] == tail[last - 1..];
      } else {
        StreakSinceLastRecord(tail, n, 0);
        assert ks[0..] == ks && tail[0..] == tail;
      }
    }
  }

  lemma {:induction false} LastRecord(ks: seq<LineKind>) returns (last: nat)
    ensures last <= |ks| && (last > 0 ==> RecordOf(ks[last - 1]).Some?)
    ensures forall i :: last <= i < |ks| ==> RecordOf(ks[i]).None?
    decreases |ks|
  {
    if ks == [] || RecordOf(ks[|ks| - 1]).Some? {
      last := |ks|;
    } else {
      last := LastRecord(ks[..|ks| - 1]);
    }
  }

  /**
   The failure count after a continued poll: the lines rejected since the last record read, on top of the old count if
   none was read, and the tip if it was skipped.
   */
  lemma FailuresSinceLastRecord(st: ReaderState, v: View, start: int, wait: real, now: real) returns (last: nat)
    requires Continues(st, v, start)
    ensures var ks := Kinds(v.file.value[st.offset..]);
      && last <= |ks| && (last > 0 ==> RecordOf(ks[last - 1]).Some?)
      && forall i :: last <= i < |ks| ==> RecordOf(ks[i]).None?
    ensures var s := v.file.value[st.offset..];
      var r := Polled(st, v, start, wait, now);
      var skipped := r.state.offset != st.offset + BodyLen(s);
      r.state.failures ==
        CountRejected(Kinds(s)[last..]) + (if last == 0 then st.failures else 0) + (if skipped then 1 else 0)
  {
    hide Polled, Kinds, BodyLen, Streak, CountRejected;
    var s := v.file.value[st.offset..];
    var mid := ContinuedPoll(st, v, start, wait, now);
    last := LastRecord(Kinds(s));
    StreakSinceLastRecord(Kinds(s), st.failures, last);
    ReadAllFailures(mid, s, wait, now);
  }

  lemma ReadAllFailures(st: ReaderState, s: Bytes, wait: real, now: real)
    ensures var st' := ReadAll(st, s, wait, now).0;
      st'.failures == Streak(Kinds(s), st.failures) + if st'.offset != st.offset + BodyLen(s) then 1 else 0
  {
    hide Kinds, Decide, BodyLen;
    if BodyLen(s) == 0 { BodyEmpty(s); }
  }

  /** A journal that is not there yet is no reason to forget anything. */
  lemma MissingFileIsWaitedFor(st: ReaderState, v: View, wait: real, now: real)
    requires v.file.None?
    ensures Polled(st, v, st.nextSeq, wait, now) == PollResult(st, [], [], v.index)
  {
  }

  // ---------- runs over arbitrary files ----------

  /** Between two steps anything may happen to the file, the index and the meta file. */
  datatype ReaderStep = PollAt(v: View, now: real) | RebindAt(v: View)

  ghost function Stepped(st: ReaderState, e: ReaderStep, wait: real): (r: (ReaderState, seq<JournalRecord>)) {
    match e
    case PollAt(v, now) => var r := Polled(st, v, st.nextSeq, wait, now); (r.state, r.records)
    case RebindAt(v) => (Rebound(st, v.file, v.index, st.nextSeq).0, [])
  }

  ghost function Emitted(st: ReaderState, steps: seq<ReaderStep>, wait: real): (rs: seq<JournalRecord>)
    decreases |steps|
  {
    if steps == [] then []
    else
      var (st', out) := Stepped(st, steps[0], wait);
      out + Emitted(st', steps[1..], wait)
  }

  lemma StepEmits(st: ReaderState, e: ReaderStep, wait: real)
    requires Anchored(st)
    ensures var (st', out) := Stepped(st, e, wait);
      && Anchored(st') && StrictlyIncreasing(out) && st'.nextSeq >= st.nextSeq
      && forall i :: 0 <= i < |out| ==> st.nextSeq <= out[i].seqNo < st'.nextSeq
  {
    if e.PollAt? {
      PollEmits(st, e.v, wait, e.now);
    }
  }

  lemma PollEmits(st: ReaderState, v: View, wait: real, now: real)
    requires Anchored(st)
    ensures var r := Polled(st, v, st.nextSeq, wait, now);
      && Anchored(r.state) && StrictlyIncreasing(r.records) && r.state.nextSeq >= st.nextSeq
      && forall i :: 0 <= i < |r.records| ==> st.nextSeq <= r.records[i].seqNo < r.state.nextSeq
  {
    hide Polled, Deliver, NextAfter;
    var ks := PollDelivers(st, v, st.nextSeq, wait, now);
    DeliverIncreasing(ks, st.nextSeq);
    DeliverAbove(ks, st.nextSeq);
    DeliverNext(ks, st.nextSeq);
  }

  /** Whatever rewrites, shrinks, poison or torn lines the file suffers, no seq is emitted twice or out of order. */
  lemma {:induction false} EmittedIncreasing(st: ReaderState, steps: seq<ReaderStep>, wait: real)
    requires Anchored(st)
    ensures StrictlyIncreasing(Emitted(st, steps, wait))
    ensures forall i :: 0 <= i < |Emitted(st, steps, wait)| ==> Emitted(st, steps, wait)[i].seqNo >= st.nextSeq
    decreases |steps|
  {
    if steps != [] {
      StepEmits(st, steps[0], wait);
      var (st', out) := Stepped(st, steps[0], wait);
      EmittedIncreasing(st', steps[1..], wait);
    }
  }

  // ---------- incremental reading equals batch reading ----------

  /** A poll that finds this file; the index and the meta file may be anything. */
  datatype Growth = Growth(file: Bytes, index: seq<IndexEntry>, meta: MetaFile, now: real) {
    function Seen(): View {
      View(Some(file), index, meta)
    }
  }

  /** Each poll finds the file the one before it found, or a longer one. */
  ghost predicate GrowingFrom(f: Bytes, polls: seq<Growth>)
    decreases |polls|
  {
    polls == [] || (f <= polls[0].file && GrowingFrom(polls[0].file, polls[1..]))
  }

  function FinalFile(f: Bytes, polls: seq<Growth>): (g: Bytes) {
    if polls == [] then f else polls[|polls| - 1].file
  }

  /** The reader has read the complete part of `f`, delivering what a consumer at seq 1 is due. */
  ghost predicate CaughtUp(st: ReaderState, f: Bytes) {
    && Anchored(st)
    && st.offset == BodyLen(f)
    && st.nextSeq == NextAfter(Kinds(f), 1)
    && (st.lastSize.Some? ==> st.lastSize.value <= |f|)
  }

  /** No poll of the run gives up on a torn tip. */
  ghost predicate NoTipSkipped(st: ReaderState, polls: seq<Growth>, wait: real)
    decreases |polls|
  {
    polls == [] ||
    (st.offset <= |polls[0].file| &&
     !TornTipSkipped(st, polls[0].file, wait, polls[0].now) &&
     NoTipSkipped(Polled(st, polls[0].Seen(), st.nextSeq, wait, polls[0].now).state, polls[1..], wait))
  }

  function Collected(st: ReaderState, polls: seq<Growth>, wait: real): (rs: seq<JournalRecord>)
    decreases |polls|
  {
    if polls == [] then []
    else
      var r := Polled(st, polls[0].Seen(), st.nextSeq, wait, polls[0].now);
      r.records + Collected(r.state, polls[1..], wait)
  }

  /** The complete part of a grown file is the complete part it had, and what follows it. */
  lemma GrownKinds(f: Bytes, g: Bytes)
    requires f <= g
    ensures BodyLen(f) <= |g|
    ensures Kinds(g) == Kinds(f) + Kinds(g[BodyLen(f)..])
    ensures BodyLen(g) == BodyLen(f) + BodyLen(g[BodyLen(f)..])
  {
    var n := BodyLen(f);
    var body, rest := f[..n], g[n..];
    assert g[..n] == body;
    assert g == body + rest;
    KindsConcat(body, rest);
    KindsOfBody(f);
    BodyLenConcat(body, rest);
  }

  lemma BodyLenConcat(a: Bytes, b: Bytes)
    requires Terminated(a)
    ensures BodyLen(a + b) == |a| + BodyLen(b)
    ensures (a + b)[|a| + BodyLen(b)..] == b[BodyLen(b)..]
  {
    var m := BodyLen(b);
    assert (a + b)[..|a| + m] == a + b[..m];
    assert (a + b)[|a| + m..] == b[m..];
    TerminatedConcat(a, b[..m]);
    BodyLenUnique(a + b, |a| + m);
  }

  lemma GrowthPoll(st: ReaderState, f: Bytes, p: Growth, wait: real)
    requires CaughtUp(st, f) && f <= p.file
    requires st.offset <= |p.file| && !TornTipSkipped(st, p.file, wait, p.now)
    ensures var r := Polled(st, p.Seen(), st.nextSeq, wait, p.now);
      CaughtUp(r.state, p.file) && Deliver(Kinds(p.file), 1) == Deliver(Kinds(f), 1) + r.records
  {
    GrownKinds(f, p.file);
    var s := p.file[st.offset..];
    DeliverConcat(Kinds(f), Kinds(s), 1);
    var mid := ContinuedPoll(st, p.Seen(), st.nextSeq, wait, p.now);
    ReadAllFacts(mid, s, wait, p.now);
    TipKept(st, mid, s, wait, p.now);
  }

  /** A tip that is not given up leaves the cursor at the end of the complete lines. */
  lemma TipKept(st: ReaderState, mid: ReaderState, s: Bytes, wait: real, now: real)
    requires mid.offset == st.offset && mid.pending == st.pending
    requires var c := Consumed(st, BodyLen(s), Kinds(s));
      s[BodyLen(s)..] == [] || !Decide(c.pending, wait, c.offset, s[BodyLen(s)..], now).1
    ensures ReadAll(mid, s, wait, now).0.offset == st.offset + BodyLen(s)
  {
  }

  lemma {:induction false} CollectedFrom(st: ReaderState, f: Bytes, polls: seq<Growth>, wait: real)
    requires CaughtUp(st, f) && GrowingFrom(f, polls) && NoTipSkipped(st, polls, wait)
    ensures Deliver(Kinds(f), 1) + Collected(st, polls, wait) == Deliver(Kinds(FinalFile(f, polls)), 1)
    decreases |polls|
  {
    hide Polled, Kinds, Deliver, TornTipSkipped, CaughtUp;
    if polls == [] {
      assert Deliver(Kinds(f), 1) + [] == Deliver(Kinds(f), 1);
    } else {
      var g := polls[0].file;
      GrowthPoll(st, f, polls[0], wait);
      var r := Polled(st, polls[0].Seen(), st.nextSeq, wait, polls[0].now);
      CollectedFrom(r.state, g, polls[1..], wait);
      Associative(Deliver(Kinds(f), 1), r.records, Collected(r.state, polls[1..], wait));
    }
  }

  /**
   However the bytes arrive and whenever a fresh reader polls, as long as no torn tip is given up, the
   polls together deliver what one pass over the final file delivers: on a well-formed file, every
   record from seq 1 on, once and in order.
   */
  lemma IncrementalEqualsBatch(polls: seq<Growth>, wait: real)
    requires GrowingFrom([], polls) && NoTipSkipped(FRESH, polls, wait)
    ensures var g := FinalFile([], polls);
      && Collected(FRESH, polls, wait) == Deliver(Kinds(g), 1)
      && (Increasing(Kinds(g)) ==> Collected(FRESH, polls, wait) == From(Records(Kinds(g)), 1))
  {
    var g := FinalFile([], polls);
    assert Lines([]) == [];
    CollectedFrom(FRESH, [], polls, wait);
    assert [] + Collected(FRESH, polls, wait) == Collected(FRESH, polls, wait);
    if Increasing(Kinds(g)) {
      DeliverIsFilter(Kinds(g), 1);
    }
  }

  /** A record caught in the middle of being written always looks in progress, so only the wait limit can skip it. */
  lemma TornWriteIsWaitedFor(r: JournalRecord, n: nat, pending: Option<Pending>, wait: real, offset: nat, now: real)
    requires 0 < n < |RecordLine(r)|
    ensures IsInProgress(RecordLine(r)[..n])
    ensures Decide(pending, wait, offset, RecordLine(r)[..n], now).1 ==>
      pending.Some? && pending.value.offset == offset && pending.value.length == n && now - pending.value.since >= wait
  {
    DumpShape(RecordObject(r.seqNo, TickToBody(r.tick)));
    var tip := RecordLine(r)[..n];
    assert tip[0] == OPEN_BRACE;
    assert LStrip(tip) == tip;
  }

  // ---------- resets ----------

  /**
   Resetting to the seq the reader already stands at never moves the cursor back, nor leaves it behind the place the
   index gives; without a torn tip there it goes to the later of the two.
   */
  lemma StickyReset(st: ReaderState, f: Bytes, index: seq<IndexEntry>, start: int)
    requires Anchored(st) && start == st.nextSeq && st.offset <= |f|
    ensures var o, p := ResetTo(st, Some(f), index, start).0.offset, ByteOffset(Some(f), index, start);
      && o >= st.offset && o >= p
      && (Terminated(f) ==> o == if p >= st.offset then p else st.offset)
  {
    var p := ByteOffset(Some(f), index, start);
    var placed := if p >= st.offset then p else st.offset;
    assert placed <= |f| && ChooseResetOffset(st, Some(f), start, p) == placed;
    ResolvedIsBol(f, index, start);
    var o := ResetPassesTip(st, f, index, start);
    assert o == placed;
    if Terminated(f) && placed < |f| {
      TerminatedSuffix(f, placed);
      TerminatedHasLine(f[placed..]);
      HasLineIffNewline(f[placed..]);
    }
  }

  /** Whatever the index holds, it never leads into the middle of a line. */
  lemma ResolvedIsBol(f: Bytes, index: seq<IndexEntry>, start: int)
    ensures var p := ByteOffset(Some(f), index, start); p <= |f| && AlignTo(f, p) == p
  {
    hide AlignTo, ScanLen, Hint;
    var hint := Hint(index, start);
    var o := if hint > |f| then 0 else hint;
    AlignedIsAligned(f, o);
    ScanKeepsBol(f, AlignTo(f, o), start);
    StartIsBol(f);
  }

  lemma StartIsBol(f: Bytes)
    ensures AlignTo(f, 0) == 0
  {
  }

  lemma ScanKeepsBol(f: Bytes, a: nat, start: int)
    requires a <= |f| && AlignTo(f, a) == a
    ensures var p := a + ScanLen(f[a..], start); p <= |f| && AlignTo(f, p) == p
  {
    var s := f[a..];
    ScanFindsTarget(s, start);
    hide ScanLen, Kinds, AllBelow;
    var n := ScanLen(s, start);
    assert n > 0 ==> s[..n][n - 1] == f[a + n - 1];
  }

  lemma AlignedIsAligned(f: Bytes, o: nat)
    requires o <= |f|
    ensures AlignTo(f, AlignTo(f, o)) == AlignTo(f, o)
  {
    var p := AlignTo(f, o);
    if p != o {
      var n := LineLen(f[o..]);
      assert p == o + n;
      assert f[o..][n - 1] == f[p - 1];
      if f[p - 1] != NEWLINE { assert p == |f|; assert f[p..] == []; }
    }
  }

  // ---------- alignment ----------

  /**
   An offset that is not trusted moves on to the next line start, or to the end of the file when no newline follows;
   only the rest of one line is passed. One past the end moves back to it. A trusted one stays where it is.
   */
  lemma AlignmentFindsALineStart(st: ReaderState, f: Bytes)
    requires st.offset <= |f| || !Anchored(st)
    ensures st.offset > |f| ==> Aligned(st, Some(f)).offset == |f|
    ensures st.offset <= |f| ==>
      var o := Aligned(st, Some(f)).offset;
      && st.offset <= o <= |f|
      && (forall i :: st.offset <= i < o - 1 ==> f[i] != NEWLINE)
      && (Anchored(st) ==> o == st.offset)
      && (!Anchored(st) ==> Terminated(f[..o]) || o == |f|)
      && (Terminated(f[..st.offset]) ==> o == st.offset)
      && (o != st.offset ==> Aligned(st, Some(f)).pending == None && Anchored(Aligned(st, Some(f))))
  {
    if st.offset <= |f| {
      var s := f[st.offset..];
      var n := LineLen(s);
      assert st.offset > 0 ==> f[..st.offset][st.offset - 1] == f[st.offset - 1];
      assert forall i :: st.offset <= i < |f| ==> f[i] == s[i - st.offset];
      var o := Aligned(st, Some(f)).offset;
      assert o > 0 ==> f[..o][o - 1] == f[o - 1];
    }
  }

  /** A cursor standing at a line start where the scan for `start` ends has skipped nothing that is due. */
  lemma DueAfterScan(f: Bytes, start: int)
    ensures var p := ScanLen(f, start);
      && Deliver(Kinds(f[p..]), start) == Deliver(Kinds(f), start)
      && NextAfter(Kinds(f[p..]), start) == NextAfter(Kinds(f), start)
  {
    hide ScanLen, Kinds, Deliver, NextAfter, AllBelow, AtTarget;
    var p := ScanLen(f, start);
    ScanFindsTarget(f, start);
    assert f == f[..p] + f[p..];
    KindsConcat(f[..p], f[p..]);
    DeliverBelow(Kinds(f[..p]), start);
    DeliverConcat(Kinds(f[..p]), Kinds(f[p..]), start);
  }

  lemma ScanIsBol(f: Bytes, start: int)
    ensures AlignTo(f, ScanLen(f, start)) == ScanLen(f, start)
  {
    assert f[0..] == f;
    ScanKeepsBol(f, 0, start);
  }

  /**
   A reset that is not sticky (another seq, or a cursor past the end of the file) on a journal with a
   sound index: what is left to read delivers everything due from `start`.
   */
  lemma ResetDelivers(st: ReaderState, f: Bytes, index: seq<IndexEntry>, start: int)
    requires IndexSound(f, index) && (start != st.nextSeq || st.offset > |f|)
    ensures var st' := ResetTo(st, Some(f), index, start).0;
      && Anchored(st') && st'.offset <= |f| && st'.nextSeq == start && st'.lastSize == st.lastSize
      && Deliver(Kinds(f[st'.offset..]), start) == Deliver(Kinds(f), start)
      && NextAfter(Kinds(f[st'.offset..]), start) == NextAfter(Kinds(f), start)
  {
    var p := ByteOffset(Some(f), index, start);
    IndexRefinesScan(f, index, start);
    PlacedAtScan(f, p, start);
    var st1 := st.(offset := p);
    assert ChooseResetOffset(st, Some(f), start, p) == p;
    SettledAtLine(st1, f, start);
  }

  /** A rebind with a sound index, wherever the cursor stood and however it was trusted. */
  lemma RebindDelivers(st: ReaderState, f: Bytes, index: seq<IndexEntry>, start: int)
    requires IndexSound(f, index)
    ensures var st' := Rebound(st, Some(f), index, start).0;
      && Anchored(st') && st'.offset <= |f| && st'.nextSeq == start && st'.lastSize == st.lastSize
      && Deliver(Kinds(f[st'.offset..]), start) == Deliver(Kinds(f), start)
      && NextAfter(Kinds(f[st'.offset..]), start) == NextAfter(Kinds(f), start)
  {
    var p := ByteOffset(Some(f), index, start);
    IndexRefinesScan(f, index, start);
    PlacedAtScan(f, p, start);
    SettledAtLine(st.(offset := p, pending := None, logicalBol := None, resyncLogged := false), f, start);
  }

  /** Where a sound index sends a reset: a line start, with nothing due before it. */
  lemma PlacedAtScan(f: Bytes, p: nat, start: int)
    requires p == if start <= 1 then 0 else ScanLen(f, start)
    ensures p <= |f| && AlignTo(f, p) == p
    ensures Deliver(Kinds(f[p..]), start) == Deliver(Kinds(f), start)
    ensures NextAfter(Kinds(f[p..]), start) == NextAfter(Kinds(f), start)
  {
    assert f[0..] == f;
    DueAfterScan(f, start);
    ScanIsBol(f, start);
  }

  /** Settling at a line start skips at most a torn tip, which holds no line. */
  lemma SettledAtLine(st: ReaderState, f: Bytes, start: int)
    requires st.offset <= |f| && AlignTo(f, st.offset) == st.offset
    ensures var st' := Settled(st, Some(f), start).0;
      && Anchored(st') && st'.offset <= |f| && st'.nextSeq == start && st'.lastSize == st.lastSize
      && Kinds(f[st'.offset..]) == Kinds(f[st.offset..])
  {
    var s := f[st.offset..];
    assert Unread(f, st.offset) == s;
    if s != [] && !HasLine(s) {
      HasLineIffNewline(s);
      KindsTorn(s);
      assert f[|f|..] == [];
      KindsTorn([]);
    }
  }

  /**
   The meta file holds an index that is sound for the journal. A missing one stands for the index of an empty
   journal, and while it cannot be read the reader is left with the index it has.
   */
  ghost predicate SharedIndexSound(v: View, f: Bytes) {
    match v.meta
    case Missing => true
    case Corrupt => IndexSound(f, v.index)
    case Stored(doc) => IndexSound(f, doc.index)
  }

  /** Whatever index a reader held before, the one it reloads is the shared one. */
  lemma ReloadedIndexSound(v: View, f: Bytes)
    requires SharedIndexSound(v, f)
    ensures IndexSound(f, DiskIndex(v))
    ensures v.meta.Stored? ==> DiskIndex(v) == v.meta.doc.index
  {
    ZeroEntrySound(f, 0);
  }

  // ---------- a torn tip under a placed cursor ----------

  /** Bytes are left behind `o`, and they hold no complete line. */
  predicate TipAt(f: Bytes, o: nat)
    requires o <= |f|
  {
    o < |f| && !HasNewline(f[o..])
  }

  /** The cursor ends behind a tip it was placed in front of, which goes to quarantine, once and whole. */
  ghost predicate PassesTip(st: ReaderState, st': ReaderState, q: seq<QuarantineEntry>, f: Bytes, o: nat) {
    && o <= |f|
    && q == (if TipAt(f, o) then [QuarantineEntry(f[o..], IncompleteColdAttach)] else [])
    && st'.offset == (if TipAt(f, o) then |f| else o)
    && st'.skipped == st.skipped + |q|
    && st'.pending == None && st'.failures == 0 && Anchored(st')
  }

  lemma SettledPassesTip(st: ReaderState, f: Bytes, start: int)
    requires st.offset <= |f|
    ensures var (st', q) := Settled(st, Some(f), start);
      && PassesTip(st, st', q, f, Aligned(st, Some(f)).offset)
      && (st'.offset == |f| || HasNewline(f[st'.offset..]))
  {
    hide HasLine, HasNewline;
    var o := Aligned(st, Some(f)).offset;
    HasLineIffNewline(f[o..]);
  }

  /**
   A reset leaves no torn tip under the cursor, whatever the state, the file and the index: what is left to
   read is nothing or holds a complete line, and a tip the cursor was placed in front of is quarantined.
   */
  lemma ResetPassesTip(st: ReaderState, f: Bytes, index: seq<IndexEntry>, start: int) returns (o: nat)
    ensures var placed := ChooseResetOffset(st, Some(f), start, ByteOffset(Some(f), index, start));
      placed <= |f| && o == Aligned(st.(offset := placed), Some(f)).offset
    ensures var (st', q) := ResetTo(st, Some(f), index, start);
      && PassesTip(st, st', q, f, o)
      && (st'.offset == |f| || HasNewline(f[st'.offset..]))
  {
    var placed := ChooseResetOffset(st, Some(f), start, ByteOffset(Some(f), index, start));
    o := Aligned(st.(offset := placed), Some(f)).offset;
    hide Settled, Aligned, ByteOffset, HasNewline;
    SettledPassesTip(st.(offset := placed), f, start);
  }

  /** The same for a rebind. */
  lemma RebindPassesTip(st: ReaderState, f: Bytes, index: seq<IndexEntry>, start: int) returns (o: nat)
    ensures o == AlignTo(f, ReboundOffset(Some(f), index, start))
    ensures var (st', q) := Rebound(st, Some(f), index, start);
      && PassesTip(st, st', q, f, o)
      && (st'.offset == |f| || HasNewline(f[st'.offset..]))
  {
    var placed := ReboundOffset(Some(f), index, start);
    var st0 := st.(offset := placed, pending := None, logicalBol := None, resyncLogged := false);
    o := Aligned(st0, Some(f)).offset;
    hide Settled, ByteOffset, HasNewline;
    SettledPassesTip(st0, f, start);
  }

  /** With a sound index, a scan for a seq above all lines ends in front of the tip. */
  lemma ScanEndsAtTip(f: Bytes, start: int)
    requires AllBelow(Kinds(f), start)
    ensures ScanLen(f, start) == BodyLen(f)
  {
    var n := BodyLen(f);
    assert f == f[..n] + f[n..];
    KindsOfBody(f);
    ScanSkips(f[..n], f[n..], start);
    HasLineIffNewline(f[n..]);
  }

  /**
   Cold attach. A poll from a seq above everything in the complete lines, on a journal that ends in a torn tip,
   delivers nothing and waits for nothing: the tip is quarantined at once and the cursor stands at the end.
   */
  lemma ColdAttachPassesTip(st: ReaderState, v: View, start: int, wait: real, now: real)
    requires v.file.Some? && start != st.nextSeq && start > 1
    requires var f := v.file.value; IndexSound(f, v.index) && AllBelow(Kinds(f), start) && !Terminated(f)
    ensures var f := v.file.value;
      var r := Polled(st, v, start, wait, now);
      && r.records == [] && r.quarantined == [QuarantineEntry(f[BodyLen(f)..], IncompleteColdAttach)]
      && r.state.offset == |f| && r.state.pending == None && r.state.nextSeq == start
  {
    var f := v.file.value;
    var n := BodyLen(f);
    assert f[..|f|] == f;
    IndexRefinesScan(f, v.index, start);
    ScanEndsAtTip(f, start);
    ScanIsBol(f, start);
    var o := ResetPassesTip(st, f, v.index, start);
    assert o == n && TipAt(f, n);
    var (st1, q1) := ResetTo(st, v.file, v.index, start);
    NothingBehind(st1, v, wait, now);
    assert q1 + [] == q1;
  }

  lemma NothingBehind(st: ReaderState, v: View, wait: real, now: real)
    requires Anchored(st) && v.file.Some? && st.offset == |v.file.value| && st.pending == None
    ensures var r := ReadNew(st, v, wait, now);
      && r.records == [] && r.quarantined == []
      && r.state.offset == st.offset && r.state.pending == None && r.state.nextSeq == st.nextSeq
  {
    var f := v.file.value;
    var mid := ContinuedPoll(st, v, st.nextSeq, wait, now);
    assert f[|f|..] == [];
    NoLinesLeft(mid, [], wait, now);
  }

  // ---------- polls that reposition the cursor ----------

  /** A poll at another seq, or past the end of a rewritten file, delivers everything due from `start`. */
  lemma RepositionedPoll(st: ReaderState, v: View, start: int, wait: real, now: real)
    requires Anchored(st) && v.file.Some?
    requires
      if start != st.nextSeq then IndexSound(v.file.value, v.index)
      else st.offset > |v.file.value| && SharedIndexSound(v, v.file.value)
    ensures var r := Polled(st, v, start, wait, now);
      && r.records == Deliver(Kinds(v.file.value), start)
      && r.state.nextSeq == NextAfter(Kinds(v.file.value), start)
      && (start != st.nextSeq ==> r.index == v.index)
      && (start == st.nextSeq && v.meta.Stored? ==> r.index == v.meta.doc.index)
      && Anchored(r.state) && r.state.offset <= |v.file.value|
      && (Terminated(v.file.value) ==> r.state.offset == |v.file.value|)
  {
    var f := v.file.value;
    if start == st.nextSeq {
      ReloadedIndexSound(v, f);
    }
    if start != st.nextSeq {
      ResetDelivers(st, f, v.index, start);
      var st1 := ResetTo(st, v.file, v.index, start).0;
      var mid := ContinuedPoll(st1, v, start, wait, now);
      ReadToEnd(mid, f, wait, now);
    } else {
      ResetDelivers(st, f, DiskIndex(v), start);
      var st1 := ResetTo(st, v.file, DiskIndex(v), start).0;
      var mid := st1.(resyncLogged := true, lastSize := Some(|f|));
      assert Aligned(Resynced(st, v).0, v.file) == mid.(logicalBol := Some(mid.offset));
      ReadToEnd(mid, f, wait, now);
    }
  }

  lemma ReadToEnd(st: ReaderState, f: Bytes, wait: real, now: real)
    requires Anchored(st) && st.offset <= |f|
    ensures var s := f[st.offset..];
      var (st', out, q) := ReadAll(st, s, wait, now);
      && out == Deliver(Kinds(s), st.nextSeq) && st'.nextSeq == NextAfter(Kinds(s), st.nextSeq)
      && Anchored(st') && st'.offset <= |f|
      && (Terminated(f) ==> st'.offset == |f|)
  {
    var s := f[st.offset..];
    ReadAllFacts(st, s, wait, now);
    if Terminated(f) {
      TerminatedSuffix(f, st.offset);
      assert s[..|s|] == s && s[|s|..] == [];
      BodyLenUnique(s, |s|);
    }
  }

  // ---------- compaction under a live reader ----------

  /** On a well-formed journal a consumer at or above the watermark is due the same records after compaction. */
  lemma CompactionInvisible(f: Bytes, k: int, next: int)
    requires Terminated(f) && k <= next
    ensures Deliver(Kinds(Compacted(f, k)), next) == Deliver(Kinds(f), next)
    ensures NextAfter(Kinds(Compacted(f, k)), next) == NextAfter(Kinds(f), next)
  {
    if k > 1 {
      CompactionKeepsRecords(f, k);
      DeliverIgnoresPrefix(Kinds(f), Kinds(Compacted(f, k)), k, next);
    }
  }

  /**
   A live reader that a compaction has left past the end of the file resyncs at its next poll: whatever
   index it held, with the rebuilt index in the meta file it delivers exactly the records it was still due,
   none lost, none repeated, and stands at the end of the new file.
   */
  lemma ResyncAfterCompaction(st: ReaderState, f: Bytes, k: int, v: View, wait: real, now: real)
    requires Terminated(f) && Increasing(Kinds(f)) && k <= st.nextSeq
    requires Anchored(st) && v.file == Some(Compacted(f, k)) && st.offset > |Compacted(f, k)|
    requires SharedIndexSound(v, Compacted(f, k))
    ensures var r := Polled(st, v, st.nextSeq, wait, now);
      && r.records == From(Records(Kinds(f)), st.nextSeq)
      && r.state.nextSeq == NextAfter(Kinds(f), st.nextSeq)
      && r.state.offset == |Compacted(f, k)| && Anchored(r.state)
  {
    CompactionInvisible(f, k, st.nextSeq);
    if k > 1 { CompactionKeepsRecords(f, k); }
    RepositionedPoll(st, v, st.nextSeq, wait, now);
    DeliverIsFilter(Kinds(f), st.nextSeq);
  }

  /**
   The same with nothing assumed about the meta file but that the compacting process knew its tip: what that
   process publishes together with the new file is what the reader needs.
   */
  lemma ResyncAfterCompactor(st: ReaderState, f: Bytes, k: int, interval: nat, m: MetaState, file: MetaFile,
                             v: View, wait: real, now: real)
    requires Terminated(f) && Increasing(Kinds(f)) && k <= st.nextSeq && interval > 0
    requires Rewrites(f, k) && DiskTip(file) <= Max(Max(m.latest, m.highWater), 0)
    requires v.file == Some(Compacted(f, k)) && v.meta == MetaAfter(f, k, interval, m, file).1
    requires Anchored(st) && st.offset > |Compacted(f, k)|
    ensures var r := Polled(st, v, st.nextSeq, wait, now);
      && r.records == From(Records(Kinds(f)), st.nextSeq)
      && r.state.offset == |Compacted(f, k)| && Anchored(r.state)
      && r.index == RebuiltIndex(Retained(AllKinds(f), k), interval)
  {
    AllKindsTerminated(f);
    hide Polled, Kinds, From, Records, RebuiltIndex, DiskTip, Retained, Written, AllKinds;
    RetainedIncrease(AllKinds(f), k);
    RebuiltIndexSound(Retained(AllKinds(f), k), interval);
    ResyncAfterCompaction(st, f, k, v, wait, now);
    RepositionedPoll(st, v, st.nextSeq, wait, now);
  }

  /**
   A reader that a compaction has left anywhere is rebound to `next`, once its process has reloaded the index:
   whatever index and cursor it held, the next poll delivers exactly the records due from `next` on.
   */
  lemma RebindAfterCompaction(st: ReaderState, f: Bytes, k: int, v: View, next: int, later: View, wait: real, now: real)
    requires Terminated(f) && Increasing(Kinds(f)) && k <= next
    requires v.file == later.file == Some(Compacted(f, k)) && SharedIndexSound(v, Compacted(f, k))
    ensures var rd := Rebound(st, v.file, DiskIndex(v), next).0;
      var r := Polled(rd, later, next, wait, now);
      && r.records == From(Records(Kinds(f)), next)
      && r.state.nextSeq == NextAfter(Kinds(f), next)
      && r.state.offset == |Compacted(f, k)| && Anchored(r.state)
  {
    CompactionInvisible(f, k, next);
    if k > 1 { CompactionKeepsRecords(f, k); }
    ReloadedIndexSound(v, Compacted(f, k));
    RebindDelivers(st, Compacted(f, k), DiskIndex(v), next);
    var rd := Rebound(st, v.file, DiskIndex(v), next).0;
    var mid := ContinuedPoll(rd, later, next, wait, now);
    ReadToEnd(mid, Compacted(f, k), wait, now);
    DeliverIsFilter(Kinds(f), next);
  }
}
