/** Torn tips over whole runs of the reader: no early skip, and no endless wait. */
module TornTips {
  import opened Bytes
  import opened JournalLines
  import opened JournalDisk
  import opened FragmentPolicy
  import opened IncrementalReader
  import opened ReaderLaws

  ghost predicate IsRun(run: seq<ReaderState>, steps: seq<ReaderStep>, wait: real) {
    && |run| == |steps| + 1
    && run[0] == FRESH
    && forall i :: 0 <= i < |steps| ==> run[i + 1] == Stepped(run[i], steps[i], wait).0
  }

  /** The file ends in an in-progress tip of `length` bytes at `offset`. */
  predicate EndsInTip(v: View, offset: nat, length: nat) {
    && v.file.Some? && length > 0 && offset + length == |v.file.value|
    && !HasNewline(v.file.value[offset..]) && IsInProgress(v.file.value[offset..])
  }

  /** A pending tip runs from the cursor to the end of the file as it was last seen. */
  ghost predicate Tied(st: ReaderState) {
    && Anchored(st)
    && (st.pending.Some? ==>
          && st.pending.value.length > 0 && st.offset == st.pending.value.offset
          && st.lastSize == Some(st.pending.value.offset + st.pending.value.length))
  }

  // ---------- one read ----------

  /** The read loop from an anchored cursor: it ends at the end of what is there, or in front of a pending tip. */
  lemma ReadEnds(st: ReaderState, s: Bytes, wait: real, now: real)
    requires Anchored(st)
    ensures var st' := ReadAll(st, s, wait, now).0;
      var tip := s[BodyLen(s)..];
      && Anchored(st') && st'.lastSize == st.lastSize && !HasNewline(tip)
      && (st'.offset == st.offset + |s| ||
          (st'.offset == st.offset + BodyLen(s) && tip != [] && IsInProgress(tip) && st'.pending.Some?
           && st'.pending.value.offset == st'.offset && st'.pending.value.length == |tip|
           && (st'.pending.value.since == now || (BodyLen(s) == 0 && st'.pending == st.pending))))
      && (st'.pending.Some? ==> st'.offset != st.offset + |s| || (s == [] && st'.pending == st.pending))
  {
    hide Kinds;
  }

  /** An `IncompleteStale` entry is the tip under the cursor, pending since at least the wait. */
  lemma ReadSkips(st: ReaderState, s: Bytes, wait: real, now: real, entry: QuarantineEntry)
    requires Anchored(st)
    requires entry in ReadAll(st, s, wait, now).2 && entry.reason == IncompleteStale
    ensures BodyLen(s) == 0 && s != [] && entry.text == s && IsInProgress(s)
    ensures st.pending.Some? && st.pending.value.offset == st.offset && st.pending.value.length == |s|
    ensures now - st.pending.value.since >= wait
  {
    var ks, n := Kinds(s), BodyLen(s);
    OnlyInvalid(ks);
    var (_, q) := AtTip(Consumed(st, n, ks), s[n..], wait, now);
    assert entry in q;
    assert n == 0 ==> s[n..] == s;
  }

  lemma {:induction false} OnlyInvalid(ks: seq<LineKind>)
    ensures forall entry :: entry in RejectedEntries(ks) ==> entry.reason == InvalidRecord
  {
    if ks != [] {
      OnlyInvalid(ks[1..]);
    }
  }

  // ---------- one poll ----------

  /** Where a poll on an existing file starts to read: inside it, with no pending tip longer than what is left. */
  lemma PollStarts(st: ReaderState, v: View)
    requires Tied(st) && v.file.Some?
    ensures var st2 := Aligned(Resynced(st, v).0, v.file);
      && Anchored(st2) && st2.offset <= |v.file.value| && st2.lastSize == Some(|v.file.value|)
      && (st2.pending.Some? ==>
            && st2.pending == st.pending && st2.offset == st.offset
            && st.offset + st.pending.value.length <= |v.file.value|)
      && forall entry :: entry in Resynced(st, v).1 ==> entry.reason == IncompleteColdAttach
  {
    ResyncFacts(st, v);
    if st.offset > |v.file.value| {
      ResetStaysInside(st, v.file, DiskIndex(v), st.nextSeq);
    }
  }

  lemma PollIsARead(st: ReaderState, v: View, wait: real, now: real)
    requires v.file.Some?
    ensures var st2 := Aligned(Resynced(st, v).0, v.file);
      var (st', out, q) := ReadAll(st2, Unread(v.file.value, st2.offset), wait, now);
      var r := Polled(st, v, st.nextSeq, wait, now);
      r.state == st' && r.quarantined == Resynced(st, v).1 + q
  {
    hide ReadAll, Resynced, Aligned;
  }

  /** A poll keeps the tie. What it leaves pending is the tip the file ends in, pending before or from now on. */
  lemma PollKeepsTie(st: ReaderState, v: View, wait: real, now: real)
    requires Tied(st)
    ensures var st' := Polled(st, v, st.nextSeq, wait, now).state;
      && Tied(st')
      && (st'.pending.Some? ==>
            || (v.file.None? && st' == st)
            || (EndsInTip(v, st'.pending.value.offset, st'.pending.value.length)
                && (st'.pending.value.since == now || st'.pending == st.pending)))
  {
    if v.file.Some? {
      hide Resynced, Aligned, ReadAll, BodyLen, Polled, EndsInTip;
      PollStarts(st, v);
      PollIsARead(st, v, wait, now);
      ReadTies(Aligned(Resynced(st, v).0, v.file), v, wait, now);
    }
  }

  lemma ReadTies(st: ReaderState, v: View, wait: real, now: real)
    requires Anchored(st) && v.file.Some? && st.offset <= |v.file.value| && st.lastSize == Some(|v.file.value|)
    requires st.pending.Some? ==> st.pending.value.length > 0 && st.pending.value.offset == st.offset
    requires st.pending.Some? ==> st.offset + st.pending.value.length <= |v.file.value|
    ensures var st' := ReadAll(st, v.file.value[st.offset..], wait, now).0;
      && Tied(st')
      && (st'.pending.Some? ==>
            && EndsInTip(v, st'.pending.value.offset, st'.pending.value.length)
            && (st'.pending.value.since == now || st'.pending == st.pending))
  {
    hide ReadAll, BodyLen;
    var f := v.file.value;
    var s := f[st.offset..];
    ReadEnds(st, s, wait, now);
    DropDrop(f, st.offset, BodyLen(s));
  }

  /** A tip that a poll skips as stale was pending, unchanged, for at least the wait. */
  lemma PollSkips(st: ReaderState, v: View, wait: real, now: real, entry: QuarantineEntry)
    requires Tied(st)
    requires entry in Polled(st, v, st.nextSeq, wait, now).quarantined && entry.reason == IncompleteStale
    ensures st.pending.Some? && EndsInTip(v, st.pending.value.offset, st.pending.value.length)
    ensures entry.text == v.file.value[st.pending.value.offset..]
    ensures now - st.pending.value.since >= wait
  {
    hide Resynced, Aligned, ReadAll, BodyLen;
    if v.file.Some? {
      var st2 := Aligned(Resynced(st, v).0, v.file);
      PollStarts(st, v);
      PollIsARead(st, v, wait, now);
      var s := v.file.value[st2.offset..];
      ReadSkips(st2, s, wait, now, entry);
      ReadEnds(st2, s, wait, now);
      assert s[0..] == s;
    }
  }

  // ---------- no early skip ----------

  /** The step is a poll that found no file, or the file ending in the tip. */
  predicate Waits(e: ReaderStep, offset: nat, length: nat) {
    e.PollAt? && (e.v.file.None? || EndsInTip(e.v, offset, length))
  }

  lemma {:induction false} RunIsTied(run: seq<ReaderState>, steps: seq<ReaderStep>, wait: real, j: nat)
    requires IsRun(run, steps, wait) && j < |run|
    ensures Tied(run[j])
    decreases j
  {
    hide Polled;
    if j > 0 {
      RunIsTied(run, steps, wait, j - 1);
      assert run[j - 1 + 1] == Stepped(run[j - 1], steps[j - 1], wait).0;
      if steps[j - 1].PollAt? {
        PollKeepsTie(run[j - 1], steps[j - 1].v, wait, steps[j - 1].now);
      }
    }
  }

  /** A pending tip goes back to a poll that saw it, and every step since was a poll that waited for it. */
  lemma {:induction false} PendingHasAPoll(run: seq<ReaderState>, steps: seq<ReaderStep>, wait: real, j: nat)
    returns (i: nat)
    requires IsRun(run, steps, wait) && j < |run| && run[j].pending.Some?
    ensures i < j && steps[i].PollAt? && steps[i].now == run[j].pending.value.since
    ensures EndsInTip(steps[i].v, run[j].pending.value.offset, run[j].pending.value.length)
    ensures forall k :: i < k < j ==> Waits(steps[k], run[j].pending.value.offset, run[j].pending.value.length)
    decreases j
  {
    hide Polled, EndsInTip;
    RunIsTied(run, steps, wait, j - 1);
    assert run[j - 1 + 1] == Stepped(run[j - 1], steps[j - 1], wait).0;
    PollKeepsTie(run[j - 1], steps[j - 1].v, wait, if steps[j - 1].PollAt? then steps[j - 1].now else 0.0);
    assert steps[j - 1].PollAt?;
    if run[j].pending == run[j - 1].pending {
      i := PendingHasAPoll(run, steps, wait, j - 1);
    } else {
      i := j - 1;
    }
  }

  /**
   No early skip, whatever happens to the journal: a tip that a poll gives up as stale was seen by an
   earlier poll, at least the wait before, at the same offset and of the same length, and every step in
   between was a poll that saw it so, or found no file.
   */
  lemma StaleTipWasWaitedFor(run: seq<ReaderState>, steps: seq<ReaderStep>, wait: real, j: nat, entry: QuarantineEntry)
    returns (i: nat, offset: nat)
    requires IsRun(run, steps, wait) && j < |steps| && steps[j].PollAt? && entry.reason == IncompleteStale
    requires entry in Polled(run[j], steps[j].v, run[j].nextSeq, wait, steps[j].now).quarantined
    ensures i < j && steps[i].PollAt? && steps[j].now - steps[i].now >= wait
    ensures EndsInTip(steps[i].v, offset, |entry.text|) && EndsInTip(steps[j].v, offset, |entry.text|)
    ensures entry.text == steps[j].v.file.value[offset..]
    ensures forall k :: i < k < j ==> Waits(steps[k], offset, |entry.text|)
  {
    hide Polled;
    RunIsTied(run, steps, wait, j);
    PollSkips(run[j], steps[j].v, wait, steps[j].now, entry);
    i := PendingHasAPoll(run, steps, wait, j);
    offset := run[j].pending.value.offset;
  }

  // ---------- no endless wait ----------

  /** At the end of the file, or waiting for its tip since `since` or earlier. */
  ghost predicate ParkedBy(st: ReaderState, f: Bytes, since: real) {
    && Tied(st) && st.offset <= |f|
    && (st.offset < |f| ==>
          && !HasNewline(f[st.offset..]) && IsInProgress(f[st.offset..])
          && st.pending.Some? && st.pending.value.length == |f| - st.offset && st.pending.value.since <= since)
  }

  /** Any poll parks the reader in this sense. */
  lemma PollParks(st: ReaderState, v: View, wait: real, now: real)
    requires Tied(st) && v.file.Some? && (st.pending.Some? ==> st.pending.value.since <= now)
    ensures ParkedBy(Polled(st, v, st.nextSeq, wait, now).state, v.file.value, now)
  {
    hide Resynced, Aligned, ReadAll, BodyLen, Polled;
    var f := v.file.value;
    var st2 := Aligned(Resynced(st, v).0, v.file);
    PollStarts(st, v);
    PollIsARead(st, v, wait, now);
    PollKeepsTie(st, v, wait, now);
    var s := f[st2.offset..];
    ReadEnds(st2, s, wait, now);
    assert f[st2.offset + BodyLen(s)..] == s[BodyLen(s)..] by { DropDrop(f, st2.offset, BodyLen(s)); }
  }

  /** Polling the same file again keeps it parked since the same time, and past the wait moves it to the end. */
  lemma PollsOn(st: ReaderState, v: View, wait: real, since: real, now: real)
    requires v.file.Some? && ParkedBy(st, v.file.value, since) && since <= now
    ensures var st' := Polled(st, v, st.nextSeq, wait, now).state;
      ParkedBy(st', v.file.value, since) && (now - since >= wait ==> st'.offset == |v.file.value|)
  {
    var f := v.file.value;
    var left := f[st.offset..];
    PollKeepsTie(st, v, wait, now);
    var mid := ContinuedPoll(st, v, st.nextSeq, wait, now);
    hide Polled;
    NoLinesLeft(mid, left, wait, now) by { HasLineIffNewline(left); }
    SameTip(mid, left, wait, now);
  }

  lemma SameTip(st: ReaderState, tip: Bytes, wait: real, now: real)
    requires tip != [] ==>
      IsInProgress(tip) && st.pending.Some? && st.pending.value.offset == st.offset && st.pending.value.length == |tip|
    ensures var st' := AtTip(st, tip, wait, now).0;
      if tip == [] || now - st.pending.value.since >= wait then st'.offset == st.offset + |tip|
      else st' == st
  {
  }

  /** Steps `a` to `b` are polls of the same file. */
  ghost predicate PollsOf(steps: seq<ReaderStep>, a: nat, b: nat, f: Bytes) {
    && a <= b < |steps|
    && forall k :: a <= k <= b ==> steps[k].PollAt? && steps[k].v.file == Some(f)
  }

  ghost predicate ClockAdvances(steps: seq<ReaderStep>) {
    forall i, j :: 0 <= i < j < |steps| && steps[i].PollAt? && steps[j].PollAt? ==> steps[i].now <= steps[j].now
  }

  lemma {:induction false} StaysParked(run: seq<ReaderState>, steps: seq<ReaderStep>, wait: real,
                                       a: nat, b: nat, f: Bytes)
    requires IsRun(run, steps, wait) && ClockAdvances(steps) && PollsOf(steps, a, b, f)
    ensures ParkedBy(run[b + 1], f, steps[a].now)
    ensures a < b && steps[b].now - steps[a].now >= wait ==> run[b + 1].offset == |f|
    decreases b
  {
    hide Polled, ParkedBy;
    assert run[b + 1] == Stepped(run[b], steps[b], wait).0;
    if a == b {
      RunIsTied(run, steps, wait, a);
      if run[a].pending.Some? {
        var i := PendingHasAPoll(run, steps, wait, a);
      }
      PollParks(run[a], steps[a].v, wait, steps[a].now);
    } else {
      StaysParked(run, steps, wait, a, b - 1, f);
      PollsOn(run[b], steps[b].v, wait, steps[a].now, steps[b].now);
    }
  }

  /**
   No endless wait: however often a file is polled without changing, once the wait has passed since the
   first of these polls the cursor is at its end. Whatever happened before does not matter.
   */
  lemma ReaderNeverParks(run: seq<ReaderState>, steps: seq<ReaderStep>, wait: real, a: nat, b: nat, f: Bytes)
    requires wait > 0.0 && IsRun(run, steps, wait) && ClockAdvances(steps) && PollsOf(steps, a, b, f)
    requires steps[b].now - steps[a].now >= wait
    ensures run[b + 1].offset == |f|
  {
    StaysParked(run, steps, wait, a, b, f);
  }
}
