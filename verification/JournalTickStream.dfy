/**
 The consumer side (core/journal/journal_tick_stream.py): a queue fed by polls, one pending tick, a
 persisted cursor, and rewinds that may come in the middle of a consume. A polled batch is one step.
 */
module TickStream {
  import opened Bytes
  import opened TickCodec
  import opened JournalLines
  import opened JournalDisk
  import opened JournalMeta
  import opened ReadProgress
  import opened Journal
  import opened IncrementalReader
  import opened ReaderLaws

  /**
   `unfinished` is the join counter of the queue, `saved` the cursor on disk. `overwritten` is a history
   variable: ticks taken while another one was still pending, which are never marked.
   */
  datatype StreamState = StreamState(
    cursor: nat, nextSeq: int, pending: Option<int>, invalidated: bool, queue: seq<JournalRecord>,
    unfinished: nat, symbols: seq<Bytes>, reader: ReaderState, saved: nat, overwritten: nat)

  function Fresh(cursor: nat, symbols: seq<Bytes>): (st: StreamState) {
    StreamState(cursor, cursor + 1, None, false, [], 0, symbols, FRESH, cursor, 0)
  }

  predicate IsActive(symbols: seq<Bytes>, tick: TradeTick) {
    symbols == [] || tick.instId in symbols
  }

  function PersistedThrough(st: StreamState, seqNo: int): (st': StreamState) {
    if seqNo > st.cursor then st.(cursor := seqNo, saved := seqNo) else st
  }

  /** One polled record: queued, or skipped by the symbol filter, which moves the cursor. */
  function Enqueued(st: StreamState, r: JournalRecord): (st': StreamState) {
    var next := st.(nextSeq := r.seqNo + 1);
    if IsActive(st.symbols, r.tick) then next.(queue := st.queue + [r], unfinished := st.unfinished + 1)
    else PersistedThrough(next, r.seqNo)
  }

  function EnqueuedAll(st: StreamState, rs: seq<JournalRecord>): (st': StreamState)
    decreases |rs|
  {
    if rs == [] then st else EnqueuedAll(Enqueued(st, rs[0]), rs[1..])
  }

  /** Queueing a batch keeps the counter in step with the queue, and leaves pending tick and flag alone. */
  lemma {:induction false} EnqueuedAllInStep(st: StreamState, rs: seq<JournalRecord>)
    ensures var st' := EnqueuedAll(st, rs);
      && st'.unfinished - |st'.queue| == st.unfinished - |st.queue|
      && st' == st.(nextSeq := st'.nextSeq, queue := st'.queue, unfinished := st'.unfinished,
                    cursor := st'.cursor, saved := st'.saved)
    decreases |rs|
  {
    if rs != [] {
      EnqueuedAllInStep(Enqueued(st, rs[0]), rs[1..]);
    }
  }

  lemma {:induction false} EnqueuedAllNotNegative(st: StreamState, rs: seq<JournalRecord>)
    requires st.nextSeq >= 0 && forall r :: r in st.queue || r in rs ==> r.seqNo >= 0
    ensures var st' := EnqueuedAll(st, rs);
      st'.nextSeq >= 0 && forall r :: r in st'.queue ==> r.seqNo >= 0
    decreases |rs|
  {
    if rs != [] {
      assert forall r :: r in rs[1..] ==> r in rs;
      assert rs[0] in rs;
      EnqueuedAllNotNegative(Enqueued(st, rs[0]), rs[1..]);
    }
  }

  /** One turn of the tail-follow loop. */
  function Followed(st: StreamState, v: View, wait: real, now: real): (st': StreamState) {
    var r := Polled(st.reader, v, st.nextSeq, wait, now);
    EnqueuedAll(st.(reader := r.state), r.records)
  }

  /** `task_done` for `n` slots; with no unfinished slot it raises, which the rewind ignores. */
  function Done(unfinished: nat, n: nat): (u: nat) {
    if unfinished >= n then unfinished - n else 0
  }

  function Rewound(st: StreamState, cursor: nat, v: View): (st': StreamState) {
    var slots := |st.queue| + (if st.pending.Some? then 1 else 0);
    st.(cursor := cursor, saved := cursor, nextSeq := cursor + 1,
        pending := None, invalidated := st.invalidated || st.pending.Some?,
        queue := [], unfinished := Done(st.unfinished, slots),
        reader := ResetTo(st.reader, v.file, v.index, cursor + 1).0)
  }

  function Taken(st: StreamState): (st': StreamState)
    requires st.queue != []
  {
    st.(pending := Some(st.queue[0].seqNo), invalidated := false, queue := st.queue[1..],
        overwritten := st.overwritten + (if st.pending.Some? then 1 else 0))
  }

  /** None: the source raises RuntimeError. */
  function Marked(st: StreamState): (st': Option<StreamState>) {
    match st.pending
    case None => if st.invalidated then Some(st.(invalidated := false)) else None
    case Some(seqNo) =>
      Some(PersistedThrough(st, seqNo).(unfinished := Done(st.unfinished, 1), pending := None, invalidated := false))
  }

  /** A forced resync: the process reloads its index, then the reader is rebound with it. */
  function Forced(st: StreamState, v: View): (r: (StreamState, seq<QuarantineEntry>, seq<IndexEntry>)) {
    var (rd, q) := Rebound(st.reader, v.file, DiskIndex(v), st.nextSeq);
    (st.(reader := rd), q, DiskIndex(v))
  }

  class JournalTickStream {
    const journal: TickJournal
    const reader: JournalIncrementalReader
    var cursor: nat
    var nextSeq: int
    var pendingSeq: Option<int>
    var pendingInvalidatedByCursor: bool
    var queue: seq<JournalRecord>
    var unfinished: nat
    var symbols: seq<Bytes>
    ghost var overwritten: nat

    /** The reader stands at a line start, seqs are not negative, and the join counter covers the backlog. */
    ghost predicate Valid()
      reads this, reader, reader.policy, journal.meta, journal.meta.buckets.Values
    {
      && reader.journal == journal && reader.Valid() && Anchored(reader.State())
      && nextSeq >= 0 && (pendingSeq.Some? ==> pendingSeq.value >= 0) && (forall r :: r in queue ==> r.seqNo >= 0)
      && unfinished == |queue| + (if pendingSeq.Some? then 1 else 0) + overwritten
    }

    ghost function State(): StreamState
      reads this, reader, reader.policy, journal.disk
    {
      StreamState(cursor, nextSeq, pendingSeq, pendingInvalidatedByCursor, queue, unfinished, symbols,
                  reader.State(), journal.disk.cursor, overwritten)
    }

    constructor (journal: TickJournal, symbols: seq<Bytes>, maxWait: real)
      requires journal.Valid() && maxWait > 0.0
      ensures Valid() && this.journal == journal
      ensures fresh(reader) && fresh(reader.policy) && reader.policy.maxWait == maxWait
      ensures State() == Fresh(journal.disk.cursor, symbols)
    {
      this.journal, this.symbols := journal, symbols;
      reader := new JournalIncrementalReader(journal, maxWait);
      cursor := journal.disk.cursor;
      nextSeq := journal.disk.cursor + 1;
      pendingSeq, pendingInvalidatedByCursor := None, false;
      queue, unfinished, overwritten := [], 0, 0;
    }

    method PersistCursorThrough(seqNo: int)
      requires seqNo >= 0
      modifies this`cursor, journal.disk`cursor
      ensures State() == PersistedThrough(old(State()), seqNo)
    {
      if seqNo > cursor {
        cursor := seqNo;
        journal.disk.cursor := seqNo;
      }
    }

    /** One turn of the tail-follow loop: poll, then queue or filter the whole batch. */
    method FollowOnce(now: real) returns (count: nat)
      requires Valid()
      modifies this, journal.disk`cursor, journal.disk`quarantine, journal.meta, reader, reader.policy
      ensures Valid() && journal.meta.buckets == old(journal.meta.buckets)
      ensures State() == Followed(old(State()), old(reader.Seen()), reader.policy.maxWait, now)
      ensures journal.meta.latest == old(journal.meta.latest) && journal.meta.highWater == old(journal.meta.highWater)
      ensures var r := Polled(old(reader.State()), old(reader.Seen()), old(nextSeq), reader.policy.maxWait, now);
        count == |r.records| && journal.meta.index == r.index
        && journal.disk.quarantine == old(journal.disk.quarantine) + r.quarantined
    {
      hide Polled, EnqueuedAll, Deliver, NextAfter;
      ghost var st0 := State();
      ghost var ks := PollDelivers(reader.State(), reader.Seen(), nextSeq, reader.policy.maxWait, now);
      DeliverAbove(ks, nextSeq);
      var records := reader.Poll(nextSeq, now);
      assert State() == st0.(reader := reader.State());
      EnqueuedAllInStep(State(), records);
      EnqueuedAllNotNegative(State(), records);
      EnqueueBatch(records);
      count := |records|;
    }

    method EnqueueBatch(records: seq<JournalRecord>)
      requires forall r :: r in records ==> r.seqNo >= 0
      modifies this`nextSeq, this`cursor, this`queue, this`unfinished, journal.disk`cursor
      ensures State() == EnqueuedAll(old(State()), records)
    {
      var i := 0;
      while i < |records|
        invariant 0 <= i <= |records|
        invariant EnqueuedAll(State(), records[i..]) == EnqueuedAll(old(State()), records)
      {
        var r := records[i];
        assert records[i..][0] == r && records[i..][1..] == records[i + 1..];
        nextSeq := r.seqNo + 1;
        if IsActive(symbols, r.tick) {
          queue := queue + [r];
          unfinished := unfinished + 1;
        } else {
          PersistCursorThrough(r.seqNo);
        }
        i := i + 1;
      }
    }

    method SetCursor(position: nat)
      requires Valid()
      modifies this, journal.disk`cursor, journal.disk`quarantine, reader, reader.policy
      ensures Valid()
      ensures State() == Rewound(old(State()), position, old(reader.Seen()))
      ensures journal.disk.quarantine == old(journal.disk.quarantine)
        + ResetTo(old(reader.State()), journal.disk.journal, journal.meta.index, position + 1).1
    {
      ghost var st0, v := State(), reader.Seen();
      cursor := position;
      nextSeq := position + 1;
      ReleasePending();
      DrainPendingTickQueue();
      ghost var slots := |st0.queue| + (if st0.pending.Some? then 1 else 0);
      ghost var st1 := st0.(cursor := position, nextSeq := position + 1, pending := None,
                            invalidated := st0.invalidated || st0.pending.Some?,
                            queue := [], unfinished := Done(st0.unfinished, slots));
      assert State() == st1;
      reader.ResetFromSeq(nextSeq);
      journal.disk.cursor := position;
      assert State() == st1.(reader := ResetTo(st0.reader, v.file, v.index, position + 1).0, saved := position);
    }

    /** A tick being consumed loses its claim; its later mark becomes a no-op. */
    method ReleasePending()
      modifies this`pendingSeq, this`pendingInvalidatedByCursor, this`unfinished
      ensures pendingSeq == None
      ensures pendingInvalidatedByCursor == (old(pendingInvalidatedByCursor) || old(pendingSeq).Some?)
      ensures unfinished == if old(pendingSeq).Some? then Done(old(unfinished), 1) else old(unfinished)
    {
      if pendingSeq.Some? {
        pendingSeq := None;
        pendingInvalidatedByCursor := true;
        if unfinished > 0 {
          unfinished := unfinished - 1;
        }
      }
    }

    method DrainPendingTickQueue()
      modifies this`queue, this`unfinished
      ensures queue == [] && unfinished == Done(old(unfinished), |old(queue)|)
    {
      while queue != []
        invariant |queue| <= |old(queue)|
        invariant Done(unfinished, |queue|) == Done(old(unfinished), |old(queue)|)
        decreases |queue|
      {
        queue := queue[1..];
        if unfinished > 0 {
          unfinished := unfinished - 1;
        }
      }
    }

    method HasPendingTick() returns (b: bool)
      ensures b == pendingSeq.Some?
    {
      b := pendingSeq.Some?;
    }

    /** Blocks in the source while the queue is empty. */
    method WaitForNextTick() returns (tick: TradeTick)
      requires Valid() && queue != []
      modifies this
      ensures Valid() && State() == Taken(old(State())) && tick == old(queue[0].tick)
    {
      overwritten := overwritten + (if pendingSeq.Some? then 1 else 0);
      var next := queue[0];
      queue := queue[1..];
      pendingSeq := Some(next.seqNo);
      pendingInvalidatedByCursor := false;
      tick := next.tick;
    }

    /** Returns false where the source raises RuntimeError. */
    method MarkTickAsProcessed() returns (ok: bool)
      requires Valid()
      modifies this, journal.disk`cursor
      ensures Valid() && ok == Marked(old(State())).Some?
      ensures State() == if ok then Marked(old(State())).value else old(State())
    {
      if pendingSeq.None? {
        if pendingInvalidatedByCursor {
          pendingInvalidatedByCursor := false;
          return true;
        }
        return false;
      }
      PersistCursorThrough(pendingSeq.value);
      unfinished := unfinished - 1;
      pendingSeq := None;
      pendingInvalidatedByCursor := false;
      ok := true;
    }

    /** Rebinds the reader exactly when the progress snapshot reports lag. */
    method ForceTailResyncIfUnread() returns (forced: bool)
      requires Valid()
      modifies journal.disk`quarantine, journal.meta, reader, reader.policy
      ensures Valid() && journal.meta.buckets == old(journal.meta.buckets)
      ensures var s := ComputeSnapshot(old(reader.readOffset), |Text(journal.disk.journal)|, old(reader.nextSeq),
                                       ReadTip(old(journal.meta.State()), journal.disk.meta).1,
                                       old(reader.policy.pending).Some?, TIP_META_LAG_TOLERANCE_SEQ);
        forced <==> s.lagSeq >= 1
      ensures var m := ReadTip(old(journal.meta.State()), journal.disk.meta).0;
        var (st, q, index) := Forced(old(State()), old(reader.Seen()));
        if forced then
          State() == st && journal.disk.quarantine == old(journal.disk.quarantine) + q
          && journal.meta.index == index
        else State() == old(State()) && unchanged(journal.disk) && journal.meta.index == m.index
      ensures var m := ReadTip(old(journal.meta.State()), journal.disk.meta).0;
        journal.meta.latest == m.latest && journal.meta.highWater == m.highWater
    {
      var snapshot := reader.GetReadProgressSnapshot();
      if IsEofCaughtUp(snapshot) {
        return false;
      }
      if IsSeqCaughtUpTrailingByteLag(snapshot) {
        return false;
      }
      journal.ReloadSeqIndexFromDisk();
      reader.ForceRebindFromSeq(nextSeq);
      forced := true;
    }
  }
}
