/**
 The saved cursor under symbol filtering: whether a stream started from it would deliver every queued and
 pending tick again, decided for whole runs.
 */
module CursorSafety {
  import opened Bytes
  import opened JournalLines
  import opened IncrementalReader
  import opened ReaderLaws
  import opened TickStream
  import opened StreamLaws

  // ---------- one batch ----------

  /** Everything queued or pending would be delivered again by a stream started from the persisted cursor. */
  ghost predicate CursorSafe(st: StreamState) {
    && st.saved == st.cursor
    && (st.pending.Some? ==> st.cursor < st.pending.value)
    && forall r :: r in st.queue ==> st.cursor < r.seqNo
  }

  /** Pending comes before queued. */
  ghost predicate PendingFirst(st: StreamState) {
    st.pending.Some? ==> st.pending.value < st.nextSeq && forall r :: r in st.queue ==> st.pending.value < r.seqNo
  }

  predicate HasBacklog(st: StreamState) {
    st.pending.Some? || st.queue != []
  }

  /** In the batch, records the filter skips come before all others. */
  predicate FilteredFirst(symbols: seq<Bytes>, rs: seq<JournalRecord>, backlog: bool) {
    rs == [] ||
    (if IsActive(symbols, rs[0].tick) then FilteredFirst(symbols, rs[1..], true)
     else !backlog && FilteredFirst(symbols, rs[1..], backlog))
  }

  lemma {:induction false} UnsafeStays(st: StreamState, rs: seq<JournalRecord>)
    requires st.saved == st.cursor
    requires (st.pending.Some? && st.pending.value <= st.cursor) || exists r :: r in st.queue && r.seqNo <= st.cursor
    ensures !CursorSafe(EnqueuedAll(st, rs))
    decreases |rs|
  {
    if rs != [] {
      var st' := Enqueued(st, rs[0]);
      assert st'.cursor >= st.cursor;
      assert forall r :: r in st.queue ==> r in st'.queue;
      UnsafeStays(st', rs[1..]);
    }
  }

  /**
   Filtering and the cursor: after a batch the persisted cursor is below every queued and pending seq if and
   only if the filter skipped nothing behind a tick that is still unprocessed.
   */
  lemma {:induction false} BatchKeepsCursorSafeIff(st: StreamState, rs: seq<JournalRecord>)
    requires CursorSafe(st) && PendingFirst(st) && StrictlyIncreasing(rs)
    requires forall r :: r in st.queue ==> r.seqNo < st.nextSeq
    requires st.cursor < st.nextSeq && forall r :: r in rs ==> r.seqNo >= st.nextSeq
    ensures CursorSafe(EnqueuedAll(st, rs)) <==> FilteredFirst(st.symbols, rs, HasBacklog(st))
    decreases |rs|
  {
    if rs != [] {
      var st' := Enqueued(st, rs[0]);
      assert rs[0] in rs;
      assert forall r :: r in rs[1..] ==> r.seqNo > rs[0].seqNo;
      if IsActive(st.symbols, rs[0].tick) {
        assert st'.queue[|st'.queue| - 1] == rs[0];
        BatchKeepsCursorSafeIff(st', rs[1..]);
      } else if HasBacklog(st) {
        assert st'.cursor == rs[0].seqNo;
        if st.queue != [] { assert st.queue[0] in st'.queue; }
        UnsafeStays(st', rs[1..]);
      } else {
        BatchKeepsCursorSafeIff(st', rs[1..]);
      }
    }
  }

  // ---------- whole runs ----------

  /** What a turn of the tail-follow loop polls. */
  function Batch(st: StreamState, e: StreamEvent, wait: real): (rs: seq<JournalRecord>)
    requires e.Follow?
  {
    Polled(st.reader, e.v, st.nextSeq, wait, e.now).records
  }

  /** The event does not let the filter skip a tick behind an unprocessed one. */
  ghost predicate FiltersInFront(st: StreamState, e: StreamEvent, wait: real) {
    e.Follow? ==> FilteredFirst(st.symbols, Batch(st, e, wait), HasBacklog(st))
  }

  /** A safe cursor, with everything in order above it. */
  ghost predicate Ready(st: StreamState) {
    CursorSafe(st) && PendingFirst(st) && AllAbove(st, st.cursor)
  }

  /** A polled batch lies at or above the next seq, in order, whatever the reader saw. */
  lemma BatchAscends(st: StreamState, e: StreamEvent, wait: real)
    requires e.Follow? && Anchored(st.reader)
    ensures StrictlyIncreasing(Batch(st, e, wait))
    ensures forall r :: r in Batch(st, e, wait) ==> r.seqNo >= st.nextSeq
    ensures Anchored(Polled(st.reader, e.v, st.nextSeq, wait, e.now).state)
  {
    hide Polled, Deliver;
    var ks := PollDelivers(st.reader, e.v, st.nextSeq, wait, e.now);
    DeliverIncreasing(ks, st.nextSeq);
    DeliverAbove(ks, st.nextSeq);
  }

  lemma {:induction false} BatchKeepsReady(st: StreamState, rs: seq<JournalRecord>)
    requires Ready(st) && StrictlyIncreasing(rs) && FilteredFirst(st.symbols, rs, HasBacklog(st))
    requires forall r :: r in rs ==> r.seqNo >= st.nextSeq
    ensures Ready(EnqueuedAll(st, rs))
    decreases |rs|
  {
    if rs != [] {
      assert rs[0] in rs;
      assert forall r :: r in rs[1..] ==> r.seqNo > rs[0].seqNo;
      var st' := Enqueued(st, rs[0]);
      if IsActive(st.symbols, rs[0].tick) {
        assert st'.queue[|st'.queue| - 1] == rs[0];
      }
      BatchKeepsReady(st', rs[1..]);
    }
  }

  lemma StepKeepsReady(st: StreamState, e: StreamEvent, wait: real)
    requires Ready(st) && Possible(st, e) && FiltersInFront(st, e, wait)
    ensures Ready(After(st, e, wait))
  {
    match e
    case Follow(v, now) =>
      BatchAscends(st, e, wait);
      hide Polled;
      BatchKeepsReady(st.(reader := Polled(st.reader, v, st.nextSeq, wait, now).state), Batch(st, e, wait));
    case Take => assert st.queue[0] in st.queue;
    case Mark =>
    case SetCursor(cursor, v) => RewoundAbove(st, cursor, v);
    case Resync(v) => AlignedFacts(st.reader.(pending := None, logicalBol := None), v.file);
    case Subscribe(_) =>
  }

  /** From a safe state a batch that filters behind the backlog makes the cursor unsafe. */
  lemma UnsafeStep(st: StreamState, e: StreamEvent, wait: real)
    requires Ready(st) && Possible(st, e) && CursorSafe(After(st, e, wait))
    ensures FiltersInFront(st, e, wait)
  {
    if e.Follow? {
      BatchAscends(st, e, wait);
      hide Polled;
      var rd := Polled(st.reader, e.v, st.nextSeq, wait, e.now).state;
      BatchKeepsCursorSafeIff(st.(reader := rd), Batch(st, e, wait));
    }
  }

  lemma {:induction false} FilteredInFrontIsReady(run: seq<StreamState>, events: seq<StreamEvent>, wait: real, i: nat,
                                                  cursor: nat, symbols: seq<Bytes>)
    requires IsRun(run, events, wait) && i < |run| && run[0] == Fresh(cursor, symbols)
    requires forall k :: 0 <= k < i ==> FiltersInFront(run[k], events[k], wait)
    ensures Ready(run[i])
    decreases i
  {
    hide After, Possible, FiltersInFront, Ready;
    if i == 0 {
      FreshIsReady(cursor, symbols);
    } else {
      FilteredInFrontIsReady(run, events, wait, i - 1, cursor, symbols);
      assert run[i - 1 + 1] == After(run[i - 1], events[i - 1], wait);
      StepKeepsReady(run[i - 1], events[i - 1], wait);
    }
  }

  lemma FreshIsReady(cursor: nat, symbols: seq<Bytes>)
    ensures Ready(Fresh(cursor, symbols))
  {
  }

  lemma {:induction false} SafeFiltersInFront(run: seq<StreamState>, events: seq<StreamEvent>, wait: real, i: nat,
                                              cursor: nat, symbols: seq<Bytes>)
    requires IsRun(run, events, wait) && i < |run| && run[0] == Fresh(cursor, symbols)
    requires forall k :: 0 <= k <= i ==> CursorSafe(run[k])
    ensures forall k :: 0 <= k < i ==> FiltersInFront(run[k], events[k], wait)
    decreases i
  {
    hide After, Possible, FiltersInFront, Ready, CursorSafe;
    if i > 0 {
      SafeFiltersInFront(run, events, wait, i - 1, cursor, symbols);
      FilteredInFrontIsReady(run, events, wait, i - 1, cursor, symbols);
      assert run[i - 1 + 1] == After(run[i - 1], events[i - 1], wait);
      UnsafeStep(run[i - 1], events[i - 1], wait);
    }
  }

  /**
   The saved cursor of a stream, over any run and whatever happens to the journal: it stays below every queued and
   pending seq throughout if and only if no turn of the tail-follow loop lets the filter skip a tick behind one
   that is still queued or pending.
   */
  lemma CursorStaysSafeIff(run: seq<StreamState>, events: seq<StreamEvent>, wait: real, i: nat,
                           cursor: nat, symbols: seq<Bytes>)
    requires IsRun(run, events, wait) && i < |run| && run[0] == Fresh(cursor, symbols)
    ensures (forall k :: 0 <= k <= i ==> CursorSafe(run[k])) <==>
            (forall k :: 0 <= k < i ==> FiltersInFront(run[k], events[k], wait))
  {
    hide After, Possible, FiltersInFront, CursorSafe;
    if forall k :: 0 <= k <= i ==> CursorSafe(run[k]) {
      SafeFiltersInFront(run, events, wait, i, cursor, symbols);
    }
    if forall k :: 0 <= k < i ==> FiltersInFront(run[k], events[k], wait) {
      forall k | 0 <= k <= i ensures CursorSafe(run[k]) {
        FilteredInFrontIsReady(run, events, wait, k, cursor, symbols);
      }
    }
  }
}
