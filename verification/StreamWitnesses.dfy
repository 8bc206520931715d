/** Concrete journals and runs on which two expectations of the tick stream fail. */
module StreamWitnesses {
  import opened Bytes
  import opened TickCodec
  import opened JournalLines
  import opened IncrementalReader
  import opened RewriteUnderCursor
  import opened TickStream
  import opened StreamLaws
  import opened CursorSafety

  /** What a new stream without a saved cursor holds after one turn over a journal of two records. */
  lemma TwoPolled(a: TradeTick, b: TradeTick, symbols: seq<Bytes>, v: View, wait: real, now: real)
    requires v.file == Some(RecordsFile([JournalRecord(1, a), JournalRecord(2, b)]))
    ensures var st := Fresh(0, symbols);
      Polled(st.reader, v, st.nextSeq, wait, now).records == [JournalRecord(1, a), JournalRecord(2, b)]
  {
    hide Polled, Kinds, Deliver, Records, From, RecordsFile;
    var rs := [JournalRecord(1, a), JournalRecord(2, b)];
    var f := RecordsFile(rs);
    RecordsFileMeaning(rs);
    assert f[0..] == f;
    ContinuedPollReads(FRESH, v, wait, now);
    var ks := Kinds(f);
    assert Map(ObjectOf, rs)[0].seqNo == 1 && Map(ObjectOf, rs)[1].seqNo == 2;
    assert Increasing(ks);
    DeliverIsFilter(ks, 1);
    AllFrom(rs, 1);
  }

  /** The stream started on such a journal, and its state after one turn of the loop. */
  function AfterOneTurn(symbols: seq<Bytes>, v: View, wait: real, now: real): (st: StreamState) {
    Followed(Fresh(0, symbols), v, wait, now)
  }

  lemma TwoEnqueued(st: StreamState, r1: JournalRecord, r2: JournalRecord)
    ensures EnqueuedAll(st, [r1, r2]) == Enqueued(Enqueued(st, r1), r2)
  {
    assert [r1, r2][1..] == [r2] && [r2][1..] == [];
    assert EnqueuedAll(Enqueued(Enqueued(st, r1), r2), []) == Enqueued(Enqueued(st, r1), r2);
  }

  /**
   A filtered tick behind a queued one. The stream subscribes to the symbol of the first record only. One turn
   of the loop queues record 1 and saves cursor 2, so a stream restarted from there never delivers record 1.
   */
  lemma FilteredTickPassesQueuedTick(a: TradeTick, b: TradeTick, v: View, wait: real, now: real,
                                     run: seq<StreamState>, events: seq<StreamEvent>)
    requires a.instId != b.instId
    requires v.file == Some(RecordsFile([JournalRecord(1, a), JournalRecord(2, b)]))
    requires IsRun(run, events, wait) && forall i :: 0 <= i < |events| ==> !events[i].SetCursor?
    requires run[0] == Fresh(AfterOneTurn([a.instId], v, wait, now).saved, [a.instId])
    ensures var st := AfterOneTurn([a.instId], v, wait, now);
      st.queue == [JournalRecord(1, a)] && st.saved == 2 && !CursorSafe(st)
    ensures forall i :: 0 <= i < |Delivered(run, events)| ==> Delivered(run, events)[i] != 1
  {
    TwoPolled(a, b, [a.instId], v, wait, now);
    var st := Fresh(0, [a.instId]);
    var r := Polled(st.reader, v, st.nextSeq, wait, now);
    hide Polled;
    TwoEnqueued(st.(reader := r.state), JournalRecord(1, a), JournalRecord(2, b));
    var st' := AfterOneTurn([a.instId], v, wait, now);
    assert JournalRecord(1, a) in st'.queue;
    FreshIsReady(st'.saved, [a.instId]);
    DeliveredAboveFloor(run, events, wait, st'.saved);
  }

  /**
   A take that overwrites a pending tick. After one turn that queues two ticks and two takes in a row, the
   queue is empty and one tick is pending, but the unfinished counter stands at 2.
   */
  lemma CounterExceedsQueueAndPending(a: TradeTick, b: TradeTick, v: View, wait: real, now: real)
    returns (run: seq<StreamState>, events: seq<StreamEvent>)
    requires v.file == Some(RecordsFile([JournalRecord(1, a), JournalRecord(2, b)]))
    ensures IsRun(run, events, wait) && run[0] == Fresh(0, []) && events == [Follow(v, now), Take, Take]
    ensures run[3].queue == [] && run[3].pending == Some(2) && run[3].unfinished == 2
    ensures run[3].unfinished > |run[3].queue| + Pending(run[3])
  {
    hide Followed;
    var st, st1 := Fresh(0, []), AfterOneTurn([], v, wait, now);
    BothQueued(a, b, v, wait, now);
    var st2 := Taken(st1);
    assert st2.queue == [JournalRecord(2, b)];
    events := [Follow(v, now), Take, Take];
    run := [st, st1, st2, Taken(st2)];
    assert run[1] == After(run[0], events[0], wait);
  }

  lemma BothQueued(a: TradeTick, b: TradeTick, v: View, wait: real, now: real)
    requires v.file == Some(RecordsFile([JournalRecord(1, a), JournalRecord(2, b)]))
    ensures var st := AfterOneTurn([], v, wait, now);
      && st.queue == [JournalRecord(1, a), JournalRecord(2, b)] && st.unfinished == 2
      && st.pending == None && st.overwritten == 0
  {
    var st := Fresh(0, []);
    TwoPolled(a, b, [], v, wait, now);
    var r := Polled(st.reader, v, st.nextSeq, wait, now);
    hide Polled;
    TwoEnqueued(st.(reader := r.state), JournalRecord(1, a), JournalRecord(2, b));
  }
}
