/** What a consumer of the tick stream can rely on, over whole runs and across restarts. */
module StreamLaws {
  import opened Bytes
  import opened JournalLines
  import opened LineAccounting
  import opened JournalDisk
  import opened SeqIndex
  import opened Compactor
  import opened IncrementalReader
  import opened ReaderLaws
  import opened TickStream

  /** Views and clocks are arbitrary: the journal may be appended to, torn or rewritten between steps. */
  datatype StreamEvent =
    | Follow(v: View, now: real)
    | Take
    | Mark
    | SetCursor(cursor: nat, v: View)
    | Resync(v: View)
    | Subscribe(symbols: seq<Bytes>)

  /** `Mark` without a pending or invalidated tick raises, and `Take` blocks on an empty queue. */
  ghost predicate Possible(st: StreamState, e: StreamEvent) {
    && (e.Take? ==> st.queue != [])
    && (e.Mark? ==> Marked(st).Some?)
  }

  ghost function After(st: StreamState, e: StreamEvent, wait: real): (st': StreamState)
    requires Possible(st, e)
  {
    match e
    case Follow(v, now) => Followed(st, v, wait, now)
    case Take => Taken(st)
    case Mark => Marked(st).value
    case SetCursor(cursor, v) => Rewound(st, cursor, v)
    case Resync(v) => Forced(st, v).0
    case Subscribe(symbols) => st.(symbols := symbols)
  }

  ghost predicate IsRun(run: seq<StreamState>, events: seq<StreamEvent>, wait: real) {
    && |run| == |events| + 1
    && (forall i :: 0 <= i < |events| ==> Possible(run[i], events[i]) && run[i + 1] == After(run[i], events[i], wait))
  }

  /** The seqs handed to the consumer over a run. */
  function Delivered(run: seq<StreamState>, events: seq<StreamEvent>): (seqs: seq<int>)
    requires |run| == |events| + 1
    requires forall i :: 0 <= i < |events| && events[i].Take? ==> run[i].queue != []
    decreases |events|
  {
    if events == [] then []
    else
      var n := |events| - 1;
      Delivered(run[..n + 1], events[..n]) + (if events[n].Take? then [run[n].queue[0].seqNo] else [])
  }

  predicate Ascending(s: seq<int>) {
    forall i, j :: 0 <= i < j < |s| ==> s[i] < s[j]
  }

  // ---------- what one turn of the loop queues ----------

  /** The queue gained the records at these positions of the batch, in order, and nothing else. */
  ghost predicate GainedAt(st: StreamState, st': StreamState, rs: seq<JournalRecord>, at: seq<nat>) {
    && Selects(at, |rs|)
    && |st'.queue| == |st.queue| + |at| && st'.queue[..|st.queue|] == st.queue
    && (forall k :: 0 <= k < |at| ==> st'.queue[|st.queue| + k] == rs[at[k]])
    && st'.unfinished == st.unfinished + |at|
  }

  /** The cursor moved up to the highest record of the batch that is not at these positions, and was saved there. */
  ghost predicate CursorPassesRest(st: StreamState, st': StreamState, rs: seq<JournalRecord>, at: seq<nat>) {
    && st'.cursor >= st.cursor
    && (forall i :: 0 <= i < |rs| && i !in at ==> rs[i].seqNo <= st'.cursor)
    && (st'.cursor != st.cursor ==> exists i :: 0 <= i < |rs| && i !in at && rs[i].seqNo == st'.cursor)
    && st'.saved == if st'.cursor == st.cursor then st.saved else st'.cursor
  }

  /** No symbols are given, or the symbol is one of them. */
  predicate Subscribed(symbols: seq<Bytes>, instId: Bytes) {
    symbols == [] || exists j :: 0 <= j < |symbols| && symbols[j] == instId
  }

  lemma {:induction false} EnqueuedSnoc(st: StreamState, rs: seq<JournalRecord>, r: JournalRecord)
    ensures EnqueuedAll(st, rs + [r]) == Enqueued(EnqueuedAll(st, rs), r)
    decreases |rs|
  {
    if rs == [] {
      assert [] + [r] == [r] && [r][1..] == [];
    } else {
      assert (rs + [r])[1..] == rs[1..] + [r];
      EnqueuedSnoc(Enqueued(st, rs[0]), rs[1..], r);
    }
  }

  lemma {:induction false} BatchGains(st: StreamState, rs: seq<JournalRecord>) returns (at: seq<nat>)
    ensures var st' := EnqueuedAll(st, rs);
      && GainedAt(st, st', rs, at) && CursorPassesRest(st, st', rs, at)
      && st'.nextSeq == (if rs == [] then st.nextSeq else rs[|rs| - 1].seqNo + 1)
    ensures forall i :: 0 <= i < |rs| ==> (i in at <==> Subscribed(st.symbols, rs[i].tick.instId))
    decreases |rs|
  {
    hide Selects, GainedAt, CursorPassesRest, Enqueued, EnqueuedAll, Subscribed;
    if rs == [] {
      at := [];
      NothingGained(st);
    } else {
      var n := |rs| - 1;
      var front, r := rs[..n], rs[n];
      var before := BatchGains(st, front);
      assert rs == front + [r];
      EnqueuedSnoc(st, front, r);
      EnqueuedAllInStep(st, front);
      at := GainsOneMore(st, EnqueuedAll(st, front), front, before, r);
      assert forall i :: 0 <= i < n ==> front[i] == rs[i];
    }
  }

  lemma NothingGained(st: StreamState)
    ensures EnqueuedAll(st, []) == st && GainedAt(st, st, [], []) && CursorPassesRest(st, st, [], [])
  {
  }

  lemma GainsOneMore(st: StreamState, mid: StreamState, rs: seq<JournalRecord>, before: seq<nat>, r: JournalRecord)
    returns (at: seq<nat>)
    requires GainedAt(st, mid, rs, before) && CursorPassesRest(st, mid, rs, before) && mid.symbols == st.symbols
    ensures var st' := Enqueued(mid, r);
      && GainedAt(st, st', rs + [r], at) && CursorPassesRest(st, st', rs + [r], at) && st'.nextSeq == r.seqNo + 1
    ensures |rs| in at <==> Subscribed(st.symbols, r.tick.instId)
    ensures forall i :: 0 <= i < |rs| ==> (i in at <==> i in before)
  {
    var more := IsActive(st.symbols, r.tick);
    assert more <==> Subscribed(st.symbols, r.tick.instId);
    assert Selects(before, |rs|);
    hide Subscribed, IsActive, Selects, GainedAt, CursorPassesRest;
    at := if more then before + [|rs|] else before;
    SelectsSnoc(before, |rs|, more);
    if more {
      QueuedGains(st, mid, rs, before, r);
    } else {
      FilteredPasses(st, mid, rs, before, r);
    }
  }

  lemma QueuedGains(st: StreamState, mid: StreamState, rs: seq<JournalRecord>, before: seq<nat>, r: JournalRecord)
    requires GainedAt(st, mid, rs, before) && CursorPassesRest(st, mid, rs, before) && IsActive(mid.symbols, r.tick)
    ensures var st' := Enqueued(mid, r);
      && GainedAt(st, st', rs + [r], before + [|rs|]) && CursorPassesRest(st, st', rs + [r], before + [|rs|])
      && st'.nextSeq == r.seqNo + 1
  {
    hide IsActive, GainedAt, CursorPassesRest;
    GainedMore(st, mid, Enqueued(mid, r), rs, before, r);
    PassesStill(st, mid, Enqueued(mid, r), rs, before, r);
  }

  lemma FilteredPasses(st: StreamState, mid: StreamState, rs: seq<JournalRecord>, before: seq<nat>, r: JournalRecord)
    requires GainedAt(st, mid, rs, before) && CursorPassesRest(st, mid, rs, before) && !IsActive(mid.symbols, r.tick)
    ensures var st' := Enqueued(mid, r);
      && GainedAt(st, st', rs + [r], before) && CursorPassesRest(st, st', rs + [r], before)
      && st'.nextSeq == r.seqNo + 1
  {
    assert forall k :: 0 <= k < |before| ==> before[k] < |rs|;
    hide IsActive, GainedAt, CursorPassesRest;
    GainedStill(st, mid, Enqueued(mid, r), rs, before, r);
    PassesMore(st, mid, Enqueued(mid, r), rs, before, r);
  }

  lemma GainedMore(st: StreamState, mid: StreamState, st': StreamState, rs: seq<JournalRecord>, at: seq<nat>,
                   r: JournalRecord)
    requires GainedAt(st, mid, rs, at) && st'.queue == mid.queue + [r] && st'.unfinished == mid.unfinished + 1
    ensures GainedAt(st, st', rs + [r], at + [|rs|])
  {
    assert mid.queue[..|st.queue|] == st'.queue[..|st.queue|];
  }

  lemma GainedStill(st: StreamState, mid: StreamState, st': StreamState, rs: seq<JournalRecord>, at: seq<nat>,
                    r: JournalRecord)
    requires GainedAt(st, mid, rs, at) && st'.queue == mid.queue && st'.unfinished == mid.unfinished
    ensures GainedAt(st, st', rs + [r], at)
  {
  }

  lemma PassesStill(st: StreamState, mid: StreamState, st': StreamState, rs: seq<JournalRecord>, at: seq<nat>,
                    r: JournalRecord)
    requires CursorPassesRest(st, mid, rs, at) && st'.cursor == mid.cursor && st'.saved == mid.saved
    ensures CursorPassesRest(st, st', rs + [r], at + [|rs|])
  {
    if st'.cursor != st.cursor {
      var i :| 0 <= i < |rs| && i !in at && rs[i].seqNo == st'.cursor;
      assert (rs + [r])[i] == rs[i] && i !in at + [|rs|];
    }
  }

  lemma PassesMore(st: StreamState, mid: StreamState, st': StreamState, rs: seq<JournalRecord>, at: seq<nat>,
                   r: JournalRecord)
    requires CursorPassesRest(st, mid, rs, at) && (forall k :: 0 <= k < |at| ==> at[k] < |rs|)
    requires st'.cursor == (if r.seqNo > mid.cursor then r.seqNo else mid.cursor)
    requires st'.saved == if r.seqNo > mid.cursor then r.seqNo else mid.saved
    ensures CursorPassesRest(st, st', rs + [r], at)
  {
    assert (rs + [r])[|rs|] == r && |rs| !in at;
    if r.seqNo <= mid.cursor != st.cursor {
      var i :| 0 <= i < |rs| && i !in at && rs[i].seqNo == mid.cursor;
      assert (rs + [r])[i] == rs[i];
    }
  }

  /**
   One turn of the tail-follow loop, whatever the reader finds. The queue gains exactly the polled records whose
   symbol is subscribed, all of them if no symbols are given, in order; the cursor moves to the highest of the others
   and is saved there. Nothing else of the stream changes but the next seq and the reader.
   */
  lemma TurnQueuesSubscribed(st: StreamState, v: View, wait: real, now: real) returns (at: seq<nat>)
    ensures var rs := Polled(st.reader, v, st.nextSeq, wait, now).records;
      var st' := Followed(st, v, wait, now);
      && GainedAt(st, st', rs, at) && CursorPassesRest(st, st', rs, at)
      && st'.nextSeq == (if rs == [] then st.nextSeq else rs[|rs| - 1].seqNo + 1)
      && st' == st.(nextSeq := st'.nextSeq, queue := st'.queue, unfinished := st'.unfinished,
                    cursor := st'.cursor, saved := st'.saved, reader := st'.reader)
    ensures var rs := Polled(st.reader, v, st.nextSeq, wait, now).records;
      forall i :: 0 <= i < |rs| ==>
        (i in at <==> st.symbols == [] || exists j :: 0 <= j < |st.symbols| && st.symbols[j] == rs[i].tick.instId)
  {
    hide Polled, EnqueuedAll, GainedAt, CursorPassesRest;
    var r := Polled(st.reader, v, st.nextSeq, wait, now);
    at := TurnGains(st, st.(reader := r.state), r.records);
    EnqueuedAllInStep(st.(reader := r.state), r.records);
  }

  lemma TurnGains(st: StreamState, polled: StreamState, rs: seq<JournalRecord>) returns (at: seq<nat>)
    requires polled == st.(reader := polled.reader)
    ensures var st' := EnqueuedAll(polled, rs);
      && GainedAt(st, st', rs, at) && CursorPassesRest(st, st', rs, at)
      && st'.nextSeq == (if rs == [] then st.nextSeq else rs[|rs| - 1].seqNo + 1)
    ensures forall i :: 0 <= i < |rs| ==> (i in at <==> Subscribed(st.symbols, rs[i].tick.instId))
  {
    at := BatchGains(polled, rs);
  }

  // ---------- order of delivery ----------

  /** Everything queued or still to be polled lies above `floor`, in order. */
  ghost predicate AllAbove(st: StreamState, floor: int) {
    && Anchored(st.reader)
    && floor < st.nextSeq
    && StrictlyIncreasing(st.queue)
    && forall r :: r in st.queue ==> floor < r.seqNo < st.nextSeq
  }

  lemma {:induction false} EnqueuedAllAbove(st: StreamState, rs: seq<JournalRecord>, floor: int)
    requires AllAbove(st, floor) && StrictlyIncreasing(rs)
    requires forall r :: r in rs ==> r.seqNo >= st.nextSeq
    ensures AllAbove(EnqueuedAll(st, rs), floor)
    decreases |rs|
  {
    if rs != [] {
      assert forall r :: r in rs[1..] ==> r.seqNo > rs[0].seqNo;
      EnqueuedAllAbove(Enqueued(st, rs[0]), rs[1..], floor);
    }
  }

  lemma FollowedAbove(st: StreamState, v: View, wait: real, now: real, floor: int)
    requires AllAbove(st, floor)
    ensures AllAbove(Followed(st, v, wait, now), floor)
  {
    var ks := PollDelivers(st.reader, v, st.nextSeq, wait, now);
    var r := Polled(st.reader, v, st.nextSeq, wait, now);
    DeliverIncreasing(ks, st.nextSeq);
    DeliverAbove(ks, st.nextSeq);
    EnqueuedAllAbove(st.(reader := r.state), r.records, floor);
  }

  lemma EventKeepsAbove(st: StreamState, e: StreamEvent, wait: real, floor: int)
    requires AllAbove(st, floor) && Possible(st, e) && !e.SetCursor?
    ensures AllAbove(After(st, e, wait), if e.Take? then st.queue[0].seqNo else floor)
    ensures e.Take? ==> floor < st.queue[0].seqNo
  {
    match e
    case Follow(v, now) => FollowedAbove(st, v, wait, now, floor);
    case Take => assert st.queue[0] in st.queue;
    case Resync(v) => AlignedFacts(st.reader.(pending := None, logicalBol := None), v.file);
    case _ =>
  }

  /** A cursor that was just set, or a stream that was just created, promises everything above it. */
  lemma RewoundAbove(st: StreamState, cursor: nat, v: View)
    ensures AllAbove(Rewound(st, cursor, v), cursor)
    ensures forall symbols :: AllAbove(Fresh(cursor, symbols), cursor)
  {
  }

  /** `seqs` ascend above `floor`, and everything the stream still holds or will poll lies above them. */
  ghost predicate Rising(seqs: seq<int>, floor: int, st: StreamState) {
    && Ascending(seqs) && (forall i :: 0 <= i < |seqs| ==> seqs[i] > floor)
    && AllAbove(st, if seqs == [] then floor else seqs[|seqs| - 1])
  }

  lemma {:induction false} DeliveredAboveFloor(run: seq<StreamState>, events: seq<StreamEvent>, wait: real, floor: int)
    requires IsRun(run, events, wait) && AllAbove(run[0], floor)
    requires forall i :: 0 <= i < |events| ==> !events[i].SetCursor?
    ensures Rising(Delivered(run, events), floor, run[|events|])
    decreases |events|
  {
    if events != [] {
      hide After, AllAbove, Rising, Delivered;
      var n := |events| - 1;
      RunPrefix(run, events, wait);
      DeliveredAboveFloor(run[..n + 1], events[..n], wait, floor);
      DeliveredOneMore(run, events);
      RisingStep(Delivered(run[..n + 1], events[..n]), floor, run[n], events[n], wait);
    }
  }

  lemma DeliveredOneMore(run: seq<StreamState>, events: seq<StreamEvent>)
    requires |run| == |events| + 1 && events != []
    requires forall i :: 0 <= i < |events| && events[i].Take? ==> run[i].queue != []
    ensures var n := |events| - 1;
      Delivered(run, events) ==
      Delivered(run[..n + 1], events[..n]) + (if events[n].Take? then [run[n].queue[0].seqNo] else [])
  {
  }

  lemma RisingStep(seqs: seq<int>, floor: int, st: StreamState, e: StreamEvent, wait: real)
    requires Rising(seqs, floor, st) && Possible(st, e) && !e.SetCursor?
    ensures Rising(seqs + (if e.Take? then [st.queue[0].seqNo] else []), floor, After(st, e, wait))
  {
    hide After, AllAbove, Ascending;
    EventKeepsAbove(st, e, wait, if seqs == [] then floor else seqs[|seqs| - 1]);
    if e.Take? {
      AscendingSnoc(seqs, st.queue[0].seqNo, floor);
    } else {
      assert seqs + [] == seqs;
    }
  }

  lemma RunPrefix(run: seq<StreamState>, events: seq<StreamEvent>, wait: real)
    requires IsRun(run, events, wait) && events != []
    ensures var n := |events| - 1;
      IsRun(run[..n + 1], events[..n], wait) && run[..n + 1][n] == run[n] && run[..n + 1][0] == run[0]
      && Possible(run[n], events[n]) && run[n + 1] == After(run[n], events[n], wait)
  {
  }

  lemma AscendingSnoc(s: seq<int>, x: int, floor: int)
    requires Ascending(s) && (forall i :: 0 <= i < |s| ==> s[i] > floor)
    requires x > if s == [] then floor else s[|s| - 1]
    ensures Ascending(s + [x]) && forall i :: 0 <= i < |s + [x]| ==> (s + [x])[i] > floor
  {
    assert forall i :: 0 <= i < |s| - 1 ==> s[i] < s[|s| - 1];
  }

  /**
   Between two `set_cursor` calls, whatever happens to the journal: the seqs handed out strictly increase
   and all lie above the cursor that was set.
   */
  lemma DeliveryBetweenRewinds(run: seq<StreamState>, events: seq<StreamEvent>, wait: real,
                               before: StreamState, cursor: nat, v: View)
    requires IsRun(run, events, wait) && run[0] == Rewound(before, cursor, v)
    requires forall i :: 0 <= i < |events| ==> !events[i].SetCursor?
    ensures Ascending(Delivered(run, events))
    ensures forall i :: 0 <= i < |Delivered(run, events)| ==> Delivered(run, events)[i] > cursor
  {
    RewoundAbove(before, cursor, v);
    DeliveredAboveFloor(run, events, wait, cursor);
  }

  // ---------- the join counter ----------

  function Pending(st: StreamState): (n: nat) {
    if st.pending.Some? then 1 else 0
  }

  ghost predicate CounterOk(st: StreamState) {
    st.unfinished == |st.queue| + Pending(st) + st.overwritten
  }

  lemma EventKeepsCounter(st: StreamState, e: StreamEvent, wait: real)
    requires CounterOk(st) && Possible(st, e)
    ensures CounterOk(After(st, e, wait))
  {
    if e.Follow? {
      var r := Polled(st.reader, e.v, st.nextSeq, wait, e.now);
      EnqueuedAllInStep(st.(reader := r.state), r.records);
    }
  }

  /**
   The join counter over any run of a new stream: queued ticks, plus the pending one, plus the takes that
   overwrote a pending tick. It is queue length plus pending exactly when the consumer marks before it takes again.
   */
  lemma {:induction false} JoinCounter(run: seq<StreamState>, events: seq<StreamEvent>, wait: real, i: nat,
                                       cursor: nat, symbols: seq<Bytes>)
    requires IsRun(run, events, wait) && i < |run| && run[0] == Fresh(cursor, symbols)
    ensures run[i].unfinished == |run[i].queue| + Pending(run[i]) + run[i].overwritten
    decreases i
  {
    if i > 0 {
      JoinCounter(run, events, wait, i - 1, cursor, symbols);
      EventKeepsCounter(run[i - 1], events[i - 1], wait);
    }
  }

  lemma EventCountsOverwrites(st: StreamState, e: StreamEvent, wait: real)
    requires Possible(st, e)
    ensures After(st, e, wait).overwritten == st.overwritten + (if e.Take? && st.pending.Some? then 1 else 0)
  {
    if e.Follow? {
      hide Polled;
      var r := Polled(st.reader, e.v, st.nextSeq, wait, e.now);
      EnqueuedAllInStep(st.(reader := r.state), r.records);
    }
  }

  lemma {:induction false} OverwrittenCounts(run: seq<StreamState>, events: seq<StreamEvent>, wait: real, i: nat,
                                             cursor: nat, symbols: seq<Bytes>)
    requires IsRun(run, events, wait) && i < |run| && run[0] == Fresh(cursor, symbols)
    ensures run[i].overwritten == 0 <==> forall k :: 0 <= k < i && events[k].Take? ==> run[k].pending.None?
    decreases i
  {
    hide After, Possible;
    if i > 0 {
      OverwrittenCounts(run, events, wait, i - 1, cursor, symbols);
      EventCountsOverwrites(run[i - 1], events[i - 1], wait);
    }
  }

  // ---------- rewinds in the middle of a consume ----------

  /** What one event does to the pending tick and to the flag that forgives a mark. */
  lemma ClaimsAfter(st: StreamState, e: StreamEvent, wait: real)
    requires Possible(st, e)
    ensures var st' := After(st, e, wait);
      && st'.pending ==
         (if e.Take? then Some(st.queue[0].seqNo) else if e.Mark? || e.SetCursor? then None else st.pending)
      && st'.invalidated ==
         (if e.Take? || e.Mark? then false else st.invalidated || (e.SetCursor? && st.pending.Some?))
  {
    if e.Follow? {
      hide Polled;
      var r := Polled(st.reader, e.v, st.nextSeq, wait, e.now);
      EnqueuedAllInStep(st.(reader := r.state), r.records);
    }
  }

  /** Event `k` rewound the stream while a tick was being consumed; nothing was taken or marked from there to `i`. */
  ghost predicate InterruptedAt(run: seq<StreamState>, events: seq<StreamEvent>, k: nat, i: nat)
    requires |run| == |events| + 1
  {
    && k < i <= |events| && events[k].SetCursor? && run[k].pending.Some?
    && forall m :: k < m < i ==> !events[m].Take? && !events[m].Mark?
  }

  lemma {:induction false} FlagIsAnInterruption(run: seq<StreamState>, events: seq<StreamEvent>, wait: real, i: nat,
                                                cursor: nat, symbols: seq<Bytes>)
    requires IsRun(run, events, wait) && i < |run| && run[0] == Fresh(cursor, symbols)
    ensures run[i].invalidated <==> exists k: nat :: InterruptedAt(run, events, k, i)
    decreases i
  {
    hide After, Possible;
    if i > 0 {
      FlagIsAnInterruption(run, events, wait, i - 1, cursor, symbols);
      var st, e := run[i - 1], events[i - 1];
      assert run[i - 1 + 1] == After(st, e, wait);
      ClaimsAfter(st, e, wait);
      if e.SetCursor? && st.pending.Some? {
        assert InterruptedAt(run, events, i - 1, i);
      } else if run[i].invalidated {
        var k: nat :| InterruptedAt(run, events, k, i - 1);
        assert InterruptedAt(run, events, k, i);
      } else {
        forall k: nat ensures !InterruptedAt(run, events, k, i) {
          assert e.Take? || e.Mark? || !InterruptedAt(run, events, k, i - 1);
        }
      }
    }
  }

  /**
   When no tick is pending, a mark is accepted exactly if a rewind hit a pending tick and nothing was taken
   or marked since; it then changes nothing but the flag. Otherwise it raises.
   */
  lemma MarkWithoutPendingIff(run: seq<StreamState>, events: seq<StreamEvent>, wait: real, i: nat,
                              cursor: nat, symbols: seq<Bytes>)
    requires IsRun(run, events, wait) && i < |run| && run[0] == Fresh(cursor, symbols) && run[i].pending.None?
    ensures Marked(run[i]).Some? <==> exists k: nat :: InterruptedAt(run, events, k, i)
    ensures Marked(run[i]).Some? ==> Marked(run[i]).value == run[i].(invalidated := false)
  {
    FlagIsAnInterruption(run, events, wait, i, cursor, symbols);
  }

  /** After a rewind in the middle of a consume, a mark before the next take changes only the flag. */
  lemma {:induction false} FirstMarkIsForgiven(run: seq<StreamState>, events: seq<StreamEvent>, wait: real,
                                               k: nat, i: nat)
    requires IsRun(run, events, wait) && InterruptedAt(run, events, k, i)
    ensures run[i].pending == None && Marked(run[i]) == Some(run[i].(invalidated := false))
    decreases i
  {
    hide After, Possible;
    var st, e := run[i - 1], events[i - 1];
    assert run[i - 1 + 1] == After(st, e, wait);
    ClaimsAfter(st, e, wait);
    if i > k + 1 {
      FirstMarkIsForgiven(run, events, wait, k, i - 1);
    }
  }

  /**
   A rewind in the middle of a consume forgives exactly one mark, over any run: the first mark after it
   changes nothing but the flag, and from then on every mark raises until something is taken.
   */
  lemma OneMarkIsForgiven(run: seq<StreamState>, events: seq<StreamEvent>, wait: real, k: nat, i: nat, j: nat)
    requires IsRun(run, events, wait) && InterruptedAt(run, events, k, i) && i < j <= |events|
    requires events[i].Mark? && forall m :: i < m < j ==> !events[m].Take?
    ensures run[i + 1] == run[i].(invalidated := false)
    ensures run[j].pending == None && Marked(run[j]) == None
  {
    hide After;
    FirstMarkIsForgiven(run, events, wait, k, i);
    assert run[i + 1] == After(run[i], events[i], wait);
    MarkStep(run[i], wait);
    StaysUnclaimed(run, events, wait, i + 1, j);
  }

  lemma MarkStep(st: StreamState, wait: real)
    requires Possible(st, Mark)
    ensures After(st, Mark, wait) == Marked(st).value
  {
  }

  /** Without a pending tick and without the flag, only a take changes that. */
  lemma {:induction false} StaysUnclaimed(run: seq<StreamState>, events: seq<StreamEvent>, wait: real, i: nat, j: nat)
    requires IsRun(run, events, wait) && i <= j < |run| && run[i].pending.None? && !run[i].invalidated
    requires forall m :: i <= m < j ==> !events[m].Take?
    ensures run[j].pending.None? && !run[j].invalidated
    decreases j
  {
    hide After, Possible;
    if j > i {
      StaysUnclaimed(run, events, wait, i, j - 1);
      assert run[j - 1 + 1] == After(run[j - 1], events[j - 1], wait);
      ClaimsAfter(run[j - 1], events[j - 1], wait);
    }
  }

  // ---------- restart ----------

  /** `due` are the records read but not processed: the pending tick, whose seq the stream remembers, then the queue. */
  predicate BacklogIs(st: StreamState, due: seq<JournalRecord>) {
    if st.pending.Some? then due != [] && due[0].seqNo == st.pending.value && due[1..] == st.queue
    else due == st.queue
  }

  /**
   The stream has read the complete lines of `f` before its reader's offset, and of their records those
   above the persisted cursor are exactly the pending tick and the queue.
   */
  ghost predicate Resumable(st: StreamState, f: Bytes) {
    ReadUpTo(st.reader, st.nextSeq, f) && Owes(st, ReadRecords(f, st.reader.offset))
  }

  /** The reader stands at a line start of `f`. */
  ghost predicate ReadUpTo(rd: ReaderState, next: int, f: Bytes) {
    && Anchored(rd) && rd.nextSeq == next
    && (rd.lastSize.Some? ==> rd.lastSize.value <= |f|)
    && rd.offset <= |f| && Terminated(f[..rd.offset])
  }

  function ReadRecords(f: Bytes, o: nat): (rs: seq<JournalRecord>)
    requires o <= |f|
  {
    Records(Kinds(f[..o]))
  }

  /** Of the records read so far, the unprocessed ones are those above the cursor, and all lie below the next seq. */
  ghost predicate Owes(st: StreamState, read: seq<JournalRecord>) {
    && st.saved == st.cursor < st.nextSeq
    && (forall r :: r in read ==> r.seqNo < st.nextSeq)
    && BacklogIs(st, From(read, st.cursor + 1))
    && (st.nextSeq == st.cursor + 1 || HasSeq(read, st.nextSeq - 1))
  }

  ghost predicate HasSeq(rs: seq<JournalRecord>, s: int) {
    exists r :: r in rs && r.seqNo == s
  }

  lemma {:induction false} EnqueuedUnfiltered(st: StreamState, rs: seq<JournalRecord>)
    requires st.symbols == []
    ensures EnqueuedAll(st, rs) ==
            st.(queue := st.queue + rs, unfinished := st.unfinished + |rs|,
                nextSeq := if rs == [] then st.nextSeq else rs[|rs| - 1].seqNo + 1)
    decreases |rs|
  {
    if rs == [] {
      assert st.queue + rs == st.queue;
    } else {
      EnqueuedUnfiltered(Enqueued(st, rs[0]), rs[1..]);
      assert (st.queue + [rs[0]]) + rs[1..] == st.queue + rs;
    }
  }

  lemma {:induction false} FromBelow(rs: seq<JournalRecord>, s: int)
    requires forall r :: r in rs ==> r.seqNo < s
    ensures From(rs, s) == []
  {
    if rs != [] {
      assert rs[0] in rs;
      FromBelow(rs[1..], s);
    }
  }

  lemma {:induction false} FromWithin(rs: seq<JournalRecord>, s: int)
    ensures forall r :: r in From(rs, s) <==> r in rs && r.seqNo >= s
  {
    if rs != [] {
      FromWithin(rs[1..], s);
      assert forall r :: r in rs <==> r == rs[0] || r in rs[1..];
    }
  }

  /** What the first poll of a new stream over a whole journal reads. */
  lemma AttachIsResumable(cursor: nat, f: Bytes, v: View, wait: real, now: real)
    requires v.file == Some(f) && Terminated(f) && Increasing(Kinds(f)) && IndexSound(f, v.index)
    ensures Resumable(Followed(Fresh(cursor, []), v, wait, now), f)
    ensures Followed(Fresh(cursor, []), v, wait, now).queue == From(Records(Kinds(f)), cursor + 1)
  {
    hide Polled, Kinds, Records, Deliver, NextAfter, From, EnqueuedAll, Owes;
    var st := Fresh(cursor, []);
    var start := cursor + 1;
    FirstRead(v, start, wait, now);
    var r := Polled(FRESH, v, start, wait, now);
    EnqueuedUnfiltered(st.(reader := r.state), r.records);
    assert f[..|f|] == f;
    DeliverIsFilter(Kinds(f), start);
    DeliverNext(Kinds(f), start);
    BelowNext(Kinds(f), start);
    OwesAfterAttach(Followed(st, v, wait, now), Records(Kinds(f)), r.records, cursor);
  }

  lemma OwesAfterAttach(st: StreamState, read: seq<JournalRecord>, out: seq<JournalRecord>, cursor: nat)
    requires st.saved == st.cursor == cursor && st.pending.None? && st.queue == [] + out
    requires out == From(read, cursor + 1) && forall r :: r in read ==> r.seqNo < st.nextSeq
    requires st.nextSeq == if out == [] then cursor + 1 else out[|out| - 1].seqNo + 1
    ensures Owes(st, read) && st.queue == From(read, cursor + 1)
  {
    hide From;
    assert [] + out == out;
    if out != [] {
      LastDue(read, cursor + 1);
    }
  }

  lemma LastDue(read: seq<JournalRecord>, s: int)
    requires From(read, s) != []
    ensures var due := From(read, s); due[|due| - 1] in read && due[|due| - 1].seqNo >= s
  {
    FromWithin(read, s);
    var due := From(read, s);
    assert due[|due| - 1] in due;
  }

  lemma FirstRead(v: View, start: int, wait: real, now: real)
    requires v.file.Some? && Terminated(v.file.value) && IndexSound(v.file.value, v.index)
    ensures var r := Polled(FRESH, v, start, wait, now);
      && r.records == Deliver(Kinds(v.file.value), start) && r.state.nextSeq == NextAfter(Kinds(v.file.value), start)
      && Anchored(r.state) && r.state.offset == |v.file.value|
      && r.state.lastSize == Some(|v.file.value|)
  {
    var f := v.file.value;
    if start == 1 {
      assert f[0..] == f;
      var mid := ContinuedPoll(FRESH, v, start, wait, now);
      ReadToEnd(mid, f, wait, now);
      ReadAllFacts(mid, f, wait, now);
    } else {
      RepositionedPoll(FRESH, v, start, wait, now);
      ResetDelivers(FRESH, f, v.index, start);
      var st1 := ResetTo(FRESH, v.file, v.index, start).0;
      var mid := ContinuedPoll(st1, v, start, wait, now);
      ReadAllFacts(mid, f[st1.offset..], wait, now);
    }
  }

  /** Growth of the file by itself changes nothing about what has been read. */
  lemma GrowthKeepsResumable(st: StreamState, f: Bytes, g: Bytes)
    requires Resumable(st, f) && f <= g
    ensures Resumable(st, g)
  {
    assert g[..st.reader.offset] == f[..st.reader.offset];
  }

  /** A further poll, no torn tip given up: what it reads joins the queue. */
  lemma FollowKeepsResumable(st: StreamState, f: Bytes, v: View, wait: real, now: real)
    requires Resumable(st, f) && st.symbols == [] && v.file == Some(f) && Increasing(Kinds(f))
    requires !TornTipSkipped(st.reader, f, wait, now)
    ensures Resumable(Followed(st, v, wait, now), f) && Followed(st, v, wait, now).symbols == []
  {
    hide Followed, ReadRecords, Owes, ReadUpTo, TornTipSkipped, Kinds, Increasing, From, HasSeq;
    var out, m := FollowReads(st, f, v, wait, now);
    var o := st.reader.offset;
    OwesMore(st, Followed(st, v, wait, now), ReadRecords(f, o), ReadRecords(f, o + m), out);
  }

  /** What one turn of the tail-follow loop adds to what has been read, and to the queue. */
  lemma FollowReads(st: StreamState, f: Bytes, v: View, wait: real, now: real) returns (out: seq<JournalRecord>, m: nat)
    requires Resumable(st, f) && st.symbols == [] && v.file == Some(f) && Increasing(Kinds(f))
    requires !TornTipSkipped(st.reader, f, wait, now)
    ensures Grows(st, Followed(st, v, wait, now), f, out, m)
  {
    hide Polled, Kinds, Records, Deliver, NextAfter, BodyLen, ReadRecords, From;
    var o, n := st.reader.offset, st.nextSeq;
    m := BodyLen(f[o..]);
    var reached := PolledOn(st.reader, f, v, wait, now);
    var rd := Polled(st.reader, v, n, wait, now).state;
    out := Polled(st.reader, v, n, wait, now).records;
    ReadMore(f, o, m, st.cursor + 1, n, out, reached);
    EnqueuedUnfiltered(st.(reader := rd), out);
    var st' := Followed(st, v, wait, now);
    assert st' == st.(reader := rd, queue := st.queue + out, unfinished := st.unfinished + |out|, nextSeq := reached);
    GrowsBy(st, st', f, out, m);
  }

  ghost predicate Grows(st: StreamState, st': StreamState, f: Bytes, out: seq<JournalRecord>, m: nat) {
    var o := st.reader.offset;
    && o + m <= |f| && st'.reader.offset == o + m
    && ReadUpTo(st'.reader, st'.nextSeq, f)
    && From(ReadRecords(f, o + m), st.cursor + 1) == From(ReadRecords(f, o), st.cursor + 1) + out
    && (forall r :: r in ReadRecords(f, o + m) ==> r.seqNo < st'.nextSeq)
    && (st'.nextSeq == st.cursor + 1 || HasSeq(ReadRecords(f, o + m), st'.nextSeq - 1))
    && st'.queue == st.queue + out && st'.pending == st.pending && st'.symbols == st.symbols
    && st'.saved == st.saved && st'.cursor == st.cursor && st'.nextSeq >= st.nextSeq
  }

  lemma GrowsBy(st: StreamState, st': StreamState, f: Bytes, out: seq<JournalRecord>, m: nat)
    requires st.reader.offset + m <= |f| && st'.reader.offset == st.reader.offset + m
    requires ReadUpTo(st'.reader, st'.nextSeq, f)
    requires From(ReadRecords(f, st.reader.offset + m), st.cursor + 1) ==
             From(ReadRecords(f, st.reader.offset), st.cursor + 1) + out
    requires forall r :: r in ReadRecords(f, st.reader.offset + m) ==> r.seqNo < st'.nextSeq
    requires st'.nextSeq == st.cursor + 1 || HasSeq(ReadRecords(f, st.reader.offset + m), st'.nextSeq - 1)
    requires st' ==
      st.(reader := st'.reader, queue := st.queue + out, unfinished := st'.unfinished, nextSeq := st'.nextSeq)
    requires st'.nextSeq >= st.nextSeq
    ensures Grows(st, st', f, out, m)
  {
  }

  lemma OwesMore(st: StreamState, st': StreamState, read: seq<JournalRecord>, read': seq<JournalRecord>,
                 out: seq<JournalRecord>)
    requires Owes(st, read)
    requires st'.pending == st.pending && st'.queue == st.queue + out
    requires st'.saved == st.saved && st'.cursor == st.cursor && st'.nextSeq >= st.nextSeq
    requires From(read', st.cursor + 1) == From(read, st.cursor + 1) + out
    requires forall r :: r in read' ==> r.seqNo < st'.nextSeq
    requires st'.nextSeq == st.cursor + 1 || HasSeq(read', st'.nextSeq - 1)
    ensures Owes(st', read')
  {
    var due := From(read, st.cursor + 1);
    if st.pending.Some? {
      assert (due + out)[1..] == due[1..] + out;
    }
  }

  /** A continued poll that keeps its tip: offset, seq and output. */
  lemma PolledOn(rd: ReaderState, f: Bytes, v: View, wait: real, now: real) returns (reached: int)
    requires Anchored(rd) && rd.offset <= |f| && v.file == Some(f)
    requires rd.lastSize.Some? ==> rd.lastSize.value <= |f|
    requires !TornTipSkipped(rd, f, wait, now)
    ensures var r := Polled(rd, v, rd.nextSeq, wait, now);
      && Anchored(r.state) && r.state.offset == rd.offset + BodyLen(f[rd.offset..]) && r.state.lastSize == Some(|f|)
      && r.records == Deliver(Kinds(f[rd.offset..]), rd.nextSeq) && r.state.nextSeq == reached
      && reached == NextAfter(Kinds(f[rd.offset..]), rd.nextSeq) >= rd.nextSeq
      && reached == if r.records == [] then rd.nextSeq else r.records[|r.records| - 1].seqNo + 1
  {
    var s := f[rd.offset..];
    var mid := ContinuedPoll(rd, v, rd.nextSeq, wait, now);
    ReadAllFacts(mid, s, wait, now);
    TipKept(rd, mid, s, wait, now);
    DeliverNext(Kinds(s), rd.nextSeq);
    reached := NextAfter(Kinds(s), rd.nextSeq);
  }

  /** The records of a longer complete part, above the cursor: those of the shorter part, then what a poll delivers. */
  lemma ReadMore(f: Bytes, o: nat, m: nat, low: int, next: int, out: seq<JournalRecord>, reached: int)
    requires o <= |f| && Terminated(f[..o]) && m == BodyLen(f[o..]) && Increasing(Kinds(f)) && low <= next
    requires forall r :: r in ReadRecords(f, o) ==> r.seqNo < next
    requires next == low || HasSeq(ReadRecords(f, o), next - 1)
    requires out == Deliver(Kinds(f[o..]), next) && reached == NextAfter(Kinds(f[o..]), next)
    ensures Terminated(f[..o + m])
    ensures From(ReadRecords(f, o + m), low) == From(ReadRecords(f, o), low) + out
    ensures forall r :: r in ReadRecords(f, o + m) ==> r.seqNo < reached
    ensures reached == low || HasSeq(ReadRecords(f, o + m), reached - 1)
  {
    hide Kinds, BodyLen, Deliver, NextAfter, From, Records, Terminated, Increasing;
    var a, b := Kinds(f[..o]), Kinds(f[o..]);
    SplitAt(f, o);
    SplitBody(f, o, m);
    RecordsConcat(a, b);
    DueInRest(a, b, low, next);
    BelowNext(b, next);
    DeliverNext(b, next);
    assert ReadRecords(f, o + m) == Records(a) + Records(b);
  }

  lemma SplitAt(f: Bytes, o: nat)
    requires o <= |f| && Terminated(f[..o])
    ensures Kinds(f) == Kinds(f[..o]) + Kinds(f[o..])
  {
    assert f == f[..o] + f[o..];
    KindsConcat(f[..o], f[o..]);
  }

  lemma SplitBody(f: Bytes, o: nat, m: nat)
    requires o <= |f| && Terminated(f[..o]) && m == BodyLen(f[o..])
    ensures Terminated(f[..o + m]) && Kinds(f[..o + m]) == Kinds(f[..o]) + Kinds(f[o..])
  {
    var a, s := f[..o], f[o..];
    assert f[..o + m] == a + s[..m];
    TerminatedConcat(a, s[..m]);
    KindsConcat(a, s[..m]);
    KindsOfBody(s);
  }

  /** On a well-formed file the records above the cursor in the unread part are those due at the running seq. */
  lemma DueInRest(a: seq<LineKind>, b: seq<LineKind>, low: int, next: int)
    requires Increasing(a + b) && low <= next && (next == low || HasSeq(Records(a), next - 1))
    ensures From(Records(a) + Records(b), low) == From(Records(a), low) + Deliver(b, next)
    ensures forall r :: r in Deliver(b, next) ==> r in Records(b)
  {
    assert Increasing(b) by {
      assert forall i :: 0 <= i < |b| ==> b[i] == (a + b)[i + |a|];
    }
    DeliverIsFilter(b, next);
    FromConcat(Records(a), Records(b), low);
    FromWithin(Records(b), next);
    if next != low {
      RecordsAscend(a, b);
      AllFrom(Records(b), next);
      AllFrom(Records(b), low);
    }
  }

  lemma {:induction false} RecordsFromKinds(ks: seq<LineKind>)
    ensures forall r :: r in Records(ks) ==> exists i :: 0 <= i < |ks| && RecordOf(ks[i]) == Some(r)
  {
    if ks != [] {
      RecordsFromKinds(ks[1..]);
      forall r | r in Records(ks) ensures exists i :: 0 <= i < |ks| && RecordOf(ks[i]) == Some(r) {
        if RecordOf(ks[0]) != Some(r) {
          assert r in Records(ks[1..]);
          var i :| 0 <= i < |ks[1..]| && RecordOf(ks[1..][i]) == Some(r);
          assert RecordOf(ks[i + 1]) == Some(r);
        }
      }
    }
  }

  lemma RecordsAscend(a: seq<LineKind>, b: seq<LineKind>)
    requires Increasing(a + b)
    ensures forall x, y :: x in Records(a) && y in Records(b) ==> x.seqNo < y.seqNo
  {
    RecordsFromKinds(a);
    RecordsFromKinds(b);
    forall x, y | x in Records(a) && y in Records(b) ensures x.seqNo < y.seqNo {
      var i :| 0 <= i < |a| && RecordOf(a[i]) == Some(x);
      var j :| 0 <= j < |b| && RecordOf(b[j]) == Some(y);
      assert (a + b)[i] == a[i] && (a + b)[|a| + j] == b[j];
    }
  }

  /** A consumer that marks before it takes again. */
  lemma TakeKeepsResumable(st: StreamState, f: Bytes)
    requires Resumable(st, f) && st.queue != [] && st.pending.None?
    ensures Resumable(Taken(st), f)
  {
    OwesAfterTake(st, ReadRecords(f, st.reader.offset));
  }

  lemma OwesAfterTake(st: StreamState, read: seq<JournalRecord>)
    requires Owes(st, read) && st.queue != [] && st.pending.None?
    ensures Owes(Taken(st), read)
  {
  }

  /** Marking the pending tick moves the persisted cursor to it and takes it off the backlog. */
  lemma MarkKeepsResumable(st: StreamState, f: Bytes)
    requires Resumable(st, f) && Increasing(Kinds(f)) && Marked(st).Some?
    ensures Resumable(Marked(st).value, f)
  {
    PrefixIncreases(f, st.reader.offset);
    RecordsIncrease(Kinds(f[..st.reader.offset]));
    OwesAfterMark(st, ReadRecords(f, st.reader.offset));
  }

  lemma OwesAfterMark(st: StreamState, read: seq<JournalRecord>)
    requires Owes(st, read) && StrictlyIncreasing(read) && Marked(st).Some?
    ensures Owes(Marked(st).value, read)
  {
    if st.pending.Some? {
      var due := From(read, st.cursor + 1);
      FirstDue(read, st.cursor + 1);
      var st' := Marked(st).value;
      assert st'.cursor == st'.saved == due[0].seqNo && st'.nextSeq == st.nextSeq;
      assert From(read, st'.cursor + 1) == due[1..];
    }
  }

  lemma FirstDue(read: seq<JournalRecord>, s: int)
    requires StrictlyIncreasing(read) && From(read, s) != []
    ensures var due := From(read, s);
      due[0] in read && due[0].seqNo >= s && From(read, due[0].seqNo + 1) == due[1..]
  {
    FromNext(read, s);
    FromWithin(read, s);
    assert From(read, s)[0] in From(read, s);
  }

  lemma PrefixIncreases(f: Bytes, o: nat)
    requires o <= |f| && Terminated(f[..o]) && Increasing(Kinds(f))
    ensures Increasing(Kinds(f[..o]))
  {
    assert f == f[..o] + f[o..];
    KindsConcat(f[..o], f[o..]);
    var ks := Kinds(f[..o]);
    assert forall i :: 0 <= i < |ks| ==> ks[i] == Kinds(f)[i];
  }

  lemma {:induction false} RecordsIncrease(ks: seq<LineKind>)
    requires Increasing(ks)
    ensures StrictlyIncreasing(Records(ks))
  {
    if ks != [] {
      RecordsIncrease(ks[1..]);
      assert ks == [ks[0]] + ks[1..];
      RecordsAscend([ks[0]], ks[1..]);
      if RecordOf(ks[0]).Some? {
        var r := RecordOf(ks[0]).value;
        assert Records([ks[0]])[0] == r && r in Records([ks[0]]);
        assert forall y :: y in Records(ks[1..]) ==> r.seqNo < y.seqNo;
      }
    }
  }

  /** Past the first record at or above `s`, the rest. */
  lemma {:induction false} FromNext(rs: seq<JournalRecord>, s: int)
    requires StrictlyIncreasing(rs)
    ensures var due := From(rs, s); due != [] ==> From(rs, due[0].seqNo + 1) == due[1..]
  {
    if rs != [] {
      if rs[0].seqNo >= s {
        assert forall r :: r in rs[1..] ==> r.seqNo > rs[0].seqNo;
        AllFrom(rs[1..], rs[0].seqNo + 1);
        AllFrom(rs[1..], s);
      } else {
        FromNext(rs[1..], s);
        FromWithin(rs[1..], s);
        var due := From(rs[1..], s);
        if due != [] {
          assert due[0] in due;
        }
      }
    }
  }

  /** A rewind on a journal without a torn tip: nothing is unprocessed, and reading starts behind the new cursor. */
  lemma RewindKeepsResumable(st: StreamState, f: Bytes, cursor: nat, v: View)
    requires Resumable(st, f) && v.file == Some(f) && Terminated(f) && IndexSound(f, v.index)
    ensures Resumable(Rewound(st, cursor, v), f)
  {
    var start := cursor + 1;
    ResetRead(st.reader, f, v.index, start);
    var st' := Rewound(st, cursor, v);
    FromBelow(ReadRecords(f, st'.reader.offset), start);
  }

  /** A reset on a journal without a torn tip puts the cursor at a line start with only lower records before it. */
  lemma ResetRead(rd: ReaderState, f: Bytes, index: seq<IndexEntry>, start: int)
    requires Anchored(rd) && rd.offset <= |f| && Terminated(f[..rd.offset]) && Terminated(f) && IndexSound(f, index)
    requires forall r :: r in ReadRecords(f, rd.offset) ==> r.seqNo < rd.nextSeq
    ensures var rd' := ResetTo(rd, Some(f), index, start).0;
      && Anchored(rd') && rd'.nextSeq == start && rd'.lastSize == rd.lastSize
      && rd'.offset <= |f| && Terminated(f[..rd'.offset])
      && forall r :: r in ReadRecords(f, rd'.offset) ==> r.seqNo < start
  {
    IndexRefinesScan(f, index, start);
    var p := ByteOffset(Some(f), index, start);
    var o := ChooseResetOffset(rd, Some(f), start, p);
    assert f[..0] == [];
    KindsTorn([]);
    ScanFindsTarget(f, start);
    ScanIsBol(f, start);
    AllBelowRecords(Kinds(f[..p]), start);
    assert o == p || (o == rd.offset && start == rd.nextSeq);
    SettledWhole(rd.(offset := o), f, start);
  }

  lemma {:induction false} AllBelowRecords(ks: seq<LineKind>, s: int)
    requires AllBelow(ks, s)
    ensures forall r :: r in Records(ks) ==> r.seqNo < s
  {
    if ks != [] {
      assert AllBelow(ks[1..], s);
      AllBelowRecords(ks[1..], s);
    }
  }

  lemma SettledWhole(rd: ReaderState, f: Bytes, start: int)
    requires rd.offset <= |f| && Terminated(f[..rd.offset]) && Terminated(f)
    ensures var rd' := Settled(rd, Some(f), start).0;
      Anchored(rd') && rd'.offset == rd.offset && rd'.nextSeq == start && rd'.lastSize == rd.lastSize
  {
    var s := f[rd.offset..];
    assert Unread(f, rd.offset) == s;
    assert rd.offset > 0 ==> f[..rd.offset][rd.offset - 1] == f[rd.offset - 1];
    TerminatedSuffix(f, rd.offset);
    if s != [] { TerminatedHasLine(s); }
  }

  /** A forced resync on a journal without a torn tip: the same records count as read. */
  lemma ResyncKeepsResumable(st: StreamState, f: Bytes, v: View)
    requires Resumable(st, f) && v.file == Some(f)
    requires Terminated(f) && Increasing(Kinds(f)) && SharedIndexSound(v, f)
    ensures Resumable(Forced(st, v).0, f)
  {
    hide Kinds, Records, ScanLen, From;
    var rd, next, index := st.reader, st.nextSeq, DiskIndex(v);
    var p := ByteOffset(Some(f), index, next);
    ReloadedIndexSound(v, f);
    IndexRefinesScan(f, index, next);
    ScanReads(f, next);
    SettledWhole(rd.(offset := p, pending := None, logicalBol := None, resyncLogged := false), f, next);
    if next == st.cursor + 1 {
      FromBelow(ReadRecords(f, p), next);
      FromBelow(ReadRecords(f, rd.offset), next);
    } else {
      SameRead(f, rd.offset, next);
    }
  }

  /** Whatever a forced resync puts in quarantine, the skip counter has counted. */
  lemma ForcedCountsQuarantine(st: StreamState, v: View)
    ensures var (st', q, _) := Forced(st, v); st'.reader.skipped == st.reader.skipped + |q|
  {
  }

  /**
   A forced resync after a compaction at or below the next seq. Wherever the reader stood and whatever index its
   process held, the process then holds the index of the meta file, and the next turn of the loop queues exactly the
   records the stream was still due.
   */
  lemma ForcedResyncCatchesUp(st: StreamState, f: Bytes, k: int, v: View, later: View, wait: real, now: real)
    requires Terminated(f) && Increasing(Kinds(f)) && k <= st.nextSeq && st.symbols == []
    requires v.file == later.file == Some(Compacted(f, k)) && SharedIndexSound(v, Compacted(f, k))
    ensures var (st', _, index) := Forced(st, v);
      && Followed(st', later, wait, now).queue == st.queue + From(Records(Kinds(f)), st.nextSeq)
      && (v.meta.Stored? ==> index == v.meta.doc.index)
  {
    hide Polled, Kinds, From, Records, Compacted;
    ReloadedIndexSound(v, Compacted(f, k));
    RebindAfterCompaction(st.reader, f, k, v, st.nextSeq, later, wait, now);
    var st' := Forced(st, v).0;
    var r := Polled(st'.reader, later, st'.nextSeq, wait, now);
    EnqueuedUnfiltered(st'.(reader := r.state), r.records);
  }

  /** Before the place the scan for `next` ends lie lower records only. */
  lemma ScanReads(f: Bytes, next: int)
    ensures var p := if next <= 1 then 0 else ScanLen(f, next);
      p <= |f| && Terminated(f[..p]) && forall r :: r in ReadRecords(f, p) ==> r.seqNo < next
  {
    ScanFindsTarget(f, next);
    AllBelowRecords(Kinds(f[..ScanLen(f, next)]), next);
    assert f[..0] == [];
    KindsTorn([]);
  }

  /** A reader that has read up to `next` has read exactly what the scan for `next` passes. */
  lemma SameRead(f: Bytes, o: nat, next: int)
    requires o <= |f| && Terminated(f[..o]) && Increasing(Kinds(f))
    requires HasSeq(ReadRecords(f, o), next - 1) && forall r :: r in ReadRecords(f, o) ==> r.seqNo < next
    ensures ReadRecords(f, ScanLen(f, next)) == ReadRecords(f, o)
  {
    hide ScanLen;
    var p := ScanLen(f, next);
    ScanFindsTarget(f, next);
    AllBelowRecords(Kinds(f[..p]), next);
    AtTargetOnwards(f, p, next);
    SplitAt(f, o);
    SplitAt(f, p);
    RecordsConcat(Kinds(f[..o]), Kinds(f[o..]));
    RecordsConcat(Kinds(f[..p]), Kinds(f[p..]));
    RecordsAscend(Kinds(f[..o]), Kinds(f[o..]));
    SplitUnique(ReadRecords(f, o), Records(Kinds(f[o..])), ReadRecords(f, p), Records(Kinds(f[p..])), next);
  }

  lemma SplitUnique(a: seq<JournalRecord>, b: seq<JournalRecord>, c: seq<JournalRecord>, d: seq<JournalRecord>,
                    next: int)
    requires a + b == c + d
    requires forall r :: r in a || r in c ==> r.seqNo < next
    requires forall r :: r in b || r in d ==> r.seqNo >= next
    ensures a == c
  {
    var all, m := a + b, if |a| < |c| then |a| else |c|;
    assert a == all[..|a|] && c == (c + d)[..|c|];
    if m < |all| {
      assert all[m] in a || all[m] in b;
      assert all[m].seqNo < next <==> m < |a|;
      assert (c + d)[m].seqNo < next <==> m < |c|;
    }
  }

  lemma AtTargetOnwards(f: Bytes, p: nat, next: int)
    requires p <= |f| && Terminated(f[..p]) && Increasing(Kinds(f)) && (HasLine(f[p..]) ==> AtTarget(f[p..], next))
    ensures forall r :: r in Records(Kinds(f[p..])) ==> r.seqNo >= next
  {
    var s := f[p..];
    SplitAt(f, p);
    if HasLine(s) {
      var line, rest := FirstLine(s);
      KindsCut(line, rest);
      FirstIsLowest(Kinds(f[..p]), Classify(line), Kinds(rest), next);
    } else {
      HasLineIffNewline(s);
      KindsTorn(s);
    }
  }

  lemma FirstIsLowest(front: seq<LineKind>, k: LineKind, rest: seq<LineKind>, next: int)
    requires Increasing(front + ([k] + rest)) && k.Loaded? && k.obj.seqNo >= next
    ensures forall r :: r in Records([k] + rest) ==> r.seqNo >= next
  {
    var all := [k] + rest;
    RecordsFromKinds(all);
    forall r | r in Records(all) ensures r.seqNo >= next {
      var i :| 0 <= i < |all| && RecordOf(all[i]) == Some(r);
      var ks := front + all;
      assert ks[|front|] == k && ks[|front| + i] == all[i];
    }
  }

  // ---------- whole runs ----------

  /** `files[i]` is the journal after event i - 1. It only grows, stays well-formed, and no torn tip is given up. */
  ghost predicate Orderly(run: seq<StreamState>, files: seq<Bytes>, events: seq<StreamEvent>, wait: real) {
    && IsRun(run, events, wait) && |files| == |run|
    && (forall i :: 0 <= i < |events| ==> files[i] <= files[i + 1])
    && (forall i :: 0 <= i < |files| ==> Increasing(Kinds(files[i])))
    && (forall i :: 0 <= i < |events| ==> OrderlyEvent(run[i], events[i], files[i + 1], wait))
  }

  ghost predicate OrderlyEvent(st: StreamState, e: StreamEvent, f: Bytes, wait: real) {
    match e
    case Follow(v, now) =>
      v.file == Some(f) && st.reader.offset <= |f| && !TornTipSkipped(st.reader, f, wait, now)
    case Take => st.pending.None?
    case Mark => true
    case SetCursor(_, v) => v.file == Some(f) && Terminated(f) && IndexSound(f, v.index)
    case Resync(v) => v.file == Some(f) && Terminated(f) && SharedIndexSound(v, f)
    case Subscribe(_) => false
  }

  lemma {:induction false} OrderlyRunResumable(run: seq<StreamState>, files: seq<Bytes>, events: seq<StreamEvent>,
                                               wait: real, i: nat)
    requires Orderly(run, files, events, wait) && i < |run|
    requires Resumable(run[0], files[0]) && run[0].symbols == []
    ensures Resumable(run[i], files[i]) && run[i].symbols == []
    decreases i
  {
    hide Resumable, OrderlyEvent, Possible, After, Increasing, Kinds;
    if i > 0 {
      OrderlyRunResumable(run, files, events, wait, i - 1);
      OrderlyStep(run[i - 1], events[i - 1], files[i - 1], files[i], wait);
    }
  }

  lemma OrderlyStep(st: StreamState, e: StreamEvent, f: Bytes, g: Bytes, wait: real)
    requires Resumable(st, f) && st.symbols == [] && f <= g && Increasing(Kinds(g))
    requires Possible(st, e) && OrderlyEvent(st, e, g, wait)
    ensures Resumable(After(st, e, wait), g) && After(st, e, wait).symbols == []
  {
    GrowthKeepsResumable(st, f, g);
    hide Resumable;
    match e
    case Follow(v, now) => FollowKeepsResumable(st, g, v, wait, now);
    case Take => TakeKeepsResumable(st, g);
    case Mark => MarkKeepsResumable(st, g);
    case SetCursor(cursor, v) => RewindKeepsResumable(st, g, cursor, v);
    case Resync(v) => ResyncKeepsResumable(st, g, v);
    case _ =>
  }

  /**
   Restart safety. Stop an unfiltered stream at any point of an orderly run and start a new one from the
   cursor on disk: its first poll over the journal as it then is queues every pending and queued tick of the
   old stream first, in order, and then everything the old stream had not read yet.
   */
  lemma RestartRedelivers(run: seq<StreamState>, files: seq<Bytes>, events: seq<StreamEvent>, wait: real, i: nat,
                          v: View, now: real) returns (unprocessed: seq<JournalRecord>)
    requires Orderly(run, files, events, wait) && i < |run|
    requires Resumable(run[0], files[0]) && run[0].symbols == []
    requires v.file.Some? && files[i] <= v.file.value
    requires Terminated(v.file.value) && Increasing(Kinds(v.file.value)) && IndexSound(v.file.value, v.index)
    ensures run[i].reader.offset <= |v.file.value|
    ensures BacklogIs(run[i], unprocessed)
    ensures var unread := Deliver(Kinds(v.file.value[run[i].reader.offset..]), run[i].nextSeq);
      Followed(Fresh(run[i].saved, []), v, wait, now).queue == unprocessed + unread
  {
    OrderlyRunResumable(run, files, events, wait, i);
    GrowthKeepsResumable(run[i], files[i], v.file.value);
    unprocessed := RestartFrom(run[i], v.file.value, v, wait, now);
  }

  lemma RestartFrom(st: StreamState, g: Bytes, v: View, wait: real, now: real)
    returns (unprocessed: seq<JournalRecord>)
    requires Resumable(st, g) && v.file == Some(g)
    requires Terminated(g) && Increasing(Kinds(g)) && IndexSound(g, v.index)
    ensures BacklogIs(st, unprocessed)
    ensures var unread := Deliver(Kinds(g[st.reader.offset..]), st.nextSeq);
      Followed(Fresh(st.saved, []), v, wait, now).queue == unprocessed + unread
  {
    hide Followed, Kinds, Records, Deliver, ReadRecords, From;
    var o := st.reader.offset;
    unprocessed := From(ReadRecords(g, o), st.cursor + 1);
    assert BacklogIs(st, unprocessed);
    QueueAfterAttach(st.saved, g, v, wait, now);
    WholeIsReadAndUnread(g, o, st.cursor + 1, st.nextSeq);
  }

  lemma QueueAfterAttach(cursor: nat, g: Bytes, v: View, wait: real, now: real)
    requires v.file == Some(g) && Terminated(g) && Increasing(Kinds(g)) && IndexSound(g, v.index)
    ensures Followed(Fresh(cursor, []), v, wait, now).queue == From(Records(Kinds(g)), cursor + 1)
  {
    AttachIsResumable(cursor, g, v, wait, now);
  }

  lemma WholeIsReadAndUnread(g: Bytes, o: nat, low: int, next: int)
    requires o <= |g| && Terminated(g[..o]) && Increasing(Kinds(g)) && low <= next
    requires next == low || HasSeq(ReadRecords(g, o), next - 1)
    ensures From(Records(Kinds(g)), low) == From(ReadRecords(g, o), low) + Deliver(Kinds(g[o..]), next)
  {
    var a, b := Kinds(g[..o]), Kinds(g[o..]);
    SplitAt(g, o);
    RecordsConcat(a, b);
    DueInRest(a, b, low, next);
  }
}
