/** Whole runs of one writer: what its file holds, what deduplication guarantees, and that nobody notices a restart. */
module AppendRuns {
  import opened Bytes
  import opened TickCodec
  import opened JournalLines
  import opened JournalDisk
  import opened SymbolDedup
  import opened JournalMeta
  import opened MetaDurability
  import opened SeqIndex
  import opened Multiples
  import opened Journal

  // ---------- reference: which ticks a run accepts ----------

  /** The trade ids accepted for one symbol, oldest first. */
  function Ids(accepted: seq<TradeTick>, key: Bytes): (ids: seq<Bytes>) {
    if accepted == [] then []
    else
      var last := accepted[|accepted| - 1];
      var ids := Ids(accepted[..|accepted| - 1], key);
      if SymbolKey(last.instId) == key then ids + [last.tradeId] else ids
  }

  /** The id is among the last `window` ids accepted for the tick's symbol. */
  predicate Recent(accepted: seq<TradeTick>, tick: TradeTick, window: nat) {
    tick.tradeId in LastN(Ids(accepted, SymbolKey(tick.instId)), window)
  }

  /** One more tick: accepted unless its symbol is blank or its id recent. */
  function Offered(accepted: seq<TradeTick>, tick: TradeTick, window: nat): (r: seq<TradeTick>) {
    if !HasSymbol(tick) || Recent(accepted, tick, window) then accepted else accepted + [tick]
  }

  function AcceptedTicks(accepted: seq<TradeTick>, ticks: seq<TradeTick>, window: nat): (r: seq<TradeTick>)
    decreases |ticks|
  {
    if ticks == [] then accepted else AcceptedTicks(Offered(accepted, ticks[0], window), ticks[1..], window)
  }

  /** The lines of ticks number `from`, `from + 1`, ... */
  function FileOf(accepted: seq<TradeTick>): (f: Bytes) {
    if accepted == [] then []
    else FileOf(accepted[..|accepted| - 1]) + RecordLine(JournalRecord(|accepted|, accepted[|accepted| - 1]))
  }

  // ---------- runs of the writer ----------

  function AppendedAll(w: Writer, ticks: seq<TradeTick>, s: Settings): (r: (Writer, seq<Option<int>>))
    requires s.Valid()
    decreases |ticks|
  {
    if ticks == [] then (w, [])
    else
      var (w', n) := Appended(w, ticks[0], s);
      var (w'', ns) := AppendedAll(w', ticks[1..], s);
      (w'', [n] + ns)
  }

  function Opening(journal: Option<Bytes>, file: MetaFile, s: Settings): (w: Writer)
    requires s.Valid() && !file.Corrupt?
  {
    Writer(Publisher(Opened(file, s.dedupWindow), 0, false, false), journal, file)
  }

  /** Flush, then open the same directory again. */
  function Restarted(w: Writer, s: Settings): (w': Writer)
    requires s.Valid() && !w.file.Corrupt?
  {
    var (p, file) := Flushed(w.publisher, w.file);
    Opening(w.journal, file, s)
  }

  /**
   The durable copy and memory agree unless the writer is dirty, a dirty writer has an idle flush armed if it uses
   them, and memory is never behind the disk.
   */
  ghost predicate WriterOk(w: Writer, s: Settings)
    requires s.Valid()
  {
    var m := w.publisher.meta;
    && m.latest == m.highWater >= 0
    && MaxSeq(m.index) <= m.latest
    && !w.file.Corrupt? && DiskTip(w.file) <= m.latest
    && (!w.publisher.dirty ==> Payload(w.file) == DocOf(m))
    && w.publisher.timer == (w.publisher.dirty && s.idleFlush)
    && (forall key :: key in m.windows ==> |m.windows[key]| <= s.dedupWindow && Distinct(m.windows[key]))
  }

  lemma MaxSeqBound(index: seq<IndexEntry>, bound: int)
    requires bound >= 0 && forall e :: e in index ==> e.seqNo <= bound
    ensures MaxSeq(index) <= bound
  {
    MaxSeqIsTheMaximum(index);
  }

  lemma RecordedTip(index: seq<IndexEntry>, interval: nat, seqNo: nat, offset: nat)
    requires interval > 0 && MaxSeq(index) <= seqNo
    ensures MaxSeq(Recorded(index, interval, seqNo, offset)) <= seqNo
  {
    MaxSeqIsTheMaximum(index);
    MaxSeqBound(Recorded(index, interval, seqNo, offset), seqNo);
  }

  lemma AcceptedTips(m: MetaState, tick: TradeTick, offset: nat, s: Settings)
    requires s.Valid() && m.latest == m.highWater >= 0 && MaxSeq(m.index) <= m.latest
    ensures var m' := Accepted(m, tick, offset, s);
      m'.latest == m'.highWater == m.latest + 1 && MaxSeq(m'.index) <= m'.latest
  {
    RecordedTip(m.index, s.indexInterval, m.latest + 1, offset);
  }

  lemma AcceptedKeepsWindows(m: MetaState, tick: TradeTick, offset: nat, s: Settings)
    requires s.Valid() && m.latest >= 0
    requires forall key :: key in m.windows ==> |m.windows[key]| <= s.dedupWindow && Distinct(m.windows[key])
    ensures var w := Accepted(m, tick, offset, s).windows;
      forall key :: key in w ==> |w[key]| <= s.dedupWindow && Distinct(w[key])
  {
    PushedStaysAWindow(WindowFor(m, SymbolKey(tick.instId)), s.dedupWindow, tick.tradeId);
  }

  lemma PersistedOk(m: MetaState, file: MetaFile)
    requires m.latest == m.highWater >= 0 && DiskTip(file) <= m.latest && MaxSeq(m.index) <= m.latest
    ensures Persisted(m, file) == (m, Stored(DocOf(m)))
    ensures DiskTip(Persisted(m, file).1) == m.latest
  {
  }

  lemma AppendedOk(w: Writer, tick: TradeTick, s: Settings)
    requires s.Valid() && WriterOk(w, s)
    ensures WriterOk(Appended(w, tick, s).0, s)
  {
    var m := w.publisher.meta;
    if !IsDuplicate(m, tick) {
      var m' := Accepted(m, tick, |Text(w.journal)|, s);
      AcceptedTips(m, tick, |Text(w.journal)|, s);
      AcceptedKeepsWindows(m, tick, |Text(w.journal)|, s);
      hide Accepted, MaxSeq, DiskTip, Distinct, WithLine;
      PersistedOk(m', w.file);
    }
  }

  lemma {:induction false} AppendedAllOk(w: Writer, ticks: seq<TradeTick>, s: Settings)
    requires s.Valid() && WriterOk(w, s)
    ensures WriterOk(AppendedAll(w, ticks, s).0, s)
    decreases |ticks|
  {
    if ticks != [] {
      AppendedOk(w, ticks[0], s);
      AppendedAllOk(Appended(w, ticks[0], s).0, ticks[1..], s);
    }
  }

  // ---------- clean restart ----------

  /** Two writers a caller cannot tell apart: same file, tip, windows and index, whatever is due for publication. */
  ghost predicate Agree(a: Writer, b: Writer) {
    && a.journal == b.journal
    && a.publisher.meta == b.publisher.meta
  }

  lemma RestartAgrees(w: Writer, s: Settings)
    requires s.Valid() && WriterOk(w, s)
    ensures WriterOk(Restarted(w, s), s) && Agree(Restarted(w, s), w)
  {
    var m := w.publisher.meta;
    PersistedOk(m, w.file);
    var (p, file) := Flushed(w.publisher, w.file);
    assert Payload(file) == DocOf(m);
    HydratedBack(m.windows, s.dedupWindow);
  }

  /** Storing the windows and reading them back restores them. */
  lemma HydratedBack(windows: Windows, window: nat)
    requires window > 0
    requires forall key :: key in windows ==> |windows[key]| <= window && Distinct(windows[key])
    ensures HydratedAll(Serialized(windows), window) == windows
  {
    hide HydratedAll, Distinct;
    var hydrated := HydratedAll(Serialized(windows), window);
    forall key: Bytes
      ensures key in hydrated <==> key in windows
      ensures key in windows ==> hydrated[key] == windows[key]
    {
      HydratedBackAt(windows, window, key);
    }
    SameMap(hydrated, windows);
  }

  lemma HydratedBackAt(windows: Windows, window: nat, key: Bytes)
    requires window > 0 && (key in windows ==> |windows[key]| <= window && Distinct(windows[key]))
    ensures var hydrated := HydratedAll(Serialized(windows), window);
      (key in hydrated <==> key in windows) && (key in windows ==> hydrated[key] == windows[key])
  {
    hide Upper, IsUpper, Hydrated, Distinct;
    var hydrated := HydratedAll(Serialized(windows), window);
    if key in windows {
      UpperFixed(key);
      WindowRoundTrip(windows[key], window);
      assert Upper(key) in hydrated;
    }
    if key in hydrated {
      var stored :| stored in windows && Upper(stored) == key;
      UpperFixed(stored);
    }
  }

  /**
   A second process over the same files. After the writer has flushed, a store that has seen no higher tip reloads:
   it then holds the writer's tip, windows and index, whatever it held before.
   */
  lemma ReloadFollowsWriter(w: Writer, m: MetaState, s: Settings)
    requires s.Valid() && WriterOk(w, s) && m.highWater <= w.publisher.meta.latest
    ensures var file := Flushed(w.publisher, w.file).1;
      !file.Corrupt? && Reloaded(m, file, s.dedupWindow) == w.publisher.meta
  {
    PersistedOk(w.publisher.meta, w.file);
    var file := Flushed(w.publisher, w.file).1;
    assert Payload(file) == DocOf(w.publisher.meta);
    HydratedBack(w.publisher.meta.windows, s.dedupWindow);
  }

  lemma AgreeStep(a: Writer, b: Writer, tick: TradeTick, s: Settings)
    requires s.Valid() && WriterOk(a, s) && WriterOk(b, s) && Agree(a, b)
    ensures Agree(Appended(a, tick, s).0, Appended(b, tick, s).0)
    ensures Appended(a, tick, s).1 == Appended(b, tick, s).1
  {
    var m := a.publisher.meta;
    if !IsDuplicate(m, tick) {
      var m' := Accepted(m, tick, |Text(a.journal)|, s);
      AcceptedTips(m, tick, |Text(a.journal)|, s);
      hide Accepted, Persisted, RecordLine, MaxSeq, DiskTip;
      PersistedOk(m', a.file);
      PersistedOk(m', b.file);
    }
  }

  lemma {:induction false} AgreeRun(a: Writer, b: Writer, ticks: seq<TradeTick>, s: Settings)
    requires s.Valid() && WriterOk(a, s) && WriterOk(b, s) && Agree(a, b)
    ensures Agree(AppendedAll(a, ticks, s).0, AppendedAll(b, ticks, s).0)
    ensures AppendedAll(a, ticks, s).1 == AppendedAll(b, ticks, s).1
    decreases |ticks|
  {
    if ticks != [] {
      AgreeStep(a, b, ticks[0], s);
      AppendedOk(a, ticks[0], s);
      AppendedOk(b, ticks[0], s);
      AgreeRun(Appended(a, ticks[0], s).0, Appended(b, ticks[0], s).0, ticks[1..], s);
    }
  }

  lemma {:induction false} AppendedAllConcat(w: Writer, xs: seq<TradeTick>, ys: seq<TradeTick>, s: Settings)
    requires s.Valid()
    ensures var (w1, ns1) := AppendedAll(w, xs, s);
      AppendedAll(w, xs + ys, s) == (AppendedAll(w1, ys, s).0, ns1 + AppendedAll(w1, ys, s).1)
    decreases |xs|
  {
    if xs == [] {
      assert xs + ys == ys;
      assert [] + AppendedAll(w, ys, s).1 == AppendedAll(w, ys, s).1;
    } else {
      assert (xs + ys)[0] == xs[0] && (xs + ys)[1..] == xs[1..] + ys;
      var (w', n) := Appended(w, xs[0], s);
      AppendedAllConcat(w', xs[1..], ys, s);
      var (w1, ns) := AppendedAll(w', xs[1..], s);
      Associative([n], ns, AppendedAll(w1, ys, s).1);
    }
  }

  /**
   Appending xs, flushing, reopening the directory and appending ys is the same as appending xs + ys in
   one go: the same journal bytes, the same returned seqs (hence the same duplicates dropped), the
   same tip, windows and index.
   */
  lemma CleanRestartUnobservable(w: Writer, xs: seq<TradeTick>, ys: seq<TradeTick>, s: Settings)
    requires s.Valid() && WriterOk(w, s)
    ensures var (w1, ns1) := AppendedAll(w, xs, s);
      !w1.file.Corrupt? &&
      var (w2, ns2) := AppendedAll(Restarted(w1, s), ys, s);
      var (one, ns) := AppendedAll(w, xs + ys, s);
      ns == ns1 + ns2 && Agree(w2, one)
  {
    AppendedAllOk(w, xs, s);
    var w1 := AppendedAll(w, xs, s).0;
    RestartAgrees(w1, s);
    AgreeRun(Restarted(w1, s), w1, ys, s);
    AppendedAllConcat(w, xs, ys, s);
  }

  // ---------- any writer, whatever its meta file held ----------

  /**
   Offering a tick twice in a row is offering it once, for every writer, one with a damaged tip included. A tick that
   has a symbol is known from then on, also where the first offer raises.
   */
  lemma AppendIsIdempotent(w: Writer, tick: TradeTick, s: Settings)
    requires s.Valid()
    ensures var w' := Appended(w, tick, s).0;
      Appended(w', tick, s) == (w', if HasSymbol(tick) then Some(w'.publisher.meta.latest) else None)
  {
    hide NotedAppend, Recorded, RecordLine;
    var m := w.publisher.meta;
    if HasSymbol(tick) && !IsDuplicate(m, tick) {
      NotedIsKnown(m, tick, s);
      PublishedKeepsWindows(w, tick, s);
    }
  }

  lemma NotedIsKnown(m: MetaState, tick: TradeTick, s: Settings)
    requires s.Valid()
    ensures IsDuplicate(Noted(m, tick, s), tick)
  {
    var w, id := WindowFor(m, SymbolKey(tick.instId)), tick.tradeId;
    var pushed := Pushed(w, s.dedupWindow, id);
    assert id !in w ==> pushed[|pushed| - 1] == id;
  }

  lemma PublishedKeepsWindows(w: Writer, tick: TradeTick, s: Settings)
    requires s.Valid() && HasSymbol(tick) && !IsDuplicate(w.publisher.meta, tick)
    ensures Appended(w, tick, s).0.publisher.meta.windows == Noted(w.publisher.meta, tick, s).windows
  {
    hide Recorded, RecordLine, Noted, IsDuplicate, HasSymbol;
  }

  /** A trade id among the newest stored for a symbol, written in whatever case, is refused after opening the file. */
  lemma StoredIdsAreKnown(doc: MetaDoc, key: Bytes, id: Bytes, tick: TradeTick, window: nat)
    requires window > 0 && key in doc.seen && forall k :: k in doc.seen ==> Distinct(doc.seen[k])
    requires id in doc.seen[key][if |doc.seen[key]| <= window then 0 else |doc.seen[key]| - window..]
    requires SymbolKey(tick.instId) == Upper(key) && tick.tradeId == id
    ensures IsDuplicate(Opened(Stored(doc), window), tick)
  {
    hide HydratedAll, Distinct, Upper, DocTip, SymbolKey;
    HydratedByUpperCase(doc.seen, window);
  }

  // ---------- what a run leaves behind ----------

  /** Where the line of a seq starts in the file of these ticks; seq 0 stands for the start of the file. */
  function StartOf(accepted: seq<TradeTick>, seqNo: nat): (o: nat)
    requires seqNo <= |accepted|
  {
    if seqNo == 0 then 0 else |FileOf(accepted[..seqNo - 1])|
  }

  /** A multiple of the interval with the place of its line. */
  predicate IsCheckpoint(e: IndexEntry, accepted: seq<TradeTick>, interval: nat)
    requires interval > 0
  {
    0 <= e.seqNo <= |accepted| && e.seqNo % interval == 0 && e.offset == StartOf(accepted, e.seqNo)
  }

  /** The table holds checkpoints only, in order, and misses none but those older than a full table. */
  ghost predicate Checkpointed(index: seq<IndexEntry>, accepted: seq<TradeTick>, interval: nat)
    requires interval > 0
  {
    && |index| <= SEQ_INDEX_MAX_ENTRIES && IndexIncreases(index)
    && (forall e :: e in index ==> IsCheckpoint(e, accepted, interval))
    && forall e :: IsCheckpoint(e, accepted, interval) ==> Held(index, e)
  }

  lemma CheckpointsOfLonger(accepted: seq<TradeTick>, tick: TradeTick, interval: nat, e: IndexEntry)
    requires interval > 0
    ensures var n := |accepted| + 1;
      IsCheckpoint(e, accepted + [tick], interval) <==>
      || IsCheckpoint(e, accepted, interval)
      || (n % interval == 0 && e == IndexEntry(n, |FileOf(accepted)|))
  {
    var longer, n := accepted + [tick], |accepted| + 1;
    assert longer[..n - 1] == accepted;
    if 0 < e.seqNo < n {
      assert longer[..e.seqNo - 1] == accepted[..e.seqNo - 1];
    }
  }

  lemma CheckpointedOneMore(index: seq<IndexEntry>, accepted: seq<TradeTick>, tick: TradeTick, interval: nat)
    requires interval > 0 && Checkpointed(index, accepted, interval)
    ensures var index' := Recorded(index, interval, |accepted| + 1, |FileOf(accepted)|);
      Checkpointed(index', accepted + [tick], interval)
  {
    hide FileOf, Held, LastEntries, IndexIncreases;
    var longer, entry := accepted + [tick], IndexEntry(|accepted| + 1, |FileOf(accepted)|);
    forall e: IndexEntry
      ensures IsCheckpoint(e, longer, interval) <==>
        IsCheckpoint(e, accepted, interval) || (entry.seqNo % interval == 0 && e == entry)
    {
      CheckpointsOfLonger(accepted, tick, interval, e);
    }
    assert IsCheckpoint(IndexEntry(0, 0), accepted, interval);
    HeldSomewhere(index, IndexEntry(0, 0));
    forall e | e in index ensures e.seqNo < entry.seqNo {
      assert IsCheckpoint(e, accepted, interval);
    }
    hide IsCheckpoint;
    if entry.seqNo % interval == 0 {
      TableGrows(index, entry);
      assert Recorded(index, interval, entry.seqNo, entry.offset) == LastEntries(index + [entry]);
    } else {
      TableFits(index);
    }
  }

  /** Memory and file of a writer that started empty and accepted these ticks. */
  ghost predicate Describes(w: Writer, accepted: seq<TradeTick>, s: Settings)
    requires s.Valid()
  {
    && w.publisher.meta.latest == |accepted|
    && Text(w.journal) == FileOf(accepted)
    && Checkpointed(w.publisher.meta.index, accepted, s.indexInterval)
    && forall key :: WindowFor(w.publisher.meta, key) == LastN(Ids(accepted, key), s.dedupWindow)
  }

  lemma PushedLastN(ids: seq<Bytes>, window: nat, id: Bytes)
    requires window > 0 && id !in LastN(ids, window)
    ensures Pushed(LastN(ids, window), window, id) == LastN(ids + [id], window)
  {
    if |ids| >= window {
      assert LastN(ids, window)[1..] == ids[|ids| - window + 1..];
      assert (ids + [id])[|ids| + 1 - window..] == ids[|ids| + 1 - window..] + [id];
    }
  }

  lemma DescribesStep(w: Writer, accepted: seq<TradeTick>, tick: TradeTick, s: Settings)
    requires s.Valid() && WriterOk(w, s) && Describes(w, accepted, s)
    ensures var (w', n) := Appended(w, tick, s);
      var longer := Offered(accepted, tick, s.dedupWindow);
      && Describes(w', longer, s)
      && n == if HasSymbol(tick) then Some(|longer|) else None
  {
    var m, key := w.publisher.meta, SymbolKey(tick.instId);
    assert IsDuplicate(m, tick) <==> Recent(accepted, tick, s.dedupWindow);
    hide FileOf, Ids, Checkpointed, IsDuplicate, Recent, HasSymbol, Accepted, NotedAppend, WithLine, WindowFor, LastN;
    if HasSymbol(tick) && !IsDuplicate(m, tick) {
      var offset := |Text(w.journal)|;
      AppendedAccepts(w, tick, s);
      AcceptedTips(m, tick, offset, s);
      WindowsDescribed(m, accepted, tick, offset, s);
      CheckpointedOneMore(m.index, accepted, tick, s.indexInterval);
      AcceptedIndex(m, tick, offset, s);
      FileOfOneMore(w.journal, accepted, tick);
    }
  }

  lemma AppendedAccepts(w: Writer, tick: TradeTick, s: Settings)
    requires s.Valid() && WriterOk(w, s) && HasSymbol(tick) && !IsDuplicate(w.publisher.meta, tick)
    ensures var (w', n) := Appended(w, tick, s);
      && w'.publisher.meta == Accepted(w.publisher.meta, tick, |Text(w.journal)|, s)
      && w'.journal == WithLine(w.journal, w.publisher.meta.latest + 1, tick)
      && n == Some(w.publisher.meta.latest + 1)
  {
    AcceptedTips(w.publisher.meta, tick, |Text(w.journal)|, s);
    hide Accepted, WithLine, MaxSeq, DiskTip, HasSymbol, IsDuplicate;
    PersistedOk(Accepted(w.publisher.meta, tick, |Text(w.journal)|, s), w.file);
  }

  lemma AcceptedIndex(m: MetaState, tick: TradeTick, offset: nat, s: Settings)
    requires s.Valid() && m.latest >= 0
    ensures Accepted(m, tick, offset, s).index == Recorded(m.index, s.indexInterval, m.latest + 1, offset)
  {
    hide Recorded, Noted;
  }

  lemma FileOfOneMore(journal: Option<Bytes>, accepted: seq<TradeTick>, tick: TradeTick)
    requires Text(journal) == FileOf(accepted)
    ensures Text(WithLine(journal, |accepted| + 1, tick)) == FileOf(accepted + [tick])
  {
    hide RecordLine;
    FileOfCut(accepted + [tick]);
    assert (accepted + [tick])[..|accepted|] == accepted;
  }

  lemma WindowsDescribed(m: MetaState, accepted: seq<TradeTick>, tick: TradeTick, offset: nat, s: Settings)
    requires s.Valid() && m.latest >= 0 && !IsDuplicate(m, tick)
    requires forall key :: WindowFor(m, key) == LastN(Ids(accepted, key), s.dedupWindow)
    ensures forall key ::
      WindowFor(Accepted(m, tick, offset, s), key) == LastN(Ids(accepted + [tick], key), s.dedupWindow)
  {
    var key, m' := SymbolKey(tick.instId), Accepted(m, tick, offset, s);
    var longer := accepted + [tick];
    assert longer[..|longer| - 1] == accepted && longer[|longer| - 1] == tick;
    PushedLastN(Ids(accepted, key), s.dedupWindow, tick.tradeId);
    forall k ensures WindowFor(m', k) == LastN(Ids(longer, k), s.dedupWindow) {
      if k != key {
        assert WindowFor(m', k) == WindowFor(m, k);
      }
    }
  }

  lemma {:induction false} RunDescribed(w: Writer, accepted: seq<TradeTick>, ticks: seq<TradeTick>, s: Settings)
    requires s.Valid() && WriterOk(w, s) && Describes(w, accepted, s)
    ensures Describes(AppendedAll(w, ticks, s).0, AcceptedTicks(accepted, ticks, s.dedupWindow), s)
    decreases |ticks|
  {
    if ticks != [] {
      AppendedOk(w, ticks[0], s);
      DescribesStep(w, accepted, ticks[0], s);
      var w' := Appended(w, ticks[0], s).0;
      RunDescribed(w', Offered(accepted, ticks[0], s.dedupWindow), ticks[1..], s);
    }
  }

  lemma FileOfCut(accepted: seq<TradeTick>)
    requires accepted != []
    ensures FileOf(accepted) == FileOf(accepted[..|accepted| - 1])
                                + RecordLine(JournalRecord(|accepted|, accepted[|accepted| - 1]))
  {
  }

  /** The lines are the accepted ticks in order, numbered 1, 2, ... */
  ghost predicate Numbered(ks: seq<LineKind>, accepted: seq<TradeTick>) {
    && |ks| == |accepted|
    && forall i :: 0 <= i < |accepted| ==> RecordOf(ks[i]) == Some(JournalRecord(i + 1, accepted[i]))
  }

  lemma EmptyFileNumbered()
    ensures Terminated(FileOf([])) && Numbered(Kinds(FileOf([])), [])
  {
    assert Lines([]) == [];
  }

  lemma NumberedOneMore(ks: seq<LineKind>, front: seq<TradeTick>, k: LineKind, tick: TradeTick)
    requires Numbered(ks, front) && RecordOf(k) == Some(JournalRecord(|front| + 1, tick))
    ensures Numbered(ks + [k], front + [tick])
  {
  }

  /** The records of the file: seqs 1, 2, ... in order of acceptance. */
  lemma {:induction false} FileOfRecords(accepted: seq<TradeTick>)
    ensures Terminated(FileOf(accepted)) && Numbered(Kinds(FileOf(accepted)), accepted)
  {
    hide FileOf, Kinds, Numbered, RecordLine, Terminated;
    if accepted == [] {
      EmptyFileNumbered();
    } else {
      var front, tick := accepted[..|accepted| - 1], accepted[|accepted| - 1];
      FileOfRecords(front);
      FileOfCut(accepted);
      RecordExtends(FileOf(front), front, tick);
      assert front + [tick] == accepted;
    }
  }

  lemma RecordExtends(f: Bytes, front: seq<TradeTick>, tick: TradeTick)
    requires Terminated(f) && Numbered(Kinds(f), front)
    ensures var g := f + RecordLine(JournalRecord(|front| + 1, tick));
      Terminated(g) && Numbered(Kinds(g), front + [tick])
  {
    hide RecordLine, Kinds, RecordOf, Numbered;
    var r := JournalRecord(|front| + 1, tick);
    RecordLineRoundTrip(r);
    KindsConcat(f, RecordLine(r));
    TerminatedConcat(f, RecordLine(r));
    var b := Kinds(RecordLine(r));
    assert b == [b[0]];
    NumberedOneMore(Kinds(f), front, b[0], tick);
  }

  /**
   A run over an empty directory: the file decodes to the accepted ticks with seqs 1..n, where a tick is
   accepted unless its symbol is blank or its id is among the last `dedupWindow` accepted for its symbol. The
   index in memory holds the newest checkpoints of the run, each with the place of its line.
   */
  lemma AppendRun(ticks: seq<TradeTick>, s: Settings)
    requires s.Valid()
    ensures var w := AppendedAll(Opening(None, Missing, s), ticks, s).0;
      var accepted := AcceptedTicks([], ticks, s.dedupWindow);
      && Terminated(Text(w.journal))
      && Numbered(Kinds(Text(w.journal)), accepted)
      && w.publisher.meta.latest == |accepted|
      && Text(w.journal) == FileOf(accepted) && Checkpointed(w.publisher.meta.index, accepted, s.indexInterval)
  {
    var w := Opening(None, Missing, s);
    FreshOk(s);
    RunDescribed(w, [], ticks, s);
    FileOfRecords(AcceptedTicks([], ticks, s.dedupWindow));
  }

  /**
   Looking a seq up costs less than one interval of lines: after a run, the walk to a seq the table reaches back to
   starts at the line of the last checkpoint at or below it.
   */
  lemma LookupIsShort(index: seq<IndexEntry>, accepted: seq<TradeTick>, interval: nat, start: nat)
    requires interval > 0 && Checkpointed(index, accepted, interval) && start <= |accepted|
    requires |index| == SEQ_INDEX_MAX_ENTRIES ==> index[0].seqNo <= start - start % interval
    ensures var m := start - start % interval;
      start - interval < m <= start && Hint(index, start) == StartOf(accepted, m)
  {
    hide StartOf, Hint;
    var m := start - start % interval;
    LastMultiple(start, interval);
    var e := IndexEntry(m, StartOf(accepted, m));
    assert IsCheckpoint(e, accepted, interval);
    assert Held(index, e) && (|index| == SEQ_INDEX_MAX_ENTRIES ==> index[0] in index);
    var i :| 0 <= i < |index| && index[i] == e;
    if i + 1 < |index| {
      assert index[i + 1] in index && IsCheckpoint(index[i + 1], accepted, interval);
    }
    HintIsClosest(index, start, i + 1);
  }

  lemma FreshOk(s: Settings)
    requires s.Valid()
    ensures WriterOk(Opening(None, Missing, s), s) && Describes(Opening(None, Missing, s), [], s)
  {
    var m := Opened(Missing, s.dedupWindow);
    assert m.windows == map[];
    assert MaxSeq(m.index) == 0 by { MaxSeqBound(m.index, 0); }
  }

  // ---------- separation ----------

  /** Each accepted tick was not among the recent ones when it came. */
  ghost predicate Deduplicated(accepted: seq<TradeTick>, window: nat) {
    forall j :: 0 <= j < |accepted| ==> !Recent(accepted[..j], accepted[j], window)
  }

  lemma {:induction false} AcceptedDeduplicated(accepted: seq<TradeTick>, ticks: seq<TradeTick>, window: nat)
    requires Deduplicated(accepted, window)
    ensures Deduplicated(AcceptedTicks(accepted, ticks, window), window)
    decreases |ticks|
  {
    if ticks != [] {
      var longer := Offered(accepted, ticks[0], window);
      if longer == accepted {
        AcceptedDeduplicated(accepted, ticks[1..], window);
      } else {
        forall j | 0 <= j < |longer| ensures !Recent(longer[..j], longer[j], window) {
          assert longer[..j] == accepted[..j];
          assert j == |accepted| ==> accepted[..j] == accepted;
        }
        AcceptedDeduplicated(longer, ticks[1..], window);
      }
    }
  }

  lemma {:induction false} IdsConcat(a: seq<TradeTick>, b: seq<TradeTick>, key: Bytes)
    ensures Ids(a + b, key) == Ids(a, key) + Ids(b, key)
    decreases |b|
  {
    if b == [] {
      assert a + b == a;
    } else {
      var n := |b| - 1;
      assert (a + b)[..|a + b| - 1] == a + b[..n];
      assert (a + b)[|a + b| - 1] == b[n];
      IdsConcat(a, b[..n], key);
    }
  }

  /** Between two accepted ticks with the same symbol and id lie at least `window` accepted ticks of that symbol. */
  lemma DuplicatesAreFarApart(ticks: seq<TradeTick>, window: nat, i: nat, j: nat)
    requires var accepted := AcceptedTicks([], ticks, window);
      && i < j < |accepted|
      && SymbolKey(accepted[i].instId) == SymbolKey(accepted[j].instId)
      && accepted[i].tradeId == accepted[j].tradeId
    ensures var accepted := AcceptedTicks([], ticks, window);
      |Ids(accepted[i + 1..j], SymbolKey(accepted[i].instId))| >= window
  {
    var accepted := AcceptedTicks([], ticks, window);
    AcceptedDeduplicated([], ticks, window);
    FarApart(accepted, window, i, j);
  }

  lemma FarApart(accepted: seq<TradeTick>, window: nat, i: nat, j: nat)
    requires i < j < |accepted| && !Recent(accepted[..j], accepted[j], window)
    requires SymbolKey(accepted[i].instId) == SymbolKey(accepted[j].instId)
    requires accepted[i].tradeId == accepted[j].tradeId
    ensures |Ids(accepted[i + 1..j], SymbolKey(accepted[i].instId))| >= window
  {
    var key := SymbolKey(accepted[i].instId);
    var a, b := accepted[..i + 1], accepted[i + 1..j];
    assert accepted[..j] == a + b;
    IdsConcat(a, b, key);
    IdsEndWithLast(a);
    NotRecentIsFar(Ids(a, key), Ids(b, key), accepted[i].tradeId, window);
  }

  lemma IdsEndWithLast(accepted: seq<TradeTick>)
    requires accepted != []
    ensures var last := accepted[|accepted| - 1];
      var ids := Ids(accepted, SymbolKey(last.instId));
      ids != [] && ids[|ids| - 1] == last.tradeId
  {
  }

  lemma NotRecentIsFar(before: seq<Bytes>, between: seq<Bytes>, id: Bytes, window: nat)
    requires before != [] && before[|before| - 1] == id && id !in LastN(before + between, window)
    ensures |between| >= window
  {
    var all := before + between;
    var recent := LastN(all, window);
    assert all[|before| - 1] == id;
    assert forall p :: 0 <= p < |recent| ==> recent[p] == all[p + |all| - |recent|];
    assert forall p :: 0 <= p < |recent| ==> recent[p] != id;
  }
}
