/** The append-only journal: writer, index, compaction and meta behind one object (core/journal/tick_journal.py). */
module Journal {
  import opened Bytes
  import opened TickCodec
  import opened JournalLines
  import opened JournalDisk
  import opened SymbolDedup
  import opened JournalMeta
  import opened MetaDurability
  import opened SeqIndex
  import opened Compactor

  datatype Settings = Settings(dedupWindow: nat, indexInterval: nat, persistInterval: nat, idleFlush: bool) {
    ghost predicate Valid() {
      dedupWindow > 0 && indexInterval > 0 && persistInterval > 0
    }
  }

  /** A writer together with the two files it writes. */
  datatype Writer = Writer(publisher: Publisher, journal: Option<Bytes>, file: MetaFile)

  function WindowFor(m: MetaState, key: Bytes): (w: seq<Bytes>) {
    if key in m.windows then m.windows[key] else []
  }

  function Text(journal: Option<Bytes>): (f: Bytes) {
    if journal.Some? then journal.value else []
  }

  function WithWindow(m: MetaState, key: Bytes, window: seq<Bytes>): (m': MetaState)
    requires IsUpper(key)
  {
    m.(windows := m.windows[key := window])
  }

  /** The trade id of a new tick joins its window. */
  function Noted(m: MetaState, tick: TradeTick, s: Settings): (m': MetaState)
    requires s.Valid()
  {
    var key := SymbolKey(tick.instId);
    WithWindow(m, key, Pushed(WindowFor(m, key), s.dedupWindow, tick.tradeId))
  }

  /** Memory right after the line of an accepted tick is on disk: window, tip and checkpoint. */
  function Accepted(m: MetaState, tick: TradeTick, offset: nat, s: Settings): (m': MetaState)
    requires s.Valid() && m.latest >= -1
  {
    var tipped := WithLatest(Noted(m, tick, s), m.latest + 1);
    tipped.(index := Recorded(m.index, s.indexInterval, m.latest + 1, offset))
  }

  predicate IsDuplicate(m: MetaState, tick: TradeTick) {
    tick.tradeId in WindowFor(m, SymbolKey(tick.instId))
  }

  /** The journal with one more line. */
  function WithLine(journal: Option<Bytes>, seqNo: int, tick: TradeTick): (j: Option<Bytes>) {
    Some(Text(journal) + RecordLine(JournalRecord(seqNo, tick)))
  }

  /** A blank symbol is refused before anything happens. */
  predicate HasSymbol(tick: TradeTick) {
    !IsBlank(Upper(tick.instId))
  }

  /**
   `append`: the writer after it, and the seq it returns; none where it raises. A tip below -1, which only a
   damaged meta file can hold, makes it raise when line and window are already written.
   */
  function Appended(w: Writer, tick: TradeTick, s: Settings): (r: (Writer, Option<int>))
    requires s.Valid()
  {
    var m := w.publisher.meta;
    if !HasSymbol(tick) then (w, None)
    else if IsDuplicate(m, tick) then (w, Some(m.latest))
    else
      var journal := WithLine(w.journal, m.latest + 1, tick);
      if m.latest < -1 then (w.(publisher := w.publisher.(meta := Noted(m, tick, s)), journal := journal), None)
      else
        var m' := Accepted(m, tick, |Text(w.journal)|, s);
        var (p', file') := NotedAppend(w.publisher.(meta := m'), w.file, s.persistInterval, s.idleFlush);
        (Writer(p', journal, file'), Some(m.latest + 1))
  }

  class TickJournal {
    const disk: Disk
    const meta: TickJournalMetaStore
    const durability: TickJournalMetaDurability
    const seqIndex: TickJournalSeqIndex
    const compactor: TickJournalCompactor
    const settings: Settings

    ghost predicate Valid()
      reads meta, meta.buckets.Values
    {
      && settings.Valid()
      && meta.disk == disk && meta.dedupWindow == settings.dedupWindow
      && durability.meta == meta && durability.persistInterval == settings.persistInterval
      && durability.idleFlush == settings.idleFlush
      && seqIndex.meta == meta && seqIndex.disk == disk && seqIndex.interval == settings.indexInterval
      && compactor.meta == meta && compactor.disk == disk && compactor.seqIndex == seqIndex
      && durability.Valid()
    }

    ghost function State(): Writer
      requires durability.meta == meta
      reads disk, meta, durability, meta.buckets.Values
    {
      Writer(durability.State(), disk.journal, disk.meta)
    }

    constructor (disk: Disk, settings: Settings)
      requires settings.Valid() && !disk.meta.Corrupt?
      ensures Valid() && this.disk == disk && this.settings == settings
      ensures fresh(meta) && fresh(durability) && forall key :: key in meta.buckets ==> fresh(meta.buckets[key])
      ensures var p := Publisher(Opened(disk.meta, settings.dedupWindow), 0, false, false);
        State() == Writer(p, disk.journal, disk.meta)
    {
      hide Opened, WindowsOf, HydratedAll, MaxSeq;
      this.disk, this.settings := disk, settings;
      var store := new TickJournalMetaStore(disk, settings.dedupWindow);
      var index := new TickJournalSeqIndex(store, settings.indexInterval);
      meta, seqIndex := store, index;
      durability := new TickJournalMetaDurability(store, settings.persistInterval, settings.idleFlush);
      compactor := new TickJournalCompactor(store, index);
    }

    /** Returns nothing where the source raises. */
    method Append(tick: TradeTick) returns (seqNo: Option<int>)
      requires Valid()
      modifies disk`journal, disk`meta, meta, durability, meta.buckets.Values
      ensures Valid()
      ensures forall key :: key in meta.buckets && key !in old(meta.buckets) ==> fresh(meta.buckets[key])
      ensures (State(), seqNo) == Appended(old(State()), tick, settings)
    {
      hide NotedAppend, Recorded, Pushed, RecordLine, SymbolKey;
      if !HasSymbol(tick) {
        return None;
      }
      ghost var w0, m0 := State(), meta.State();
      var bucket, known := FindBucket(tick);
      if known {
        assert State() == w0;
        return Some(meta.latest);
      }
      var nextSeq := meta.latest + 1;
      var byteOffset := |Text(disk.journal)|;
      disk.journal := WithLine(disk.journal, nextSeq, tick);
      NoteTrade(bucket, m0, tick);
      if nextSeq < 0 {
        assert State() == Appended(w0, tick, settings).0;
        return None;
      }
      CommitAccepted(m0, tick, byteOffset);
      assert durability.State() == w0.publisher.(meta := Accepted(m0, tick, byteOffset, settings));
      durability.NoteAppendLocked();
      seqNo := Some(nextSeq);
    }

    method FindBucket(tick: TradeTick) returns (bucket: SymbolDedupBucket, known: bool)
      requires Valid() && HasSymbol(tick)
      modifies meta
      ensures Valid()
      ensures forall key :: key in meta.buckets && key !in old(meta.buckets) ==> fresh(meta.buckets[key])
      ensures forall key :: key in old(meta.buckets) ==>
        key in meta.buckets && meta.buckets[key] == old(meta.buckets)[key]
      ensures SymbolKey(tick.instId) in meta.buckets && meta.buckets[SymbolKey(tick.instId)] == bucket
      ensures var m0, key := old(meta.State()), SymbolKey(tick.instId);
        meta.State() == WithWindow(m0, key, WindowFor(m0, key))
      ensures known == IsDuplicate(old(meta.State()), tick)
      ensures known ==> meta.State() == old(meta.State())
    {
      hide IsUpper, Upper;
      ghost var m0, key := meta.State(), SymbolKey(tick.instId);
      bucket := meta.GetOrCreateBucket(Upper(tick.instId));
      SameMap(meta.Held(), WithWindow(m0, key, WindowFor(m0, key)).windows);
      known := bucket.Contains(tick.tradeId);
      if known {
        SameMap(WithWindow(m0, key, WindowFor(m0, key)).windows, m0.windows);
      }
    }

    method NoteTrade(bucket: SymbolDedupBucket, ghost m0: MetaState, tick: TradeTick)
      requires Valid()
      requires SymbolKey(tick.instId) in meta.buckets && meta.buckets[SymbolKey(tick.instId)] == bucket
      requires meta.State() == WithWindow(m0, SymbolKey(tick.instId), WindowFor(m0, SymbolKey(tick.instId)))
      modifies bucket
      ensures Valid() && meta.State() == Noted(m0, tick, settings)
    {
      hide IsUpper, Upper;
      ghost var key := SymbolKey(tick.instId);
      assert bucket.order == meta.Held()[key] == WindowFor(m0, key);
      bucket.Add(tick.tradeId);
      assert meta.Held() == Noted(m0, tick, settings).windows;
    }

    /** The rest of the in-memory half of an accepted append: tip and checkpoint. */
    method CommitAccepted(ghost m0: MetaState, tick: TradeTick, byteOffset: nat)
      requires Valid() && meta.latest >= -1 && meta.State() == Noted(m0, tick, settings)
      modifies meta
      ensures Valid() && meta.buckets == old(meta.buckets)
      ensures meta.State() == Accepted(m0, tick, byteOffset, settings)
    {
      var nextSeq := meta.latest + 1;
      meta.SetLatestSeq(nextSeq);
      seqIndex.Record(nextSeq, byteOffset);
    }

    method ByteOffsetForSeq(start: nat) returns (p: nat)
      requires Valid()
      ensures p == ByteOffset(disk.journal, meta.index, start)
    {
      p := seqIndex.ByteOffsetForSeq(start);
    }

    method ReloadSeqIndexFromDisk()
      requires Valid()
      modifies meta
      ensures Valid() && meta.buckets == old(meta.buckets)
      ensures meta.State() == ReloadedIndex(old(meta.State()), disk.meta)
    {
      seqIndex.ReloadFromDisk();
    }

    method QuarantineLine(text: Bytes, reason: QuarantineReason)
      modifies disk`quarantine
      ensures disk.quarantine == old(disk.quarantine) + [QuarantineEntry(text, reason)]
    {
      disk.quarantine := disk.quarantine + [QuarantineEntry(text, reason)];
    }

    method ReadLatestSeqFromDisk() returns (tip: int)
      requires Valid()
      modifies meta
      ensures Valid() && meta.buckets == old(meta.buckets)
      ensures (meta.State(), tip) == ReadTip(old(meta.State()), disk.meta)
    {
      tip := meta.ReadLatestSeqFromDisk();
    }

    /** Advances the durable tip when `tip` is ahead of memory. */
    method EnsureLatestSeqAtLeast(tip: nat) returns (advanced: bool)
      requires Valid()
      modifies disk`meta, meta, durability
      ensures Valid() && meta.buckets == old(meta.buckets)
      ensures advanced == (WithLatest(old(meta.State()), tip).latest > old(meta.latest))
      ensures var p := old(durability.State()).(meta := WithLatest(old(meta.State()), tip));
        (durability.State(), disk.meta) == if advanced then PersistedLocked(p, old(disk.meta)) else (p, old(disk.meta))
    {
      advanced := meta.EnsureLatestSeqAtLeast(tip);
      if advanced {
        durability.PersistLocked();
      }
    }

    method FlushMeta() returns (flushed: bool)
      requires Valid()
      modifies disk`meta, meta, durability
      ensures Valid() && meta.buckets == old(meta.buckets)
      ensures (durability.State(), disk.meta) == Flushed(old(durability.State()), old(disk.meta))
      ensures flushed == old(durability.metaDirty)
    {
      flushed := durability.Flush();
    }

    method CompactBeforeSeq(minRetainSeq: int) returns (removed: nat)
      requires Valid()
      modifies meta, disk`journal, disk`meta, disk`quarantine
      ensures Valid() && meta.buckets == old(meta.buckets)
      ensures old(disk.journal).None? ==> removed == 0
      ensures old(disk.journal).None? ==> unchanged(disk) && meta.State() == old(meta.State())
      ensures old(disk.journal).Some? ==>
        var f := old(disk.journal).value;
        && disk.journal == Some(Compacted(f, minRetainSeq))
        && removed == RemovedBy(f, minRetainSeq)
        && disk.quarantine == old(disk.quarantine) + QuarantinedBy(f, minRetainSeq)
        && (meta.State(), disk.meta) ==
           MetaAfter(f, minRetainSeq, settings.indexInterval, old(meta.State()), old(disk.meta))
    {
      removed := compactor.CompactBeforeSeq(minRetainSeq);
    }
  }
}
