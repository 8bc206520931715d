/** The sparse index over the whole life of a journal: appends, torn writes, compaction, trimming, reloads. */
module IndexRuns {
  import opened Bytes
  import opened TickCodec
  import opened JournalLines
  import opened JournalDisk
  import opened SeqIndex
  import opened Compactor

  /** `tip` is the writer's latest seq; `memory` and `disk` are the two copies of the index. */
  datatype Life = Life(file: Bytes, memory: seq<IndexEntry>, disk: seq<IndexEntry>, tip: nat)

  /** `Foreign` bytes are torn writes, blank lines and other lines that carry no seq above the tip. */
  datatype LifeEvent =
    | Append(tick: TradeTick)
    | Foreign(bytes: Bytes)
    | Compact(k: int)
    | PersistIndex
    | ReloadIndex

  ghost predicate WellFormed(f: Bytes, tip: nat) {
    Increasing(AllKinds(f)) && AllBelow(AllKinds(f), tip + 1) && TipOk(f)
  }

  ghost predicate Possible(l: Life, e: LifeEvent) {
    e.Foreign? ==> WellFormed(l.file + e.bytes, l.tip)
  }

  ghost function After(l: Life, e: LifeEvent, interval: nat): (l': Life)
    requires interval > 0
  {
    match e
    case Append(tick) =>
      Life(l.file + RecordLine(JournalRecord(l.tip + 1, tick)),
           Recorded(l.memory, interval, l.tip + 1, |l.file|), l.disk, l.tip + 1)
    case Foreign(bytes) => l.(file := l.file + bytes)
    case Compact(k) =>
      var index := CompactedIndex(l.file, k, l.memory, interval);
      l.(file := Compacted(l.file, k), memory := index, disk := if Rewrites(l.file, k) then index else l.disk)
    case PersistIndex => l.(disk := l.memory)
    case ReloadIndex => l.(memory := l.disk)
  }

  ghost predicate IsLife(run: seq<Life>, events: seq<LifeEvent>, interval: nat) {
    && interval > 0
    && |run| == |events| + 1
    && run[0] == Life([], [IndexEntry(0, 0)], [IndexEntry(0, 0)], 0)
    && forall i :: 0 <= i < |events| ==> Possible(run[i], events[i]) && run[i + 1] == After(run[i], events[i], interval)
  }

  ghost predicate Inv(l: Life) {
    WellFormed(l.file, l.tip) && IndexSound(l.file, l.memory) && IndexSound(l.file, l.disk)
  }

  /** The lines a compaction iterates over: the complete ones, then the torn tip as it stands. */
  lemma AllLinesSplit(f: Bytes)
    ensures var tip := f[BodyLen(f)..];
      AllLines(f) == Lines(f) + (if tip == [] then [] else [tip])
  {
    hide Lines, AllLines, LineLen, BodyEnd;
    var n := BodyLen(f);
    var body, tip := f[..n], f[n..];
    assert f == body + tip;
    AllLinesConcat(body, tip);
    LinesConcat(body, tip);
    TornLines(tip);
  }

  lemma TornLines(tip: Bytes)
    requires !HasNewline(tip)
    ensures Lines(tip) == []
    ensures AllLines(tip) == if tip == [] then [] else [tip]
  {
    HasLineIffNewline(tip);
    assert tip[..|tip|] == tip && tip[|tip|..] == [];
  }

  lemma {:induction false} AllLinesConcat(a: Bytes, b: Bytes)
    requires Terminated(a)
    ensures AllLines(a + b) == Lines(a) + AllLines(b)
    decreases |a|
  {
    if a == [] {
      assert a + b == b;
    } else {
      TerminatedHasLine(a);
      var line, rest := FirstLine(a);
      AllLinesConcat(rest, b);
      LinesCut(line, rest);
      AllLinesCut(line, rest + b);
      Associative(line, rest, b);
      Associative([line], Lines(rest), AllLines(b));
    }
  }

  lemma KindsAreAFront(f: Bytes)
    ensures |Kinds(f)| <= |AllKinds(f)| && AllKinds(f)[..|Kinds(f)|] == Kinds(f)
  {
    AllLinesSplit(f);
  }

  lemma WellFormedKinds(f: Bytes, tip: nat)
    requires WellFormed(f, tip)
    ensures Increasing(Kinds(f)) && AllBelow(Kinds(f), tip + 1)
  {
    KindsAreAFront(f);
    var n := |Kinds(f)|;
    assert forall i :: 0 <= i < n ==> AllKinds(f)[i] == Kinds(f)[i];
  }

  lemma WholeFile(g: Bytes)
    requires Terminated(g)
    ensures TipOk(g) && AllKinds(g) == Kinds(g)
  {
    assert g[..|g|] == g && g[|g|..] == [];
    BodyLenUnique(g, |g|);
    AllKindsTerminated(g);
  }

  lemma IncreasingSnoc(ks: seq<LineKind>, last: LineKind, tip: int)
    requires Increasing(ks) && AllBelow(ks, tip + 1) && (last.Loaded? ==> last.obj.seqNo == tip + 1)
    ensures Increasing(ks + [last]) && AllBelow(ks + [last], tip + 2)
  {
  }

  lemma AppendKeepsWellFormed(f: Bytes, tip: nat, tick: TradeTick)
    requires WellFormed(f, tip)
    ensures WellFormed(f + RecordLine(JournalRecord(tip + 1, tick)), tip + 1)
  {
    var r := JournalRecord(tip + 1, tick);
    WellFormedKinds(f, tip);
    AppendedKinds(f, r);
    RecordLineRoundTrip(r);
    var ks := Kinds(f + RecordLine(r));
    var last := ks[|Kinds(f)|];
    assert ks == Kinds(f) + [last];
    IncreasingSnoc(Kinds(f), last, tip);
    WholeFile(f + RecordLine(r));
  }

  lemma CompactKeepsWellFormed(f: Bytes, tip: nat, k: int)
    requires WellFormed(f, tip)
    ensures WellFormed(Compacted(f, k), tip)
  {
    if Rewrites(f, k) {
      var ks := AllKinds(f);
      var objs := Retained(ks, k);
      RetainedIncrease(ks, k);
      RetainedFrom(ks, k);
      WrittenKinds(objs);
      WholeFile(Written(objs));
      forall i | 0 <= i < |objs| ensures objs[i].seqNo < tip + 1 {
        assert objs[i] in objs;
        var kind :| kind in ks && kind.Loaded? && kind.obj == objs[i];
      }
    }
  }

  lemma AppendKeepsInv(l: Life, tick: TradeTick, interval: nat)
    requires Inv(l) && interval > 0
    ensures Inv(After(l, Append(tick), interval))
  {
    hide EntrySound, RecordLine, Recorded, Kinds, TipOk, AllKinds, AllBelow, Increasing;
    var r := JournalRecord(l.tip + 1, tick);
    AppendKeepsWellFormed(l.file, l.tip, tick);
    WellFormedKinds(l.file, l.tip);
    NewEntrySound(l.file, r);
    IndexSoundnessSurvivesGrowth(l.file, RecordLine(r), l.memory);
    IndexSoundnessSurvivesGrowth(l.file, RecordLine(r), l.disk);
    RecordedSound(l.file + RecordLine(r), l.memory, interval, l.tip + 1, |l.file|);
  }

  lemma EventKeepsInv(l: Life, e: LifeEvent, interval: nat)
    requires Inv(l) && Possible(l, e) && interval > 0
    ensures Inv(After(l, e, interval))
  {
    match e
    case Append(tick) => AppendKeepsInv(l, tick, interval);
    case Foreign(bytes) =>
      IndexSoundnessSurvivesGrowth(l.file, bytes, l.memory);
      IndexSoundnessSurvivesGrowth(l.file, bytes, l.disk);
    case Compact(k) =>
      CompactKeepsWellFormed(l.file, l.tip, k);
      CompactionKeepsIndexSound(l.file, k, l.memory, interval);
    case PersistIndex =>
    case ReloadIndex =>
  }

  lemma {:induction false} LifeKeepsInv(run: seq<Life>, events: seq<LifeEvent>, interval: nat, i: nat)
    requires IsLife(run, events, interval) && i < |run|
    ensures Inv(run[i])
    decreases i
  {
    if i == 0 {
      ZeroEntrySound([], 0);
      assert AllLines([]) == [];
    } else {
      LifeKeepsInv(run, events, interval, i - 1);
      EventKeepsInv(run[i - 1], events[i - 1], interval);
    }
  }

  /**
   In every reachable state, for every seq, the index answers what a walk from byte 0 answers, from
   memory and after a reload alike.
   */
  lemma IndexAlwaysRefinesScan(run: seq<Life>, events: seq<LifeEvent>, interval: nat, i: nat, start: int)
    requires IsLife(run, events, interval) && i < |run|
    ensures var f := run[i].file;
      var scan := if start <= 1 then 0 else ScanLen(f, start);
      ByteOffset(Some(f), run[i].memory, start) == scan && ByteOffset(Some(f), run[i].disk, start) == scan
  {
    LifeKeepsInv(run, events, interval, i);
    IndexRefinesScan(run[i].file, run[i].memory, start);
    IndexRefinesScan(run[i].file, run[i].disk, start);
  }
}
