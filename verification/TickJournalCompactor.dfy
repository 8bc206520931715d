/** Prefix drop and index rebuild (core/journal/tick_journal_compactor.py). */
module Compactor {
  import opened Bytes
  import opened TickCodec
  import opened JournalLines
  import opened LineAccounting
  import opened JournalDisk
  import opened JournalMeta
  import opened SeqIndex

  /** Iterating over a file yields its last line too when that line has no newline. */
  function AllLines(f: Bytes): (ls: seq<Bytes>)
    decreases |f|
  {
    if f == [] then [] else [f[..LineLen(f)]] + AllLines(f[LineLen(f)..])
  }

  function AllKinds(f: Bytes): (ks: seq<LineKind>) {
    Map(Classify, AllLines(f))
  }

  function Retained(ks: seq<LineKind>, k: int): (objs: seq<RecordObject>)
    ensures forall i :: 0 <= i < |objs| ==> objs[i].seqNo >= k
  {
    if ks == [] then []
    else if ks[0].Loaded? && ks[0].obj.seqNo >= k then [ks[0].obj] + Retained(ks[1..], k)
    else Retained(ks[1..], k)
  }

  function CountRemoved(ks: seq<LineKind>, k: int): (n: nat) {
    if ks == [] then 0 else (if ks[0].Loaded? && ks[0].obj.seqNo < k then 1 else 0) + CountRemoved(ks[1..], k)
  }

  /** The texts of the lines without a seq, as they go to quarantine. */
  function GarbageTexts(ks: seq<LineKind>): (ts: seq<QuarantineEntry>) {
    if ks == [] then []
    else if ks[0].Garbage? then [QuarantineEntry(ks[0].text, CompactSkip)] + GarbageTexts(ks[1..])
    else GarbageTexts(ks[1..])
  }

  function Written(objs: seq<RecordObject>): (f: Bytes) {
    if objs == [] then [] else Dump(objs[0]) + [NEWLINE] + Written(objs[1..])
  }

  /** Checkpoints for the records from position `i` on, the first of which starts at `offset`. */
  function Checkpoints(objs: seq<RecordObject>, i: nat, offset: nat, interval: nat): (index: seq<IndexEntry>)
    requires i <= |objs| && interval > 0
    decreases |objs| - i
  {
    if i == |objs| then []
    else
      (if i == 0 || objs[i].seqNo % interval == 0 then [IndexEntry(objs[i].seqNo, offset)] else [])
      + Checkpoints(objs, i + 1, offset + |Dump(objs[i])| + 1, interval)
  }

  function RebuiltIndex(objs: seq<RecordObject>, interval: nat): (index: seq<IndexEntry>)
    requires interval > 0
  {
    LastEntries([IndexEntry(0, 0)] + Checkpoints(objs, 0, 0, interval))
  }

  predicate Rewrites(f: Bytes, k: int) {
    k > 1 && (CountRemoved(AllKinds(f), k) > 0 || |GarbageTexts(AllKinds(f))| > 0)
  }

  /** The journal after `compact_before_seq(k)`. */
  function Compacted(f: Bytes, k: int): (g: Bytes) {
    if Rewrites(f, k) then Written(Retained(AllKinds(f), k)) else f
  }

  function CompactedIndex(f: Bytes, k: int, index: seq<IndexEntry>, interval: nat): (index': seq<IndexEntry>)
    requires interval > 0
  {
    if Rewrites(f, k) then RebuiltIndex(Retained(AllKinds(f), k), interval) else index
  }

  function RemovedBy(f: Bytes, k: int): (n: nat) {
    if k > 1 then CountRemoved(AllKinds(f), k) else 0
  }

  function QuarantinedBy(f: Bytes, k: int): (ts: seq<QuarantineEntry>) {
    if k > 1 then GarbageTexts(AllKinds(f)) else []
  }

  /** A rewrite replaces the index and persists meta in the same locked step. */
  function MetaAfter(f: Bytes, k: int, interval: nat, m: MetaState, file: MetaFile): (r: (MetaState, MetaFile))
    requires interval > 0
  {
    if Rewrites(f, k) then Persisted(m.(index := RebuiltIndex(Retained(AllKinds(f), k), interval)), file) else (m, file)
  }

  // ---------- the lines of the file, tip included ----------

  lemma AllLinesCut(line: Bytes, rest: Bytes)
    requires IsLine(line)
    ensures AllLines(line + rest) == [line] + AllLines(rest)
  {
    LineLenCut(line, rest);
  }

  lemma {:induction false} AllLinesTerminated(f: Bytes)
    requires Terminated(f)
    ensures AllLines(f) == Lines(f)
    decreases |f|
  {
    if f != [] {
      TerminatedHasLine(f);
      var line, rest := FirstLine(f);
      AllLinesCut(line, rest);
      LinesCut(line, rest);
      AllLinesTerminated(rest);
    }
  }

  lemma AllKindsTerminated(f: Bytes)
    requires Terminated(f)
    ensures AllKinds(f) == Kinds(f)
  {
    AllLinesTerminated(f);
  }

  // ---------- the rewritten file ----------

  /** The kinds of written-out objects: each object again, in order, and nothing else. */
  ghost predicate Mirrors(ks: seq<LineKind>, objs: seq<RecordObject>) {
    && |ks| == |objs|
    && forall i :: 0 <= i < |objs| ==> ks[i].Loaded? && ks[i].obj == objs[i]
  }

  /** The tick of a line is determined by its object. */
  ghost predicate Faithful(ks: seq<LineKind>, decode: Bytes -> Option<TradeTick>) {
    forall i :: 0 <= i < |ks| && ks[i].Loaded? ==> ks[i].tick == decode(ks[i].obj.body)
  }

  lemma DumpLine(obj: RecordObject)
    ensures IsLine(Dump(obj) + [NEWLINE])
  {
    DumpShape(obj);
  }

  lemma {:induction false} WrittenKinds(objs: seq<RecordObject>)
    ensures Terminated(Written(objs)) && Mirrors(Kinds(Written(objs)), objs)
  {
    if objs == [] {
      assert Lines([]) == [];
    } else {
      var line, rest := Dump(objs[0]) + [NEWLINE], Written(objs[1..]);
      WrittenKinds(objs[1..]);
      DumpLine(objs[0]);
      ClassifyDump(objs[0]);
      KindsCut(line, rest);
      TerminatedConcat(line, rest);
    }
  }

  lemma {:induction false} WrittenConcat(a: seq<RecordObject>, b: seq<RecordObject>)
    ensures Written(a + b) == Written(a) + Written(b)
  {
    if a == [] {
      assert a + b == b;
    } else {
      assert (a + b)[1..] == a[1..] + b;
      WrittenConcat(a[1..], b);
      Associative(Dump(a[0]) + [NEWLINE], Written(a[1..]), Written(b));
    }
  }

  /** Every non-blank line is removed, retained or quarantined, and none of them twice. */
  lemma {:induction false} CompactionAccounting(ks: seq<LineKind>, k: int)
    ensures |ks| - CountBlank(ks) == CountRemoved(ks, k) + |Retained(ks, k)| + |GarbageTexts(ks)|
  {
    if ks != [] {
      CompactionAccounting(ks[1..], k);
    }
  }

  lemma {:induction false} PassConcat(a: seq<LineKind>, b: seq<LineKind>, k: int)
    ensures Retained(a + b, k) == Retained(a, k) + Retained(b, k)
    ensures GarbageTexts(a + b) == GarbageTexts(a) + GarbageTexts(b)
  {
    if a == [] {
      assert a + b == b;
    } else {
      assert (a + b)[1..] == a[1..] + b;
      PassConcat(a[1..], b, k);
    }
  }

  /** The objects of the lines `at`, in order. */
  ghost predicate AreObjectsAt(objs: seq<RecordObject>, ks: seq<LineKind>, at: seq<nat>) {
    && |objs| == |at|
    && forall i :: 0 <= i < |at| ==> at[i] < |ks| && ks[at[i]].Loaded? && objs[i] == ks[at[i]].obj
  }

  /** The texts of the lines `at`, in order, as entries of a compaction. */
  ghost predicate AreSkipsAt(entries: seq<QuarantineEntry>, ks: seq<LineKind>, at: seq<nat>) {
    && |entries| == |at|
    && forall i :: 0 <= i < |at| ==>
      at[i] < |ks| && ks[at[i]].Garbage? && entries[i] == QuarantineEntry(ks[at[i]].text, CompactSkip)
  }

  lemma OneLinePass(kind: LineKind, k: int)
    ensures Retained([kind], k) == if kind.Loaded? && kind.obj.seqNo >= k then [kind.obj] else []
    ensures GarbageTexts([kind]) == if kind.Garbage? then [QuarantineEntry(kind.text, CompactSkip)] else []
  {
    assert [kind][1..] == [];
  }

  /** Kept are the objects of exactly the lines with a seq at or above the watermark, once each and in order. */
  lemma {:induction false} RetainedAreTheLines(ks: seq<LineKind>, k: int) returns (at: seq<nat>)
    ensures Selects(at, |ks|) && AreObjectsAt(Retained(ks, k), ks, at)
    ensures forall i :: 0 <= i < |ks| ==> (i in at <==> IsKept(ks[i], k))
    decreases |ks|
  {
    hide Retained, Selects, AreObjectsAt, IsKept;
    if ks == [] {
      at := [];
      NoLinesPass(k);
    } else {
      var n := |ks| - 1;
      var before := RetainedAreTheLines(ks[..n], k);
      SelectsSnoc(before, n, IsKept(ks[n], k));
      RetainedSnoc(ks, k, before);
      at := if IsKept(ks[n], k) then before + [n] else before;
      assert forall i :: 0 <= i < n ==> ks[..n][i] == ks[i];
    }
  }

  predicate IsKept(kind: LineKind, k: int) {
    kind.Loaded? && kind.obj.seqNo >= k
  }

  lemma RetainedSnoc(ks: seq<LineKind>, k: int, before: seq<nat>)
    requires ks != [] && AreObjectsAt(Retained(ks[..|ks| - 1], k), ks[..|ks| - 1], before)
    ensures var n := |ks| - 1;
      AreObjectsAt(Retained(ks, k), ks, if IsKept(ks[n], k) then before + [n] else before)
  {
    hide Retained, AreObjectsAt;
    var front, last := ks[..|ks| - 1], ks[|ks| - 1];
    assert ks == front + [last];
    PassConcat(front, [last], k);
    OneLinePass(last, k);
    ObjectsSnoc(Retained(front, k), front, before, last);
    assert Retained(front, k) + [] == Retained(front, k);
  }

  /** Quarantined are the texts of exactly the lines that carry no seq and are not blank, once each and in order. */
  lemma {:induction false} SkippedAreTheLines(ks: seq<LineKind>) returns (at: seq<nat>)
    ensures Selects(at, |ks|) && AreSkipsAt(GarbageTexts(ks), ks, at)
    ensures forall i :: 0 <= i < |ks| ==> (i in at <==> ks[i].Garbage?)
    decreases |ks|
  {
    hide GarbageTexts, Selects, AreSkipsAt;
    if ks == [] {
      at := [];
      NoLinesPass(0);
    } else {
      var n := |ks| - 1;
      var before := SkippedAreTheLines(ks[..n]);
      SelectsSnoc(before, n, ks[n].Garbage?);
      SkipsSnoc(ks, before);
      at := if ks[n].Garbage? then before + [n] else before;
      assert forall i :: 0 <= i < n ==> ks[..n][i] == ks[i];
    }
  }

  lemma SkipsSnoc(ks: seq<LineKind>, before: seq<nat>)
    requires ks != [] && AreSkipsAt(GarbageTexts(ks[..|ks| - 1]), ks[..|ks| - 1], before)
    ensures var n := |ks| - 1;
      AreSkipsAt(GarbageTexts(ks), ks, if ks[n].Garbage? then before + [n] else before)
  {
    hide GarbageTexts, AreSkipsAt;
    var front, last := ks[..|ks| - 1], ks[|ks| - 1];
    assert ks == front + [last];
    PassConcat(front, [last], 0);
    OneLinePass(last, 0);
    TextsSnoc(GarbageTexts(front), front, before, last);
    assert GarbageTexts(front) + [] == GarbageTexts(front);
  }

  lemma TextsSnoc(entries: seq<QuarantineEntry>, ks: seq<LineKind>, at: seq<nat>, last: LineKind)
    requires AreSkipsAt(entries, ks, at)
    ensures AreSkipsAt(entries, ks + [last], at)
    ensures last.Garbage? ==>
      AreSkipsAt(entries + [QuarantineEntry(last.text, CompactSkip)], ks + [last], at + [|ks|])
  {
  }

  lemma ObjectsSnoc(objs: seq<RecordObject>, ks: seq<LineKind>, at: seq<nat>, last: LineKind)
    requires AreObjectsAt(objs, ks, at)
    ensures AreObjectsAt(objs, ks + [last], at)
    ensures last.Loaded? ==> AreObjectsAt(objs + [last.obj], ks + [last], at + [|ks|])
  {
  }

  lemma NoLinesPass(k: int)
    ensures Selects([], 0) && Retained([], k) == [] && GarbageTexts([]) == []
    ensures AreObjectsAt([], [], []) && AreSkipsAt([], [], [])
  {
  }

  /** Records of lines that mirror retained objects are the records at or above the watermark. */
  lemma {:induction false} RetainedRecords(ks: seq<LineKind>, k: int, mirror: seq<LineKind>,
                                           decode: Bytes -> Option<TradeTick>)
    requires Faithful(ks, decode) && Faithful(mirror, decode)
    requires Mirrors(mirror, Retained(ks, k))
    ensures Records(mirror) == From(Records(ks), k)
    decreases |ks|
  {
    if ks != [] {
      if ks[0].Loaded? && ks[0].obj.seqNo >= k {
        assert Retained(ks, k)[1..] == Retained(ks[1..], k);
        RetainedRecords(ks[1..], k, mirror[1..], decode);
      } else {
        RetainedRecords(ks[1..], k, mirror, decode);
      }
    }
  }

  lemma KindsFaithful(f: Bytes)
    ensures Faithful(Kinds(f), TickFromBody) && Faithful(AllKinds(f), TickFromBody)
  {
  }

  /** A file from which nothing is removed or skipped holds no record below the watermark. */
  lemma {:induction false} NothingBelow(ks: seq<LineKind>, k: int)
    requires CountRemoved(ks, k) == 0
    ensures From(Records(ks), k) == Records(ks)
  {
    if ks != [] {
      NothingBelow(ks[1..], k);
    }
  }

  /**
   Meaning of compaction on a newline-terminated journal, whatever its lines hold: the records at or
   above the watermark, in order, and no others.
   */
  lemma CompactionKeepsRecords(f: Bytes, k: int)
    requires Terminated(f) && k > 1
    ensures Terminated(Compacted(f, k))
    ensures Records(Kinds(Compacted(f, k))) == From(Records(Kinds(f)), k)
  {
    AllKindsTerminated(f);
    if Rewrites(f, k) {
      WrittenKinds(Retained(AllKinds(f), k));
      KindsFaithful(f);
      KindsFaithful(Compacted(f, k));
      RetainedRecords(AllKinds(f), k, Kinds(Compacted(f, k)), TickFromBody);
    } else {
      NothingBelow(Kinds(f), k);
    }
  }

  /** A consumer standing at or above the watermark cannot tell that records below it are gone. */
  lemma {:induction false} DeliverIgnoresPrefix(a: seq<LineKind>, b: seq<LineKind>, k: int, next: int)
    requires Records(b) == From(Records(a), k) && k <= next
    ensures Deliver(b, next) == Deliver(a, next) && NextAfter(b, next) == NextAfter(a, next)
    decreases |a| + |b|
  {
    if a != [] && (RecordOf(a[0]).None? || RecordOf(a[0]).value.seqNo < k) {
      DeliverIgnoresPrefix(a[1..], b, k, next);
    } else if b != [] && RecordOf(b[0]).None? {
      DeliverIgnoresPrefix(a, b[1..], k, next);
    } else if a != [] && b != [] {
      assert Records(a)[1..] == Records(a[1..]) && Records(b)[1..] == Records(b[1..]);
      assert From(Records(a), k)[1..] == From(Records(a[1..]), k);
      DeliverIgnoresPrefix(a[1..], b[1..], k, Step(a[0], next));
    } else {
      assert a == [] && b == [];
    }
  }

  // ---------- the rebuilt index ----------

  /** Every rebuilt entry but the leading zero points at the start of the line that carries its seq. */
  ghost predicate PointsAtItsLine(f: Bytes, e: IndexEntry) {
    && e.offset < |f|
    && Terminated(f[..e.offset])
    && HasLine(f[e.offset..])
    && var k := Classify(f[e.offset..][..LineLen(f[e.offset..])]);
       k.Loaded? && k.obj.seqNo == e.seqNo
  }

  ghost predicate SeqsIncrease(objs: seq<RecordObject>) {
    forall i, j :: 0 <= i < j < |objs| ==> objs[i].seqNo < objs[j].seqNo
  }

  lemma WrittenSplit(objs: seq<RecordObject>, i: nat)
    requires i < |objs|
    ensures Written(objs) == Written(objs[..i]) + (Dump(objs[i]) + [NEWLINE] + Written(objs[i + 1..]))
  {
    assert objs == objs[..i] + objs[i..];
    assert objs[i..][1..] == objs[i + 1..];
    WrittenConcat(objs[..i], objs[i..]);
  }

  lemma EntryAtRecord(objs: seq<RecordObject>, i: nat)
    requires i < |objs| && SeqsIncrease(objs)
    ensures var e := IndexEntry(objs[i].seqNo, |Written(objs[..i])|);
      EntrySound(Written(objs), e) && PointsAtItsLine(Written(objs), e)
  {
    hide Written, Kinds, Classify, Dump, LineLen;
    var a, line, rest := Written(objs[..i]), Dump(objs[i]) + [NEWLINE], Written(objs[i + 1..]);
    WrittenSplit(objs, i);
    var f := Written(objs);
    assert f == a + (line + rest);
    WrittenKinds(objs[..i]);
    DumpLine(objs[i]);
    ClassifyDump(objs[i]);
    LineLenCut(line, rest);
    assert f[..|a|] == a && f[|a|..] == line + rest;
    assert |a| > 0 ==> f[|a| - 1] == a[|a| - 1] == NEWLINE;
    assert AlignTo(f, |a|) == |a|;
    assert AllBelow(Kinds(a), objs[i].seqNo);
  }

  lemma WrittenTurn(objs: seq<RecordObject>, i: nat)
    requires i < |objs|
    ensures Written(objs[..i + 1]) == Written(objs[..i]) + (Dump(objs[i]) + [NEWLINE])
  {
    assert objs[..i + 1] == objs[..i] + [objs[i]];
    WrittenConcat(objs[..i], [objs[i]]);
    var line := Dump(objs[i]) + [NEWLINE];
    assert line + [] == line;
  }

  lemma CheckpointsTurn(objs: seq<RecordObject>, i: nat, interval: nat)
    requires i < |objs| && interval > 0
    ensures var offset := |Written(objs[..i])|;
      var rest := Checkpoints(objs, i + 1, |Written(objs[..i + 1])|, interval);
      var index := Checkpoints(objs, i, offset, interval);
      index == if i == 0 || objs[i].seqNo % interval == 0 then [IndexEntry(objs[i].seqNo, offset)] + rest else rest
  {
    hide Written, Dump;
    WrittenTurn(objs, i);
    var rest := Checkpoints(objs, i + 1, |Written(objs[..i + 1])|, interval);
    assert [] + rest == rest;
  }

  lemma CheckpointMoved(index: seq<IndexEntry>, objs: seq<RecordObject>, i: nat, interval: nat)
    requires i < |objs| && interval > 0
    ensures var offset := |Written(objs[..i])|;
      var entry := IndexEntry(objs[i].seqNo, offset);
      var index' := if i == 0 || objs[i].seqNo % interval == 0 then index + [entry] else index;
      index + Checkpoints(objs, i, offset, interval)
        == index' + Checkpoints(objs, i + 1, |Written(objs[..i + 1])|, interval)
  {
    hide Written, Checkpoints;
    CheckpointsTurn(objs, i, interval);
    var rest := Checkpoints(objs, i + 1, |Written(objs[..i + 1])|, interval);
    Associative(index, [IndexEntry(objs[i].seqNo, |Written(objs[..i])|)], rest);
  }

  lemma NoCheckpoints(objs: seq<RecordObject>, offset: nat, interval: nat)
    requires interval > 0
    ensures Checkpoints(objs, |objs|, offset, interval) == []
  {
  }

  lemma {:induction false} CheckpointsSound(objs: seq<RecordObject>, i: nat, interval: nat)
    requires i <= |objs| && interval > 0 && SeqsIncrease(objs)
    ensures forall e :: e in Checkpoints(objs, i, |Written(objs[..i])|, interval) ==>
      EntrySound(Written(objs), e) && PointsAtItsLine(Written(objs), e)
    decreases |objs| - i
  {
    hide Checkpoints, Written, EntrySound, PointsAtItsLine, SeqsIncrease;
    if i == |objs| {
      NoCheckpoints(objs, |Written(objs[..i])|, interval);
    } else {
      CheckpointsTurn(objs, i, interval);
      CheckpointsSound(objs, i + 1, interval);
      EntryAtRecord(objs, i);
    }
  }

  lemma {:induction false} CheckpointsIncrease(objs: seq<RecordObject>, i: nat, interval: nat)
    requires i <= |objs| && interval > 0 && SeqsIncrease(objs)
    ensures var index := Checkpoints(objs, i, |Written(objs[..i])|, interval);
      SeqsFrom(index, objs, i) && IndexIncreases(index)
    decreases |objs| - i
  {
    hide Checkpoints, Written, SeqsFrom, IndexIncreases, SeqsIncrease;
    if i == |objs| {
      NoCheckpoints(objs, |Written(objs[..i])|, interval);
      NoneIncrease(objs, i);
    } else {
      CheckpointsTurn(objs, i, interval);
      CheckpointsIncrease(objs, i + 1, interval);
      var rest := Checkpoints(objs, i + 1, |Written(objs[..i + 1])|, interval);
      OneMoreCheckpoint(objs, i, |Written(objs[..i])|, rest);
    }
  }

  lemma NoneIncrease(objs: seq<RecordObject>, i: nat)
    ensures SeqsFrom([], objs, i) && IndexIncreases([])
  {
  }

  /** Every entry carries the seq of one of the objects from number `i` on. */
  ghost predicate SeqsFrom(index: seq<IndexEntry>, objs: seq<RecordObject>, i: nat) {
    forall e :: e in index ==> exists j :: i <= j < |objs| && e.seqNo == objs[j].seqNo
  }

  lemma OneMoreCheckpoint(objs: seq<RecordObject>, i: nat, offset: nat, rest: seq<IndexEntry>)
    requires i < |objs| && SeqsIncrease(objs) && SeqsFrom(rest, objs, i + 1) && IndexIncreases(rest)
    ensures SeqsFrom(rest, objs, i)
    ensures var index := [IndexEntry(objs[i].seqNo, offset)] + rest; SeqsFrom(index, objs, i) && IndexIncreases(index)
  {
    forall y | 0 <= y < |rest| ensures objs[i].seqNo < rest[y].seqNo {
      assert rest[y] in rest;
    }
  }

  /** The index a compaction leaves behind is sound for the file it leaves behind. */
  lemma RebuiltIndexSound(objs: seq<RecordObject>, interval: nat)
    requires interval > 0 && SeqsIncrease(objs)
    ensures IndexSound(Written(objs), RebuiltIndex(objs, interval))
    ensures forall e :: e in RebuiltIndex(objs, interval) ==>
      e == IndexEntry(0, 0) || PointsAtItsLine(Written(objs), e)
  {
    assert objs[..0] == [];
    CheckpointsSound(objs, 0, interval);
    ZeroEntrySound(Written(objs), 0);
    var points := Checkpoints(objs, 0, 0, interval);
    var all := [IndexEntry(0, 0)] + points;
    LastEntriesWithin(all);
    assert forall e :: e in all ==> e == IndexEntry(0, 0) || e in points;
  }

  lemma LastEntriesWithin(index: seq<IndexEntry>)
    ensures forall e :: e in LastEntries(index) ==> e in index
    ensures IndexIncreases(index) ==> IndexIncreases(LastEntries(index))
  {
  }

  /** With positive seqs the rebuilt index is sorted, so a lookup finds the closest entry. */
  lemma RebuiltIndexSorted(objs: seq<RecordObject>, interval: nat)
    requires interval > 0 && SeqsIncrease(objs) && forall i :: 0 <= i < |objs| ==> objs[i].seqNo > 0
    ensures IndexIncreases(RebuiltIndex(objs, interval))
  {
    assert objs[..0] == [] && Written([]) == [];
    hide Checkpoints, Written, Dump;
    CheckpointsIncrease(objs, 0, interval);
    var points := Checkpoints(objs, 0, 0, interval);
    BehindZero(points, objs);
    LastEntriesWithin([IndexEntry(0, 0)] + points);
  }

  lemma BehindZero(points: seq<IndexEntry>, objs: seq<RecordObject>)
    requires SeqsFrom(points, objs, 0) && IndexIncreases(points) && forall i :: 0 <= i < |objs| ==> objs[i].seqNo > 0
    ensures IndexIncreases([IndexEntry(0, 0)] + points)
  {
    assert forall x :: 0 <= x < |points| ==> points[x] in points;
  }

  /** The record at position `i` gets an entry: the first one, and every one whose seq is a multiple of the interval. */
  predicate GetsEntry(objs: seq<RecordObject>, i: nat, interval: nat)
    requires i < |objs| && interval > 0
  {
    i == 0 || objs[i].seqNo % interval == 0
  }

  function EntryOf(objs: seq<RecordObject>, i: nat): (e: IndexEntry)
    requires i < |objs|
  {
    IndexEntry(objs[i].seqNo, |Written(objs[..i])|)
  }

  lemma {:induction false} CheckpointsAre(objs: seq<RecordObject>, i: nat, interval: nat)
    requires i <= |objs| && interval > 0
    ensures var index := Checkpoints(objs, i, |Written(objs[..i])|, interval);
      && (forall j :: i <= j < |objs| && GetsEntry(objs, j, interval) ==> EntryOf(objs, j) in index)
      && forall e :: e in index ==> exists j :: i <= j < |objs| && GetsEntry(objs, j, interval) && e == EntryOf(objs, j)
    decreases |objs| - i
  {
    hide Checkpoints, Written;
    if i == |objs| {
      NoCheckpoints(objs, |Written(objs[..i])|, interval);
    } else {
      CheckpointsTurn(objs, i, interval);
      CheckpointsAre(objs, i + 1, interval);
      var rest := Checkpoints(objs, i + 1, |Written(objs[..i + 1])|, interval);
      forall e | e in Checkpoints(objs, i, |Written(objs[..i])|, interval)
        ensures exists j :: i <= j < |objs| && GetsEntry(objs, j, interval) && e == EntryOf(objs, j)
      {
        assert e in rest || (GetsEntry(objs, i, interval) && e == EntryOf(objs, i));
      }
    }
  }

  /**
   The rebuilt table, besides the leading zero: exactly the entries of the first record and of the interval seqs, each
   at the start of its line, but those older than a full table.
   */
  lemma RebuiltIndexComplete(objs: seq<RecordObject>, interval: nat)
    requires interval > 0 && SeqsIncrease(objs) && forall i :: 0 <= i < |objs| ==> objs[i].seqNo > 0
    ensures var index := RebuiltIndex(objs, interval);
      && |index| <= SEQ_INDEX_MAX_ENTRIES && Held(index, IndexEntry(0, 0))
      && (forall i :: 0 <= i < |objs| && GetsEntry(objs, i, interval) ==> Held(index, EntryOf(objs, i)))
      && forall e :: e in index ==>
           e == IndexEntry(0, 0) || exists i :: 0 <= i < |objs| && GetsEntry(objs, i, interval) && e == EntryOf(objs, i)
  {
    hide Checkpoints, Written, EntryOf, Held, LastEntries, IndexIncreases, GetsEntry;
    assert objs[..0] == [];
    NothingWritten();
    CheckpointsAre(objs, 0, interval);
    CheckpointsIncrease(objs, 0, interval);
    var points := Checkpoints(objs, 0, 0, interval);
    BehindZero(points, objs);
    var all := [IndexEntry(0, 0)] + points;
    TrimmedHolds(all);
    assert forall e :: e in all <==> e == IndexEntry(0, 0) || e in points;
  }

  lemma NothingWritten()
    ensures Written([]) == []
  {
  }

  lemma {:induction false} RetainedFrom(ks: seq<LineKind>, k: int)
    ensures forall o :: o in Retained(ks, k) ==> exists kind :: kind in ks && kind.Loaded? && kind.obj == o
  {
    if ks != [] {
      RetainedFrom(ks[1..], k);
      assert forall kind :: kind in ks[1..] ==> kind in ks;
      assert ks[0] in ks;
    }
  }

  lemma SeqsIncreaseCons(first: RecordObject, objs: seq<RecordObject>)
    requires SeqsIncrease(objs) && forall o :: o in objs ==> first.seqNo < o.seqNo
    ensures SeqsIncrease([first] + objs)
  {
  }

  lemma {:induction false} RetainedIncrease(ks: seq<LineKind>, k: int)
    requires Increasing(ks)
    ensures SeqsIncrease(Retained(ks, k))
  {
    if ks != [] {
      RetainedIncrease(ks[1..], k);
      RetainedFrom(ks[1..], k);
      if ks[0].Loaded? {
        assert forall kind :: kind in ks[1..] && kind.Loaded? ==> ks[0].obj.seqNo < kind.obj.seqNo;
        assert forall o :: o in Retained(ks[1..], k) ==> ks[0].obj.seqNo < o.seqNo;
        SeqsIncreaseCons(ks[0].obj, Retained(ks[1..], k));
      }
    }
  }

  /** Compaction keeps a well-formed journal well-formed and its index sound. */
  lemma CompactionKeepsIndexSound(f: Bytes, k: int, index: seq<IndexEntry>, interval: nat)
    requires Increasing(AllKinds(f)) && IndexSound(f, index) && interval > 0
    ensures IndexSound(Compacted(f, k), CompactedIndex(f, k, index, interval))
  {
    if Rewrites(f, k) {
      RetainedIncrease(AllKinds(f), k);
      RebuiltIndexSound(Retained(AllKinds(f), k), interval);
    }
  }

  // ---------- algebra ----------

  lemma {:induction false} MirrorRetained(ks: seq<LineKind>, objs: seq<RecordObject>, k: int)
    requires Mirrors(ks, objs)
    ensures GarbageTexts(ks) == []
    ensures CountRemoved(ks, k) == 0 <==> forall i :: 0 <= i < |objs| ==> objs[i].seqNo >= k
    ensures CountRemoved(ks, k) == 0 ==> Retained(ks, k) == objs
    decreases |ks|
  {
    if ks != [] {
      MirrorRetained(ks[1..], objs[1..], k);
    }
  }

  lemma {:induction false} RetainedTwice(ks: seq<LineKind>, mirror: seq<LineKind>, k1: int, k2: int)
    requires Mirrors(mirror, Retained(ks, k1)) && k1 <= k2
    ensures Retained(mirror, k2) == Retained(ks, k2)
    decreases |ks|
  {
    if ks != [] {
      if ks[0].Loaded? && ks[0].obj.seqNo >= k1 {
        RetainedTwice(ks[1..], mirror[1..], k1, k2);
      } else {
        RetainedTwice(ks[1..], mirror, k1, k2);
      }
    }
  }

  lemma {:induction false} RemovedMonotone(ks: seq<LineKind>, k1: int, k2: int)
    requires k1 <= k2
    ensures CountRemoved(ks, k1) <= CountRemoved(ks, k2)
  {
    if ks != [] {
      RemovedMonotone(ks[1..], k1, k2);
    }
  }

  /** Two compactions in a row leave the file one compaction at the higher watermark would leave. */
  lemma CompactionComposes(f: Bytes, k1: int, k2: int)
    ensures Compacted(Compacted(f, k1), k2) == Compacted(f, Max(k1, k2))
  {
    var ks := AllKinds(f);
    if k1 <= k2 {
      RemovedMonotone(ks, k1, k2);
    } else {
      RemovedMonotone(ks, k2, k1);
    }
    if Rewrites(f, k1) {
      var objs := Retained(ks, k1);
      var g := Written(objs);
      WrittenKinds(objs);
      AllKindsTerminated(g);
      MirrorRetained(Kinds(g), objs, k2);
      if k1 <= k2 {
        RetainedTwice(ks, Kinds(g), k1, k2);
        MirrorRetained(Kinds(g), objs, k2);
      }
    }
  }

  lemma CompactionIdempotent(f: Bytes, k: int)
    ensures Compacted(Compacted(f, k), k) == Compacted(f, k)
  {
    CompactionComposes(f, k, k);
  }

  function NonBlank(f: Bytes): (n: int) {
    |AllKinds(f)| - CountBlank(AllKinds(f))
  }

  lemma {:induction false} MirrorHasNoBlank(ks: seq<LineKind>, objs: seq<RecordObject>)
    requires Mirrors(ks, objs)
    ensures CountBlank(ks) == 0
    decreases |ks|
  {
    if ks != [] {
      MirrorHasNoBlank(ks[1..], objs[1..]);
    }
  }

  /**
   Every nonblank line of the old file is counted as removed, or is in quarantine, or is still in the new file, whatever
   the file and the watermark; at a watermark up to 1 nothing is removed or quarantined.
   */
  lemma CompactionConserves(f: Bytes, k: int)
    ensures NonBlank(f) == RemovedBy(f, k) + |QuarantinedBy(f, k)| + NonBlank(Compacted(f, k))
    ensures k <= 1 ==> RemovedBy(f, k) == 0 && QuarantinedBy(f, k) == [] && Compacted(f, k) == f
  {
    hide AllKinds, Written;
    var ks := AllKinds(f);
    CompactionAccounting(ks, k);
    if Rewrites(f, k) {
      var objs := Retained(ks, k);
      WrittenKinds(objs);
      AllKindsTerminated(Written(objs));
      MirrorHasNoBlank(AllKinds(Written(objs)), objs);
    }
  }

  /** A file compacted at `k` has nothing left to remove at `k` and nothing to quarantine at any watermark. */
  lemma CompactedIsClean(f: Bytes, k: int, j: int)
    requires k > 1
    ensures RemovedBy(Compacted(f, k), k) == 0 && QuarantinedBy(Compacted(f, k), j) == []
  {
    hide AllKinds, Written;
    if Rewrites(f, k) {
      var objs := Retained(AllKinds(f), k);
      WrittenKinds(objs);
      AllKindsTerminated(Written(objs));
      MirrorRetained(AllKinds(Written(objs)), objs, k);
    }
  }

  /** A compaction with nothing to remove or quarantine touches neither the file, nor the index, nor the meta. */
  lemma CleanIsUntouched(f: Bytes, k: int, interval: nat, m: MetaState, file: MetaFile)
    requires interval > 0 && RemovedBy(f, k) == 0 && QuarantinedBy(f, k) == []
    ensures Compacted(f, k) == f && CompactedIndex(f, k, m.index, interval) == m.index
    ensures MetaAfter(f, k, interval, m, file) == (m, file)
  {
  }

  // ---------- the imperative form ----------

  class TickJournalCompactor {
    const disk: Disk
    const meta: TickJournalMetaStore
    const seqIndex: TickJournalSeqIndex

    ghost predicate Valid()
      reads meta, meta.buckets.Values
    {
      seqIndex.meta == meta && seqIndex.disk == disk && meta.disk == disk && seqIndex.interval > 0 && meta.Valid()
    }

    constructor (meta: TickJournalMetaStore, seqIndex: TickJournalSeqIndex)
      requires meta.Valid() && seqIndex.meta == meta && seqIndex.disk == meta.disk && seqIndex.interval > 0
      ensures Valid() && this.meta == meta && this.seqIndex == seqIndex && disk == meta.disk
    {
      this.meta, this.seqIndex, disk := meta, seqIndex, meta.disk;
    }

    method CompactBeforeSeq(minRetainSeq: int) returns (removed: nat)
      requires Valid()
      modifies meta, disk`journal, disk`meta, disk`quarantine
      ensures Valid() && meta.buckets == old(meta.buckets)
      ensures old(disk.journal).None? ==> removed == 0
      ensures old(disk.journal).None? ==> unchanged(disk) && meta.State() == old(meta.State())
      ensures old(disk.journal).Some? ==>
        var f := old(disk.journal).value;
        && disk.journal == Some(Compacted(f, minRetainSeq))
        && removed == RemovedBy(f, minRetainSeq)
        && disk.quarantine == old(disk.quarantine) + QuarantinedBy(f, minRetainSeq)
        && (meta.State(), disk.meta) == MetaAfter(f, minRetainSeq, seqIndex.interval, old(meta.State()), old(disk.meta))
    {
      if minRetainSeq <= 1 {
        return 0;
      }
      if disk.journal.None? {
        return 0;
      }
      var f := disk.journal.value;
      ghost var m0 := meta.State();
      var retained: seq<RecordObject>;
      var skipped: seq<QuarantineEntry>;
      retained, removed, skipped := SelectRetained(f, minRetainSeq);
      disk.quarantine := disk.quarantine + skipped;
      if removed == 0 && skipped == [] {
        assert meta.State() == m0;
        return;
      }
      ReplaceJournal(retained);
    }

    method ReplaceJournal(retained: seq<RecordObject>)
      requires Valid()
      modifies meta, disk`journal, disk`meta
      ensures Valid() && meta.buckets == old(meta.buckets)
      ensures disk.journal == Some(Written(retained))
      ensures (meta.State(), disk.meta) ==
        Persisted(old(meta.State()).(index := RebuiltIndex(retained, seqIndex.interval)), old(disk.meta))
    {
      var body, index := Rewrite(retained);
      disk.journal := Some(body);
      seqIndex.ReplaceAndTrim(index);
      meta.Persist();
    }

    method SelectRetained(f: Bytes, k: int)
      returns (retained: seq<RecordObject>, removed: nat, skipped: seq<QuarantineEntry>)
      ensures retained == Retained(AllKinds(f), k)
      ensures removed == CountRemoved(AllKinds(f), k)
      ensures skipped == GarbageTexts(AllKinds(f))
    {
      retained, removed, skipped := [], 0, [];
      var unread := f;
      while unread != []
        invariant retained + Retained(AllKinds(unread), k) == Retained(AllKinds(f), k)
        invariant removed + CountRemoved(AllKinds(unread), k) == CountRemoved(AllKinds(f), k)
        invariant skipped + GarbageTexts(AllKinds(unread)) == GarbageTexts(AllKinds(f))
        decreases |unread|
      {
        var n := LineLen(unread);
        var kind := Classify(unread[..n]);
        AllKindsTurn(unread);
        ghost var rest := AllKinds(unread[n..]);
        assert AllKinds(unread)[1..] == rest;
        if kind.Loaded? {
          if kind.obj.seqNo < k {
            removed := removed + 1;
          } else {
            Associative(retained, [kind.obj], Retained(rest, k));
            retained := retained + [kind.obj];
          }
        } else if kind.Garbage? {
          Associative(skipped, [QuarantineEntry(kind.text, CompactSkip)], GarbageTexts(rest));
          skipped := skipped + [QuarantineEntry(kind.text, CompactSkip)];
        }
        unread := unread[n..];
      }
    }

    method Rewrite(retained: seq<RecordObject>) returns (body: Bytes, index: seq<IndexEntry>)
      requires seqIndex.interval > 0
      ensures body == Written(retained)
      ensures index == [IndexEntry(0, 0)] + Checkpoints(retained, 0, 0, seqIndex.interval)
    {
      body, index := [], [IndexEntry(0, 0)];
      var byteOffset, i := 0, 0;
      ghost var goal := index + Checkpoints(retained, 0, 0, seqIndex.interval);
      assert retained[..0] == [];
      assert Written([]) == [];
      hide Written, Checkpoints, Dump;
      while i < |retained|
        invariant 0 <= i <= |retained| && byteOffset == |body|
        invariant body == Written(retained[..i])
        invariant index + Checkpoints(retained, i, byteOffset, seqIndex.interval) == goal
      {
        CheckpointMoved(index, retained, i, seqIndex.interval);
        WrittenTurn(retained, i);
        var obj := retained[i];
        if i == 0 || obj.seqNo % seqIndex.interval == 0 {
          index := index + [IndexEntry(obj.seqNo, byteOffset)];
        }
        body := body + (Dump(obj) + [NEWLINE]);
        byteOffset := |body|;
        i := i + 1;
      }
      assert retained[..i] == retained;
      NoCheckpoints(retained, |body|, seqIndex.interval);
    }

    method MaybeCompact(lastProcessedSeq: nat, lagSeq: nat) returns (removed: nat)
      requires Valid() && lagSeq > 0
      modifies meta, disk`journal, disk`meta, disk`quarantine
      ensures Valid() && meta.buckets == old(meta.buckets)
      ensures lastProcessedSeq <= lagSeq || old(disk.journal).None? ==>
        removed == 0 && unchanged(disk) && meta.State() == old(meta.State())
      ensures lastProcessedSeq > lagSeq && old(disk.journal).Some? ==>
        var f, k := old(disk.journal).value, lastProcessedSeq - lagSeq;
        && disk.journal == Some(Compacted(f, k))
        && removed == RemovedBy(f, k)
        && disk.quarantine == old(disk.quarantine) + QuarantinedBy(f, k)
        && (meta.State(), disk.meta) == MetaAfter(f, k, seqIndex.interval, old(meta.State()), old(disk.meta))
    {
      var minRetain := Max(1, lastProcessedSeq - lagSeq);
      if lastProcessedSeq <= lagSeq {
        return 0;
      }
      removed := CompactBeforeSeq(minRetain);
    }
  }

  lemma AllKindsTurn(s: Bytes)
    requires s != []
    ensures AllKinds(s) == [Classify(s[..LineLen(s)])] + AllKinds(s[LineLen(s)..])
  {
  }
}
