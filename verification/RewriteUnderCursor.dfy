/**
 A rewrite that leaves the reader's old offset inside the new file. The cursor is anchored, so the
 reader keeps reading where it stood. Whether that loses records is decided here exactly.
 */
module RewriteUnderCursor {
  import opened Bytes
  import opened TickCodec
  import opened JournalLines
  import opened JournalDisk
  import opened SeqIndex
  import opened Compactor
  import opened IncrementalReader
  import opened ReaderLaws

  // ---------- reading a rewritten file from any byte ----------

  lemma WrittenNothing()
    ensures Written([]) == []
  {
  }

  lemma WrittenFirst(objs: seq<RecordObject>)
    requires objs != []
    ensures Written(objs) == Dump(objs[0]) + [NEWLINE] + Written(objs[1..])
  {
  }

  lemma PrefixStart(objs: seq<RecordObject>, i: nat)
    requires 0 < i <= |objs|
    ensures |Written(objs[..i])| == |Dump(objs[0])| + 1 + |Written(objs[1..][..i - 1])|
  {
    assert objs[..i][1..] == objs[1..][..i - 1];
  }

  lemma StartMonotone(objs: seq<RecordObject>, i: nat, j: nat)
    requires i <= j <= |objs|
    ensures |Written(objs[..i])| <= |Written(objs[..j])|
  {
    assert objs[..j] == objs[..i] + objs[i..j];
    WrittenConcat(objs[..i], objs[i..j]);
  }

  /** From any byte on there is the rest of the line it falls into, if it falls inside one, and the lines after that. */
  lemma {:induction false} CutAtByte(objs: seq<RecordObject>, off: nat) returns (j: nat, inside: nat)
    requires off <= |Written(objs)|
    ensures j <= |objs| && off <= |Written(objs[..j])| && (j > 0 ==> |Written(objs[..j - 1])| < off)
    ensures inside == 0 ==> Written(objs)[off..] == Written(objs[j..])
    ensures inside > 0 ==> j > 0 && inside <= |Dump(objs[j - 1])|
    ensures inside > 0 ==>
      Written(objs)[off..] == (Dump(objs[j - 1]) + [NEWLINE])[inside..] + Written(objs[j..])
    decreases |objs|
  {
    hide Written, Dump;
    var f := Written(objs);
    assert objs[..0] == [];
    WrittenNothing();
    if off == 0 {
      j, inside := 0, 0;
      assert f[0..] == f && objs[0..] == objs;
    } else {
      assert objs != [];
      var line, rest := Dump(objs[0]) + [NEWLINE], Written(objs[1..]);
      WrittenFirst(objs);
      PrefixStart(objs, 1);
      assert objs[1..][..0] == [];
      if off < |line| {
        j, inside := 1, off;
        assert f[off..] == line[off..] + rest;
      } else {
        assert f[off..] == rest[off - |line|..];
        var j', inside' := CutAtByte(objs[1..], off - |line|);
        j, inside := j' + 1, inside';
        PrefixStart(objs, j);
        assert objs[1..][j'..] == objs[j..];
        if j' > 0 {
          PrefixStart(objs, j - 1);
        }
      }
    }
  }

  lemma RemnantIsSkipped(obj: RecordObject, off: nat, rest: Bytes, next: int)
    requires 0 < off <= |Dump(obj)|
    ensures Deliver(Kinds((Dump(obj) + [NEWLINE])[off..] + rest), next) == Deliver(Kinds(rest), next)
  {
    hide Kinds, Classify, Dump, Deliver;
    var line := Dump(obj) + [NEWLINE];
    DumpLine(obj);
    RemnantIsALine(line, off);
    RemnantDoesNotLoad(obj, off);
    KindsCut(line[off..], rest);
    DeliverStep([Classify(line[off..])] + Kinds(rest), next);
  }

  lemma RemnantIsALine(line: Bytes, off: nat)
    requires IsLine(line) && off < |line|
    ensures IsLine(line[off..])
  {
  }

  /**
   Reading from any byte of a rewritten file, whatever has been appended since: the lines that start at
   or after it. The line the byte falls into, if any, is lost.
   */
  lemma ReadFromByte(objs: seq<RecordObject>, growth: Bytes, off: nat, next: int) returns (j: nat)
    requires off <= |Written(objs)|
    ensures j <= |objs| && off <= |Written(objs[..j])| && (j > 0 ==> |Written(objs[..j - 1])| < off)
    ensures Deliver(Kinds((Written(objs) + growth)[off..]), next) == Deliver(Kinds(Written(objs[j..]) + growth), next)
  {
    hide Written, Kinds, Deliver, Dump;
    var inside: nat;
    j, inside := CutAtByte(objs, off);
    assert (Written(objs) + growth)[off..] == Written(objs)[off..] + growth;
    if inside > 0 {
      RemnantIsSkipped(objs[j - 1], inside, Written(objs[j..]) + growth, next);
      Associative((Dump(objs[j - 1]) + [NEWLINE])[inside..], Written(objs[j..]), growth);
    }
  }

  lemma KindsAt(objs: seq<RecordObject>, growth: Bytes, j: nat)
    requires j <= |objs|
    ensures Kinds(Written(objs) + growth) == Kinds(Written(objs[..j])) + Kinds(Written(objs[j..]) + growth)
  {
    hide Written, Kinds;
    WrittenKinds(objs[..j]);
    assert objs == objs[..j] + objs[j..];
    WrittenConcat(objs[..j], objs[j..]);
    Associative(Written(objs[..j]), Written(objs[j..]), growth);
    KindsConcat(Written(objs[..j]), Written(objs[j..]) + growth);
  }

  // ---------- what is due ----------

  /** A reader at `next` is due this object: its tick decodes and its seq is not below `next`. */
  predicate IsDueAt(obj: RecordObject, next: int) {
    TickFromBody(obj.body).Some? && obj.seqNo >= next
  }

  lemma {:induction false} NothingDueIff(ks: seq<LineKind>, next: int)
    ensures From(Records(ks), next) == [] <==>
      forall i :: 0 <= i < |ks| ==> RecordOf(ks[i]).None? || RecordOf(ks[i]).value.seqNo < next
  {
    if ks != [] {
      NothingDueIff(ks[1..], next);
      assert forall i :: 0 <= i < |ks[1..]| ==> ks[1..][i] == ks[i + 1];
      if RecordOf(ks[0]).Some? {
        assert Records(ks)[1..] == Records(ks[1..]);
      }
      assert (forall i :: 0 <= i < |ks| ==> RecordOf(ks[i]).None? || RecordOf(ks[i]).value.seqNo < next) <==>
        && (RecordOf(ks[0]).None? || RecordOf(ks[0]).value.seqNo < next)
        && forall i :: 0 <= i < |ks[1..]| ==> RecordOf(ks[1..][i]).None? || RecordOf(ks[1..][i]).value.seqNo < next;
    }
  }

  lemma NothingDueWritten(objs: seq<RecordObject>, next: int)
    ensures From(Records(Kinds(Written(objs))), next) == [] <==> forall i :: 0 <= i < |objs| ==> !IsDueAt(objs[i], next)
  {
    hide Written, From, Records;
    var ks := Kinds(Written(objs));
    WrittenKinds(objs);
    KindsFaithful(Written(objs));
    hide Kinds;
    NothingDueIff(ks, next);
    forall i | 0 <= i < |objs|
      ensures IsDueAt(objs[i], next) <==> RecordOf(ks[i]).Some? && RecordOf(ks[i]).value.seqNo >= next
    {
      assert ks[i].Loaded? && ks[i].obj == objs[i];
    }
  }

  /** On seqs that increase, reading only the back part delivers everything due exactly when the front owes nothing. */
  lemma BackPartSuffices(a: seq<LineKind>, b: seq<LineKind>, next: int)
    requires Increasing(a + b)
    ensures Deliver(b, next) == From(Records(a + b), next) <==> From(Records(a), next) == []
  {
    assert forall i :: 0 <= i < |b| ==> b[i] == (a + b)[i + |a|];
    DeliverIsFilter(b, next);
    RecordsConcat(a, b);
    FromConcat(Records(a), Records(b), next);
    hide From, Records, Deliver;
    var x, y := From(Records(a), next), From(Records(b), next);
    assert |x + y| == |x| + |y|;
    assert [] + y == y;
  }

  // ---------- the exact condition ----------

  /** No object due at `next` starts before byte `off`. */
  ghost predicate StartsBehind(objs: seq<RecordObject>, off: nat, next: int) {
    forall i :: 0 <= i < |objs| && IsDueAt(objs[i], next) ==> off <= |Written(objs[..i])|
  }

  lemma BehindIffFrontOwesNothing(objs: seq<RecordObject>, off: nat, next: int, j: nat)
    requires j <= |objs| && off <= |Written(objs[..j])| && (j > 0 ==> |Written(objs[..j - 1])| < off)
    ensures StartsBehind(objs, off, next) <==> forall i :: 0 <= i < j ==> !IsDueAt(objs[i], next)
  {
    hide Written, IsDueAt;
    forall i | 0 <= i < |objs| ensures off <= |Written(objs[..i])| <==> i >= j {
      if i >= j {
        StartMonotone(objs, j, i);
      } else {
        StartMonotone(objs, i, j - 1);
      }
    }
  }

  /**
   The exact condition. An anchored reader whose file was rewritten and may have grown since, with its offset
   still inside: the next poll delivers every record it is due if and only if the first such record of the
   rewritten part does not start before the offset. The growth may be anything behind the offset, or a torn tip.
   */
  lemma RewriteInsideLosesNothingIff(st: ReaderState, objs: seq<RecordObject>, growth: Bytes, v: View,
                                     wait: real, now: real)
    requires v.file == Some(Written(objs) + growth) && Increasing(Kinds(Written(objs) + growth))
    requires Anchored(st) && st.offset <= |Written(objs) + growth|
    requires st.offset <= |Written(objs)| || !HasNewline(growth)
    ensures Polled(st, v, st.nextSeq, wait, now).records == From(Records(Kinds(v.file.value)), st.nextSeq) <==>
            StartsBehind(objs, st.offset, st.nextSeq)
  {
    var n, off := st.nextSeq, st.offset;
    ContinuedPollReads(st, v, wait, now);
    hide Polled, Written, Kinds, Deliver, From, Records, StartsBehind, Increasing;
    if off <= |Written(objs)| {
      WrittenReads(objs, growth, off, n);
    } else {
      TipReads(objs, growth, off, n);
    }
  }

  lemma WrittenReads(objs: seq<RecordObject>, growth: Bytes, off: nat, next: int)
    requires off <= |Written(objs)| && Increasing(Kinds(Written(objs) + growth))
    ensures var f := Written(objs) + growth;
      Deliver(Kinds(f[off..]), next) == From(Records(Kinds(f)), next) <==> StartsBehind(objs, off, next)
  {
    hide Written, Kinds, Deliver, From, Records, StartsBehind, Increasing, IsDueAt;
    var j := ReadFromByte(objs, growth, off, next);
    KindsAt(objs, growth, j);
    BackPartSuffices(Kinds(Written(objs[..j])), Kinds(Written(objs[j..]) + growth), next);
    NothingDueWritten(objs[..j], next);
    BehindIffFrontOwesNothing(objs, off, next, j);
    assert forall i :: 0 <= i < j ==> objs[..j][i] == objs[i];
  }

  /** From inside a torn tip nothing is delivered, which loses nothing exactly when nothing was due. */
  lemma TipReads(objs: seq<RecordObject>, tip: Bytes, off: nat, next: int)
    requires |Written(objs)| < off <= |Written(objs) + tip| && !HasNewline(tip)
    ensures var f := Written(objs) + tip;
      Deliver(Kinds(f[off..]), next) == From(Records(Kinds(f)), next) <==> StartsBehind(objs, off, next)
  {
    hide Written, From, Records;
    var f := Written(objs) + tip;
    assert forall i :: 0 <= i < |f[off..]| ==> f[off..][i] == tip[off - |Written(objs)| + i];
    KindsTorn(f[off..]);
    KindsTorn(tip);
    WrittenKinds(objs);
    KindsConcat(Written(objs), tip);
    assert Kinds(Written(objs)) + [] == Kinds(Written(objs));
    NothingDueWritten(objs, next);
    forall i | 0 <= i < |objs| ensures |Written(objs[..i])| < off {
      StartMonotone(objs, i, |objs|);
      assert objs[..|objs|] == objs;
    }
  }

  lemma ContinuedPollReads(st: ReaderState, v: View, wait: real, now: real)
    requires Continues(st, v, st.nextSeq)
    ensures var r := Polled(st, v, st.nextSeq, wait, now);
      var ks := Kinds(v.file.value[st.offset..]);
      && r.records == Deliver(ks, st.nextSeq) && r.state.nextSeq == NextAfter(ks, st.nextSeq) && Anchored(r.state)
  {
    hide Polled, ReadAll;
    var mid := ContinuedPoll(st, v, st.nextSeq, wait, now);
    ReadAllFacts(mid, v.file.value[st.offset..], wait, now);
  }

  /** The same for a compaction, records appended since, and a torn tip behind them. */
  lemma CompactionInsideLosesNothingIff(st: ReaderState, f: Bytes, k: int, appended: seq<RecordObject>, tip: Bytes,
                                        v: View, wait: real, now: real)
    requires Rewrites(f, k) && !HasNewline(tip)
    requires v.file == Some(Compacted(f, k) + Written(appended) + tip) && Increasing(Kinds(v.file.value))
    requires Anchored(st) && st.offset <= |v.file.value|
    ensures Polled(st, v, st.nextSeq, wait, now).records == From(Records(Kinds(v.file.value)), st.nextSeq) <==>
            StartsBehind(Retained(AllKinds(f), k) + appended, st.offset, st.nextSeq)
  {
    hide Polled, Kinds, Written, From, Records, StartsBehind, Increasing, Retained, AllKinds;
    WrittenConcat(Retained(AllKinds(f), k), appended);
    RewriteInsideLosesNothingIff(st, Retained(AllKinds(f), k) + appended, tip, v, wait, now);
  }

  /**
   A reset while the journal is missing leaves the cursor where the index points, trusted. Once a journal is there
   that reaches so far, the next poll delivers every record due if and only if none of them starts before that place.
   */
  lemma ResetBeforeFileLosesNothingIff(st: ReaderState, index: seq<IndexEntry>, start: int, objs: seq<RecordObject>,
                                       growth: Bytes, v: View, wait: real, now: real)
    requires v.file == Some(Written(objs) + growth) && Increasing(Kinds(Written(objs) + growth)) && start > 1
    requires Hint(index, start) <= |Written(objs) + growth|
    requires Hint(index, start) <= |Written(objs)| || !HasNewline(growth)
    ensures var rd := ResetTo(st, None, index, start).0;
      && Anchored(rd) && rd.offset == Hint(index, start) && rd.nextSeq == start
      && (Polled(rd, v, start, wait, now).records == From(Records(Kinds(v.file.value)), start) <==>
          StartsBehind(objs, Hint(index, start), start))
  {
    var rd := ResetTo(st, None, index, start).0;
    assert rd.offset == Hint(index, start);
    hide Polled, Written, Kinds, From, Records, StartsBehind, Increasing, Hint;
    RewriteInsideLosesNothingIff(rd, objs, growth, v, wait, now);
  }

  // ---------- a journal and a reader on which it happens ----------

  function ObjectOf(r: JournalRecord): (obj: RecordObject) {
    RecordObject(r.seqNo, TickToBody(r.tick))
  }

  /** A journal of written records and nothing else. */
  function RecordsFile(rs: seq<JournalRecord>): (f: Bytes) {
    Written(Map(ObjectOf, rs))
  }

  lemma {:induction false} RecordsFileMeaning(rs: seq<JournalRecord>)
    ensures Terminated(RecordsFile(rs)) && Records(Kinds(RecordsFile(rs))) == rs
    ensures Mirrors(Kinds(RecordsFile(rs)), Map(ObjectOf, rs))
  {
    hide Written, Kinds;
    WrittenKinds(Map(ObjectOf, rs));
    KindsFaithful(RecordsFile(rs));
    forall i | 0 <= i < |rs| ensures RecordOf(Kinds(RecordsFile(rs))[i]) == Some(rs[i]) {
      assert Kinds(RecordsFile(rs))[i].obj == ObjectOf(rs[i]);
      TickRoundTrip(rs[i].tick);
    }
    RecordsOfKinds(Kinds(RecordsFile(rs)), rs);
  }

  lemma {:induction false} RecordsOfKinds(ks: seq<LineKind>, rs: seq<JournalRecord>)
    requires |ks| == |rs| && forall i :: 0 <= i < |rs| ==> RecordOf(ks[i]) == Some(rs[i])
    ensures Records(ks) == rs
    decreases |ks|
  {
    if ks != [] {
      RecordsOfKinds(ks[1..], rs[1..]);
    }
  }

  lemma SingleDigit(n: nat)
    requires n < 10
    ensures |PrintInt(n)| == 1
  {
  }

  lemma {:induction false} RetainedOf(ks: seq<LineKind>, objs: seq<RecordObject>, k: int)
    requires Mirrors(ks, objs)
    ensures Retained(ks, k) == KeptFrom(objs, k) && |GarbageTexts(ks)| == 0
    ensures CountRemoved(ks, k) + |Retained(ks, k)| == |objs|
    decreases |ks|
  {
    if ks != [] {
      RetainedOf(ks[1..], objs[1..], k);
    }
  }

  function KeptFrom(objs: seq<RecordObject>, k: int): (kept: seq<RecordObject>) {
    if objs == [] then []
    else if objs[0].seqNo >= k then [objs[0]] + KeptFrom(objs[1..], k)
    else KeptFrom(objs[1..], k)
  }

  /** Compacting written objects at a seq that removes some keeps the others as they are. */
  lemma CompactedObjects(objs: seq<RecordObject>, k: int)
    requires k > 1 && |KeptFrom(objs, k)| < |objs|
    ensures Compacted(Written(objs), k) == Written(KeptFrom(objs, k))
  {
    hide Written, Kinds, AllKinds;
    WrittenKinds(objs);
    AllKindsTerminated(Written(objs));
    RetainedOf(Kinds(Written(objs)), objs, k);
  }

  /**
   Three records of the same length. A fresh reader polls when only the first is written; then the other two
   are appended and the journal is compacted at 2, the reader's very next seq. The offset now happens to be
   the start of record 3: the next poll delivers record 3 alone and moves on to seq 4, and whatever happens
   afterwards, no later poll delivers record 2.
   */
  lemma RewriteInsideCanLose(t: TradeTick, index: seq<IndexEntry>, meta: MetaFile, wait: real, now: real,
                             later: seq<ReaderStep>)
    ensures var r1, r2, r3 := JournalRecord(1, t), JournalRecord(2, t), JournalRecord(3, t);
      var st := Polled(FRESH, View(Some(RecordsFile([r1])), index, meta), 1, wait, now).state;
      var g := Compacted(RecordsFile([r1, r2, r3]), 2);
      var r := Polled(st, View(Some(g), index, meta), 2, wait, now);
      && st.nextSeq == 2 && g == RecordsFile([r2, r3])
      && r.records == [r3] && r.state.nextSeq == 4
      && forall i :: 0 <= i < |Emitted(r.state, later, wait)| ==> Emitted(r.state, later, wait)[i].seqNo != 2
  {
    hide Polled, Written, Kinds, Deliver, NextAfter, RecordsFile, Emitted;
    var r1, r2, r3 := JournalRecord(1, t), JournalRecord(2, t), JournalRecord(3, t);
    var v1 := View(Some(RecordsFile([r1])), index, meta);
    OneRecordRead(r1, v1, wait, now);
    var st := Polled(FRESH, v1, 1, wait, now).state;
    ThreeCompacted(r1, r2, r3);
    SameLength(r1, r2);
    var g := RecordsFile([r2, r3]);
    SecondHalf(r2, r3, st.offset, 2);
    var v2 := View(Some(g), index, meta);
    ContinuedPollReads(st, v2, wait, now);
    EmittedIncreasing(Polled(st, v2, 2, wait, now).state, later, wait);
  }

  lemma ThreeCompacted(r1: JournalRecord, r2: JournalRecord, r3: JournalRecord)
    requires r1.seqNo == 1 && r2.seqNo == 2 && r3.seqNo == 3
    ensures Compacted(RecordsFile([r1, r2, r3]), 2) == RecordsFile([r2, r3])
  {
    hide Written, Compacted;
    var o1, o2, o3 := ObjectOf(r1), ObjectOf(r2), ObjectOf(r3);
    assert Map(ObjectOf, [r1, r2, r3]) == [o1, o2, o3] && Map(ObjectOf, [r2, r3]) == [o2, o3];
    assert [o1, o2, o3][1..] == [o2, o3] && [o2, o3][1..] == [o3] && [o3][1..] == [];
    assert KeptFrom([o3], 2) == [o3];
    assert KeptFrom([o2, o3], 2) == [o2] + [o3] == [o2, o3];
    assert KeptFrom([o1, o2, o3], 2) == [o2, o3];
    CompactedObjects([o1, o2, o3], 2);
  }

  /** Read from the length of its first line on, a file of two records gives the second. */
  lemma SecondHalf(a: JournalRecord, b: JournalRecord, off: nat, next: int)
    requires off == |RecordLine(a)| && b.seqNo >= next
    ensures off <= |RecordsFile([a, b])|
    ensures var ks := Kinds(RecordsFile([a, b])[off..]);
      Deliver(ks, next) == [b] && NextAfter(ks, next) == b.seqNo + 1
  {
    var objs := Map(ObjectOf, [a, b]);
    assert objs[1..] == [ObjectOf(b)] && [ObjectOf(b)][1..] == [];
    var line := RecordLine(b);
    assert Written([ObjectOf(b)]) == line + [];
    assert line + [] == line;
    assert RecordsFile([a, b]) == RecordLine(a) + line;
    hide Kinds, RecordLine, RecordOf, Written, Deliver, NextAfter;
    assert (RecordLine(a) + line)[off..] == line;
    RecordLineRoundTrip(b);
    var k := Kinds(line)[0];
    assert Kinds(line) == [k];
    OneLine(k, next, 0);
  }

  lemma OneRecordRead(r: JournalRecord, v: View, wait: real, now: real)
    requires r.seqNo == 1 && v.file == Some(RecordsFile([r]))
    ensures var st := Polled(FRESH, v, 1, wait, now).state;
      Anchored(st) && st.nextSeq == 2 && st.offset == |RecordLine(r)|
  {
    hide Polled, ReadAll, Kinds, NextAfter, Deliver, RecordsFile, RecordLine, RecordOf, Terminated;
    var f := RecordsFile([r]);
    var k := OneRecordFile(r);
    assert f[0..] == f;
    var mid := ContinuedPoll(FRESH, v, 1, wait, now);
    ReadToEnd(mid, f, wait, now);
    OneLine(k, 1, 0);
  }

  lemma OneRecordFile(r: JournalRecord) returns (k: LineKind)
    ensures RecordsFile([r]) == RecordLine(r) && Terminated(RecordsFile([r]))
    ensures Kinds(RecordsFile([r])) == [k] && RecordOf(k) == Some(r)
  {
    var objs := Map(ObjectOf, [r]);
    assert objs[0] == ObjectOf(r) && objs[1..] == [];
    assert Written(objs) == RecordLine(r) + Written(objs[1..]);
    assert RecordLine(r) + [] == RecordLine(r);
    hide Kinds, RecordLine, RecordOf, Written;
    RecordLineRoundTrip(r);
    k := Kinds(RecordLine(r))[0];
  }

  /** The lengths agree because seqs below 10 print alike. */
  lemma SameLength(a: JournalRecord, b: JournalRecord)
    requires 0 <= a.seqNo < 10 && 0 <= b.seqNo < 10 && a.tick == b.tick
    ensures |RecordLine(a)| == |RecordLine(b)|
  {
    SingleDigit(a.seqNo);
    SingleDigit(b.seqNo);
  }
}
