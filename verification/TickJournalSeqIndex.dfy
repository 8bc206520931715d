/**
 Sparse seq -> byte index and the forward walk that resolves a seq to the start of a line
 (core/journal/tick_journal_seq_index.py). The walk from byte 0 is the specification; an entry is
 sound when starting from it instead cannot be noticed.
 */
module SeqIndex {
  import opened Bytes
  import opened TickCodec
  import opened JournalLines
  import opened JournalDisk
  import opened JournalMeta

  const SEQ_INDEX_MAX_ENTRIES: nat := 256

  /** How far a walk over complete lines goes before the first one satisfying `stop`. */
  function WalkLen(s: Bytes, stop: Bytes -> bool): (n: nat)
    ensures n <= |s|
    decreases |s|
  {
    if !HasLine(s) || stop(s[..LineLen(s)]) then 0
    else LineLen(s) + WalkLen(s[LineLen(s)..], stop)
  }

  /** The line carries a seq >= start. */
  function IsTarget(start: int): (stop: Bytes -> bool) {
    line => Classify(line).Loaded? && Classify(line).obj.seqNo >= start
  }

  /** The walk looking for `start`: to the first line carrying a seq >= start, else past all lines. */
  function ScanLen(s: Bytes, start: int): (n: nat)
    ensures n <= |s|
  {
    WalkLen(s, IsTarget(start))
  }

  /** The next line start at or after `o`; the end of the file when `o` is inside a torn tip. */
  function AlignTo(f: Bytes, o: nat): (p: nat)
    requires o <= |f|
    ensures o <= p <= |f|
  {
    if o > 0 && f[o - 1] != NEWLINE then o + LineLen(f[o..]) else o
  }

  /** `resolve` on an existing file. A hint past the end of the file restarts the walk from byte 0. */
  function Resolved(f: Bytes, start: int, hint: nat): (p: nat)
    ensures p <= |f|
  {
    var a := AlignTo(f, if hint > |f| then 0 else hint);
    a + ScanLen(f[a..], start)
  }

  /** The last entry not above `start` before the first entry above it. */
  function Hint(index: seq<IndexEntry>, start: int): (o: nat)
    ensures o == 0 || exists e :: e in index && e.seqNo <= start && e.offset == o
  {
    if index == [] || index[0].seqNo > start then 0
    else
      var rest := index[1..];
      if rest == [] || rest[0].seqNo > start then index[0].offset
      else
        Hint(rest, start)
  }

  function ByteOffset(file: Option<Bytes>, index: seq<IndexEntry>, start: int): (p: nat) {
    if start <= 1 then 0
    else if file.None? then Hint(index, start)
    else Resolved(file.value, start, Hint(index, start))
  }

  function LastEntries(index: seq<IndexEntry>): (r: seq<IndexEntry>) {
    if |index| > SEQ_INDEX_MAX_ENTRIES then index[|index| - SEQ_INDEX_MAX_ENTRIES..] else index
  }

  function Recorded(index: seq<IndexEntry>, interval: nat, seqNo: nat, offset: nat): (r: seq<IndexEntry>)
    requires interval > 0
  {
    var base := if index == [] then [IndexEntry(0, 0)] else index;
    var grown := if seqNo == 0 || (seqNo % interval == 0 && seqNo > base[|base| - 1].seqNo)
                 then base + [IndexEntry(seqNo, offset)] else base;
    LastEntries(grown)
  }

  // ---------- which entries a table holds ----------

  ghost predicate IndexIncreases(index: seq<IndexEntry>) {
    forall x, y :: 0 <= x < y < |index| ==> index[x].seqNo < index[y].seqNo
  }

  /** The entry is in the table, or the table is full of later ones. */
  ghost predicate Held(index: seq<IndexEntry>, e: IndexEntry) {
    e in index || (|index| == 256 && forall x :: x in index ==> x.seqNo > e.seqNo)
  }

  lemma HeldSomewhere(index: seq<IndexEntry>, e: IndexEntry)
    requires Held(index, e)
    ensures index != []
  {
  }

  lemma TableFits(index: seq<IndexEntry>)
    requires |index| <= SEQ_INDEX_MAX_ENTRIES
    ensures LastEntries(index) == index
  {
  }

  /** Trimming a sorted table keeps its newest entries. */
  lemma TrimmedHolds(index: seq<IndexEntry>)
    requires IndexIncreases(index)
    ensures var kept := LastEntries(index);
      && |kept| <= SEQ_INDEX_MAX_ENTRIES && IndexIncreases(kept)
      && (forall e :: e in kept ==> e in index)
      && forall e :: e in index ==> Held(kept, e)
  {
    var kept := LastEntries(index);
    var cut := |index| - |kept|;
    assert forall i :: 0 <= i < |kept| ==> kept[i] == index[i + cut];
    forall e | e in index ensures Held(kept, e) {
      var i :| 0 <= i < |index| && index[i] == e;
      if i >= cut { assert kept[i - cut] == e; }
    }
  }

  /** A later entry joins a table of the newest ones. */
  lemma TableGrows(index: seq<IndexEntry>, entry: IndexEntry)
    requires |index| <= SEQ_INDEX_MAX_ENTRIES && IndexIncreases(index)
    requires forall e :: e in index ==> e.seqNo < entry.seqNo
    ensures var kept := LastEntries(index + [entry]);
      && |kept| <= SEQ_INDEX_MAX_ENTRIES && IndexIncreases(kept)
      && (forall e :: e in kept ==> e in index || e == entry)
      && Held(kept, entry) && forall e :: Held(index, e) && e.seqNo < entry.seqNo ==> Held(kept, e)
  {
    var grown := index + [entry];
    assert grown[|index|] == entry;
    TrimmedHolds(grown);
    var kept := LastEntries(grown);
    forall e | Held(index, e) && e.seqNo < entry.seqNo ensures Held(kept, e) {
      if e in index {
        assert e in grown;
      } else {
        assert |grown| == SEQ_INDEX_MAX_ENTRIES + 1;
      }
    }
  }

  /**
   What recording a seq does to a table of any shape: an empty one counts as holding the start of the file, and the
   entry is added for seq 0 and for the multiples of the interval above the last entry; the table then loses its
   oldest entry if it was full.
   */
  lemma RecordedTells(index: seq<IndexEntry>, interval: nat, seqNo: nat, offset: nat)
    requires interval > 0 && |index| <= SEQ_INDEX_MAX_ENTRIES
    ensures var last := if index == [] then 0 else index[|index| - 1].seqNo;
      var base := if index == [] then [IndexEntry(0, 0)] else index;
      var r := Recorded(index, interval, seqNo, offset);
      if seqNo == 0 || (seqNo % interval == 0 && seqNo > last) then
        r == base + [IndexEntry(seqNo, offset)] || (|index| == 256 && r == index[1..] + [IndexEntry(seqNo, offset)])
      else r == base
  {
  }

  /** A lookup finds the last entry before the first one above the target; on a sorted table, the closest from below. */
  lemma {:induction false} HintIsClosest(index: seq<IndexEntry>, start: int, i: nat)
    requires i <= |index| && forall k :: 0 <= k < i ==> index[k].seqNo <= start
    requires i < |index| ==> index[i].seqNo > start
    ensures Hint(index, start) == if i == 0 then 0 else index[i - 1].offset
    decreases |index|
  {
    if i > 0 {
      var rest := index[1..];
      assert forall k :: 0 <= k < |rest| ==> rest[k] == index[k + 1];
      HintIsClosest(rest, start, i - 1);
    }
  }

  // ---------- soundness of entries ----------

  /** Starting the walk at this entry skips only complete lines with seqs below the entry's. */
  ghost predicate EntrySound(f: Bytes, e: IndexEntry) {
    && e.offset <= |f|
    && Terminated(f[..AlignTo(f, e.offset)])
    && AllBelow(Kinds(f[..AlignTo(f, e.offset)]), e.seqNo)
  }

  ghost predicate IndexSound(f: Bytes, index: seq<IndexEntry>) {
    forall e :: e in index ==> EntrySound(f, e)
  }

  lemma WalkCut(line: Bytes, rest: Bytes, stop: Bytes -> bool)
    requires IsLine(line)
    ensures WalkLen(line + rest, stop) == if stop(line) then 0 else |line| + WalkLen(rest, stop)
  {
    LineLenCut(line, rest);
  }

  /** One turn of the walk in `resolve`. */
  lemma ScanTurn(s: Bytes, start: int)
    requires HasLine(s)
    ensures var n := LineLen(s);
      ScanLen(s, start) == if IsTarget(start)(s[..n]) then 0 else n + ScanLen(s[n..], start)
  {
    var line, rest := FirstLine(s);
    LineLenCut(line, rest);
    WalkCut(line, rest, IsTarget(start));
  }

  lemma ScanNoLine(s: Bytes, start: int)
    requires !HasLine(s)
    ensures ScanLen(s, start) == 0
  {
  }

  predicate NoneStops(lines: seq<Bytes>, stop: Bytes -> bool) {
    forall i :: 0 <= i < |lines| ==> !stop(lines[i])
  }

  lemma NoneStopsCut(line: Bytes, rest: Bytes, stop: Bytes -> bool)
    requires IsLine(line) && NoneStops(Lines(line + rest), stop)
    ensures !stop(line) && NoneStops(Lines(rest), stop)
  {
    LinesCut(line, rest);
    var all := Lines(line + rest);
    assert all[0] == line;
    assert forall i :: 0 <= i < |Lines(rest)| ==> Lines(rest)[i] == all[i + 1];
  }

  lemma {:induction false} WalkSkips(a: Bytes, b: Bytes, stop: Bytes -> bool)
    requires Terminated(a) && NoneStops(Lines(a), stop)
    ensures WalkLen(a + b, stop) == |a| + WalkLen(b, stop)
    decreases |a|
  {
    if a == [] {
      assert a + b == b;
    } else {
      TerminatedHasLine(a);
      var line, rest := FirstLine(a);
      NoneStopsCut(line, rest, stop);
      WalkSkips(rest, b, stop);
      WalkCut(line, rest + b, stop);
      Associative(line, rest, b);
    }
  }

  lemma {:induction false} WalkPasses(s: Bytes, stop: Bytes -> bool)
    ensures var p := WalkLen(s, stop); Terminated(s[..p]) && NoneStops(Lines(s[..p]), stop)
    decreases |s|
  {
    hide WalkLen, Lines, NoneStops, Terminated, IsLine;
    var p := WalkLen(s, stop);
    if p == 0 {
      assert s[..p] == [];
      NothingPassed(stop);
    } else {
      var line, rest := FirstPassed(s, stop);
      WalkPasses(rest, stop);
      PassesOneMore(line, rest[..p - |line|], stop);
      assert s[..p] == line + rest[..p - |line|];
    }
  }

  /** A walk that moves passes one line and walks on. */
  lemma FirstPassed(s: Bytes, stop: Bytes -> bool) returns (line: Bytes, rest: Bytes)
    requires WalkLen(s, stop) > 0
    ensures IsLine(line) && |line| > 0 && s == line + rest && !stop(line)
    ensures WalkLen(s, stop) == |line| + WalkLen(rest, stop)
  {
    line, rest := FirstLine(s);
    WalkCut(line, rest, stop);
  }

  lemma NothingPassed(stop: Bytes -> bool)
    ensures Terminated([]) && NoneStops(Lines([]), stop)
  {
    assert Lines([]) == [];
  }

  lemma PassesOneMore(line: Bytes, passed: Bytes, stop: Bytes -> bool)
    requires IsLine(line) && !stop(line) && Terminated(passed) && NoneStops(Lines(passed), stop)
    ensures Terminated(line + passed) && NoneStops(Lines(line + passed), stop)
  {
    LinesCut(line, passed);
    hide Lines, LineLen, LineEnd;
  }

  lemma {:induction false} WalkStops(s: Bytes, stop: Bytes -> bool)
    ensures var p := WalkLen(s, stop); HasLine(s[p..]) ==> stop(s[p..][..LineLen(s[p..])])
    decreases |s|
  {
    var p := WalkLen(s, stop);
    if p == 0 {
      assert s[p..] == s;
    } else {
      var line, rest := FirstLine(s);
      WalkCut(line, rest, stop);
      WalkStops(rest, stop);
      assert s[p..] == rest[p - |line|..];
    }
  }

  /** The head of `s` is a line that carries a seq >= start. */
  predicate AtTarget(s: Bytes, start: int) {
    HasLine(s) && IsTarget(start)(s[..LineLen(s)])
  }

  lemma BelowIffNoneStops(s: Bytes, start: int)
    ensures AllBelow(Kinds(s), start) <==> NoneStops(Lines(s), IsTarget(start))
  {
    assert forall i :: 0 <= i < |Lines(s)| ==> Kinds(s)[i] == Classify(Lines(s)[i]);
  }

  /** The walk passes any run of complete lines that lie below its target. */
  lemma ScanSkips(a: Bytes, b: Bytes, start: int)
    requires Terminated(a) && AllBelow(Kinds(a), start)
    ensures ScanLen(a + b, start) == |a| + ScanLen(b, start)
  {
    BelowIffNoneStops(a, start);
    WalkSkips(a, b, IsTarget(start));
  }

  /** The walk passes complete lines below its target only, and stops at the target or where no line is left. */
  lemma ScanFindsTarget(s: Bytes, start: int)
    ensures var p := ScanLen(s, start);
      && Terminated(s[..p])
      && AllBelow(Kinds(s[..p]), start)
      && (HasLine(s[p..]) ==> AtTarget(s[p..], start))
  {
    WalkPasses(s, IsTarget(start));
    WalkStops(s, IsTarget(start));
    BelowIffNoneStops(s[..ScanLen(s, start)], start);
  }

  /** A sound entry at or below the target leads the walk to where the full scan ends. */
  lemma SoundHintRefinesScan(f: Bytes, e: IndexEntry, start: int)
    requires EntrySound(f, e) && e.seqNo <= start
    ensures Resolved(f, start, e.offset) == ScanLen(f, start)
  {
    var p := AlignTo(f, e.offset);
    assert f == f[..p] + f[p..];
    ScanSkips(f[..p], f[p..], start);
  }

  /** A hint from before a rewrite that points past the end of the new file is harmless. */
  lemma PastEofHintRefinesScan(f: Bytes, start: int, hint: nat)
    requires hint > |f|
    ensures Resolved(f, start, hint) == ScanLen(f, start)
  {
    assert f[0..] == f;
  }

  /** The index is only a cache: with sound entries the byte offset of a seq is what a full scan finds. */
  lemma IndexRefinesScan(f: Bytes, index: seq<IndexEntry>, start: int)
    requires IndexSound(f, index)
    ensures ByteOffset(Some(f), index, start) == if start <= 1 then 0 else ScanLen(f, start)
  {
    var o := Hint(index, start);
    if o != 0 {
      var e :| e in index && e.seqNo <= start && e.offset == o;
      SoundHintRefinesScan(f, e, start);
    } else {
      assert f[0..] == f;
    }
  }

  /** Entries of a file stay sound while the file only grows. */
  lemma SoundnessSurvivesGrowth(f: Bytes, g: Bytes, e: IndexEntry)
    requires EntrySound(f, e)
    ensures EntrySound(f + g, e)
  {
    var o := e.offset;
    var p := AlignTo(f, o);
    AlignSurvivesGrowth(f, g, o);
    assert (f + g)[..p] == f[..p];
  }

  lemma AlignSurvivesGrowth(f: Bytes, g: Bytes, o: nat)
    requires o <= |f| && Terminated(f[..AlignTo(f, o)])
    ensures AlignTo(f + g, o) == AlignTo(f, o)
  {
    if o > 0 && f[o - 1] != NEWLINE {
      var rest := f[o..];
      var n := LineLen(rest);
      var p := o + n;
      assert f[..p][p - 1] == f[p - 1];
      assert n > 0;
      assert rest[n - 1] == f[p - 1];
      LineLenConcat(rest, g);
      assert (f + g)[o..] == rest + g;
    }
  }

  lemma IndexSoundnessSurvivesGrowth(f: Bytes, g: Bytes, index: seq<IndexEntry>)
    requires IndexSound(f, index)
    ensures IndexSound(f + g, index)
  {
    forall e | e in index ensures EntrySound(f + g, e) {
      SoundnessSurvivesGrowth(f, g, e);
    }
  }

  // ---------- appending a record ----------

  /** A torn tip, if any, is not made of spaces only. The writer tears nothing but encoded objects. */
  predicate TipOk(f: Bytes) {
    f[BodyLen(f)..] == [] || !IsBlank(f[BodyLen(f)..])
  }

  /** A record appended to a whole file is one more record; appended to a torn tip it is lost in garbage. */
  lemma AppendedKinds(f: Bytes, r: JournalRecord)
    requires TipOk(f)
    ensures Terminated(f + RecordLine(r))
    ensures Terminated(f) ==> Kinds(f + RecordLine(r)) == Kinds(f) + Kinds(RecordLine(r))
    ensures !Terminated(f) ==> exists k: LineKind :: k.Garbage? && Kinds(f + RecordLine(r)) == Kinds(f) + [k]
  {
    var line := RecordLine(r);
    RecordLineRoundTrip(r);
    assert (f + line)[|f + line| - 1] == line[|line| - 1];
    if Terminated(f) {
      KindsConcat(f, line);
    } else {
      MergedKinds(f, RecordObject(r.seqNo, TickToBody(r.tick)));
    }
  }

  lemma MergedKinds(f: Bytes, obj: RecordObject)
    requires TipOk(f) && !Terminated(f)
    ensures exists k: LineKind :: k.Garbage? && Kinds(f + (Dump(obj) + [NEWLINE])) == Kinds(f) + [k]
  {
    var n := BodyLen(f);
    var body, tip := f[..n], f[n..];
    assert f == body + tip;
    assert tip != [];
    var text := tip + Dump(obj);
    MergedLineIsGarbage(tip, obj);
    KindsSingle(text);
    assert f + (Dump(obj) + [NEWLINE]) == body + (text + [NEWLINE]);
    KindsConcat(body, text + [NEWLINE]);
    KindsOfBody(f);
    assert Kinds(f + (Dump(obj) + [NEWLINE])) == Kinds(f) + [Classify(text + [NEWLINE])];
  }

  /** The entry a writer records for the line it is about to append is sound in the longer file. */
  lemma NewEntrySound(f: Bytes, r: JournalRecord)
    requires TipOk(f) && AllBelow(Kinds(f), r.seqNo)
    ensures EntrySound(f + RecordLine(r), IndexEntry(r.seqNo, |f|))
  {
    var g := f + RecordLine(r);
    AppendedKinds(f, r);
    if Terminated(f) {
      assert |f| > 0 ==> g[|f| - 1] == f[|f| - 1];
      assert g[..|f|] == f;
    } else {
      var n := BodyLen(f);
      assert g[|f| - 1] == f[|f| - 1];
      assert g[|f|..] == RecordLine(r);
      DumpShape(RecordObject(r.seqNo, TickToBody(r.tick)));
      LineLenSingle(Dump(RecordObject(r.seqNo, TickToBody(r.tick))));
      assert AlignTo(g, |f|) == |g|;
      assert g[..|g|] == g;
    }
  }

  lemma RecordedSound(f: Bytes, index: seq<IndexEntry>, interval: nat, seqNo: nat, offset: nat)
    requires interval > 0 && IndexSound(f, index) && EntrySound(f, IndexEntry(seqNo, offset))
    ensures IndexSound(f, Recorded(index, interval, seqNo, offset))
  {
    ZeroEntrySound(f, 0);
  }

  lemma ZeroEntrySound(f: Bytes, seqNo: int)
    ensures EntrySound(f, IndexEntry(seqNo, 0))
  {
    assert f[..0] == [];
    assert Kinds([]) == [];
  }

  class TickJournalSeqIndex {
    const meta: TickJournalMetaStore
    const disk: Disk
    const interval: nat

    ghost predicate Valid()
      reads meta, meta.buckets.Values
    {
      meta.Valid() && meta.disk == disk && interval > 0
    }

    constructor (meta: TickJournalMetaStore, interval: nat)
      requires meta.Valid() && interval > 0
      ensures Valid() && this.meta == meta && this.interval == interval && disk == meta.disk
    {
      this.meta, this.disk, this.interval := meta, meta.disk, interval;
    }

    method Record(seqNo: nat, byteOffset: nat)
      requires Valid()
      modifies meta
      ensures Valid() && meta.buckets == old(meta.buckets)
      ensures meta.State() == old(meta.State()).(index := Recorded(old(meta.index), interval, seqNo, byteOffset))
    {
      var index := meta.index;
      if index == [] {
        index := [IndexEntry(0, 0)];
      }
      var lastSeq := index[|index| - 1].seqNo;
      if seqNo == 0 || (seqNo % interval == 0 && seqNo > lastSeq) {
        index := index + [IndexEntry(seqNo, byteOffset)];
      }
      meta.ReplaceSeqIndex(index);
      if |index| > SEQ_INDEX_MAX_ENTRIES {
        meta.ReplaceSeqIndex(index[|index| - SEQ_INDEX_MAX_ENTRIES..]);
      }
    }

    method IndexedHint(start: int) returns (offset: nat)
      ensures offset == Hint(meta.index, start)
    {
      var index := meta.index;
      offset := 0;
      var i := 0;
      while i < |index|
        invariant 0 <= i <= |index|
        invariant i == |index| || index[i].seqNo > start ==> offset == Hint(index, start)
        invariant i < |index| && index[i].seqNo <= start ==> Hint(index[i..], start) == Hint(index, start)
      {
        if index[i].seqNo > start {
          return;
        }
        offset := index[i].offset;
        assert index[i..][1..] == index[i + 1..];
        i := i + 1;
      }
    }

    method Resolve(start: int, indexedOffset: nat) returns (p: nat)
      requires Valid()
      ensures p == if disk.journal.None? then indexedOffset else Resolved(disk.journal.value, start, indexedOffset)
    {
      if disk.journal.None? {
        return indexedOffset;
      }
      var f := disk.journal.value;
      var offset := if indexedOffset > |f| then 0 else indexedOffset;
      if offset > 0 && f[offset - 1] != NEWLINE {
        offset := offset + LineLen(f[offset..]);
      }
      assert offset == AlignTo(f, if indexedOffset > |f| then 0 else indexedOffset);
      ghost var goal := Resolved(f, start, indexedOffset);
      p := offset;
      var unread := f[offset..];
      while true
        invariant p + |unread| == |f|
        invariant p + ScanLen(unread, start) == goal
        decreases |unread|
      {
        var n := LineLen(unread);
        if n == 0 || unread[n - 1] != NEWLINE {
          ScanNoLine(unread, start);
          break;
        }
        ScanTurn(unread, start);
        if IsTarget(start)(unread[..n]) {
          break;
        }
        unread := unread[n..];
        p := p + n;
      }
    }

    method ByteOffsetForSeq(start: nat) returns (p: nat)
      requires Valid()
      ensures p == ByteOffset(disk.journal, meta.index, start)
    {
      if start <= 1 {
        return 0;
      }
      var hint := IndexedHint(start);
      p := Resolve(start, hint);
    }

    method ReloadFromDisk()
      requires Valid()
      modifies meta
      ensures Valid() && meta.buckets == old(meta.buckets)
      ensures meta.State() == ReloadedIndex(old(meta.State()), disk.meta)
    {
      meta.ReloadSeqIndexFromDisk();
    }

    method ReplaceAndTrim(index: seq<IndexEntry>)
      requires Valid()
      modifies meta
      ensures Valid() && meta.buckets == old(meta.buckets)
      ensures meta.State() == old(meta.State()).(index := LastEntries(index))
    {
      meta.ReplaceSeqIndex(LastEntries(index));
    }
  }
}
