/** Persisted tip, dedup windows and seq index (core/journal/tick_journal_meta.py). */
module JournalMeta {
  import opened Bytes
  import opened JournalDisk
  import opened SymbolDedup

  /** Dedup windows by upper-case symbol. */
  type Windows = m: map<Bytes, seq<Bytes>> | forall key :: key in m ==> IsUpper(key)

  /** What one process holds in memory. `highWater` is the highest durable tip it has observed. */
  datatype MetaState = MetaState(latest: int, highWater: int, index: seq<IndexEntry>, windows: Windows)
  {
    /** Holds in every store from construction on. */
    ghost predicate Coherent() {
      highWater >= 0 && highWater >= latest
    }
  }

  const EMPTY_DOC: MetaDoc := MetaDoc(0, map[], [IndexEntry(0, 0)])

  function Max(a: int, b: int): (m: int) {
    if a >= b then a else b
  }

  /** The dedup bucket a tick belongs to. */
  function SymbolKey(instId: Bytes): (key: Bytes)
    ensures IsUpper(key)
  {
    Upper(Strip(Upper(instId)))
  }

  /** Two symbols share a bucket exactly if they are the same but for case and blank bytes around them. */
  lemma SymbolKeyIgnoresCase(a: Bytes, b: Bytes)
    ensures SymbolKey(a) == SymbolKey(b) <==> SameButCase(Strip(a), Strip(b))
  {
    UpperStrip(a);
    UpperStrip(b);
    UpperFixed(Upper(Strip(a)));
    UpperFixed(Upper(Strip(b)));
    hide Upper, Strip, SameButCase;
    UpperIgnoresCase(Strip(a), Strip(b));
  }

  function MaxSeq(index: seq<IndexEntry>): (high: int)
    ensures high >= 0
  {
    if index == [] then 0 else Max(MaxSeq(index[..|index| - 1]), index[|index| - 1].seqNo)
  }

  lemma {:induction false} MaxSeqIsTheMaximum(index: seq<IndexEntry>)
    ensures forall i :: 0 <= i < |index| ==> index[i].seqNo <= MaxSeq(index)
    ensures MaxSeq(index) == 0 || exists i :: 0 <= i < |index| && index[i].seqNo == MaxSeq(index)
  {
    if index != [] {
      var front := index[..|index| - 1];
      MaxSeqIsTheMaximum(front);
      assert forall i :: 0 <= i < |front| ==> front[i] == index[i];
    }
  }

  // ---------- the disk, and what one store does with it ----------

  function Payload(file: MetaFile): (doc: MetaDoc)
    requires !file.Corrupt?
  {
    if file.Missing? then EMPTY_DOC else file.doc
  }

  function DocTip(doc: MetaDoc): (tip: int) {
    Max(Max(doc.latest, 0), MaxSeq(doc.index))
  }

  /** The tip other processes read off the disk. */
  function DiskTip(file: MetaFile): (tip: int) {
    if file.Corrupt? then 0 else DocTip(Payload(file))
  }

  /** One window per stored symbol, under its upper-case form. */
  function HydratedAll(seen: SeenIds, window: nat): (windows: Windows)
    requires window > 0
  {
    map key | key in seen :: Upper(key) := Hydrated(seen[key], window)
  }

  /** Every stored symbol has its newest ids under its upper-case form, and there are no other windows. */
  lemma HydratedByUpperCase(seen: SeenIds, window: nat)
    requires window > 0 && forall key :: key in seen ==> Distinct(seen[key])
    ensures var windows := HydratedAll(seen, window);
      && (forall key :: key in seen ==>
            && Upper(key) in windows
            && windows[Upper(key)] ==
               if |seen[key]| <= window then seen[key] else seen[key][|seen[key]| - window..])
      && forall upper :: upper in windows ==> exists key :: key in seen && Upper(key) == upper
  {
    hide Upper, Hydrated, Distinct;
    forall key | key in seen
      ensures Hydrated(seen[key], window) ==
        if |seen[key]| <= window then seen[key] else seen[key][|seen[key]| - window..]
    {
      WindowRoundTrip(seen[key], window);
    }
  }

  /** The windows as they are stored. */
  function Serialized(windows: Windows): (seen: SeenIds)
    ensures seen == windows
  {
    SerializedApart(windows);
    windows
  }

  lemma SerializedApart(windows: Windows)
    ensures forall a, b :: a in windows && b in windows && Upper(a) == Upper(b) ==> a == b
  {
    forall a, b | a in windows && b in windows && Upper(a) == Upper(b) ensures a == b {
      UpperFixed(a);
      UpperFixed(b);
    }
  }

  /** What this store would publish. */
  function DocOf(m: MetaState): (doc: MetaDoc) {
    MetaDoc(m.latest, Serialized(m.windows), m.index)
  }

  function Opened(file: MetaFile, window: nat): (m: MetaState)
    requires !file.Corrupt? && window > 0
  {
    var doc := Payload(file);
    MetaState(doc.latest, DocTip(doc), doc.index, HydratedAll(doc.seen, window))
  }

  function WithLatest(m: MetaState, tip: int): (m': MetaState) {
    var coherent := Max(Max(m.latest, 0), tip);
    m.(latest := coherent, highWater := Max(m.highWater, coherent))
  }

  /** `read_latest_seq_from_disk`: the new state and the tip reported to the caller. */
  function ReadTip(m: MetaState, file: MetaFile): (r: (MetaState, int)) {
    if file.Corrupt? then (m, Max(m.latest, m.highWater))
    else
      var coherent := Max(DiskTip(file), m.highWater);
      (m.(highWater := coherent), coherent)
  }

  function Reloaded(m: MetaState, file: MetaFile, window: nat): (m': MetaState)
    requires !file.Corrupt? && window > 0
  {
    var doc := Payload(file);
    var coherent := Max(DocTip(doc), m.highWater);
    MetaState(coherent, coherent, doc.index, HydratedAll(doc.seen, window))
  }

  /** The index in the meta file; while that cannot be read, the one in memory. */
  function IndexOnDisk(index: seq<IndexEntry>, file: MetaFile): (index': seq<IndexEntry>) {
    if file.Corrupt? then index else Payload(file).index
  }

  function ReloadedIndex(m: MetaState, file: MetaFile): (m': MetaState) {
    m.(index := IndexOnDisk(m.index, file))
  }

  /** `persist`: publish this store's meta, or adopt a newer tip another process published. */
  function Persisted(m: MetaState, file: MetaFile): (r: (MetaState, MetaFile)) {
    var memory := Max(Max(m.latest, m.highWater), 0);
    var disk := DiskTip(file);
    if disk > memory then (m.(latest := disk, highWater := disk), file)
    else (m.(latest := memory, highWater := memory), Stored(MetaDoc(memory, Serialized(m.windows), m.index)))
  }

  // ---------- any number of stores over one meta file ----------

  datatype Fleet = Fleet(file: MetaFile, stores: seq<MetaState>)

  /**
   `Open` adds a store; `SetIndex` stands for checkpoints and compaction; `Overwrite` for anything done to the
   file from outside.
   */
  datatype MetaEvent =
    | Open
    | SetLatest(who: nat, tip: nat)
    | EnsureAtLeast(who: nat, tip: nat)
    | Persist(who: nat)
    | Read(who: nat)
    | Reload(who: nat)
    | ReloadIndex(who: nat)
    | SetIndex(who: nat, index: seq<IndexEntry>)
    | Overwrite(file: MetaFile)

  ghost predicate FleetOk(f: Fleet) {
    forall i :: 0 <= i < |f.stores| ==> f.stores[i].Coherent()
  }

  ghost predicate Enabled(f: Fleet, e: MetaEvent) {
    && (!e.Open? && !e.Overwrite? ==> e.who < |f.stores|)
    && (e.Open? || e.Reload? ==> !f.file.Corrupt?)
  }

  ghost function Apply(f: Fleet, e: MetaEvent, window: nat): (f': Fleet)
    requires Enabled(f, e) && window > 0
    ensures |f'.stores| == |f.stores| + if e.Open? then 1 else 0
  {
    match e
    case Open => f.(stores := f.stores + [Opened(f.file, window)])
    case SetLatest(i, tip) => f.(stores := f.stores[i := WithLatest(f.stores[i], tip)])
    case EnsureAtLeast(i, tip) =>
      var m := WithLatest(f.stores[i], tip);
      if m.latest > f.stores[i].latest then
        var (m', file') := Persisted(m, f.file);
        Fleet(file', f.stores[i := m'])
      else f.(stores := f.stores[i := m])
    case Persist(i) =>
      var (m', file') := Persisted(f.stores[i], f.file);
      Fleet(file', f.stores[i := m'])
    case Read(i) => f.(stores := f.stores[i := ReadTip(f.stores[i], f.file).0])
    case Reload(i) => f.(stores := f.stores[i := Reloaded(f.stores[i], f.file, window)])
    case ReloadIndex(i) => f.(stores := f.stores[i := ReloadedIndex(f.stores[i], f.file)])
    case SetIndex(i, index) => f.(stores := f.stores[i := f.stores[i].(index := index)])
    case Overwrite(file) => f.(file := file)
  }

  ghost predicate IsRun(run: seq<Fleet>, events: seq<MetaEvent>, window: nat) {
    && window > 0
    && |run| == |events| + 1
    && FleetOk(run[0])
    && forall i :: 0 <= i < |events| ==> Enabled(run[i], events[i]) && run[i + 1] == Apply(run[i], events[i], window)
  }

  /**
   A store that has just been opened is coherent, whatever the file holds, and knows the tip of the file; it numbers
   on from the tip stored, even if the index runs ahead of it.
   */
  lemma OpenedIsCoherent(file: MetaFile, window: nat)
    requires !file.Corrupt? && window > 0
    ensures Opened(file, window).Coherent() && Opened(file, window).highWater == DiskTip(file)
    ensures Opened(file, window).latest == if file.Stored? then file.doc.latest else 0
  {
  }

  /** One event: coherence is kept, no store's tips rewind, and only an overwrite can lower the disk tip. */
  lemma EventKeepsTips(f: Fleet, e: MetaEvent, window: nat)
    requires FleetOk(f) && Enabled(f, e) && window > 0
    ensures var f' := Apply(f, e, window);
      && FleetOk(f')
      && (!e.Overwrite? ==> DiskTip(f'.file) >= DiskTip(f.file))
      && forall i :: 0 <= i < |f.stores| ==>
        f'.stores[i].latest >= f.stores[i].latest && f'.stores[i].highWater >= f.stores[i].highWater
  {
    if e.Open? {
      OpenedIsCoherent(f.file, window);
    }
  }

  lemma {:induction false} RunKeepsTips(run: seq<Fleet>, events: seq<MetaEvent>, window: nat, a: nat, b: nat)
    requires IsRun(run, events, window) && a <= b < |run|
    ensures FleetOk(run[b]) && |run[b].stores| >= |run[a].stores|
    ensures (forall i :: a <= i < b ==> !events[i].Overwrite?) ==> DiskTip(run[b].file) >= DiskTip(run[a].file)
    ensures forall i :: 0 <= i < |run[a].stores| ==>
      run[b].stores[i].latest >= run[a].stores[i].latest && run[b].stores[i].highWater >= run[a].stores[i].highWater
    decreases b
  {
    hide Apply, FleetOk, DiskTip, Enabled;
    if b > 0 {
      RunKeepsTips(run, events, window, if a < b then a else b - 1, b - 1);
      EventKeepsTips(run[b - 1], events[b - 1], window);
    }
  }

  /** No interleaving of stores lowers the tip on disk. */
  lemma SharedTipNeverRewinds(run: seq<Fleet>, events: seq<MetaEvent>, window: nat, a: nat, b: nat)
    requires IsRun(run, events, window) && a <= b < |run|
    requires forall i :: a <= i < b ==> !events[i].Overwrite?
    ensures DiskTip(run[b].file) >= DiskTip(run[a].file)
  {
    RunKeepsTips(run, events, window, a, b);
  }

  // ---------- what a published file holds ----------

  /** The tip a store publishes: the highest it knows of, the one it is just told included. */
  ghost function KnownTip(m: MetaState, e: MetaEvent): (tip: int) {
    var told := if e.EnsureAtLeast? then e.tip else 0;
    Max(Max(m.latest, m.highWater), told)
  }

  /** Event `i` published the windows and the index of its store, which knew of no lower tip than the file did. */
  ghost predicate Wrote(run: seq<Fleet>, events: seq<MetaEvent>, i: nat)
    requires |run| == |events| + 1 && i < |events|
  {
    var f, e := run[i], events[i];
    && (e.Persist? || e.EnsureAtLeast?) && e.who < |f.stores|
    && var m := f.stores[e.who];
       var tip := KnownTip(m, e);
       && tip >= DiskTip(f.file)
       && run[i + 1].file == Stored(MetaDoc(tip, Serialized(m.windows), m.index))
  }

  /** No event but an overwrite changes the file unless it publishes a store that is not behind it. */
  lemma OnlyPublicationWrites(run: seq<Fleet>, events: seq<MetaEvent>, window: nat, i: nat)
    requires IsRun(run, events, window) && i < |events| && !events[i].Overwrite?
    ensures run[i + 1].file == run[i].file || Wrote(run, events, i)
  {
    hide DiskTip;
    assert run[i + 1] == Apply(run[i], events[i], window);
    RunKeepsTips(run, events, window, i, i);
  }

  /**
   No store clobbers a newer file. After any interleaving the file is what it was, or tip, windows and index of
   one store as it stood when it published them, and that store knew of a tip at least as high as the file had
   ever shown since.
   */
  lemma {:induction false} FileIsLastPublished(run: seq<Fleet>, events: seq<MetaEvent>, window: nat, a: nat, b: nat)
    requires IsRun(run, events, window) && a <= b < |run|
    requires forall i :: a <= i < b ==> !events[i].Overwrite?
    ensures run[b].file == run[a].file || exists i :: a <= i < b && LastWrite(run, events, a, i, b)
    decreases b
  {
    hide Wrote, DiskTip, Apply;
    if b > a {
      FileIsLastPublished(run, events, window, a, b - 1);
      OnlyPublicationWrites(run, events, window, b - 1);
      if run[b].file != run[b - 1].file {
        forall k | a <= k <= b - 1 ensures DiskTip(run[k].file) <= DiskTip(run[b - 1].file) {
          SharedTipNeverRewinds(run, events, window, k, b - 1);
        }
        assert LastWrite(run, events, a, b - 1, b);
      } else if run[b - 1].file != run[a].file {
        var i :| a <= i < b - 1 && LastWrite(run, events, a, i, b - 1);
        assert LastWrite(run, events, a, i, b);
      }
    }
  }

  ghost predicate LastWrite(run: seq<Fleet>, events: seq<MetaEvent>, a: nat, i: nat, b: nat)
    requires |run| == |events| + 1 && i < |events| && b < |run|
  {
    && Wrote(run, events, i) && run[b].file == run[i + 1].file
    && forall k :: a <= k <= i ==> DiskTip(run[k].file) <= DiskTip(run[i].file)
  }

  /** Publishing leaves memory and file with one tip, the larger of the two, unless the index runs ahead of both. */
  lemma PublicationAgrees(m: MetaState, file: MetaFile)
    ensures var (m', file') := Persisted(m, file);
      && m'.latest == m'.highWater == Max(Max(Max(m.latest, m.highWater), 0), DiskTip(file))
      && m'.windows == m.windows && m'.index == m.index
      && DiskTip(file') == Max(m'.latest, if file' == file then DiskTip(file) else MaxSeq(m.index))
      && (file.Corrupt? ==> file' == Stored(MetaDoc(m'.latest, Serialized(m.windows), m.index)))
  {
  }

  /** A tip that a store is told and that is news to it is durable at once. */
  lemma ToldTipIsDurable(f: Fleet, who: nat, tip: nat, window: nat)
    requires window > 0 && who < |f.stores| && f.stores[who].latest < tip
    ensures DiskTip(Apply(f, EnsureAtLeast(who, tip), window).file) >= tip
  {
    PublicationAgrees(WithLatest(f.stores[who], tip), f.file);
  }

  // ---------- what a store reports ----------

  /** The tip of a document is no lower than its own tip and the seqs of its index, and is one of them or 0. */
  lemma DocTipIsTheHighest(doc: MetaDoc)
    ensures DocTip(doc) >= 0 && DocTip(doc) >= doc.latest
    ensures forall i :: 0 <= i < |doc.index| ==> DocTip(doc) >= doc.index[i].seqNo
    ensures || DocTip(doc) == 0 || DocTip(doc) == doc.latest
            || exists i :: 0 <= i < |doc.index| && DocTip(doc) == doc.index[i].seqNo
  {
    MaxSeqIsTheMaximum(doc.index);
  }

  /**
   A readable file is really read: the tip reported is at least every tip and every seq in it, and at least
   what the store has seen before; a store that has seen no higher tip reports the tip of the file.
   */
  lemma ReportedTipIsTheDisks(m: MetaState, file: MetaFile)
    requires !file.Corrupt?
    ensures ReadTip(m, file).1 >= DiskTip(file) && ReadTip(m, file).1 >= m.highWater
    ensures m.highWater <= DiskTip(file) ==> ReadTip(m, file).1 == DiskTip(file)
    ensures file.Stored? ==> ReadTip(m, file).1 >= file.doc.latest
    ensures file.Stored? ==> forall i :: 0 <= i < |file.doc.index| ==> ReadTip(m, file).1 >= file.doc.index[i].seqNo
    ensures ReadTip(m, file).0 == m.(highWater := ReadTip(m, file).1)
  {
    DocTipIsTheHighest(Payload(file));
  }

  /**
   Whatever happens to the file in between, overwrites and corruption included, what a store reports
   at step b, from memory or off the disk, is at least what it reported at step a the same way.
   */
  lemma ReportedTipNeverRewinds(run: seq<Fleet>, events: seq<MetaEvent>, window: nat, a: nat, b: nat, who: nat)
    requires IsRun(run, events, window) && a < b < |run| && who < |run[a].stores|
    requires events[a] == Read(who)
    ensures |run[b].stores| >= |run[a].stores|
    ensures run[b].stores[who].latest >= run[a].stores[who].latest
    ensures ReadTip(run[b].stores[who], run[b].file).1 >= ReadTip(run[a].stores[who], run[a].file).1
  {
    RunKeepsTips(run, events, window, 0, a);
    RunKeepsTips(run, events, window, a, a + 1);
    RunKeepsTips(run, events, window, a + 1, b);
  }

  /** Buckets by upper-case symbol. */
  type Buckets = bs: map<Bytes, SymbolDedupBucket> | forall key :: key in bs ==> IsUpper(key)

  function WindowsOf(bs: Buckets): (windows: Windows)
    reads bs.Values
  {
    var windows := map key | key in bs :: bs[key].order;
    assert forall key :: key in windows ==> key in bs;
    windows
  }

  lemma WindowsAreHydrated(bs: Buckets, seen: SeenIds, window: nat)
    requires window > 0 && bs.Keys == set key | key in seen :: Upper(key)
    requires forall key :: key in seen ==> bs[Upper(key)].order == Hydrated(seen[key], window)
    ensures WindowsOf(bs) == HydratedAll(seen, window)
  {
    var a, b := WindowsOf(bs), HydratedAll(seen, window);
    hide WindowsOf, HydratedAll, IsUpper;
    forall key: Bytes
      ensures key in a <==> key in b
      ensures key in a ==> a[key] == b[key]
    {
      WindowHydrated(bs, seen, window, key);
    }
    SameMap(a, b);
  }

  lemma WindowHydrated(bs: Buckets, seen: SeenIds, window: nat, key: Bytes)
    requires window > 0 && bs.Keys == set k | k in seen :: Upper(k)
    requires forall k :: k in seen ==> bs[Upper(k)].order == Hydrated(seen[k], window)
    ensures var a, b := WindowsOf(bs), HydratedAll(seen, window);
      (key in a <==> key in b) && (key in a ==> a[key] == b[key])
  {
    hide IsUpper, Upper, Hydrated;
    if key in bs {
      var stored :| stored in seen && Upper(stored) == key;
      assert HydratedAll(seen, window)[Upper(stored)] == Hydrated(seen[stored], window);
    }
    assert key in HydratedAll(seen, window) ==> key in bs.Keys;
  }

  class TickJournalMetaStore {
    const disk: Disk
    const dedupWindow: nat
    var latest: int
    var highWater: int
    var index: seq<IndexEntry>
    var buckets: Buckets

    ghost predicate Valid()
      reads this, buckets.Values
    {
      && dedupWindow > 0
      && (forall key :: key in buckets ==> buckets[key].Valid() && buckets[key].maxSize == dedupWindow)
      && (forall k1, k2 :: k1 in buckets && k2 in buckets && k1 != k2 ==> buckets[k1] != buckets[k2])
    }

    ghost function Held(): Windows
      reads this, buckets.Values
    {
      WindowsOf(buckets)
    }

    ghost function State(): MetaState
      reads this, buckets.Values
    {
      MetaState(latest, highWater, index, Held())
    }

    /** Opening a corrupt meta file raises in the source. */
    constructor (disk: Disk, dedupWindow: nat)
      requires dedupWindow > 0 && !disk.meta.Corrupt?
      ensures Valid() && this.disk == disk && this.dedupWindow == dedupWindow
      ensures forall key :: key in buckets ==> fresh(buckets[key])
      ensures State() == Opened(disk.meta, dedupWindow)
    {
      hide MaxSeq, HydratedAll, WindowsOf, IsUpper, Upper;
      this.disk, this.dedupWindow := disk, dedupWindow;
      var doc := Payload(disk.meta);
      latest, index := doc.latest, doc.index;
      highWater, buckets := 0, map[];
      new;
      var hydrated := HydrateDedupBuckets(doc.seen);
      buckets := hydrated;
      var tip := MaxSeqFromSeqIndex(doc.index);
      highWater := Max(Max(doc.latest, 0), tip);
      assert Held() == HydratedAll(doc.seen, dedupWindow);
    }

    method MaxSeqFromSeqIndex(index: seq<IndexEntry>) returns (high: int)
      ensures high == MaxSeq(index)
    {
      high := 0;
      var i := 0;
      while i < |index|
        invariant 0 <= i <= |index| && high == MaxSeq(index[..i])
      {
        assert index[..i + 1][..i] == index[..i];
        if index[i].seqNo > high {
          high := index[i].seqNo;
        }
        i := i + 1;
      }
      assert index[..|index|] == index;
    }

    method HydrateDedupBuckets(seen: SeenIds) returns (bs: Buckets)
      requires dedupWindow > 0
      ensures forall key :: key in bs ==> fresh(bs[key])
      ensures forall key :: key in bs ==> bs[key].Valid() && bs[key].maxSize == dedupWindow
      ensures WindowsOf(bs) == HydratedAll(seen, dedupWindow)
      ensures forall k1, k2 :: k1 in bs && k2 in bs && k1 != k2 ==> bs[k1] != bs[k2]
    {
      bs := map[];
      var todo := seen.Keys;
      while todo != {}
        invariant todo <= seen.Keys && bs.Keys == set key | key in seen.Keys - todo :: Upper(key)
        invariant forall key :: key in bs ==> fresh(bs[key])
        invariant forall key :: key in bs ==> bs[key].Valid() && bs[key].maxSize == dedupWindow
        invariant forall key :: key in seen.Keys - todo ==> bs[Upper(key)].order == Hydrated(seen[key], dedupWindow)
        invariant forall k1, k2 :: k1 in bs && k2 in bs && k1 != k2 ==> bs[k1] != bs[k2]
        decreases todo
      {
        var key :| key in todo;
        var bucket := SymbolDedupBucket.FromList(seen[key], dedupWindow);
        bs := bs[Upper(key) := bucket];
        todo := todo - {key};
      }
      assert seen.Keys - todo == seen.Keys;
      WindowsAreHydrated(bs, seen, dedupWindow);
    }

    method LatestSeq() returns (tip: int)
      ensures tip == latest
    {
      tip := latest;
    }

    method SetLatestSeq(tip: nat)
      requires Valid()
      modifies this
      ensures Valid() && buckets == old(buckets) && State() == WithLatest(old(State()), tip)
    {
      var coherent := Max(Max(latest, 0), tip);
      latest := coherent;
      if coherent > highWater {
        highWater := coherent;
      }
    }

    method EnsureLatestSeqAtLeast(tip: nat) returns (advanced: bool)
      requires Valid()
      modifies this
      ensures Valid() && buckets == old(buckets) && State() == WithLatest(old(State()), tip)
      ensures advanced == (latest > old(latest))
    {
      var before := latest;
      SetLatestSeq(tip);
      advanced := latest > before;
    }

    method ReplaceSeqIndex(index: seq<IndexEntry>)
      requires Valid()
      modifies this
      ensures Valid() && buckets == old(buckets) && State() == old(State()).(index := index)
    {
      this.index := index;
    }

    /** A blank symbol raises in the source. */
    method GetOrCreateBucket(symbol: Bytes) returns (bucket: SymbolDedupBucket)
      requires Valid() && !IsBlank(symbol)
      modifies this
      ensures Valid() && forall k :: k in buckets && k !in old(buckets) ==> fresh(buckets[k])
      ensures var key := Upper(Strip(symbol));
        && key in buckets && buckets[key] == bucket
        && buckets.Keys == old(buckets.Keys) + {key}
        && bucket.order == (if key in old(buckets) then old(Held())[key] else [])
        && (forall k :: k in old(buckets) ==> buckets[k] == old(buckets)[k])
      ensures latest == old(latest) && highWater == old(highWater) && index == old(index)
    {
      var key := Upper(Strip(symbol));
      if key !in buckets {
        var created := new SymbolDedupBucket(dedupWindow);
        buckets := buckets[key := created];
      }
      bucket := buckets[key];
    }

    method PublishedTip() returns (tip: int)
      ensures tip == DiskTip(disk.meta)
    {
      tip := 0;
      if !disk.meta.Corrupt? {
        var doc := Payload(disk.meta);
        var indexTip := MaxSeqFromSeqIndex(doc.index);
        tip := Max(Max(doc.latest, 0), indexTip);
      }
    }

    method Persist()
      requires Valid()
      modifies this, disk`meta
      ensures Valid() && buckets == old(buckets)
      ensures (State(), disk.meta) == Persisted(old(State()), old(disk.meta))
    {
      hide DiskTip, WindowsOf;
      ghost var before, file := State(), disk.meta;
      var memoryTip := Max(latest, highWater);
      if memoryTip < 0 {
        memoryTip := 0;
      }
      var diskTip := PublishedTip();
      if diskTip > memoryTip {
        latest, highWater := diskTip, diskTip;
        assert State() == before.(latest := diskTip, highWater := diskTip);
        return;
      }
      latest, highWater := memoryTip, memoryTip;
      var seen := WindowsOf(buckets);
      disk.meta := Stored(MetaDoc(latest, Serialized(seen), index));
      assert State() == before.(latest := memoryTip, highWater := memoryTip);
    }

    method ReadLatestSeqFromDisk() returns (tip: int)
      requires Valid()
      modifies this
      ensures Valid() && buckets == old(buckets)
      ensures (State(), tip) == ReadTip(old(State()), disk.meta)
    {
      if disk.meta.Corrupt? {
        return Max(latest, highWater);
      }
      var doc := Payload(disk.meta);
      var indexTip := MaxSeqFromSeqIndex(doc.index);
      var coherent := Max(Max(Max(doc.latest, 0), indexTip), highWater);
      if coherent > highWater {
        highWater := coherent;
      }
      tip := coherent;
    }

    /** Reloading a corrupt meta file raises in the source. */
    method ReloadFromDisk()
      requires Valid() && !disk.meta.Corrupt?
      modifies this
      ensures Valid() && forall key :: key in buckets ==> fresh(buckets[key])
      ensures State() == Reloaded(old(State()), disk.meta, dedupWindow)
    {
      hide MaxSeq, HydratedAll, WindowsOf;
      var doc := Payload(disk.meta);
      index := doc.index;
      var hydrated := HydrateDedupBuckets(doc.seen);
      buckets := hydrated;
      var indexTip := MaxSeqFromSeqIndex(doc.index);
      var coherent := Max(Max(Max(doc.latest, 0), indexTip), highWater);
      if coherent > highWater {
        highWater := coherent;
      }
      latest := coherent;
    }

    method ReloadSeqIndexFromDisk()
      requires Valid()
      modifies this
      ensures Valid() && buckets == old(buckets)
      ensures State() == ReloadedIndex(old(State()), disk.meta)
    {
      if disk.meta.Corrupt? {
        return;
      }
      index := Payload(disk.meta).index;
    }
  }
}
