/** When the in-memory tip becomes durable (core/journal/tick_journal_meta_durability.py). */
module MetaDurability {
  import opened JournalDisk
  import opened JournalMeta

  const META_PERSIST_INTERVAL: nat := 50

  /** The writer's side of publication. `timer` is an armed idle flush. */
  datatype Publisher = Publisher(meta: MetaState, counter: nat, dirty: bool, timer: bool)

  function PersistedLocked(p: Publisher, file: MetaFile): (r: (Publisher, MetaFile)) {
    var (m', file') := Persisted(p.meta, file);
    (p.(meta := m', dirty := false, timer := false), file')
  }

  function NotedAppend(p: Publisher, file: MetaFile, interval: nat, idleFlush: bool): (r: (Publisher, MetaFile))
    requires interval > 0
  {
    var q := p.(counter := p.counter + 1);
    if q.counter % interval == 0 then PersistedLocked(q, file)
    else (q.(dirty := true, timer := q.timer || idleFlush), file)
  }

  /** Only a publisher that has unpersisted tip advances touches the disk. */
  function Flushed(p: Publisher, file: MetaFile): (r: (Publisher, MetaFile)) {
    if p.dirty then PersistedLocked(p, file) else (p, file)
  }

  // ---------- runs ----------

  /** `Change` stands for what other operations do to the tip in memory, and other processes to the file. */
  datatype DurabilityEvent =
    | Append
    | Flush
    | Change(meta: MetaState, file: MetaFile)

  datatype Durability = Durability(publisher: Publisher, file: MetaFile)

  function After(d: Durability, e: DurabilityEvent, interval: nat, idleFlush: bool): (d': Durability)
    requires interval > 0
  {
    match e
    case Append => var (p, file) := NotedAppend(d.publisher, d.file, interval, idleFlush); Durability(p, file)
    case Flush => var (p, file) := Flushed(d.publisher, d.file); Durability(p, file)
    case Change(meta, file) => Durability(d.publisher.(meta := meta), file)
  }

  ghost predicate IsRun(run: seq<Durability>, events: seq<DurabilityEvent>, interval: nat, idleFlush: bool) {
    && interval > 0
    && |run| == |events| + 1
    && run[0].publisher == Publisher(run[0].publisher.meta, 0, false, false)
    && forall i :: 0 <= i < |events| ==> run[i + 1] == After(run[i], events[i], interval, idleFlush)
  }

  function AppendsBefore(events: seq<DurabilityEvent>, j: nat): (n: nat)
    requires j <= |events|
  {
    if j == 0 then 0 else AppendsBefore(events, j - 1) + if events[j - 1].Append? then 1 else 0
  }

  /** Event `j` completes an interval of appends. */
  predicate CompletesInterval(events: seq<DurabilityEvent>, j: nat, interval: nat)
    requires j < |events| && interval > 0
  {
    events[j].Append? && AppendsBefore(events, j + 1) % interval == 0
  }

  /** Append `k` left its tip unpublished, and up to `j` no flush and no completed interval has published it. */
  ghost predicate Unpublished(events: seq<DurabilityEvent>, k: nat, j: nat, interval: nat)
    requires interval > 0
  {
    && k < j <= |events| && events[k].Append?
    && forall m :: k <= m < j ==> !events[m].Flush? && !CompletesInterval(events, m, interval)
  }

  lemma {:induction false} DirtyMeansUnpublished(run: seq<Durability>, events: seq<DurabilityEvent>, interval: nat,
                                                 idleFlush: bool, j: nat)
    requires IsRun(run, events, interval, idleFlush) && j < |run|
    ensures run[j].publisher.counter == AppendsBefore(events, j)
    ensures run[j].publisher.dirty <==> exists k: nat :: Unpublished(events, k, j, interval)
    ensures run[j].publisher.timer <==> run[j].publisher.dirty && idleFlush
    decreases j
  {
    hide Persisted;
    if j > 0 {
      DirtyMeansUnpublished(run, events, interval, idleFlush, j - 1);
      assert run[j - 1 + 1] == After(run[j - 1], events[j - 1], interval, idleFlush);
      if events[j - 1].Append? && !CompletesInterval(events, j - 1, interval) {
        assert Unpublished(events, j - 1, j, interval);
      } else if run[j].publisher.dirty {
        var k: nat :| Unpublished(events, k, j - 1, interval);
        assert Unpublished(events, k, j, interval);
      } else {
        forall k: nat ensures !Unpublished(events, k, j, interval) {
          assert k == j - 1 || !Unpublished(events, k, j, interval) || Unpublished(events, k, j - 1, interval);
        }
      }
    }
  }

  /**
   When the meta of a writer is published, over any run. An append publishes exactly if it completes an interval. A
   flush, whether called or fired by a timer, publishes exactly if an append since the last publication has not been,
   and otherwise touches nothing; and while there is such an append, an idle flush is armed if the writer uses them.
   */
  lemma PublishesWhatIsUnpublished(run: seq<Durability>, events: seq<DurabilityEvent>, interval: nat, idleFlush: bool,
                                   j: nat)
    requires IsRun(run, events, interval, idleFlush) && j < |events|
    ensures var (m', file') := Persisted(run[j].publisher.meta, run[j].file);
      match events[j]
      case Append =>
        if CompletesInterval(events, j, interval) then run[j + 1].publisher.meta == m' && run[j + 1].file == file'
        else run[j + 1].publisher.meta == run[j].publisher.meta && run[j + 1].file == run[j].file
      case Flush =>
        if exists k: nat :: Unpublished(events, k, j, interval) then
          run[j + 1].publisher.meta == m' && run[j + 1].file == file'
        else run[j + 1] == run[j]
      case Change(_, _) => true
    ensures (exists k: nat :: Unpublished(events, k, j, interval)) ==> run[j].publisher.timer == idleFlush
  {
    hide Persisted, Unpublished;
    DirtyMeansUnpublished(run, events, interval, idleFlush, j);
    assert run[j + 1] == After(run[j], events[j], interval, idleFlush);
  }

  class TickJournalMetaDurability {
    const meta: TickJournalMetaStore
    const persistInterval: nat
    const idleFlush: bool
    var appendCounter: nat
    var metaDirty: bool
    var idleFlushTimer: bool

    ghost predicate Valid()
      reads meta, meta.buckets.Values
    {
      persistInterval > 0 && meta.Valid()
    }

    ghost function State(): Publisher
      reads this, meta, meta.buckets.Values
    {
      Publisher(meta.State(), appendCounter, metaDirty, idleFlushTimer)
    }

    constructor (meta: TickJournalMetaStore, persistInterval: nat, idleFlush: bool)
      requires meta.Valid() && persistInterval > 0
      ensures Valid() && this.meta == meta && this.persistInterval == persistInterval && this.idleFlush == idleFlush
      ensures State() == Publisher(meta.State(), 0, false, false)
    {
      this.meta, this.persistInterval, this.idleFlush := meta, persistInterval, idleFlush;
      appendCounter, metaDirty, idleFlushTimer := 0, false, false;
    }

    method NoteAppendLocked()
      requires Valid()
      modifies this, meta, meta.disk`meta
      ensures Valid() && meta.buckets == old(meta.buckets)
      ensures (State(), meta.disk.meta) == NotedAppend(old(State()), old(meta.disk.meta), persistInterval, idleFlush)
    {
      appendCounter := appendCounter + 1;
      if appendCounter % persistInterval == 0 {
        PersistLocked();
      } else {
        metaDirty := true;
        if idleFlush {
          idleFlushTimer := true;
        }
      }
    }

    method PersistLocked()
      requires Valid()
      modifies this, meta, meta.disk`meta
      ensures Valid() && meta.buckets == old(meta.buckets)
      ensures (State(), meta.disk.meta) == PersistedLocked(old(State()), old(meta.disk.meta))
    {
      idleFlushTimer := false;
      meta.Persist();
      metaDirty := false;
    }

    /** Also the target of the idle-flush timer, so a stale timer that still fires is harmless. */
    method Flush() returns (flushed: bool)
      requires Valid()
      modifies this, meta, meta.disk`meta
      ensures Valid() && meta.buckets == old(meta.buckets)
      ensures (State(), meta.disk.meta) == Flushed(old(State()), old(meta.disk.meta))
      ensures flushed == old(metaDirty)
    {
      if !metaDirty {
        return false;
      }
      PersistLocked();
      flushed := true;
    }
  }
}
