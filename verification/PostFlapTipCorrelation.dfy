/** The journal tip must move on after a dropped connection is restored (core/network/post_flap_tip_correlation.py). */
module FlapCorrelation {
  import opened Bytes
  import opened HealCooldown

  /** The self-heal signal: the baseline, the tip that did not pass it, and the seconds since the restore. */
  datatype TipStale = TipStale(before: nat, now: nat, elapsed: real)

  /** A scheduled deadline carries the baseline and the wall time it was armed with. */
  datatype Deadline = Deadline(due: real, baseline: nat, reconnectWallMs: int)

  datatype MonitorState = MonitorState(
    pendingClose: bool, tipBefore: Option<nat>, baseline: Option<nat>, closeMonoMs: Option<int>,
    lastFlapMs: Option<int>, watchdog: Option<nat>, generation: nat,
    lastHeal: Option<real>, detection: Option<TipStale>, sleeping: map<nat, Deadline>)

  const QUIET := MonitorState(false, None, None, None, None, None, 0, None, None, map[])

  /** A negative tip is unreadable, like a missing one. */
  function Readable(raw: Option<int>): (tip: Option<nat>) {
    if raw.Some? && raw.value >= 0 then Some(raw.value) else None
  }

  function Dropped(s: MonitorState): (s': MonitorState) {
    s.(generation := s.generation + 1, watchdog := None, baseline := None)
  }

  function Closed(s: MonitorState, raw: Option<int>, monoMs: int): (s': MonitorState) {
    Dropped(s).(pendingClose := true, tipBefore := Readable(raw), closeMonoMs := Some(monoMs), lastFlapMs := None)
  }

  function Baseline(before: Option<nat>, after: Option<nat>): (b: Option<nat>) {
    if before.Some? then before else after
  }

  function Restored(s: MonitorState, raw: Option<int>, wallMs: int, monoMs: int, now: real, window: real)
    : (s': MonitorState)
  {
    if !s.pendingClose then s
    else
      var t := s.(pendingClose := false,
                  lastFlapMs := if s.closeMonoMs.Some? then Some(monoMs - s.closeMonoMs.value) else None);
      var b := Baseline(s.tipBefore, Readable(raw));
      if b.None? then t
      else
        var g := s.generation + 1;
        t.(baseline := b, generation := g, watchdog := Some(g),
           sleeping := s.sleeping[g := Deadline(now + window, b.value, wallMs)])
  }

  function Progressed(s: MonitorState, raw: Option<int>): (r: (MonitorState, bool)) {
    var tip := Readable(raw);
    if s.watchdog.None? || s.baseline.None? || tip.None? || tip.value <= s.baseline.value then (s, false)
    else (Dropped(s), true)
  }

  function Elapsed(reconnectWallMs: int, wallMs: int): (seconds: real) {
    (if wallMs > reconnectWallMs then wallMs - reconnectWallMs else 0) as real / 1000.0
  }

  function Woken(s: MonitorState, g: nat, raw: Option<int>, wallMs: int, now: real, minInterval: real)
    : (r: (MonitorState, Option<TipStale>))
    requires g in s.sleeping
  {
    var deadline := s.sleeping[g];
    var t := s.(sleeping := s.sleeping - {g});
    if g != s.generation then (t, None)
    else
      var closed := t.(watchdog := None, baseline := None);
      var tip := Readable(raw);
      if tip.None? || tip.value > deadline.baseline || Cooling(s.lastHeal, now, minInterval) then (closed, None)
      else
        var heal := TipStale(deadline.baseline, tip.value, Elapsed(deadline.reconnectWallMs, wallMs));
        (closed.(lastHeal := Some(now), detection := Some(heal)), Some(heal))
  }

  // ---------- runs ----------

  datatype MonitorEvent =
    | Close(monoMs: int)
    | Restore(monoMs: int)
    | Progress
    | Cancel
    | Wake(generation: nat)
    | Consume

  /** `tip` is what the tip provider answers when the event happens. */
  datatype Timed = Timed(event: MonitorEvent, tip: Option<int>, wallMs: int, now: real)

  datatype Timing = Timing(window: real, minInterval: real)

  ghost predicate CanHappen(s: MonitorState, e: Timed) {
    e.event.Wake? ==> e.event.generation in s.sleeping && s.sleeping[e.event.generation].due <= e.now
  }

  ghost function After(s: MonitorState, e: Timed, c: Timing): (r: (MonitorState, Option<TipStale>))
    requires CanHappen(s, e)
  {
    match e.event
    case Close(monoMs) => (Closed(s, e.tip, monoMs), None)
    case Restore(monoMs) => (Restored(s, e.tip, e.wallMs, monoMs, e.now, c.window), None)
    case Progress => (Progressed(s, e.tip).0, None)
    case Cancel => (Dropped(s), None)
    case Wake(g) => Woken(s, g, e.tip, e.wallMs, e.now, c.minInterval)
    case Consume => (s.(detection := None), None)
  }

  ghost predicate IsRun(run: seq<MonitorState>, events: seq<Timed>, c: Timing) {
    && |run| == |events| + 1
    && run[0] == QUIET
    && (forall i :: 0 <= i < |events| ==> CanHappen(run[i], events[i]) && run[i + 1] == After(run[i], events[i], c).0)
    && forall i, j :: 0 <= i < j < |events| ==> events[i].now <= events[j].now
  }

  ghost predicate Healed(run: seq<MonitorState>, events: seq<Timed>, c: Timing, j: nat)
    requires IsRun(run, events, c) && j < |events|
  {
    After(run[j], events[j], c).1.Some?
  }

  /** A close stops the watch, and only the restore that answers it starts one again. */
  ghost predicate Inv(s: MonitorState) {
    && (s.watchdog.Some? <==> s.generation in s.sleeping)
    && (s.watchdog.Some? <==> s.baseline.Some?)
    && (s.watchdog.Some? ==> s.watchdog.value == s.generation && s.sleeping[s.generation].baseline == s.baseline.value)
    && (s.pendingClose ==> s.watchdog.None? && s.closeMonoMs.Some?)
    && forall g :: g in s.sleeping ==> g <= s.generation
  }

  lemma {:induction false} RunKeepsInv(run: seq<MonitorState>, events: seq<Timed>, c: Timing, i: nat)
    requires IsRun(run, events, c) && i < |run|
    ensures Inv(run[i])
    decreases i
  {
    if i > 0 {
      RunKeepsInv(run, events, c, i - 1);
      assert run[i - 1 + 1] == After(run[i - 1], events[i - 1], c).0;
    }
  }

  // ---------- flaps, read off the events alone ----------

  /** Events `a` and `r` are one flap: a close, and the first restore after it with no close in between. */
  ghost predicate IsFlap(events: seq<Timed>, a: nat, r: nat) {
    && a < r < |events| && events[a].event.Close? && events[r].event.Restore?
    && forall k :: a < k < r ==> !events[k].event.Close? && !events[k].event.Restore?
  }

  /** The tip a flap is measured against: the one read at the close, else the one read at the restore. */
  ghost function FlapBaseline(events: seq<Timed>, a: nat, r: nat): (b: Option<nat>)
    requires IsFlap(events, a, r)
  {
    var before, after := events[a].tip, events[r].tip;
    if before.Some? && before.value >= 0 then Some(before.value)
    else if after.Some? && after.value >= 0 then Some(after.value)
    else None
  }

  /** Event `j` ends the watch on the flap (a, r). */
  ghost predicate Ends(run: seq<MonitorState>, events: seq<Timed>, a: nat, r: nat, j: nat)
    requires |run| == |events| + 1 && IsFlap(events, a, r) && FlapBaseline(events, a, r).Some? && j < |events|
  {
    var e, tip := events[j].event, events[j].tip;
    || e.Close?
    || e.Cancel?
    || (e.Progress? && tip.Some? && tip.value > FlapBaseline(events, a, r).value)
    || (e.Wake? && e.generation == run[r + 1].generation)
  }

  ghost predicate WatchedSince(run: seq<MonitorState>, events: seq<Timed>, a: nat, r: nat, j: nat)
    requires |run| == |events| + 1
  {
    && IsFlap(events, a, r) && FlapBaseline(events, a, r).Some? && r < j <= |events|
    && forall k :: r < k < j ==> !Ends(run, events, a, r, k)
  }

  /** Until it is answered, a close stays pending with the tip it saw. */
  lemma {:induction false} CloseStaysPending(run: seq<MonitorState>, events: seq<Timed>, c: Timing,
                                             a: nat, r: nat, j: nat)
    requires IsRun(run, events, c) && IsFlap(events, a, r) && a < j <= r
    ensures run[j].pendingClose && run[j].tipBefore == Readable(events[a].tip)
    decreases j
  {
    assert run[j - 1 + 1] == After(run[j - 1], events[j - 1], c).0;
    if j > a + 1 {
      CloseStaysPending(run, events, c, a, r, j - 1);
      RunKeepsInv(run, events, c, j - 1);
    }
  }

  lemma {:induction false} PendingHasAClose(run: seq<MonitorState>, events: seq<Timed>, c: Timing, j: nat)
    returns (a: nat)
    requires IsRun(run, events, c) && j < |run| && run[j].pendingClose
    ensures a < j && events[a].event.Close?
    ensures forall k :: a < k < j ==> !events[k].event.Close? && !events[k].event.Restore?
    decreases j
  {
    assert run[j - 1 + 1] == After(run[j - 1], events[j - 1], c).0;
    if events[j - 1].event.Close? {
      a := j - 1;
    } else {
      a := PendingHasAClose(run, events, c, j - 1);
    }
  }

  lemma {:induction false} WatchedFlap(run: seq<MonitorState>, events: seq<Timed>, c: Timing, a: nat, r: nat, j: nat)
    requires IsRun(run, events, c) && WatchedSince(run, events, a, r, j)
    ensures run[j].watchdog == Some(run[j].generation) && run[j].generation == run[r + 1].generation
    ensures run[j].baseline == FlapBaseline(events, a, r) && !run[j].pendingClose
    ensures run[j].generation in run[j].sleeping && run[j].sleeping[run[j].generation]
      == Deadline(events[r].now + c.window, FlapBaseline(events, a, r).value, events[r].wallMs)
    decreases j
  {
    assert run[j - 1 + 1] == After(run[j - 1], events[j - 1], c).0;
    if j == r + 1 {
      CloseStaysPending(run, events, c, a, r, r);
    } else {
      WatchedFlap(run, events, c, a, r, j - 1);
      assert !Ends(run, events, a, r, j - 1);
    }
  }

  lemma {:induction false} WatchdogHasAFlap(run: seq<MonitorState>, events: seq<Timed>, c: Timing, j: nat)
    returns (a: nat, r: nat)
    requires IsRun(run, events, c) && j < |run| && run[j].watchdog.Some?
    ensures WatchedSince(run, events, a, r, j)
    decreases j
  {
    assert run[j - 1 + 1] == After(run[j - 1], events[j - 1], c).0;
    if events[j - 1].event.Restore? && run[j - 1].pendingClose {
      r := j - 1;
      a := RestoreStartsAWatch(run, events, c, r);
    } else {
      a, r := WatchdogHasAFlap(run, events, c, j - 1);
      WatchGoesOn(run, events, c, a, r, j - 1);
    }
  }

  lemma RestoreStartsAWatch(run: seq<MonitorState>, events: seq<Timed>, c: Timing, r: nat) returns (a: nat)
    requires IsRun(run, events, c) && r < |events| && events[r].event.Restore? && run[r].pendingClose
    requires run[r + 1].watchdog.Some?
    ensures WatchedSince(run, events, a, r, r + 1)
  {
    a := PendingHasAClose(run, events, c, r);
    CloseStaysPending(run, events, c, a, r, r);
    RunKeepsInv(run, events, c, r);
    assert run[r + 1] == After(run[r], events[r], c).0;
  }

  lemma WatchGoesOn(run: seq<MonitorState>, events: seq<Timed>, c: Timing, a: nat, r: nat, j: nat)
    requires IsRun(run, events, c) && WatchedSince(run, events, a, r, j) && j < |events| && run[j + 1].watchdog.Some?
    ensures WatchedSince(run, events, a, r, j + 1)
  {
    WatchedFlap(run, events, c, a, r, j);
    assert run[j + 1] == After(run[j], events[j], c).0;
    assert !Ends(run, events, a, r, j);
  }

  /** The tip at event `j` is readable and has not passed the baseline of the deadline that wakes there. */
  ghost function BeatOf(s: MonitorState, e: Timed): (b: Beat)
    requires CanHappen(s, e)
  {
    var tip := Readable(e.tip);
    Beat(e.now,
         && e.event.Wake? && e.event.generation == s.generation
         && tip.Some? && tip.value <= s.sleeping[s.generation].baseline,
         s.lastHeal)
  }

  ghost function Beats(run: seq<MonitorState>, events: seq<Timed>, c: Timing): (beats: seq<Beat>)
    requires IsRun(run, events, c)
    ensures |beats| == |events|
    ensures forall k :: 0 <= k < |events| ==> beats[k] == BeatOf(run[k], events[k])
  {
    seq(|events|, k requires 0 <= k < |events| => BeatOf(run[k], events[k]))
  }

  lemma BeatsAreALog(run: seq<MonitorState>, events: seq<Timed>, c: Timing)
    requires IsRun(run, events, c)
    ensures IsLog(Beats(run, events, c), c.minInterval)
    ensures forall k :: 0 <= k < |events| ==>
      Heals(Beats(run, events, c)[k], c.minInterval) == Healed(run, events, c, k)
  {
    var beats := Beats(run, events, c);
    forall k | 0 <= k < |events|
      ensures Heals(beats[k], c.minInterval) == Healed(run, events, c, k)
      ensures run[k + 1].lastHeal == if Heals(beats[k], c.minInterval) then Some(beats[k].now) else beats[k].lastHeal
    {
      assert run[k + 1] == After(run[k], events[k], c).0;
    }
  }

  /**
   When the deadline of a watched flap wakes, the whole window has passed since the restore, and a heal
   is signalled exactly if the tip is readable, has not passed the baseline, and no earlier heal is
   younger than the minimum interval.
   */
  lemma DeadlineHealsIffStagnant(run: seq<MonitorState>, events: seq<Timed>, c: Timing, a: nat, r: nat, j: nat)
    requires IsRun(run, events, c) && WatchedSince(run, events, a, r, j) && j < |events|
    requires events[j].event == Wake(run[r + 1].generation)
    ensures events[j].now - events[r].now >= c.window
    ensures Healed(run, events, c, j) <==>
      && events[j].tip.Some? && 0 <= events[j].tip.value <= FlapBaseline(events, a, r).value
      && forall k :: 0 <= k < j && Healed(run, events, c, k) ==> events[j].now - events[k].now >= c.minInterval
    ensures Healed(run, events, c, j) ==>
      var late := events[j].wallMs - events[r].wallMs;
      var elapsed := if late > 0 then late as real / 1000.0 else 0.0;
      After(run[j], events[j], c).1 == Some(TipStale(FlapBaseline(events, a, r).value, events[j].tip.value, elapsed))
  {
    WatchedFlap(run, events, c, a, r, j);
    BeatsAreALog(run, events, c);
    HealsIffRested(Beats(run, events, c), c.minInterval, j);
  }

  /**
   A heal is only ever signalled for a flap: a close answered by a restore, no close, cancel or reported
   progress since, and a tip that did not pass the flap's baseline. No flap gets a second one.
   */
  lemma HealMeansStagnation(run: seq<MonitorState>, events: seq<Timed>, c: Timing, j: nat) returns (a: nat, r: nat)
    requires IsRun(run, events, c) && j < |events| && Healed(run, events, c, j)
    ensures WatchedSince(run, events, a, r, j) && events[j].event == Wake(run[r + 1].generation)
    ensures events[j].tip.Some? && 0 <= events[j].tip.value <= FlapBaseline(events, a, r).value
    ensures forall k :: j < k <= |events| ==> !WatchedSince(run, events, a, r, k)
    ensures forall k :: 0 <= k < j && Healed(run, events, c, k) ==> events[j].now - events[k].now >= c.minInterval
  {
    RunKeepsInv(run, events, c, j);
    a, r := WatchdogHasAFlap(run, events, c, j);
    WatchedFlap(run, events, c, a, r, j);
    assert Ends(run, events, a, r, j);
    DeadlineHealsIffStagnant(run, events, c, a, r, j);
  }

  /** Reported progress satisfies a watch exactly if the tip has passed the flap's baseline, and nothing else does. */
  lemma ProgressSatisfiesIff(run: seq<MonitorState>, events: seq<Timed>, c: Timing, j: nat)
    requires IsRun(run, events, c) && j < |events| && events[j].event.Progress?
    ensures Progressed(run[j], events[j].tip).1 <==>
      exists a: nat, r: nat :: WatchedSince(run, events, a, r, j)
        && events[j].tip.Some? && events[j].tip.value > FlapBaseline(events, a, r).value
  {
    if run[j].watchdog.Some? {
      var a, r := WatchdogHasAFlap(run, events, c, j);
      WatchedFlap(run, events, c, a, r, j);
    }
    forall a: nat, r: nat | WatchedSince(run, events, a, r, j)
      ensures run[j].watchdog.Some? && run[j].baseline == FlapBaseline(events, a, r)
    {
      WatchedFlap(run, events, c, a, r, j);
    }
  }

  /**
   The duration reported for a flap is the monotonic time between its close and its restore; from the close until
   then none is reported.
   */
  lemma FlapIsTimed(run: seq<MonitorState>, events: seq<Timed>, c: Timing, a: nat, r: nat)
    requires IsRun(run, events, c) && IsFlap(events, a, r)
    ensures run[r + 1].lastFlapMs == Some(events[r].event.monoMs - events[a].event.monoMs)
    ensures forall j :: a < j <= r ==> run[j].lastFlapMs == None
  {
    forall j | a < j <= r ensures run[j].lastFlapMs == None {
      CloseIsTimed(run, events, c, a, r, j);
    }
    CloseIsTimed(run, events, c, a, r, r);
    CloseStaysPending(run, events, c, a, r, r);
    assert run[r + 1] == After(run[r], events[r], c).0;
  }

  lemma {:induction false} CloseIsTimed(run: seq<MonitorState>, events: seq<Timed>, c: Timing, a: nat, r: nat, j: nat)
    requires IsRun(run, events, c) && IsFlap(events, a, r) && a < j <= r
    ensures run[j].closeMonoMs == Some(events[a].event.monoMs) && run[j].lastFlapMs == None
    decreases j
  {
    assert run[j - 1 + 1] == After(run[j - 1], events[j - 1], c).0;
    if j > a + 1 {
      CloseIsTimed(run, events, c, a, r, j - 1);
    }
  }

  /** Event `k` signalled a heal that is still the latest news at `j`: no consume and no further heal since. */
  ghost predicate Unconsumed(run: seq<MonitorState>, events: seq<Timed>, c: Timing, k: nat, j: nat)
    requires IsRun(run, events, c)
  {
    && k < j <= |events| && Healed(run, events, c, k)
    && forall m :: k < m < j ==> !events[m].event.Consume? && !Healed(run, events, c, m)
  }

  lemma DetectionStep(s: MonitorState, e: Timed, c: Timing)
    requires CanHappen(s, e)
    ensures var (s', heal) := After(s, e, c);
      s'.detection == if heal.Some? then heal else if e.event.Consume? then None else s.detection
    ensures e.event.Consume? ==> After(s, e, c).1.None?
  {
  }

  /** A detection waits to be consumed exactly when a heal has not been consumed, and it is the latest one's. */
  lemma {:induction false} DetectionIsTheLastHeal(run: seq<MonitorState>, events: seq<Timed>, c: Timing, j: nat)
    requires IsRun(run, events, c) && j < |run|
    ensures run[j].detection.Some? ==>
      exists k: nat :: Unconsumed(run, events, c, k, j) && After(run[k], events[k], c).1 == run[j].detection
    ensures run[j].detection.None? ==> forall k: nat :: k < j ==> !Unconsumed(run, events, c, k, j)
    decreases j
  {
    hide After, CanHappen;
    if j > 0 {
      DetectionIsTheLastHeal(run, events, c, j - 1);
      assert run[j - 1 + 1] == After(run[j - 1], events[j - 1], c).0;
      DetectionStep(run[j - 1], events[j - 1], c);
      if Healed(run, events, c, j - 1) {
        assert Unconsumed(run, events, c, j - 1, j);
      } else if run[j].detection.Some? {
        var k: nat :| Unconsumed(run, events, c, k, j - 1) && After(run[k], events[k], c).1 == run[j - 1].detection;
        assert Unconsumed(run, events, c, k, j);
      } else {
        forall k: nat | k < j ensures !Unconsumed(run, events, c, k, j) {
          assert events[j - 1].event.Consume? || !Unconsumed(run, events, c, k, j - 1);
        }
      }
    }
  }

  /** A restore that answers no close, as on the first connect, does nothing. */
  lemma RestoreWithoutCloseIsIgnored(run: seq<MonitorState>, events: seq<Timed>, c: Timing, r: nat)
    requires IsRun(run, events, c) && r < |events| && events[r].event.Restore?
    requires forall a :: 0 <= a < r ==> !IsFlap(events, a, r)
    ensures run[r + 1] == run[r]
  {
    assert run[r + 1] == After(run[r], events[r], c).0;
    if run[r].pendingClose {
      var a := PendingHasAClose(run, events, c, r);
      assert IsFlap(events, a, r);
    }
  }

  class PostFlapTipCorrelationMonitor {
    const window: real
    const minInterval: real
    var pendingClose: bool
    var tipBefore: Option<nat>
    var baseline: Option<nat>
    var closeMonoMs: Option<int>
    var lastFlapMs: Option<int>
    var watchdog: Option<nat>
    var generation: nat
    var lastHeal: Option<real>
    var detection: Option<TipStale>
    var sleeping: map<nat, Deadline>

    ghost function State(): (s: MonitorState)
      reads this
    {
      MonitorState(pendingClose, tipBefore, baseline, closeMonoMs, lastFlapMs, watchdog, generation,
                   lastHeal, detection, sleeping)
    }

    predicate IsAwaitingTipProgress()
      reads this
    {
      watchdog.Some?
    }

    constructor (window: real, minInterval: real)
      requires window > 0.0 && minInterval >= 0.0
      ensures this.window == window && this.minInterval == minInterval && State() == QUIET
    {
      this.window, this.minInterval := window, minInterval;
      pendingClose, tipBefore, baseline, closeMonoMs, lastFlapMs := false, None, None, None, None;
      watchdog, generation, lastHeal, detection, sleeping := None, 0, None, None, map[];
    }

    method ConsumeLastTipStaleDetection() returns (d: Option<TipStale>)
      modifies this
      ensures d == old(detection) && State() == old(State()).(detection := None)
    {
      d, detection := detection, None;
    }

    method RecordTipProgress(raw: Option<int>) returns (satisfied: bool)
      modifies this
      ensures (State(), satisfied) == Progressed(old(State()), raw)
    {
      if !IsAwaitingTipProgress() || baseline.None? {
        return false;
      }
      var tip := Readable(raw);
      if tip.None? || tip.value <= baseline.value {
        return false;
      }
      CancelWatch();
      satisfied := true;
    }

    method NoteConnectionClosed(raw: Option<int>, monoMs: int)
      modifies this
      ensures State() == Closed(old(State()), raw, monoMs)
    {
      CancelWatch();
      pendingClose, closeMonoMs := true, Some(monoMs);
      tipBefore, baseline, lastFlapMs := Readable(raw), None, None;
    }

    method NoteConnectionRestored(raw: Option<int>, wallMs: int, monoMs: int, now: real)
      modifies this
      ensures State() == Restored(old(State()), raw, wallMs, monoMs, now, window)
    {
      if !pendingClose {
        return;
      }
      pendingClose := false;
      var tipAfter := Readable(raw);
      lastFlapMs := if closeMonoMs.Some? then Some(monoMs - closeMonoMs.value) else None;
      var b := if tipBefore.Some? then tipBefore else tipAfter;
      if b.None? {
        return;
      }
      baseline, generation := b, generation + 1;
      watchdog, sleeping := Some(generation), sleeping[generation := Deadline(now + window, b.value, wallMs)];
    }

    method CancelWatch()
      modifies this
      ensures State() == Dropped(old(State()))
    {
      generation := generation + 1;
      watchdog, baseline := None, None;
    }

    method EvaluateTipStaleAfterWindow(g: nat, raw: Option<int>, wallMs: int, now: real)
      returns (heal: Option<TipStale>)
      requires g in sleeping
      modifies this
      ensures (State(), heal) == Woken(old(State()), g, raw, wallMs, now, minInterval)
    {
      var deadline := sleeping[g];
      sleeping := sleeping - {g};
      if g != generation {
        return None;
      }
      watchdog, baseline := None, None;
      var tip := Readable(raw);
      if tip.None? || tip.value > deadline.baseline {
        return None;
      }
      var elapsed := Elapsed(deadline.reconnectWallMs, wallMs);
      if lastHeal.Some? && now - lastHeal.value < minInterval {
        return None;
      }
      lastHeal, detection := Some(now), Some(TipStale(deadline.baseline, tip.value, elapsed));
      heal := detection;
    }
  }
}
