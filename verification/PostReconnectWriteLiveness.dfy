/** A journal write is due after every full confirmation (core/state/post_reconnect_write_liveness.py). */
module WriteLiveness {
  import opened Bytes
  import opened HealCooldown

  /** The self-heal signal: the symbols confirmed when the window was armed, and the seconds since. */
  datatype Stale = Stale(symbols: set<string>, elapsed: real)

  /** `sleeping` holds every watchdog task that has not woken yet, cancelled ones included, and when it is due. */
  datatype GuardState = GuardState(
    symbols: set<string>, armedAt: Option<real>, connect: Option<nat>, firstBoot: bool, armCount: nat,
    watchdog: Option<nat>, generation: nat, lastHeal: Option<real>, detection: Option<Stale>, sleeping: map<nat, real>)

  const DISARMED := GuardState({}, None, None, false, 0, None, 0, None, None, map[])

  function Dropped(s: GuardState): (s': GuardState) {
    s.(generation := s.generation + 1, watchdog := None,
       symbols := {}, armedAt := None, connect := None, firstBoot := false)
  }

  function Armed(s: GuardState, symbols: set<string>, connect: Option<nat>, now: real, timeout: real)
    : (s': GuardState)
  {
    var g := s.generation + 2;
    GuardState(symbols, Some(now), connect, if connect.Some? then connect.value == 1 else s.armCount == 0,
               s.armCount + 1, Some(g), g, s.lastHeal, s.detection, s.sleeping[g := now + timeout])
  }

  function Written(s: GuardState): (s': GuardState) {
    if s.watchdog.None? then s else Dropped(s)
  }

  function Woken(s: GuardState, g: nat, now: real, timeout: real, minInterval: real): (r: (GuardState, Option<Stale>)) {
    var t := s.(sleeping := s.sleeping - {g});
    if g != s.generation then (t, None)
    else
      var closed := t.(watchdog := None, symbols := {}, armedAt := None, connect := None, firstBoot := false);
      if Cooling(s.lastHeal, now, minInterval) then (closed, None)
      else
        var heal := Stale(s.symbols, if s.armedAt.Some? then now - s.armedAt.value else timeout);
        (closed.(lastHeal := Some(now), detection := Some(heal)), Some(heal))
  }

  // ---------- runs ----------

  datatype GuardEvent =
    | Arm(symbols: set<string>, connect: Option<nat>)
    | Write
    | Cancel
    | Wake(generation: nat)
    | Consume
    | Idle

  datatype Timed = Timed(event: GuardEvent, now: real)

  datatype Timing = Timing(timeout: real, minInterval: real)

  ghost predicate CanHappen(s: GuardState, e: Timed) {
    e.event.Wake? ==> e.event.generation in s.sleeping && s.sleeping[e.event.generation] <= e.now
  }

  function After(s: GuardState, e: Timed, c: Timing): (r: (GuardState, Option<Stale>)) {
    match e.event
    case Arm(symbols, connect) => (Armed(s, symbols, connect, e.now, c.timeout), None)
    case Write => (Written(s), None)
    case Cancel => (Dropped(s), None)
    case Wake(g) => Woken(s, g, e.now, c.timeout, c.minInterval)
    case Consume => (s.(detection := None), None)
    case Idle => (s, None)
  }

  ghost predicate IsRun(run: seq<GuardState>, events: seq<Timed>, c: Timing) {
    && |run| == |events| + 1
    && run[0] == DISARMED
    && (forall i :: 0 <= i < |events| ==> CanHappen(run[i], events[i]) && run[i + 1] == After(run[i], events[i], c).0)
    && forall i, j :: 0 <= i < j < |events| ==> events[i].now <= events[j].now
  }

  ghost predicate Healed(run: seq<GuardState>, events: seq<Timed>, c: Timing, j: nat)
    requires |run| == |events| + 1 && j < |events|
  {
    After(run[j], events[j], c).1.Some?
  }

  /** The watchdog is the current generation's sleeping task, exactly while a write is awaited; else nothing is kept. */
  ghost predicate Inv(s: GuardState) {
    && (s.watchdog.Some? <==> s.generation in s.sleeping)
    && (s.watchdog.Some? ==> s.watchdog.value == s.generation && s.armedAt.Some?)
    && (s.watchdog.None? ==> s.symbols == {} && s.armedAt == None && s.connect == None && !s.firstBoot)
    && forall g :: g in s.sleeping ==> g <= s.generation
  }

  lemma {:induction false} RunKeepsInv(run: seq<GuardState>, events: seq<Timed>, c: Timing, i: nat)
    requires IsRun(run, events, c) && i < |run|
    ensures Inv(run[i])
    decreases i
  {
    if i > 0 {
      RunKeepsInv(run, events, c, i - 1);
      assert run[i - 1 + 1] == After(run[i - 1], events[i - 1], c).0;
    }
  }

  // ---------- silent windows, read off the events alone ----------

  /** Event `j` ends the wait that event `i` started: a write, a cancel, a new arm, or its own watchdog. */
  ghost predicate Ends(run: seq<GuardState>, events: seq<Timed>, i: nat, j: nat)
    requires i < |run| - 1 && j < |events|
  {
    var e := events[j].event;
    e.Arm? || e.Write? || e.Cancel? || (e.Wake? && e.generation == run[i + 1].generation)
  }

  /** Event `i` armed a window, and nothing before `j` ended the wait. */
  ghost predicate SilentSince(run: seq<GuardState>, events: seq<Timed>, i: nat, j: nat)
    requires |run| == |events| + 1
  {
    && i < j <= |events| && events[i].event.Arm?
    && forall k :: i < k < j ==> !Ends(run, events, i, k)
  }

  lemma {:induction false} SilentWindow(run: seq<GuardState>, events: seq<Timed>, c: Timing, i: nat, j: nat)
    requires IsRun(run, events, c) && SilentSince(run, events, i, j)
    ensures run[j].watchdog == Some(run[j].generation) && run[j].generation == run[i + 1].generation
    ensures run[j].symbols == events[i].event.symbols && run[j].armedAt == Some(events[i].now)
    ensures run[j].connect == events[i].event.connect
    ensures run[j].generation in run[j].sleeping && run[j].sleeping[run[j].generation] == events[i].now + c.timeout
    decreases j
  {
    assert run[j - 1 + 1] == After(run[j - 1], events[j - 1], c).0;
    if j > i + 1 {
      SilentWindow(run, events, c, i, j - 1);
      assert !Ends(run, events, i, j - 1);
    }
  }

  lemma {:induction false} WatchdogHasAnArm(run: seq<GuardState>, events: seq<Timed>, c: Timing, j: nat)
    returns (i: nat)
    requires IsRun(run, events, c) && j < |run| && run[j].watchdog.Some?
    ensures SilentSince(run, events, i, j)
    decreases j
  {
    assert run[j - 1 + 1] == After(run[j - 1], events[j - 1], c).0;
    if events[j - 1].event.Arm? {
      i := j - 1;
    } else {
      i := WatchdogHasAnArm(run, events, c, j - 1);
      SilentWindow(run, events, c, i, j - 1);
    }
  }

  /** A watchdog wakes once. */
  lemma {:induction false} WakesOnce(run: seq<GuardState>, events: seq<Timed>, c: Timing, m: nat, j: nat)
    requires IsRun(run, events, c) && m < j < |run| && events[m].event.Wake?
    ensures events[m].event.generation !in run[j].sleeping && events[m].event.generation <= run[j].generation
    decreases j
  {
    assert run[j - 1 + 1] == After(run[j - 1], events[j - 1], c).0;
    if j == m + 1 {
      RunKeepsInv(run, events, c, m);
    } else {
      WakesOnce(run, events, c, m, j - 1);
    }
  }

  ghost function BeatOf(s: GuardState, e: Timed): (b: Beat) {
    Beat(e.now, e.event.Wake? && e.event.generation == s.generation, s.lastHeal)
  }

  ghost function Beats(run: seq<GuardState>, events: seq<Timed>): (beats: seq<Beat>)
    requires |run| == |events| + 1
    ensures |beats| == |events|
    ensures forall k :: 0 <= k < |events| ==> beats[k] == BeatOf(run[k], events[k])
  {
    seq(|events|, k requires 0 <= k < |events| => BeatOf(run[k], events[k]))
  }

  lemma BeatsAreALog(run: seq<GuardState>, events: seq<Timed>, c: Timing)
    requires IsRun(run, events, c)
    ensures IsLog(Beats(run, events), c.minInterval)
    ensures forall k :: 0 <= k < |events| ==> Heals(Beats(run, events)[k], c.minInterval) == Healed(run, events, c, k)
  {
    var beats := Beats(run, events);
    forall k | 0 <= k < |events|
      ensures Heals(beats[k], c.minInterval) == Healed(run, events, c, k)
      ensures run[k + 1].lastHeal == if Heals(beats[k], c.minInterval) then Some(beats[k].now) else beats[k].lastHeal
    {
      assert run[k + 1] == After(run[k], events[k], c).0;
    }
  }

  /**
   When the watchdog of a silent window wakes, at least the timeout has passed since it was armed, and
   it signals a heal for that window exactly if every earlier heal is at least the minimum interval old.
   */
  lemma SilenceHealsIffRested(run: seq<GuardState>, events: seq<Timed>, c: Timing, i: nat, j: nat)
    requires IsRun(run, events, c) && SilentSince(run, events, i, j) && j < |events|
    requires events[j].event == Wake(run[i + 1].generation)
    ensures events[j].now - events[i].now >= c.timeout
    ensures Healed(run, events, c, j) <==>
      forall k :: 0 <= k < j && Healed(run, events, c, k) ==> events[j].now - events[k].now >= c.minInterval
    ensures Healed(run, events, c, j) ==>
      After(run[j], events[j], c).1 == Some(Stale(events[i].event.symbols, events[j].now - events[i].now))
  {
    SilentWindow(run, events, c, i, j);
    BeatsAreALog(run, events, c);
    HealsIffRested(Beats(run, events), c.minInterval, j);
  }

  /**
   A heal is only ever signalled for a window in which no write, no cancel and no new arm followed the
   confirmation, and for no window twice.
   */
  lemma HealMeansSilence(run: seq<GuardState>, events: seq<Timed>, c: Timing, j: nat) returns (i: nat)
    requires IsRun(run, events, c) && j < |events| && Healed(run, events, c, j)
    ensures SilentSince(run, events, i, j) && events[j].event == Wake(run[i + 1].generation)
    ensures forall k :: j < k <= |events| ==> !SilentSince(run, events, i, k)
    ensures forall k :: 0 <= k < j && Healed(run, events, c, k) ==> events[j].now - events[k].now >= c.minInterval
  {
    RunKeepsInv(run, events, c, j);
    i := WatchdogHasAnArm(run, events, c, j);
    SilentWindow(run, events, c, i, j);
    assert Ends(run, events, i, j);
    SilenceHealsIffRested(run, events, c, i, j);
  }

  /** A write that no open window waits for changes nothing. */
  lemma UnawaitedWriteIsIgnored(run: seq<GuardState>, events: seq<Timed>, c: Timing, j: nat)
    requires IsRun(run, events, c) && j < |events| && events[j].event.Write?
    requires forall i :: 0 <= i < j ==> !SilentSince(run, events, i, j)
    ensures run[j + 1] == run[j]
  {
    assert run[j + 1] == After(run[j], events[j], c).0;
    if run[j].watchdog.Some? {
      var i := WatchdogHasAnArm(run, events, c, j);
    }
  }

  function ArmsBefore(events: seq<Timed>, j: nat): (n: nat)
    requires j <= |events|
  {
    if j == 0 then 0 else ArmsBefore(events, j - 1) + if events[j - 1].event.Arm? then 1 else 0
  }

  /** No confirmation is passed over: the arm count is the number of arms, suppressed and cancelled windows included. */
  lemma {:induction false} EveryArmCounts(run: seq<GuardState>, events: seq<Timed>, c: Timing, j: nat)
    requires IsRun(run, events, c) && j < |run|
    ensures run[j].armCount == ArmsBefore(events, j)
    decreases j
  {
    if j > 0 {
      EveryArmCounts(run, events, c, j - 1);
      assert run[j - 1 + 1] == After(run[j - 1], events[j - 1], c).0;
    }
  }

  /** An open window is flagged as first boot by the connection it was armed for, else by being the first. */
  lemma {:induction false} FirstBootFlag(run: seq<GuardState>, events: seq<Timed>, c: Timing, i: nat, j: nat)
    requires IsRun(run, events, c) && SilentSince(run, events, i, j)
    ensures var connect := events[i].event.connect;
      run[j].firstBoot <==> if connect.Some? then connect == Some(1) else ArmsBefore(events, i) == 0
    decreases j
  {
    assert run[j - 1 + 1] == After(run[j - 1], events[j - 1], c).0;
    if j == i + 1 {
      EveryArmCounts(run, events, c, i);
    } else {
      FirstBootFlag(run, events, c, i, j - 1);
      SilentWindow(run, events, c, i, j - 1);
      assert !Ends(run, events, i, j - 1);
    }
  }

  /** Event `k` signalled a heal that is still the latest news at `j`: no consume and no further heal since. */
  ghost predicate Unconsumed(run: seq<GuardState>, events: seq<Timed>, c: Timing, k: nat, j: nat)
    requires |run| == |events| + 1
  {
    && k < j <= |events| && Healed(run, events, c, k)
    && forall m :: k < m < j ==> !events[m].event.Consume? && !Healed(run, events, c, m)
  }

  lemma DetectionStep(s: GuardState, e: Timed, c: Timing)
    ensures var (s', heal) := After(s, e, c);
      s'.detection == if heal.Some? then heal else if e.event.Consume? then None else s.detection
    ensures e.event.Consume? ==> After(s, e, c).1.None?
  {
  }

  /** A detection waits to be consumed exactly when a heal has not been consumed, and it is the latest one's. */
  lemma {:induction false} DetectionIsTheLastHeal(run: seq<GuardState>, events: seq<Timed>, c: Timing, j: nat)
    requires IsRun(run, events, c) && j < |run|
    ensures run[j].detection.Some? ==>
      exists k: nat :: Unconsumed(run, events, c, k, j) && After(run[k], events[k], c).1 == run[j].detection
    ensures run[j].detection.None? ==> forall k: nat :: k < j ==> !Unconsumed(run, events, c, k, j)
    decreases j
  {
    hide After, CanHappen;
    if j > 0 {
      DetectionIsTheLastHeal(run, events, c, j - 1);
      assert run[j - 1 + 1] == After(run[j - 1], events[j - 1], c).0;
      DetectionStep(run[j - 1], events[j - 1], c);
      if Healed(run, events, c, j - 1) {
        assert Unconsumed(run, events, c, j - 1, j);
      } else if run[j].detection.Some? {
        var k: nat :| Unconsumed(run, events, c, k, j - 1) && After(run[k], events[k], c).1 == run[j - 1].detection;
        assert Unconsumed(run, events, c, k, j);
      } else {
        forall k: nat | k < j ensures !Unconsumed(run, events, c, k, j) {
          assert events[j - 1].event.Consume? || !Unconsumed(run, events, c, k, j - 1);
        }
      }
    }
  }

  class PostReconnectWriteLivenessGuard {
    const timeout: real
    const minInterval: real
    var symbols: set<string>
    var armedAt: Option<real>
    var connect: Option<nat>
    var firstBoot: bool
    var armCount: nat
    var watchdog: Option<nat>
    var generation: nat
    var lastHeal: Option<real>
    var detection: Option<Stale>
    var sleeping: map<nat, real>

    ghost function State(): (s: GuardState)
      reads this
    {
      GuardState(symbols, armedAt, connect, firstBoot, armCount, watchdog, generation, lastHeal, detection, sleeping)
    }

    predicate IsAwaitingWrite()
      reads this
    {
      watchdog.Some?
    }

    constructor (timeout: real, minInterval: real)
      requires timeout > 0.0 && minInterval >= 0.0
      ensures this.timeout == timeout && this.minInterval == minInterval && State() == DISARMED
    {
      this.timeout, this.minInterval := timeout, minInterval;
      symbols, armedAt, connect, firstBoot, armCount := {}, None, None, false, 0;
      watchdog, generation, lastHeal, detection, sleeping := None, 0, None, None, map[];
    }

    method ConsumeLastStaleDetection() returns (d: Option<Stale>)
      modifies this
      ensures d == old(detection) && State() == old(State()).(detection := None)
    {
      d, detection := detection, None;
    }

    method ArmAfterSubscriptionsConfirmed(confirmed: set<string>, connectGeneration: Option<nat>, now: real)
      requires confirmed != {} && (connectGeneration.Some? ==> connectGeneration.value >= 1)
      modifies this
      ensures State() == Armed(old(State()), confirmed, connectGeneration, now, timeout)
    {
      var boot := if connectGeneration.Some? then connectGeneration.value == 1 else armCount == 0;
      CancelWindow();
      generation := generation + 1;
      symbols, armedAt := confirmed, Some(now);
      armCount := armCount + 1;
      connect, firstBoot := connectGeneration, boot;
      watchdog, sleeping := Some(generation), sleeping[generation := now + timeout];
    }

    method RecordJournalWrite()
      modifies this
      ensures State() == Written(old(State()))
    {
      if IsAwaitingWrite() {
        CancelWindow();
      }
    }

    method CancelWindow()
      modifies this
      ensures State() == Dropped(old(State()))
    {
      generation := generation + 1;
      watchdog, symbols, armedAt, connect, firstBoot := None, {}, None, None, false;
    }

    method EvaluateAfterTimeout(g: nat, now: real) returns (heal: Option<Stale>)
      modifies this
      ensures (State(), heal) == Woken(old(State()), g, now, timeout, minInterval)
    {
      sleeping := sleeping - {g};
      if g != generation {
        return None;
      }
      var confirmed, since := symbols, armedAt;
      watchdog, symbols, armedAt, connect, firstBoot := None, {}, None, None, false;
      var elapsed := if since.Some? then now - since.value else timeout;
      if lastHeal.Some? && now - lastHeal.value < minInterval {
        return None;
      }
      lastHeal, detection := Some(now), Some(Stale(confirmed, elapsed));
      heal := detection;
    }
  }
}
