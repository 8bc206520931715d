/**
 How a stream joins the confirmation tracker and the write-liveness guard
 (exchanges/base_stream.py, core/journal/journal_dispatch_decorator.py).
 */
module StreamWatch {
  import opened Bytes
  import T = ConfirmationTracker
  import G = WriteLiveness

  /** `connects` counts the connections made so far; the guard is optional. */
  datatype WatchState = WatchState(tracker: T.TrackerState, guard: Option<G.GuardState>, connects: nat)

  datatype Timing = Timing(confirmation: real, writes: G.Timing)

  /**
   A connect and the resubscription that follows it are two steps: the reconnect callbacks are awaited in
   between. `Dispatch` is any tick handed to the journal, duplicates included.
   */
  datatype WatchEvent =
    | Connect
    | Resubscribe(symbols: seq<string>)
    | Ack(symbol: string)
    | Dispatch
    | Stop
    | TrackerWakes(generation: nat)
    | GuardWakes(generation: nat)

  datatype Timed = Timed(event: WatchEvent, now: real)

  function AtLeastOne(n: nat): (m: nat) {
    if n < 1 then 1 else n
  }

  // ---------- one step, and the steps of the two parts it stands for ----------

  function TrackerEventOf(e: Timed): (t: T.Timed) {
    T.Timed(match e.event
            case Resubscribe(symbols) => if symbols == [] then T.Cancel else T.Begin(symbols)
            case Ack(symbol) => T.Ack(symbol)
            case Stop => T.Cancel
            case TrackerWakes(g) => T.Wake(g)
            case _ => T.Idle,
            e.now)
  }

  function OutcomeOf(s: WatchState, e: Timed, c: Timing): (o: Option<T.Outcome>) {
    T.After(s.tracker, TrackerEventOf(e), c.confirmation).1
  }

  function GuardEventOf(s: WatchState, e: Timed, c: Timing): (g: G.Timed) {
    var outcome := OutcomeOf(s, e, c);
    G.Timed(if outcome.Some? && outcome.value.Complete? then G.Arm(outcome.value.symbols, Some(AtLeastOne(s.connects)))
            else match e.event
                 case Connect => G.Cancel
                 case Dispatch => G.Write
                 case Stop => G.Cancel
                 case GuardWakes(g) => G.Wake(g)
                 case _ => G.Idle,
            e.now)
  }

  function After(s: WatchState, e: Timed, c: Timing): (r: (WatchState, Option<G.Stale>)) {
    var tracker := T.After(s.tracker, TrackerEventOf(e), c.confirmation).0;
    var connects := if e.event.Connect? then s.connects + 1 else s.connects;
    match s.guard
    case None => (WatchState(tracker, None, connects), None)
    case Some(guard) =>
      var (guard', heal) := G.After(guard, GuardEventOf(s, e, c), c.writes);
      (WatchState(tracker, Some(guard'), connects), heal)
  }

  // ---------- runs ----------

  ghost predicate CanHappen(s: WatchState, e: Timed) {
    && T.CanHappen(s.tracker, TrackerEventOf(e))
    && (e.event.GuardWakes? ==> s.guard.Some? && G.CanHappen(s.guard.value, G.Timed(G.Wake(e.event.generation), e.now)))
  }

  ghost predicate IsRun(run: seq<WatchState>, events: seq<Timed>, c: Timing) {
    && |run| == |events| + 1
    && run[0] == WatchState(T.IDLE, Some(G.DISARMED), 0)
    && (forall i :: 0 <= i < |events| ==> CanHappen(run[i], events[i]) && run[i + 1] == After(run[i], events[i], c).0)
    && forall i, j :: 0 <= i < j < |events| ==> events[i].now <= events[j].now
  }

  ghost predicate Healed(run: seq<WatchState>, events: seq<Timed>, c: Timing, j: nat)
    requires |run| == |events| + 1 && j < |events|
  {
    After(run[j], events[j], c).1.Some?
  }

  lemma {:induction false} GuardStays(run: seq<WatchState>, events: seq<Timed>, c: Timing, i: nat)
    requires IsRun(run, events, c) && i < |run|
    ensures run[i].guard.Some?
    decreases i
  {
    if i > 0 {
      GuardStays(run, events, c, i - 1);
      assert run[i - 1 + 1] == After(run[i - 1], events[i - 1], c).0;
    }
  }

  /** Seen through the tracker alone, a run of the stream is a run of the tracker. */
  lemma TrackerProjection(run: seq<WatchState>, events: seq<Timed>, c: Timing)
    returns (trackers: seq<T.TrackerState>, told: seq<T.Timed>)
    requires IsRun(run, events, c)
    ensures |told| == |events| && T.IsRun(trackers, told, c.confirmation)
    ensures forall i :: 0 <= i < |run| ==> trackers[i] == run[i].tracker
    ensures forall i :: 0 <= i < |events| ==> told[i] == TrackerEventOf(events[i])
  {
    trackers := seq(|run|, i requires 0 <= i < |run| => run[i].tracker);
    told := seq(|events|, i requires 0 <= i < |events| => TrackerEventOf(events[i]));
    forall i | 0 <= i < |events|
      ensures T.CanHappen(trackers[i], told[i])
      ensures trackers[i + 1] == T.After(trackers[i], told[i], c.confirmation).0
    {
      assert run[i + 1] == After(run[i], events[i], c).0;
    }
  }

  /** Seen through the guard alone, it is a run of the guard, armed where the tracker reports completion. */
  lemma GuardProjection(run: seq<WatchState>, events: seq<Timed>, c: Timing)
    returns (guards: seq<G.GuardState>, told: seq<G.Timed>)
    requires IsRun(run, events, c)
    ensures |told| == |events| && G.IsRun(guards, told, c.writes)
    ensures forall i :: 0 <= i < |run| ==> run[i].guard == Some(guards[i])
    ensures forall i :: 0 <= i < |events| ==> told[i] == GuardEventOf(run[i], events[i], c)
    ensures forall i :: 0 <= i < |events| ==> Healed(run, events, c, i) == G.Healed(guards, told, c.writes, i)
  {
    forall i | 0 <= i < |run| ensures run[i].guard.Some? {
      GuardStays(run, events, c, i);
    }
    guards := seq(|run|, i requires 0 <= i < |run| => run[i].guard.value);
    told := seq(|events|, i requires 0 <= i < |events| => GuardEventOf(run[i], events[i], c));
    forall i | 0 <= i < |events|
      ensures G.CanHappen(guards[i], told[i])
      ensures guards[i + 1] == G.After(guards[i], told[i], c.writes).0
      ensures Healed(run, events, c, i) == G.Healed(guards, told, c.writes, i)
    {
      assert run[i + 1] == After(run[i], events[i], c).0;
    }
  }

  // ---------- what a heal means ----------

  /** The symbols acknowledged by events `from` up to `to`. */
  ghost function AckedIn(events: seq<Timed>, from: nat, to: nat): (r: set<string>)
    requires from <= to <= |events|
  {
    set k | from <= k < to && events[k].event.Ack? :: events[k].event.symbol
  }

  /**
   Event `i` confirmed the whole subscription sent by event `h`: it is the acknowledgement that was still
   missing, and no resubscription and no stop came in between.
   */
  ghost predicate FullyConfirms(events: seq<Timed>, h: nat, i: nat) {
    && h < i < |events|
    && events[h].event.Resubscribe? && events[h].event.symbols != []
    && events[i].event.Ack?
    && T.Elements(events[h].event.symbols) <= AckedIn(events, h + 1, i + 1)
    && !(T.Elements(events[h].event.symbols) <= AckedIn(events, h + 1, i))
    && forall k :: h < k < i ==> !events[k].event.Resubscribe? && !events[k].event.Stop?
  }

  /** After event `i` nothing was dispatched, and the stream neither reconnected nor stopped, before `j`. */
  ghost predicate MuteBetween(events: seq<Timed>, i: nat, j: nat)
    requires j <= |events|
  {
    forall k :: i < k < j ==> !events[k].event.Dispatch? && !events[k].event.Connect? && !events[k].event.Stop?
  }

  lemma AckedAlike(events: seq<Timed>, told: seq<T.Timed>, from: nat, to: nat)
    requires |told| == |events| && from <= to <= |events|
    requires forall i :: 0 <= i < |events| ==> told[i] == TrackerEventOf(events[i])
    ensures T.AckedIn(told, from, to) == AckedIn(events, from, to)
  {
    forall s | s in AckedIn(events, from, to) ensures s in T.AckedIn(told, from, to) {
      var k :| from <= k < to && events[k].event.Ack? && events[k].event.symbol == s;
      assert told[k].event == T.Ack(s);
    }
    forall s | s in T.AckedIn(told, from, to) ensures s in AckedIn(events, from, to) {
      var k :| from <= k < to && told[k].event.Ack? && told[k].event.symbol == s;
      assert events[k].event == Ack(s);
    }
  }

  /** The tracker reports completion only at the event that fully confirms a subscription. */
  lemma CompletionIsAFullConfirmation(run: seq<WatchState>, events: seq<Timed>, c: Timing, i: nat) returns (h: nat)
    requires IsRun(run, events, c) && i < |events|
    requires OutcomeOf(run[i], events[i], c).Some? && OutcomeOf(run[i], events[i], c).value.Complete?
    ensures ConfirmsInTime(run, events, h, i)
    ensures OutcomeOf(run[i], events[i], c) == Some(T.Complete(T.Elements(events[h].event.symbols)))
  {
    var trackers, told := TrackerProjection(run, events, c);
    h := T.OutcomeHasAWindow(trackers, told, c.confirmation, i);
    T.WindowEndsAsFated(trackers, told, c.confirmation, h, i);
    AckedAlike(events, told, h + 1, i + 1);
    AckedAlike(events, told, h + 1, i);
    assert told[h] == TrackerEventOf(events[h]) && told[i] == TrackerEventOf(events[i]);
    T.OpenWindow(trackers, told, c.confirmation, h, i);
    T.RunKeepsInv(trackers, told, c.confirmation, i);
    NotYetCovered(trackers[i], AckedIn(events, h + 1, i));
    forall k | h < k < i
      ensures !events[k].event.Resubscribe? && !events[k].event.Stop?
      ensures events[k].event != TrackerWakes(run[h + 1].tracker.generation)
    {
      assert !T.Closes(trackers, told, h, k) && told[k] == TrackerEventOf(events[k]);
    }
  }

  lemma NotYetCovered(s: T.TrackerState, acked: set<string>)
    requires T.Inv(s) && s.expected != {} && s.confirmed == s.expected * acked
    ensures !(s.expected <= acked)
  {
    assert s.expected <= acked ==> s.expected * acked == s.expected;
  }

  /** Nor did the window of that subscription time out before. */
  ghost predicate ConfirmsInTime(run: seq<WatchState>, events: seq<Timed>, h: nat, i: nat)
    requires |run| == |events| + 1
  {
    && FullyConfirms(events, h, i)
    && forall k :: h < k < i ==> events[k].event != TrackerWakes(run[h + 1].tracker.generation)
  }

  /**
   Event `h` sent a subscription, event `i` confirmed it in time, and since then, until the guard's watchdog of
   that confirmation wakes at `j`, nothing was dispatched, no connection was made, the stream was not stopped,
   and no other subscription was confirmed.
   */
  ghost predicate MuteSubscription(run: seq<WatchState>, events: seq<Timed>, h: nat, i: nat, j: nat)
    requires |run| == |events| + 1
  {
    && ConfirmsInTime(run, events, h, i) && i < j < |events| && MuteBetween(events, i, j)
    && (forall h': nat, m: nat :: i < m < j ==> !ConfirmsInTime(run, events, h', m))
    && run[i + 1].guard.Some? && events[j].event == GuardWakes(run[i + 1].guard.value.generation)
  }

  /** Every earlier heal is at least the minimum interval old. */
  ghost predicate Rested(run: seq<WatchState>, events: seq<Timed>, c: Timing, j: nat)
    requires |run| == |events| + 1 && j < |events|
  {
    forall k :: 0 <= k < j && Healed(run, events, c, k) ==> events[j].now - events[k].now >= c.writes.minInterval
  }

  /** The guard is armed exactly by the acknowledgements that confirm a subscription in time. */
  lemma ArmsIffConfirmed(run: seq<WatchState>, events: seq<Timed>, c: Timing, m: nat)
    requires IsRun(run, events, c) && m < |events|
    ensures GuardEventOf(run[m], events[m], c).event.Arm? <==> exists h: nat :: ConfirmsInTime(run, events, h, m)
  {
    if GuardEventOf(run[m], events[m], c).event.Arm? {
      var h := CompletionIsAFullConfirmation(run, events, c, m);
    }
    if h: nat :| ConfirmsInTime(run, events, h, m) {
      ConfirmationCompletes(run, events, c, h, m);
    }
  }

  /** A self-heal is signalled only for a mute subscription, at least the timeout after its confirmation. */
  lemma HealMeansMuteSubscription(run: seq<WatchState>, events: seq<Timed>, c: Timing, j: nat) returns (h: nat, i: nat)
    requires IsRun(run, events, c) && j < |events| && Healed(run, events, c, j)
    ensures MuteSubscription(run, events, h, i, j) && Rested(run, events, c, j)
    ensures events[j].now - events[i].now >= c.writes.timeout
    ensures After(run[j], events[j], c).1
      == Some(G.Stale(T.Elements(events[h].event.symbols), events[j].now - events[i].now))
    ensures run[j].guard.value.connect == Some(if run[i].connects < 1 then 1 else run[i].connects)
  {
    var guards, told := GuardProjection(run, events, c);
    i := G.HealMeansSilence(guards, told, c.writes, j);
    G.SilenceHealsIffRested(guards, told, c.writes, i, j);
    G.SilentWindow(guards, told, c.writes, i, j);
    assert told[i] == GuardEventOf(run[i], events[i], c) && told[j] == GuardEventOf(run[j], events[j], c);
    h := CompletionIsAFullConfirmation(run, events, c, i);
    forall k | i < k < j ensures !events[k].event.Dispatch? && !events[k].event.Connect? && !events[k].event.Stop? {
      assert !G.Ends(guards, told, i, k) && told[k] == GuardEventOf(run[k], events[k], c);
    }
    forall h': nat, m: nat | i < m < j ensures !ConfirmsInTime(run, events, h', m) {
      ArmsIffConfirmed(run, events, c, m);
      assert !G.Ends(guards, told, i, m) && told[m] == GuardEventOf(run[m], events[m], c);
    }
  }

  /**
   When the watchdog of a mute subscription wakes, the timeout has passed since the confirmation, and a heal
   is signalled for that subscription if and only if every earlier heal is at least the minimum interval old.
   */
  lemma MuteSubscriptionHealsIffRested(run: seq<WatchState>, events: seq<Timed>, c: Timing, h: nat, i: nat, j: nat)
    requires IsRun(run, events, c) && MuteSubscription(run, events, h, i, j)
    ensures events[j].now - events[i].now >= c.writes.timeout
    ensures Healed(run, events, c, j) <==> Rested(run, events, c, j)
  {
    var guards, told := GuardProjection(run, events, c);
    ArmsIffConfirmed(run, events, c, i);
    assert told[i] == GuardEventOf(run[i], events[i], c) && told[j] == GuardEventOf(run[j], events[j], c);
    forall k | i < k < j ensures !G.Ends(guards, told, i, k) {
      assert told[k] == GuardEventOf(run[k], events[k], c);
      ArmsIffConfirmed(run, events, c, k);
      if told[k].event == G.Wake(guards[i + 1].generation) {
        G.WakesOnce(guards, told, c.writes, k, j);
      }
    }
    NotCompleted(run, events, c, j);
    G.SilenceHealsIffRested(guards, told, c.writes, i, j);
  }

  /** A guard watchdog's wake-up is nothing to the tracker. */
  lemma NotCompleted(run: seq<WatchState>, events: seq<Timed>, c: Timing, j: nat)
    requires j < |events| && j < |run| && events[j].event.GuardWakes?
    ensures GuardEventOf(run[j], events[j], c).event == G.Wake(events[j].event.generation)
  {
  }

  /** By the stream's own events, a heal is signalled if and only if a mute subscription is found and rested. */
  lemma HealIffMuteSubscription(run: seq<WatchState>, events: seq<Timed>, c: Timing, j: nat)
    requires IsRun(run, events, c) && j < |events|
    ensures Healed(run, events, c, j) <==>
      Rested(run, events, c, j) && exists h: nat, i: nat :: MuteSubscription(run, events, h, i, j)
  {
    if Healed(run, events, c, j) {
      var h, i := HealMeansMuteSubscription(run, events, c, j);
    } else if h: nat, i: nat :| MuteSubscription(run, events, h, i, j) {
      MuteSubscriptionHealsIffRested(run, events, c, h, i, j);
    }
  }

  // ---------- confirmations and connections ----------

  /** Every connect before event `i` was answered, by a resubscription or by stopping, before `i`. */
  ghost predicate ConnectsAnswered(events: seq<Timed>, i: nat)
    requires i <= |events|
  {
    forall k :: 0 <= k < i && events[k].event.Connect? ==>
      exists m :: k < m < i && (events[m].event.Resubscribe? || events[m].event.Stop?)
  }

  lemma {:induction false} ConnectsCounted(run: seq<WatchState>, events: seq<Timed>, c: Timing, h: nat, i: nat)
    requires IsRun(run, events, c) && h <= i < |run|
    ensures run[i].connects >= run[h].connects
    ensures run[i].connects == run[h].connects <==> forall k :: h <= k < i ==> !events[k].event.Connect?
    decreases i
  {
    if i > h {
      ConnectsCounted(run, events, c, h, i - 1);
      assert run[i - 1 + 1] == After(run[i - 1], events[i - 1], c).0;
    }
  }

  /**
   A full confirmation belongs to the connection whose subscription it confirms if and only if it is not read
   between a connect and the resubscription that answers it.
   */
  lemma ConfirmationBelongsIffAnswered(run: seq<WatchState>, events: seq<Timed>, c: Timing, h: nat, i: nat)
    requires IsRun(run, events, c) && FullyConfirms(events, h, i)
    ensures run[i].connects == run[h].connects <==> ConnectsAnswered(events, i)
  {
    ConnectsCounted(run, events, c, h, i);
    if ConnectsAnswered(events, i) {
      forall k | h <= k < i ensures !events[k].event.Connect? {
        assert events[k].event.Connect? ==>
          exists m :: k < m < i && (events[m].event.Resubscribe? || events[m].event.Stop?);
      }
    }
    if forall k :: h <= k < i ==> !events[k].event.Connect? {
      forall k | 0 <= k < i && events[k].event.Connect?
        ensures exists m :: k < m < i && (events[m].event.Resubscribe? || events[m].event.Stop?)
      {
        assert k < h < i && events[h].event.Resubscribe?;
      }
    }
  }

  /** A run in which it is read too early: the second connection's guard is armed by the first one's subscription. */
  lemma ConfirmationReadTooEarly(symbol: string, c: Timing) returns (run: seq<WatchState>, events: seq<Timed>)
    ensures IsRun(run, events, c) && FullyConfirms(events, 1, 3)
    ensures run[3].connects == 2 && run[1].connects == 1 && !ConnectsAnswered(events, 3)
  {
    events := [Timed(Connect, 0.0), Timed(Resubscribe([symbol]), 0.0), Timed(Connect, 0.0), Timed(Ack(symbol), 0.0)];
    var s0 := WatchState(T.IDLE, Some(G.DISARMED), 0);
    var s1 := After(s0, events[0], c).0;
    var s2 := After(s1, events[1], c).0;
    var s3 := After(s2, events[2], c).0;
    run := [s0, s1, s2, s3, After(s3, events[3], c).0];
    assert T.Elements([symbol]) == {symbol};
    assert events[3].event == Ack(symbol);
    assert symbol in AckedIn(events, 2, 4);
    assert AckedIn(events, 2, 3) == {};
    assert symbol in T.Elements([symbol]);
    assert !ConnectsAnswered(events, 3) by {
      assert events[2].event.Connect?;
    }
  }

  // ---------- every full confirmation counts ----------

  lemma ConfirmationCompletes(run: seq<WatchState>, events: seq<Timed>, c: Timing, h: nat, i: nat)
    requires IsRun(run, events, c) && ConfirmsInTime(run, events, h, i)
    ensures OutcomeOf(run[i], events[i], c) == Some(T.Complete(T.Elements(events[h].event.symbols)))
  {
    var trackers, told := TrackerProjection(run, events, c);
    forall k | h < k < i ensures !T.Closes(trackers, told, h, k) {
      assert told[k] == TrackerEventOf(events[k]);
      AckedAlike(events, told, h + 1, k + 1);
      FewerAcked(events, h + 1, k + 1, i);
    }
    assert told[h] == TrackerEventOf(events[h]) && told[i] == TrackerEventOf(events[i]);
    T.WindowEndsAsFated(trackers, told, c.confirmation, h, i);
    AckedAlike(events, told, h + 1, i + 1);
  }

  /** Every full confirmation arms the guard, the first one, which is first boot, included; its watchdog is running. */
  lemma FullConfirmationArms(run: seq<WatchState>, events: seq<Timed>, c: Timing, h: nat, i: nat)
    requires IsRun(run, events, c) && ConfirmsInTime(run, events, h, i)
    ensures run[i + 1].guard.Some?
    ensures var g := run[i + 1].guard.value;
      && g.watchdog == Some(g.generation) && g.symbols == T.Elements(events[h].event.symbols)
      && g.armedAt == Some(events[i].now) && (g.firstBoot <==> run[i].connects <= 1)
      && g.connect == Some(if run[i].connects < 1 then 1 else run[i].connects)
      && g.generation in g.sleeping && g.sleeping[g.generation] == events[i].now + c.writes.timeout
  {
    ConfirmationCompletes(run, events, c, h, i);
    GuardStays(run, events, c, i);
    assert run[i + 1] == After(run[i], events[i], c).0;
  }

  lemma FewerAcked(events: seq<Timed>, from: nat, mid: nat, to: nat)
    requires from <= mid <= to <= |events|
    ensures AckedIn(events, from, mid) <= AckedIn(events, from, to)
  {
  }

  // ---------- the stream ----------

  class BaseExchangeStream {
    const tracker: T.SubscriptionConfirmationTracker
    const guard: G.PostReconnectWriteLivenessGuard?
    var connectGeneration: nat

    ghost function State(): (s: WatchState)
      reads this, tracker, guard
    {
      WatchState(tracker.State(), if guard == null then None else Some(guard.State()), connectGeneration)
    }

    ghost function Clock(): (c: Timing) {
      Timing(tracker.timeout, if guard == null then G.Timing(1.0, 0.0) else G.Timing(guard.timeout, guard.minInterval))
    }

    /** The tracker never reports an empty subscription as confirmed. */
    ghost predicate Valid()
      reads this, tracker
    {
      T.Inv(tracker.State())
    }

    constructor (tracker: T.SubscriptionConfirmationTracker, guard: G.PostReconnectWriteLivenessGuard?)
      requires T.Inv(tracker.State())
      ensures this.tracker == tracker && this.guard == guard && connectGeneration == 0 && Valid()
      ensures State() == WatchState(tracker.State(), if guard == null then None else Some(guard.State()), 0)
    {
      this.tracker, this.guard, connectGeneration := tracker, guard, 0;
    }

    method OnSubscriptionsConfirmed(confirmed: set<string>, now: real)
      requires confirmed != {}
      modifies guard
      ensures guard != null ==>
        guard.State() == G.Armed(old(guard.State()), confirmed, Some(AtLeastOne(connectGeneration)), now, guard.timeout)
    {
      if guard != null {
        guard.ArmAfterSubscriptionsConfirmed(confirmed, Some(AtLeastOne(connectGeneration)), now);
      }
    }

    /** The first half of a connect; the reconnect callbacks run before `ResubscribeAll`. */
    method HandleConnect(now: real)
      requires Valid()
      modifies this, guard
      ensures Valid() && State() == After(old(State()), Timed(Connect, now), Clock()).0
    {
      connectGeneration := connectGeneration + 1;
      if guard != null {
        guard.CancelWindow();
      }
    }

    method ResubscribeAll(symbols: seq<string>, now: real)
      requires Valid()
      modifies tracker
      ensures Valid() && State() == After(old(State()), Timed(Resubscribe(symbols), now), Clock()).0
    {
      ghost var e := T.Timed(T.Begin(symbols), now);
      T.StepKeepsInv(tracker.State(), e, tracker.timeout);
      T.StepKeepsInv(tracker.State(), e.(event := T.Cancel), tracker.timeout);
      if symbols != [] {
        tracker.BeginExpectation(symbols, now);
      } else {
        tracker.CancelWindow();
      }
    }

    method HandleSubscribeMessage(symbol: string, now: real)
      requires Valid()
      modifies tracker, guard
      ensures Valid() && State() == After(old(State()), Timed(Ack(symbol), now), Clock()).0
    {
      T.StepKeepsInv(tracker.State(), T.Timed(T.Ack(symbol), now), tracker.timeout);
      var newly, outcome := tracker.RecordConfirmation(symbol);
      if outcome.Some? && outcome.value.Complete? {
        OnSubscriptionsConfirmed(outcome.value.symbols, now);
      }
    }

    method TrackerWatchdogWakes(g: nat, now: real)
      requires Valid() && T.CanHappen(tracker.State(), T.Timed(T.Wake(g), now))
      modifies tracker, guard
      ensures Valid() && State() == After(old(State()), Timed(TrackerWakes(g), now), Clock()).0
    {
      T.StepKeepsInv(tracker.State(), T.Timed(T.Wake(g), now), tracker.timeout);
      var outcome := tracker.EvaluateAfterTimeout(g);
      if outcome.Some? && outcome.value.Complete? {
        OnSubscriptionsConfirmed(outcome.value.symbols, now);
      }
    }

    /** The dispatch path: the journal append is followed by telling the guard. */
    method NoteDispatch(now: real)
      requires Valid()
      modifies guard
      ensures Valid() && State() == After(old(State()), Timed(Dispatch, now), Clock()).0
    {
      if guard != null {
        guard.RecordJournalWrite();
      }
    }

    method StopWatching(now: real)
      requires Valid()
      modifies tracker, guard
      ensures Valid() && State() == After(old(State()), Timed(Stop, now), Clock()).0
    {
      T.StepKeepsInv(tracker.State(), T.Timed(T.Cancel, now), tracker.timeout);
      tracker.CancelWindow();
      if guard != null {
        guard.CancelWindow();
      }
    }
  }
}
