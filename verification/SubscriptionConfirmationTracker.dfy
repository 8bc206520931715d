/** Acknowledgements expected after a resubscribe (core/state/subscription_confirmation_tracker.py). */
module ConfirmationTracker {
  import opened Bytes

  /**
   `sleeping` maps the generation of every watchdog task that has not woken yet to the time it is due.
   A cancelled watchdog stays in the map: it may still wake, too late.
   */
  datatype TrackerState = TrackerState(
    expected: set<string>, confirmed: set<string>, watchdog: Option<nat>, generation: nat, sleeping: map<nat, real>)

  /** What the tracker reports when a window closes by itself. */
  datatype Outcome =
    | Complete(symbols: set<string>)
    | Partial(expected: set<string>, confirmed: set<string>, missing: set<string>)

  const IDLE := TrackerState({}, {}, None, 0, map[])

  function Elements(symbols: seq<string>): (r: set<string>) {
    set s | s in symbols
  }

  function Cancelled(s: TrackerState): (s': TrackerState) {
    s.(expected := {}, confirmed := {}, watchdog := None, generation := s.generation + 1)
  }

  function Begun(s: TrackerState, symbols: seq<string>, now: real, timeout: real): (s': TrackerState) {
    var c := Cancelled(s);
    if symbols == [] then c
    else
      var g := c.generation + 1;
      TrackerState(Elements(symbols), {}, Some(g), g, c.sleeping[g := now + timeout])
  }

  function Acknowledged(s: TrackerState, symbol: string): (r: (TrackerState, bool, Option<Outcome>)) {
    if symbol !in s.expected || symbol in s.confirmed then (s, false, None)
    else
      var confirmed := s.confirmed + {symbol};
      if confirmed >= s.expected then (Cancelled(s), true, Some(Complete(confirmed)))
      else (s.(confirmed := confirmed), true, None)
  }

  function Woken(s: TrackerState, g: nat): (r: (TrackerState, Option<Outcome>)) {
    var t := s.(sleeping := s.sleeping - {g});
    if g != s.generation then (t, None)
    else
      var missing := s.expected - s.confirmed;
      (t.(watchdog := None, expected := {}, confirmed := {}),
       Some(if missing == {} then Complete(s.confirmed) else Partial(s.expected, s.confirmed, missing)))
  }

  // ---------- every reachable state ----------

  /** An open window is watched by its own generation's task and still lacks a confirmation. */
  ghost predicate Inv(s: TrackerState) {
    && s.confirmed <= s.expected
    && (s.expected != {} ==> s.confirmed != s.expected && s.watchdog == Some(s.generation))
    && (s.expected == {} ==> s.watchdog == None)
    && (s.generation in s.sleeping <==> s.expected != {})
    && forall g :: g in s.sleeping ==> g <= s.generation
  }

  datatype TrackerEvent =
    | Begin(symbols: seq<string>)
    | Ack(symbol: string)
    | Cancel
    | Wake(generation: nat)
    | Idle

  datatype Timed = Timed(event: TrackerEvent, now: real)

  ghost predicate CanHappen(s: TrackerState, e: Timed) {
    e.event.Wake? ==> e.event.generation in s.sleeping && s.sleeping[e.event.generation] <= e.now
  }

  function After(s: TrackerState, e: Timed, timeout: real): (r: (TrackerState, Option<Outcome>)) {
    match e.event
    case Begin(symbols) => (Begun(s, symbols, e.now, timeout), None)
    case Ack(symbol) => var (s', _, outcome) := Acknowledged(s, symbol); (s', outcome)
    case Cancel => (Cancelled(s), None)
    case Wake(g) => Woken(s, g)
    case Idle => (s, None)
  }

  ghost predicate IsRun(run: seq<TrackerState>, events: seq<Timed>, timeout: real) {
    && |run| == |events| + 1
    && run[0] == IDLE
    && (forall i :: 0 <= i < |events| ==>
          CanHappen(run[i], events[i]) && run[i + 1] == After(run[i], events[i], timeout).0)
    && forall i, j :: 0 <= i < j < |events| ==> events[i].now <= events[j].now
  }

  lemma StepKeepsInv(s: TrackerState, e: Timed, timeout: real)
    requires Inv(s) && CanHappen(s, e)
    ensures Inv(After(s, e, timeout).0)
  {
    match e.event {
      case Begin(symbols) =>
        if symbols != [] {
          assert symbols[0] in Elements(symbols);
        }
      case Ack(symbol) =>
      case Cancel =>
      case Wake(g) =>
      case Idle =>
    }
  }

  /** In every reachable state an open window has its confirmed symbols strictly inside the expected ones. */
  lemma {:induction false} RunKeepsInv(run: seq<TrackerState>, events: seq<Timed>, timeout: real, i: nat)
    requires IsRun(run, events, timeout) && i < |run|
    ensures Inv(run[i])
    decreases i
  {
    if i > 0 {
      RunKeepsInv(run, events, timeout, i - 1);
      StepKeepsInv(run[i - 1], events[i - 1], timeout);
    }
  }

  // ---------- the fate of a window, read off the events alone ----------

  /** The symbols acknowledged by events `from` up to `to`. */
  ghost function AckedIn(events: seq<Timed>, from: nat, to: nat): (r: set<string>)
    requires from <= to <= |events|
  {
    set k | from <= k < to && events[k].event.Ack? :: events[k].event.symbol
  }

  ghost predicate Opens(e: TrackerEvent) {
    e.Begin? && e.symbols != []
  }

  /** Event `j` closes the window opened by event `i` if it is still open then. */
  ghost predicate Closes(run: seq<TrackerState>, events: seq<Timed>, i: nat, j: nat)
    requires i < j < |events| <= |run| - 1 && events[i].event.Begin?
  {
    var e := events[j].event;
    || e.Begin?
    || e.Cancel?
    || (e.Wake? && e.generation == run[i + 1].generation)
    || (e.Ack? && Elements(events[i].event.symbols) <= AckedIn(events, i + 1, j + 1))
  }

  /** Event `i` opened a window, and no event before `j` closed it. */
  ghost predicate OpenAt(run: seq<TrackerState>, events: seq<Timed>, i: nat, j: nat)
    requires |run| == |events| + 1
  {
    && i < j <= |events| && Opens(events[i].event)
    && forall k :: i < k < j ==> !Closes(run, events, i, k)
  }

  lemma AckedGrows(events: seq<Timed>, from: nat, to: nat)
    requires from <= to < |events|
    ensures AckedIn(events, from, to + 1)
         == AckedIn(events, from, to) + (if events[to].event.Ack? then {events[to].event.symbol} else {})
  {
    var before, after := AckedIn(events, from, to), AckedIn(events, from, to + 1);
    forall s | s in after ensures s in before || (events[to].event.Ack? && s == events[to].event.symbol) {
      var k :| from <= k < to + 1 && events[k].event.Ack? && events[k].event.symbol == s;
      assert k < to || k == to;
    }
  }

  /** While a window is open the tracker holds its symbols, and has confirmed those acknowledged since. */
  lemma {:induction false} OpenWindow(run: seq<TrackerState>, events: seq<Timed>, timeout: real, i: nat, j: nat)
    requires IsRun(run, events, timeout) && OpenAt(run, events, i, j)
    ensures run[j].expected == Elements(events[i].event.symbols) != {}
    ensures run[j].confirmed == run[j].expected * AckedIn(events, i + 1, j)
    ensures run[j].watchdog == Some(run[j].generation) && run[j].generation == run[i + 1].generation
    ensures run[j].generation in run[j].sleeping && run[j].sleeping[run[j].generation] == events[i].now + timeout
    decreases j
  {
    var symbols := Elements(events[i].event.symbols);
    if j == i + 1 {
      assert run[i + 1] == After(run[i], events[i], timeout).0;
      assert events[i].event.symbols[0] in symbols;
    } else {
      OpenWindow(run, events, timeout, i, j - 1);
      AckedGrows(events, i + 1, j - 1);
      assert !Closes(run, events, i, j - 1);
      assert run[j - 1 + 1] == After(run[j - 1], events[j - 1], timeout).0;
      StaysOpen(run[j - 1], events[j - 1], timeout, AckedIn(events, i + 1, j - 1));
    }
  }

  /** One step that neither begins, cancels, nor wakes the watchdog, and does not complete the acknowledgements. */
  lemma StaysOpen(s: TrackerState, e: Timed, timeout: real, acked: set<string>)
    requires s.expected != {} && s.confirmed == s.expected * acked
    requires !e.event.Begin? && !e.event.Cancel? && e.event != Wake(s.generation)
    requires e.event.Ack? ==> !(s.expected <= acked + {e.event.symbol})
    ensures var s' := After(s, e, timeout).0;
      && s' == s.(confirmed := s'.confirmed, sleeping := s'.sleeping)
      && s'.confirmed == s.expected * (if e.event.Ack? then acked + {e.event.symbol} else acked)
      && forall g :: g in s.sleeping && e.event != Wake(g) ==> g in s'.sleeping && s'.sleeping[g] == s.sleeping[g]
  {
    if e.event.Ack? {
      var symbol := e.event.symbol;
      var confirmed := s.confirmed + {symbol};
      if symbol in s.expected {
        assert s.expected * (acked + {symbol}) == confirmed;
      } else {
        assert s.expected * (acked + {symbol}) == s.confirmed;
      }
      assert confirmed >= s.expected ==> s.expected <= acked + {symbol};
    }
  }

  /**
   Every window ends as the events decide: completely at the acknowledgement that covers it, partially
   when its own watchdog wakes first, with nothing reported when it is cancelled or replaced first.
   */
  lemma WindowEndsAsFated(run: seq<TrackerState>, events: seq<Timed>, timeout: real, i: nat, j: nat)
    requires IsRun(run, events, timeout) && OpenAt(run, events, i, j) && j < |events|
    ensures var expected, acked := Elements(events[i].event.symbols), AckedIn(events, i + 1, j + 1);
      var outcome := After(run[j], events[j], timeout).1;
      match events[j].event
      case Ack(_) => outcome == if expected <= acked then Some(Complete(expected)) else None
      case Wake(g) =>
        outcome ==
          if g == run[i + 1].generation then Some(Partial(expected, expected * acked, expected - acked)) else None
      case _ => outcome == None
    ensures events[j].event.Wake? && Closes(run, events, i, j) ==>
      events[j].now >= events[i].now + timeout && !(Elements(events[i].event.symbols) <= AckedIn(events, i + 1, j + 1))
    ensures Closes(run, events, i, j) && !events[j].event.Begin? ==> run[j + 1].expected == {}
  {
    OpenWindow(run, events, timeout, i, j);
    RunKeepsInv(run, events, timeout, j);
    AckedGrows(events, i + 1, j);
    assert run[j + 1] == After(run[j], events[j], timeout).0;
    var s, acked := run[j], AckedIn(events, i + 1, j + 1);
    match events[j].event {
      case Ack(symbol) =>
        assert s.expected <= acked <==> s.expected * acked == s.expected;
        if symbol in s.expected {
          assert s.confirmed + {symbol} == s.expected * acked;
        } else {
          assert s.confirmed == s.expected * acked;
        }
      case Wake(g) =>
        assert acked == AckedIn(events, i + 1, j);
        assert s.expected - s.confirmed == s.expected - acked;
      case _ =>
    }
  }

  /** The symbol was acknowledged by an event after `i`, up to and including `j`. */
  ghost predicate AckedBy(events: seq<Timed>, i: nat, j: nat, symbol: string)
    requires j < |events|
  {
    exists m :: i < m <= j && events[m].event == Ack(symbol)
  }

  /**
   Symbol by symbol: an acknowledgement counts as new exactly for a symbol of the subscription that was not
   acknowledged since; a window is reported complete only when each of its symbols has been, and a partial report
   names as missing exactly those that have not.
   */
  lemma EachSymbolIsAnswered(run: seq<TrackerState>, events: seq<Timed>, timeout: real, i: nat, j: nat)
    requires IsRun(run, events, timeout) && OpenAt(run, events, i, j) && j < |events|
    ensures match After(run[j], events[j], timeout).1
      case Some(Complete(_)) => forall k :: 0 <= k < |events[i].event.symbols| ==>
        AckedBy(events, i, j, events[i].event.symbols[k])
      case Some(Partial(_, confirmed, missing)) => forall k :: 0 <= k < |events[i].event.symbols| ==>
        var symbol := events[i].event.symbols[k];
        (symbol in confirmed <==> AckedBy(events, i, j, symbol))
        && (symbol in missing <==> !AckedBy(events, i, j, symbol))
      case None => true
    ensures events[j].event.Ack? ==>
      var symbol := events[j].event.symbol;
      (Acknowledged(run[j], symbol).1 <==>
       symbol in events[i].event.symbols && !AckedBy(events, i, j - 1, symbol))
  {
    WindowEndsAsFated(run, events, timeout, i, j);
    OpenWindow(run, events, timeout, i, j);
    if events[j].event.Ack? {
      AckedBefore(events, i, j, events[j].event.symbol);
    }
    var symbols, acked := events[i].event.symbols, AckedIn(events, i + 1, j + 1);
    hide After;
    forall k | 0 <= k < |symbols|
      ensures symbols[k] in Elements(symbols)
      ensures symbols[k] in acked <==> AckedBy(events, i, j, symbols[k])
    {
      if symbols[k] in acked {
        var m :| i + 1 <= m < j + 1 && events[m].event.Ack? && events[m].event.symbol == symbols[k];
        assert events[m].event == Ack(symbols[k]);
      }
    }
  }

  lemma AckedBefore(events: seq<Timed>, i: nat, j: nat, symbol: string)
    requires i < j < |events|
    ensures symbol in AckedIn(events, i + 1, j) <==> AckedBy(events, i, j - 1, symbol)
  {
    if symbol in AckedIn(events, i + 1, j) {
      var m :| i + 1 <= m < j && events[m].event.Ack? && events[m].event.symbol == symbol;
      assert events[m].event == Ack(symbol);
    }
  }

  /** The expectation in force goes back to one window that is still open. */
  lemma {:induction false} ExpectationHasAWindow(run: seq<TrackerState>, events: seq<Timed>, timeout: real, j: nat)
    returns (i: nat)
    requires IsRun(run, events, timeout) && j < |run| && run[j].expected != {}
    ensures OpenAt(run, events, i, j)
    decreases j
  {
    assert run[j - 1 + 1] == After(run[j - 1], events[j - 1], timeout).0;
    if Opens(events[j - 1].event) {
      i := j - 1;
    } else {
      i := ExpectationHasAWindow(run, events, timeout, j - 1);
      WindowEndsAsFated(run, events, timeout, i, j - 1);
    }
  }

  /** Nothing is reported without a window: each outcome closes one window, and no window has two. */
  lemma OutcomeHasAWindow(run: seq<TrackerState>, events: seq<Timed>, timeout: real, j: nat) returns (i: nat)
    requires IsRun(run, events, timeout) && j < |events| && After(run[j], events[j], timeout).1.Some?
    ensures OpenAt(run, events, i, j) && Closes(run, events, i, j)
    ensures forall k :: j < k <= |events| ==> !OpenAt(run, events, i, k)
    ensures forall h :: 0 <= h < j && OpenAt(run, events, h, j) ==> h == i
  {
    RunKeepsInv(run, events, timeout, j);
    i := ExpectationHasAWindow(run, events, timeout, j);
    WindowEndsAsFated(run, events, timeout, i, j);
    forall h | 0 <= h < j && OpenAt(run, events, h, j) ensures h == i {
      assert h < i ==> Closes(run, events, h, i);
      assert i < h ==> Closes(run, events, i, h);
    }
  }

  class SubscriptionConfirmationTracker {
    const timeout: real
    var expected: set<string>
    var confirmed: set<string>
    var watchdog: Option<nat>
    var generation: nat
    var sleeping: map<nat, real>

    ghost function State(): (s: TrackerState)
      reads this
    {
      TrackerState(expected, confirmed, watchdog, generation, sleeping)
    }

    predicate IsExpectationActive()
      reads this
    {
      expected != {} && watchdog.Some?
    }

    constructor (timeout: real)
      requires timeout > 0.0
      ensures this.timeout == timeout && State() == IDLE
    {
      this.timeout := timeout;
      expected, confirmed, watchdog, generation, sleeping := {}, {}, None, 0, map[];
    }

    method BeginExpectation(symbols: seq<string>, now: real)
      modifies this
      ensures State() == Begun(old(State()), symbols, now, timeout)
    {
      CancelWindow();
      if symbols == [] {
        return;
      }
      generation := generation + 1;
      expected, confirmed := Elements(symbols), {};
      watchdog, sleeping := Some(generation), sleeping[generation := now + timeout];
    }

    method RecordConfirmation(symbol: string) returns (newly: bool, outcome: Option<Outcome>)
      modifies this
      ensures (State(), newly, outcome) == Acknowledged(old(State()), symbol)
    {
      if symbol !in expected {
        return false, None;
      }
      if symbol in confirmed {
        return false, None;
      }
      newly, outcome := true, None;
      confirmed := confirmed + {symbol};
      if confirmed >= expected {
        outcome := Some(Complete(confirmed));
        CancelWindow();
      }
    }

    method CancelWindow()
      modifies this
      ensures State() == Cancelled(old(State()))
    {
      generation := generation + 1;
      watchdog := None;
      expected, confirmed := {}, {};
    }

    method EvaluateAfterTimeout(g: nat) returns (outcome: Option<Outcome>)
      modifies this
      ensures (State(), outcome) == Woken(old(State()), g)
    {
      sleeping := sleeping - {g};
      if g != generation {
        return None;
      }
      var wanted, got := expected, confirmed;
      var missing := wanted - got;
      watchdog := None;
      expected, confirmed := {}, {};
      if missing == {} {
        outcome := Some(Complete(got));
      } else {
        outcome := Some(Partial(wanted, got, missing));
      }
    }
  }
}
