/** The bounded queue between the exchange and its consumer (core/routing/async_queue_dispatcher.py). */
module QueueDispatcher {
  import opened Bytes
  import opened TickCodec

  datatype OverflowPolicy = DropOldest | DropNewest

  datatype Limits = Limits(
    maxsize: nat, policy: OverflowPolicy, logInterval: real, errorAfter: real, errorThreshold: nat)

  ghost predicate Sane(c: Limits) {
    c.maxsize > 0 && c.logInterval > 0.0 && c.errorAfter > 0.0 && c.errorThreshold > 0
  }

  /** One aggregated report of dropped ticks. */
  datatype DropLog = DropLog(escalated: bool, drops: nat, window: real, symbol: Bytes, total: nat, queued: nat)

  /** `unfinished` is the queue's own count of ticks put and not yet marked as done. */
  datatype QueueState = QueueState(
    queue: seq<TradeTick>, unfinished: nat, dropped: nat, unlogged: nat,
    lastLog: Option<real>, saturatedSince: Option<real>)

  const EMPTY := QueueState([], 0, 0, 0, None, None)

  function Queued(s: QueueState, c: Limits, tick: TradeTick): (q: seq<TradeTick>) {
    if |s.queue| < c.maxsize then s.queue + [tick]
    else if c.policy.DropOldest? then (s.queue + [tick])[1..]
    else s.queue
  }

  function Escalates(s: QueueState, c: Limits, now: real): (e: bool) {
    s.dropped >= c.errorThreshold || (s.saturatedSince.Some? && now - s.saturatedSince.value >= c.errorAfter)
  }

  /** Counting one more drop, and the report that is due now, if any. */
  function Counted(s: QueueState, c: Limits, tick: TradeTick, now: real): (r: (QueueState, Option<DropLog>))
    ensures r.0 == s.(unlogged := r.0.unlogged, lastLog := r.0.lastLog)
    ensures (if r.1.Some? then r.1.value.drops else 0) + r.0.unlogged == s.unlogged + 1
  {
    var t := s.(unlogged := s.unlogged + 1);
    if s.lastLog.Some? && now - s.lastLog.value < c.logInterval then (t, None)
    else
      var window := if s.lastLog.Some? then now - s.lastLog.value else 0.0;
      (t.(unlogged := 0, lastLog := Some(now)),
       Some(DropLog(Escalates(s, c, now), t.unlogged, window, tick.instId, t.dropped, |t.queue|)))
  }

  function Dispatched(s: QueueState, c: Limits, tick: TradeTick, now: real): (r: (QueueState, Option<DropLog>)) {
    var t := s.(queue := Queued(s, c, tick));
    if |s.queue| < c.maxsize then (t.(unfinished := s.unfinished + 1, saturatedSince := None), None)
    else
      var since := if s.saturatedSince.None? then Some(now) else s.saturatedSince;
      Counted(t.(dropped := s.dropped + 1, saturatedSince := since), c, tick, now)
  }

  function Taken(s: QueueState): (s': QueueState)
    requires s.queue != []
  {
    s.(queue := s.queue[1..])
  }

  function Marked(s: QueueState): (s': QueueState)
    requires s.unfinished > 0
  {
    s.(unfinished := s.unfinished - 1)
  }

  // ---------- the ledger of a whole run ----------

  datatype QueueEvent = Dispatch(tick: TradeTick, now: real) | Take | Mark

  /**
   Everything that happened: the ticks dispatched, which of them (by number of dispatch) were delivered and
   which are queued, how many were marked, every report with its time, and when the current row of
   overflowing dispatches happened.
   */
  datatype Ledger = Ledger(
    state: QueueState, dispatched: seq<TradeTick>, delivered: seq<nat>, queued: seq<nat>, marked: nat,
    logs: seq<(real, DropLog)>, row: seq<real>, clock: Option<real>)

  const BLANK := Ledger(EMPTY, [], [], [], 0, [], [], None)

  ghost predicate CanHappen(l: Ledger, e: QueueEvent) {
    match e
    case Dispatch(_, now) => l.clock.None? || l.clock.value <= now
    case Take => l.state.queue != []
    case Mark => l.marked < |l.delivered| && l.state.unfinished > 0
  }

  ghost function Next(l: Ledger, c: Limits, e: QueueEvent): (l': Ledger)
    requires CanHappen(l, e) && |l.queued| == |l.state.queue|
  {
    match e
    case Dispatch(tick, now) =>
      var (s, log) := Dispatched(l.state, c, tick, now);
      var n, fits := |l.dispatched|, |l.state.queue| < c.maxsize;
      Ledger(s, l.dispatched + [tick], l.delivered,
             if fits then l.queued + [n] else if c.policy.DropOldest? then (l.queued + [n])[1..] else l.queued,
             l.marked, if log.Some? then l.logs + [(now, log.value)] else l.logs,
             if fits then [] else l.row + [now], Some(now))
    case Take =>
      l.(state := Taken(l.state), delivered := l.delivered + [l.queued[0]], queued := l.queued[1..])
    case Mark =>
      l.(state := Marked(l.state), marked := l.marked + 1)
  }

  function Drops(logs: seq<(real, DropLog)>): (n: nat) {
    if logs == [] then 0 else Drops(logs[..|logs| - 1]) + logs[|logs| - 1].1.drops
  }

  ghost predicate Increasing(ns: seq<nat>, bound: nat) {
    && (forall i :: 0 <= i < |ns| ==> ns[i] < bound)
    && forall i, j :: 0 <= i < j < |ns| ==> ns[i] < ns[j]
  }

  /** No dispatch is unaccounted for, and the queue's own counter agrees. */
  ghost predicate Balanced(l: Ledger, c: Limits) {
    var s := l.state;
    && |s.queue| <= c.maxsize && |l.queued| == |s.queue|
    && |l.dispatched| == |l.delivered| + s.dropped + |s.queue|
    && s.unfinished == |s.queue| + |l.delivered| - l.marked
    && Drops(l.logs) + s.unlogged == s.dropped
  }

  /** What was delivered, followed by what is queued, is the dispatched ticks in order, some left out. */
  ghost predicate InOrder(l: Ledger) {
    && |l.queued| == |l.state.queue|
    && Increasing(l.delivered + l.queued, |l.dispatched|)
    && forall i :: 0 <= i < |l.queued| ==> l.queued[i] < |l.dispatched| && l.state.queue[i] == l.dispatched[l.queued[i]]
  }

  /** The queue is the last stretch of the dispatched ticks. */
  ghost predicate IsSuffix(l: Ledger) {
    && |l.state.queue| <= |l.dispatched|
    && l.state.queue == l.dispatched[|l.dispatched| - |l.state.queue|..]
  }

  /** Reports keep their distance, and saturation dates from the first dispatch of the current row of overflows. */
  ghost predicate Paced(l: Ledger, c: Limits) {
    && l.state.lastLog == (if l.logs == [] then None else Some(l.logs[|l.logs| - 1].0))
    && l.state.saturatedSince == (if l.row == [] then None else Some(l.row[0]))
    && (forall i :: 0 <= i < |l.logs| - 1 ==> l.logs[i + 1].0 - l.logs[i].0 >= c.logInterval)
    && (forall i :: 0 <= i < |l.logs| - 1 ==> l.logs[i + 1].1.window == l.logs[i + 1].0 - l.logs[i].0)
    && (l.logs != [] ==> l.logs[0].1.window == 0.0)
  }

  ghost predicate IsRun(run: seq<Ledger>, events: seq<QueueEvent>, c: Limits) {
    && Sane(c)
    && |run| == |events| + 1
    && run[0] == BLANK
    && forall i :: 0 <= i < |events| ==>
      && CanHappen(run[i], events[i]) && |run[i].queued| == |run[i].state.queue|
      && run[i + 1] == Next(run[i], c, events[i])
  }

  lemma StepKeepsBalance(l: Ledger, c: Limits, e: QueueEvent)
    requires Sane(c) && Balanced(l, c) && CanHappen(l, e)
    ensures Balanced(Next(l, c, e), c)
  {
    if e.Dispatch? {
      var log := Dispatched(l.state, c, e.tick, e.now).1;
      if log.Some? {
        assert (l.logs + [(e.now, log.value)])[..|l.logs|] == l.logs;
      }
    }
  }

  lemma StepKeepsOrder(l: Ledger, c: Limits, e: QueueEvent)
    requires Sane(c) && InOrder(l) && CanHappen(l, e)
    ensures InOrder(Next(l, c, e))
  {
    var l' := Next(l, c, e);
    var before, after := l.delivered + l.queued, l'.delivered + l'.queued;
    match e {
      case Dispatch(tick, now) =>
        hide Counted;
        OneMoreInOrder(l.delivered, l.queued, |l.dispatched|);
        if |l.state.queue| >= c.maxsize && c.policy.DropOldest? {
          OldestLeavesInOrder(l.delivered, l.queued + [|l.dispatched|], |l.dispatched| + 1);
        }
      case Take => assert after == before;
      case Mark =>
    }
  }

  lemma OneMoreInOrder(delivered: seq<nat>, queued: seq<nat>, n: nat)
    requires Increasing(delivered + queued, n)
    ensures Increasing(delivered + queued, n + 1) && Increasing(delivered + (queued + [n]), n + 1)
  {
    assert delivered + (queued + [n]) == (delivered + queued) + [n];
  }

  lemma OldestLeavesInOrder(delivered: seq<nat>, queued: seq<nat>, bound: nat)
    requires Increasing(delivered + queued, bound) && queued != []
    ensures Increasing(delivered + queued[1..], bound)
  {
    var all := delivered + queued;
    DropAt(all, |delivered|, bound);
    assert delivered + queued[1..] == all[..|delivered|] + all[|delivered| + 1..];
  }

  lemma DropAt(ns: seq<nat>, k: nat, bound: nat)
    requires k < |ns| && Increasing(ns, bound)
    ensures Increasing(ns[..k] + ns[k + 1..], bound)
  {
  }

  lemma StepKeepsSuffix(l: Ledger, c: Limits, e: QueueEvent)
    requires Sane(c) && c.policy.DropOldest? && IsSuffix(l) && |l.queued| == |l.state.queue| && CanHappen(l, e)
    ensures IsSuffix(Next(l, c, e))
  {
    hide Counted;
    var n, k := |l.dispatched|, |l.state.queue|;
    match e {
      case Dispatch(tick, _) => assert (l.dispatched + [tick])[n - k..] == l.state.queue + [tick];
      case Take => assert l.dispatched[n - k..][1..] == l.dispatched[n - k + 1..];
      case Mark =>
    }
  }

  lemma StepKeepsPace(l: Ledger, c: Limits, e: QueueEvent)
    requires Sane(c) && Paced(l, c) && |l.queued| == |l.state.queue| && CanHappen(l, e)
    ensures Paced(Next(l, c, e), c)
  {
    hide Queued, Escalates;
    var logs, logs' := l.logs, Next(l, c, e).logs;
    if logs' != logs {
      var n := |logs|;
      assert logs' == logs + [logs'[n]];
      assert n > 0 ==> logs'[n].0 - logs'[n - 1].0 >= c.logInterval;
    }
  }

  /**
   In every reachable state: dispatched = delivered + dropped + queued, the queue is within its bound,
   the unfinished counter is the queued ticks plus the delivered ones not yet marked, and the reported
   drops plus the unreported remainder are all the drops.
   */
  lemma {:induction false} RunIsBalanced(run: seq<Ledger>, events: seq<QueueEvent>, c: Limits, i: nat)
    requires IsRun(run, events, c) && i < |run|
    ensures Balanced(run[i], c)
    decreases i
  {
    if i > 0 {
      RunIsBalanced(run, events, c, i - 1);
      StepKeepsBalance(run[i - 1], c, events[i - 1]);
      assert run[i - 1 + 1] == Next(run[i - 1], c, events[i - 1]);
    }
  }

  /** Under either policy no tick is delivered twice and none out of order. */
  lemma {:induction false} RunIsInOrder(run: seq<Ledger>, events: seq<QueueEvent>, c: Limits, i: nat)
    requires IsRun(run, events, c) && i < |run|
    ensures InOrder(run[i])
    decreases i
  {
    if i > 0 {
      RunIsInOrder(run, events, c, i - 1);
      StepKeepsOrder(run[i - 1], c, events[i - 1]);
      assert run[i - 1 + 1] == Next(run[i - 1], c, events[i - 1]);
    }
  }

  /** Dropping the oldest keeps the queue a contiguous suffix of everything dispatched. */
  lemma {:induction false} DropOldestKeepsASuffix(run: seq<Ledger>, events: seq<QueueEvent>, c: Limits, i: nat)
    requires IsRun(run, events, c) && c.policy.DropOldest? && i < |run|
    ensures IsSuffix(run[i])
    decreases i
  {
    if i > 0 {
      DropOldestKeepsASuffix(run, events, c, i - 1);
      StepKeepsSuffix(run[i - 1], c, events[i - 1]);
      assert run[i - 1 + 1] == Next(run[i - 1], c, events[i - 1]);
    }
  }

  /** Dropping the newest never loses a tick it accepted: what is delivered or queued stays so, in place. */
  lemma {:induction false} DropNewestKeepsAccepted(run: seq<Ledger>, events: seq<QueueEvent>, c: Limits, i: nat, j: nat)
    requires IsRun(run, events, c) && c.policy.DropNewest? && i <= j < |run|
    ensures run[i].delivered + run[i].queued <= run[j].delivered + run[j].queued
    decreases j
  {
    if i < j {
      DropNewestKeepsAccepted(run, events, c, i, j - 1);
      var l, e := run[j - 1], events[j - 1];
      assert run[j - 1 + 1] == Next(l, c, e);
      if e.Take? {
        assert (l.delivered + [l.queued[0]]) + l.queued[1..] == l.delivered + l.queued;
      }
    }
  }

  lemma {:induction false} RunIsPaced(run: seq<Ledger>, events: seq<QueueEvent>, c: Limits, i: nat)
    requires IsRun(run, events, c) && i < |run|
    ensures Paced(run[i], c)
    decreases i
  {
    if i > 0 {
      RunIsPaced(run, events, c, i - 1);
      StepKeepsPace(run[i - 1], c, events[i - 1]);
      assert run[i - 1 + 1] == Next(run[i - 1], c, events[i - 1]);
    }
  }

  /**
   An overflowing dispatch is reported at once exactly if no report is younger than the interval, and the
   report is an error exactly if the drops reached the threshold or the row of overflows has lasted.
   */
  lemma ReportsArePaced(run: seq<Ledger>, events: seq<QueueEvent>, c: Limits, i: nat)
    requires IsRun(run, events, c) && i < |events| && events[i].Dispatch? && |run[i].state.queue| >= c.maxsize
    ensures var now, logs := events[i].now, run[i].logs;
      |run[i + 1].logs| == |logs| + 1 <==> (logs != [] ==> now - logs[|logs| - 1].0 >= c.logInterval)
    ensures |run[i + 1].logs| == |run[i].logs| + 1 ==>
      var now, log := events[i].now, run[i + 1].logs[|run[i].logs|];
      && log.0 == now && log.1.total == run[i].state.dropped + 1 && log.1.symbol == events[i].tick.instId
      && log.1.queued == |run[i + 1].state.queue| == c.maxsize
      && log.1.window == (if run[i].logs == [] then 0.0 else now - run[i].logs[|run[i].logs| - 1].0)
      && (log.1.escalated <==> log.1.total >= c.errorThreshold || now - run[i + 1].row[0] >= c.errorAfter)
  {
    RunIsPaced(run, events, c, i);
    RunIsPaced(run, events, c, i + 1);
    RunIsBalanced(run, events, c, i);
    RunIsBalanced(run, events, c, i + 1);
    assert run[i + 1] == Next(run[i], c, events[i]);
  }

  // ---------- bursts ----------

  function QueuedAll(s: QueueState, c: Limits, ticks: seq<TradeTick>, now: real): (q: QueueState)
    decreases |ticks|
  {
    if ticks == [] then s else QueuedAll(Dispatched(s, c, ticks[0], now).0, c, ticks[1..], now)
  }

  /** What is left of `all` in a queue of bounded size. */
  function Window(all: seq<TradeTick>, c: Limits): (q: seq<TradeTick>) {
    if |all| <= c.maxsize then all
    else if c.policy.DropOldest? then all[|all| - c.maxsize..]
    else all[..c.maxsize]
  }

  function Excess(n: nat, max: nat): (e: nat) {
    if n <= max then 0 else n - max
  }

  lemma WindowAfterOne(queue: seq<TradeTick>, c: Limits, ticks: seq<TradeTick>)
    requires c.maxsize > 0 && |queue| <= c.maxsize && ticks != []
    ensures Window(Window(queue + ticks[..1], c) + ticks[1..], c) == Window(queue + ticks, c)
  {
    var all := queue + ticks;
    var some := queue + ticks[..1];
    var rest := Window(some, c) + ticks[1..];
    assert some + ticks[1..] == all;
    if |some| <= c.maxsize {
    } else if c.policy.DropOldest? {
      assert rest == all[1..];
    } else {
      assert rest[..c.maxsize] == queue == all[..c.maxsize];
    }
  }

  lemma WindowIsBounded(all: seq<TradeTick>, c: Limits)
    ensures |Window(all, c)| == |all| - Excess(|all|, c.maxsize) <= c.maxsize
  {
  }

  lemma DispatchedIsAWindow(s: QueueState, c: Limits, tick: TradeTick, now: real)
    requires c.maxsize > 0 && |s.queue| <= c.maxsize
    ensures Dispatched(s, c, tick, now).0.queue == Window(s.queue + [tick], c)
    ensures Dispatched(s, c, tick, now).0.dropped == s.dropped + Excess(|s.queue| + 1, c.maxsize)
  {
    assert (s.queue + [tick])[..|s.queue|] == s.queue;
  }

  /**
   A burst with no consumer leaves the freshest window of ticks in the queue when the oldest are dropped,
   and the earliest ones when the newest are.
   */
  lemma {:induction false} BurstKeepsAWindow(s: QueueState, c: Limits, ticks: seq<TradeTick>, now: real)
    requires Sane(c) && |s.queue| <= c.maxsize
    ensures QueuedAll(s, c, ticks, now).queue == Window(s.queue + ticks, c)
    ensures QueuedAll(s, c, ticks, now).dropped == s.dropped + Excess(|s.queue| + |ticks|, c.maxsize)
    decreases |ticks|
  {
    if ticks == [] {
      assert s.queue + ticks == s.queue;
    } else {
      hide Dispatched, Window;
      DispatchedIsAWindow(s, c, ticks[0], now);
      WindowAfterOne(s.queue, c, ticks);
      assert ticks[..1] == [ticks[0]];
      WindowIsBounded(s.queue + [ticks[0]], c);
      BurstKeepsAWindow(Dispatched(s, c, ticks[0], now).0, c, ticks[1..], now);
    }
  }

  class AsyncQueueDispatcher {
    const limits: Limits
    var queue: seq<TradeTick>
    var unfinished: nat
    var dropped: nat
    var unlogged: nat
    var lastLog: Option<real>
    var lastSymbol: Option<Bytes>
    var saturatedSince: Option<real>

    ghost function State(): (s: QueueState)
      reads this
    {
      QueueState(queue, unfinished, dropped, unlogged, lastLog, saturatedSince)
    }

    ghost predicate Valid()
      reads this
    {
      Sane(limits) && |queue| <= limits.maxsize && |queue| <= unfinished
    }

    constructor (limits: Limits)
      requires Sane(limits)
      ensures this.limits == limits && State() == EMPTY && Valid()
    {
      this.limits := limits;
      queue, unfinished, dropped, unlogged, lastLog, lastSymbol, saturatedSince := [], 0, 0, 0, None, None, None;
    }

    method Dispatch(tick: TradeTick, now: real) returns (log: Option<DropLog>)
      requires Valid()
      modifies this
      ensures Valid() && (State(), log) == Dispatched(old(State()), limits, tick, now)
    {
      if |queue| < limits.maxsize {
        Put(tick);
        saturatedSince, log := None, None;
      } else {
        log := HandleOverflow(tick, now);
      }
    }

    method Put(tick: TradeTick)
      modifies `queue, `unfinished
      ensures queue == old(queue) + [tick] && unfinished == old(unfinished) + 1
    {
      queue, unfinished := queue + [tick], unfinished + 1;
    }

    method HandleOverflow(tick: TradeTick, now: real) returns (log: Option<DropLog>)
      requires Valid() && |queue| >= limits.maxsize
      modifies this
      ensures Valid() && (State(), log) == Dispatched(old(State()), limits, tick, now)
    {
      if saturatedSince.None? {
        saturatedSince := Some(now);
      }
      dropped, lastSymbol := dropped + 1, Some(tick.instId);
      if limits.policy.DropOldest? {
        ReplaceOldestWith(tick);
      }
      log := RecordDropForLogging(tick, now);
    }

    method ReplaceOldestWith(tick: TradeTick)
      requires Valid() && queue != []
      modifies `queue, `unfinished
      ensures Valid() && queue == (old(queue) + [tick])[1..] && unfinished == old(unfinished)
    {
      queue, unfinished := queue[1..], unfinished - 1;
      Put(tick);
      assert old(queue)[1..] + [tick] == (old(queue) + [tick])[1..];
    }

    method RecordDropForLogging(tick: TradeTick, now: real) returns (log: Option<DropLog>)
      requires Valid() && lastSymbol == Some(tick.instId)
      modifies `unlogged, `lastLog
      ensures (State(), log) == Counted(old(State()), limits, tick, now)
    {
      unlogged := unlogged + 1;
      var shouldLog := lastLog.None? || now - lastLog.value >= limits.logInterval;
      if !shouldLog {
        return None;
      }
      var window := if lastLog.None? then 0.0 else now - lastLog.value;
      var escalate := dropped >= limits.errorThreshold
        || (saturatedSince.Some? && now - saturatedSince.value >= limits.errorAfter);
      log := Some(DropLog(escalate, unlogged, window, lastSymbol.value, dropped, |queue|));
      unlogged, lastLog := 0, Some(now);
    }

    /** The next tick, or nothing while the caller would have to wait for one. */
    method WaitForNextTick() returns (tick: Option<TradeTick>)
      requires Valid()
      modifies this
      ensures Valid()
      ensures if old(queue) == [] then tick == None && State() == old(State())
              else tick == Some(old(queue)[0]) && State() == Taken(old(State()))
    {
      if queue == [] {
        return None;
      }
      tick, queue := Some(queue[0]), queue[1..];
    }

    method MarkTickAsProcessed()
      requires Valid() && unfinished > |queue|
      modifies this
      ensures Valid() && State() == Marked(old(State()))
    {
      unfinished := unfinished - 1;
    }
  }
}
