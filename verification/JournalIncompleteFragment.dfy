/** Wait-or-skip policy for an unterminated tip (core/journal/journal_incomplete_fragment.py). */
module FragmentPolicy {
  import opened Bytes
  import opened JournalDisk

  /** The tip being waited for: where it starts, how long it is, since when it has looked like that. */
  datatype Pending = Pending(offset: nat, length: nat, since: real)

  predicate IsInProgress(fragment: Bytes) {
    var t := LStrip(fragment);
    t != [] && t[0] == OPEN_BRACE
  }

  function SkipReason(fragment: Bytes): (r: QuarantineReason) {
    if IsInProgress(fragment) then IncompleteStale else IncompletePoison
  }

  /** The pending tip after the question, and whether the fragment must be skipped now. */
  function Decide(pending: Option<Pending>, wait: real, offset: nat, fragment: Bytes, now: real)
    : (r: (Option<Pending>, bool))
  {
    if fragment == [] then (pending, false)
    else if !IsInProgress(fragment) then (pending, true)
    else if pending.None? || pending.value.offset != offset || pending.value.length != |fragment| then
      (Some(Pending(offset, |fragment|, now)), false)
    else (pending, now - pending.value.since >= wait)
  }

  /** A tip may still become a record exactly if a brace comes first, blank bytes aside; any other is skipped. */
  lemma PoisonIsSkippedAtOnce(pending: Option<Pending>, wait: real, offset: nat, fragment: Bytes, now: real)
    requires fragment != []
    ensures IsInProgress(fragment) <==>
      exists i :: 0 <= i < |fragment| && fragment[i] == OPEN_BRACE && AllWhite(fragment[..i])
    ensures !IsInProgress(fragment) ==> Decide(pending, wait, offset, fragment, now) == (pending, true)
    ensures SkipReason(fragment) == if IsInProgress(fragment) then IncompleteStale else IncompletePoison
  {
    var i := LStripCuts(fragment);
    if IsInProgress(fragment) {
      assert fragment[i] == LStrip(fragment)[0];
    }
    if k :| 0 <= k < |fragment| && fragment[k] == OPEN_BRACE && AllWhite(fragment[..k]) {
      assert i < k ==> fragment[..k][i] == fragment[i];
      assert k < i ==> fragment[..i][k] == OPEN_BRACE;
    }
  }

  // ---------- runs ----------

  datatype PolicyEvent = Ask(offset: nat, fragment: Bytes, now: real) | Clear

  function Answer(pending: Option<Pending>, wait: real, e: PolicyEvent): (r: (Option<Pending>, bool)) {
    match e
    case Ask(offset, fragment, now) => Decide(pending, wait, offset, fragment, now)
    case Clear => (None, false)
  }

  ghost predicate IsRun(run: seq<Option<Pending>>, events: seq<PolicyEvent>, wait: real) {
    && |run| == |events| + 1
    && run[0] == None
    && (forall i :: 0 <= i < |events| ==> run[i + 1] == Answer(run[i], wait, events[i]).0)
    && (forall i, j :: 0 <= i < j < |events| && events[i].Ask? && events[j].Ask? ==> events[i].now <= events[j].now)
  }

  /** The event asks about an in-progress tip that starts at `offset` and is `length` bytes long. */
  predicate SameTip(e: PolicyEvent, offset: nat, length: nat) {
    e.Ask? && IsInProgress(e.fragment) && e.offset == offset && |e.fragment| == length
  }

  /** Nothing between the two events cleared the wait or showed a different in-progress tip. */
  ghost predicate Undisturbed(events: seq<PolicyEvent>, i: nat, j: nat, offset: nat, length: nat)
    requires i <= j <= |events|
  {
    forall k :: i <= k < j ==>
      events[k].Ask? && (IsInProgress(events[k].fragment) ==> SameTip(events[k], offset, length))
  }

  /** A pending tip goes back to an event that showed exactly that tip, undisturbed since. */
  lemma {:induction false} PendingHasAnOrigin(run: seq<Option<Pending>>, events: seq<PolicyEvent>, wait: real, j: nat)
    returns (i: nat)
    requires IsRun(run, events, wait) && j < |run| && run[j].Some?
    ensures i < j && SameTip(events[i], run[j].value.offset, run[j].value.length)
    ensures events[i].now == run[j].value.since
    ensures Undisturbed(events, i, j, run[j].value.offset, run[j].value.length)
    decreases j
  {
    if run[j] == run[j - 1] {
      i := PendingHasAnOrigin(run, events, wait, j - 1);
    } else {
      i := j - 1;
    }
  }

  /**
   No early skip: an in-progress tip is skipped only if the same offset and length were first shown at
   least `wait` earlier, with no clear and no other tip in between.
   */
  lemma SkipOnlyAfterWait(run: seq<Option<Pending>>, events: seq<PolicyEvent>, wait: real, j: nat) returns (i: nat)
    requires IsRun(run, events, wait) && j < |events|
    requires events[j].Ask? && IsInProgress(events[j].fragment) && Answer(run[j], wait, events[j]).1
    ensures i < j && SameTip(events[i], events[j].offset, |events[j].fragment|)
    ensures events[j].now - events[i].now >= wait
    ensures Undisturbed(events, i, j, events[j].offset, |events[j].fragment|)
  {
    i := PendingHasAnOrigin(run, events, wait, j);
  }

  lemma {:induction false} WaitIsKept(run: seq<Option<Pending>>, events: seq<PolicyEvent>, wait: real, i: nat, j: nat)
    requires IsRun(run, events, wait) && i < j <= |events| && events[i].Ask?
    requires SameTip(events[i], events[i].offset, |events[i].fragment|)
    requires Undisturbed(events, i, j, events[i].offset, |events[i].fragment|)
    ensures run[j].Some? && run[j].value.offset == events[i].offset && run[j].value.length == |events[i].fragment|
    ensures run[j].value.since <= events[i].now
    decreases j
  {
    if j == i + 1 {
      if run[i].Some? {
        var o := PendingHasAnOrigin(run, events, wait, i);
      }
    } else {
      WaitIsKept(run, events, wait, i, j - 1);
    }
  }

  /** No endless wait: the same tip, undisturbed and shown again once `wait` has passed, is skipped. */
  lemma UnchangedTipIsSkipped(run: seq<Option<Pending>>, events: seq<PolicyEvent>, wait: real, i: nat, j: nat)
    requires IsRun(run, events, wait) && i < j < |events| && events[i].Ask?
    requires SameTip(events[i], events[i].offset, |events[i].fragment|)
    requires Undisturbed(events, i, j + 1, events[i].offset, |events[i].fragment|)
    requires IsInProgress(events[j].fragment) && events[j].now - events[i].now >= wait
    ensures Answer(run[j], wait, events[j]).1
  {
    WaitIsKept(run, events, wait, i, j);
  }

  class IncompleteTrailingFragmentPolicy {
    const maxWait: real
    var pending: Option<Pending>

    constructor (maxWait: real)
      requires maxWait > 0.0
      ensures this.maxWait == maxWait && pending == None
    {
      this.maxWait, pending := maxWait, None;
    }

    method ClearWait()
      modifies this
      ensures pending == None
    {
      pending := None;
    }

    method ShouldSkipNow(offset: nat, fragment: Bytes, now: real) returns (skip: bool)
      modifies this
      ensures (pending, skip) == Decide(old(pending), maxWait, offset, fragment, now)
    {
      if fragment == [] {
        return false;
      }
      if !IsInProgress(fragment) {
        return true;
      }
      if pending.None? || pending.value.offset != offset || pending.value.length != |fragment| {
        pending := Some(Pending(offset, |fragment|, now));
        return false;
      }
      var elapsed := now - pending.value.since;
      skip := elapsed >= maxWait;
    }
  }
}
