/** What becomes of each line a consumer reads: which are delivered, which are stale, which are rejected. */
module LineAccounting {
  import opened Bytes
  import opened JournalLines

  /** Records that lie below the running next seq when their line is reached. */
  function CountStale(ks: seq<LineKind>, next: int): (n: nat) {
    if ks == [] then 0
    else
      var stale := RecordOf(ks[0]).Some? && RecordOf(ks[0]).value.seqNo < next;
      (if stale then 1 else 0) + CountStale(ks[1..], Step(ks[0], next))
  }

  /** Line `i` is due to a consumer at `start`: a record at or above `start` and above every record before it. */
  predicate IsDue(ks: seq<LineKind>, i: nat, start: int)
    requires i < |ks|
  {
    && RecordOf(ks[i]).Some? && RecordOf(ks[i]).value.seqNo >= start
    && forall j :: 0 <= j < i && RecordOf(ks[j]).Some? ==> RecordOf(ks[j]).value.seqNo < RecordOf(ks[i]).value.seqNo
  }

  /** `at` lists positions below `n`, each once and in order. */
  ghost predicate Selects(at: seq<nat>, n: nat) {
    && (forall k :: 0 <= k < |at| ==> at[k] < n)
    && forall k, m :: 0 <= k < m < |at| ==> at[k] < at[m]
  }

  lemma SelectsSnoc(before: seq<nat>, n: nat, more: bool)
    requires Selects(before, n)
    ensures var at := if more then before + [n] else before;
      && Selects(at, n + 1) && (n in at <==> more) && forall i :: 0 <= i < n ==> (i in at <==> i in before)
  {
    assert n !in before;
  }

  /** `rs` are the records of the lines `at`. */
  ghost predicate AreRecordsAt(rs: seq<JournalRecord>, ks: seq<LineKind>, at: seq<nat>) {
    && |rs| == |at|
    && forall k :: 0 <= k < |at| ==> at[k] < |ks| && RecordOf(ks[at[k]]) == Some(rs[k])
  }

  /** Each record is delivered or stale, one of the two, judged when its line is reached. */
  lemma {:induction false} DeliveredOrStale(ks: seq<LineKind>, next: int)
    ensures |Records(ks)| == |Deliver(ks, next)| + CountStale(ks, next)
  {
    if ks != [] {
      DeliverStep(ks, next);
      DeliveredOrStale(ks[1..], Step(ks[0], next));
    }
  }

  lemma {:induction false} LineCount(ks: seq<LineKind>)
    ensures |ks| == CountBlank(ks) + CountRejected(ks) + |Records(ks)|
  {
    if ks != [] {
      LineCount(ks[1..]);
    }
  }

  /** After delivery every record lies below the seq reached. */
  lemma {:induction false} BelowNext(ks: seq<LineKind>, next: int)
    ensures forall r :: r in Records(ks) ==> r.seqNo < NextAfter(ks, next)
  {
    if ks != [] {
      DeliverStep(ks, next);
      BelowNext(ks[1..], Step(ks[0], next));
      DeliverNext(ks[1..], Step(ks[0], next));
    }
  }

  /** The seq reached lies above every record read, and is the start or right behind one of them. */
  lemma {:induction false} ReachedNext(ks: seq<LineKind>, next: int)
    ensures forall i :: 0 <= i < |ks| && RecordOf(ks[i]).Some? ==> RecordOf(ks[i]).value.seqNo < NextAfter(ks, next)
    ensures NextAfter(ks, next) == next
         || exists i :: 0 <= i < |ks| && RecordOf(ks[i]).Some? && NextAfter(ks, next) == RecordOf(ks[i]).value.seqNo + 1
    ensures NextAfter(ks, next) >= next
  {
    if ks != [] {
      var tail, next' := ks[1..], Step(ks[0], next);
      DeliverStep(ks, next);
      ReachedNext(tail, next');
      DeliverNext(tail, next');
      forall i | 0 <= i < |ks| && RecordOf(ks[i]).Some? ensures RecordOf(ks[i]).value.seqNo < NextAfter(ks, next) {
        assert i > 0 ==> ks[i] == tail[i - 1];
      }
      if NextAfter(tail, next') != next' {
        var i :| && 0 <= i < |tail| && RecordOf(tail[i]).Some?
                 && NextAfter(tail, next') == RecordOf(tail[i]).value.seqNo + 1;
        assert ks[i + 1] == tail[i];
      } else if next' != next {
        assert RecordOf(ks[0]).Some?;
      }
    }
  }

  /** What a consumer is handed is the due lines, all of them, once each and in order. */
  lemma {:induction false} DeliveredAreTheDue(ks: seq<LineKind>, start: int) returns (at: seq<nat>)
    ensures Selects(at, |ks|) && AreRecordsAt(Deliver(ks, start), ks, at)
    ensures forall i :: 0 <= i < |ks| ==> (i in at <==> IsDue(ks, i, start))
    decreases |ks|
  {
    if ks == [] {
      at := [];
    } else {
      var n := |ks| - 1;
      var front, last := ks[..n], ks[n];
      var before := DeliveredAreTheDue(front, start);
      assert ks == front + [last];
      DeliverConcat(front, [last], start);
      OneLineDelivered(last, NextAfter(front, start));
      LastIsDue(ks, start);
      at := if IsDue(ks, n, start) then before + [n] else before;
      DueAtSnoc(ks, start, before, at);
    }
  }

  lemma OneLineDelivered(k: LineKind, next: int)
    ensures Deliver([k], next)
         == if RecordOf(k).Some? && RecordOf(k).value.seqNo >= next then [RecordOf(k).value] else []
  {
    assert [k][1..] == [];
  }

  lemma LastIsDue(ks: seq<LineKind>, start: int)
    requires ks != []
    ensures var n := |ks| - 1;
      IsDue(ks, n, start) <==>
      RecordOf(ks[n]).Some? && RecordOf(ks[n]).value.seqNo >= NextAfter(ks[..n], start)
  {
    ReachedNext(ks[..|ks| - 1], start);
  }

  lemma DueAtSnoc(ks: seq<LineKind>, start: int, before: seq<nat>, at: seq<nat>)
    requires ks != [] && Selects(before, |ks| - 1)
    requires forall i :: 0 <= i < |ks| - 1 ==> (i in before <==> IsDue(ks[..|ks| - 1], i, start))
    requires at == if IsDue(ks, |ks| - 1, start) then before + [|ks| - 1] else before
    ensures Selects(at, |ks|)
    ensures forall i :: 0 <= i < |ks| ==> (i in at <==> IsDue(ks, i, start))
  {
    var n := |ks| - 1;
    forall i | 0 <= i < |ks| ensures i in at <==> IsDue(ks, i, start) {
      if i < n {
        assert IsDue(ks[..n], i, start) <==> IsDue(ks, i, start);
      } else {
        assert n !in before;
      }
    }
  }
}
