/** Bounded FIFO window of trade ids for one symbol (core/journal/symbol_dedup_bucket.py). */
module SymbolDedup {
  import opened Bytes

  ghost predicate Distinct(ids: seq<Bytes>) {
    forall i, j :: 0 <= i < j < |ids| ==> ids[i] != ids[j]
  }

  function LastN(ids: seq<Bytes>, n: nat): (r: seq<Bytes>) {
    if |ids| <= n then ids else ids[|ids| - n..]
  }

  /** The window after one more id: known ids change nothing, a full window loses its oldest. */
  function Pushed(window: seq<Bytes>, max: nat, id: Bytes): (r: seq<Bytes>)
    requires max > 0
  {
    if id in window then window
    else if |window| >= max then window[1..] + [id]
    else window + [id]
  }

  function PushedAll(window: seq<Bytes>, max: nat, ids: seq<Bytes>): (r: seq<Bytes>)
    requires max > 0
    decreases |ids|
  {
    if ids == [] then window else PushedAll(Pushed(window, max, ids[0]), max, ids[1..])
  }

  /** The window rebuilt from a stored list. */
  function Hydrated(ids: seq<Bytes>, max: nat): (r: seq<Bytes>)
    requires max > 0
  {
    PushedAll([], max, LastN(ids, max))
  }

  lemma {:induction false} PushedAllConcat(window: seq<Bytes>, max: nat, a: seq<Bytes>, b: seq<Bytes>)
    requires max > 0
    ensures PushedAll(window, max, a + b) == PushedAll(PushedAll(window, max, a), max, b)
    decreases |a|
  {
    if a == [] {
      assert a + b == b;
    } else {
      assert (a + b)[1..] == a[1..] + b;
      PushedAllConcat(Pushed(window, max, a[0]), max, a[1..], b);
    }
  }

  /** Pushing distinct new ids that fit just appends them. */
  lemma {:induction false} PushedAllAppends(window: seq<Bytes>, max: nat, ids: seq<Bytes>)
    requires max > 0 && |window| + |ids| <= max
    requires Distinct(window + ids)
    ensures PushedAll(window, max, ids) == window + ids
    decreases |ids|
  {
    if ids != [] {
      var id := ids[0];
      assert (window + ids)[|window|] == id;
      assert forall i :: 0 <= i < |window| ==> (window + ids)[i] == window[i];
      assert id !in window;
      assert window + ids == (window + [id]) + ids[1..];
      PushedAllAppends(window + [id], max, ids[1..]);
    }
  }

  /** Writing a window out and reading it back restores it; read back into a smaller one, its newest ids. */
  lemma WindowRoundTrip(window: seq<Bytes>, max: nat)
    requires max > 0 && Distinct(window)
    ensures Hydrated(window, max) == if |window| <= max then window else window[|window| - max..]
  {
    var kept := LastN(window, max);
    assert [] + kept == kept;
    PushedAllAppends([], max, kept);
  }

  lemma {:induction false} PushedAllStaysAWindow(window: seq<Bytes>, max: nat, ids: seq<Bytes>)
    requires max > 0 && |window| <= max && Distinct(window)
    ensures var r := PushedAll(window, max, ids);
      |r| <= max && Distinct(r) && forall id :: id in r ==> id in window || id in ids
    decreases |ids|
  {
    hide Distinct, Pushed;
    if ids != [] {
      PushedStaysAWindow(window, max, ids[0]);
      PushedAllStaysAWindow(Pushed(window, max, ids[0]), max, ids[1..]);
    }
  }

  /** Whatever list was stored, with ids repeated or more than fit, what is read back is a window of its ids. */
  lemma HydratedIsAWindow(ids: seq<Bytes>, max: nat)
    requires max > 0
    ensures var r := Hydrated(ids, max); |r| <= max && Distinct(r) && forall id :: id in r ==> id in ids
  {
    PushedAllStaysAWindow([], max, LastN(ids, max));
  }

  lemma PushedStaysAWindow(window: seq<Bytes>, max: nat, id: Bytes)
    requires max > 0 && |window| <= max && Distinct(window)
    ensures |Pushed(window, max, id)| <= max && Distinct(Pushed(window, max, id))
    ensures id in Pushed(window, max, id) && forall other :: other in Pushed(window, max, id) ==> other in window + [id]
  {
    var r := Pushed(window, max, id);
    if id !in window {
      assert r[|r| - 1] == id;
    }
  }

  class SymbolDedupBucket {
    const maxSize: nat
    var order: seq<Bytes>
    var seen: set<Bytes>

    ghost predicate Valid()
      reads this
    {
      && maxSize > 0
      && |order| <= maxSize
      && Distinct(order)
      && seen == set id | id in order
    }

    constructor (maxSize: nat)
      requires maxSize > 0
      ensures Valid() && this.maxSize == maxSize && order == []
    {
      this.maxSize := maxSize;
      order := [];
      seen := {};
    }

    method Contains(tradeId: Bytes) returns (b: bool)
      requires Valid()
      ensures b <==> tradeId in order
    {
      b := tradeId in seen;
    }

    method Add(tradeId: Bytes)
      requires Valid()
      modifies this
      ensures Valid()
      ensures order == Pushed(old(order), maxSize, tradeId)
    {
      PushedStaysAWindow(order, maxSize, tradeId);
      if tradeId in seen {
        return;
      }
      if |order| >= maxSize {
        var oldest := order[0];
        order := order[1..];
        seen := seen - {oldest};
        assert forall id :: id in old(order) <==> id == oldest || id in order;
      }
      order := order + [tradeId];
      seen := seen + {tradeId};
    }

    method ToList() returns (ids: seq<Bytes>)
      requires Valid()
      ensures ids == order
    {
      ids := order;
    }

    static method FromList(tradeIds: seq<Bytes>, maxSize: nat) returns (bucket: SymbolDedupBucket)
      requires maxSize > 0
      ensures fresh(bucket) && bucket.Valid() && bucket.maxSize == maxSize
      ensures bucket.order == Hydrated(tradeIds, maxSize)
    {
      bucket := new SymbolDedupBucket(maxSize);
      var kept := LastN(tradeIds, maxSize);
      var i := 0;
      while i < |kept|
        invariant 0 <= i <= |kept|
        invariant fresh(bucket) && bucket.Valid() && bucket.maxSize == maxSize
        invariant bucket.order == PushedAll([], maxSize, kept[..i])
      {
        assert kept[..i + 1] == kept[..i] + [kept[i]];
        PushedAllConcat([], maxSize, kept[..i], [kept[i]]);
        bucket.Add(kept[i]);
        i := i + 1;
      }
      assert kept[..|kept|] == kept;
    }
  }
}
