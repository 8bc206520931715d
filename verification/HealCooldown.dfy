/** The minimum interval between self-heal signals, which both watchdogs apply in the same way. */
module HealCooldown {
  import opened Bytes

  predicate Cooling(lastHeal: Option<real>, now: real, minInterval: real) {
    lastHeal.Some? && now - lastHeal.value < minInterval
  }

  /** One step of a watchdog: when it ran, whether it found its window stale, and the last heal it knew of. */
  datatype Beat = Beat(now: real, stale: bool, lastHeal: Option<real>)

  predicate Heals(b: Beat, minInterval: real) {
    b.stale && !Cooling(b.lastHeal, b.now, minInterval)
  }

  ghost predicate IsLog(beats: seq<Beat>, minInterval: real) {
    && (|beats| > 0 ==> beats[0].lastHeal == None)
    && (forall i, j :: 0 <= i < j < |beats| ==> beats[i].now <= beats[j].now)
    && forall i :: 0 <= i < |beats| - 1 ==>
      beats[i + 1].lastHeal == if Heals(beats[i], minInterval) then Some(beats[i].now) else beats[i].lastHeal
  }

  lemma {:induction false} LastHealIsLatest(beats: seq<Beat>, minInterval: real, j: nat)
    requires IsLog(beats, minInterval) && j < |beats|
    ensures beats[j].lastHeal.None? ==> forall k :: 0 <= k < j ==> !Heals(beats[k], minInterval)
    ensures beats[j].lastHeal.Some? ==>
      && (exists k :: 0 <= k < j && Heals(beats[k], minInterval) && beats[k].now == beats[j].lastHeal.value)
      && forall k :: 0 <= k < j && Heals(beats[k], minInterval) ==> beats[k].now <= beats[j].lastHeal.value
    decreases j
  {
    if j > 0 {
      LastHealIsLatest(beats, minInterval, j - 1);
      assert beats[j - 1 + 1].lastHeal
        == if Heals(beats[j - 1], minInterval) then Some(beats[j - 1].now) else beats[j - 1].lastHeal;
    }
  }

  /** A stale window heals exactly when every earlier heal lies at least the minimum interval back. */
  lemma HealsIffRested(beats: seq<Beat>, minInterval: real, j: nat)
    requires IsLog(beats, minInterval) && j < |beats|
    ensures Heals(beats[j], minInterval) <==>
      && beats[j].stale
      && forall k :: 0 <= k < j && Heals(beats[k], minInterval) ==> beats[j].now - beats[k].now >= minInterval
  {
    LastHealIsLatest(beats, minInterval, j);
  }
}
