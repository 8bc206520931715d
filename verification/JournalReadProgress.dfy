/** Lag snapshot and its two classifiers (core/journal/journal_read_progress.py). */
module ReadProgress {

  const TIP_META_LAG_TOLERANCE_SEQ: nat := 50

  datatype Snapshot = Snapshot(
    readOffset: nat, journalSize: nat, nextSeq: int, latestSeq: int, lagSeq: int,
    incompleteStuck: bool, cursorAheadOfTip: bool)

  function ComputeSnapshot(readOffset: nat, journalSize: nat, nextSeq: int, diskLatest: int, stuck: bool,
                           tolerance: nat): (s: Snapshot)
  {
    var floor := if nextSeq - 1 >= 0 then nextSeq - 1 else 0;
    var ahead := floor - diskLatest > tolerance;
    var latest := if ahead || diskLatest >= floor then diskLatest else floor;
    var lag := if latest >= nextSeq then latest - nextSeq + 1 else 0;
    Snapshot(readOffset, journalSize, nextSeq, latest, if lag == 0 && stuck then 1 else lag, stuck, ahead)
  }

  predicate IsEofCaughtUp(s: Snapshot) {
    s.readOffset >= s.journalSize && s.lagSeq == 0 && !s.incompleteStuck
  }

  predicate IsSeqCaughtUpTrailingByteLag(s: Snapshot) {
    !s.incompleteStuck && s.readOffset < s.journalSize && s.nextSeq > s.latestSeq
  }

  /** The guard of `force_tail_resync_if_unread`. */
  predicate ForcesResync(s: Snapshot) {
    !IsEofCaughtUp(s) && !IsSeqCaughtUpTrailingByteLag(s)
  }

  /** The tip lies below the next seq, as it does whenever nothing is left to read. */
  predicate NothingAhead(nextSeq: int, diskLatest: int, tolerance: nat) {
    diskLatest < nextSeq && (nextSeq >= 1 || diskLatest < 0 - tolerance)
  }

  /**
   The two classifiers, in terms of what the snapshot is computed from. Neither holds of a reader with a stuck tip or
   with a seq to come; otherwise the one or the other holds, as the cursor is at the end of the file or not.
   */
  lemma ClassifiersTell(readOffset: nat, journalSize: nat, nextSeq: int, diskLatest: int, stuck: bool, tolerance: nat)
    ensures var s := ComputeSnapshot(readOffset, journalSize, nextSeq, diskLatest, stuck, tolerance);
      && (IsEofCaughtUp(s) <==> readOffset >= journalSize && !stuck && NothingAhead(nextSeq, diskLatest, tolerance))
      && (IsSeqCaughtUpTrailingByteLag(s) <==>
            readOffset < journalSize && !stuck && NothingAhead(nextSeq, diskLatest, tolerance))
  {
  }

  /** Lag and sticky-cursor flag of a reader at a seq from 1 on. */
  lemma LagTells(readOffset: nat, journalSize: nat, nextSeq: int, diskLatest: int, stuck: bool, tolerance: nat)
    requires nextSeq >= 1
    ensures var s := ComputeSnapshot(readOffset, journalSize, nextSeq, diskLatest, stuck, tolerance);
      && (diskLatest >= nextSeq ==> s.lagSeq == diskLatest - nextSeq + 1)
      && (diskLatest < nextSeq ==> s.lagSeq == if stuck then 1 else 0)
      && (s.cursorAheadOfTip <==> nextSeq - 1 > diskLatest + tolerance)
  {
  }

  /** The two early returns together let a resync through exactly when the snapshot reports lag. */
  lemma ResyncIffLag(readOffset: nat, journalSize: nat, nextSeq: int, diskLatest: int, stuck: bool, tolerance: nat)
    ensures var s := ComputeSnapshot(readOffset, journalSize, nextSeq, diskLatest, stuck, tolerance);
      ForcesResync(s) <==> s.lagSeq >= 1
  {
  }
}
