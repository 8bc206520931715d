/** The files of one checkpoint directory, shared by every process that opens the journal. */
module JournalDisk {
  import opened Bytes

  datatype IndexEntry = IndexEntry(seqNo: int, offset: nat)

  /** Stored trade ids by symbol; no two symbols differ only in case. */
  type SeenIds = m: map<Bytes, seq<Bytes>> | forall a, b :: a in m && b in m && Upper(a) == Upper(b) ==> a == b

  datatype MetaDoc = MetaDoc(latest: int, seen: SeenIds, index: seq<IndexEntry>)

  /** `Corrupt` is a meta file that exists but is not a JSON object. */
  datatype MetaFile = Missing | Corrupt | Stored(doc: MetaDoc)

  datatype QuarantineReason =
    | InvalidRecord
    | IncompleteStale
    | IncompletePoison
    | IncompleteColdAttach
    | CompactSkip

  datatype QuarantineEntry = QuarantineEntry(text: Bytes, reason: QuarantineReason)

  /** `cursor` is 0 while no cursor file exists. */
  class Disk {
    var journal: Option<Bytes>
    var meta: MetaFile
    var cursor: nat
    var quarantine: seq<QuarantineEntry>

    constructor ()
      ensures journal == None && meta == Missing && cursor == 0 && quarantine == []
    {
      journal, meta, cursor, quarantine := None, Missing, 0, [];
    }
  }
}
