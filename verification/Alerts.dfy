/** What a detector reports. The free-text evidence is not part of the model. */
module Alerts {
  datatype Alert = Alert(
    detectorName: string, score: real, instrumentId: string, accountIds: seq<string>, orderIds: seq<string>,
    windowStartNs: int, windowEndNs: int, bookSnapshotSequence: nat)
}
