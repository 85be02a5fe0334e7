/** Shipment statuses and the table of generic lifecycle transitions. */
module Assurance {
  datatype ShipmentStatus =
    | Draft | DocumentsRequired | ReadyForAssessment | Assessing | ReviewRequired | Hold
    | ReleasePendingApproval | ReleaseAuthorized | ReleaseInvalidated | Dispatched | Closed

  function Transitions(current: ShipmentStatus): set<ShipmentStatus> {
    match current
    case Draft => {DocumentsRequired}
    case DocumentsRequired => {ReadyForAssessment, Assessing}
    case ReadyForAssessment => {Assessing}
    case Assessing => {ReviewRequired, Hold}
    case ReviewRequired => {Assessing, Hold}
    case Hold => {ReviewRequired, Assessing}
    case ReleasePendingApproval => {ReleaseInvalidated}
    case ReleaseAuthorized => {Dispatched, ReleaseInvalidated}
    case ReleaseInvalidated => {ReviewRequired, Hold}
    case Dispatched => {Closed}
    case Closed => {}
  }

  predicate CanTransition(current: ShipmentStatus, target: ShipmentStatus) {
    target in Transitions(current)
  }

  /** The table read by its targets. */
  function EnteredFrom(target: ShipmentStatus): set<ShipmentStatus> {
    match target
    case DocumentsRequired => {Draft}
    case ReadyForAssessment => {DocumentsRequired}
    case Assessing => {DocumentsRequired, ReadyForAssessment, ReviewRequired, Hold}
    case ReviewRequired => {Assessing, Hold, ReleaseInvalidated}
    case Hold => {Assessing, ReviewRequired, ReleaseInvalidated}
    case ReleaseInvalidated => {ReleasePendingApproval, ReleaseAuthorized}
    case Dispatched => {ReleaseAuthorized}
    case Closed => {Dispatched}
    case Draft | ReleasePendingApproval | ReleaseAuthorized => {}
  }

  lemma EnteredFromTable(current: ShipmentStatus, target: ShipmentStatus)
    ensures CanTransition(current, target) <==> current in EnteredFrom(target)
  {
    match target case _ =>
  }

  predicate Chain(path: seq<ShipmentStatus>) {
    |path| > 0 && forall i :: 0 <= i < |path| - 1 ==> CanTransition(path[i], path[i + 1])
  }

  /**
   * Table transitions alone never enter the pending or the authorized status, and a chain that
   * starts outside the release statuses never dispatches or closes the shipment.
   */
  lemma {:induction false} NoChainEntersRelease(path: seq<ShipmentStatus>)
    requires Chain(path)
    ensures forall k :: 0 < k < |path| ==> path[k] != ReleasePendingApproval && path[k] != ReleaseAuthorized
    ensures path[0] !in {ReleaseAuthorized, Dispatched, Closed} ==>
              forall k :: 0 <= k < |path| ==> path[k] != Dispatched && path[k] != Closed
  {
    if |path| > 1 {
      var last := |path| - 1;
      assert CanTransition(path[last - 1], path[last]);
      NoChainEntersRelease(path[..last]);
      assert forall k :: 0 <= k < last ==> path[..last][k] == path[k];
    }
  }
}
