/** The status of a deployment and the transition graph it declares. */
module DeploymentStatus {

  datatype Status =
    | Queued | Preparing | Building | Starting | HealthCheck | Routing
    | Success | Failed | Cancelling | Cancelled

  predicate IsTerminal(s: Status) {
    s in {Success, Failed, Cancelled}
  }

  predicate IsActive(s: Status) {
    s in {Queued, Preparing, Building, Starting, HealthCheck, Routing, Cancelling}
  }

  /** Position in the pipeline; the terminal statuses share the last place. */
  function Rank(s: Status): nat {
    match s
    case Queued => 0
    case Preparing => 1
    case Building => 2
    case Starting => 3
    case HealthCheck => 4
    case Routing => 5
    case Cancelling => 6
    case Success => 7
    case Failed => 7
    case Cancelled => 7
  }

  function Allowed(from: Status): set<Status> {
    match from
    case Queued => {Preparing, Failed, Cancelled}
    case Preparing => {Building, Failed}
    case Building => {Starting, Failed}
    case Starting => {HealthCheck, Failed}
    case HealthCheck => {Routing, Failed}
    case Routing => {Success, Failed}
    case Cancelling => {Cancelled}
    case _ => {}
  }

  predicate ValidTransition(from: Status, to: Status) {
    || (to == Failed && !IsTerminal(from))
    || (to == Cancelling && IsActive(from))
    || to in Allowed(from)
  }

  const CHAIN := [Queued, Preparing, Building, Starting, HealthCheck, Routing, Success]

  /** The edges: one step along the chain, from any unfinished status to failed or cancelling, and from
      queued or cancelling to cancelled. */
  lemma TransitionIff(from: Status, to: Status)
    ensures ValidTransition(from, to) <==>
              || (from !in {Success, Failed, Cancelled} && to in {Failed, Cancelling})
              || (from in {Queued, Cancelling} && to == Cancelled)
              || exists i :: 0 <= i < 6 && CHAIN[i] == from && CHAIN[i + 1] == to
    ensures IsTerminal(from) <==> from in {Success, Failed, Cancelled}
  {
    assert CHAIN[0] == Queued && CHAIN[1] == Preparing && CHAIN[2] == Building && CHAIN[3] == Starting;
    assert CHAIN[4] == HealthCheck && CHAIN[5] == Routing && CHAIN[6] == Success;
  }

  /** Every status is active or terminal, never both; the graph climbs in rank except where an active
      status is told again that it is being cancelled, and no edge leaves a terminal status. */
  lemma GraphClimbs(from: Status, to: Status)
    ensures IsActive(from) <==> !IsTerminal(from)
    ensures ValidTransition(from, to) ==> IsActive(from) && (Rank(from) < Rank(to) || from == to == Cancelling)
  {
  }
}
