/** Payment records and the status table of payment.controller.ts. */
module Payments {
  import opened Prelude

  datatype Status = Created | Approved | Completed | Cancelled | Failed

  /** ALLOWED_TRANSITIONS; a status without an entry allows nothing. */
  function AllowedTransitions(from: Status): set<Status> {
    match from
    case Created => {Approved, Cancelled, Failed}
    case Approved => {Completed, Cancelled, Failed}
    case _ => {}
  }

  predicate IsTransitionAllowed(from: Status, to: Status) {
    to in AllowedTransitions(from)
  }

  predicate Terminal(status: Status) {
    status.Completed? || status.Cancelled? || status.Failed?
  }

  datatype Payment = Payment(
    userId: string,
    amount: int,
    currency: string,
    isPi: bool,
    piId: Option<string>,
    status: Status,
    createdAt: int,
    approvedAt: Option<int>,
    deleted: bool)

  /** The table is exactly "leave a live status for a different one that is not Created, and complete only from Approved". */
  lemma TableShape(from: Status, to: Status)
    ensures IsTransitionAllowed(from, to) <==>
              !Terminal(from) && to != from && to != Created && (to == Completed ==> from == Approved)
  {
  }
}
