/** The states of a held call. */
module ApprovalState {
  datatype State = Pending | Approved | Denied | Expired | Executed | Failed

  /** How far along a state is: the copy only moves to a larger one. */
  function Rank(s: State): nat {
    match s
    case Pending => 0
    case Approved => 1
    case _ => 2
  }

  predicate Ended(s: State) {
    Rank(s) == 2
  }
}
