/** The vocabulary of both tables: statuses, the transition table and the progress values. */
module Models {

  datatype Option<+T> = None | Some(value: T)
  {
    function GetOr(default: T): T {
      match this
      case Some(v) => v
      case None => default
    }
  }

  type TaskId = string
  type Time = nat

  /** The dispatch path writes a constant run id when the submit itself failed; every other
      run id is handed out by the upstream runtime. */
  datatype RunId = SubmitFailed | Upstream(name: string)

  datatype Executor = Hermes | OtherExecutor(name: string)

  /** One vocabulary for `tasks.status` and `executor_runs.status`. `Started` and `Other` occur
      on runs only: a run row keeps whatever word the executor reported. */
  datatype Status =
    | Pending | Queued | Started | Running | Waiting | IncompleteDelivery
    | Completed | Failed | Cancelled | Timeout
    | Other(word: string)

  predicate IsTerminal(s: Status) {
    s.Completed? || s.Failed? || s.Cancelled? || s.Timeout?
  }

  /** LEGAL_TRANSITIONS. */
  function Successors(s: Status): set<Status> {
    match s
    case Pending => {Queued, Running, Cancelled, Failed, Timeout}
    case Queued => {Running, Cancelled, Failed, Timeout}
    case Running => {Waiting, Completed, Failed, Cancelled, Timeout, IncompleteDelivery}
    case Waiting => {Running, Cancelled, Failed, Timeout}
    case IncompleteDelivery => {Running, Completed, Failed, Cancelled, Timeout}
    case Completed => {}
    case Failed => {Queued}
    case Cancelled => {}
    case Timeout => {Queued}
    case _ => {}
  }

  predicate IsLegal(from: Status, to: Status) {
    to in Successors(from)
  }

  /** The table read backwards: who may enter each status. Terminal statuses other than completed
      can be entered from any open task; only a failure or a timeout leads back into the queue. */
  lemma WhoMayEnter(from: Status, to: Status)
    ensures IsLegal(from, to) ==> from != to && to != Pending
    ensures IsLegal(from, Queued) <==> from in {Pending, Failed, Timeout}
    ensures IsLegal(from, Running) <==> from in {Pending, Queued, Waiting, IncompleteDelivery}
    ensures IsLegal(from, Completed) <==> from in {Running, IncompleteDelivery}
    ensures to in {Failed, Cancelled, Timeout} ==>
      (IsLegal(from, to) <==> from in {Pending, Queued, Running, Waiting, IncompleteDelivery})
    ensures IsLegal(from, Waiting) <==> from == Running
    ensures IsLegal(from, IncompleteDelivery) <==> from == Running
    ensures !IsLegal(from, Started)
    ensures IsTerminal(from) <==> from in {Completed, Failed, Cancelled, Timeout}
    ensures IsTerminal(from) && IsLegal(from, to) ==> to == Queued && from in {Failed, Timeout}
  {
  }

  /** LEGAL_PROGRESS_PCTS. */
  predicate IsLegalProgress(pct: int) {
    pct in {0, 5, 10, 25, 40, 60, 80, 95, 100}
  }
}
