/** Both tables together and every atomic step of the bridge between two awaits. */
module Lifecycle {
  import opened Models
  import opened Tasks
  import opened Runs
  import opened Claims
  import Text

  datatype Tables = Tables(tasks: map<TaskId, Task>, runs: Table)

  predicate Carrier(tasks: map<TaskId, Task>, t: TaskId, r: RunId) {
    t in tasks && tasks[t].Carries(r)
  }

  /** `r` is a row the fallback query of lifecycle sync may return for task `t`: the newest row
      linked to it, ties open. */
  predicate NewestLinked(runs: Table, t: TaskId, r: RunId) {
    && r in runs && runs[r].task == Some(t)
    && forall q | q in runs && runs[q].task == Some(t) :: runs[q].created <= runs[r].created
  }

  /** The run row lifecycle sync writes for task `t`. A `pick` the query could not return stands
      for a query without an answer. */
  function SyncTarget(d: Tables, t: TaskId, pick: RunId): Option<RunId>
    requires t in d.tasks
  {
    if d.tasks[t].RunKey().Some? then d.tasks[t].RunKey()
    else if NewestLinked(d.runs, t, pick) then Some(pick)
    else None
  }

  function PutRun(d: Tables, r: RunId, w: Write, now: Time): Tables {
    d.(runs := Upsert(d.runs, r, w, now))
  }

  /** `_sync_executor_runs_status`: mirrors the status and resets every evidence column. */
  function Sync(d: Tables, t: TaskId, e: Env): Tables
    requires t in d.tasks
  {
    match SyncTarget(d, t, e.pick)
    case None => d
    case Some(r) =>
      var k := d.tasks[t];
      PutRun(d, r, Write(k.adapter, Some(t), k.status, None, NO_EVIDENCE), e.now)
  }

  /** A manager operation on one task; a settled one is mirrored into the run table. */
  function Post(d: Tables, t: TaskId, reply: Reply, e: Env): Tables {
    var d1 := d.(tasks := d.tasks[t := reply.task]);
    if reply.outcome == Settled then Sync(d1, t, e) else d1
  }

  // ---- dispatch ---------------------------------------------------------------------------

  /** Which endpoint submitted: `POST /runs`, the Hermes branch of `POST /runs/executor`, or
      the rerun of an old task. */
  datatype Route = PostRuns(adapter: Executor) | PostExecutor | Rerun

  /** What follows a successful submit, up to the next await. A refused start is swallowed by the
      first two routes, which persist the run row all the same. */
  function Dispatch(d: Tables, t: TaskId, r: RunId, route: Route, reported: Status, e: Env): Tables
    requires t in d.tasks
  {
    var (started, outcome) := Start(d.tasks[t], r);
    match route
    case PostRuns(adapter) =>
      var stamped := started.(external := Some(r), adapter := adapter);
      PutRun(d.(tasks := d.tasks[t := stamped]), r,
          Write(Hermes, Some(t), Running, Some(e.now), NO_EVIDENCE), e.now)
    case PostExecutor =>
      PutRun(d.(tasks := d.tasks[t := started]), r,
          Write(Hermes, Some(t), reported, Some(e.now), NO_EVIDENCE), e.now)
    case Rerun =>
      if outcome == Refused then d
      else d.(tasks := d.tasks[t := started.(external := Some(r))])
  }

  /** The row of a failed submit. */
  function PutFailed(d: Tables, task: Option<TaskId>, e: Env): Tables {
    PutRun(d, SubmitFailed, Write(Hermes, task, Failed, Some(e.now), NO_EVIDENCE), e.now)
  }

  /** The executor endpoint when the submit for a task raised: a row under the constant id and a
      forced `failed`. Without a task there is only the row. */
  function SubmitRaised(d: Tables, t: TaskId, e: Env): Tables
    requires t in d.tasks
  {
    var d1 := PutFailed(d, Some(t), e);
    Post(d1, t, ForceReconcile(d.tasks[t], None, Failed, e, e.net), e)
  }

  // ---- reconciliation ---------------------------------------------------------------------

  /** An upstream poll: the run is unknown, the call failed, still in flight, or ended. */
  datatype Poll = Vanished | Transient | Alive | Ended(word: string, output: string)

  /** The translation of an upstream word, taken in lower case. */
  function VerdictOf(word: string): Status {
    if word == "" || word == "completed" || word == "succeeded" || word == "success" then Completed
    else if word == "failed" then Failed
    else if word == "timeout" then Timeout
    else if word == "cancelled" then Cancelled
    else Failed
  }

  /** Only Hermes rows in flight are polled. */
  predicate Pollable(row: Run) {
    row.executor == Hermes && !IsTerminal(row.status)
  }

  function OutputText(stdout: string): Option<string> {
    if stdout == "" then None else Some(stdout)
  }

  /** The manager call that mirrors a run's verdict into its task. */
  function Mirror(k: Task, verdict: Status, stdout: string, e: Env): Reply {
    if verdict == Completed then Complete(k, Call(OutputText(stdout), false), e, 0)
    else Close(k, Failed, e, 0)
  }

  function Coarse(verdict: Status): Status {
    if verdict == Completed then Completed else Failed
  }

  /** `_persist_terminal_reconciliation` from a row read before the await: the run row first, then
      the task, by force when the manager raises. */
  function Persist(d: Tables, r: RunId, seen: Run, verdict: Status, text: Option<string>, e: Env): Tables {
    var stdout := text.GetOr(seen.evidence.stdout);
    var w := Write(seen.executor, seen.task, verdict, Some(e.now), seen.evidence.(stdout := stdout));
    var d1 := PutRun(d, r, w, e.now);
    if seen.task.None? || seen.task.value !in d1.tasks then d1
    else
      var t := seen.task.value;
      var reply := Mirror(d1.tasks[t], verdict, stdout, e);
      var d2 := Post(d1, t, reply, e);
      if reply.outcome == Settled then d2
      else Post(d2, t, ForceReconcile(d2.tasks[t], Some(r), Coarse(verdict), e, e.again), e)
  }

  /** The rest of `_reconcile_hermes_run_once` once the poll answered. Only the background
      watcher stamps a heartbeat. */
  function Answered(d: Tables, r: RunId, seen: Run, p: Poll, stamp: bool, e: Env): Tables {
    match p
    case Transient => d
    case Alive => if stamp then d.(runs := Heartbeat(d.runs, r, e.now)) else d
    case Vanished => Persist(d, r, seen, Timeout, None, e)
    case Ended(word, output) => Persist(d, r, seen, VerdictOf(word), Some(Text.Truncated(output)), e)
  }

  // ---- the machine ------------------------------------------------------------------------

  /** A run row as some reader saw it, and a job as some worker found it. */
  datatype Snap = Snap(id: RunId, row: Run)
  datatype Ticket = Ticket(task: TaskId, worker: string, caps: seq<string>)

  /** Both tables, every snapshot taken and every job found so far, and the claims won, oldest
      first. */
  datatype Machine = Machine(db: Tables, polls: set<Snap>, tickets: set<Ticket>, won: seq<Ticket>)

  const START := Machine(Tables(map[], map[]), {}, {}, [])

  datatype Action =
    | Create(t: TaskId, spec: Spec, adapter: Executor, rescues: Option<int>, queued: bool)
    | Requeue(t: TaskId)
    | Submitted(t: TaskId, r: RunId, route: Route, reported: Status, e: Env)
    | SubmittedUnlinked(r: RunId, executor: Executor, reported: Status, e: Env)
    | SubmitRejected(t: TaskId, e: Env)
    | SubmitRejectedUnlinked(e: Env)
    | Report(t: TaskId, pct: int)
    | Finished(t: TaskId, c: Call, e: Env)
    | Closed(t: TaskId, to: Status, e: Env)
    | Forced(t: TaskId, run: Option<RunId>, verdict: Status, e: Env)
    | Read(r: RunId)
    | PollAnswered(seen: Snap, p: Poll, stamp: bool, e: Env)
    | Beaten(r: RunId, e: Env)
    | Cleaned(maxAge: int, e: Env)
    | Found(worker: string, workerType: Executor, caps: seq<string>, rows: seq<TaskId>)
    | Claimed(ticket: Ticket, token: string)

  /** Upstream hands out run ids nobody has seen. */
  predicate FreshRun(d: Tables, r: RunId) {
    r != SubmitFailed && r !in d.runs && forall t | t in d.tasks :: !Carrier(d.tasks, t, r)
  }

  /** A caller may force a task onto a run only if the run is its own. */
  predicate OwnRun(d: Tables, t: TaskId, run: Option<RunId>) {
    run.Some? ==> run.value != SubmitFailed && run.value in d.runs && d.runs[run.value].task == Some(t)
  }

  function StepTables(d: Tables, polls: set<Snap>, a: Action): Tables {
    match a
    case Create(t, spec, adapter, rescues, queued) =>
      if t in d.tasks then d
      else d.(tasks := d.tasks[t := Fresh(spec.(maxRescues := ClampRescues(rescues)), adapter, queued)])
    case Requeue(t) =>
      if t in d.tasks then d.(tasks := d.tasks[t := Queue(d.tasks[t]).0]) else d
    case Submitted(t, r, route, reported, e) =>
      if t in d.tasks && FreshRun(d, r) then Dispatch(d, t, r, route, reported, e) else d
    case SubmittedUnlinked(r, executor, reported, e) =>
      if FreshRun(d, r)
      then PutRun(d, r, Write(executor, None, reported, Some(e.now), NO_EVIDENCE), e.now) else d
    case SubmitRejected(t, e) => if t in d.tasks then SubmitRaised(d, t, e) else d
    case SubmitRejectedUnlinked(e) => PutFailed(d, None, e)
    case Report(t, pct) =>
      if t in d.tasks then d.(tasks := d.tasks[t := Progress(d.tasks[t], pct).0]) else d
    case Finished(t, c, e) =>
      if t in d.tasks then Post(d, t, Complete(d.tasks[t], c, e, 0), e) else d
    case Closed(t, to, e) =>
      if t in d.tasks && (to.Failed? || to.Timeout? || to.Cancelled?)
      then Post(d, t, Close(d.tasks[t], to, e, 0), e) else d
    case Forced(t, run, verdict, e) =>
      if t in d.tasks && OwnRun(d, t, run)
      then Post(d, t, ForceReconcile(d.tasks[t], run, verdict, e, e.net), e) else d
    case PollAnswered(seen, p, stamp, e) =>
      if seen in polls then Answered(d, seen.id, seen.row, p, stamp, e) else d
    case Beaten(r, e) => d.(runs := Heartbeat(d.runs, r, e.now))
    case Cleaned(maxAge, e) => d.(runs := Sweep(d.runs, maxAge, e.now))
    case Claimed(ticket, token) =>
      if ticket.task in d.tasks
      then d.(tasks := d.tasks[ticket.task := Claim(d.tasks[ticket.task], ticket.worker, token).0])
      else d
    case _ => d
  }

  /** The ticket a search hands out, when the rows are a window the query may return. */
  function FoundTicket(d: Tables, a: Action): Option<Ticket>
    requires a.Found?
  {
    if IsWindow(d.tasks, a.workerType, a.rows) then
      match Pick(d.tasks, a.rows, a.caps)
      case Some(t) => Some(Ticket(t, a.worker, a.caps))
      case None => None
    else None
  }

  predicate Wins(m: Machine, a: Action) {
    && a.Claimed? && a.ticket in m.tickets && a.ticket.task in m.db.tasks
    && Claim(m.db.tasks[a.ticket.task], a.ticket.worker, a.token).1 == Settled
  }

  function Step(m: Machine, a: Action): Machine {
    match a
    case Read(r) =>
      if r in m.db.runs && Pollable(m.db.runs[r])
      then m.(polls := m.polls + {Snap(r, m.db.runs[r])}) else m
    case Found(_, _, _, _) =>
      match FoundTicket(m.db, a) {
        case Some(ticket) => m.(tickets := m.tickets + {ticket})
        case None => m
      }
    case Claimed(ticket, token) =>
      if ticket in m.tickets
      then m.(db := StepTables(m.db, m.polls, a), won := if Wins(m, a) then m.won + [ticket] else m.won)
      else m
    case _ => m.(db := StepTables(m.db, m.polls, a))
  }

  function Execute(actions: seq<Action>): Machine {
    if actions == [] then START
    else Step(Execute(actions[..|actions| - 1]), actions[|actions| - 1])
  }

  lemma ExecuteOne(actions: seq<Action>, a: Action)
    ensures Execute(actions + [a]) == Step(Execute(actions), a)
  {
    assert (actions + [a])[..|actions|] == actions;
  }
}
