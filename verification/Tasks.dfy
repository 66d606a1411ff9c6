/** One task: its `tasks` row joined with its `task_outputs` row, and what each manager
    operation makes of it. The operations are functions of the row and of what the outside
    world answered; the classes in Manager.dfy and Bridge.dfy are proved against them. */
module Tasks {
  import opened Models
  import opened Notification

  /** Columns written once, at creation. */
  datatype Spec = Spec(declared: seq<string>, maxRescues: nat, priority: int, createdAt: Time,
                       required: seq<string>, cleared: bool)

  /** Why a status was written: an edge of the transition table, the blocking gate's revert, or
      a forced reconcile. */
  datatype How = Edge | Revert | Force

  /** Every status ever written to a task, newest outermost. */
  datatype Trail = Born(status: Status) | Moved(past: Trail, to: Status, how: How)

  function Latest(t: Trail): Status {
    match t
    case Born(s) => s
    case Moved(_, s, _) => s
  }

  /** History variables: no operation reads them. `trail` holds every status written,
      `confirmed` counts confirmed deliveries, `requeues` the moves from failed or timeout back
      to queued and `claims` the successful claims. */
  datatype Audit = Audit(trail: Trail, confirmed: nat, requeues: nat, claims: nat)

  /** The `task_outputs` row; an absent row reads as one whose columns are all NULL.
      `evidence` says whether `delivery_json` is set. */
  datatype Output = Output(text: Option<string>, evidence: bool, blob: Option<Blob>)

  datatype Task = Task(
    spec: Spec,
    status: Status,
    pct: int,
    finishedAt: Option<Time>,
    hermes: Option<RunId>,
    external: Option<RunId>,
    adapter: Executor,
    rescues: nat,
    worker: Option<string>,
    token: Option<string>,
    out: Output,
    audit: Audit)
  {
    function To(s: Status, how: How): Task {
      this.(status := s, audit := audit.(trail := Moved(audit.trail, s, how)))
    }

    function Carries(r: RunId): bool {
      hermes == Some(r) || external == Some(r)
    }

    /** The run id lifecycle sync keys on. */
    function RunKey(): Option<RunId> {
      if hermes.Some? then hermes else external
    }
  }

  /** The i-th stat call of an execution on a path either finds it or not. */
  type Disk = (nat, string) -> bool

  /** Everything one atomic step may observe of the outside world. `pick` is the row SQLite
      returns for an ORDER BY whose key ties; `artifacts` says whether the best-effort delivery
      scan recorded anything. */
  datatype Env = Env(now: Time, net: Net, again: Net, pick: RunId, blocking: bool,
                     disk: Disk, artifacts: bool)

  datatype Outcome = Settled | Refused | Blocked

  datatype Reply = Reply(task: Task, outcome: Outcome, tick: nat)

  const DEFAULT_MAX_RESCUES: nat := 1
  const MAX_RESCUES_CAP: nat := 5

  /** `create` clamps the rescue budget to 0..5. */
  function ClampRescues(requested: Option<int>): nat {
    match requested
    case None => DEFAULT_MAX_RESCUES
    case Some(n) => if n < 0 then 0 else if n > MAX_RESCUES_CAP then MAX_RESCUES_CAP else n
  }

  function Fresh(spec: Spec, adapter: Executor, queued: bool): Task {
    var status := if queued then Queued else Pending;
    Task(spec, status, if queued then 5 else 0, None, None, None,
         adapter, 0, None, None, Output(None, false, None), Audit(Born(status), 0, 0, 0))
  }

  /** `_notify_terminal` on a row; `result.1` is whether the caller sees a confirmed delivery. */
  function Notify(k: Task, status: Status, net: Net): (result: (Task, bool)) {
    var g := NotifyGate(k.out.blob, status, net);
    (k.(out := k.out.(blob := g.blob),
        audit := k.audit.(confirmed := k.audit.confirmed + if g.delivered then 1 else 0)),
     g.confirmed)
  }

  /** `queue` through `_set_status`: staying put is a silent no-op. */
  function Queue(k: Task): (Task, Outcome) {
    if k.status == Queued then (k, Settled)
    else if !IsLegal(k.status, Queued) then (k, Refused)
    else
      var again := if IsTerminal(k.status) then 1 else 0;
      var moved := k.To(Queued, Edge);
      (moved.(audit := moved.audit.(requeues := k.audit.requeues + again)), Settled)
  }

  /** `start`: running to running is not in the table, so a second start is refused. */
  function Start(k: Task, r: RunId): (Task, Outcome) {
    if !IsLegal(k.status, Running) then (k, Refused)
    else (k.To(Running, Edge).(hermes := Some(r)), Settled)
  }

  /** `progress` checks the value and monotonicity, not the status. */
  function Progress(k: Task, pct: int): (Task, Outcome) {
    if !IsLegalProgress(pct) || pct < k.pct then (k, Refused)
    else (k.(pct := pct), Settled)
  }

  /** `fail`, `timeout` and `cancel`. */
  function Close(k: Task, to: Status, e: Env, tick: nat): Reply {
    if !IsLegal(k.status, to) then Reply(k, Refused, tick)
    else Reply(Notify(k.To(to, Edge).(finishedAt := Some(e.now)), to, e.net).0, Settled, tick)
  }

  /** Stat each path in turn, starting with the given tick. */
  function Missing(d: Disk, tick: nat, paths: seq<string>): (missing: seq<string>)
    decreases |paths|
  {
    if paths == [] then []
    else (if d(tick, paths[0]) then [] else [paths[0]]) + Missing(d, tick + 1, paths[1..])
  }

  /** What the caller of `complete` passes: the output text and whether usage or raw is given. */
  datatype Call = Call(text: Option<string>, extra: bool)

  /** The part of `complete` behind the gate. */
  function Finish(k: Task, c: Call, e: Env, tick: nat): Reply {
    var done := k.To(Completed, Edge).(pct := 100, finishedAt := Some(e.now));
    var stored :=
      if c.text.Some? || c.extra || e.artifacts
      then done.(out := done.out.(text := c.text, evidence := e.artifacts))
      else done;
    var (told, confirmed) := Notify(stored, Completed, e.net);
    if e.blocking && !confirmed
    then Reply(told.To(Running, Revert).(finishedAt := None, pct := 80), Blocked, tick)
    else Reply(told, Settled, tick)
  }

  /** How the artifact gate decides: whether it lets the task pass, the rescues spent and the
      tick after the last stat call. */
  datatype Verdict = Verdict(passed: bool, spent: nat, tick: nat)

  /** The gate with `left` rescues: a check of all declared paths; if some are missing, one rescue
      re-checks just those and either starts over or gives up. */
  function Inspect(d: Disk, tick: nat, declared: seq<string>, left: nat): Verdict
    decreases left
  {
    var missing := Missing(d, tick, declared);
    var checked := tick + |declared|;
    if missing == [] then Verdict(true, 0, checked)
    else if left == 0 then Verdict(false, 0, checked)
    else if Missing(d, checked, missing) != [] then Verdict(false, 1, checked + |missing|)
    else
      var v := Inspect(d, checked + |missing|, declared, left - 1);
      v.(spent := v.spent + 1)
  }

  /** The rescue detour: held, back to running, one rescue spent. */
  function Rescued(k: Task): Task {
    k.To(IncompleteDelivery, Edge).To(Running, Edge).(rescues := k.rescues + 1)
  }

  function Detours(k: Task, n: nat): Task
    decreases n
  {
    if n == 0 then k else Detours(Rescued(k), n - 1)
  }

  function RescuesLeft(k: Task): nat {
    if k.rescues < k.spec.maxRescues then k.spec.maxRescues - k.rescues else 0
  }

  /** `complete` with its rescues. A completion that took a rescue has lost the output text. */
  function Complete(k: Task, c: Call, e: Env, tick: nat): Reply {
    if !IsLegal(k.status, Completed) then Reply(k, Refused, tick)
    else
      var v := Inspect(e.disk, tick, k.spec.declared, RescuesLeft(k));
      var back := Detours(k, v.spent);
      if v.passed then Finish(back, if v.spent == 0 then c else Call(None, false), e, v.tick)
      else Close(back, Failed, e, v.tick)
  }

  /** `reconcile_executor_completion` bypasses the transition table. */
  function ForceReconcile(k: Task, run: Option<RunId>, verdict: Status, e: Env, net: Net): Reply {
    if !verdict.Completed? && !verdict.Failed? then Reply(k, Refused, 0) else
    var forced := k.To(verdict, Force).(
      pct := if verdict.Completed? then 100 else k.pct,
      finishedAt := Some(e.now),
      hermes := if run.Some? then run else k.hermes);
    if ShouldFire(k.out.blob, verdict)
    then Reply(Notify(forced, verdict, net).0, Settled, 0)
    else Reply(forced, Settled, 0)
  }

  /** `claim_job`: compare-and-set on status and worker. */
  function Claim(k: Task, worker: string, token: string): (Task, Outcome) {
    if k.status != Queued || k.worker.Some? then (k, Refused)
    else
      var moved := k.To(Running, Edge).(worker := Some(worker), token := Some(token));
      (moved.(audit := moved.audit.(claims := k.audit.claims + 1)), Settled)
  }
}
