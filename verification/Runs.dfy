/** The `executor_runs` table: what each write makes of it. The class in RunStore.dfy is proved
    against these functions. */
module Runs {
  import opened Models
  import opened Notification

  /** The evidence columns of a run row. */
  datatype Evidence = Evidence(stdout: string, artifacts: seq<string>, checks: seq<string>,
                               git: Option<string>, telegram: Answer)

  const NO_EVIDENCE := Evidence("", [], [], None, Answer(false, None))

  datatype Run = Run(executor: Executor, task: Option<TaskId>, status: Status,
                     created: Time, updated: Time, completed: Option<Time>, beat: Option<Time>,
                     evidence: Evidence)

  type Table = map<RunId, Run>

  /** The columns an `upsert_run` caller supplies. */
  datatype Write = Write(executor: Executor, task: Option<TaskId>, status: Status,
                         beat: Option<Time>, evidence: Evidence)

  function Lookup(runs: Table, r: RunId): Option<Run> {
    if r in runs then Some(runs[r]) else None
  }

  /** `upsert_run`: every column is replaced except the creation time and a completion time
      already stamped. */
  function Upserted(prior: Option<Run>, w: Write, now: Time): Run {
    var created := if prior.Some? then prior.value.created else now;
    var kept := if prior.Some? then prior.value.completed else None;
    var completed := if IsTerminal(w.status) then Some(kept.GetOr(now)) else kept;
    Run(w.executor, w.task, w.status, created, now, completed, w.beat, w.evidence)
  }

  function Upsert(runs: Table, r: RunId, w: Write, now: Time): Table {
    runs[r := Upserted(Lookup(runs, r), w, now)]
  }

  /** `update_heartbeat`: missing and terminal rows are skipped. */
  function Heartbeat(runs: Table, r: RunId, now: Time): Table {
    if r !in runs || IsTerminal(runs[r].status) then runs
    else runs[r := runs[r].(beat := Some(now), updated := now)]
  }

  /** A row no lifecycle path will ever finish: in flight and linked to no task. */
  predicate Orphan(row: Run) {
    row.task.None? && (row.status.Running? || row.status.Queued? || row.status.Started?)
  }

  predicate Aged(row: Run, maxAge: int, now: Time) {
    now - row.created >= maxAge
  }

  function Swept(row: Run, maxAge: int, now: Time): Run {
    if Orphan(row) && Aged(row, maxAge, now)
    then row.(status := Cancelled, completed := Some(row.created), updated := now)
    else row
  }

  /** `reconcile_stale_runs`. */
  function Sweep(runs: Table, maxAge: int, now: Time): Table {
    map r | r in runs :: Swept(runs[r], maxAge, now)
  }

  predicate InFlight(row: Run) {
    row.status.Queued? || row.status.Started? || row.status.Running?
  }

  // ---- timestamps over any history of writes ----------------------------------------------

  datatype Op =
    | Put(r: RunId, w: Write)
    | Beat(r: RunId)
    | Clean(maxAge: int)

  function Apply(runs: Table, op: Op, now: Time): Table {
    match op
    case Put(r, w) => Upsert(runs, r, w, now)
    case Beat(r) => Heartbeat(runs, r, now)
    case Clean(maxAge) => Sweep(runs, maxAge, now)
  }

  /** The table after a history of writes, each with its own clock reading. */
  function After(runs: Table, ops: seq<Op>, clock: seq<Time>): Table
    requires |ops| == |clock|
  {
    if ops == [] then runs
    else Apply(After(runs, ops[..|ops| - 1], clock[..|ops| - 1]), ops[|ops| - 1], clock[|ops| - 1])
  }

  ghost predicate Monotone(clock: seq<Time>) {
    forall i, j | 0 <= i <= j < |clock| :: clock[i] <= clock[j]
  }

  /** created <= completed <= updated, and a terminal row has a completion time. */
  predicate Timely(row: Run, now: Time) {
    && row.created <= row.updated <= now
    && (row.completed.Some? ==> row.created <= row.completed.value <= row.updated)
    && (IsTerminal(row.status) ==> row.completed.Some?)
  }

  ghost predicate AllTimely(runs: Table, now: Time) {
    forall r | r in runs :: Timely(runs[r], now)
  }

  lemma ApplyIsTimely(runs: Table, op: Op, before: Time, now: Time)
    requires AllTimely(runs, before) && before <= now
    ensures AllTimely(Apply(runs, op, now), now)
  {
    assert forall r | r in runs :: Timely(runs[r], before);
  }

  lemma {:induction false} TimestampsAreOrdered(ops: seq<Op>, clock: seq<Time>)
    requires |ops| == |clock| && Monotone(clock)
    ensures AllTimely(After(map[], ops, clock), if clock == [] then 0 else clock[|clock| - 1])
    decreases |ops|
  {
    if ops != [] {
      var n := |ops| - 1;
      TimestampsAreOrdered(ops[..n], clock[..n]);
      var before := if n == 0 then 0 else clock[n - 1];
      ApplyIsTimely(After(map[], ops[..n], clock[..n]), ops[n], before, clock[n]);
    }
  }

  /** Rows are never deleted and keep their creation time whatever is written; without a sweep a
      completion time, once stamped, is never rewritten. */
  lemma {:induction false} StampsAreKept(runs: Table, ops: seq<Op>, clock: seq<Time>, r: RunId)
    requires |ops| == |clock| && r in runs
    ensures r in After(runs, ops, clock)
    ensures After(runs, ops, clock)[r].created == runs[r].created
    ensures (forall i | 0 <= i < |ops| :: !ops[i].Clean?) && runs[r].completed.Some?
      ==> After(runs, ops, clock)[r].completed == runs[r].completed
    decreases |ops|
  {
    if ops != [] {
      var n := |ops| - 1;
      StampsAreKept(runs, ops[..n], clock[..n], r);
      assert forall i | 0 <= i < n :: ops[..n][i] == ops[i];
    }
  }

  /** A sweep touches exactly the aged task-less rows in flight, and repeating it at the same
      instant changes nothing. */
  lemma SweepIsExactAndIdempotent(runs: Table, maxAge: int, now: Time)
    ensures var swept := Sweep(runs, maxAge, now);
      && swept.Keys == runs.Keys
      && (forall r | r in runs && !(Orphan(runs[r]) && Aged(runs[r], maxAge, now)) :: swept[r] == runs[r])
      && (forall r | r in runs && Orphan(runs[r]) && Aged(runs[r], maxAge, now) ::
            swept[r] != runs[r] && swept[r].status == Cancelled)
      && Sweep(swept, maxAge, now) == swept
  {
    var swept := Sweep(runs, maxAge, now);
    forall r | r in runs ensures Swept(swept[r], maxAge, now) == swept[r] {
    }
  }

  // ---- single writes, column by column ------------------------------------------------------

  /** What an upsert leaves: the columns given; the creation time of the row there was, or now; its
      completion time, or now with the first terminal status; and now as the time of the update. */
  lemma UpsertedRow(runs: Table, r: RunId, w: Write, now: Time)
    ensures var d' := Upsert(runs, r, w, now);
      && d'.Keys == runs.Keys + {r} && (forall q | q in runs && q != r :: d'[q] == runs[q])
      && var row := d'[r];
      && row.executor == w.executor && row.task == w.task && row.status == w.status
      && row.beat == w.beat && row.evidence == w.evidence && row.updated == now
      && row.created == (if r in runs then runs[r].created else now)
      && (r in runs && runs[r].completed.Some? ==> row.completed == runs[r].completed)
      && (r !in runs || runs[r].completed.None? ==>
            row.completed == if w.status in {Completed, Failed, Cancelled, Timeout} then Some(now) else None)
  {
  }

  /** What a heartbeat leaves: an open row with the time of the beat, any other as it was. */
  lemma BeatenRow(runs: Table, r: RunId, now: Time)
    ensures var d' := Heartbeat(runs, r, now);
      && d'.Keys == runs.Keys && (forall q | q in runs && q != r :: d'[q] == runs[q])
      && (r in runs ==>
            d'[r] == if runs[r].status in {Completed, Failed, Cancelled, Timeout} then runs[r]
                     else runs[r].(beat := Some(now), updated := now))
  {
  }

  /** Over any upserts and heartbeats: a row without a completion time gets, with its first terminal
      write, exactly that write's clock reading. */
  lemma FirstTerminalWriteStamps(runs: Table, ops: seq<Op>, clock: seq<Time>, r: RunId, w: Write, now: Time)
    requires |ops| == |clock| && r in After(runs, ops, clock) && After(runs, ops, clock)[r].completed.None?
    requires w.status in {Completed, Failed, Cancelled, Timeout}
    ensures After(runs, ops + [Put(r, w)], clock + [now])[r].completed == Some(now)
  {
    assert (ops + [Put(r, w)])[..|ops|] == ops && (clock + [now])[..|clock|] == clock;
  }

  /** A sweep in columns: rows running, queued or started, without a task and created `maxAge` ago or
      earlier are cancelled, completed at their creation time and updated now. */
  lemma SweptRows(runs: Table, maxAge: int, now: Time)
    ensures var d' := Sweep(runs, maxAge, now);
      && d'.Keys == runs.Keys
      && forall r | r in runs ::
           d'[r] == if runs[r].status in {Running, Queued, Started} && runs[r].task == None
                       && now - runs[r].created >= maxAge
                    then runs[r].(status := Cancelled, completed := Some(runs[r].created), updated := now)
                    else runs[r]
  {
  }
}
