/** Short runs of the machine that reach the states in which the code does not keep its word. */
module Reaching {
  import opened Models
  import opened Notification
  import opened Tasks
  import opened Runs
  import opened Claims
  import opened Lives
  import opened CompletionGate
  import opened Lifecycle
  import opened Safety
  import opened Polls
  import EvidenceMerge
  import Listing
  import Sequences
  import Text
  import TwoTables

  const JOB: TaskId := "TASK-1"
  const RUN: RunId := Upstream("run_1")

  const SILENT := Answer(false, None)
  const QUIET := Net(false, SILENT, false, SILENT)

  /** A world in which the gate is on, no transport ever confirms, and the disk is as given. */
  function World(disk: Disk): Env {
    Env(0, QUIET, QUIET, SubmitFailed, true, disk, false)
  }

  /** Everything is where it should be. */
  const FULL: Disk := (i: nat, p: string) => true

  /** Everything appears after the first stat call. */
  const LATE: Disk := (i: nat, p: string) => i > 0

  function SpecOf(declared: seq<string>): Spec {
    Spec(declared, 0, 50, 0, [], true)
  }

  function Newborn(declared: seq<string>): Task {
    Fresh(SpecOf(declared).(maxRescues := 1), Hermes, true)
  }

  // ---- a dispatched job, its run read by a poller ----------------------------------------------

  function Opening(declared: seq<string>): seq<Action> {
    [Create(JOB, SpecOf(declared), Hermes, Some(1), true),
     Submitted(JOB, RUN, PostRuns(Hermes), Running, World(FULL)),
     Read(RUN)]
  }

  const ROW := Run(Hermes, Some(JOB), Running, 0, 0, None, Some(0), NO_EVIDENCE)

  function Dispatched(declared: seq<string>): Task {
    Start(Newborn(declared), RUN).0.(external := Some(RUN), adapter := Hermes)
  }

  lemma CreatedJob(declared: seq<string>)
    ensures Step(START, Create(JOB, SpecOf(declared), Hermes, Some(1), true))
      == START.(db := Tables(map[JOB := Newborn(declared)], map[]))
  {
  }

  lemma DispatchedJob(declared: seq<string>)
    ensures var m := Execute(Opening(declared));
      m.db == Tables(map[JOB := Dispatched(declared)], map[RUN := ROW]) && Snap(RUN, ROW) in m.polls
  {
    hide Step;
    var a, b, c := Opening(declared)[0], Opening(declared)[1], Opening(declared)[2];
    ExecuteOne([], a);
    ExecuteOne([a], b);
    ExecuteOne([a, b], c);
    assert [] + [a] == [a] && [a] + [b] == [a, b] && [a, b] + [c] == Opening(declared);
    CreatedJob(declared);
    SubmittedJob(Execute([a]), declared);
    ReadJob(Execute([a, b]));
  }

  lemma SubmittedJob(m: Machine, declared: seq<string>)
    requires m.db == Tables(map[JOB := Newborn(declared)], map[])
    ensures Step(m, Submitted(JOB, RUN, PostRuns(Hermes), Running, World(FULL))).db
      == Tables(map[JOB := Dispatched(declared)], map[RUN := ROW])
  {
    assert FreshRun(m.db, RUN);
  }

  lemma ReadJob(m: Machine)
    requires RUN in m.db.runs && m.db.runs[RUN] == ROW
    ensures Step(m, Read(RUN)) == m.(polls := m.polls + {Snap(RUN, ROW)})
  {
  }

  function Answer4(disk: Disk): Action {
    PollAnswered(Snap(RUN, ROW), Ended("completed", "done"), true, World(disk))
  }

  lemma AnswerPersists(m: Machine, e: Env)
    requires Snap(RUN, ROW) in m.polls
    ensures Step(m, PollAnswered(Snap(RUN, ROW), Ended("completed", "done"), true, e)).db
      == Persist(m.db, RUN, ROW, Completed, Some("done"), e)
  {
    hide Persist;
  }

  lemma DispatchedFacts(declared: seq<string>)
    ensures var k := Dispatched(declared);
      && Sound(k) && k.status == Running && k.RunKey() == Some(RUN)
      && k.spec.declared == declared && RescuesLeft(k) == 1
      && k.out == Output(None, false, None) && k.audit.confirmed == 0
  {
  }

  /** Create, submit, read, answer: the gate is on, no transport confirms anything, and the task
      ends completed without a delivery. */
  lemma BypassIsReached()
    ensures var tasks := Execute(Opening([]) + [Answer4(FULL)]).db.tasks;
      && JOB in tasks && tasks[JOB].status == Completed
      && StageOf(tasks[JOB]) != FinalCompleted && tasks[JOB].audit.confirmed == 0
  {
    hide Step, Persist, Sound, Dispatched, Opening;
    DispatchedJob([]);
    DispatchedFacts([]);
    ExecuteOne(Opening([]), Answer4(FULL));
    var k := Dispatched([]);
    var e := World(FULL);
    assert Missing(FULL, 0, []) == [];
    assert WouldBlock(k, e);
    AnswerPersists(Execute(Opening([])), e);
    PollBypassesTheBlockingGate(Execute(Opening([])).db, RUN, ROW, Some("done"), e);
  }

  // ---- the output of a completion that took a rescue ---------------------------------------------

  const REPORT := ["report"]

  lemma LateReport(k: Task)
    requires k.spec.declared == REPORT && RescuesLeft(k) == 1 && k.status == Running
    ensures !EvidenceMerge.PassesAtOnce(k, World(LATE)) && NothingHolds(k, World(LATE))
  {
    assert REPORT[1..] == [];
    assert Missing(LATE, 0, REPORT) == REPORT;
    assert Missing(LATE, 1, REPORT) == [] && Missing(LATE, 2, REPORT) == [];
    assert Inspect(LATE, 0, REPORT, 1) == Verdict(true, 1, 3);
  }

  /** What the answer makes of the dispatched job. */
  lemma LateAnswer(d: Tables)
    requires d == Tables(map[JOB := Dispatched(REPORT)], map[RUN := ROW])
    ensures var d' := Persist(d, RUN, ROW, Completed, Some("done"), World(LATE));
      && JOB in d'.tasks && d'.tasks[JOB].status == Completed
      && RUN in d'.runs && d'.runs[RUN].status == Completed
      && EvidenceMerge.Shown(d', RUN, [], []).row.evidence.stdout == ""
  {
    hide Persist, Sound, Dispatched, NothingHolds, WillBeFinal, WillBeTold, MustForce;
    hide EvidenceMerge.PassesAtOnce, EvidenceMerge.Shown, EvidenceMerge.Erased, EvidenceMerge.KeptText;
    var k := Dispatched(REPORT);
    var e := World(LATE);
    DispatchedFacts(REPORT);
    LateReport(k);
    PollMeetsTheGateExactly(d, RUN, ROW, Some("done"), e);
    PersistSettles(d, RUN, ROW, Completed, Some("done"), e);
    assert !Text.Blank("done") by {
      assert !Text.IsSpace("done"[0]);
    }
    assert Text.Truncated("done") == "done";
    EvidenceMerge.PolledOutputIsShownExactly(d, RUN, ROW, "done", e, [], []);
  }

  /** Create, submit, read, answer, the declared file appearing between two stat calls: the task
      and the run end completed, and the output of the poll is nowhere to be seen. */
  lemma OutputIsLost()
    ensures var d := Execute(Opening(REPORT) + [Answer4(LATE)]).db;
      && JOB in d.tasks && d.tasks[JOB].status == Completed
      && RUN in d.runs && d.runs[RUN].status == Completed
      && EvidenceMerge.Shown(d, RUN, [], []).row.evidence.stdout == ""
  {
    hide Step, Persist, Dispatched, Opening, EvidenceMerge.Shown;
    DispatchedJob(REPORT);
    ExecuteOne(Opening(REPORT), Answer4(LATE));
    AnswerPersists(Execute(Opening(REPORT)), World(LATE));
    LateAnswer(Execute(Opening(REPORT)).db);
  }

  // ---- a start refused during the submit ---------------------------------------------------------

  function Overtaken(): seq<Action> {
    [Create(JOB, SpecOf([]), Hermes, Some(1), true),
     Closed(JOB, Cancelled, World(FULL)),
     Submitted(JOB, RUN, PostRuns(Hermes), Running, World(FULL))]
  }

  lemma CancelledJob(m: Machine)
    requires m.db == Tables(map[JOB := Newborn([])], map[])
    ensures Step(m, Closed(JOB, Cancelled, World(FULL))).db
      == Tables(map[JOB := Close(Newborn([]), Cancelled, World(FULL), 0).task], map[])
  {
    hide Close;
    ClosedUndispatched(m.db, Cancelled);
  }

  /** A job without a run has nothing to mirror. */
  lemma ClosedUndispatched(d: Tables, to: Status)
    requires JOB in d.tasks && d.runs == map[] && d.tasks[JOB].RunKey().None? && (to == Cancelled || to == Failed)
    ensures var reply := Close(d.tasks[JOB], to, World(FULL), 0);
      Post(d, JOB, reply, World(FULL)) == d.(tasks := d.tasks[JOB := reply.task])
  {
  }

  lemma LateSubmit(m: Machine, k: Task)
    requires m.db == Tables(map[JOB := k], map[]) && k.RunKey().None? && k.status == Cancelled
    ensures var d := Step(m, Submitted(JOB, RUN, PostRuns(Hermes), Running, World(FULL))).db;
      && JOB in d.tasks && d.tasks[JOB].status == Cancelled && d.tasks[JOB].external == Some(RUN)
      && RUN in d.runs && d.runs[RUN].status == Running && d.runs[RUN].task == Some(JOB)
  {
    assert FreshRun(m.db, RUN);
  }

  /** Create, cancel, submit: the run row shows a running job that its task shows cancelled. */
  lemma DivergenceIsReached()
    ensures var d := Execute(Overtaken()).db;
      && JOB in d.tasks && d.tasks[JOB].status == Cancelled && d.tasks[JOB].external == Some(RUN)
      && RUN in d.runs && d.runs[RUN].status == Running && d.runs[RUN].task == Some(JOB)
  {
    hide Step;
    var a, b, c := Overtaken()[0], Overtaken()[1], Overtaken()[2];
    ExecuteOne([], a);
    ExecuteOne([a], b);
    ExecuteOne([a, b], c);
    assert [] + [a] == [a] && [a] + [b] == [a, b] && [a, b] + [c] == Overtaken();
    CreatedJob([]);
    CancelledJob(Execute([a]));
    LateSubmit(Execute([a, b]), Close(Newborn([]), Cancelled, World(FULL), 0).task);
  }

  // ---- a job that no search offers again -----------------------------------------------------------

  const HAND := Ticket(JOB, "worker", [])

  function Abandoned(): seq<Action> {
    [Create(JOB, SpecOf([]), Hermes, Some(1), true),
     Found("worker", Hermes, [], [JOB]),
     Claimed(HAND, "token"),
     Closed(JOB, Failed, World(FULL)),
     Requeue(JOB)]
  }

  lemma FoundJob(m: Machine)
    requires m == START.(db := Tables(map[JOB := Newborn([])], map[]))
    ensures Step(m, Found("worker", Hermes, [], [JOB])) == m.(tickets := {HAND})
  {
    assert IsWindow(m.db.tasks, Hermes, [JOB]);
    assert Capabilities([]) == {};
    assert Pick(m.db.tasks, [JOB], []) == Some(JOB);
  }

  lemma ClaimedJob(m: Machine)
    requires m.db == Tables(map[JOB := Newborn([])], map[]) && m.tickets == {HAND} && m.won == []
    ensures var m' := Step(m, Claimed(HAND, "token"));
      && m'.db == Tables(map[JOB := Claim(Newborn([]), "worker", "token").0], map[])
      && m'.won == [HAND]
  {
  }

  lemma FailedJob(m: Machine, k: Task)
    requires m.db == Tables(map[JOB := k], map[]) && k.RunKey().None?
    ensures var m' := Step(m, Closed(JOB, Failed, World(FULL)));
      && m'.db == Tables(map[JOB := Close(k, Failed, World(FULL), 0).task], map[]) && m'.won == m.won
  {
    hide Close;
    ClosedUndispatched(m.db, Failed);
  }

  lemma RequeuedJob(m: Machine, k: Task)
    requires m.db == Tables(map[JOB := k], map[])
    ensures var m' := Step(m, Requeue(JOB));
      m'.db == Tables(map[JOB := Queue(k).0], map[]) && m'.won == m.won
  {
  }

  lemma NobodyFindsIt(d: Tables, k: Task, a: Action)
    requires d.tasks == map[JOB := k] && k.worker.Some? && a.Found?
    ensures FoundTicket(d, a).None?
  {
    if IsWindow(d.tasks, a.workerType, a.rows) {
      assert a.rows == [] || !Eligible(d.tasks[a.rows[0]], a.workerType);
    }
  }

  /** Create, find, claim, fail, requeue: the only job is queued, and no search of any worker finds
      anything. */
  lemma AbandonedIsReached()
    ensures var m := Execute(Abandoned());
      && m.db.tasks.Keys == {JOB} && m.db.tasks[JOB].status == Queued && m.won == [HAND]
      && forall a: Action | a.Found? :: FoundTicket(m.db, a).None?
  {
    hide Step;
    var a, b, c, d, e := Abandoned()[0], Abandoned()[1], Abandoned()[2], Abandoned()[3], Abandoned()[4];
    ExecuteOne([], a);
    ExecuteOne([a], b);
    ExecuteOne([a, b], c);
    ExecuteOne([a, b, c], d);
    ExecuteOne([a, b, c, d], e);
    assert [] + [a] == [a] && [a] + [b] == [a, b] && [a, b] + [c] == [a, b, c];
    assert [a, b, c] + [d] == [a, b, c, d] && [a, b, c, d] + [e] == Abandoned();
    CreatedJob([]);
    FoundJob(Execute([a]));
    ClaimedJob(Execute([a, b]));
    var k := Claim(Newborn([]), "worker", "token").0;
    FailedJob(Execute([a, b, c]), k);
    var failed := Close(k, Failed, World(FULL), 0).task;
    RequeuedJob(Execute([a, b, c, d]), failed);
    forall x: Action | x.Found? ensures FoundTicket(Execute(Abandoned()).db, x).None? {
      NobodyFindsIt(Execute(Abandoned()).db, Queue(failed).0, x);
    }
  }

  // ---- submits that report something else than the task shows --------------------------------------

  /** Create, then a submit through the executor endpoint that reports `reported`. */
  function Reported(reported: Status): seq<Action> {
    [Create(JOB, SpecOf([]), Hermes, Some(1), true),
     Submitted(JOB, RUN, PostExecutor, reported, World(FULL))]
  }

  function RowOf(reported: Status): Run {
    Run(Hermes, Some(JOB), reported, 0, 0, if IsTerminal(reported) then Some(0) else None, Some(0), NO_EVIDENCE)
  }

  lemma ReportedJob(reported: Status)
    ensures Execute(Reported(reported)).db
      == Tables(map[JOB := Start(Newborn([]), RUN).0], map[RUN := RowOf(reported)])
  {
    hide Step;
    var a, b := Reported(reported)[0], Reported(reported)[1];
    ExecuteOne([], a);
    ExecuteOne([a], b);
    assert [] + [a] == [a] && [a] + [b] == Reported(reported);
    CreatedJob([]);
    SubmittedAs(Execute([a]), reported);
  }

  lemma SubmittedAs(m: Machine, reported: Status)
    requires m.db == Tables(map[JOB := Newborn([])], map[])
    ensures Step(m, Submitted(JOB, RUN, PostExecutor, reported, World(FULL))).db
      == Tables(map[JOB := Start(Newborn([]), RUN).0], map[RUN := RowOf(reported)])
  {
    assert FreshRun(m.db, RUN);
  }

  /** A submit that reports a run over: the task runs for ever under a row that nobody polls again,
      whatever else happens. */
  lemma OpenTaskIsReached(more: seq<Action>)
    ensures var d := Execute(Reported(Completed)).db;
      && JOB in d.tasks && d.tasks[JOB].status == Running && d.tasks[JOB].hermes == Some(RUN)
      && RUN in d.runs && d.runs[RUN].status == Completed
    ensures var d' := Execute(Reported(Completed) + more).db;
      RUN in d'.runs && !Pollable(d'.runs[RUN])
  {
    ReportedJob(Completed);
    var actions := Reported(Completed) + more;
    assert actions[..|Reported(Completed)|] == Reported(Completed);
    TerminalRunsStayTerminal(actions, |Reported(Completed)|, RUN);
  }

  // ---- a task in place of its row --------------------------------------------------------------------

  /** The running runs, twenty at most. */
  const RUNNING := Listing.Query(20, Some(Running), None, None)

  /** Without matching rows every line is a dispatched task. */
  lemma LinesAreTasks(d: Tables, items: seq<Listing.Item>)
    requires Listing.Correct(d, RUNNING, items) && Listing.WantedItems(d.runs, RUNNING) == {}
    ensures forall x | x in items :: Listing.Accepts(RUNNING, x) && x in Listing.Dispatched(d.tasks)
  {
    hide Listing.Accepts, Listing.Dispatched, Listing.Newer;
  }

  /** One matching task and no matching row: the list is that task. */
  lemma TheOnlyLine(d: Tables, items: seq<Listing.Item>, c: Listing.Item)
    requires Listing.Correct(d, RUNNING, items) && Listing.WantedItems(d.runs, RUNNING) == {}
    requires Listing.Dispatched(d.tasks) == {c} && Listing.Accepts(RUNNING, c)
    ensures items == [c]
  {
    hide Listing.Accepts, Listing.Dispatched, Listing.Newer;
    LinesAreTasks(d, items);
    assert forall i | 0 <= i < |items| :: items[i] == c;
    assert |items| > 1 ==> items[0].id != items[1].id;
    assert c in Listing.Dispatched(d.tasks) && !Listing.HasId([], c.id);
    assert items != [];
  }

  /** Create, then a submit that reports queued: the task runs, its row says queued, and the list of
      running runs shows the task instead of the row. */
  lemma StandInIsReached(items: seq<Listing.Item>)
    requires Listing.Correct(Execute(Reported(Queued)).db, RUNNING, items)
    ensures var d := Execute(Reported(Queued)).db;
      && RUN in d.runs && d.runs[RUN].status == Queued && JOB in d.tasks && d.tasks[JOB].hermes == Some(RUN)
      && items == [Listing.TaskItem(JOB, d.tasks[JOB])]
  {
    hide Listing.Correct, Listing.Dispatched, Listing.WantedItems, Step, Execute;
    ReportedJob(Queued);
    var d := Execute(Reported(Queued)).db;
    var k := Start(Newborn([]), RUN).0;
    var c := Listing.TaskItem(JOB, k);
    NoMatchingRow();
    OneDispatched(k);
    TheOnlyLine(d, items, c);
  }

  lemma NoMatchingRow()
    ensures Listing.WantedItems(map[RUN := RowOf(Queued)], RUNNING) == {}
  {
  }

  // ---- a task behind the window ------------------------------------------------------------------------

  function NameOf(n: nat): string {
    if n == 0 then JOB else NameOf(n - 1) + "0"
  }

  lemma {:induction false} NamesGrow(n: nat)
    ensures |NameOf(n)| == |JOB| + n
  {
    if n > 0 {
      NamesGrow(n - 1);
    }
  }

  function Gone(n: nat): Task {
    Fresh(SpecOf([]).(createdAt := 1), Hermes, true).(status := Failed, hermes := Some(Upstream(NameOf(n))))
  }

  /** One old running task, then n younger failed ones, none with a row. */
  function Crowd(n: nat): map<TaskId, Task> {
    if n == 0 then map[JOB := Start(Newborn([]), RUN).0]
    else Crowd(n - 1)[NameOf(n) := Gone(n)]
  }

  function GoneItems(n: nat): set<Listing.Item> {
    if n == 0 then {} else GoneItems(n - 1) + {Listing.TaskItem(NameOf(n), Gone(n))}
  }

  lemma {:induction false} GoneItemsAreMany(n: nat)
    ensures |GoneItems(n)| == n
    ensures forall c | c in GoneItems(n) ::
      c.created == 1 && c.status == Failed && c.task.Some? && |JOB| < |c.task.value| <= |JOB| + n
  {
    hide Gone;
    if n > 0 {
      GoneItemsAreMany(n - 1);
      NamesGrow(n);
      GoneLine(n);
      assert Listing.TaskItem(NameOf(n), Gone(n)) !in GoneItems(n - 1);
    }
  }

  lemma {:induction false} CrowdIsLarge(n: nat)
    ensures forall t | t in Crowd(n) :: |t| <= |JOB| + n
    ensures JOB in Crowd(n) && Crowd(n)[JOB] == Start(Newborn([]), RUN).0 && Crowd(n)[JOB].hermes.Some?
    ensures Listing.Dispatched(Crowd(n)) == GoneItems(n) + {Listing.TaskItem(JOB, Crowd(n)[JOB])}
  {
    hide Gone, Newborn, Start, NameOf, Listing.Dispatched;
    NoCrowd();
    NamesGrow(n);
    if n > 0 {
      CrowdIsLarge(n - 1);
      GoneLine(n);
      AddedTask(Crowd(n - 1), NameOf(n), Gone(n));
    }
  }

  lemma NoCrowd()
    ensures Crowd(0)[JOB].hermes.Some?
    ensures Listing.Dispatched(Crowd(0)) == {Listing.TaskItem(JOB, Crowd(0)[JOB])}
  {
    OneDispatched(Start(Newborn([]), RUN).0);
  }

  lemma OneDispatched(k: Task)
    requires k.hermes.Some?
    ensures Listing.Dispatched(map[JOB := k]) == {Listing.TaskItem(JOB, k)}
  {
    AddedTask(map[], JOB, k);
    assert map[][JOB := k] == map[JOB := k];
  }

  lemma GoneLine(n: nat)
    ensures Gone(n).hermes.Some?
    ensures var c := Listing.TaskItem(NameOf(n), Gone(n));
      c.created == 1 && c.status == Failed && c.task == Some(NameOf(n))
  {
  }

  lemma AddedTask(tasks: map<TaskId, Task>, t: TaskId, k: Task)
    requires t !in tasks && k.hermes.Some?
    ensures Listing.Dispatched(tasks[t := k]) == Listing.Dispatched(tasks) + {Listing.TaskItem(t, k)}
  {
    var all := Listing.Dispatched(tasks[t := k]);
    forall c | c in Listing.Dispatched(tasks) ensures c in all {
      var u :| u in tasks && tasks[u].hermes.Some? && c == Listing.TaskItem(u, tasks[u]);
      assert u in tasks[t := k] && tasks[t := k][u] == tasks[u];
    }
    assert t in tasks[t := k] && tasks[t := k][t] == k;
  }

  /** A running task behind a hundred younger failed ones: the list of running runs is empty. */
  lemma WindowHidesATask(items: seq<Listing.Item>)
    requires Listing.IsList(Tables(Crowd(100), map[]), RUNNING, items)
    ensures JOB in Crowd(100) && Crowd(100)[JOB].hermes.Some?
    ensures Listing.Accepts(RUNNING, Listing.TaskItem(JOB, Crowd(100)[JOB])) && items == []
  {
    hide Crowd, GoneItems, NameOf, Gone, Listing.Correct, Listing.IsList, Listing.Dispatched, Listing.WantedItems;
    var d := Tables(Crowd(100), map[]);
    GoneItemsAreMany(100);
    CrowdIsLarge(100);
    var c := Listing.TaskItem(JOB, Crowd(100)[JOB]);
    assert c.created == 0 && Listing.Accepts(RUNNING, c);
    Listing.TheWindowHides(d, RUNNING, items, c, GoneItems(100));
    ListIsCorrect(d, items);
    NoRows();
    LinesAreTasks(d, items);
    assert forall x | x in GoneItems(100) :: !Listing.Accepts(RUNNING, x);
    assert forall i | 0 <= i < |items| :: items[i] in items && items[i] in GoneItems(100) + {c};
    NothingPasses(items, GoneItems(100), c);
  }

  lemma NothingPasses(items: seq<Listing.Item>, gone: set<Listing.Item>, c: Listing.Item)
    requires forall i | 0 <= i < |items| :: items[i] in gone + {c} && Listing.Accepts(RUNNING, items[i])
    requires forall x | x in gone :: !Listing.Accepts(RUNNING, x)
    requires c !in items
    ensures items == []
  {
    hide Listing.Accepts;
    Sequences.EmptyOrFirst(items);
  }

  lemma NoRows()
    ensures Listing.WantedItems(map[], RUNNING) == {}
  {
  }

  lemma ListIsCorrect(d: Tables, items: seq<Listing.Item>)
    requires Listing.IsList(d, RUNNING, items)
    ensures Listing.Correct(d, RUNNING, items)
  {
    var rows, found, sorted :| Listing.ListedFrom(d, RUNNING, items, rows, found, sorted);
    Listing.CutIsCorrect(d, RUNNING, items, rows, found, sorted);
  }

  // ---- progress that falls from 95 -----------------------------------------------------------------------

  /** Create, submit, read, report 95, complete: the gate blocks, and progress falls to 80. */
  lemma FallFrom95IsReached()
    ensures var head := Opening([]) + [Report(JOB, 95)];
      var last := Finished(JOB, Call(None, false), World(FULL));
      && JOB in Execute(head).db.tasks && Execute(head).db.tasks[JOB].pct == 95
      && JOB in Execute(head + [last]).db.tasks && Execute(head + [last]).db.tasks[JOB].pct == 80
  {
    hide Step, Dispatched, Opening;
    var head := Opening([]) + [Report(JOB, 95)];
    var last := Finished(JOB, Call(None, false), World(FULL));
    DispatchedJob([]);
    DispatchedFacts([]);
    ExecuteOne(Opening([]), Report(JOB, 95));
    ExecuteOne(head, last);
    var k := Dispatched([]);
    NewbornProgress();
    ReportedAt95(Execute(Opening([])), k);
    BlockedAt80(Execute(head), k.(pct := 95));
  }

  lemma NewbornProgress()
    ensures Dispatched([]).pct == 5
  {
  }

  lemma ReportedAt95(m: Machine, k: Task)
    requires JOB in m.db.tasks && m.db.tasks[JOB] == k && k.pct == 5
    ensures var d := Step(m, Report(JOB, 95)).db; JOB in d.tasks && d.tasks[JOB] == k.(pct := 95)
  {
  }

  lemma BlockedAt80(m: Machine, k: Task)
    requires JOB in m.db.tasks && m.db.tasks[JOB] == k && Sound(k) && k.status == Running
    requires k.spec.declared == [] && k.out.blob.None?
    ensures var d := Step(m, Finished(JOB, Call(None, false), World(FULL))).db;
      JOB in d.tasks && d.tasks[JOB].pct == 80
  {
    hide Complete, Sound;
    assert Missing(FULL, 0, []) == [];
    BlockedExactly(k, Call(None, false), World(FULL), 0);
    assert Complete(k, Call(None, false), World(FULL), 0).outcome == Blocked;
  }

  // ---- a forced reconcile onto the run of another task ----------------------------------------------------

  const OTHER: TaskId := "TASK-2"

  /** A run that completed one task while another waits in the queue. */
  function Neighbours(): Tables {
    Tables(map[JOB := Dispatched([]).To(Completed, Edge), OTHER := Newborn([])],
           map[RUN := ROW.(status := Completed, completed := Some(0))])
  }

  /** Forcing the second onto the run of the first breaks the agreement of the first. */
  lemma BystanderIsReached()
    ensures var d := Neighbours();
      var d' := Post(d, OTHER, ForceReconcile(d.tasks[OTHER], Some(RUN), Failed, World(FULL), QUIET), World(FULL));
      TwoTables.Agreement(d) && !TwoTables.Agreement(d')
  {
    var d := Neighbours();
    var reply := ForceReconcile(d.tasks[OTHER], Some(RUN), Failed, World(FULL), QUIET);
    TwoTables.ForceSettles(d.tasks[OTHER], Some(RUN), Failed, World(FULL), QUIET);
    var mid := d.(tasks := d.tasks[OTHER := reply.task]);
    assert SyncTarget(mid, OTHER, SubmitFailed) == Some(RUN);
    assert TwoTables.Bystander(d, OTHER, Some(RUN), JOB);
    TwoTables.ForceAgreesExactly(d, OTHER, Some(RUN), Failed, World(FULL), QUIET);
  }
}
