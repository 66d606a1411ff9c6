/** The main theorems: what holds in every state any run of the machine can reach. */
module Safety {
  import opened Models
  import opened Tasks
  import opened Runs
  import opened Claims
  import opened Lives
  import opened Lifecycle
  import opened TwoTables
  import opened Interleavings

  lemma ClaimsSurvive(m: Machine, d': Tables)
    requires ClaimsOk(m) && TasksAdvance(m.db, d')
    ensures ClaimsOk(m.(db := d'))
  {
  }

  lemma FoundIsSuitable(m: Machine, a: Action)
    requires ClaimsOk(m) && a.Found?
    ensures ClaimsOk(Step(m, a))
  {
    var ticket := FoundTicket(m.db, a);
    if ticket.Some? {
      PickIsFirst(m.db.tasks, a.rows, a.caps);
      assert ticket.value.task in m.db.tasks
        && Matches(m.db.tasks[ticket.value.task].spec.required, a.caps);
    }
  }

  lemma WonAlready(m: Machine, t: TaskId)
    requires ClaimsOk(m) && t in m.db.tasks && m.db.tasks[t].worker.None?
    ensures forall i | 0 <= i < |m.won| :: m.won[i].task != t
  {
  }

  lemma WinIsRecorded(m: Machine, ticket: Ticket)
    requires ClaimsOk(m) && ticket in m.tickets && ticket.task in m.db.tasks
    requires m.db.tasks[ticket.task].worker == Some(ticket.worker)
    requires forall i | 0 <= i < |m.won| :: m.won[i].task != ticket.task
    ensures ClaimsOk(m.(won := m.won + [ticket]))
  {
  }

  /** A claim is won only on a task nobody won before. */
  lemma ClaimIsExclusive(m: Machine, a: Action)
    requires ClaimsOk(m) && a.Claimed? && a.ticket in m.tickets
    requires TasksAdvance(m.db, StepTables(m.db, m.polls, a))
    ensures ClaimsOk(Step(m, a))
  {
    hide ClaimsOk, TasksAdvance;
    var d' := StepTables(m.db, m.polls, a);
    ClaimsSurvive(m, d');
    if Wins(m, a) {
      WonAlready(m, a.ticket.task);
      WinIsRecorded(m.(db := d'), a.ticket);
    }
  }

  lemma ReadIsOk(m: Machine, r: RunId)
    requires SnapsOk(m.db, m.polls) && FailuresAreFinal(m.db) && r in m.db.runs && Pollable(m.db.runs[r])
    ensures SnapsOk(m.db, m.polls + {Snap(r, m.db.runs[r])})
  {
  }

  lemma FailuresStayFinal(d: Tables, d': Tables)
    requires FailuresAreFinal(d) && Grows(d.runs, d'.runs)
    ensures FailuresAreFinal(d')
  {
  }

  lemma StepKeepsInv(m: Machine, a: Action)
    requires Inv(m)
    ensures Inv(Step(m, a)) && Keeps(m.db, Step(m, a).db)
  {
    hide ClaimsOk, Consistent, Grows, TasksAdvance, SnapsOk, FailuresAreFinal, StepTables;
    var m' := Step(m, a);
    StepKeepsTables(m.db, m.polls, a);
    NothingKeeps(m.db);
    SnapsSurvive(m.db, m'.db, m.polls);
    FailuresStayFinal(m.db, m'.db);
    if a.Found? {
      FoundIsSuitable(m, a);
    } else if a.Claimed? && a.ticket in m.tickets {
      ClaimIsExclusive(m, a);
    } else if a.Read? {
      if a.r in m.db.runs && Pollable(m.db.runs[a.r]) {
        ReadIsOk(m, a.r);
        SameClaims(m, m');
      }
    } else {
      ClaimsSurvive(m, m'.db);
    }
  }

  lemma SameClaims(m: Machine, m': Machine)
    requires ClaimsOk(m) && m'.db == m.db && m'.tickets == m.tickets && m'.won == m.won
    ensures ClaimsOk(m')
  {
  }

  /** Every reachable state satisfies the invariant. */
  lemma {:induction false} Reachable(actions: seq<Action>)
    ensures Inv(Execute(actions))
    decreases |actions|
  {
    hide Step;
    if actions == [] {
      assert Inv(START);
    } else {
      Reachable(actions[..|actions| - 1]);
      StepKeepsInv(Execute(actions[..|actions| - 1]), actions[|actions| - 1]);
    }
  }

  lemma GrowsTransitively(a: Table, b: Table, c: Table)
    requires Grows(a, b) && Grows(b, c)
    ensures Grows(a, c)
  {
  }

  /** What a later state of the same run still knows of one task. */
  predicate Continues(k: Task, k': Task) {
    && k'.spec == k.spec
    && Extends(k.audit.trail, k'.audit.trail)
    && k.rescues <= k'.rescues && k.audit.requeues <= k'.audit.requeues
    && (k.worker.Some? ==> k'.worker == k.worker && k'.token == k.token)
  }

  ghost predicate TasksContinue(d: Tables, d': Tables) {
    forall t | t in d.tasks :: t in d'.tasks && Continues(d.tasks[t], d'.tasks[t])
  }

  lemma ContinuesStep(a: Tables, b: Tables, c: Tables)
    requires TasksContinue(a, b) && TasksAdvance(b, c)
    ensures TasksContinue(a, c)
  {
    forall t | t in a.tasks ensures t in c.tasks && Continues(a.tasks[t], c.tasks[t]) {
      assert t in b.tasks && Advances(b.tasks[t], c.tasks[t]);
      ExtendsTransitively(a.tasks[t].audit.trail, b.tasks[t].audit.trail, c.tasks[t].audit.trail);
    }
  }

  /** From any moment of a run to any later one: no run row disappears, is re-created, relinked or
      re-opened, and no task loses its history, its budget or its owner. */
  lemma {:induction false} NothingIsTakenBack(actions: seq<Action>, n: nat)
    requires n <= |actions|
    ensures var past := Execute(actions[..n]).db;
      var now := Execute(actions).db;
      Grows(past.runs, now.runs) && TasksContinue(past, now)
    decreases |actions|
  {
    hide Step, Grows, TasksContinue, TasksAdvance;
    if n == |actions| {
      assert actions[..n] == actions;
      GrowsReflexively(Execute(actions).db);
    } else {
      var before := actions[..|actions| - 1];
      assert before[..n] == actions[..n];
      NothingIsTakenBack(before, n);
      Reachable(before);
      StepKeepsInv(Execute(before), actions[|actions| - 1]);
      GrowsTransitively(Execute(actions[..n]).db.runs, Execute(before).db.runs, Execute(actions).db.runs);
      ContinuesStep(Execute(actions[..n]).db, Execute(before).db, Execute(actions).db);
    }
  }

  lemma GrowsReflexively(d: Tables)
    ensures Grows(d.runs, d.runs) && TasksContinue(d, d)
  {
  }

  // ---- the theorems -----------------------------------------------------------------------

  /** The two tables agree: over every interleaving, a terminal task that carries a run id has a
      row under it, linked back, with the same status. */
  lemma TablesAgree(actions: seq<Action>, t: TaskId)
    requires t in Execute(actions).db.tasks
    ensures Agrees(Execute(actions).db, t)
    ensures var d := Execute(actions).db;
      var k := d.tasks[t];
      k.status in {Completed, Failed, Cancelled, Timeout} && k.hermes.Some? ==>
        && k.hermes.value in d.runs
        && d.runs[k.hermes.value].status == k.status && d.runs[k.hermes.value].task == Some(t)
  {
    Reachable(actions);
  }

  /** Once terminal, a run row never leaves the terminal statuses and keeps its creation time. */
  lemma TerminalRunsStayTerminal(actions: seq<Action>, n: nat, r: RunId)
    requires n <= |actions| && r in Execute(actions[..n]).db.runs
    requires IsTerminal(Execute(actions[..n]).db.runs[r].status)
    ensures r in Execute(actions).db.runs
    ensures IsTerminal(Execute(actions).db.runs[r].status)
    ensures Execute(actions).db.runs[r].created == Execute(actions[..n]).db.runs[r].created
  {
    NothingIsTakenBack(actions, n);
  }

  /** Confirmed deliveries: at most one for the life of a task, plus one for each requeue. */
  lemma OneDeliveryPerLife(actions: seq<Action>, t: TaskId)
    requires t in Execute(actions).db.tasks
    ensures var k := Execute(actions).db.tasks[t];
      && k.audit.confirmed <= 1 + k.audit.requeues
      && (k.audit.requeues == 0 ==> k.audit.confirmed <= 1)
      && (k.audit.requeues == 0 && !IsTerminal(k.status) ==> k.audit.confirmed == 0)
  {
    Reachable(actions);
    assert Sound(Execute(actions).db.tasks[t]);
  }

  /** For the life of a task the rescues stay within its budget, the budget within five, progress
      on a legal value, and no atomic step leaves it held for a rescue. */
  lemma RescueBudgetHolds(actions: seq<Action>, t: TaskId)
    requires t in Execute(actions).db.tasks
    ensures var k := Execute(actions).db.tasks[t];
      && k.rescues <= k.spec.maxRescues <= MAX_RESCUES_CAP
      && IsLegalProgress(k.pct)
      && k.status != IncompleteDelivery
  {
    Reachable(actions);
    assert Sound(Execute(actions).db.tasks[t]);
  }

  /** Every status ever written is reached by an edge of the table, the blocking revert or a
      forced reconcile, the last of them being the current status. */
  lemma EveryMoveIsLawful(actions: seq<Action>, t: TaskId)
    requires t in Execute(actions).db.tasks
    ensures var k := Execute(actions).db.tasks[t];
      && Lawful(k.audit.trail) && Latest(k.audit.trail) == k.status
      && (k.audit.trail.Born? ==> k.status in {Pending, Queued})
      && (k.audit.trail.Moved? ==>
            var from := Latest(k.audit.trail.past);
            match k.audit.trail.how
            case Edge => IsLegal(from, k.status)
            case Revert => from == Completed && k.status == Running
            case Force => k.status in {Completed, Failed})
  {
    Reachable(actions);
    assert Sound(Execute(actions).db.tasks[t]);
  }

  /** Only edges: no revert and no forced reconcile in between. */
  predicate OnlyEdgesSince(t: Trail, t': Trail)
    requires Extends(t, t')
  {
    t == t' || (t'.how == Edge && OnlyEdgesSince(t, t'.past))
  }

  lemma {:induction false} NoEdgeLeaves(t: Trail, t': Trail)
    requires Lawful(t') && Extends(t, t') && OnlyEdgesSince(t, t')
    requires Latest(t) == Completed || Latest(t) == Cancelled
    ensures t == t'
    decreases t'
  {
    if t != t' {
      NoEdgeLeaves(t, t'.past);
    }
  }

  /** Without a revert or a forced reconcile, completed and cancelled are absorbing. */
  lemma CompletedAndCancelledAbsorb(actions: seq<Action>, n: nat, t: TaskId)
    requires n <= |actions| && t in Execute(actions[..n]).db.tasks
    requires Execute(actions[..n]).db.tasks[t].status in {Completed, Cancelled}
    ensures t in Execute(actions).db.tasks
    ensures var k := Execute(actions[..n]).db.tasks[t];
      var k' := Execute(actions).db.tasks[t];
      && Extends(k.audit.trail, k'.audit.trail)
      && (OnlyEdgesSince(k.audit.trail, k'.audit.trail) ==> k'.status == k.status)
  {
    NothingIsTakenBack(actions, n);
    EveryMoveIsLawful(actions[..n], t);
    EveryMoveIsLawful(actions, t);
    var k := Execute(actions[..n]).db.tasks[t];
    var k' := Execute(actions).db.tasks[t];
    if OnlyEdgesSince(k.audit.trail, k'.audit.trail) {
      NoEdgeLeaves(k.audit.trail, k'.audit.trail);
    }
  }

  /** One step lowers a task's progress only when it ends in the blocking gate's revert. */
  lemma ProgressFallsOnlyAtTheRevert(actions: seq<Action>, a: Action, t: TaskId)
    requires t in Execute(actions).db.tasks
    ensures t in Step(Execute(actions), a).db.tasks
    ensures var k := Execute(actions).db.tasks[t];
      var k' := Step(Execute(actions), a).db.tasks[t];
      k'.pct < k.pct ==> LastMoveReverts(k') && k'.status == Running
  {
    hide Step;
    Reachable(actions);
    StepKeepsInv(Execute(actions), a);
    var k' := Step(Execute(actions), a).db.tasks[t];
    assert Sound(k') && Advances(Execute(actions).db.tasks[t], k');
  }

  /** The task has a worker at the end of this run. */
  predicate OwnedAt(actions: seq<Action>, t: TaskId) {
    t in Execute(actions).db.tasks && Execute(actions).db.tasks[t].worker.Some?
  }

  /** From any moment to any later one, a worker and the token of its claim never change. */
  lemma OwnershipStays(actions: seq<Action>, n: nat, t: TaskId)
    requires n <= |actions| && OwnedAt(actions[..n], t)
    ensures t in Execute(actions).db.tasks
      && Execute(actions).db.tasks[t].worker == Execute(actions[..n]).db.tasks[t].worker
      && Execute(actions).db.tasks[t].token == Execute(actions[..n]).db.tasks[t].token
  {
    NothingIsTakenBack(actions, n);
    assert Continues(Execute(actions[..n]).db.tasks[t], Execute(actions).db.tasks[t]);
  }

  /** A task is claimed at most once ever, worker and token are set together, and each claim went to
      a worker whose search covered the task's requirements. */
  lemma ClaimsAreExclusive(actions: seq<Action>)
    ensures var m := Execute(actions);
      && (forall t | t in m.db.tasks ::
            m.db.tasks[t].audit.claims <= 1
            && (m.db.tasks[t].worker.Some? <==> m.db.tasks[t].token.Some?))
      && (forall i, j | 0 <= i < j < |m.won| :: m.won[i].task != m.won[j].task)
      && (forall i | 0 <= i < |m.won| ::
            m.won[i].task in m.db.tasks
            && m.db.tasks[m.won[i].task].worker == Some(m.won[i].worker)
            && Matches(m.db.tasks[m.won[i].task].spec.required, m.won[i].caps))
  {
    Reachable(actions);
    var m := Execute(actions);
    assert forall t | t in m.db.tasks :: Sound(m.db.tasks[t]);
  }

  /** A claimed task is out of every worker's reach for good, even after it failed and was put
      back in the queue. */
  lemma ClaimedIsNeverFoundAgain(actions: seq<Action>, n: nat, t: TaskId, a: Action)
    requires n <= |actions| && t in Execute(actions[..n]).db.tasks
    requires Execute(actions[..n]).db.tasks[t].worker.Some?
    requires a.Found?
    ensures FoundTicket(Execute(actions).db, a).Some?
      ==> FoundTicket(Execute(actions).db, a).value.task != t
  {
    NothingIsTakenBack(actions, n);
    var d := Execute(actions).db;
    assert Continues(Execute(actions[..n]).db.tasks[t], d.tasks[t]);
    if FoundTicket(d, a).Some? {
      PickIsFirst(d.tasks, a.rows, a.caps);
    }
  }
}
