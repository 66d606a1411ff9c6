/** The completion gate: rescue against a changing disk, and the blocking notification gate. */
module CompletionGate {
  import opened Models
  import opened Notification
  import opened Tasks
  import opened Lives

  /** The |paths| stat calls that end at tick `end` all found their path. */
  ghost predicate SeenEach(d: Disk, end: nat, paths: seq<string>) {
    |paths| <= end && forall i | 0 <= i < |paths| :: d(end - |paths| + i, paths[i])
  }

  lemma {:induction false} NothingMissing(d: Disk, tick: nat, paths: seq<string>)
    requires Missing(d, tick, paths) == []
    ensures forall i | 0 <= i < |paths| :: d(tick + i, paths[i])
    decreases |paths|
  {
    if paths != [] {
      assert d(tick, paths[0]);
      NothingMissing(d, tick + 1, paths[1..]);
      forall i | 0 <= i < |paths| ensures d(tick + i, paths[i]) {
        if i > 0 {
          assert paths[1..][i - 1] == paths[i];
        }
      }
    }
  }

  lemma {:induction false} MissingIsShort(d: Disk, tick: nat, paths: seq<string>)
    ensures |Missing(d, tick, paths)| <= |paths|
    decreases |paths|
  {
    if paths != [] {
      MissingIsShort(d, tick + 1, paths[1..]);
    }
  }

  /** Stat calls that `left` affordable rescues of n declared paths may cost. */
  function StatBudget(left: nat, n: nat): nat {
    if left == 0 then n else 2 * n + StatBudget(left - 1, n)
  }

  lemma {:induction false} StatBudgetIsLinear(left: nat, n: nat)
    ensures StatBudget(left, n) == 2 * left * n + n
  {
    if left > 0 {
      StatBudgetIsLinear(left - 1, n);
    }
  }

  /** For any disk: the gate spends at most its budget, makes a bounded number of stat calls and
      lets a task pass only right after one check that saw every declared artifact. */
  lemma {:induction false} InspectIsSound(d: Disk, tick: nat, declared: seq<string>, left: nat)
    ensures var v := Inspect(d, tick, declared, left);
      && v.spent <= left
      && tick <= v.tick <= tick + StatBudget(left, |declared|)
      && (v.passed ==> SeenEach(d, v.tick, declared))
    decreases left
  {
    hide Missing;
    var missing := Missing(d, tick, declared);
    MissingIsShort(d, tick, declared);
    if missing == [] {
      NothingMissing(d, tick, declared);
    }
    StatBudgetIsLinear(left, |declared|);
    if left > 0 {
      StatBudgetIsLinear(left - 1, |declared|);
      InspectIsSound(d, tick + |declared| + |missing|, declared, left - 1);
    }
  }

  /** For any disk: `complete` is never refused from a status that allows it, never leaves the
      task held, keeps within the rescue budget, and gets past the gate only right after one
      check that saw every declared artifact. */
  lemma GateIsSound(k: Task, c: Call, e: Env, tick: nat)
    requires Sound(k) && IsLegal(k.status, Completed)
    ensures var r := Complete(k, c, e, tick);
      && k.rescues <= r.task.rescues <= k.spec.maxRescues
      && (r.outcome == Settled ==> r.task.status == Completed || r.task.status == Failed)
      && (r.outcome == Blocked ==> r.task.status == Running && e.blocking)
      && r.outcome != Refused
      && (r.task.status != Failed ==> SeenEach(e.disk, r.tick, k.spec.declared))
      && r.task.hermes == k.hermes && r.task.external == k.external
      && tick <= r.tick <= tick + 2 * RescuesLeft(k) * |k.spec.declared| + |k.spec.declared|
  {
    var left := RescuesLeft(k);
    InspectIsSound(e.disk, tick, k.spec.declared, left);
    StatBudgetIsLinear(left, |k.spec.declared|);
    var v := Inspect(e.disk, tick, k.spec.declared, left);
    DetoursAreSound(k, v.spent);
  }

  /** A disk that does not change while `complete` runs. */
  ghost predicate Steady(d: Disk, present: set<string>) {
    forall i: nat, p :: d(i, p) <==> p in present
  }

  lemma {:induction false} SteadyMissing(d: Disk, tick: nat, paths: seq<string>, present: set<string>)
    requires Steady(d, present)
    ensures var m := Missing(d, tick, paths);
      && (forall p :: p in m <==> p in paths && p !in present)
      && (m == [] <==> forall p | p in paths :: p in present)
    decreases |paths|
  {
    if paths != [] {
      SteadyMissing(d, tick + 1, paths[1..], present);
      assert forall p :: p in paths <==> p == paths[0] || p in paths[1..];
    }
  }

  /** On a steady disk the gate decides presence exactly, and an absent artifact costs one rescue
      if one is left. */
  lemma SteadyVerdict(d: Disk, tick: nat, declared: seq<string>, left: nat, present: set<string>)
    requires Steady(d, present)
    ensures var v := Inspect(d, tick, declared, left);
      && (v.passed <==> forall p | p in declared :: p in present)
      && v.spent == (if v.passed || left == 0 then 0 else 1)
  {
    SteadyMissing(d, tick, declared, present);
    var missing := Missing(d, tick, declared);
    if missing != [] {
      assert missing[0] in missing;
      SteadyMissing(d, tick + |declared|, missing, present);
    }
  }

  /** The first `n` rescues each found what their check had missed, and the next one's re-check
      still misses something. */
  predicate GivesUpAt(d: Disk, tick: nat, declared: seq<string>, n: nat)
    decreases n
  {
    var missing := Missing(d, tick, declared);
    var again := tick + |declared|;
    && missing != []
    && if n == 0 then Missing(d, again, missing) != []
       else Missing(d, again, missing) == [] && GivesUpAt(d, again + |missing|, declared, n - 1)
  }

  lemma {:induction false} GivingUpEndsTheGate(d: Disk, tick: nat, declared: seq<string>, left: nat, n: nat)
    requires GivesUpAt(d, tick, declared, n) && n < left
    ensures var v := Inspect(d, tick, declared, left); !v.passed && v.spent == n + 1
    decreases n
  {
    if n > 0 {
      var missing := Missing(d, tick, declared);
      GivingUpEndsTheGate(d, tick + |declared| + |missing|, declared, left - 1, n - 1);
    }
  }

  lemma {:induction false} FailureSpendsOrGivesUp(d: Disk, tick: nat, declared: seq<string>, left: nat)
    requires !Inspect(d, tick, declared, left).passed
    ensures var v := Inspect(d, tick, declared, left);
      v.spent == left || (1 <= v.spent < left && GivesUpAt(d, tick, declared, v.spent - 1))
    decreases left
  {
    var missing := Missing(d, tick, declared);
    if left > 0 && Missing(d, tick + |declared|, missing) == [] {
      FailureSpendsOrGivesUp(d, tick + |declared| + |missing|, declared, left - 1);
    }
  }

  /** For every disk: a failing gate leaves budget unspent exactly when some re-check before the
      last affordable one still missed something. */
  lemma WastedExactly(d: Disk, tick: nat, declared: seq<string>, left: nat)
    ensures var v := Inspect(d, tick, declared, left);
      !v.passed && v.spent < left <==> exists n | 0 <= n < left - 1 :: GivesUpAt(d, tick, declared, n)
  {
    var v := Inspect(d, tick, declared, left);
    if !v.passed && v.spent < left {
      FailureSpendsOrGivesUp(d, tick, declared, left);
      assert GivesUpAt(d, tick, declared, v.spent - 1);
    }
    if n: nat :| n < left - 1 && GivesUpAt(d, tick, declared, n) {
      GivingUpEndsTheGate(d, tick, declared, left, n);
    }
  }

  /** A failing gate has spent its whole budget. */
  predicate SpendsItAll(d: Disk, tick: nat, declared: seq<string>, left: nat) {
    var v := Inspect(d, tick, declared, left);
    !v.passed ==> v.spent == left
  }

  /** A disk on which nothing ever appears. */
  const NOTHING: Disk := (i: nat, p: string) => false

  lemma NothingIsThere(tick: nat, paths: seq<string>)
    ensures Missing(NOTHING, tick, paths) == [] <==> paths == []
  {
    if paths != [] {
      assert Missing(NOTHING, tick, paths)[0] == paths[0];
    }
  }

  /** No disk can make the gate waste a rescue exactly when at most one is left or nothing was
      declared. */
  lemma NeverWastedExactly(declared: seq<string>, left: nat)
    ensures (forall d, tick :: SpendsItAll(d, tick, declared, left)) <==> left <= 1 || declared == []
  {
    forall d, tick | left <= 1 || declared == [] ensures SpendsItAll(d, tick, declared, left) {
      if !Inspect(d, tick, declared, left).passed {
        FailureSpendsOrGivesUp(d, tick, declared, left);
      }
    }
    if left > 1 && declared != [] {
      NothingIsThere(0, declared);
      NothingIsThere(|declared|, Missing(NOTHING, 0, declared));
      assert GivesUpAt(NOTHING, 0, declared, 0);
      GivingUpEndsTheGate(NOTHING, 0, declared, left, 0);
      assert !SpendsItAll(NOTHING, 0, declared, left);
    }
  }

  /** One failed re-check fails the task at once, in whichever round it comes and however large the
      budget: the rescues behind it stay unspent, although the code's comment takes the count to
      have reached the budget by then. */
  lemma FailedRecheckWastesTheBudget(k: Task, c: Call, e: Env, tick: nat, n: nat)
    requires Sound(k) && IsLegal(k.status, Completed)
    requires n < RescuesLeft(k) && GivesUpAt(e.disk, tick, k.spec.declared, n)
    ensures var r := Complete(k, c, e, tick);
      && r.task.status == Failed && r.outcome == Settled
      && r.task.rescues == k.rescues + n + 1
      && k.spec.maxRescues - r.task.rescues == RescuesLeft(k) - (n + 1)
  {
    GivingUpEndsTheGate(e.disk, tick, k.spec.declared, RescuesLeft(k), n);
    DetoursAreSound(k, n + 1);
  }

  /** Completing this task in this world either does not fail it or leaves no rescue unspent. */
  predicate FailsOnlySpent(k: Task, c: Call, e: Env, tick: nat) {
    var r := Complete(k, c, e, tick);
    r.task.status == Failed ==> r.task.rescues == k.spec.maxRescues
  }

  /** Of a running task: no world can fail it with rescues unspent exactly when at most one rescue
      is left or it declared nothing. */
  lemma RescuesAreUsedUpExactly(k: Task, c: Call)
    requires Sound(k) && IsLegal(k.status, Completed)
    ensures (forall e, tick :: FailsOnlySpent(k, c, e, tick)) <==> RescuesLeft(k) <= 1 || k.spec.declared == []
  {
    var left := RescuesLeft(k);
    NeverWastedExactly(k.spec.declared, left);
    forall e, tick | left <= 1 || k.spec.declared == [] ensures FailsOnlySpent(k, c, e, tick) {
      var v := Inspect(e.disk, tick, k.spec.declared, left);
      assert SpendsItAll(e.disk, tick, k.spec.declared, left);
      SpentIsAffordable(e.disk, tick, k.spec.declared, left);
      DetoursAreSound(k, v.spent);
    }
    if left > 1 && k.spec.declared != [] {
      var silent := Answer(false, None);
      var net := Net(true, silent, false, silent);
      var e := Env(0, net, net, SubmitFailed, false, NOTHING, false);
      NothingIsThere(0, k.spec.declared);
      NothingIsThere(|k.spec.declared|, Missing(NOTHING, 0, k.spec.declared));
      FailedRecheckWastesTheBudget(k, c, e, 0, 0);
      assert !FailsOnlySpent(k, c, e, 0);
    }
  }

  function StageOf(k: Task): Stage {
    CompletionStage(k.finishedAt.Some?, k.out.evidence, k.out.blob)
  }

  predicate LastMoveForced(k: Task) {
    k.audit.trail.Moved? && k.audit.trail.how == Force
  }

  /** The completion itself was delivered and confirmed, not just some verdict. */
  predicate CompletionTold(k: Task) {
    ConfirmedBlob(k.out.blob) && k.out.blob.value.status == Completed
  }

  /** What blocking mode promises of one task. */
  predicate Truthful(k: Task) {
    k.status == Completed ==>
      (StageOf(k) == FinalCompleted && CompletionTold(k)) || LastMoveForced(k)
  }

  lemma BlockingFinishIsTruthful(k: Task, c: Call, e: Env, tick: nat)
    requires e.blocking
    ensures Truthful(Finish(k, c, e, tick).task)
  {
    GateLeavesItsVerdict(k.out.blob, Completed, e.net);
  }

  lemma BlockingCompleteIsTruthful(k: Task, c: Call, e: Env, tick: nat)
    requires Sound(k) && Truthful(k) && e.blocking
    ensures Truthful(Complete(k, c, e, tick).task)
  {
    if IsLegal(k.status, Completed) {
      var v := Inspect(e.disk, tick, k.spec.declared, RescuesLeft(k));
      SpentIsAffordable(e.disk, tick, k.spec.declared, RescuesLeft(k));
      DetoursAreSound(k, v.spent);
      var back := Detours(k, v.spent);
      if v.passed {
        BlockingFinishIsTruthful(back, if v.spent == 0 then c else Call(None, false), e, v.tick);
      } else {
        assert Close(back, Failed, e, v.tick).task.status == Failed;
      }
    }
  }

  /** Past the artifact gate, `complete` is blocked exactly when the gate blocks and the caller
      sees no confirmed delivery. A blocked completion leaves progress at 80 even if it stood
      higher before, and counts no delivery. */
  lemma BlockedExactly(k: Task, c: Call, e: Env, tick: nat)
    requires Sound(k) && IsLegal(k.status, Completed)
    requires Inspect(e.disk, tick, k.spec.declared, RescuesLeft(k)).passed
    ensures var r := Complete(k, c, e, tick);
      && (r.outcome == Blocked <==> e.blocking && !NotifyGate(k.out.blob, Completed, e.net).confirmed)
      && (r.outcome == Blocked ==> r.task.pct == 80 && r.task.audit.confirmed == k.audit.confirmed)
      && (r.outcome != Blocked ==> r.task.status == Completed && r.task.pct == 100)
  {
    var v := Inspect(e.disk, tick, k.spec.declared, RescuesLeft(k));
    SpentIsAffordable(e.disk, tick, k.spec.declared, RescuesLeft(k));
    DetoursAreSound(k, v.spent);
    GateLeavesItsVerdict(k.out.blob, Completed, e.net);
  }
}
