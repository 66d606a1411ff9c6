/** What every operation keeps about one task, for its whole life. */
module Lives {
  import opened Models
  import opened Notification
  import opened Tasks

  /** A status write is an edge of the table, the blocking gate's revert, or forced. */
  predicate MoveOk(from: Status, to: Status, how: How) {
    match how
    case Edge => IsLegal(from, to)
    case Revert => from == Completed && to == Running
    case Force => to == Completed || to == Failed
  }

  /** Every step of the trail is allowed, from a creation status on. */
  predicate Lawful(t: Trail) {
    match t
    case Born(s) => s == Pending || s == Queued
    case Moved(past, to, how) => MoveOk(Latest(past), to, how) && Lawful(past)
  }

  /** `t` is `t'` or an older part of it. */
  predicate Extends(t: Trail, t': Trail) {
    t == t' || (t'.Moved? && Extends(t, t'.past))
  }

  lemma {:induction false} ExtendsTransitively(a: Trail, b: Trail, c: Trail)
    requires Extends(a, b) && Extends(b, c)
    ensures Extends(a, c)
    decreases c
  {
    if b != c {
      ExtendsTransitively(a, b, c.past);
    }
  }

  /** A confirmed delivery is paid for by the task's life or by a requeue. The life itself pays
      only while its confirmed blob stands on a terminal task. */
  predicate Budget(k: Task) {
    k.audit.confirmed <= k.audit.requeues
      + (if IsTerminal(k.status) && ConfirmedBlob(k.out.blob) then 1 else 0)
  }

  predicate ClaimOk(k: Task) {
    && (k.worker.Some? <==> k.token.Some?)
    && k.audit.claims == (if k.worker.Some? then 1 else 0)
    && (k.audit.claims == 0 || !k.status.Pending?)
  }

  predicate Sound(k: Task) {
    && k.rescues <= k.spec.maxRescues <= MAX_RESCUES_CAP
    && IsLegalProgress(k.pct)
    && !k.status.IncompleteDelivery?
    && Lawful(k.audit.trail) && Latest(k.audit.trail) == k.status
    && Budget(k)
    && ClaimOk(k)
  }

  predicate LastMoveReverts(k: Task) {
    k.audit.trail.Moved? && k.audit.trail.how == Revert
  }

  /** What no operation takes back. */
  predicate Advances(k: Task, k': Task) {
    && k'.spec == k.spec
    && Extends(k.audit.trail, k'.audit.trail)
    && (k'.pct < k.pct ==> LastMoveReverts(k'))
    && k.rescues <= k'.rescues
    && k.audit.requeues <= k'.audit.requeues
    && k.audit.claims <= k'.audit.claims
    && k.audit.confirmed <= k'.audit.confirmed
    && (k.worker.Some? ==> k'.worker == k.worker && k'.token == k.token)
  }

  lemma AdvancesTransitively(a: Task, b: Task, c: Task)
    requires Advances(a, b) && Advances(b, c)
    requires c.pct < a.pct ==> LastMoveReverts(c)
    ensures Advances(a, c)
  {
    ExtendsTransitively(a.audit.trail, b.audit.trail, c.audit.trail);
  }

  lemma CreationIsSound(spec: Spec, adapter: Executor, queued: bool)
    requires spec.maxRescues <= MAX_RESCUES_CAP
    ensures Sound(Fresh(spec, adapter, queued))
  {
  }

  lemma QueueIsSound(k: Task)
    requires Sound(k)
    ensures Sound(Queue(k).0) && Advances(k, Queue(k).0)
  {
  }

  lemma StartIsSound(k: Task, r: RunId)
    requires Sound(k)
    ensures Sound(Start(k, r).0) && Advances(k, Start(k, r).0)
  {
  }

  lemma ProgressIsSound(k: Task, pct: int)
    requires Sound(k)
    ensures Sound(Progress(k, pct).0) && Advances(k, Progress(k, pct).0)
  {
  }

  lemma ClaimIsSound(k: Task, worker: string, token: string)
    requires Sound(k)
    ensures Sound(Claim(k, worker, token).0) && Advances(k, Claim(k, worker, token).0)
  {
  }

  lemma CloseIsSound(k: Task, to: Status, e: Env, tick: nat)
    requires Sound(k) && IsTerminal(to)
    ensures Sound(Close(k, to, e, tick).task) && Advances(k, Close(k, to, e, tick).task)
  {
    GateLeavesItsVerdict(k.out.blob, to, e.net);
  }

  lemma FinishIsSound(k: Task, c: Call, e: Env, tick: nat)
    requires Sound(k) && IsLegal(k.status, Completed)
    ensures Sound(Finish(k, c, e, tick).task) && Advances(k, Finish(k, c, e, tick).task)
  {
    GateLeavesItsVerdict(k.out.blob, Completed, e.net);
  }

  lemma ForceIsSound(k: Task, run: Option<RunId>, verdict: Status, e: Env, net: Net)
    requires Sound(k)
    ensures var r := ForceReconcile(k, run, verdict, e, net);
      Sound(r.task) && Advances(k, r.task)
  {
    if verdict.Completed? || verdict.Failed? {
      GateLeavesItsVerdict(k.out.blob, verdict, net);
    }
  }

  lemma {:induction false} DetoursAreSound(k: Task, n: nat)
    requires Sound(k) && IsLegal(k.status, Completed) && n <= RescuesLeft(k)
    ensures var b := Detours(k, n);
      && Sound(b) && Advances(k, b) && IsLegal(b.status, Completed)
      && b.rescues == k.rescues + n
      && b == k.(status := b.status, rescues := b.rescues, audit := k.audit.(trail := b.audit.trail))
    decreases n
  {
    if n > 0 {
      DetoursAreSound(Rescued(k), n - 1);
      AdvancesTransitively(k, Rescued(k), Detours(k, n));
    }
  }

  lemma {:induction false} SpentIsAffordable(d: Disk, tick: nat, declared: seq<string>, left: nat)
    ensures Inspect(d, tick, declared, left).spent <= left
    decreases left
  {
    var missing := Missing(d, tick, declared);
    if left > 0 {
      SpentIsAffordable(d, tick + |declared| + |missing|, declared, left - 1);
    }
  }

  lemma CompleteIsSound(k: Task, c: Call, e: Env, tick: nat)
    requires Sound(k)
    ensures var r := Complete(k, c, e, tick); Sound(r.task) && Advances(k, r.task)
  {
    if IsLegal(k.status, Completed) {
      var v := Inspect(e.disk, tick, k.spec.declared, RescuesLeft(k));
      SpentIsAffordable(e.disk, tick, k.spec.declared, RescuesLeft(k));
      DetoursAreSound(k, v.spent);
      var back := Detours(k, v.spent);
      if v.passed {
        var c' := if v.spent == 0 then c else Call(None, false);
        FinishIsSound(back, c', e, v.tick);
        AdvancesTransitively(k, back, Finish(back, c', e, v.tick).task);
      } else {
        CloseIsSound(back, Failed, e, v.tick);
        AdvancesTransitively(k, back, Close(back, Failed, e, v.tick).task);
      }
    }
  }
}
