/** What each task operation writes, column by column: when it is accepted, and the whole new row. */
module Columns {
  import opened Models
  import opened Notification
  import opened Tasks
  import opened CompletionGate

  /** All columns of two rows agree but the ones named: status, progress, finish time, run ids,
      owner, output and the history variables. */
  predicate SameSpecAndBudget(k: Task, k': Task) {
    k'.spec == k.spec && k'.rescues == k.rescues && k'.adapter == k.adapter
  }

  predicate SameOwner(k: Task, k': Task) {
    k'.worker == k.worker && k'.token == k.token && k'.audit.claims == k.audit.claims
  }

  predicate SameRuns(k: Task, k': Task) {
    k'.hermes == k.hermes && k'.external == k.external
  }

  predicate SameOutput(k: Task, k': Task) {
    k'.out == k.out && k'.audit.confirmed == k.audit.confirmed
  }

  /** A budget from 0 to 5 is kept, one outside is cut to the nearer end, none means one. */
  lemma ClampedBudget(requested: Option<int>)
    ensures requested == None ==> ClampRescues(requested) == 1
    ensures requested.Some? && 0 <= requested.value <= 5 ==> ClampRescues(requested) == requested.value
    ensures requested.Some? && requested.value < 0 ==> ClampRescues(requested) == 0
    ensures requested.Some? && requested.value > 5 ==> ClampRescues(requested) == 5
  {
  }

  lemma CreatedRow(spec: Spec, adapter: Executor, queued: bool)
    ensures var k := Fresh(spec, adapter, queued);
      && k.spec == spec && k.adapter == adapter && k.rescues == 0
      && (queued ==> k.status == Queued && k.pct == 5) && (!queued ==> k.status == Pending && k.pct == 0)
      && k.finishedAt == None && k.hermes == None && k.external == None && k.worker == None && k.token == None
      && k.out.text == None && !k.out.evidence && k.out.blob == None
      && k.audit.requeues == 0 && k.audit.claims == 0 && k.audit.confirmed == 0
  {
  }

  /** Queueing: silent on a queued task, accepted from pending, failed and timeout, refused
      elsewhere; a failed or timed-out task is requeued. Nothing else changes. */
  lemma QueuedRow(k: Task)
    ensures var (k', outcome) := Queue(k);
      && (outcome == Settled <==> k.status in {Queued, Pending, Failed, Timeout})
      && (outcome == Settled || outcome == Refused)
      && (k.status == Queued || outcome == Refused ==> k' == k)
      && (k.status in {Pending, Failed, Timeout} ==>
            && k'.status == Queued && k'.audit.trail == Moved(k.audit.trail, Queued, Edge)
            && k'.audit.requeues == k.audit.requeues + (if k.status == Pending then 0 else 1)
            && k'.pct == k.pct && k'.finishedAt == k.finishedAt
            && SameSpecAndBudget(k, k') && SameOwner(k, k') && SameRuns(k, k') && SameOutput(k, k'))
  {
  }

  /** Starting: accepted from pending, queued, waiting and a rescue, refused on a running task and
      elsewhere; it stamps the run id. */
  lemma StartedRow(k: Task, r: RunId)
    ensures var (k', outcome) := Start(k, r);
      && (outcome == Settled <==> k.status in {Pending, Queued, Waiting, IncompleteDelivery})
      && (outcome != Settled ==> outcome == Refused && k' == k)
      && (outcome == Settled ==>
            && k'.status == Running && k'.audit.trail == Moved(k.audit.trail, Running, Edge)
            && k'.hermes == Some(r) && k'.external == k.external
            && k'.pct == k.pct && k'.finishedAt == k.finishedAt && k'.audit.requeues == k.audit.requeues
            && SameSpecAndBudget(k, k') && SameOwner(k, k') && SameOutput(k, k'))
  {
  }

  /** Progress: one of nine values, not below the current one, in any status; only progress changes. */
  lemma ProgressedRow(k: Task, pct: int)
    ensures var (k', outcome) := Progress(k, pct);
      && (outcome == Settled <==> pct in {0, 5, 10, 25, 40, 60, 80, 95, 100} && pct >= k.pct)
      && (outcome != Settled ==> outcome == Refused && k' == k)
      && (outcome == Settled ==> k' == k.(pct := pct))
  {
  }

  /** Claiming: queued and unowned only; running, with worker and token. */
  lemma ClaimedRow(k: Task, worker: string, token: string)
    ensures var (k', outcome) := Claim(k, worker, token);
      && (outcome == Settled <==> k.status == Queued && k.worker == None)
      && (outcome != Settled ==> outcome == Refused && k' == k)
      && (outcome == Settled ==>
            && k'.status == Running && k'.audit.trail == Moved(k.audit.trail, Running, Edge)
            && k'.worker == Some(worker) && k'.token == Some(token) && k'.audit.claims == k.audit.claims + 1
            && k'.pct == k.pct && k'.finishedAt == k.finishedAt && k'.audit.requeues == k.audit.requeues
            && SameSpecAndBudget(k, k') && SameRuns(k, k') && SameOutput(k, k'))
  {
  }

  /** The record one notification leaves: none anew when muted or when the very verdict was
      delivered before; else the verdict asked for, with the gateway's answer if it captured a
      message id, else the in-process sender's if that did, else the legacy outcome without one. */
  lemma RecordLeft(prior: Option<Blob>, status: Status, net: Net)
    ensures var g := NotifyGate(prior, status, net);
      var repeated := prior.Some? && prior.value.status == status
        && prior.value.answer.sent && prior.value.answer.mid.Some?;
      && (net.muted || repeated ==> g.blob == prior && !g.delivered)
      && (net.muted ==> !g.confirmed) && (!net.muted && repeated ==> g.confirmed)
      && (!net.muted && !repeated ==> g.blob.Some? && g.blob.value.status == status)
      && (!net.muted && !repeated && net.gateway.sent && net.gateway.mid.Some? ==>
            g.blob.value.answer == net.gateway && g.confirmed && g.delivered)
      && (!net.muted && !repeated && !(net.gateway.sent && net.gateway.mid.Some?)
          && net.inprocess.sent && net.inprocess.mid.Some? ==>
            g.blob.value.answer == net.inprocess && g.confirmed && g.delivered)
      && (!net.muted && !repeated && !(net.gateway.sent && net.gateway.mid.Some?)
          && !(net.inprocess.sent && net.inprocess.mid.Some?) ==>
            g.blob.value.answer.sent == net.legacy && g.blob.value.answer.mid == None
            && !g.confirmed && !g.delivered)
  {
  }

  /** Fail, timeout and cancel: accepted from every open status but no other; they write the finish
      time and one notification of the status, and keep progress, text and evidence. */
  lemma ClosedRow(k: Task, to: Status, e: Env, tick: nat)
    requires to in {Failed, Timeout, Cancelled}
    ensures var x := Close(k, to, e, tick);
      && (x.outcome == Settled <==> k.status in {Pending, Queued, Running, Waiting, IncompleteDelivery})
      && (x.outcome != Settled ==> x.outcome == Refused && x.task == k)
      && (x.outcome == Settled ==>
            && x.task.status == to && x.task.audit.trail == Moved(k.audit.trail, to, Edge)
            && x.task.finishedAt == Some(e.now) && x.task.pct == k.pct
            && x.task.out.text == k.out.text && x.task.out.evidence == k.out.evidence
            && x.task.out.blob == NotifyGate(k.out.blob, to, e.net).blob
            && x.task.audit.confirmed
               == k.audit.confirmed + (if NotifyGate(k.out.blob, to, e.net).delivered then 1 else 0)
            && x.task.audit.requeues == k.audit.requeues
            && SameSpecAndBudget(k, x.task) && SameOwner(k, x.task) && SameRuns(k, x.task))
      && x.tick == tick
  {
    hide NotifyGate;
  }

  /** A completion behind the artifact gate: completed at 100 with a finish time, or, when the gate
      blocks without a confirmed delivery, back to running at 80 without one. Text and evidence are
      replaced together when there is anything to store, and kept otherwise. */
  lemma FinishedRow(k: Task, c: Call, e: Env, tick: nat)
    ensures var x := Finish(k, c, e, tick);
      var g := NotifyGate(k.out.blob, Completed, e.net);
      && (x.outcome == Blocked <==> e.blocking && !g.confirmed) && x.outcome in {Settled, Blocked}
      && (x.outcome == Settled ==>
            && x.task.status == Completed && x.task.pct == 100 && x.task.finishedAt == Some(e.now)
            && x.task.audit.trail == Moved(k.audit.trail, Completed, Edge))
      && (x.outcome == Blocked ==>
            && x.task.status == Running && x.task.pct == 80 && x.task.finishedAt == None
            && x.task.audit.trail == Moved(Moved(k.audit.trail, Completed, Edge), Running, Revert))
      && (c.text.Some? || c.extra || e.artifacts ==>
            x.task.out.text == c.text && x.task.out.evidence == e.artifacts)
      && (c.text.None? && !c.extra && !e.artifacts ==>
            x.task.out.text == k.out.text && x.task.out.evidence == k.out.evidence)
      && x.task.out.blob == g.blob
      && x.task.audit.confirmed == k.audit.confirmed + (if g.delivered then 1 else 0)
      && x.task.audit.requeues == k.audit.requeues && x.tick == tick
      && SameSpecAndBudget(k, x.task) && SameOwner(k, x.task) && SameRuns(k, x.task)
  {
    hide NotifyGate;
  }

  /** A forced reconcile: any status, the verdicts completed and failed only. It writes the finish
      time, the run id if there is one, progress 100 for completed, and notifies unless a delivery
      stands or the same verdict was attempted before. */
  lemma ForcedRow(k: Task, run: Option<RunId>, verdict: Status, e: Env, net: Net)
    ensures var x := ForceReconcile(k, run, verdict, e, net);
      && (x.outcome == Settled <==> verdict in {Completed, Failed})
      && (x.outcome != Settled ==> x.outcome == Refused && x.task == k)
      && (x.outcome == Settled ==>
            && x.task.status == verdict && x.task.audit.trail == Moved(k.audit.trail, verdict, Force)
            && x.task.finishedAt == Some(e.now)
            && x.task.pct == (if verdict == Completed then 100 else k.pct)
            && (run.Some? ==> x.task.hermes == run) && (run.None? ==> x.task.hermes == k.hermes)
            && x.task.external == k.external
            && x.task.out.text == k.out.text && x.task.out.evidence == k.out.evidence
            && x.task.audit.requeues == k.audit.requeues
            && SameSpecAndBudget(k, x.task) && SameOwner(k, x.task))
  {
    hide NotifyGate, ShouldFire;
  }

  /** The notification of a forced reconcile, in the columns of the record before it. */
  lemma ForcedRecord(k: Task, run: Option<RunId>, verdict: Status, e: Env, net: Net)
    requires verdict in {Completed, Failed}
    ensures var x := ForceReconcile(k, run, verdict, e, net);
      var b := k.out.blob;
      var g := NotifyGate(b, verdict, net);
      && (b.Some? && ((b.value.answer.sent && b.value.answer.mid.Some?) || b.value.status == verdict) ==>
            x.task.out.blob == b && x.task.audit.confirmed == k.audit.confirmed)
      && (b.None? || (!(b.value.answer.sent && b.value.answer.mid.Some?) && b.value.status != verdict) ==>
            x.task.out.blob == g.blob
            && x.task.audit.confirmed == k.audit.confirmed + (if g.delivered then 1 else 0))
  {
    hide NotifyGate;
  }

  /** `compute_completion_state` in the three columns it reads. */
  lemma StageDecided(k: Task)
    ensures var told := k.out.blob.Some? && k.out.blob.value.answer.sent && k.out.blob.value.answer.mid.Some?;
      && (StageOf(k) == FinalCompleted <==> told)
      && (StageOf(k) == NotificationCompleted <==> !told && k.out.evidence)
      && (StageOf(k) == EvidenceCompleted <==> !told && !k.out.evidence && k.finishedAt.Some?)
      && (StageOf(k) == ExecutionCompleted <==> !told && !k.out.evidence && k.finishedAt.None?)
  {
  }

  /** Some stat call of the check was made on the path and found nothing. */
  ghost predicate Missed(d: Disk, tick: nat, paths: seq<string>, p: string) {
    exists i | 0 <= i < |paths| :: paths[i] == p && !d(tick + i, p)
  }

  /** The paths a check misses are exactly those whose own stat call found nothing. */
  lemma {:induction false} MissingExactly(d: Disk, tick: nat, paths: seq<string>)
    ensures forall p :: p in Missing(d, tick, paths) <==> Missed(d, tick, paths, p)
    decreases |paths|
  {
    if paths != [] {
      var rest := paths[1..];
      MissingExactly(d, tick + 1, rest);
      forall p ensures p in Missing(d, tick, paths) <==> Missed(d, tick, paths, p) {
        if Missed(d, tick, paths, p) {
          var i :| 0 <= i < |paths| && paths[i] == p && !d(tick + i, p);
          assert i > 0 ==> rest[i - 1] == p && !d(tick + 1 + (i - 1), p);
        }
        if Missed(d, tick + 1, rest, p) {
          var i :| 0 <= i < |rest| && rest[i] == p && !d(tick + 1 + i, p);
          assert paths[i + 1] == p && !d(tick + (i + 1), p);
        }
        if !d(tick, paths[0]) && p == paths[0] {
          assert !d(tick + 0, paths[0]);
        }
      }
    }
  }

  /** The run id lifecycle sync goes by: the Hermes one, else the external one. */
  lemma RunKeyDecided(k: Task)
    ensures k.hermes.Some? ==> k.RunKey() == k.hermes
    ensures k.hermes.None? ==> k.RunKey() == k.external
    ensures forall r :: k.Carries(r) <==> k.hermes == Some(r) || k.external == Some(r)
  {
  }
}
