/** The notification gate as far as one task row sees it: the persisted blob, the chain of
    three transports and the completion stage derived from the blob. */
module Notification {
  import opened Models

  /** What one transport answers: whether it reported a send, and the captured message id. */
  datatype Answer = Answer(sent: bool, mid: Option<int>)

  /** `task_outputs.notification_json`: the verdict it was sent for and the answer kept. */
  datatype Blob = Blob(status: Status, answer: Answer)

  /** What the outside world does to one `_notify_terminal` call: the suppression guard, the
      Hermes gateway, the legacy notifier (a bool only) and the in-process sender. */
  datatype Net = Net(muted: bool, gateway: Answer, legacy: bool, inprocess: Answer)

  predicate Delivered(a: Answer) {
    a.sent && a.mid.Some?
  }

  predicate ConfirmedBlob(b: Option<Blob>) {
    b.Some? && Delivered(b.value.answer)
  }

  /** `notify_terminal_with_fallback`: the gateway, else the legacy notifier, whose success
      carries no message id. */
  function WithFallback(net: Net): Answer {
    if Delivered(net.gateway) then net.gateway
    else Answer(net.legacy, None)
  }

  /** The record `_notify_terminal` persists: the in-process sender is tried when the first
      record is not a confirmed delivery and replaces it only when it is one itself. */
  function Attempt(net: Net): Answer {
    var first := WithFallback(net);
    if !Delivered(first) && Delivered(net.inprocess) then net.inprocess else first
  }

  /** The chain confirms a delivery if and only if one of the two transports that capture a message
      id does, the gateway first; the legacy notifier only colours an unconfirmed record. */
  lemma ChainConfirmsExactly(net: Net)
    ensures var a := Attempt(net);
      && (Delivered(a) <==> Delivered(net.gateway) || Delivered(net.inprocess))
      && (Delivered(net.gateway) ==> a == net.gateway)
      && (!Delivered(a) ==> a == Answer(net.legacy, None))
  {
  }

  /** A prior confirmed blob for the same verdict short-circuits the whole chain. */
  predicate Deduped(prior: Option<Blob>, status: Status) {
    ConfirmedBlob(prior) && prior.value.status == status
  }

  /** What one `_notify_terminal` call leaves behind: the blob column, whether its caller sees a
      confirmed delivery, and whether a transport confirmed one during this call. */
  datatype Gate = Gate(blob: Option<Blob>, confirmed: bool, delivered: bool)

  function NotifyGate(prior: Option<Blob>, status: Status, net: Net): Gate {
    if net.muted then Gate(prior, false, false)
    else if Deduped(prior, status) then Gate(prior, true, false)
    else
      var a := Attempt(net);
      Gate(Some(Blob(status, a)), Delivered(a), Delivered(a))
  }

  /** The guard `reconcile_executor_completion` puts in front of the gate: fire unless a
      delivery is already confirmed or the same verdict was already attempted. */
  predicate ShouldFire(prior: Option<Blob>, status: Status) {
    prior.None? || (!Delivered(prior.value.answer) && prior.value.status != status)
  }

  datatype Stage = ExecutionCompleted | EvidenceCompleted | NotificationCompleted | FinalCompleted

  /** `compute_completion_state` on a row whose blob decodes. */
  function CompletionStage(finished: bool, evidence: bool, blob: Option<Blob>): Stage {
    if ConfirmedBlob(blob) then FinalCompleted
    else if evidence then NotificationCompleted
    else if finished then EvidenceCompleted
    else ExecutionCompleted
  }

  /** The gate never reports a delivery it does not also leave in the blob, and an unmuted call
      always leaves a blob for the verdict it was asked about. */
  lemma GateLeavesItsVerdict(prior: Option<Blob>, status: Status, net: Net)
    ensures var g := NotifyGate(prior, status, net);
      && (g.confirmed ==> ConfirmedBlob(g.blob) && g.blob.value.status == status)
      && (g.delivered <==>
            !net.muted && !Deduped(prior, status) && (Delivered(net.gateway) || Delivered(net.inprocess)))
      && (g.delivered ==> g.confirmed)
      && (!net.muted ==>
            g.blob.Some? && g.blob.value.status == status && (g.confirmed <==> Delivered(g.blob.value.answer)))
      && (net.muted ==> g.blob == prior && !g.confirmed)
  {
  }
}
