/** The pull-based claim protocol: capability matching and the search window. */
module Claims {
  import opened Models
  import opened Tasks
  import Text

  type Jobs = map<TaskId, Task>

  /** The capabilities a list stands for: canonical, empties dropped, order and repeats ignored. */
  function Capabilities(values: seq<string>): set<string> {
    set v | v in values && Text.Canonical(v) != "" :: Text.Canonical(v)
  }

  /** `_capability_subset_match`. */
  predicate Matches(required: seq<string>, caps: seq<string>) {
    Capabilities(required) <= Capabilities(caps)
  }

  /** `_task_claim_eligible_where`. */
  predicate Eligible(k: Task, workerType: Executor) {
    k.status.Queued? && k.worker.None? && k.spec.cleared && k.adapter == workerType
  }

  /** `a` stands strictly ahead of `b` in the claim order: higher priority, then older. */
  predicate Ahead(a: Task, b: Task) {
    a.spec.priority > b.spec.priority
    || (a.spec.priority == b.spec.priority && a.spec.createdAt < b.spec.createdAt)
  }

  const WINDOW: nat := 5

  /** What the SELECT of `find_claimable_job` may return: at most five distinct eligible jobs in
      claim order, none left out that stands ahead of one that is in. Ties are open. */
  predicate IsWindow(jobs: Jobs, workerType: Executor, rows: seq<TaskId>) {
    && |rows| <= WINDOW
    && (forall i | 0 <= i < |rows| :: rows[i] in jobs && Eligible(jobs[rows[i]], workerType))
    && (forall i, j | 0 <= i < j < |rows| :: rows[i] != rows[j] && !Ahead(jobs[rows[j]], jobs[rows[i]]))
    && (forall t | t in jobs && Eligible(jobs[t], workerType) && t !in rows ::
          |rows| == WINDOW && !Ahead(jobs[t], jobs[rows[WINDOW - 1]]))
  }

  /** The post-filter: the first row whose requirements the worker covers. */
  function Pick(jobs: Jobs, rows: seq<TaskId>, caps: seq<string>): Option<TaskId>
    requires forall i | 0 <= i < |rows| :: rows[i] in jobs
  {
    if rows == [] then None
    else if Matches(jobs[rows[0]].spec.required, caps) then Some(rows[0])
    else
      assert forall i | 0 <= i < |rows[1..]| :: rows[1..][i] == rows[i + 1];
      Pick(jobs, rows[1..], caps)
  }

  lemma {:induction false} PickIsFirst(jobs: Jobs, rows: seq<TaskId>, caps: seq<string>)
    requires forall i | 0 <= i < |rows| :: rows[i] in jobs
    ensures var p := Pick(jobs, rows, caps);
      match p
      case None => forall i | 0 <= i < |rows| :: !Matches(jobs[rows[i]].spec.required, caps)
      case Some(t) => exists n | 0 <= n < |rows| ::
        rows[n] == t && Matches(jobs[t].spec.required, caps)
        && forall i | 0 <= i < n :: !Matches(jobs[rows[i]].spec.required, caps)
  {
    if rows != [] && !Matches(jobs[rows[0]].spec.required, caps) {
      var rest := rows[1..];
      assert forall i | 0 <= i < |rest| :: rest[i] == rows[i + 1];
      PickIsFirst(jobs, rest, caps);
      match Pick(jobs, rest, caps)
      case None =>
        forall i | 0 <= i < |rows| ensures !Matches(jobs[rows[i]].spec.required, caps) {
          if i > 0 {
            assert rest[i - 1] == rows[i];
          }
        }
      case Some(t) =>
        var n :| 0 <= n < |rest| && rest[n] == t && Matches(jobs[t].spec.required, caps)
          && forall i | 0 <= i < n :: !Matches(jobs[rest[i]].spec.required, caps);
        forall i | 0 <= i < n + 1 ensures !Matches(jobs[rows[i]].spec.required, caps) {
          if i > 0 {
            assert rest[i - 1] == rows[i];
          }
        }
        assert rows[n + 1] == t;
    }
  }

  /** A job the worker type may take and whose requirements it covers. */
  predicate Suitable(jobs: Jobs, workerType: Executor, caps: seq<string>, t: TaskId) {
    t in jobs && Eligible(jobs[t], workerType) && Matches(jobs[t].spec.required, caps)
  }

  /** The window is crowded out for `t`: five eligible jobs the worker cannot take, none of them
      behind `t`. */
  ghost predicate CrowdedOut(jobs: Jobs, workerType: Executor, caps: seq<string>, t: TaskId) {
    exists crowd: set<TaskId> :: |crowd| == WINDOW && IsCrowd(jobs, workerType, caps, t, crowd)
  }

  ghost predicate IsCrowd(jobs: Jobs, workerType: Executor, caps: seq<string>, t: TaskId, crowd: set<TaskId>) {
    t in jobs
    && forall c | c in crowd ::
         c in jobs && Eligible(jobs[c], workerType)
         && !Matches(jobs[c].spec.required, caps) && !Ahead(jobs[t], jobs[c])
  }

  lemma {:induction false} DistinctRows(rows: seq<TaskId>)
    requires forall i, j | 0 <= i < j < |rows| :: rows[i] != rows[j]
    ensures |set t | t in rows| == |rows|
  {
    if rows != [] {
      var rest := rows[1..];
      assert forall i | 0 <= i < |rest| :: rest[i] == rows[i + 1];
      DistinctRows(rest);
      assert rows[0] !in rest;
      assert (set t | t in rows) == (set t | t in rest) + {rows[0]};
    }
  }

  lemma FoundIsFirst(jobs: Jobs, workerType: Executor, caps: seq<string>, rows: seq<TaskId>, n: nat)
    requires IsWindow(jobs, workerType, rows) && n < |rows|
    requires Matches(jobs[rows[n]].spec.required, caps)
    requires forall i | 0 <= i < n :: !Matches(jobs[rows[i]].spec.required, caps)
    ensures forall u | Suitable(jobs, workerType, caps, u) :: !Ahead(jobs[u], jobs[rows[n]])
  {
    hide Matches, Eligible;
    forall u | Suitable(jobs, workerType, caps, u) ensures !Ahead(jobs[u], jobs[rows[n]]) {
      if u in rows {
        var m :| 0 <= m < |rows| && rows[m] == u;
        assert n <= m;
      } else {
        assert !Ahead(jobs[u], jobs[rows[WINDOW - 1]]);
        assert n == WINDOW - 1 || !Ahead(jobs[rows[WINDOW - 1]], jobs[rows[n]]);
      }
    }
  }

  lemma WindowIsACrowd(jobs: Jobs, workerType: Executor, caps: seq<string>, rows: seq<TaskId>, u: TaskId)
    requires IsWindow(jobs, workerType, rows) && Suitable(jobs, workerType, caps, u)
    requires forall i | 0 <= i < |rows| :: !Matches(jobs[rows[i]].spec.required, caps)
    ensures CrowdedOut(jobs, workerType, caps, u)
  {
    hide Matches, Eligible;
    assert u !in rows;
    assert |rows| == WINDOW && !Ahead(jobs[u], jobs[rows[WINDOW - 1]]);
    var crowd := set t | t in rows;
    DistinctRows(rows);
    forall c | c in crowd
      ensures c in jobs && Eligible(jobs[c], workerType)
        && !Matches(jobs[c].spec.required, caps) && !Ahead(jobs[u], jobs[c])
    {
      var i :| 0 <= i < |rows| && rows[i] == c;
      assert i == WINDOW - 1 || !Ahead(jobs[rows[WINDOW - 1]], jobs[rows[i]]);
    }
    assert |crowd| == WINDOW && IsCrowd(jobs, workerType, caps, u, crowd);
  }

  /** Search is exact up to its window: a found job is suitable and no suitable job stands
      strictly ahead of it; when nothing is found, every suitable job is crowded out. */
  lemma SearchIsExact(jobs: Jobs, workerType: Executor, caps: seq<string>, rows: seq<TaskId>)
    requires IsWindow(jobs, workerType, rows)
    ensures match Pick(jobs, rows, caps)
      case Some(t) =>
        && Suitable(jobs, workerType, caps, t)
        && forall u | Suitable(jobs, workerType, caps, u) :: !Ahead(jobs[u], jobs[t])
      case None =>
        forall u | Suitable(jobs, workerType, caps, u) :: CrowdedOut(jobs, workerType, caps, u)
  {
    hide Matches, Ahead, CrowdedOut;
    PickIsFirst(jobs, rows, caps);
    match Pick(jobs, rows, caps)
    case Some(t) =>
      var n :| 0 <= n < |rows| && rows[n] == t && Matches(jobs[t].spec.required, caps)
        && forall i | 0 <= i < n :: !Matches(jobs[rows[i]].spec.required, caps);
      FoundIsFirst(jobs, workerType, caps, rows, n);
    case None =>
      forall u | Suitable(jobs, workerType, caps, u) ensures CrowdedOut(jobs, workerType, caps, u) {
        WindowIsACrowd(jobs, workerType, caps, rows, u);
      }
  }

  /** A job a worker of this type may take, in columns: queued, unowned, cleared, of the worker's
      type, and every capability it asks for among those offered. */
  predicate Open(jobs: Jobs, workerType: Executor, caps: seq<string>, t: TaskId) {
    && t in jobs && jobs[t].status == Queued && jobs[t].worker == None && jobs[t].spec.cleared
    && jobs[t].adapter == workerType
    && Capabilities(jobs[t].spec.required) <= Capabilities(caps)
  }

  /** `a` has the higher priority; or the same, and was created no later. */
  predicate NotBehind(a: Task, b: Task) {
    || a.spec.priority > b.spec.priority
    || (a.spec.priority == b.spec.priority && a.spec.createdAt <= b.spec.createdAt)
  }

  /** A queued, unowned, cleared job of the worker's type that asks for more than is offered, of
      higher priority than `t`, or of the same and created no later. */
  predicate InFront(jobs: Jobs, workerType: Executor, caps: seq<string>, t: TaskId, c: TaskId) {
    && t in jobs && c in jobs && jobs[c].status == Queued && jobs[c].worker == None && jobs[c].spec.cleared
    && jobs[c].adapter == workerType
    && !(Capabilities(jobs[c].spec.required) <= Capabilities(caps))
    && NotBehind(jobs[c], jobs[t])
  }

  ghost predicate AllInFront(jobs: Jobs, workerType: Executor, caps: seq<string>, t: TaskId, crowd: set<TaskId>) {
    forall c | c in crowd :: InFront(jobs, workerType, caps, t, c)
  }

  ghost predicate FiveInFront(jobs: Jobs, workerType: Executor, caps: seq<string>, t: TaskId) {
    exists crowd: set<TaskId> :: |crowd| == 5 && AllInFront(jobs, workerType, caps, t, crowd)
  }

  lemma CrowdOf(jobs: Jobs, workerType: Executor, caps: seq<string>, t: TaskId) returns (crowd: set<TaskId>)
    requires CrowdedOut(jobs, workerType, caps, t)
    ensures |crowd| == 5 && AllInFront(jobs, workerType, caps, t, crowd)
  {
    hide Capabilities;
    crowd :| |crowd| == WINDOW && IsCrowd(jobs, workerType, caps, t, crowd);
  }

  /** The search in columns. Highest priority first, then oldest: no open job has a higher priority
      than the one found, nor the same and an earlier creation time; and when nothing is found, five
      jobs the worker cannot take stand in front of every open one. */
  lemma SearchInColumns(jobs: Jobs, workerType: Executor, caps: seq<string>, rows: seq<TaskId>)
    requires IsWindow(jobs, workerType, rows)
    ensures match Pick(jobs, rows, caps)
      case Some(t) =>
        && Open(jobs, workerType, caps, t)
        && forall u | Open(jobs, workerType, caps, u) :: NotBehind(jobs[t], jobs[u])
      case None =>
        forall u | Open(jobs, workerType, caps, u) :: FiveInFront(jobs, workerType, caps, u)
  {
    hide Pick, Capabilities;
    SearchIsExact(jobs, workerType, caps, rows);
    assert forall u :: Open(jobs, workerType, caps, u) <==> Suitable(jobs, workerType, caps, u);
    if Pick(jobs, rows, caps).None? {
      forall u | Open(jobs, workerType, caps, u) ensures FiveInFront(jobs, workerType, caps, u) {
        assert CrowdedOut(jobs, workerType, caps, u);
        var crowd := CrowdOf(jobs, workerType, caps, u);
        assert AllInFront(jobs, workerType, caps, u, crowd);
      }
    }
  }

  /** What a capability list stands for: the stripped, lower-case form of each entry that has one. */
  lemma CapabilityMeans(values: seq<string>, c: string)
    ensures c in Capabilities(values) <==> c != "" && exists i | 0 <= i < |values| :: Text.Canonical(values[i]) == c
  {
    if c in Capabilities(values) {
      var v :| v in values && Text.Canonical(v) == c;
      var i :| 0 <= i < |values| && values[i] == v;
    }
    if i :| 0 <= i < |values| && Text.Canonical(values[i]) == c {
      assert values[i] in values;
    }
  }
}
