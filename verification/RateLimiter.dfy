/** The sliding-window rate limiter of the notifier: one bounded deque of send times shared by the
    legacy path and the in-process path. */
module RateLimiter {

  const WINDOW: real := 3600.0
  const CAPACITY: nat := 200

  /** The head of the deque is dropped while it is older than one window. */
  function Pruned(stamps: seq<real>, now: real): seq<real> {
    if stamps != [] && stamps[0] < now - WINDOW then Pruned(stamps[1..], now) else stamps
  }

  /** A bounded deque drops its oldest entry when it is full. */
  function Pushed(stamps: seq<real>, t: real): seq<real> {
    if |stamps| < CAPACITY then stamps + [t] else stamps[1..] + [t]
  }

  datatype Path = Legacy | InProcess

  /** One notification that got as far as the rate limit: when the limit was checked and when the
      send would be stamped, and how the transport answered. */
  datatype Alert = Alert(path: Path, checked: real, stamped: real, enabled: bool, sent: bool)

  /** The legacy path stamps every enabled send, the in-process path only a successful one. */
  predicate Stamps(a: Alert) {
    match a.path
    case Legacy => a.enabled
    case InProcess => a.sent
  }

  /** The deque, and everything ever stamped. */
  datatype History = History(stamps: seq<real>, log: seq<real>)

  predicate Allowed(stamps: seq<real>, rate: int, now: real) {
    rate <= 0 || |Pruned(stamps, now)| < rate
  }

  function Attempt(h: History, rate: int, a: Alert): History {
    var kept := if rate <= 0 then h.stamps else Pruned(h.stamps, a.checked);
    if Allowed(h.stamps, rate, a.checked) && Stamps(a)
    then History(Pushed(kept, a.stamped), h.log + [a.stamped])
    else h.(stamps := kept)
  }

  function Run(rate: int, alerts: seq<Alert>): History {
    if alerts == [] then History([], [])
    else Attempt(Run(rate, alerts[..|alerts| - 1]), rate, alerts[|alerts| - 1])
  }

  /** The clock never runs backwards. */
  ghost predicate Monotone(alerts: seq<Alert>) {
    && (forall i | 0 <= i < |alerts| :: 0.0 <= alerts[i].checked <= alerts[i].stamped)
    && (forall i, j | 0 <= i < j < |alerts| :: alerts[i].stamped <= alerts[j].checked)
  }

  /** Any two sends that are `rate` or more apart in the log are more than a window apart in time. */
  ghost predicate Spread(log: seq<real>, rate: nat) {
    forall i, j | 0 <= i && i + rate <= j < |log| :: log[j] - log[i] > WINDOW
  }

  lemma {:induction false} PruningDropsTheOld(stamps: seq<real>, now: real)
    ensures var kept := Pruned(stamps, now);
      && |kept| <= |stamps| && kept == stamps[|stamps| - |kept|..]
      && forall i | 0 <= i < |stamps| - |kept| :: stamps[i] < now - WINDOW
  {
    if stamps != [] && stamps[0] < now - WINDOW {
      PruningDropsTheOld(stamps[1..], now);
    }
  }

  /** The deque is the end of the log; what fell out of it is a window older than the last check
      that pruned. */
  ghost predicate Suffix(h: History, last: real) {
    && |h.stamps| <= CAPACITY && |h.stamps| <= |h.log|
    && h.stamps == h.log[|h.log| - |h.stamps|..]
    && (forall i | 0 <= i < |h.log| :: h.log[i] <= last)
    && (forall i | 0 <= i < |h.log| - |h.stamps| :: h.log[i] < last - WINDOW)
  }

  /** Pruning at a later check keeps the deque the end of the log. */
  lemma PruningKeepsTheSuffix(h: History, last: real, now: real)
    requires Suffix(h, last) && last <= now
    ensures Suffix(h.(stamps := Pruned(h.stamps, now)), now)
  {
    PruningDropsTheOld(h.stamps, now);
    var kept := Pruned(h.stamps, now);
    var lost := |h.log| - |kept|;
    var first := |h.log| - |h.stamps|;
    assert h.log[first..][lost - first..] == h.log[lost..];
    forall i | 0 <= i < lost ensures h.log[i] < now - WINDOW {
      if i >= first {
        assert h.log[i] == h.stamps[i - first];
      }
    }
  }

  /** A send within the limit lands more than a window behind the send `rate` before it. */
  lemma PushingKeepsTheSuffix(h: History, rate: int, now: real, t: real)
    requires 1 <= rate <= CAPACITY && Suffix(h, now) && now <= t && |h.stamps| < rate
    requires Spread(h.log, rate)
    ensures var h' := History(h.stamps + [t], h.log + [t]); Suffix(h', t) && Spread(h'.log, rate)
  {
    var lost := |h.log| - |h.stamps|;
    assert (h.log + [t])[lost..] == h.log[lost..] + [t];
  }

  lemma SuffixLater(h: History, last: real, now: real)
    requires Suffix(h, last) && last <= now
    ensures Suffix(h, now)
  {
  }

  lemma AttemptKeepsTheSuffix(h: History, rate: int, a: Alert, last: real)
    requires 1 <= rate <= CAPACITY && Suffix(h, last) && last <= a.checked <= a.stamped
    requires Spread(h.log, rate)
    ensures Suffix(Attempt(h, rate, a), a.stamped)
    ensures Spread(Attempt(h, rate, a).log, rate)
  {
    hide Suffix, Spread;
    PruningKeepsTheSuffix(h, last, a.checked);
    var kept := h.(stamps := Pruned(h.stamps, a.checked));
    if Allowed(h.stamps, rate, a.checked) && Stamps(a) {
      PushingKeepsTheSuffix(kept, rate, a.checked, a.stamped);
    } else {
      SuffixLater(kept, a.checked, a.stamped);
    }
  }

  lemma {:induction false} RunIsSpread(rate: int, alerts: seq<Alert>)
    requires 1 <= rate <= CAPACITY && Monotone(alerts)
    ensures Spread(Run(rate, alerts).log, rate)
    ensures Suffix(Run(rate, alerts), if alerts == [] then 0.0 else alerts[|alerts| - 1].stamped)
    decreases |alerts|
  {
    if alerts != [] {
      var n := |alerts| - 1;
      RunIsSpread(rate, alerts[..n]);
      AttemptKeepsTheSuffix(Run(rate, alerts[..n]), rate, alerts[n],
        if n == 0 then 0.0 else alerts[n - 1].stamped);
    }
  }

  /** Sends by their position in the log, inside a closed window that starts at `from`. */
  function Inside(log: seq<real>, from: real): set<int> {
    set i | 0 <= i < |log| && from <= log[i] <= from + WINDOW
  }

  lemma {:induction false} BoundedSets(s: set<int>, low: int, n: nat)
    requires forall i | i in s :: low <= i < low + n
    ensures |s| <= n
    decreases n
  {
    if n == 0 {
      assert forall i :: i !in s;
    } else {
      BoundedSets(s - {low + n - 1}, low, n - 1);
    }
  }

  lemma {:induction false} SpreadBoundsTheWindow(log: seq<real>, rate: nat, from: real)
    requires Spread(log, rate)
    ensures |Inside(log, from)| <= rate
    decreases |log|
  {
    if log == [] {
      assert forall i :: i !in Inside(log, from);
    } else {
      var n := |log| - 1;
      if n in Inside(log, from) {
        BoundedSets(Inside(log, from), n + 1 - rate, rate);
      } else {
        SpreadBoundsTheWindow(log[..n], rate, from);
        assert Inside(log, from) == Inside(log[..n], from);
      }
    }
  }

  /** No closed window of an hour ever holds more than `rate` recorded sends. */
  ghost predicate Bounded(rate: int) {
    forall alerts, from | Monotone(alerts) :: |Inside(Run(rate, alerts).log, from)| <= rate
  }

  lemma WindowHoldsAtMostRate(rate: int, alerts: seq<Alert>, from: real)
    requires 1 <= rate <= CAPACITY && Monotone(alerts)
    ensures |Inside(Run(rate, alerts).log, from)| <= rate
  {
    RunIsSpread(rate, alerts);
    SpreadBoundsTheWindow(Run(rate, alerts).log, rate, from);
  }

  // ---- the limit as a law ------------------------------------------------------------------------

  /** After pruning the deque is empty or its head is at most an hour old. */
  lemma {:induction false} PruningKeepsTheYoung(stamps: seq<real>, now: real)
    ensures var kept := Pruned(stamps, now); kept == [] || kept[0] >= now - 3600.0
  {
    if stamps != [] && stamps[0] < now - WINDOW {
      PruningKeepsTheYoung(stamps[1..], now);
    }
  }

  ghost predicate InOrder(log: seq<real>) {
    forall i, j | 0 <= i <= j < |log| :: log[i] <= log[j]
  }

  /** A send stamped no earlier than the others keeps the log in order. */
  lemma AttemptKeepsOrder(h: History, rate: int, a: Alert, last: real)
    requires InOrder(h.log) && last <= a.stamped && forall i | 0 <= i < |h.log| :: h.log[i] <= last
    ensures InOrder(Attempt(h, rate, a).log)
  {
    hide Pruned, Allowed, Pushed;
  }

  lemma {:induction false} LogIsInOrder(rate: int, alerts: seq<Alert>)
    requires 1 <= rate <= CAPACITY && Monotone(alerts)
    ensures InOrder(Run(rate, alerts).log)
    decreases |alerts|
  {
    hide Attempt, InOrder, Spread;
    if alerts == [] {
      NothingIsInOrder();
    } else {
      var n := |alerts| - 1;
      LogIsInOrder(rate, alerts[..n]);
      RunIsSpread(rate, alerts[..n]);
      AttemptKeepsOrder(Run(rate, alerts[..n]), rate, alerts[n], if n == 0 then 0.0 else alerts[n - 1].stamped);
    }
  }

  lemma NothingIsInOrder()
    ensures InOrder([])
  {
  }

  /** The positions of the last n sends. */
  lemma {:induction false} Positions(low: int, n: nat)
    ensures |Span(low, n)| == n
  {
    if n > 0 {
      Positions(low, n - 1);
      SpanHolds(low, n - 1);
    }
  }

  function Span(low: int, n: nat): set<int> {
    if n == 0 then {} else Span(low, n - 1) + {low + n - 1}
  }

  lemma {:induction false} SpanHolds(low: int, n: nat)
    ensures forall i :: i in Span(low, n) <==> low <= i < low + n
  {
    if n > 0 {
      SpanHolds(low, n - 1);
    }
  }

  /** What a check keeps is exactly what was sent in the closed hour that ends with it. */
  lemma KeptIsTheLastHour(rate: int, alerts: seq<Alert>, now: real)
    requires 1 <= rate <= CAPACITY && Monotone(alerts)
    requires alerts == [] || alerts[|alerts| - 1].stamped <= now
    requires 0.0 <= now
    ensures var h := Run(rate, alerts);
      |Pruned(h.stamps, now)| == |Inside(h.log, now - 3600.0)|
  {
    var h := Run(rate, alerts);
    var last := if alerts == [] then 0.0 else alerts[|alerts| - 1].stamped;
    RunIsSpread(rate, alerts);
    LogIsInOrder(rate, alerts);
    PruningKeepsTheSuffix(h, last, now);
    PruningKeepsTheYoung(h.stamps, now);
    var kept := Pruned(h.stamps, now);
    var lost := |h.log| - |kept|;
    SpanHolds(lost, |kept|);
    Positions(lost, |kept|);
    assert kept != [] ==> kept[0] == h.log[lost];
    forall i | 0 <= i < |h.log| ensures now - 3600.0 <= h.log[i] <= now <==> i >= lost {
      if i >= lost {
        assert h.log[i] >= h.log[lost];
      }
    }
    assert Inside(h.log, now - 3600.0) == Span(lost, |kept|);
  }

  /** For every monotone run and every rate from 1 to 200: a check is refused if and only if exactly
      `rate` recorded sends lie in the closed 3600 seconds that end with it. */
  lemma RefusedExactly(rate: int, alerts: seq<Alert>, now: real)
    requires 1 <= rate <= 200 && Monotone(alerts) && 0.0 <= now
    requires alerts == [] || alerts[|alerts| - 1].stamped <= now
    ensures var h := Run(rate, alerts);
      !Allowed(h.stamps, rate, now) <==> |Inside(h.log, now - 3600.0)| == rate
  {
    KeptIsTheLastHour(rate, alerts, now);
    WindowHoldsAtMostRate(rate, alerts, now - 3600.0);
  }

  lemma {:induction false} DequeIsBounded(rate: int, alerts: seq<Alert>)
    ensures |Run(rate, alerts).stamps| <= CAPACITY
    decreases |alerts|
  {
    if alerts != [] {
      var n := |alerts| - 1;
      DequeIsBounded(rate, alerts[..n]);
      DequeNeverFills(Run(rate, alerts[..n]).stamps, alerts[n].checked);
    }
  }

  /** Without a positive rate, or with one above 200, no check of any run is ever refused. */
  lemma NeverRefused(rate: int, alerts: seq<Alert>, now: real)
    requires rate <= 0 || rate > 200
    ensures Allowed(Run(rate, alerts).stamps, rate, now)
  {
    DequeIsBounded(rate, alerts);
    DequeNeverFills(Run(rate, alerts).stamps, now);
  }

  /** One alert adds its stamp to the log exactly when it is allowed and, on the legacy path, sending
      is enabled, or, on the in-process path, the send succeeded. */
  lemma StampedExactly(h: History, rate: int, a: Alert)
    ensures Attempt(h, rate, a).log
      == if Allowed(h.stamps, rate, a.checked) && (if a.path == Legacy then a.enabled else a.sent)
         then h.log + [a.stamped] else h.log
  {
  }

  // ---- outside 1..200 ----------------------------------------------------------------------

  /** n sends at one instant. */
  function Burst(n: nat): seq<Alert> {
    seq(n, i => Alert(InProcess, 0.0, 0.0, true, true))
  }

  lemma {:induction false} DequeNeverFills(stamps: seq<real>, now: real)
    requires |stamps| <= CAPACITY
    ensures |Pruned(stamps, now)| <= CAPACITY
  {
    PruningDropsTheOld(stamps, now);
  }

  /** With a rate beyond the capacity of the deque, or none, the limit never bites. */
  lemma {:induction false} BurstIsNeverLimited(rate: int, n: nat)
    requires rate <= 0 || rate > CAPACITY
    ensures var h := Run(rate, Burst(n));
      |h.log| == n && |h.stamps| <= CAPACITY && forall i | 0 <= i < n :: h.log[i] == 0.0
    decreases n
  {
    if n > 0 {
      assert Burst(n)[..n - 1] == Burst(n - 1);
      BurstIsNeverLimited(rate, n - 1);
      DequeNeverFills(Run(rate, Burst(n - 1)).stamps, 0.0);
    }
  }

  /** The bound holds exactly for rates from 1 to the capacity of the deque. */
  lemma BoundedExactly(rate: int)
    ensures Bounded(rate) <==> 1 <= rate <= CAPACITY
  {
    if 1 <= rate <= CAPACITY {
      forall alerts, from | Monotone(alerts) ensures |Inside(Run(rate, alerts).log, from)| <= rate {
        WindowHoldsAtMostRate(rate, alerts, from);
      }
    } else {
      var n := if rate < 0 then 1 else rate + 1;
      BurstIsNeverLimited(rate, n);
      assert Monotone(Burst(n));
      AllInside(Run(rate, Burst(n)).log);
      assert |Inside(Run(rate, Burst(n)).log, 0.0)| == n > rate;
    }
  }

  lemma {:induction false} AllInside(log: seq<real>)
    requires forall i | 0 <= i < |log| :: log[i] == 0.0
    ensures |Inside(log, 0.0)| == |log|
  {
    if log != [] {
      var n := |log| - 1;
      AllInside(log[..n]);
      assert Inside(log, 0.0) == Inside(log[..n], 0.0) + {n};
    }
  }

  /** `_SEND_HISTORY` with the two paths that use it. */
  class SendHistory {
    var stamps: seq<real>
    /** Everything ever stamped. */
    ghost var log: seq<real>

    constructor ()
      ensures stamps == [] && log == []
    {
      stamps, log := [], [];
    }

    ghost function View(): History
      reads this
    {
      History(stamps, log)
    }

    method WithinRateLimit(rate: int, now: real) returns (ok: bool)
      modifies this`stamps
      ensures ok == Allowed(old(stamps), rate, now)
      ensures stamps == if rate <= 0 then old(stamps) else Pruned(old(stamps), now)
    {
      if rate <= 0 {
        return true;
      }
      while stamps != [] && stamps[0] < now - WINDOW
        invariant Pruned(stamps, now) == Pruned(old(stamps), now)
        decreases |stamps|
      {
        stamps := stamps[1..];
      }
      return |stamps| < rate;
    }

    method Append(t: real)
      modifies this
      ensures stamps == Pushed(old(stamps), t) && log == old(log) + [t]
    {
      if |stamps| >= CAPACITY {
        stamps := stamps[1..];
      }
      stamps := stamps + [t];
      log := log + [t];
    }

    /** `_dispatch_status` from the limit on. */
    method DispatchStatus(rate: int, a: Alert) returns (sent: bool)
      requires a.path.Legacy?
      modifies this
      ensures View() == Attempt(old(View()), rate, a)
      ensures sent <==> Allowed(old(stamps), rate, a.checked) && a.enabled && a.sent
    {
      var ok := WithinRateLimit(rate, a.checked);
      if !ok {
        return false;
      }
      if !a.enabled {
        return false;
      }
      Append(a.stamped);
      return a.sent;
    }

    /** `notify_terminal_inprocess` from the limit on. */
    method NotifyInprocess(rate: int, a: Alert) returns (sent: bool)
      requires a.path.InProcess?
      modifies this
      ensures View() == Attempt(old(View()), rate, a)
      ensures sent <==> Allowed(old(stamps), rate, a.checked) && a.sent
    {
      var ok := WithinRateLimit(rate, a.checked);
      if !ok {
        return false;
      }
      if a.sent {
        Append(a.stamped);
      }
      return a.sent;
    }
  }

  /** A full deque of 200 drops its oldest entry for the new one, any other only grows. */
  lemma PushedExactly(stamps: seq<real>, t: real)
    requires |stamps| <= 200
    ensures |stamps| < 200 ==> Pushed(stamps, t) == stamps + [t]
    ensures |stamps| == 200 ==> Pushed(stamps, t) == stamps[1..] + [t]
  {
  }
}
