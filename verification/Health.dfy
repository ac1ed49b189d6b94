/** ConnectionHealthMonitor of edge/edge_monitor/runtime.py: hysteresis over send results. */
module Health {
  import opened Prelude

  datatype Transition = Lost | Recovered {
    function EventType(): string { if Lost? then "CONNECTION_LOST" else "CONNECTION_RECOVERED" }
    function Severity(): string { if Lost? then "ERROR" else "INFO" }
    function Reason(): string { if Lost? then "edge_transport_unavailable" else "edge_transport_recovered" }
  }

  datatype Limits = Limits(failures: nat, recoveries: nat) {
    predicate Valid() { failures > 0 && recoveries > 0 }
  }

  datatype Monitor = Monitor(connected: bool, failures: nat, successes: nat)

  /** One observation: the next state, and the transition it announces if any. */
  function Observe(limits: Limits, m: Monitor, success: bool): (Monitor, Option<Transition>) {
    if success then
      if !m.connected && m.successes + 1 >= limits.recoveries then (Monitor(true, 0, 0), Some(Recovered))
      else (Monitor(m.connected, 0, m.successes + 1), None)
    else
      if m.connected && m.failures + 1 >= limits.failures then (Monitor(false, 0, 0), Some(Lost))
      else (Monitor(m.connected, m.failures + 1, 0), None)
  }

  function Announced(t: Option<Transition>): seq<Transition> {
    if t.Some? then [t.value] else []
  }

  /** The monitor and the transitions it has announced after a whole history. */
  function Run(limits: Limits, initial: bool, history: seq<bool>): (Monitor, seq<Transition>) {
    if history == [] then (Monitor(initial, 0, 0), [])
    else
      var (m, ts) := Run(limits, initial, history[..|history| - 1]);
      var (m', t) := Observe(limits, m, history[|history| - 1]);
      (m', ts + Announced(t))
  }

  // ----- the same machine, described by its history alone -----

  /** The n observations before point k all have the value v. */
  ghost predicate Streak(history: seq<bool>, k: nat, n: nat, v: bool) {
    n <= k <= |history| && forall i :: k - n <= i < k ==> history[i] == v
  }

  ghost predicate Decisive(limits: Limits, history: seq<bool>, k: nat) {
    Streak(history, k, limits.failures, false) || Streak(history, k, limits.recoveries, true)
  }

  /** While connected the failure counter is the length of the streak of failures that ends the
      history, and it stays under its limit; while disconnected the same holds of successes. */
  lemma {:induction false} CountersAreStreaks(limits: Limits, initial: bool, history: seq<bool>)
    requires limits.Valid()
    ensures var m := Run(limits, initial, history).0;
            var (n, limit) := if m.connected then (m.failures, limits.failures) else (m.successes, limits.recoveries);
            && n < limit
            && Streak(history, |history|, n, !m.connected)
            && (n < |history| ==> history[|history| - 1 - n] == m.connected)
  {
    if history != [] {
      var front := history[..|history| - 1];
      CountersAreStreaks(limits, initial, front);
      var before, after := Run(limits, initial, front).0, Run(limits, initial, history).0;
      var n := if before.connected then before.failures else before.successes;
      if n < |front| && after.connected == before.connected && history[|history| - 1] != before.connected {
        assert history[|history| - 2 - n] == front[|front| - 1 - n];
      }
    }
  }

  lemma StreakWithin(history: seq<bool>, n: nat, n': nat, v: bool)
    requires n' < n && Streak(history, |history|, n', v)
    requires n' < |history| ==> history[|history| - 1 - n'] != v
    ensures !Streak(history, |history|, n, v)
  {}

  /** The last decisive point of the history alone fixes the connection state: the monitor is
      connected exactly when that point ended a streak of successes. With no decisive point the
      state is still the initial one. */
  lemma {:induction false} StateIsLastDecision(limits: Limits, initial: bool, history: seq<bool>)
    requires limits.Valid()
    ensures forall k :: 0 < k <= |history| && Decisive(limits, history, k)
              && (forall j :: k < j <= |history| ==> !Decisive(limits, history, j))
              ==> Run(limits, initial, history).0.connected == history[k - 1]
    ensures (forall k :: 0 < k <= |history| ==> !Decisive(limits, history, k))
              ==> Run(limits, initial, history).0.connected == initial
  {
    if history != [] {
      var n := |history|;
      var front := history[..n - 1];
      StateIsLastDecision(limits, initial, front);
      forall k | 0 < k < n ensures Decisive(limits, front, k) == Decisive(limits, history, k) {
        DecisiveInFront(limits, history, k);
      }
      if Decisive(limits, history, n) {
        DecisiveEndAgrees(limits, initial, history);
      } else if Run(limits, initial, history).0.connected != Run(limits, initial, front).0.connected {
        ChangeIsDecisive(limits, initial, history);
      }
    }
  }

  lemma DecisiveInFront(limits: Limits, history: seq<bool>, k: nat)
    requires k < |history|
    ensures Decisive(limits, history[..|history| - 1], k) == Decisive(limits, history, k)
  {
    assert forall i :: 0 <= i < k ==> history[..|history| - 1][i] == history[i];
  }

  /** A decisive point at the end of a history agrees with the state. */
  lemma DecisiveEndAgrees(limits: Limits, initial: bool, history: seq<bool>)
    requires limits.Valid() && history != [] && Decisive(limits, history, |history|)
    ensures Run(limits, initial, history).0.connected == history[|history| - 1]
  {
    CountersAreStreaks(limits, initial, history);
    var m := Run(limits, initial, history).0;
    if m.connected {
      StreakWithin(history, limits.failures, m.failures, false);
    } else {
      StreakWithin(history, limits.recoveries, m.successes, true);
    }
  }

  /** A state that just changed is a decisive point. */
  lemma ChangeIsDecisive(limits: Limits, initial: bool, history: seq<bool>)
    requires limits.Valid() && history != []
    requires Run(limits, initial, history).0.connected != Run(limits, initial, history[..|history| - 1]).0.connected
    ensures Decisive(limits, history, |history|)
  {
    var n := |history|;
    var front := history[..n - 1];
    CountersAreStreaks(limits, initial, front);
    var before := Run(limits, initial, front).0;
    var (c, limit) := if before.connected then (before.failures, limits.failures)
        else (before.successes, limits.recoveries);
    StreakGrows(history, c, !before.connected);
    assert c + 1 == limit;
  }

  lemma StreakGrows(history: seq<bool>, n: nat, v: bool)
    requires history != [] && Streak(history[..|history| - 1], |history| - 1, n, v) && history[|history| - 1] == v
    ensures Streak(history, |history|, n + 1, v)
  {
    var front := history[..|history| - 1];
    assert forall i :: 0 <= i < |front| ==> front[i] == history[i];
  }

  // ----- the first announcement -----

  /** The point of the history completes a streak that changes the initial state. */
  ghost predicate Changes(limits: Limits, initial: bool, history: seq<bool>, k: nat) {
    Streak(history, k, if initial then limits.failures else limits.recoveries, !initial)
  }

  ghost predicate NoChange(limits: Limits, initial: bool, history: seq<bool>) {
    forall k :: 0 < k <= |history| ==> !Changes(limits, initial, history, k)
  }

  lemma ChangesInFront(limits: Limits, initial: bool, history: seq<bool>, k: nat)
    requires k < |history|
    ensures Changes(limits, initial, history[..|history| - 1], k) == Changes(limits, initial, history, k)
  {
    assert forall i :: 0 <= i < k ==> history[..|history| - 1][i] == history[i];
  }

  /** Nothing is announced before the first point that completes a streak against the initial state, and there the
      first announcement is made: LOST if the monitor began connected, RECOVERED if it did not. */
  lemma {:induction false} FirstAnnouncement(limits: Limits, initial: bool, history: seq<bool>)
    requires limits.Valid()
    ensures var ts, first := Run(limits, initial, history).1, if initial then Lost else Recovered;
            && (ts == [] <==> NoChange(limits, initial, history))
            && (ts != [] ==> ts[0] == first)
            && (history != [] && NoChange(limits, initial, history[..|history| - 1]) ==>
                  ts == if Changes(limits, initial, history, |history|) then [first] else [])
  {
    if history != [] {
      var n, front := |history|, history[..|history| - 1];
      FirstAnnouncement(limits, initial, front);
      forall k | 0 < k < n ensures Changes(limits, initial, front, k) == Changes(limits, initial, history, k) {
        ChangesInFront(limits, initial, history, k);
      }
      assert NoChange(limits, initial, history)
        <==> NoChange(limits, initial, front) && !Changes(limits, initial, history, n);
      if NoChange(limits, initial, front) {
        StepFromInitial(limits, initial, history);
      }
    }
  }

  /** As long as nothing has been announced, the next result brings an announcement exactly if it completes a
      streak against the initial state. */
  lemma StepFromInitial(limits: Limits, initial: bool, history: seq<bool>)
    requires limits.Valid() && history != [] && Run(limits, initial, history[..|history| - 1]).1 == []
    ensures Run(limits, initial, history).1
         == if Changes(limits, initial, history, |history|) then [if initial then Lost else Recovered] else []
  {
    var front := history[..|history| - 1];
    var before := Run(limits, initial, front).0;
    TransitionsAlternate(limits, initial, front);
    CountersAreStreaks(limits, initial, front);
    var (c, limit) := if initial then (before.failures, limits.failures) else (before.successes, limits.recoveries);
    StreakCompletes(history, c, limit, !initial);
    hide Streak;
  }

  /** A streak of c that is as long as it can be becomes one of `limit` exactly with a fitting result. */
  lemma StreakCompletes(history: seq<bool>, c: nat, limit: nat, v: bool)
    requires history != [] && c < limit && Streak(history[..|history| - 1], |history| - 1, c, v)
    requires c < |history| - 1 ==> history[|history| - 2 - c] != v
    ensures Streak(history, |history|, limit, v) <==> history[|history| - 1] == v && c + 1 == limit
  {
    var n, front := |history|, history[..|history| - 1];
    if history[n - 1] == v && c + 1 == limit {
      StreakGrows(history, c, v);
    }
  }

  function CountOf(ts: seq<Transition>, t: Transition): nat {
    if ts == [] then 0 else CountOf(ts[..|ts| - 1], t) + if ts[|ts| - 1] == t then 1 else 0
  }

  /** Announcements strictly alternate, beginning with the change away from the initial state. */
  lemma {:induction false} TransitionsAlternate(limits: Limits, initial: bool, history: seq<bool>)
    ensures var (m, ts) := Run(limits, initial, history);
            && (forall i :: 0 <= i < |ts| ==> ts[i].Lost? == (initial == (i % 2 == 0)))
            && m.connected == (initial == (|ts| % 2 == 0))
  {
    if history != [] {
      TransitionsAlternate(limits, initial, history[..|history| - 1]);
    }
  }

  lemma CountAppend(limits: Limits, ts: seq<Transition>, t: Option<Transition>)
    ensures limits.failures * CountOf(ts + Announced(t), Lost)
         == limits.failures * CountOf(ts, Lost) + if t == Some(Lost) then limits.failures else 0
    ensures limits.recoveries * CountOf(ts + Announced(t), Recovered)
         == limits.recoveries * CountOf(ts, Recovered) + if t == Some(Recovered) then limits.recoveries else 0
  {
    if t.Some? {
      assert (ts + [t.value])[..|ts|] == ts;
      Distribute(limits.failures, CountOf(ts, Lost));
      Distribute(limits.recoveries, CountOf(ts, Recovered));
    } else {
      assert ts + [] == ts;
    }
  }

  /** Every LOST is paid for by its own limit of failures, every RECOVERED by its own limit of successes. */
  lemma {:induction false} TransitionsArePaidFor(limits: Limits, initial: bool, history: seq<bool>)
    requires limits.Valid()
    ensures var (m, ts) := Run(limits, initial, history);
            limits.failures * CountOf(ts, Lost) + limits.recoveries * CountOf(ts, Recovered)
            + (if m.connected then m.failures else m.successes) <= |history|
  {
    if history != [] {
      var front := history[..|history| - 1];
      TransitionsArePaidFor(limits, initial, front);
      CountersAreStreaks(limits, initial, front);
      var (m, ts) := Run(limits, initial, front);
      var (m', t) := Observe(limits, m, history[|history| - 1]);
      CountAppend(limits, ts, t);
    }
  }

  class ConnectionHealthMonitor {
    const limits: Limits
    var isConnected: bool
    var failures: nat
    var successes: nat

    ghost function State(): Monitor
      reads this
    {
      Monitor(isConnected, failures, successes)
    }

    constructor (initiallyConnected: bool, limits: Limits)
      requires limits.Valid()
      ensures this.limits == limits && State() == Run(limits, initiallyConnected, []).0
    {
      this.limits := limits;
      isConnected, failures, successes := initiallyConnected, 0, 0;
    }

    method ObserveResult(success: bool) returns (t: Option<Transition>)
      modifies this
      ensures (State(), t) == Observe(limits, old(State()), success)
    {
      if success {
        failures := 0;
        successes := successes + 1;
        if !isConnected && successes >= limits.recoveries {
          isConnected := true;
          successes := 0;
          return Some(Recovered);
        }
        return None;
      }
      successes := 0;
      failures := failures + 1;
      if isConnected && failures >= limits.failures {
        isConnected := false;
        failures := 0;
        return Some(Lost);
      }
      return None;
    }
  }
}
