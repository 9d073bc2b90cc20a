// Three guarantees about time and order over whole behaviours: how long a run
// may stay unfinished, how often a job may be scheduled, and how long a due job
// may be passed over.
module Timing {
  import opened Model
  import opened Sql
  import opened Lifecycle

  // --------------------------------------------------------- bounded occupancy

  // Up to step n, every sweep uses the same two timeouts, and at any moment the
  // last successful sweep (or the start) lies at most `period` back.
  ghost predicate SweptRegularly(
    states: seq<State>, actions: seq<Action>, n: nat, procSec: int, schedSec: int, period: Time)
    requires |states| == |actions| + 1 && n <= |actions|
  {
    && (forall k | 0 <= k < n && actions[k].Reset? :: actions[k].procSec == procSec && actions[k].schedSec == schedSec)
    && (forall i | 0 <= i <= n ::
          || states[i].now - period <= states[0].now
          || exists k | 0 <= k < i :: actions[k].Reset? && states[i].now - period <= states[k].now)
  }

  lemma ResetRemembered(s: State, a: Action, s': State)
    requires Inv(s) && Next(s, a, s')
    ensures s.lastReset <= s'.lastReset && s.lastReset <= s.now && (a.Reset? ==> s'.lastReset == s.now)
  {
    hide Next, RunsEvolve, SchedulesEvolve, KeysAgree, OneActive, CountersExact;
    InvStep(s, a, s');
  }

  lemma {:induction false} LastResetIsLast(states: seq<State>, actions: seq<Action>, n: nat)
    requires Behaviour(states, actions) && n <= |actions|
    ensures states[0].now <= states[n].lastReset
    ensures forall k | 0 <= k < n && actions[k].Reset? :: states[k].now <= states[n].lastReset
  {
    hide Next, Inv;
    if n > 0 {
      LastResetIsLast(states, actions, n - 1);
      InvAlways(states, actions, n - 1);
      ResetRemembered(states[n - 1], actions[n - 1], states[n]);
    }
  }

  // The last sweep left every active run alone, so the run entered its status
  // within that status's timeout of the sweep; earlier stages were equally short.
  predicate RowOnTime(r: RunRow, lastReset: Time, proc: Time, sched: Time, period: Time) {
    match r.status
    case Scheduled => lastReset <= r.scheduledAt + sched
    case Fetching =>
      r.fetchStartedAt.Some? ==>
        && r.fetchStartedAt.value <= r.scheduledAt + sched + period
        && lastReset <= r.fetchStartedAt.value + proc
    case Delivering =>
      r.fetchStartedAt.Some? && r.deliverStartedAt.Some? ==>
        && r.fetchStartedAt.value <= r.scheduledAt + sched + period
        && r.deliverStartedAt.value <= r.fetchStartedAt.value + proc + period
        && lastReset <= r.deliverStartedAt.value + proc
    case _ => true
  }

  ghost predicate OnTime(s: State, procSec: int, schedSec: int, period: Time) {
    forall r | r in s.t.runs :: RowOnTime(s.t.runs[r], s.lastReset, procSec * SECOND, schedSec * SECOND, period)
  }

  lemma OnTimeStep(s: State, a: Action, s': State, procSec: int, schedSec: int, period: Time)
    requires procSec >= 0 && schedSec >= 0 && period >= 0
    requires StampsOrdered(s) && OnTime(s, procSec, schedSec, period) && s.now - period <= s.lastReset
    requires RunsEvolve(s, a, s') && MemoryEvolves(s, a, s')
    requires a.Reset? ==> s'.t == ResetHung(s.t, s.now, procSec, schedSec)
    ensures OnTime(s', procSec, schedSec, period)
  {
    forall r | r in s'.t.runs
      ensures RowOnTime(s'.t.runs[r], s'.lastReset, procSec * SECOND, schedSec * SECOND, period)
    {
      if r in s.t.runs {
        assert RowEvolves(s.t.runs[r], s'.t.runs[r], s.now) && Stamps(s.t.runs[r], s.now);
        assert RowOnTime(s.t.runs[r], s.lastReset, procSec * SECOND, schedSec * SECOND, period);
      }
    }
  }

  lemma {:induction false} OnTimeAlways(
    states: seq<State>, actions: seq<Action>, n: nat, procSec: int, schedSec: int, period: Time)
    requires Behaviour(states, actions) && n <= |actions|
    requires procSec >= 0 && schedSec >= 0 && period >= 0
    requires SweptRegularly(states, actions, n, procSec, schedSec, period)
    ensures OnTime(states[n], procSec, schedSec, period) && states[n].now - period <= states[n].lastReset
  {
    hide Next, RunsEvolve, MemoryEvolves;
    LastResetIsLast(states, actions, n);
    if n > 0 {
      OnTimeAlways(states, actions, n - 1, procSec, schedSec, period);
      InvAlways(states, actions, n - 1);
      var s, a, s' := states[n - 1], actions[n - 1], states[n];
      InvStep(s, a, s');
      if a.Reset? { ResetEffect(s, a, s'); }
      OnTimeStep(s, a, s', procSec, schedSec, period);
    }
  }

  lemma ResetEffect(s: State, a: Action, s': State)
    requires Next(s, a, s') && a.Reset?
    ensures s'.t == ResetHung(s.t, s.now, a.procSec, a.schedSec)
  {
  }

  // Whatever workers and queue do: if sweeps succeed at least once in every
  // interval of length `period`, no run is left unfinished for longer than the
  // scheduling timeout, two processing timeouts and three periods.
  lemma BoundedOccupancy(
    states: seq<State>, actions: seq<Action>, n: nat, procSec: int, schedSec: int, period: Time, r: RunId)
    requires Behaviour(states, actions) && n <= |actions| && r in states[n].t.runs
    requires procSec >= 0 && schedSec >= 0 && period >= 0
    requires SweptRegularly(states, actions, n, procSec, schedSec, period)
    requires states[n].now > states[n].t.runs[r].scheduledAt + schedSec * SECOND + 2 * procSec * SECOND + 3 * period
    ensures Terminal(states[n].t.runs[r].status)
  {
    OnTimeAlways(states, actions, n, procSec, schedSec, period);
    InvAlways(states, actions, n);
    assert Stamps(states[n].t.runs[r], states[n].now);
    assert RowOnTime(states[n].t.runs[r], states[n].lastReset, procSec * SECOND, schedSec * SECOND, period);
  }

  // ---------------------------------------------------------------- rate limit

  // Runs of job j lie at least `gap` apart, and the next one is not due earlier.
  ghost predicate Spaced(s: State, j: JobId, gap: Time) {
    j in s.t.schedules ==>
      && s.t.schedules[j].repeatSec * SECOND >= gap
      && (forall r | r in s.t.runs && s.t.runs[r].job == j && s.t.schedules[j].nextRunAt.Some? ::
            s.t.runs[r].scheduledAt + gap <= s.t.schedules[j].nextRunAt.value)
      && (forall r, q | r in s.t.runs && q in s.t.runs && r != q && s.t.runs[r].job == j && s.t.runs[q].job == j ::
            Apart(s.t.runs[r].scheduledAt, s.t.runs[q].scheduledAt, gap))
  }

  predicate Apart(x: Time, y: Time, gap: Time) {
    x + gap <= y || y + gap <= x
  }

  // Create and patch keep the repeat interval of j, and nobody moves its next run.
  predicate KeepsInterval(a: Action, j: JobId, gap: Time) {
    match a
    case Create(id, spec) => id == j ==> spec.repeatSec * SECOND >= gap
    case Patch(id, p) =>
      id == j && p.schedule.Some? ==>
        && p.schedule.value.nextRunAt.None?
        && (p.schedule.value.repeatSec.Some? ==> p.schedule.value.repeatSec.value * SECOND >= gap)
    case _ => true
  }

  // A claim finds j due and moves its due time at least a gap ahead.
  lemma DueStep(s: State, a: Action, s': State, j: JobId, gap: Time)
    requires gap > 0 && KeepsInterval(a, j, gap) && SchedulesEvolve(s, a, s')
    requires j in s.t.schedules && j in s'.t.schedules && s.t.schedules[j].repeatSec * SECOND >= gap
    ensures
      var x, y := s.t.schedules[j], s'.t.schedules[j];
      var claimed := a.Claim? && Picked(a.picks, j);
      && y.repeatSec * SECOND >= gap
      && (claimed ==> x.nextRunAt.Some? && x.nextRunAt.value <= s.now)
      && (claimed && y.nextRunAt.Some? ==> s.now + gap <= y.nextRunAt.value)
      && (!claimed ==> y.nextRunAt == x.nextRunAt)
  {
    assert s'.t.schedules[j] == ScheduleAfter(s.t, s.now, a, j);
    if a.Claim? && Picked(a.picks, j) { assert Eligible(s.t, s.now, j); }
  }

  lemma SpacedStep(s: State, a: Action, s': State, j: JobId, gap: Time)
    requires gap > 0 && Spaced(s, j, gap) && KeepsInterval(a, j, gap)
    requires RunsEvolve(s, a, s') && SchedulesEvolve(s, a, s')
    ensures Spaced(s', j, gap)
  {
    if j in s.t.schedules && j in s'.t.schedules {
      DueStep(s, a, s', j, gap);
      forall r | r in s'.t.runs && s'.t.runs[r].job == j
        ensures r in s.t.runs ==> s.t.runs[r].job == j && s.t.runs[r].scheduledAt == s'.t.runs[r].scheduledAt
        ensures r !in s.t.runs ==> s'.t.runs[r].scheduledAt == s.now && a.Claim? && Picked(a.picks, j)
      {
        if r in s.t.runs { assert RowEvolves(s.t.runs[r], s'.t.runs[r], s.now); }
      }
    }
  }

  lemma {:induction false} SpacedAlways(states: seq<State>, actions: seq<Action>, n: nat, j: JobId, gap: Time)
    requires Behaviour(states, actions) && n <= |actions| && gap > 0
    requires forall i | 0 <= i < n :: KeepsInterval(actions[i], j, gap)
    ensures Spaced(states[n], j, gap)
  {
    hide Next, RunsEvolve, SchedulesEvolve, MemoryEvolves;
    if n > 0 {
      SpacedAlways(states, actions, n - 1, j, gap);
      InvAlways(states, actions, n - 1);
      InvStep(states[n - 1], actions[n - 1], states[n]);
      SpacedStep(states[n - 1], actions[n - 1], states[n], j, gap);
    }
  }

  lemma LatestRun(t: Tables, runs: set<RunId>) returns (last: RunId)
    requires runs != {} && runs <= t.runs.Keys
    ensures last in runs && forall r | r in runs :: t.runs[r].scheduledAt <= t.runs[last].scheduledAt
    decreases |runs|
  {
    last :| last in runs;
    if runs != {last} {
      var other := LatestRun(t, runs - {last});
      if t.runs[last].scheduledAt < t.runs[other].scheduledAt { last := other; }
    }
  }

  lemma {:induction false} CountSpaced(t: Tables, runs: set<RunId>, gap: Time, from: Time, to: Time)
    requires runs != {} && runs <= t.runs.Keys && gap > 0
    requires forall r | r in runs :: from <= t.runs[r].scheduledAt <= to
    requires forall r, q | r in runs && q in runs && r != q :: Apart(t.runs[r].scheduledAt, t.runs[q].scheduledAt, gap)
    ensures (|runs| - 1) * gap <= to - from
    decreases |runs|
  {
    var last := LatestRun(t, runs);
    var rest := runs - {last};
    if rest != {} {
      forall r | r in rest ensures t.runs[r].scheduledAt <= to - gap {
        assert Apart(t.runs[r].scheduledAt, t.runs[last].scheduledAt, gap);
      }
      CountSpaced(t, rest, gap, from, to - gap);
      assert |runs| == |rest| + 1;
      assert (|runs| - 1) * gap == (|rest| - 1) * gap + gap;
    } else {
      assert runs == {last};
    }
  }

  // Without patches of next_run_at, and while the repeat interval is at least
  // `gap`: any n runs of one job scheduled inside a window satisfy
  // (n - 1) * gap <= the length of the window, however many schedulers claim.
  lemma RateLimit(
    states: seq<State>, actions: seq<Action>, n: nat, j: JobId, gap: Time, runs: set<RunId>, from: Time, to: Time)
    requires Behaviour(states, actions) && n <= |actions| && gap > 0
    requires forall i | 0 <= i < n :: KeepsInterval(actions[i], j, gap)
    requires runs != {} && runs <= RunsOf(states[n].t, j)
    requires forall r | r in runs :: from <= states[n].t.runs[r].scheduledAt <= to
    ensures (|runs| - 1) * gap <= to - from
  {
    SpacedAlways(states, actions, n, j, gap);
    InvAlways(states, actions, n);
    var r :| r in runs;
    assert states[n].t.runs[r].job in states[n].t.schedules;
    CountSpaced(states[n].t, runs, gap, from, to);
  }

  // ------------------------------------------------------------- bounded bypass

  // The other schedules that are due no later than d.
  function Ahead(t: Tables, j: JobId, d: Time): set<JobId> {
    set k | k in t.schedules && k != j && t.schedules[k].nextRunAt.Some? && t.schedules[k].nextRunAt.value <= d
  }

  // Create and patch bring in no further schedule due at or before d.
  ghost predicate NoneCutsIn(t: Tables, a: Action, j: JobId, d: Time) {
    match a
    case Create(id, spec) => spec.nextRunAt > d
    case Patch(id, p) =>
      p.schedule.Some? && p.schedule.value.nextRunAt.Some? && id != j && id !in Ahead(t, j, d) ==>
        p.schedule.value.nextRunAt.value > d
    case _ => true
  }

  // A claim that nothing is locked against, later than d, finding j due at d and
  // nevertheless leaving it behind.
  ghost predicate PassesOver(s: State, a: Action, batch: nat, j: JobId, d: Time)
    requires a.Claim?
  {
    && a.batch == batch && a.locked == {}
    && s.now > d && Eligible(s.t, s.now, j) && s.t.schedules[j].nextRunAt == Some(d)
    && !Picked(a.picks, j)
  }

  lemma PassingOverShrinks(s: State, a: Action, s': State, batch: nat, j: JobId, d: Time)
    requires a.Claim? && Enabled(s, a) && PassesOver(s, a, batch, j, d)
    requires SchedulesEvolve(s, a, s')
    ensures |Ahead(s'.t, j, d)| + batch <= |Ahead(s.t, j, d)|
  {
    assert |a.picks| == batch;
    var chosen := set i | 0 <= i < |a.picks| :: a.picks[i].job;
    DistinctCount(a.picks);
    forall k | k in chosen ensures k in Ahead(s.t, j, d) && k !in Ahead(s'.t, j, d) {
      var i :| 0 <= i < |a.picks| && a.picks[i].job == k;
      assert Picked(a.picks, k) && Eligible(s.t, s.now, k);
      if k in s'.t.schedules { assert s'.t.schedules[k] == ScheduleAfter(s.t, s.now, a, k); }
    }
    AheadOfOther(s, a, s', j, d);
    assert Ahead(s'.t, j, d) <= Ahead(s.t, j, d) - chosen;
    SubsetSize(Ahead(s'.t, j, d), Ahead(s.t, j, d) - chosen);
    assert |Ahead(s.t, j, d) - chosen| == |Ahead(s.t, j, d)| - |chosen|;
  }

  lemma {:induction false} DistinctCount(picks: seq<Pick>)
    requires DistinctPicks(picks)
    ensures |set i | 0 <= i < |picks| :: picks[i].job| == |picks|
  {
    var jobs := set i | 0 <= i < |picks| :: picks[i].job;
    if picks != [] {
      var last := |picks| - 1;
      var front := picks[..last];
      DistinctCount(front);
      var before := set i | 0 <= i < |front| :: front[i].job;
      assert picks[last].job !in before;
      forall j ensures j in jobs <==> j in before + {picks[last].job} {
        if j in jobs {
          var i :| 0 <= i < |picks| && picks[i].job == j;
          if i < last { assert front[i].job == j; }
        }
        if j in before {
          var i :| 0 <= i < |front| && front[i].job == j;
          assert picks[i].job == j;
        }
      }
      assert jobs == before + {picks[last].job};
    } else {
      assert jobs == {};
    }
  }

  // Nothing but create and patch can put a schedule ahead of d: every claim
  // happens after d and moves the due time of what it claims beyond d.
  lemma AheadOfOther(s: State, a: Action, s': State, j: JobId, d: Time)
    requires SchedulesEvolve(s, a, s') && NoneCutsIn(s.t, a, j, d) && (a.Claim? ==> s.now > d)
    ensures Ahead(s'.t, j, d) <= Ahead(s.t, j, d)
  {
    forall k | k in Ahead(s'.t, j, d) ensures k in Ahead(s.t, j, d) {
      if k in s.t.schedules { assert s'.t.schedules[k] == ScheduleAfter(s.t, s.now, a, k); }
      if a.Claim? && Picked(a.picks, k) { assert Eligible(s.t, s.now, k); }
    }
  }

  function Claims(actions: seq<Action>, from: nat, to: nat): nat
    requires from <= to <= |actions|
  {
    if from == to then 0 else Claims(actions, from, to - 1) + if actions[to - 1].Claim? then 1 else 0
  }

  // Step i of a behaviour neither cuts in nor picks j, which stays due at d.
  ghost predicate LeavesBehind(states: seq<State>, actions: seq<Action>, i: nat, batch: nat, j: JobId, d: Time)
    requires i < |states| && i < |actions|
  {
    && NoneCutsIn(states[i].t, actions[i], j, d)
    && (actions[i].Claim? ==> PassesOver(states[i], actions[i], batch, j, d))
  }

  lemma AheadStep(s: State, a: Action, s': State, batch: nat, j: JobId, d: Time)
    requires Inv(s) && Next(s, a, s') && NoneCutsIn(s.t, a, j, d)
    requires a.Claim? ==> PassesOver(s, a, batch, j, d)
    ensures |Ahead(s'.t, j, d)| + (if a.Claim? then batch else 0) <= |Ahead(s.t, j, d)|
  {
    NextSchedules(s, a, s');
    if a.Claim? {
      PassingOverShrinks(s, a, s', batch, j, d);
    } else {
      AheadOfOther(s, a, s', j, d);
      SubsetSize(Ahead(s'.t, j, d), Ahead(s.t, j, d));
    }
  }

  lemma {:induction false} AheadShrinks(
    states: seq<State>, actions: seq<Action>, from: nat, to: nat, batch: nat, j: JobId, d: Time)
    requires Behaviour(states, actions) && from <= to <= |actions|
    requires forall i | from <= i < to :: LeavesBehind(states, actions, i, batch, j, d)
    ensures Claims(actions, from, to) * batch + |Ahead(states[to].t, j, d)| <= |Ahead(states[from].t, j, d)|
  {
    hide Inv, Next, NoneCutsIn, PassesOver, Ahead;
    if from < to {
      AheadShrinks(states, actions, from, to - 1, batch, j, d);
      InvAlways(states, actions, to - 1);
      assert LeavesBehind(states, actions, to - 1, batch, j, d);
      AheadStep(states[to - 1], actions[to - 1], states[to], batch, j, d);
      if actions[to - 1].Claim? {
        assert Claims(actions, from, to) * batch == Claims(actions, from, to - 1) * batch + batch;
      }
    }
  }

  lemma QuotientBound(n: nat, batch: nat, m: nat)
    requires n * batch <= m && batch >= 1
    ensures n <= m / batch
  {
    var q := m / batch;
    assert n * batch < (q + 1) * batch;
    assert n < q + 1;
  }

  // A job that stays eligible with due time d, while claims come after d and no
  // create or patch cuts in, is passed over at most |Ahead| / batch times: it is
  // among the picks of one of the first |Ahead| / batch + 1 claims.
  lemma BoundedBypass(
    states: seq<State>, actions: seq<Action>, from: nat, to: nat, batch: nat, j: JobId, d: Time)
    requires Behaviour(states, actions) && from <= to <= |actions| && batch >= 1
    requires forall i | from <= i < to :: LeavesBehind(states, actions, i, batch, j, d)
    ensures Claims(actions, from, to) <= |Ahead(states[from].t, j, d)| / batch
  {
    AheadShrinks(states, actions, from, to, batch, j, d);
    QuotientBound(Claims(actions, from, to), batch, |Ahead(states[from].t, j, d)|);
  }
}
