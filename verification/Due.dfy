// When a job is due again, who gets a run, and what the time stamps of a run say.
module Due {
  import opened Model
  import opened Sql
  import opened Lifecycle
  import opened Statements
  import S = Safety
  import R = Repository
  import Requests

  // ----------------------------------------------------------- due once more

  // Since the claim of schedule x at time `at`, nothing but its run has happened to j.
  ghost predicate SinceClaim(x: Schedule, at: Time, s: State, j: JobId) {
    && j in s.t.schedules
    && var y := s.t.schedules[j];
       && Claimed(x, at, y.(isActive := x.isActive, doneRuns := x.doneRuns, updatedAt := at))
       && (y.isActive || (y.targetRuns != 0 && y.doneRuns >= y.targetRuns))
       && y.doneRuns + (if HasActiveRun(s.t, j) then 1 else 0) <= x.doneRuns + 1
  }

  lemma ClaimBegins(s: State, a: Action, s': State, j: JobId)
    requires Inv(s) && Next(s, a, s') && a.Claim? && Picked(a.picks, j)
    ensures j in s.t.schedules && SinceClaim(s.t.schedules[j], s.now, s', j)
  {
    hide Next, Inv, RunsEvolve, MemoryEvolves;
    InvStep(s, a, s');
    assert Eligible(s.t, s.now, j);
    assert s'.t.schedules[j] == ScheduleAfter(s.t, s.now, a, j) by { ClaimKeepsKeys(s, a, s'); }
  }

  lemma ClaimKeepsKeys(s: State, a: Action, s': State)
    requires Next(s, a, s') && a.Claim?
    ensures s'.t.schedules.Keys == s.t.schedules.Keys
  {
  }

  lemma WaitStep(x: Schedule, at: Time, s: State, a: Action, s': State, j: JobId)
    requires OneActive(s.t) && RunsEvolve(s, a, s') && SchedulesEvolve(s, a, s')
    requires SinceClaim(x, at, s, j) && !Touches(a, j) && j in s'.t.schedules
    ensures SinceClaim(x, at, s', j)
  {
    hide RunsEvolve;
    S.ActivityStep(s, a, s', j);
    assert s'.t.schedules[j] == ScheduleAfter(s.t, s.now, a, j);
  }

  lemma {:induction false} WaitAlways(states: seq<State>, actions: seq<Action>, k: nat, n: nat, j: JobId)
    requires Behaviour(states, actions) && k < n <= |actions| && actions[k].Claim? && Picked(actions[k].picks, j)
    requires forall i | k < i < n :: !Touches(actions[i], j)
    ensures j in states[k].t.schedules && SinceClaim(states[k].t.schedules[j], states[k].now, states[n], j)
  {
    hide Next, Inv, SinceClaim, Touches, RunsEvolve, SchedulesEvolve, MemoryEvolves;
    InvAlways(states, actions, k);
    var s, a, s' := states[n - 1], actions[n - 1], states[n];
    if n == k + 1 {
      ClaimBegins(s, a, s', j);
    } else {
      WaitAlways(states, actions, k, n - 1, j);
      InvAlways(states, actions, n - 1);
      InvStep(s, a, s');
      StillThere(states[k].t.schedules[j], states[k].now, s, a, s', j);
      OneActiveOf(s);
      WaitStep(states[k].t.schedules[j], states[k].now, s, a, s', j);
    }
  }

  lemma StillThere(x: Schedule, at: Time, s: State, a: Action, s': State, j: JobId)
    requires Next(s, a, s') && SinceClaim(x, at, s, j) && !Touches(a, j)
    ensures j in s'.t.schedules
  {
    S.KeepsSchedule(s, a, s', j);
  }

  lemma OneActiveOf(s: State)
    requires Inv(s)
    ensures OneActive(s.t)
  {
  }

  lemma EligibleAfter(x: Schedule, at: Time, s: State, j: JobId)
    requires SinceClaim(x, at, s, j)
    ensures Eligible(s.t, s.now, j) <==>
              && !InFlight(s.t, j) && (x.targetRuns == 0 || x.doneRuns + 1 < x.targetRuns)
              && s.now >= at + if x.repeatSec > 0 then x.repeatSec * 1_000_000_000 else 0
  {
    EligibleIsDue(s.t, s.now, j);
  }

  // Step k claims job j. As long as nobody claims, commands, patches or deletes it,
  // the job is eligible again exactly from one interval after that claim on, once
  // its run has ended, unless the claim was its last.
  lemma DueAgainExactly(states: seq<State>, actions: seq<Action>, k: nat, n: nat, j: JobId)
    requires Behaviour(states, actions) && k < n <= |actions| && actions[k].Claim? && Picked(actions[k].picks, j)
    requires forall i | k < i < n :: !Touches(actions[i], j)
    ensures j in states[k].t.schedules
    ensures
      var x := states[k].t.schedules[j];
      Eligible(states[n].t, states[n].now, j) <==>
        && !InFlight(states[n].t, j) && (x.targetRuns == 0 || x.doneRuns + 1 < x.targetRuns)
        && states[n].now >= states[k].now + if x.repeatSec > 0 then x.repeatSec * 1_000_000_000 else 0
  {
    hide Next, SinceClaim;
    WaitAlways(states, actions, k, n, j);
    EligibleAfter(states[k].t.schedules[j], states[k].now, states[n], j);
  }

  // A created job is due for the first time exactly at the time of its request.
  lemma FirstDueExactly(
    states: seq<State>, actions: seq<Action>, k: nat, n: nat, id: JobId, spec: JobSpec)
    requires Behaviour(states, actions) && k < n <= |actions| && actions[k] == Create(id, spec)
    requires id !in states[k].t.jobs && Requests.ValidateCreateJobRequest(spec).None?
    requires forall i | k < i < n :: !Touches(actions[i], id)
    ensures Eligible(states[n].t, states[n].now, id) <==> states[n].now >= spec.nextRunAt
  {
    hide Next, Inv, Touches, Sql.CreateJob;
    InvAlways(states, actions, k);
    CreateSucceeds(states[k], id, spec);
    R.AsCreatedAlways(states, actions, k, n, id, spec);
  }

  lemma CreateSucceeds(s: State, id: JobId, spec: JobSpec)
    requires Inv(s) && id !in s.t.jobs && spec.repeatSec >= 0
    ensures CreateJob(s.t, s.now, id, spec).Some?
  {
    CreateWrites(s, id, spec);
  }

  // A claim starts at most one batch of runs. One that does not fill its batch gives
  // a run to every job that is due and not held by another transaction, and no other.
  lemma DueIsClaimed(states: seq<State>, actions: seq<Action>, n: nat, j: JobId)
    requires Behaviour(states, actions) && n < |actions| && actions[n].Claim?
    ensures |states[n + 1].t.runs.Keys - states[n].t.runs.Keys| <= actions[n].batch
    ensures
      var starts := exists r :: r in RunsOf(states[n + 1].t, j) && r !in states[n].t.runs;
      var due := IsDue(states[n].t, states[n].now, j) && j !in actions[n].locked;
      && (starts ==> due)
      && (due && |states[n + 1].t.runs.Keys - states[n].t.runs.Keys| < actions[n].batch ==> starts)
  {
    var s, a, s' := states[n], actions[n], states[n + 1];
    assert Next(s, a, s');
    assert Enabled(s, a);
    hide Next, Eligible, IsDue;
    InvAlways(states, actions, n);
    EligibleIsDue(s.t, s.now, j);
    PicksAreNew(s, a, s');
    NewRunsCount(s, a, s');
    if Picked(a.picks, j) {
      var i :| 0 <= i < |a.picks| && a.picks[i].job == j;
      assert a.picks[i].run in RunsOf(s'.t, j);
    }
    if r :| r in RunsOf(s'.t, j) && r !in s.t.runs {
      var i :| 0 <= i < |a.picks| && a.picks[i].run == r;
      assert a.picks[i].job == j;
    }
  }

  lemma NewRunsCount(s: State, a: Action, s': State)
    requires KeysAgree(s) && Next(s, a, s') && a.Claim?
    ensures |s'.t.runs.Keys - s.t.runs.Keys| == |a.picks|
  {
    hide Next, KeysAgree;
    PicksAreNew(s, a, s');
    DistinctRuns(a.picks);
    assert s'.t.runs.Keys - s.t.runs.Keys == set i | 0 <= i < |a.picks| :: a.picks[i].run;
  }

  lemma {:induction false} DistinctRuns(picks: seq<Pick>)
    requires DistinctPicks(picks)
    ensures |set i | 0 <= i < |picks| :: picks[i].run| == |picks|
  {
    var runs := set i | 0 <= i < |picks| :: picks[i].run;
    if picks != [] {
      var last := |picks| - 1;
      var front := picks[..last];
      DistinctRuns(front);
      assert runs == (set i | 0 <= i < |front| :: front[i].run) + {picks[last].run};
    } else {
      assert runs == {};
    }
  }

  lemma PicksAreNew(s: State, a: Action, s': State)
    requires KeysAgree(s) && Next(s, a, s') && a.Claim?
    ensures DistinctPicks(a.picks) && forall i | 0 <= i < |a.picks| ::
              && a.picks[i].run in s'.t.runs && a.picks[i].run !in s.t.runs
              && s'.t.runs[a.picks[i].run].job == a.picks[i].job
    ensures forall r | r in s'.t.runs && r !in s.t.runs :: exists i | 0 <= i < |a.picks| :: a.picks[i].run == r
  {
    ClaimAllRuns(s.t, s.now, a.picks);
    ClaimAllNewRuns(s.t, s.now, a.picks);
  }

  // ------------------------------------------------------------------ inactive

  ghost predicate Stopped(s0: State, s: State, j: JobId) {
    j in s.t.schedules && !s.t.schedules[j].isActive && RunsOf(s.t, j) == RunsOf(s0.t, j)
  }

  lemma StoppedStep(s0: State, s: State, a: Action, s': State, j: JobId)
    requires RunsEvolve(s, a, s') && SchedulesEvolve(s, a, s') && Stopped(s0, s, j) && j in s'.t.schedules
    requires !((a.Activate? || a.Delete?) && a.id == j)
    ensures Stopped(s0, s', j)
  {
    assert s'.t.schedules[j] == ScheduleAfter(s.t, s.now, a, j);
    forall r ensures r in RunsOf(s'.t, j) <==> r in RunsOf(s.t, j) {
      if r in s.t.runs && r in s'.t.runs { assert RowEvolves(s.t.runs[r], s'.t.runs[r], s.now); }
    }
  }

  // A job that is switched off gets no run until it is switched on again.
  lemma {:induction false} InactiveGetsNoRun(states: seq<State>, actions: seq<Action>, k: nat, n: nat, j: JobId)
    requires Behaviour(states, actions) && k <= n <= |actions|
    requires j in states[k].t.schedules && !states[k].t.schedules[j].isActive
    requires forall i | k <= i < n :: !((actions[i].Activate? || actions[i].Delete?) && actions[i].id == j)
    ensures Stopped(states[k], states[n], j)
  {
    hide Next, Inv, RunsEvolve, SchedulesEvolve, MemoryEvolves;
    if k < n {
      var s, a, s' := states[n - 1], actions[n - 1], states[n];
      InactiveGetsNoRun(states, actions, k, n - 1, j);
      InvAlways(states, actions, n - 1);
      InvStep(s, a, s');
      S.KeepsSchedule(s, a, s', j);
      StoppedStep(states[k], s, a, s', j);
    }
  }

  // -------------------------------------------------------------------- stamps

  // The column of a status holds this time, and the run is past that status.
  predicate HasStamp(q: RunRow, status: Status, at: Time) {
    && Rank(q.status) >= Rank(status)
    && match status
       case Scheduled => q.scheduledAt == at
       case Fetching => q.fetchStartedAt == Some(at)
       case Delivering => q.deliverStartedAt == Some(at)
       case _ => q.endedAt == Some(at)
  }

  lemma StampStep(s: State, a: Action, s': State, r: RunId, status: Status, at: Time)
    requires RunsEvolve(s, a, s') && r in s.t.runs && r in s'.t.runs && HasStamp(s.t.runs[r], status, at)
    ensures HasStamp(s'.t.runs[r], status, at)
  {
    assert RowEvolves(s.t.runs[r], s'.t.runs[r], s.now);
  }

  lemma StampNow(s: State, a: Action, s': State, r: RunId)
    requires RunsEvolve(s, a, s') && StampsOrdered(s') && r in s'.t.runs
    requires r in s.t.runs ==> s.t.runs[r].status != s'.t.runs[r].status
    ensures HasStamp(s'.t.runs[r], s'.t.runs[r].status, s.now)
  {
    assert Stamps(s'.t.runs[r], s'.now);
    if r in s.t.runs { assert RowEvolves(s.t.runs[r], s'.t.runs[r], s.now); }
  }

  // Step k brings run r into a status. From then on the column of that status holds
  // the time of that step, in every state that still has the run.
  lemma {:induction false} StampsAreKept(states: seq<State>, actions: seq<Action>, k: nat, n: nat, r: RunId)
    requires Behaviour(states, actions) && k < n <= |actions| && r in states[k + 1].t.runs && r in states[n].t.runs
    requires r in states[k].t.runs ==> states[k].t.runs[r].status != states[k + 1].t.runs[r].status
    ensures HasStamp(states[n].t.runs[r], states[k + 1].t.runs[r].status, states[k].now)
  {
    hide Next, RunsEvolve, SchedulesEvolve, MemoryEvolves, HasStamp, KeysAgree, OneActive, CountersExact, StampsOrdered;
    var s, a, s' := states[n - 1], actions[n - 1], states[n];
    InvAlways(states, actions, n - 1);
    InvAlways(states, actions, n);
    InvStep(s, a, s');
    if n == k + 1 {
      StampNow(s, a, s', r);
    } else {
      if r !in s.t.runs {
        S.StagesOnlyAdvance(states, actions, k + 1, n - 1, r);
        S.StepAdvances(s, a, s', r);
        assert false;
      }
      StampsAreKept(states, actions, k, n - 1, r);
      StampStep(s, a, s', r, states[k + 1].t.runs[r].status, states[k].now);
    }
  }
}
