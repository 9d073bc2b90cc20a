// Behaviours from the empty tables that reach the two failures which Quietness and
// LastRun delimit: a monitor that disables a job around its run, and a sweep that
// wins against a worker and leaves a target unmet.
module Scenarios {
  import opened Model
  import opened Sql
  import opened Lifecycle
  import P = Patches
  import S = Safety
  import opened Database
  import opened Repository

  // The tables hold exactly one job, with this schedule and these runs.
  ghost predicate Holds(s: State, j: JobId, x: Schedule, runs: map<RunId, RunRow>) {
    s.t.jobs.Keys == {j} && s.t.schedules == map[j := x] && s.t.runs == runs
  }

  ghost predicate Reached(states: seq<State>, actions: seq<Action>, s: State) {
    Behaviour(states, actions) && states[|actions|] == s
  }

  // One more step of a behaviour.
  lemma Continue(states: seq<State>, actions: seq<Action>, a: Action)
    returns (longer: seq<State>, more: seq<Action>, s: State)
    requires Behaviour(states, actions) && Enabled(states[|actions|], a)
    ensures s == Apply(states[|actions|], a) && longer == states + [s] && more == actions + [a]
        && Reached(longer, more, s)
  {
    hide Effect, Enabled;
    s := Apply(states[|actions|], a);
    longer, more := states + [s], actions + [a];
    assert Next(states[|actions|], a, s);
    BehaviourGrows(states, actions, a, s);
  }

  lemma CreateFirst(start: Time, j: JobId, spec: JobSpec)
    requires spec.repeatSec >= 0
    ensures
      var s := Apply(Initial(start), Create(j, spec));
      var x := Schedule(true, spec.repeatSec, 0, spec.targetRuns, None, Some(spec.nextRunAt), start, start);
      Holds(s, j, x, map[]) && s.now == start && s.used == {}
  {
  }

  lemma ClaimOnly(s: State, j: JobId, x: Schedule, runs: map<RunId, RunRow>, r: RunId)
    requires Holds(s, j, x, runs) && Eligible(s.t, s.now, j) && r !in s.used
    ensures
      var a := Claim(1, {}, [Pick(j, r)]);
      && Enabled(s, a)
      && Holds(Apply(s, a), j, ClaimedSchedule(x, s.now), runs[r := NewRun(j, s.now)])
      && Apply(s, a).now == s.now && Apply(s, a).used == s.used + runs.Keys + {r}
  {
    var picks := [Pick(j, r)];
    assert Picked(picks, j) by { assert picks[0].job == j; }
    assert ClaimAll(s.t, s.now, picks) == ClaimOne(s.t, s.now, picks[0]) by { assert picks[..0] == []; }
  }

  lemma WriteOnly(s: State, j: JobId, x: Schedule, runs: map<RunId, RunRow>, r: RunId, status: Status)
    requires Holds(s, j, x, runs) && r in runs && runs[r].job == j && MayReplace(status, runs[r].status)
    ensures
      var a := SetStatus(status, r, j);
      && Holds(Apply(s, a), j, Credited(x, status, s.now), runs[r := Restamped(runs[r], status, s.now)])
      && Apply(s, a).now == s.now && Apply(s, a).used == s.used + runs.Keys
  {
  }

  lemma TargetOnly(s: State, j: JobId, x: Schedule, runs: map<RunId, RunRow>, target: int)
    requires Holds(s, j, x, runs) && x.repeatSec >= 0
    ensures
      var a := Patch(j, JobPatch(None, Some(SchedulePatch(None, Some(target), None)), None, None));
      && Sql.PatchJob(s.t, s.now, j, a.patch).Some?
      && Holds(Apply(s, a), j, x.(targetRuns := target, updatedAt := s.now), runs)
  {
    var p := JobPatch(None, Some(SchedulePatch(None, Some(target), None)), None, None);
    P.PatchIsRowWise(s.t, s.now, j, p);
    PatchTouchesOneSchedule(s.t, s.now, j, p);
  }

  lemma OverBudget(s: State, j: JobId, x: Schedule, runs: map<RunId, RunRow>, q: RunId)
    requires Holds(s, j, x, runs) && q in runs && runs[q].job == j && Active(runs[q].status)
    requires x.targetRuns != 0 && x.doneRuns >= x.targetRuns
    ensures !S.WithinBudget(s.t)
  {
    assert q in ActiveRunsOf(s.t, j);
    assert !S.JobWithinBudget(s.t, j);
  }

  lemma DisableOnly(s: State, j: JobId, x: Schedule, runs: map<RunId, RunRow>)
    requires Holds(s, j, x, runs) && Spent(x)
    ensures Holds(Apply(s, Disable), j, x.(isActive := false), runs)
  {
  }

  lemma TickOnly(s: State, j: JobId, x: Schedule, runs: map<RunId, RunRow>, elapsed: Time)
    requires Holds(s, j, x, runs) && elapsed >= 0
    ensures Holds(Apply(s, Tick(elapsed)), j, x, runs) && Apply(s, Tick(elapsed)).now == s.now + elapsed
  {
  }

  lemma SweepOnly(s: State, j: JobId, x: Schedule, r: RunId, scheduledAt: Time, procSec: int, schedSec: int)
    requires Holds(s, j, x, map[r := NewRun(j, scheduledAt)]) && s.now - scheduledAt > schedSec * SECOND
    ensures Holds(Apply(s, Reset(procSec, schedSec)), j, x,
                  map[r := NewRun(j, scheduledAt).(status := Error, endedAt := Some(s.now))])
    ensures r in Apply(s, Reset(procSec, schedSec)).hung
  {
  }

  lemma IsEligible(s: State, j: JobId, x: Schedule, runs: map<RunId, RunRow>)
    requires Holds(s, j, x, runs) && x.isActive && x.nextRunAt.Some? && x.nextRunAt.value <= s.now
    requires x.targetRuns == 0 || x.doneRuns < x.targetRuns
    requires forall r | r in runs :: !Active(runs[r].status)
    ensures Eligible(s.t, s.now, j)
  {
  }

  // What a worker leaves of a job with one run that it takes through all stages.
  function Worked(x: Schedule, now: Time): Schedule {
    Credited(Credited(Credited(x, Fetching, now), Delivering, now), Idle, now)
  }

  function WorkedRun(j: JobId, now: Time): RunRow {
    Restamped(Restamped(Restamped(NewRun(j, now), Fetching, now), Delivering, now), Idle, now)
  }

  lemma WriteNext(
    states: seq<State>, actions: seq<Action>, s: State, j: JobId, x: Schedule, r: RunId, run: RunRow, status: Status)
    returns (longer: seq<State>, more: seq<Action>, s': State)
    requires Reached(states, actions, s) && Holds(s, j, x, map[r := run]) && r in s.used
    requires run.job == j && MayReplace(status, run.status)
    ensures Reached(longer, more, s') && longer == states + [s'] && more == actions + [SetStatus(status, r, j)]
    ensures Holds(s', j, Credited(x, status, s.now), map[r := Restamped(run, status, s.now)])
    ensures s'.now == s.now && s'.used == s.used
  {
    hide Effect, Apply, Behaviour, Credited, Restamped, MayReplace;
    WriteOnly(s, j, x, map[r := run], r, status);
    longer, more, s' := Continue(states, actions, SetStatus(status, r, j));
    assert map[r := run][r := Restamped(run, status, s.now)] == map[r := Restamped(run, status, s.now)];
    assert s.used + {r} == s.used;
  }

  lemma WorkThrough(states: seq<State>, actions: seq<Action>, s: State, j: JobId, x: Schedule, r: RunId)
    returns (longer: seq<State>, more: seq<Action>, s': State)
    requires Reached(states, actions, s) && Holds(s, j, x, map[r := NewRun(j, s.now)]) && r in s.used
    ensures Reached(longer, more, s') && states <= longer && actions <= more && |more| == |actions| + 3
    ensures forall i | |actions| <= i < |more| :: more[i].SetStatus?
    ensures Holds(s', j, Worked(x, s.now), map[r := WorkedRun(j, s.now)]) && s'.now == s.now && s'.used == s.used
  {
    hide Reached, Holds, Credited;
    var run1 := Restamped(NewRun(j, s.now), Fetching, s.now);
    var run2 := Restamped(run1, Delivering, s.now);
    longer, more, s' := WriteNext(states, actions, s, j, x, r, NewRun(j, s.now), Fetching);
    longer, more, s' := WriteNext(longer, more, s', j, Credited(x, Fetching, s.now), r, run1, Delivering);
    var x2 := Credited(Credited(x, Fetching, s.now), Delivering, s.now);
    longer, more, s' := WriteNext(longer, more, s', j, x2, r, run2, Idle);
  }

  // Create a job and claim its first run.
  lemma CreateAndClaim(start: Time, j: JobId, spec: JobSpec, r: RunId)
    returns (states: seq<State>, actions: seq<Action>, s: State)
    requires spec.repeatSec >= 0 && spec.targetRuns >= 0 && spec.nextRunAt <= start
    ensures Reached(states, actions, s) && |actions| == 2 && !actions[0].Patch? && !actions[1].Patch?
    ensures
      var x := Schedule(true, spec.repeatSec, 0, spec.targetRuns, None, Some(spec.nextRunAt), start, start);
      Holds(s, j, ClaimedSchedule(x, start), map[r := NewRun(j, start)])
    ensures s.now == start && s.used == {r} && states[1].t.runs == map[] && actions[1] == Claim(1, {}, [Pick(j, r)])
  {
    hide Effect, Apply, Eligible, ClaimedSchedule, Next;
    var x := Schedule(true, spec.repeatSec, 0, spec.targetRuns, None, Some(spec.nextRunAt), start, start);
    CreateFirst(start, j, spec);
    states, actions, s := Continue([Initial(start)], [], Create(j, spec));
    IsEligible(s, j, x, map[]);
    ClaimOnly(s, j, x, map[], r);
    states, actions, s := Continue(states, actions, Claim(1, {}, [Pick(j, r)]));
    assert map[][r := NewRun(j, start)] == map[r := NewRun(j, start)];
  }

  // Create without a target, finish one run, claim another, set the target to one:
  // the next pass of the monitor disables the job around its second run.
  lemma DisabledAroundARun(start: Time, j: JobId, spec: JobSpec, r: RunId, q: RunId)
    returns (states: seq<State>, actions: seq<Action>)
    requires spec.repeatSec == 0 && spec.targetRuns == 0 && spec.nextRunAt == start && r != q
    ensures Behaviour(states, actions) && |actions| == 8 && actions[7] == Disable
    ensures forall i | 0 <= i < 8 :: actions[i].Patch? <==> i == 6
    ensures j in states[8].t.schedules && !states[8].t.schedules[j].isActive
    ensures q in states[8].t.runs && states[8].t.runs[q] == NewRun(j, start)
    ensures !S.WithinBudget(states[7].t)
  {
    hide Effect, Apply, Eligible, Behaviour;
    var x0 := Schedule(true, 0, 0, 0, None, Some(start), start, start);
    var s: State;
    states, actions, s := CreateAndClaim(start, j, spec, r);
    states, actions, s := WorkThrough(states, actions, s, j, ClaimedSchedule(x0, start), r);
    var x := Worked(ClaimedSchedule(x0, start), start);
    IsEligible(s, j, x, map[r := WorkedRun(j, start)]);
    ClaimOnly(s, j, x, map[r := WorkedRun(j, start)], q);
    states, actions, s := Continue(states, actions, Claim(1, {}, [Pick(j, q)]));
    var y, runs := ClaimedSchedule(x, start), map[r := WorkedRun(j, start)][q := NewRun(j, start)];
    TargetOnly(s, j, y, runs, 1);
    var setTarget := JobPatch(None, Some(SchedulePatch(None, Some(1), None)), None, None);
    states, actions, s := Continue(states, actions, Patch(j, setTarget));
    OverBudget(s, j, y.(targetRuns := 1, updatedAt := start), runs, q);
    DisableOnly(s, j, y.(targetRuns := 1, updatedAt := start), runs);
    states, actions, s := Continue(states, actions, Disable);
  }

  // Create with a target of one, claim its run, let the sweep end it: the target is
  // unmet, and stays so until somebody patches the due time or the target.
  lemma SweepLeavesTargetUnmet(start: Time, j: JobId, spec: JobSpec, r: RunId, procSec: int, schedSec: nat)
    returns (states: seq<State>, actions: seq<Action>)
    requires spec.repeatSec >= 0 && spec.targetRuns == 1 && spec.nextRunAt <= start
    ensures Behaviour(states, actions) && |actions| == 4
    ensures r in states[2].t.runs && states[2].t.runs[r] == NewRun(j, start) && r !in states[1].t.runs
    ensures j in states[2].t.schedules && states[2].t.schedules[j].nextRunAt.None?
    ensures r in states[4].t.runs && r in states[4].hung
    ensures j in states[4].t.schedules && states[4].t.schedules[j].doneRuns == 0
        && states[4].t.schedules[j].targetRuns == 1
  {
    hide Effect, Apply, Behaviour;
    var x := ClaimedSchedule(Schedule(true, spec.repeatSec, 0, 1, None, Some(spec.nextRunAt), start, start), start);
    var s: State;
    states, actions, s := CreateAndClaim(start, j, spec, r);
    TickOnly(s, j, x, map[r := NewRun(j, start)], schedSec * SECOND + 1);
    states, actions, s := Continue(states, actions, Tick(schedSec * SECOND + 1));
    SweepOnly(s, j, x, r, start, procSec, schedSec);
    states, actions, s := Continue(states, actions, Reset(procSec, schedSec));
  }

  // -------------------------------------------------------------- torn reads

  lemma Created(start: Time, j: JobId, spec: JobSpec) returns (states: seq<State>, actions: seq<Action>)
    requires spec.repeatSec >= 0
    ensures Behaviour(states, actions) && actions == [Create(j, spec)] && states[0] == Initial(start)
    ensures AsCreated(states[1], j, spec, start) && states[1].now == start && states[1].t.runs == map[]
  {
    CreateFirst(start, j, spec);
    var s: State;
    states, actions, s := Continue([Initial(start)], [], Create(j, spec));
    CreatedNow(Initial(start), Create(j, spec), s, j, spec);
  }

  // A job whose name and target are patched between the first read and the second
  // is shown with its old name and its new target, which it had in no state.
  lemma TornByPatch(start: Time, j: JobId, spec: JobSpec, name: string, target: int)
    returns (states: seq<State>, actions: seq<Action>, v: JobView)
    requires spec.repeatSec >= 0 && spec.name != name && spec.targetRuns != target
    ensures Behaviour(states, actions) && |actions| == 2
    ensures ShowsJob(states[1].t, states[2].t, states[2].t, j, v)
    ensures forall m | 0 <= m <= 2 :: !ShowsJob(states[m].t, states[m].t, states[m].t, j, v)
  {
    hide Effect, Apply, Behaviour;
    states, actions := Created(start, j, spec);
    var first := states[1];
    var p := JobPatch(Some(name), Some(SchedulePatch(None, Some(target), None)), None, None);
    P.PatchIsRowWise(first.t, start, j, p);
    PatchedTables(first, j, p);
    var s: State;
    states, actions, s := Continue(states, actions, Patch(j, p));
    v := JobView(first.t.jobs[j], ScheduleView(Idle, s.t.schedules[j], None), spec.fetcher, spec.deliverer);
    assert !HasActiveRun(s.t, j);
  }

  lemma PatchedTables(s: State, j: JobId, p: JobPatch)
    requires Sql.PatchJob(s.t, s.now, j, p).Some?
    ensures Apply(s, Patch(j, p)).t == Sql.PatchJob(s.t, s.now, j, p).value
  {
  }

  // A job that is deleted before the third read is shown with empty configurations.
  lemma TornByDelete(start: Time, j: JobId, spec: JobSpec)
    returns (states: seq<State>, actions: seq<Action>, v: JobView)
    requires spec.repeatSec >= 0 && spec.fetcher != NO_CONFIG
    ensures Behaviour(states, actions) && |actions| == 2
    ensures ShowsJob(states[1].t, states[1].t, states[2].t, j, v) && v.fetcher == NO_CONFIG && v.deliverer == NO_CONFIG
    ensures forall m | 0 <= m <= 2 :: !ShowsJob(states[m].t, states[m].t, states[m].t, j, v)
  {
    hide Effect, Apply, Behaviour;
    states, actions := Created(start, j, spec);
    var first := states[1];
    var s: State;
    DeletedTables(first, j);
    states, actions, s := Continue(states, actions, Delete(j));
    v := JobView(first.t.jobs[j], ScheduleView(Idle, first.t.schedules[j], None), NO_CONFIG, NO_CONFIG);
    assert !HasActiveRun(first.t, j);
  }

  lemma DeletedTables(s: State, j: JobId)
    ensures Apply(s, Delete(j)).t == Sql.DeleteJob(s.t, j)
  {
  }
}
