// Safety of the run lifecycle over every behaviour: one active run per job,
// exact counters, run budgets, stages that only advance, and time stamps precise
// enough for the timeout sweep.
module Safety {
  import opened Model
  import opened Sql
  import opened Lifecycle

  lemma ActiveCount(t: Tables, j: JobId)
    requires OneActive(t)
    ensures |ActiveRunsOf(t, j)| == if HasActiveRun(t, j) then 1 else 0
  {
    if HasActiveRun(t, j) {
      var r :| r in t.runs && t.runs[r].job == j && Active(t.runs[r].status);
      assert ActiveRunsOf(t, j) == {r};
    } else {
      assert ActiveRunsOf(t, j) == {};
    }
  }

  // Whatever the number of schedulers and the batch sizes, a job never has two
  // runs in flight.
  lemma MutualExclusion(states: seq<State>, actions: seq<Action>, n: nat, j: JobId)
    requires Behaviour(states, actions) && n <= |actions|
    ensures |ActiveRunsOf(states[n].t, j)| <= 1
  {
    InvAlways(states, actions, n);
    ActiveCount(states[n].t, j);
  }

  lemma ConservationAt(s: State, j: JobId)
    requires CountersExact(s) && j in s.t.schedules
    ensures |RunsOf(s.t, j)| == s.t.schedules[j].doneRuns + |Swept(s, j)| + |ActiveRunsOf(s.t, j)|
  {
    assert RunsOf(s.t, j) == Finished(s, j) + Swept(s, j) + ActiveRunsOf(s.t, j);
    assert |Finished(s, j) + Swept(s, j)| == |Finished(s, j)| + |Swept(s, j)|;
  }

  // Every run of a live job is counted once: finished by a worker and in
  // done_runs, or ended by a sweep, or still active.
  lemma Conservation(states: seq<State>, actions: seq<Action>, n: nat, j: JobId)
    requires Behaviour(states, actions) && n <= |actions| && j in states[n].t.schedules
    ensures |RunsOf(states[n].t, j)| ==
              states[n].t.schedules[j].doneRuns + |Swept(states[n], j)| + |ActiveRunsOf(states[n].t, j)|
  {
    InvAlways(states, actions, n);
    ConservationAt(states[n], j);
  }

  // ------------------------------------------------------------------ budgets

  ghost predicate JobWithinBudget(t: Tables, j: JobId)
    requires j in t.schedules
  {
    t.schedules[j].targetRuns == 0 || t.schedules[j].doneRuns + |ActiveRunsOf(t, j)| <= t.schedules[j].targetRuns
  }

  ghost predicate WithinBudget(t: Tables) {
    forall j | j in t.schedules :: JobWithinBudget(t, j)
  }

  // What a caller of create and patch must respect: no negative target, and no
  // new nonzero target below what the job has already done plus what is active.
  ghost predicate TargetRule(s: State, a: Action) {
    match a
    case Create(id, spec) => CreateJob(s.t, s.now, id, spec).Some? ==> spec.targetRuns >= 0
    case Patch(id, p) =>
      PatchJob(s.t, s.now, id, p).Some? && p.schedule.Some? && p.schedule.value.targetRuns.Some?
      && p.schedule.value.targetRuns.value != 0 && id in s.t.schedules ==>
        s.t.schedules[id].doneRuns + |ActiveRunsOf(s.t, id)| <= p.schedule.value.targetRuns.value
    case _ => true
  }

  // No action but a claim makes a job active; a finishing write makes it idle.
  lemma ActivityStep(s: State, a: Action, s': State, j: JobId)
    requires OneActive(s.t) && RunsEvolve(s, a, s')
    ensures !(a.Claim? && Picked(a.picks, j)) && HasActiveRun(s'.t, j) ==> HasActiveRun(s.t, j)
    ensures Ends(s.t, a, j) ==> HasActiveRun(s.t, j) && !HasActiveRun(s'.t, j)
  {
    if r :| r in s'.t.runs && s'.t.runs[r].job == j && Active(s'.t.runs[r].status) {
      if r in s.t.runs { assert RowEvolves(s.t.runs[r], s'.t.runs[r], s.now); }
    }
  }

  // Claims take a unit of budget only when one is left; finishing turns an
  // active unit into a done one; a sweep only releases.
  lemma BudgetOfJob(s: State, a: Action, s': State, j: JobId)
    requires OneActive(s.t) && OneActive(s'.t) && RunsEvolve(s, a, s') && SchedulesEvolve(s, a, s')
    requires j in s.t.schedules && j in s'.t.schedules && JobWithinBudget(s.t, j) && !(a.Patch? && a.id == j)
    ensures JobWithinBudget(s'.t, j)
  {
    ActiveCount(s.t, j);
    ActiveCount(s'.t, j);
    ActivityStep(s, a, s', j);
    var y := ScheduleAfter(s.t, s.now, a, j);
    assert s'.t.schedules[j] == y && y.targetRuns == s.t.schedules[j].targetRuns;
    assert a.Claim? && Picked(a.picks, j) ==> Eligible(s.t, s.now, j);
    assert y.doneRuns == s.t.schedules[j].doneRuns + if Ends(s.t, a, j) then 1 else 0;
  }

  lemma BudgetOfPatch(s: State, a: Action, s': State)
    requires RunsEvolve(s, a, s') && SchedulesEvolve(s, a, s')
    requires a.Patch? && a.id in s.t.schedules && a.id in s'.t.schedules && JobWithinBudget(s.t, a.id)
    ensures JobWithinBudget(s'.t, a.id) <==> TargetRule(s, a)
  {
    assert ActiveRunsOf(s'.t, a.id) == ActiveRunsOf(s.t, a.id);
    assert s'.t.schedules[a.id] == ScheduleAfter(s.t, s.now, a, a.id);
  }

  lemma PatchKeepsSchedules(s: State, a: Action, s': State)
    requires Next(s, a, s') && a.Patch?
    ensures s'.t.schedules.Keys == s.t.schedules.Keys
  {
    if PatchJob(s.t, s.now, a.id, a.patch).Some? { PatchTouchesOneSchedule(s.t, s.now, a.id, a.patch); }
  }

  lemma KeepsSchedule(s: State, a: Action, s': State, j: JobId)
    requires Next(s, a, s') && j in s.t.schedules && !(a.Delete? && a.id == j)
    ensures j in s'.t.schedules
  {
    if a.Patch? { PatchKeepsSchedules(s, a, s'); }
  }

  lemma BudgetOfNew(s: State, a: Action, s': State, j: JobId)
    requires SchedulesEvolve(s, a, s') && j in s'.t.schedules && j !in s.t.schedules
    ensures a.Create? && a.id == j && (JobWithinBudget(s'.t, j) <==> a.spec.targetRuns >= 0)
  {
    assert ActiveRunsOf(s'.t, j) == {};
  }

  lemma CreateAdds(s: State, a: Action, s': State)
    requires SchedulesEvolve(s, a, s') && a.Create?
    ensures if CreateJob(s.t, s.now, a.id, a.spec).Some? then a.id in s'.t.schedules && a.id !in s.t.schedules
            else s'.t == s.t
  {
  }

  // Exactly the rule keeps every schedule within its budget.
  lemma BudgetStep(s: State, a: Action, s': State)
    requires Inv(s) && WithinBudget(s.t) && Next(s, a, s')
    ensures WithinBudget(s'.t) <==> TargetRule(s, a)
  {
    hide Next, RunsEvolve, SchedulesEvolve, MemoryEvolves, KeysAgree, CountersExact, StampsOrdered;
    InvStep(s, a, s');
    forall j | j in s.t.schedules && j in s'.t.schedules && !(a.Patch? && a.id == j) ensures JobWithinBudget(s'.t, j) {
      BudgetOfJob(s, a, s', j);
    }
    forall j | j in s'.t.schedules && j !in s.t.schedules
      ensures a.Create? && a.id == j && (JobWithinBudget(s'.t, j) <==> a.spec.targetRuns >= 0)
    {
      BudgetOfNew(s, a, s', j);
    }
    if a.Create? { CreateAdds(s, a, s'); }
    if a.Patch? {
      PatchKeepsSchedules(s, a, s');
      if a.id in s.t.schedules { BudgetOfPatch(s, a, s'); }
    }
  }

  // As long as callers respect the rule, over every interleaving.
  lemma {:induction false} BudgetAlways(states: seq<State>, actions: seq<Action>, n: nat)
    requires Behaviour(states, actions) && n <= |actions|
    requires forall i | 0 <= i < n :: TargetRule(states[i], actions[i])
    ensures WithinBudget(states[n].t)
  {
    hide Next, Inv, TargetRule;
    if n > 0 {
      BudgetAlways(states, actions, n - 1);
      InvAlways(states, actions, n - 1);
      BudgetStep(states[n - 1], actions[n - 1], states[n]);
    }
  }

  // No job with a nonzero target has more runs done and in flight than that.
  lemma RunBudget(states: seq<State>, actions: seq<Action>, n: nat, j: JobId)
    requires Behaviour(states, actions) && n <= |actions|
    requires forall i | 0 <= i < n :: TargetRule(states[i], actions[i])
    requires j in states[n].t.schedules && states[n].t.schedules[j].targetRuns != 0
    ensures states[n].t.schedules[j].doneRuns + |ActiveRunsOf(states[n].t, j)| <= states[n].t.schedules[j].targetRuns
  {
    hide Next, TargetRule;
    BudgetAlways(states, actions, n);
    assert JobWithinBudget(states[n].t, j);
  }

  // The rule is exact for whole behaviours: all their states are within budget if
  // and only if all their actions respect it.
  lemma BudgetExact(states: seq<State>, actions: seq<Action>, n: nat)
    requires Behaviour(states, actions) && n <= |actions|
    ensures (forall i | 0 <= i < n :: TargetRule(states[i], actions[i]))
       <==> (forall k | 0 <= k <= n :: WithinBudget(states[k].t))
  {
    hide Next, Inv, TargetRule, WithinBudget;
    if forall i | 0 <= i < n :: TargetRule(states[i], actions[i]) {
      forall k | 0 <= k <= n ensures WithinBudget(states[k].t) { BudgetAlways(states, actions, k); }
    }
    if forall k | 0 <= k <= n :: WithinBudget(states[k].t) {
      forall i | 0 <= i < n ensures TargetRule(states[i], actions[i]) {
        InvAlways(states, actions, i);
        assert WithinBudget(states[i + 1].t);
        BudgetStep(states[i], actions[i], states[i + 1]);
      }
    }
  }

  // ---------------------------------------------------------- stages, timeouts

  // How often the row of run r was rewritten between two states of a behaviour.
  ghost function Rewrites(states: seq<State>, from: nat, to: nat, r: RunId): nat
    requires from <= to < |states|
  {
    if from == to then 0
    else
      Rewrites(states, from, to - 1, r) +
      if r in states[to - 1].t.runs && r in states[to].t.runs && states[to - 1].t.runs[r] != states[to].t.runs[r] then 1
      else 0
  }

  lemma StageStep(s: State, a: Action, s': State, r: RunId)
    requires RunsEvolve(s, a, s') && MemoryEvolves(s, a, s')
    ensures r in s.t.runs && r in s'.t.runs && s'.t.runs[r] != s.t.runs[r] ==>
              !Terminal(s.t.runs[r].status) && Rank(s'.t.runs[r].status) > Rank(s.t.runs[r].status)
    ensures r in s.used ==> r in s'.used && (r !in s.t.runs ==> r !in s'.t.runs)
  {
    if r in s.t.runs && r in s'.t.runs { assert RowEvolves(s.t.runs[r], s'.t.runs[r], s.now); }
  }

  lemma StepAdvances(s: State, a: Action, s': State, r: RunId)
    requires Inv(s) && Next(s, a, s')
    ensures r in s.t.runs && r in s'.t.runs && s'.t.runs[r] != s.t.runs[r] ==>
              !Terminal(s.t.runs[r].status) && Rank(s'.t.runs[r].status) > Rank(s.t.runs[r].status)
    ensures r in s.used ==> r in s'.used && (r !in s.t.runs ==> r !in s'.t.runs)
  {
    hide Next, RunsEvolve, SchedulesEvolve, MemoryEvolves;
    InvStep(s, a, s');
    StageStep(s, a, s', r);
  }

  // A row is rewritten at most three times in its life, each time to a later
  // stage, and once terminal it is never rewritten.
  lemma {:induction false} StagesOnlyAdvance(states: seq<State>, actions: seq<Action>, from: nat, to: nat, r: RunId)
    requires Behaviour(states, actions) && from <= to <= |actions| && r in states[from].t.runs
    ensures r in states[to].used
    ensures Rewrites(states, from, to, r) <= 3 - Rank(states[from].t.runs[r].status)
    ensures r in states[to].t.runs ==>
              && Rank(states[to].t.runs[r].status) >=
                 Rank(states[from].t.runs[r].status) + Rewrites(states, from, to, r)
              && (Terminal(states[from].t.runs[r].status) ==> states[to].t.runs[r] == states[from].t.runs[r])
  {
    hide Next, RunsEvolve, SchedulesEvolve, MemoryEvolves, OneActive, CountersExact, StampsOrdered;
    if from < to {
      StagesOnlyAdvance(states, actions, from, to - 1, r);
      InvAlways(states, actions, to - 1);
      StepAdvances(states[to - 1], actions[to - 1], states[to], r);
    } else {
      InvAlways(states, actions, from);
    }
  }

  // A run that disappeared with its job never comes back.
  lemma {:induction false} GoneForever(states: seq<State>, actions: seq<Action>, from: nat, to: nat, r: RunId)
    requires Behaviour(states, actions) && from <= to <= |actions|
    requires r in states[from].used && r !in states[from].t.runs
    ensures r in states[to].used && r !in states[to].t.runs
  {
    hide Next, RunsEvolve, SchedulesEvolve, MemoryEvolves, OneActive, CountersExact, StampsOrdered;
    if from < to {
      GoneForever(states, actions, from, to - 1, r);
      InvAlways(states, actions, to - 1);
      StepAdvances(states[to - 1], actions[to - 1], states[to], r);
    }
  }

  lemma ResetPrecisionAt(s: State, procSec: int, schedSec: int, r: RunId)
    requires StampsOrdered(s) && r in s.t.runs
    ensures
      var row := s.t.runs[r];
      var limit := (if row.status.Scheduled? then schedSec else procSec) * SECOND;
      ResetHung(s.t, s.now, procSec, schedSec).runs[r] ==
        if Active(row.status) && s.now - s.since[r] > limit then Restamped(row, Error, s.now) else row
  {
  }

  // In every reachable state a sweep ends exactly the active runs that have been
  // in their present status for longer than that status allows.
  lemma ResetPrecision(states: seq<State>, actions: seq<Action>, n: nat, r: RunId)
    requires Behaviour(states, actions) && n < |actions| && actions[n].Reset? && r in states[n].t.runs
    ensures r in states[n + 1].t.runs && r in states[n].since
    ensures
      var row := states[n].t.runs[r];
      var limit := (if row.status.Scheduled? then actions[n].schedSec else actions[n].procSec) * SECOND;
      var overstayed := Active(row.status) && states[n].now - states[n].since[r] > limit;
      states[n + 1].t.runs[r] == if overstayed then Restamped(row, Error, states[n].now) else row
  {
    InvAlways(states, actions, n);
    ResetPrecisionAt(states[n], actions[n].procSec, actions[n].schedSec, r);
  }
}
