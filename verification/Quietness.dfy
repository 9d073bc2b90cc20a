// A disabled schedule is quiet: when it holds that an inactive schedule has no run
// in flight, and exactly which patches of a target break it.
module Quietness {
  import opened Model
  import opened Sql
  import opened Lifecycle
  import S = Safety

  ghost predicate Quiet(t: Tables) {
    forall j | j in t.schedules && !t.schedules[j].isActive :: !HasActiveRun(t, j)
  }

  // Every job with a run in flight is active, and the monitor would leave it so.
  ghost predicate BusyUnspent(t: Tables) {
    forall j | j in t.schedules && HasActiveRun(t, j) :: t.schedules[j].isActive && !Spent(t.schedules[j])
  }

  // What a caller of patch must respect: no nonzero target at or below the runs
  // done, on a job with a run in flight. Everything else is harmless.
  ghost predicate QuietRule(s: State, a: Action) {
    a.Patch? && PatchJob(s.t, s.now, a.id, a.patch).Some? && a.patch.schedule.Some?
    && a.patch.schedule.value.targetRuns.Some? && a.id in s.t.schedules && HasActiveRun(s.t, a.id) ==>
      var target := a.patch.schedule.value.targetRuns.value;
      target == 0 || s.t.schedules[a.id].doneRuns < target
  }

  // The invariant says what the next pass of the monitor leaves behind.
  lemma MonitorPass(t: Tables)
    ensures Quiet(DisableSpent(t)) <==> BusyUnspent(t)
    ensures BusyUnspent(t) ==> Quiet(t)
  {
    var t' := DisableSpent(t);
    assert forall j :: HasActiveRun(t', j) == HasActiveRun(t, j);
    if Quiet(t') {
      forall j | j in t.schedules && HasActiveRun(t, j) ensures t.schedules[j].isActive && !Spent(t.schedules[j]) {
        assert j in t'.schedules;
      }
    }
  }

  lemma UnspentOther(s: State, a: Action, s': State, j: JobId)
    requires OneActive(s.t) && BusyUnspent(s.t) && RunsEvolve(s, a, s') && SchedulesEvolve(s, a, s')
    requires j in s'.t.schedules && HasActiveRun(s'.t, j) && !(a.Patch? && a.id == j)
    ensures s'.t.schedules[j].isActive && !Spent(s'.t.schedules[j])
  {
    hide RunsEvolve;
    S.ActivityStep(s, a, s', j);
    if j in s.t.schedules {
      assert s'.t.schedules[j] == ScheduleAfter(s.t, s.now, a, j);
      if a.Claim? && Picked(a.picks, j) { assert Eligible(s.t, s.now, j); }
    }
  }

  lemma UnspentPatched(s: State, a: Action, s': State)
    requires KeysAgree(s) && BusyUnspent(s.t) && Next(s, a, s') && a.Patch? && SchedulesEvolve(s, a, s')
    ensures (a.id in s'.t.schedules && HasActiveRun(s'.t, a.id) ==>
               s'.t.schedules[a.id].isActive && !Spent(s'.t.schedules[a.id])) <==> QuietRule(s, a)
  {
    RunsUntouched(s, a, s');
    S.PatchKeepsSchedules(s, a, s');
    hide Next;
    assert HasActiveRun(s'.t, a.id) == HasActiveRun(s.t, a.id);
    if a.id in s.t.schedules { assert s'.t.schedules[a.id] == ScheduleAfter(s.t, s.now, a, a.id); }
  }

  // Exactly the rule keeps the invariant.
  lemma UnspentStep(s: State, a: Action, s': State)
    requires Inv(s) && BusyUnspent(s.t) && Next(s, a, s')
    ensures BusyUnspent(s'.t) <==> QuietRule(s, a)
  {
    hide Next, RunsEvolve, SchedulesEvolve, MemoryEvolves, Spent, KeysAgree;
    InvStep(s, a, s');
    forall j | j in s'.t.schedules && HasActiveRun(s'.t, j) && !(a.Patch? && a.id == j)
      ensures s'.t.schedules[j].isActive && !Spent(s'.t.schedules[j])
    {
      UnspentOther(s, a, s', j);
    }
    if a.Patch? { UnspentPatched(s, a, s'); }
  }

  // From a state that is safe, an action followed by a pass of the monitor leaves
  // the tables quiet if and only if the action respects the rule.
  lemma QuietStep(s: State, a: Action, s1: State, s2: State)
    requires Inv(s) && BusyUnspent(s.t) && Next(s, a, s1) && Next(s1, Disable, s2)
    ensures Quiet(s2.t) <==> QuietRule(s, a)
  {
    assert s2.t == DisableSpent(s1.t);
    hide Next;
    UnspentStep(s, a, s1);
    MonitorPass(s1.t);
  }

  lemma {:induction false} UnspentAlways(states: seq<State>, actions: seq<Action>, n: nat)
    requires Behaviour(states, actions) && n <= |actions|
    requires forall i | 0 <= i < n :: QuietRule(states[i], actions[i])
    ensures BusyUnspent(states[n].t)
  {
    hide Next, Inv, QuietRule;
    if n > 0 {
      UnspentAlways(states, actions, n - 1);
      InvAlways(states, actions, n - 1);
      UnspentStep(states[n - 1], actions[n - 1], states[n]);
    }
  }

  // The rule is exact for whole behaviours: the tables are quiet after a pass of
  // the monitor at any point if and only if all actions respect it.
  lemma QuietExact(states: seq<State>, actions: seq<Action>, n: nat)
    requires Behaviour(states, actions) && n <= |actions|
    ensures (forall i | 0 <= i < n :: QuietRule(states[i], actions[i]))
       <==> (forall k | 0 <= k <= n :: Quiet(DisableSpent(states[k].t)))
  {
    hide Next, Inv, QuietRule, BusyUnspent, Quiet, DisableSpent;
    if forall i | 0 <= i < n :: QuietRule(states[i], actions[i]) {
      forall k | 0 <= k <= n ensures Quiet(DisableSpent(states[k].t)) {
        UnspentAlways(states, actions, k);
        MonitorPass(states[k].t);
      }
    }
    if forall k | 0 <= k <= n :: Quiet(DisableSpent(states[k].t)) {
      forall i | 0 <= i < n ensures QuietRule(states[i], actions[i]) {
        InvAlways(states, actions, i);
        assert Quiet(DisableSpent(states[i].t)) && Quiet(DisableSpent(states[i + 1].t));
        MonitorPass(states[i].t);
        MonitorPass(states[i + 1].t);
        UnspentStep(states[i], actions[i], states[i + 1]);
      }
    }
  }

  // While callers respect the rule, every run in flight belongs to a live schedule
  // that is active.
  lemma DisabledMeansQuiet(states: seq<State>, actions: seq<Action>, n: nat, r: RunId)
    requires Behaviour(states, actions) && n <= |actions|
    requires forall i | 0 <= i < n :: QuietRule(states[i], actions[i])
    requires r in states[n].t.runs && Active(states[n].t.runs[r].status)
    ensures states[n].t.runs[r].job in states[n].t.schedules && states[n].t.schedules[states[n].t.runs[r].job].isActive
  {
    hide Next, QuietRule;
    InvAlways(states, actions, n);
    UnspentAlways(states, actions, n);
    assert HasActiveRun(states[n].t, states[n].t.runs[r].job);
  }
}
