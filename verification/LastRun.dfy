// What becomes of the last run of a job with a target: nothing replaces it, so
// the target is met exactly when a worker ends it before a timeout sweep does.
module LastRun {
  import opened Model
  import opened Sql
  import opened Lifecycle
  import S = Safety

  // A call that gives job j a due time again, or removes it.
  predicate Revives(a: Action, j: JobId) {
    || (a.Patch? && a.id == j && a.patch.schedule.Some? && a.patch.schedule.value.nextRunAt.Some?)
    || (a.Delete? && a.id == j)
  }

  predicate SetsTarget(a: Action, j: JobId) {
    a.Patch? && a.id == j && a.patch.schedule.Some? && a.patch.schedule.value.targetRuns.Some?
  }

  // Since s0, job j has had no due time and got no run, and runs that had ended
  // stayed as they were.
  ghost predicate Retired(s0: State, s: State, j: JobId) {
    && j in s.t.schedules && s.t.schedules[j].nextRunAt.None?
    && RunsOf(s.t, j) == RunsOf(s0.t, j)
    && (forall r | r in RunsOf(s0.t, j) && !Active(s0.t.runs[r].status) ::
          s.t.runs[r] == s0.t.runs[r] && (r in s.hung <==> r in s0.hung))
    && s0.hung <= s.hung
  }

  lemma RunsStay(s: State, a: Action, s': State, j: JobId)
    requires RunsEvolve(s, a, s') && j in s.t.schedules && s.t.schedules[j].nextRunAt.None? && !(a.Delete? && a.id == j)
    ensures RunsOf(s'.t, j) == RunsOf(s.t, j)
  {
    forall r ensures r in RunsOf(s'.t, j) <==> r in RunsOf(s.t, j) {
      if r in s.t.runs && r in s'.t.runs { assert RowEvolves(s.t.runs[r], s'.t.runs[r], s.now); }
    }
  }

  lemma EndedStays(s: State, a: Action, s': State, r: RunId)
    requires RunsEvolve(s, a, s') && MemoryEvolves(s, a, s')
    requires r in s.t.runs && r in s'.t.runs && !Active(s.t.runs[r].status)
    ensures s'.t.runs[r] == s.t.runs[r] && (r in s'.hung <==> r in s.hung)
  {
    assert RowEvolves(s.t.runs[r], s'.t.runs[r], s.now);
  }

  lemma RetiredStep(s0: State, s: State, a: Action, s': State, j: JobId)
    requires Inv(s) && Next(s, a, s') && Retired(s0, s, j) && !Revives(a, j)
    ensures Retired(s0, s', j)
  {
    hide Next, Inv, RunsEvolve, MemoryEvolves;
    InvStep(s, a, s');
    S.KeepsSchedule(s, a, s', j);
    assert s'.t.schedules[j] == ScheduleAfter(s.t, s.now, a, j) && s'.t.schedules[j].nextRunAt.None? by {
      NoDueTime(s, a, s', j);
    }
    RunsStay(s, a, s', j);
    forall r | r in RunsOf(s0.t, j) && !Active(s0.t.runs[r].status)
      ensures s'.t.runs[r] == s0.t.runs[r] && (r in s'.hung <==> r in s0.hung)
    {
      assert r in RunsOf(s.t, j) && r in RunsOf(s'.t, j);
      EndedStays(s, a, s', r);
    }
    HungGrows(s, a, s');
  }

  lemma NoDueTime(s: State, a: Action, s': State, j: JobId)
    requires SchedulesEvolve(s, a, s') && j in s.t.schedules && j in s'.t.schedules
    requires s.t.schedules[j].nextRunAt.None? && !Revives(a, j)
    ensures s'.t.schedules[j] == ScheduleAfter(s.t, s.now, a, j) && s'.t.schedules[j].nextRunAt.None?
    ensures !SetsTarget(a, j) ==> s'.t.schedules[j].targetRuns == s.t.schedules[j].targetRuns
  {
    assert !(a.Claim? && Picked(a.picks, j));
  }

  lemma HungGrows(s: State, a: Action, s': State)
    requires MemoryEvolves(s, a, s')
    ensures s.hung <= s'.hung
  {
  }

  lemma {:induction false} RetiredStays(states: seq<State>, actions: seq<Action>, from: nat, to: nat, j: JobId)
    requires Behaviour(states, actions) && from <= to <= |actions|
    requires j in states[from].t.schedules && states[from].t.schedules[j].nextRunAt.None?
    requires forall i | from <= i < to :: !Revives(actions[i], j)
    ensures Retired(states[from], states[to], j)
  {
    hide Next, Inv;
    if from < to {
      RetiredStays(states, actions, from, to - 1, j);
      InvAlways(states, actions, to - 1);
      RetiredStep(states[from], states[to - 1], actions[to - 1], states[to], j);
    }
  }

  lemma RetiredHasNoDueTime(s0: State, s: State, j: JobId)
    requires Retired(s0, s, j)
    ensures j in s.t.schedules && s.t.schedules[j].nextRunAt.None?
  {
  }

  // A run that a worker ended, and not a sweep.
  predicate EndedByWorker(s: State, r: RunId) {
    r in s.t.runs && !Active(s.t.runs[r].status) && r !in s.hung
  }

  // Whether q counts as done at the end, from what it was at the start.
  lemma FinishedAfter(s0: State, s: State, j: JobId, q: RunId)
    requires Retired(s0, s, j) && CountersExact(s0)
    ensures q in Finished(s, j) <==> q in Finished(s0, j) || (q in ActiveRunsOf(s0.t, j) && EndedByWorker(s, q))
    ensures q in Finished(s0, j) ==> q !in ActiveRunsOf(s0.t, j)
  {
    assert q in RunsOf(s.t, j) <==> q in RunsOf(s0.t, j);
  }

  lemma CountAfterRetiring(s0: State, s: State, j: JobId)
    requires CountersExact(s0) && CountersExact(s) && Retired(s0, s, j) && j in s0.t.schedules
    requires !HasActiveRun(s0.t, j)
    ensures s.t.schedules[j].doneRuns == s0.t.schedules[j].doneRuns
  {
    hide Retired, CountersExact;
    forall q ensures q in Finished(s, j) <==> q in Finished(s0, j) { FinishedAfter(s0, s, j, q); }
    assert Finished(s, j) == Finished(s0, j);
    DoneIsFinished(s0, j);
    RetiredHasNoDueTime(s0, s, j);
    DoneIsFinished(s, j);
  }

  lemma CountWithRun(s0: State, s: State, j: JobId, r: RunId)
    requires OneActive(s0.t) && CountersExact(s0) && CountersExact(s) && Retired(s0, s, j) && j in s0.t.schedules
    requires r in ActiveRunsOf(s0.t, j)
    ensures s.t.schedules[j].doneRuns == s0.t.schedules[j].doneRuns + if EndedByWorker(s, r) then 1 else 0
  {
    hide Retired, CountersExact, EndedByWorker;
    assert ActiveRunsOf(s0.t, j) == {r};
    var gained := if EndedByWorker(s, r) then {r} else {};
    forall q ensures q in Finished(s, j) <==> q in Finished(s0, j) + gained { FinishedAfter(s0, s, j, q); }
    FinishedAfter(s0, s, j, r);
    assert Finished(s, j) == Finished(s0, j) + gained;
    DoneIsFinished(s0, j);
    RetiredHasNoDueTime(s0, s, j);
    DoneIsFinished(s, j);
  }

  lemma DoneIsFinished(s: State, j: JobId)
    requires CountersExact(s) && j in s.t.schedules
    ensures s.t.schedules[j].doneRuns == |Finished(s, j)|
  {
  }

  // Without a due time a job keeps exactly its runs until somebody patches
  // next_run_at, and done_runs grows by one exactly if a worker, and not a sweep,
  // ends the run in flight.
  lemma NoRunAfterTheLast(states: seq<State>, actions: seq<Action>, from: nat, to: nat, j: JobId)
    requires Behaviour(states, actions) && from <= to <= |actions|
    requires j in states[from].t.schedules && states[from].t.schedules[j].nextRunAt.None?
    requires forall i | from <= i < to :: !Revives(actions[i], j)
    ensures j in states[to].t.schedules && RunsOf(states[to].t, j) == RunsOf(states[from].t, j)
    ensures !HasActiveRun(states[from].t, j) ==>
              states[to].t.schedules[j].doneRuns == states[from].t.schedules[j].doneRuns
    ensures forall r | r in RunsOf(states[from].t, j) && Active(states[from].t.runs[r].status) ::
              states[to].t.schedules[j].doneRuns ==
                states[from].t.schedules[j].doneRuns + if EndedByWorker(states[to], r) then 1 else 0
  {
    hide Next, CountersExact, OneActive, KeysAgree, StampsOrdered, EndedByWorker;
    RetiredStays(states, actions, from, to, j);
    InvAlways(states, actions, from);
    InvAlways(states, actions, to);
    if !HasActiveRun(states[from].t, j) { CountAfterRetiring(states[from], states[to], j); }
    forall r | r in RunsOf(states[from].t, j) && Active(states[from].t.runs[r].status)
      ensures states[to].t.schedules[j].doneRuns ==
                states[from].t.schedules[j].doneRuns + if EndedByWorker(states[to], r) then 1 else 0
    {
      CountWithRun(states[from], states[to], j, r);
    }
  }

  lemma {:induction false} TargetStays(states: seq<State>, actions: seq<Action>, from: nat, to: nat, j: JobId)
    requires Behaviour(states, actions) && from <= to <= |actions|
    requires j in states[from].t.schedules && states[from].t.schedules[j].nextRunAt.None?
    requires forall i | from <= i < to :: !Revives(actions[i], j) && !SetsTarget(actions[i], j)
    ensures j in states[to].t.schedules
    ensures states[to].t.schedules[j].targetRuns == states[from].t.schedules[j].targetRuns
  {
    hide Next, Inv, Retired;
    if from < to {
      var s, a, s' := states[to - 1], actions[to - 1], states[to];
      TargetStays(states, actions, from, to - 1, j);
      RetiredStays(states, actions, from, to - 1, j);
      RetiredHasNoDueTime(states[from], s, j);
      InvAlways(states, actions, to - 1);
      InvStep(s, a, s');
      S.KeepsSchedule(s, a, s', j);
      NoDueTime(s, a, s', j);
    }
  }

  // The claim of a last run: the job had one run to go, and it is the new one.
  lemma LastClaim(s: State, a: Action, s': State, j: JobId, r: RunId)
    requires Inv(s) && Next(s, a, s') && r in RunsOf(s'.t, j) && r !in s.t.runs
    requires j in s'.t.schedules && s'.t.schedules[j].nextRunAt.None?
    ensures Active(s'.t.runs[r].status)
    ensures s'.t.schedules[j].targetRuns > 0 && s'.t.schedules[j].doneRuns + 1 == s'.t.schedules[j].targetRuns
  {
    hide Next, Inv, MemoryEvolves, SchedulesEvolve;
    InvStep(s, a, s');
    assert a.Claim? && Eligible(s.t, s.now, j) && Picked(a.picks, j) && Active(s'.t.runs[r].status);
    hide RunsEvolve;
    DoneNotNegative(s, j);
    LastClaimed(s, a, s', j);
  }

  lemma DoneNotNegative(s: State, j: JobId)
    requires Inv(s) && j in s.t.schedules
    ensures s.t.schedules[j].doneRuns >= 0
  {
    DoneIsFinished(s, j);
  }

  lemma LastClaimed(s: State, a: Action, s': State, j: JobId)
    requires SchedulesEvolve(s, a, s') && a.Claim? && Picked(a.picks, j) && Eligible(s.t, s.now, j)
    requires j in s'.t.schedules && s'.t.schedules[j].nextRunAt.None? && s.t.schedules[j].doneRuns >= 0
    ensures s'.t.schedules[j].targetRuns > 0 && s'.t.schedules[j].doneRuns + 1 == s'.t.schedules[j].targetRuns
  {
    assert s'.t.schedules[j] == ScheduleAfter(s.t, s.now, a, j);
  }

  // Step k claims the last run r of job j. Until its due time or its target is
  // patched, or it is deleted, the target is met if and only if r has ended and
  // no sweep ended it.
  lemma TargetMetExactly(states: seq<State>, actions: seq<Action>, k: nat, to: nat, j: JobId, r: RunId)
    requires Behaviour(states, actions) && k < to <= |actions|
    requires r in RunsOf(states[k + 1].t, j) && r !in states[k].t.runs
    requires j in states[k + 1].t.schedules && states[k + 1].t.schedules[j].nextRunAt.None?
    requires forall i | k < i < to :: !Revives(actions[i], j) && !SetsTarget(actions[i], j)
    ensures j in states[to].t.schedules && RunsOf(states[to].t, j) == RunsOf(states[k + 1].t, j)
    ensures states[to].t.schedules[j].doneRuns >= states[to].t.schedules[j].targetRuns <==> EndedByWorker(states[to], r)
  {
    hide Next, Inv;
    InvAlways(states, actions, k);
    assert Next(states[k], actions[k], states[k + 1]);
    LastClaim(states[k], actions[k], states[k + 1], j, r);
    NoRunAfterTheLast(states, actions, k + 1, to, j);
    TargetStays(states, actions, k + 1, to, j);
  }

  // What the observer remembers as swept is what a reset ended.
  ghost predicate SweptAt(states: seq<State>, actions: seq<Action>, i: nat, r: RunId)
    requires |states| == |actions| + 1 && i < |actions|
  {
    && actions[i].Reset? && r in states[i].t.runs && r in states[i + 1].t.runs
    && Active(states[i].t.runs[r].status) && !Active(states[i + 1].t.runs[r].status)
  }

  lemma {:induction false} SweptExactly(states: seq<State>, actions: seq<Action>, n: nat, r: RunId)
    requires Behaviour(states, actions) && n <= |actions|
    ensures r in states[n].hung <==> exists i: nat | i < n :: SweptAt(states, actions, i, r)
  {
    if n > 0 {
      SweptExactly(states, actions, n - 1, r);
      assert Next(states[n - 1], actions[n - 1], states[n]);
      assert r in states[n].hung <==> r in states[n - 1].hung || SweptAt(states, actions, n - 1, r);
    }
  }

  // Once a sweep has ended the last run, no sequence of claims, writes, sweeps,
  // commands and other patches ever meets the target.
  lemma NeverMet(states: seq<State>, actions: seq<Action>, k: nat, to: nat, j: JobId, r: RunId)
    requires Behaviour(states, actions) && k < to <= |actions|
    requires r in RunsOf(states[k + 1].t, j) && r !in states[k].t.runs
    requires j in states[k + 1].t.schedules && states[k + 1].t.schedules[j].nextRunAt.None?
    requires forall i | k < i < to :: !Revives(actions[i], j) && !SetsTarget(actions[i], j)
    requires exists i: nat | k < i < to :: SweptAt(states, actions, i, r)
    ensures j in states[to].t.schedules && states[to].t.schedules[j].doneRuns < states[to].t.schedules[j].targetRuns
  {
    hide Next, SweptAt;
    TargetMetExactly(states, actions, k, to, j, r);
    var i: nat :| k < i < to && SweptAt(states, actions, i, r);
    SweptExactly(states, actions, to, r);
  }
}
