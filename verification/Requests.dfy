// What the HTTP layer lets through to the repository, and what the laws of patches
// and budgets become for requests that it has validated.
module Requests {
  import opened Model
  import opened Sql
  import P = Patches
  import L = Lifecycle
  import S = Safety

  datatype Rejection = NameRequired | NegativeInterval | NegativeTarget

  // The checks of the validators on names and schedules.
  function ValidateCreateJobRequest(spec: JobSpec): Option<Rejection> {
    if spec.name == "" then Some(NameRequired)
    else if spec.repeatSec < 0 then Some(NegativeInterval)
    else if spec.targetRuns < 0 then Some(NegativeTarget)
    else None
  }

  function ValidatePatchJobRequest(p: JobPatch): Option<Rejection> {
    if p.name == Some("") then Some(NameRequired)
    else if p.schedule.None? then None
    else if p.schedule.value.repeatSec.Some? && p.schedule.value.repeatSec.value < 0 then Some(NegativeInterval)
    else if p.schedule.value.targetRuns.Some? && p.schedule.value.targetRuns.value < 0 then Some(NegativeTarget)
    else None
  }

  // Every create and patch of the behaviour came through the HTTP layer.
  predicate Validated(a: L.Action) {
    && (a.Create? ==> ValidateCreateJobRequest(a.spec).None?)
    && (a.Patch? ==> ValidatePatchJobRequest(a.patch).None?)
  }

  // A named create is let through exactly if the repository can store it under a new
  // identifier and it keeps the target rule.
  lemma CreateIsLetThrough(s: L.State, id: JobId, spec: JobSpec)
    requires L.KeysAgree(s) && id !in s.t.jobs
    ensures ValidateCreateJobRequest(spec).None? <==>
              spec.name != "" && CreateJob(s.t, s.now, id, spec).Some? && S.TargetRule(s, L.Create(id, spec))
  {
    assert ConfigKey(id, Fetcher) !in s.t.configs && ConfigKey(id, Deliverer) !in s.t.configs;
  }

  // A patch is let through exactly if it sets neither an empty name nor a negative
  // target, and the repository can apply it to an existing job.
  lemma PatchIsLetThrough(s: L.State, id: JobId, p: JobPatch)
    requires L.KeysAgree(s) && id in s.t.jobs
    ensures ValidatePatchJobRequest(p).None? <==>
              && p.name != Some("") && PatchJob(s.t, s.now, id, p).Some?
              && (p.schedule.Some? && p.schedule.value.targetRuns.Some? ==> p.schedule.value.targetRuns.value >= 0)
  {
    hide PatchJob;
    FailsIfNegative(s, s.now, id, p);
  }

  // Of a job that does not exist, only the patch without any part succeeds.
  lemma AbsentIsNotPatched(s: L.State, now: Time, id: JobId, p: JobPatch)
    requires L.KeysAgree(s) && id !in s.t.jobs
    ensures PatchJob(s.t, now, id, p) == if p == P.EMPTY then Some(s.t) else None
  {
    hide PatchJob;
    P.PatchIsRowWise(s.t, now, id, p);
    if PatchJob(s.t, now, id, p).Some? { AbsentRows(s, now, id, p); }
  }

  // ------------------------------------------------------------------- budgets

  // The one thing that nobody checks: a patch lowers the target of a job to a
  // positive number below the runs done and in flight.
  ghost predicate Undercuts(s: L.State, a: L.Action) {
    && a.Patch? && a.id in s.t.schedules && PatchJob(s.t, s.now, a.id, a.patch).Some?
    && a.patch.schedule.Some? && a.patch.schedule.value.targetRuns.Some?
    && 0 < a.patch.schedule.value.targetRuns.value < s.t.schedules[a.id].doneRuns + |ActiveRunsOf(s.t, a.id)|
  }

  lemma ValidatedRule(s: L.State, a: L.Action)
    requires Validated(a)
    ensures S.TargetRule(s, a) <==> !Undercuts(s, a)
    ensures a.Create? ==> S.TargetRule(s, a)
  {
  }

  // With validated requests, all states are within budget if and only if no patch
  // undercuts.
  lemma BudgetOfRequests(states: seq<L.State>, actions: seq<L.Action>, n: nat)
    requires L.Behaviour(states, actions) && n <= |actions|
    requires forall i | 0 <= i < n :: Validated(actions[i])
    ensures (forall i | 0 <= i < n :: !Undercuts(states[i], actions[i]))
       <==> (forall k | 0 <= k <= n :: S.WithinBudget(states[k].t))
  {
    hide L.Next, S.TargetRule, Undercuts, Validated, S.WithinBudget;
    forall i | 0 <= i < n ensures S.TargetRule(states[i], actions[i]) <==> !Undercuts(states[i], actions[i]) {
      ValidatedRule(states[i], actions[i]);
    }
    S.BudgetExact(states, actions, n);
  }

  // ------------------------------------------------------------------- patches

  // A patch call, whether or not it succeeds.
  function After(t: Tables, now: Time, id: JobId, p: JobPatch): Tables {
    Coalesce(PatchJob(t, now, id, p), t)
  }

  // One call after the other does what their override does, but for updated_at.
  ghost predicate Lawful(t: Tables, now: Time, later: Time, id: JobId, p: JobPatch, q: JobPatch) {
    P.Untimed(After(After(t, now, id, p), later, id, q)) == P.Untimed(After(t, later, id, P.OverrideJob(p, q)))
  }

  lemma AbsentRows(s: L.State, now: Time, id: JobId, p: JobPatch)
    requires L.KeysAgree(s) && id !in s.t.jobs && PatchJob(s.t, now, id, p).Some?
    ensures PatchJob(s.t, now, id, p).value == s.t
  {
    hide PatchJob;
    P.PatchIsRowWise(s.t, now, id, p);
    var t' := PatchJob(s.t, now, id, p).value;
    assert t'.jobs == s.t.jobs && t'.schedules == s.t.schedules;
    assert t'.configs == s.t.configs;
  }

  // A patch request that only the validator would reject.
  predicate Negative(p: JobPatch) {
    p.schedule.Some? && p.schedule.value.repeatSec.Some? && p.schedule.value.repeatSec.value < 0
  }

  predicate SetsInterval(p: JobPatch) {
    p.schedule.Some? && p.schedule.value.repeatSec.Some?
  }

  // If just one of the two is negative, what only one of the two ways writes: p
  // alone if q blocks the override; if p does, q alone, unless q repairs the
  // interval, and then the override adds the part of p that q leaves to it.
  function Missed(p: JobPatch, q: JobPatch): JobPatch {
    if Negative(q) then p
    else if SetsInterval(q) then P.WithoutJob(p, q)
    else q
  }

  lemma FailsIfNegative(s: L.State, now: Time, id: JobId, p: JobPatch)
    requires L.KeysAgree(s) && id in s.t.jobs
    ensures PatchJob(s.t, now, id, p).None? <==> Negative(p)
    ensures PatchJob(s.t, now, id, p).Some? ==> P.RowsPatched(s.t, now, id, p, PatchJob(s.t, now, id, p).value)
  {
    hide PatchJob, P.RowsPatched;
    P.PatchIsRowWise(s.t, now, id, p);
  }

  lemma AbsentUnchanged(s: L.State, now: Time, id: JobId, p: JobPatch)
    requires L.KeysAgree(s) && id !in s.t.jobs
    ensures After(s.t, now, id, p) == s.t
  {
    hide PatchJob, L.KeysAgree;
    if PatchJob(s.t, now, id, p).Some? { AbsentRows(s, now, id, p); }
  }

  lemma ChangesUnlessKept(s: L.State, now: Time, id: JobId, p: JobPatch)
    requires L.KeysAgree(s) && id in s.t.jobs && !Negative(p)
    ensures P.Untimed(After(s.t, now, id, p)) == P.Untimed(s.t) <==> P.Keeps(s.t, id, p)
  {
    hide PatchJob, P.RowsPatched, P.Untimed, P.AgreeOn, P.Keeps, Negative, L.KeysAgree;
    FailsIfNegative(s, now, id, p);
    P.NothingPatched(s.t, now, id);
    P.SameResult(s.t, now, now, id, p, P.EMPTY, After(s.t, now, id, p), s.t);
    P.AgreeWithNothing(s.t, id, p);
  }

  lemma OverrideIsNegative(p: JobPatch, q: JobPatch)
    ensures Negative(P.OverrideJob(p, q)) <==> if SetsInterval(q) then Negative(q) else Negative(p)
    ensures Negative(q) ==> SetsInterval(q)
  {
  }

  // The first of the two patches fails alone.
  lemma LawIfFirstFails(s: L.State, now: Time, later: Time, id: JobId, p: JobPatch, q: JobPatch)
    requires L.KeysAgree(s) && id in s.t.jobs && Negative(p) && !Negative(q)
    ensures Lawful(s.t, now, later, id, p, q) <==> P.Keeps(s.t, id, Missed(p, q))
  {
    hide PatchJob, P.RowsPatched, P.OverrideJob, P.Untimed, P.AgreeOn, P.Keeps, P.WithoutJob;
    hide Negative, SetsInterval, L.KeysAgree;
    OverrideIsNegative(p, q);
    FailsIfNegative(s, now, id, p);
    FailsIfNegative(s, later, id, q);
    FailsIfNegative(s, later, id, P.OverrideJob(p, q));
    if SetsInterval(q) {
      var x, y := After(s.t, later, id, q), After(s.t, later, id, P.OverrideJob(p, q));
      P.SameResult(s.t, later, later, id, q, P.OverrideJob(p, q), x, y);
      P.AgreeWithOverride(s.t, id, p, q);
    } else {
      ChangesUnlessKept(s, later, id, q);
    }
  }

  // Only the second fails, and the override with it.
  lemma LawIfSecondFails(s: L.State, now: Time, later: Time, id: JobId, p: JobPatch, q: JobPatch)
    requires L.KeysAgree(s) && id in s.t.jobs && !Negative(p) && Negative(q)
    ensures Lawful(s.t, now, later, id, p, q) <==> P.Keeps(s.t, id, Missed(p, q))
  {
    hide PatchJob, P.RowsPatched, P.OverrideJob, P.Untimed, P.Keeps, Negative, SetsInterval, L.KeysAgree;
    OverrideIsNegative(p, q);
    FailsIfNegative(s, now, id, p);
    FailsIfNegative(s, later, id, P.OverrideJob(p, q));
    P.PatchThenPatch(s.t, now, later, id, p, q);
    ChangesUnlessKept(s, now, id, p);
  }

  lemma PatchLawExactAt(s: L.State, now: Time, later: Time, id: JobId, p: JobPatch, q: JobPatch)
    requires L.KeysAgree(s)
    ensures Lawful(s.t, now, later, id, p, q) <==>
              id !in s.t.jobs || Negative(p) == Negative(q) || P.Keeps(s.t, id, Missed(p, q))
  {
    hide PatchJob, P.OverrideJob, P.Untimed, P.Keeps, Negative, SetsInterval, Missed, L.KeysAgree;
    OverrideIsNegative(p, q);
    if id !in s.t.jobs {
      AbsentUnchanged(s, now, id, p);
      AbsentUnchanged(s, later, id, q);
      AbsentUnchanged(s, later, id, P.OverrideJob(p, q));
    } else if Negative(p) == Negative(q) {
      FailsIfNegative(s, now, id, p);
      FailsIfNegative(s, later, id, q);
      FailsIfNegative(s, later, id, P.OverrideJob(p, q));
      if !Negative(p) { P.PatchThenPatch(s.t, now, later, id, p, q); }
    } else if Negative(p) {
      LawIfFirstFails(s, now, later, id, p, q);
    } else {
      LawIfSecondFails(s, now, later, id, p, q);
    }
  }

  // For any two patches that reach the repository, in every reachable state: one
  // call after the other leaves the same tables as their override, but for
  // updated_at, if and only if the job does not exist, or both or neither set a
  // negative interval, or every value that only one of the two ways writes is there
  // already.
  lemma PatchLawExact(
    states: seq<L.State>, actions: seq<L.Action>, n: nat, now: Time, later: Time, id: JobId, p: JobPatch, q: JobPatch)
    requires L.Behaviour(states, actions) && n <= |actions|
    ensures Lawful(states[n].t, now, later, id, p, q) <==>
              id !in states[n].t.jobs || Negative(p) == Negative(q) || P.Keeps(states[n].t, id, Missed(p, q))
  {
    hide L.Next, L.KeysAgree, Lawful, P.Keeps, Negative, Missed;
    L.InvAlways(states, actions, n);
    PatchLawExactAt(states[n], now, later, id, p, q);
  }

  // Two inputs at which the law fails, in every state that holds the job with
  // another target: the patch of the target goes through once and not the other way.
  lemma UnlawfulPairs(s: L.State, now: Time, later: Time, id: JobId, target: int)
    requires L.KeysAgree(s) && id in s.t.schedules && s.t.schedules[id].targetRuns != target
    ensures
      var bad := JobPatch(None, Some(SchedulePatch(Some(-1), None, None)), None, None);
      var good := JobPatch(None, Some(SchedulePatch(None, Some(target), None)), None, None);
      !Lawful(s.t, now, later, id, bad, good) && !Lawful(s.t, now, later, id, good, bad)
  {
    hide Lawful;
    var bad := JobPatch(None, Some(SchedulePatch(Some(-1), None, None)), None, None);
    var good := JobPatch(None, Some(SchedulePatch(None, Some(target), None)), None, None);
    PatchLawExactAt(s, now, later, id, bad, good);
    PatchLawExactAt(s, now, later, id, good, bad);
  }

  // In every reachable state, for any job whether or not it exists: one validated
  // patch request after another leaves the same tables as their override, but for
  // updated_at.
  lemma PatchLaw(
    states: seq<L.State>, actions: seq<L.Action>, n: nat, now: Time, later: Time, id: JobId, p: JobPatch, q: JobPatch)
    requires L.Behaviour(states, actions) && n <= |actions|
    requires ValidatePatchJobRequest(p).None? && ValidatePatchJobRequest(q).None?
    ensures Lawful(states[n].t, now, later, id, p, q)
  {
    hide L.Next, L.KeysAgree, Lawful, P.Keeps, Missed;
    PatchLawExact(states, actions, n, now, later, id, p, q);
    assert !Negative(p) && !Negative(q);
  }
}
