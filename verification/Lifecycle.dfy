// The database as one state machine. Every statement that any process may issue
// is an action; schedulers, workers, monitors and API servers are interleaved
// arbitrarily, so a theorem about all action sequences holds for any number of
// each of them.
module Lifecycle {
  import opened Model
  import opened Sql
  import P = Patches

  datatype Action =
    | Tick(elapsed: Time)
    | Claim(batch: nat, locked: set<JobId>, picks: seq<Pick>)
    | SetStatus(status: Status, run: RunId, job: JobId)
    | Reset(procSec: int, schedSec: int)
    | Disable
    | Activate(id: JobId)
    | Deactivate(id: JobId)
    | Create(id: JobId, spec: JobSpec)
    | Patch(id: JobId, patch: JobPatch)
    | Delete(id: JobId)
    | Abort // a statement that failed, and was rolled back

  // The tables, the database clock, and what an observer remembers: run
  // identifiers ever used, runs ended by a timeout sweep, when each run entered
  // its present status, and the time of the last sweep.
  datatype State = State(
    t: Tables,
    now: Time,
    used: set<RunId>,
    hung: set<RunId>,
    since: map<RunId, Time>,
    lastReset: Time)

  function Initial(start: Time): State {
    State(Tables(map[], map[], map[], map[]), start, {}, {}, map[], start)
  }

  ghost predicate Enabled(s: State, a: Action) {
    match a
    case Tick(elapsed) => elapsed >= 0
    case Claim(batch, locked, picks) =>
      && ValidPicks(s.t, s.now, batch, locked, picks)
      && forall i | 0 <= i < |picks| :: picks[i].run !in s.used
    case _ => true
  }

  function Effect(t: Tables, now: Time, a: Action): Tables
    requires a.Claim? ==> forall i | 0 <= i < |a.picks| :: a.picks[i].job in t.schedules
  {
    match a
    case Claim(_, _, picks) => ClaimAll(t, now, picks)
    case SetStatus(status, run, job) => SetRun(t, now, status, run, job)
    case Reset(procSec, schedSec) => ResetHung(t, now, procSec, schedSec)
    case Disable => DisableSpent(t)
    case Activate(id) => SetActive(t, now, id, true)
    case Deactivate(id) => SetActive(t, now, id, false)
    case Create(id, spec) => Coalesce(CreateJob(t, now, id, spec), t)
    case Patch(id, patch) => Coalesce(PatchJob(t, now, id, patch), t)
    case Delete(id) => DeleteJob(t, id)
    case _ => t
  }

  // The observer's memory is computed from the two row states alone, without
  // looking at how a statement produces the second.
  ghost function Apply(s: State, a: Action): State
    requires Enabled(s, a)
  {
    var t := Effect(s.t, s.now, a);
    State(
      t,
      if a.Tick? then s.now + a.elapsed else s.now,
      s.used + t.runs.Keys,
      s.hung + if a.Reset? then set r | r in s.t.runs && r in t.runs && Active(s.t.runs[r].status)
                                        && !Active(t.runs[r].status) else {},
      map r | r in t.runs ::
        if r in s.since && r in s.t.runs && s.t.runs[r].status == t.runs[r].status then s.since[r] else s.now,
      if a.Reset? then s.now else s.lastReset)
  }

  ghost predicate Next(s: State, a: Action, s': State) {
    Enabled(s, a) && s' == Apply(s, a)
  }

  // A behaviour visits |actions| + 1 states, starting with empty tables.
  ghost predicate Behaviour(states: seq<State>, actions: seq<Action>) {
    && |states| == |actions| + 1
    && states[0] == Initial(states[0].now)
    && forall i {:trigger actions[i]} | 0 <= i < |actions| :: Next(states[i], actions[i], states[i + 1])
  }

  lemma BehaviourGrows(states: seq<State>, actions: seq<Action>, a: Action, s': State)
    requires Behaviour(states, actions) && Next(states[|actions|], a, s')
    ensures Behaviour(states + [s'], actions + [a])
  {
    hide Next;
    var longer, more := states + [s'], actions + [a];
    forall i | 0 <= i < |more| ensures Next(longer[i], more[i], longer[i + 1]) {
      if i < |actions| { assert Next(states[i], actions[i], states[i + 1]); }
    }
  }

  // ------------------------------------------------------------- invariants

  ghost predicate KeysAgree(s: State) {
    && s.t.jobs.Keys == s.t.schedules.Keys
    && (forall k :: k in s.t.configs <==> k.job in s.t.jobs)
    && (forall r | r in s.t.runs :: s.t.runs[r].job in s.t.schedules && r in s.used)
    && s.hung <= s.used
    && (forall j | j in s.t.schedules :: s.t.schedules[j].repeatSec >= 0)
  }

  ghost predicate OneActive(t: Tables) {
    forall r, q | r in t.runs && q in t.runs && t.runs[r].job == t.runs[q].job
                  && Active(t.runs[r].status) && Active(t.runs[q].status) :: r == q
  }

  // Runs that were finished by a worker rather than swept away.
  function Finished(s: State, j: JobId): set<RunId> {
    set r | r in s.t.runs && s.t.runs[r].job == j && !Active(s.t.runs[r].status) && r !in s.hung
  }

  function Swept(s: State, j: JobId): set<RunId> {
    set r | r in s.t.runs && s.t.runs[r].job == j && r in s.hung
  }

  ghost predicate CountersExact(s: State) {
    && (forall j | j in s.t.schedules :: s.t.schedules[j].doneRuns == |Finished(s, j)|)
    && (forall r | r in s.t.runs && r in s.hung :: !Active(s.t.runs[r].status))
  }

  // The time stamps of a run, in the order in which its stages happened.
  predicate Stamps(r: RunRow, now: Time) {
    && r.scheduledAt <= now
    && (r.fetchStartedAt.Some? ==> r.scheduledAt <= r.fetchStartedAt.value <= now)
    && (r.deliverStartedAt.Some? ==>
          r.fetchStartedAt.Some? && r.fetchStartedAt.value <= r.deliverStartedAt.value <= now)
    && (r.endedAt.Some? ==> LastStart(r) <= r.endedAt.value <= now)
    && (r.endedAt.Some? <==> Terminal(r.status))
    && !r.status.Disabled?
    && (r.status.Scheduled? ==> r.fetchStartedAt.None? && r.deliverStartedAt.None?)
    && (r.status.Fetching? ==> r.fetchStartedAt.Some? && r.deliverStartedAt.None?)
    && (r.status.Delivering? ==> r.deliverStartedAt.Some?)
  }

  ghost predicate StampsOrdered(s: State) {
    && (forall r | r in s.t.runs :: Stamps(s.t.runs[r], s.now))
    && s.since.Keys == s.t.runs.Keys
    && (forall r | r in s.t.runs ::
          s.since[r] ==
            if Terminal(s.t.runs[r].status) then Coalesce(s.t.runs[r].endedAt, s.now) else LastStart(s.t.runs[r]))
    && s.lastReset <= s.now
  }

  ghost predicate Inv(s: State) {
    KeysAgree(s) && OneActive(s.t) && CountersExact(s) && StampsOrdered(s)
  }

  // ----------------------------------------------------- row-level semantics

  // A row is kept, or moves along the guard of setJobRunStatus. The timeout sweep
  // writes the very row that an error report would.
  predicate RowEvolves(r: RunRow, q: RunRow, now: Time) {
    q == r || (MayReplace(q.status, r.status) && q == Restamped(r, q.status, now))
  }

  // The write of a worker that ends a run of job j.
  predicate Ends(t: Tables, a: Action, j: JobId) {
    a.SetStatus? && a.job == j && Terminal(a.status) && SetRunMatches(t, a.status, a.run, a.job)
  }

  ghost function ScheduleAfter(t: Tables, now: Time, a: Action, j: JobId): Schedule
    requires j in t.schedules
  {
    var x := t.schedules[j];
    match a
    case Claim(_, _, picks) => if Picked(picks, j) then ClaimedSchedule(x, now) else x
    case SetStatus(status, run, job) =>
      if job == j && SetRunMatches(t, status, run, job) then Credited(x, status, now) else x
    case Disable => if Spent(x) then x.(isActive := false) else x
    case Activate(id) => if id == j && !HasActiveRun(t, j) then x.(isActive := true, updatedAt := now) else x
    case Deactivate(id) => if id == j && !HasActiveRun(t, j) then x.(isActive := false, updatedAt := now) else x
    case Patch(id, p) =>
      if id == j && PatchJob(t, now, id, p).Some? && p.schedule.Some? then PatchedSchedule(x, now, p.schedule.value)
      else x
    case _ => x
  }

  // The actions that claim, command, patch or delete this job.
  ghost predicate Touches(a: Action, id: JobId) {
    match a
    case Claim(_, _, picks) => Picked(picks, id)
    case Activate(j) => j == id
    case Deactivate(j) => j == id
    case Patch(j, _) => j == id
    case Delete(j) => j == id
    case _ => false
  }

  // The whole transition seen row by row. The safety proofs use nothing else.

  // How runs move, where new rows come from, and why rows disappear.
  ghost predicate RunsEvolve(s: State, a: Action, s': State) {
    && (forall r | r in s.t.runs && r in s'.t.runs ::
          && RowEvolves(s.t.runs[r], s'.t.runs[r], s.now)
          && (s'.t.runs[r] != s.t.runs[r] ==>
                || a.Reset?
                || (a.SetStatus? && a.run == r && a.job == s.t.runs[r].job && s'.t.runs[r].status == a.status)))
    && (forall r | r in s.t.runs && r !in s'.t.runs :: a.Delete? && s.t.runs[r].job == a.id)
    && (forall r | r in s'.t.runs && r !in s.t.runs ::
          && a.Claim? && r !in s.used && s'.t.runs[r] == NewRun(s'.t.runs[r].job, s.now)
          && Eligible(s.t, s.now, s'.t.runs[r].job) && Picked(a.picks, s'.t.runs[r].job))
    && (forall r, q | r in s'.t.runs && r !in s.t.runs && q in s'.t.runs && q !in s.t.runs
                      && s'.t.runs[r].job == s'.t.runs[q].job :: r == q)
    && (a.SetStatus? && SetRunMatches(s.t, a.status, a.run, a.job) ==>
          a.run in s'.t.runs && s'.t.runs[a.run].status == a.status)
  }

  ghost predicate SchedulesEvolve(s: State, a: Action, s': State) {
    && (forall j | j in s.t.schedules && j in s'.t.schedules :: s'.t.schedules[j] == ScheduleAfter(s.t, s.now, a, j))
    && (forall j | j in s'.t.schedules && j !in s.t.schedules ::
          && a.Create? && a.id == j
          && (forall r | r in s'.t.runs :: s'.t.runs[r].job != j)
          && s'.t.schedules[j] ==
             Schedule(true, a.spec.repeatSec, 0, a.spec.targetRuns, None, Some(a.spec.nextRunAt), s.now, s.now))
    && (a.Create? && CreateJob(s.t, s.now, a.id, a.spec).Some? ==> a.id !in s.t.schedules && a.id in s'.t.schedules)
    && (a.Create? && CreateJob(s.t, s.now, a.id, a.spec).None? ==> s'.t == s.t)
    && (a.Delete? ==> a.id !in s'.t.schedules)
    && (a.Claim? ==> forall j | Picked(a.picks, j) :: Eligible(s.t, s.now, j))
  }

  ghost predicate MemoryEvolves(s: State, a: Action, s': State) {
    && s.now <= s'.now && (s'.now > s.now ==> a.Tick? && s'.t == s.t)
    && s'.used == s.used + s'.t.runs.Keys
    && s.hung <= s'.hung
    && (forall r | r in s'.hung && r !in s.hung ::
          a.Reset? && r in s.t.runs && r in s'.t.runs && Active(s.t.runs[r].status) && !Active(s'.t.runs[r].status))
    && (a.Reset? ==> forall r | r in s.t.runs && r in s'.t.runs && s'.t.runs[r] != s.t.runs[r] :: r in s'.hung)
    && s'.since.Keys == s'.t.runs.Keys
    && (forall r | r in s'.t.runs ::
          s'.since[r] ==
            if r in s.since && r in s.t.runs && s.t.runs[r].status == s'.t.runs[r].status then s.since[r] else s.now)
    && s'.lastReset == if a.Reset? then s.now else s.lastReset
  }

  lemma PatchTouchesOneSchedule(t: Tables, now: Time, id: JobId, p: JobPatch)
    requires PatchJob(t, now, id, p).Some?
    ensures PatchJob(t, now, id, p).value.runs == t.runs
    ensures PatchJob(t, now, id, p).value.jobs.Keys == t.jobs.Keys
    ensures PatchJob(t, now, id, p).value.configs.Keys == t.configs.Keys
    ensures p.schedule.None? ==> PatchJob(t, now, id, p).value.schedules == t.schedules
    ensures p.schedule.Some? ==>
              && id in t.schedules && Coalesce(p.schedule.value.repeatSec, t.schedules[id].repeatSec) >= 0
              && PatchJob(t, now, id, p).value.schedules ==
                 t.schedules[id := PatchedSchedule(t.schedules[id], now, p.schedule.value)]
  {
    hide PatchJob, PatchedSchedule;
    P.PatchIsRowWise(t, now, id, p);
    var t' := PatchJob(t, now, id, p).value;
    if p.schedule.Some? {
      assert t'.schedules == t.schedules[id := PatchedSchedule(t.schedules[id], now, p.schedule.value)];
    }
  }

  lemma ClaimSchedules(s: State, a: Action)
    requires Enabled(s, a) && a.Claim?
    ensures SchedulesEvolve(s, a, Apply(s, a))
  {
    var s' := Apply(s, a);
    ClaimAllSchedules(s.t, s.now, a.picks);
    forall j | j in s.t.schedules && j in s'.t.schedules
      ensures s'.t.schedules[j] == ScheduleAfter(s.t, s.now, a, j)
    {
      if Picked(a.picks, j) { var i :| 0 <= i < |a.picks| && a.picks[i].job == j; }
    }
  }

  lemma ClaimRuns(s: State, a: Action)
    requires KeysAgree(s) && Enabled(s, a) && a.Claim?
    ensures RunsEvolve(s, a, Apply(s, a))
  {
    var s' := Apply(s, a);
    ClaimAllRuns(s.t, s.now, a.picks);
    ClaimAllNewRuns(s.t, s.now, a.picks);
    forall r | r in s'.t.runs && r !in s.t.runs
      ensures exists i :: 0 <= i < |a.picks| && a.picks[i].run == r && s'.t.runs[r] == NewRun(a.picks[i].job, s.now)
    {
      var i :| 0 <= i < |a.picks| && a.picks[i].run == r;
    }
  }

  lemma RunsUntouched(s: State, a: Action, s': State)
    requires KeysAgree(s) && Next(s, a, s') && !a.Claim? && !a.SetStatus? && !a.Reset? && !a.Delete?
    ensures s'.t.runs == s.t.runs
  {
    if a.Patch? && PatchJob(s.t, s.now, a.id, a.patch).Some? { PatchTouchesOneSchedule(s.t, s.now, a.id, a.patch); }
  }

  lemma RunsWritten(s: State, a: Action, s': State)
    requires KeysAgree(s) && Next(s, a, s') && (a.SetStatus? || a.Reset? || a.Delete?)
    ensures RunsEvolve(s, a, s')
  {
    assert s'.t.runs.Keys <= s.t.runs.Keys;
  }

  lemma NextRuns(s: State, a: Action, s': State)
    requires KeysAgree(s) && Next(s, a, s')
    ensures RunsEvolve(s, a, s')
  {
    hide Effect, KeysAgree;
    if a.Claim? { ClaimRuns(s, a); }
    else if a.SetStatus? || a.Reset? || a.Delete? { RunsWritten(s, a, s'); }
    else { RunsUntouched(s, a, s'); }
  }

  lemma PatchSchedules(s: State, a: Action, s': State)
    requires KeysAgree(s) && Next(s, a, s') && a.Patch?
    ensures SchedulesEvolve(s, a, s')
  {
    hide PatchJob;
    if PatchJob(s.t, s.now, a.id, a.patch).Some? { PatchTouchesOneSchedule(s.t, s.now, a.id, a.patch); }
  }

  lemma CreditedSchedules(s: State, a: Action, s': State)
    requires KeysAgree(s) && Next(s, a, s') && a.SetStatus?
    ensures SchedulesEvolve(s, a, s')
  {
    hide Credited, Restamped;
    assert s'.t == SetRun(s.t, s.now, a.status, a.run, a.job) && s'.t.schedules.Keys == s.t.schedules.Keys;
  }

  lemma DisabledSchedules(s: State, a: Action, s': State)
    requires KeysAgree(s) && Next(s, a, s') && a.Disable?
    ensures SchedulesEvolve(s, a, s')
  {
    hide HasActiveRun;
    assert s'.t.schedules.Keys == s.t.schedules.Keys;
  }

  lemma SwitchedSchedules(s: State, a: Action, s': State)
    requires KeysAgree(s) && Next(s, a, s') && (a.Activate? || a.Deactivate?)
    ensures SchedulesEvolve(s, a, s')
  {
    hide HasActiveRun, Eligible, Spent;
    assert s'.t == SetActive(s.t, s.now, a.id, a.Activate?) && s'.t.schedules.Keys == s.t.schedules.Keys;
  }

  lemma OtherSchedules(s: State, a: Action, s': State)
    requires KeysAgree(s) && Next(s, a, s') && !a.Claim? && !a.Patch?
    requires !a.SetStatus? && !a.Disable? && !a.Activate? && !a.Deactivate?
    ensures SchedulesEvolve(s, a, s')
  {
    hide ClaimAll, PatchJob, ClaimedSchedule;
  }

  lemma NextSchedules(s: State, a: Action, s': State)
    requires KeysAgree(s) && Next(s, a, s')
    ensures SchedulesEvolve(s, a, s')
  {
    hide SchedulesEvolve, KeysAgree;
    if a.Claim? { ClaimSchedules(s, a); }
    else if a.Patch? { PatchSchedules(s, a, s'); }
    else if a.SetStatus? { CreditedSchedules(s, a, s'); }
    else if a.Disable? { DisabledSchedules(s, a, s'); }
    else if a.Activate? || a.Deactivate? { SwitchedSchedules(s, a, s'); }
    else { OtherSchedules(s, a, s'); }
  }

  lemma NextMemory(s: State, a: Action, s': State)
    requires KeysAgree(s) && Next(s, a, s')
    ensures MemoryEvolves(s, a, s')
  {
  }

  lemma NewRunIsPicked(s: State, a: Action, s': State, r: RunId)
    requires Next(s, a, s') && RunsEvolve(s, a, s') && r in s'.t.runs && r !in s.t.runs
    ensures a.Claim? && exists i | 0 <= i < |a.picks| :: a.picks[i].run == r
  {
    ClaimAllNewRuns(s.t, s.now, a.picks);
  }

  // ------------------------------------------------- preservation, piece by piece

  lemma KeysAgreeApi(s: State, a: Action)
    requires KeysAgree(s) && (a.Patch? || a.Create?)
    ensures KeysAgree(Apply(s, a))
  {
    var t := Apply(s, a).t;
    if a.Patch? {
      if PatchJob(s.t, s.now, a.id, a.patch).Some? {
        PatchTouchesOneSchedule(s.t, s.now, a.id, a.patch);
        assert forall k :: k in t.configs <==> k in s.t.configs.Keys;
      }
    } else {
      forall k ensures k in t.configs <==> k.job in t.jobs {
        assert k.kind.Fetcher? || k.kind.Deliverer?;
      }
    }
  }

  lemma KeysAgreeRunWrite(s: State, a: Action)
    requires KeysAgree(s) && (a.SetStatus? || a.Reset?)
    ensures KeysAgree(Apply(s, a))
  {
    var t := Apply(s, a).t;
    assert t.schedules.Keys == s.t.schedules.Keys && t.runs.Keys == s.t.runs.Keys;
  }

  lemma ClaimKeepsIntervals(s: State, a: Action, s': State)
    requires KeysAgree(s) && SchedulesEvolve(s, a, s') && a.Claim?
    ensures forall j | j in s.t.schedules && j in s'.t.schedules :: s'.t.schedules[j].repeatSec >= 0
  {
  }

  lemma KeysAgreeClaim(s: State, a: Action)
    requires KeysAgree(s) && a.Claim? && Enabled(s, a)
    ensures KeysAgree(Apply(s, a))
  {
    hide SchedulesEvolve, ScheduleAfter;
    ClaimRuns(s, a);
    ClaimSchedules(s, a);
    ClaimKeepsIntervals(s, a, Apply(s, a));
  }

  lemma KeysAgreeOther(s: State, a: Action)
    requires KeysAgree(s) && Enabled(s, a)
    requires !a.Patch? && !a.Create? && !a.SetStatus? && !a.Reset? && !a.Claim? && !a.Delete?
    ensures KeysAgree(Apply(s, a))
  {
    assert Apply(s, a).t.runs == s.t.runs;
  }

  lemma KeysAgreeDelete(s: State, a: Action)
    requires KeysAgree(s) && Enabled(s, a) && a.Delete?
    ensures KeysAgree(Apply(s, a))
  {
    assert Apply(s, a).t.runs.Keys <= s.t.runs.Keys;
  }

  lemma KeysAgreeStep(s: State, a: Action, s': State)
    requires KeysAgree(s) && Next(s, a, s')
    ensures KeysAgree(s')
  {
    hide KeysAgree, Apply;
    if a.Patch? || a.Create? { KeysAgreeApi(s, a); }
    else if a.SetStatus? || a.Reset? { KeysAgreeRunWrite(s, a); }
    else if a.Claim? { KeysAgreeClaim(s, a); }
    else if a.Delete? { KeysAgreeDelete(s, a); }
    else { KeysAgreeOther(s, a); }
  }

  // Where an active row comes from.
  lemma ActiveBefore(s: State, a: Action, s': State, r: RunId)
    requires RunsEvolve(s, a, s') && r in s'.t.runs && Active(s'.t.runs[r].status)
    ensures r in s.t.runs ==> s.t.runs[r].job == s'.t.runs[r].job && Active(s.t.runs[r].status)
    ensures r !in s.t.runs ==> !HasActiveRun(s.t, s'.t.runs[r].job)
  {
    if r in s.t.runs { assert RowEvolves(s.t.runs[r], s'.t.runs[r], s.now); }
  }

  lemma NewRowsDiffer(s: State, a: Action, s': State, r: RunId, q: RunId)
    requires RunsEvolve(s, a, s') && r in s'.t.runs && r !in s.t.runs && q in s'.t.runs && q !in s.t.runs
    requires s'.t.runs[r].job == s'.t.runs[q].job
    ensures r == q
  {
  }

  // At most one of the rows of a claim belongs to a given job, and then the job
  // had no active run before.
  lemma OneActiveStep(s: State, a: Action, s': State)
    requires OneActive(s.t) && RunsEvolve(s, a, s')
    ensures OneActive(s'.t)
  {
    hide RunsEvolve;
    forall r, q | r in s'.t.runs && q in s'.t.runs && s'.t.runs[r].job == s'.t.runs[q].job
                  && Active(s'.t.runs[r].status) && Active(s'.t.runs[q].status)
      ensures r == q
    {
      ActiveBefore(s, a, s', r);
      ActiveBefore(s, a, s', q);
      if r !in s.t.runs && q !in s.t.runs { NewRowsDiffer(s, a, s', r, q); }
    }
  }

  lemma StampsEvolve(r: RunRow, q: RunRow, now: Time, later: Time)
    requires Stamps(r, now) && RowEvolves(r, q, now) && now <= later
    ensures Stamps(q, later)
    ensures q != r ==>
              q.status != r.status
              && now == if Terminal(q.status) then Coalesce(q.endedAt, now) else LastStart(q)
  {
  }

  lemma StampsOrderedStep(s: State, a: Action, s': State)
    requires StampsOrdered(s) && RunsEvolve(s, a, s') && MemoryEvolves(s, a, s')
    ensures StampsOrdered(s')
  {
    forall r | r in s'.t.runs
      ensures Stamps(s'.t.runs[r], s'.now)
      ensures s'.since[r] ==
                if Terminal(s'.t.runs[r].status) then Coalesce(s'.t.runs[r].endedAt, s'.now)
                else LastStart(s'.t.runs[r])
    {
      if r in s.t.runs { StampsEvolve(s.t.runs[r], s'.t.runs[r], s.now, s'.now); }
    }
  }

  // A worker's finishing write is the only action that changes Finished.
  lemma FinishedStep(s: State, a: Action, s': State, j: JobId)
    requires CountersExact(s) && s.hung <= s.used
    requires RunsEvolve(s, a, s') && MemoryEvolves(s, a, s')
    requires a.Delete? ==> a.id != j
    ensures Ends(s.t, a, j) ==> a.run !in Finished(s, j) && Finished(s', j) == Finished(s, j) + {a.run}
    ensures !Ends(s.t, a, j) ==> Finished(s', j) == Finished(s, j)
  {
    forall r ensures r in Finished(s', j) <==> r in Finished(s, j) || (Ends(s.t, a, j) && r == a.run) {
      if r in s.t.runs && r in s'.t.runs { assert RowEvolves(s.t.runs[r], s'.t.runs[r], s.now); }
    }
  }

  lemma SweptAreEnded(s: State, a: Action, s': State)
    requires CountersExact(s) && s.hung <= s.used
    requires RunsEvolve(s, a, s') && MemoryEvolves(s, a, s')
    ensures forall r | r in s'.t.runs && r in s'.hung :: !Active(s'.t.runs[r].status)
  {
  }

  lemma CountersExactStep(s: State, a: Action, s': State)
    requires CountersExact(s) && s.hung <= s.used
    requires RunsEvolve(s, a, s') && SchedulesEvolve(s, a, s') && MemoryEvolves(s, a, s')
    ensures CountersExact(s')
  {
    hide RunsEvolve, MemoryEvolves;
    SweptAreEnded(s, a, s');
    forall j | j in s'.t.schedules ensures s'.t.schedules[j].doneRuns == |Finished(s', j)| {
      if j in s.t.schedules {
        FinishedStep(s, a, s', j);
        assert ScheduleAfter(s.t, s.now, a, j).doneRuns == s.t.schedules[j].doneRuns + if Ends(s.t, a, j) then 1 else 0;
      } else {
        assert Finished(s', j) == {};
      }
    }
  }

  lemma InvSchedules(s: State, j: JobId)
    requires Inv(s)
    ensures j in s.t.jobs <==> j in s.t.schedules
  {
  }

  lemma InvStep(s: State, a: Action, s': State)
    requires Inv(s) && Next(s, a, s')
    ensures Inv(s')
    ensures RunsEvolve(s, a, s') && SchedulesEvolve(s, a, s') && MemoryEvolves(s, a, s')
  {
    NextRuns(s, a, s');
    NextSchedules(s, a, s');
    NextMemory(s, a, s');
    KeysAgreeStep(s, a, s');
    OneActiveStep(s, a, s');
    CountersExactStep(s, a, s');
    StampsOrderedStep(s, a, s');
  }

  lemma {:induction false} InvAlways(states: seq<State>, actions: seq<Action>, n: nat)
    requires Behaviour(states, actions) && n <= |actions|
    ensures Inv(states[n])
  {
    if n > 0 {
      InvAlways(states, actions, n - 1);
      InvStep(states[n - 1], actions[n - 1], states[n]);
    }
  }
}
