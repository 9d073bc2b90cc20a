// What every statement writes, column by column, and that it writes nothing else.
// The rows are described directly, not through the functions of Sql.
module Statements {
  import opened Model
  import opened Sql
  import opened Lifecycle
  import P = Patches

  // The columns of a schedule that only API calls set.
  predicate SamePlan(x: Schedule, y: Schedule) {
    y.repeatSec == x.repeatSec && y.targetRuns == x.targetRuns && y.createdAt == x.createdAt
  }

  // A claimed schedule is due again one interval from now, at once if it has none,
  // and never if this was its last run.
  predicate Claimed(x: Schedule, now: Time, y: Schedule) {
    && SamePlan(x, y) && y.isActive == x.isActive && y.doneRuns == x.doneRuns
    && y.lastScheduledAt == Some(now) && y.updatedAt == now
    && (y.nextRunAt.None? <==> x.targetRuns != 0 && x.doneRuns + 1 >= x.targetRuns)
    && (y.nextRunAt.Some? && x.repeatSec > 0 ==> y.nextRunAt.value == now + x.repeatSec * 1_000_000_000)
    && (y.nextRunAt.Some? && x.repeatSec <= 0 ==> y.nextRunAt.value == now)
  }

  predicate JustScheduled(q: RunRow, j: JobId, now: Time) {
    && q.job == j && q.status == Scheduled && q.scheduledAt == now
    && q.fetchStartedAt == None && q.deliverStartedAt == None && q.endedAt == None
  }

  ghost predicate ClaimedRows(t: Tables, now: Time, picks: seq<Pick>, t': Tables) {
    && t'.jobs == t.jobs && t'.configs == t.configs && t'.schedules.Keys == t.schedules.Keys
    && (forall i | 0 <= i < |picks| ::
          picks[i].job in t.schedules && Claimed(t.schedules[picks[i].job], now, t'.schedules[picks[i].job]))
    && (forall j | j in t.schedules && !Picked(picks, j) :: t'.schedules[j] == t.schedules[j])
  }

  ghost predicate InsertedRuns(t: Tables, now: Time, picks: seq<Pick>, t': Tables) {
    && (forall i | 0 <= i < |picks| ::
          picks[i].run in t'.runs && JustScheduled(t'.runs[picks[i].run], picks[i].job, now))
    && (forall r | r in t.runs :: r in t'.runs && t'.runs[r] == t.runs[r])
    && (forall r | r in t'.runs && r !in t.runs :: exists i | 0 <= i < |picks| :: picks[i].run == r)
  }

  lemma ClaimUpdates(t: Tables, now: Time, picks: seq<Pick>)
    requires DistinctPicks(picks) && forall i | 0 <= i < |picks| :: picks[i].job in t.schedules
    ensures ClaimedRows(t, now, picks, ClaimAll(t, now, picks))
  {
    ClaimAllSchedules(t, now, picks);
  }

  lemma ClaimInserts(t: Tables, now: Time, picks: seq<Pick>)
    requires DistinctPicks(picks)
    requires forall i | 0 <= i < |picks| :: picks[i].job in t.schedules && picks[i].run !in t.runs
    ensures InsertedRuns(t, now, picks, ClaimAll(t, now, picks))
  {
    hide ClaimAll;
    ClaimAllRuns(t, now, picks);
    ClaimAllNewRuns(t, now, picks);
  }

  // Picked schedules are claimed, their runs inserted, and nothing else is written.
  lemma ClaimWrites(t: Tables, now: Time, batch: nat, locked: set<JobId>, picks: seq<Pick>)
    requires ValidPicks(t, now, batch, locked, picks) && forall i | 0 <= i < |picks| :: picks[i].run !in t.runs
    ensures forall i | 0 <= i < |picks| :: picks[i].job in t.schedules
    ensures
      var t' := Effect(t, now, Claim(batch, locked, picks));
      ClaimedRows(t, now, picks, t') && InsertedRuns(t, now, picks, t')
  {
    hide ClaimAll, ClaimedRows, InsertedRuns;
    ClaimUpdates(t, now, picks);
    ClaimInserts(t, now, picks);
  }

  predicate InFlight(t: Tables, j: JobId) {
    exists r | r in t.runs ::
      t.runs[r].job == j
      && (t.runs[r].status == Scheduled || t.runs[r].status == Fetching || t.runs[r].status == Delivering)
  }

  // What the claim looks for: an active schedule whose time has come, with budget
  // left and no run in flight.
  predicate IsDue(t: Tables, now: Time, j: JobId) {
    && j in t.schedules && t.schedules[j].isActive
    && t.schedules[j].nextRunAt.Some? && now >= t.schedules[j].nextRunAt.value
    && (t.schedules[j].targetRuns == 0 || t.schedules[j].doneRuns < t.schedules[j].targetRuns)
    && !InFlight(t, j)
  }

  lemma EligibleIsDue(t: Tables, now: Time, j: JobId)
    ensures Eligible(t, now, j) <==> IsDue(t, now, j)
    ensures HasActiveRun(t, j) <==> InFlight(t, j)
  {
  }

  // Which status a write may follow, as in the guard of the statement.
  predicate Follows(next: Status, current: Status) {
    match next
    case Fetching => current == Scheduled
    case Delivering => current == Fetching
    case Idle => current == Scheduled || current == Fetching || current == Delivering
    case Error => current == Scheduled || current == Fetching || current == Delivering
    case _ => false
  }

  // The status and the time stamp of its stage are written, and no other column.
  predicate Stamped(x: RunRow, next: Status, now: Time, y: RunRow) {
    && y.job == x.job && y.status == next && y.scheduledAt == x.scheduledAt
    && y.fetchStartedAt == (if next == Fetching then Some(now) else x.fetchStartedAt)
    && y.deliverStartedAt == (if next == Delivering then Some(now) else x.deliverStartedAt)
    && y.endedAt == if next == Idle || next == Error then Some(now) else x.endedAt
  }

  lemma StatusWrites(t: Tables, now: Time, status: Status, run: RunId, job: JobId)
    ensures
      var t' := Effect(t, now, SetStatus(status, run, job));
      var hit := run in t.runs && t.runs[run].job == job && Follows(status, t.runs[run].status);
      && t'.jobs == t.jobs && t'.configs == t.configs
      && t'.schedules.Keys == t.schedules.Keys && t'.runs.Keys == t.runs.Keys
      && (hit ==> Stamped(t.runs[run], status, now, t'.runs[run]))
      && (forall r | r in t.runs && !(hit && r == run) :: t'.runs[r] == t.runs[r])
      && (hit && job in t.schedules ==>
            var x, y := t.schedules[job], t'.schedules[job];
            && SamePlan(x, y) && y.isActive == x.isActive && y.updatedAt == now
            && y.nextRunAt == x.nextRunAt && y.lastScheduledAt == x.lastScheduledAt
            && y.doneRuns == x.doneRuns + if status == Idle || status == Error then 1 else 0)
      && (forall j | j in t.schedules && !(hit && j == job) :: t'.schedules[j] == t.schedules[j])
  {
  }

  // Overdue: longer than allowed since the last stage began.
  predicate Overdue(x: RunRow, now: Time, procSec: int, schedSec: int) {
    var began := if x.deliverStartedAt.Some? then x.deliverStartedAt.value
                 else if x.fetchStartedAt.Some? then x.fetchStartedAt.value else x.scheduledAt;
    || ((x.status == Fetching || x.status == Delivering) && now - began > procSec * 1_000_000_000)
    || (x.status == Scheduled && now - x.scheduledAt > schedSec * 1_000_000_000)
  }

  lemma ResetWrites(t: Tables, now: Time, procSec: int, schedSec: int)
    ensures
      var t' := Effect(t, now, Reset(procSec, schedSec));
      && t'.jobs == t.jobs && t'.configs == t.configs && t'.schedules == t.schedules && t'.runs.Keys == t.runs.Keys
      && forall r | r in t.runs ::
           if Overdue(t.runs[r], now, procSec, schedSec) then Stamped(t.runs[r], Error, now, t'.runs[r])
           else t'.runs[r] == t.runs[r]
  {
  }

  lemma DisableWrites(t: Tables, now: Time)
    ensures
      var t' := Effect(t, now, Disable);
      && t'.jobs == t.jobs && t'.configs == t.configs && t'.runs == t.runs && t'.schedules.Keys == t.schedules.Keys
      && forall j | j in t.schedules ::
           && t'.schedules[j].(isActive := t.schedules[j].isActive) == t.schedules[j]
           && (t'.schedules[j].isActive <==>
                 t.schedules[j].isActive
                 && (t.schedules[j].targetRuns == 0 || t.schedules[j].doneRuns < t.schedules[j].targetRuns))
  {
  }

  lemma SwitchWrites(t: Tables, now: Time, id: JobId, active: bool)
    ensures
      var t' := Effect(t, now, if active then Activate(id) else Deactivate(id));
      && t'.jobs == t.jobs && t'.configs == t.configs && t'.runs == t.runs && t'.schedules.Keys == t.schedules.Keys
      && (forall j | j in t.schedules && j != id :: t'.schedules[j] == t.schedules[j])
      && (id in t.schedules && InFlight(t, id) ==> t'.schedules[id] == t.schedules[id])
      && (id in t.schedules && !InFlight(t, id) ==>
            && t'.schedules[id].isActive == active && t'.schedules[id].updatedAt == now
            && t'.schedules[id].(isActive := t.schedules[id].isActive, updatedAt := t.schedules[id].updatedAt) ==
               t.schedules[id])
  {
  }

  // A create fails exactly on a taken identifier or a negative interval.
  lemma CreateWrites(s: State, id: JobId, spec: JobSpec)
    requires KeysAgree(s)
    ensures CreateJob(s.t, s.now, id, spec).None? <==> id in s.t.jobs || spec.repeatSec < 0
    ensures
      var t, t' := s.t, Effect(s.t, s.now, Create(id, spec));
      if id in t.jobs || spec.repeatSec < 0 then t' == t
      else
        && t'.jobs == t.jobs[id := JobRow(spec.name, s.now, s.now)] && t'.runs == t.runs
        && t'.schedules.Keys == t.schedules.Keys + {id}
        && (forall j | j in t.schedules :: t'.schedules[j] == t.schedules[j])
        && t'.schedules[id] ==
           Schedule(true, spec.repeatSec, 0, spec.targetRuns, None, Some(spec.nextRunAt), s.now, s.now)
        && t'.configs.Keys == t.configs.Keys + {ConfigKey(id, Fetcher), ConfigKey(id, Deliverer)}
        && (forall k | k in t.configs :: t'.configs[k] == t.configs[k])
        && t'.configs[ConfigKey(id, Fetcher)] == spec.fetcher && t'.configs[ConfigKey(id, Deliverer)] == spec.deliverer
  {
    assert id !in s.t.jobs ==> ConfigKey(id, Fetcher) !in s.t.configs && ConfigKey(id, Deliverer) !in s.t.configs;
  }

  // A delete takes the job with everything that belongs to it.
  lemma DeleteWrites(s: State, id: JobId)
    requires KeysAgree(s)
    ensures
      var t, t' := s.t, Effect(s.t, s.now, Delete(id));
      && (forall j :: j in t'.jobs <==> j in t.jobs && j != id) && (forall j | j in t'.jobs :: t'.jobs[j] == t.jobs[j])
      && (forall j :: j in t'.schedules <==> j in t.schedules && j != id)
      && (forall j | j in t'.schedules :: t'.schedules[j] == t.schedules[j])
      && (forall k :: k in t'.configs <==> k in t.configs && k.job != id)
      && (forall k | k in t'.configs :: t'.configs[k] == t.configs[k])
      && (forall r :: r in t'.runs <==> r in t.runs && t.runs[r].job != id)
      && (forall r | r in t'.runs :: t'.runs[r] == t.runs[r])
  {
  }

  predicate Column<T(==)>(p: Option<T>, x: T, y: T) {
    y == if p.Some? then p.value else x
  }

  predicate JsonColumn(f: JsonField, x: Option<Json>, y: Option<Json>) {
    y == if f.Set? then f.value else x
  }

  predicate PatchedRow(p: SchedulePatch, x: Schedule, now: Time, y: Schedule) {
    && Column(p.repeatSec, x.repeatSec, y.repeatSec) && Column(p.targetRuns, x.targetRuns, y.targetRuns)
    && y.nextRunAt == (if p.nextRunAt.Some? then p.nextRunAt else x.nextRunAt) && y.updatedAt == now
    && y.isActive == x.isActive && y.doneRuns == x.doneRuns && y.lastScheduledAt == x.lastScheduledAt
    && y.createdAt == x.createdAt
  }

  predicate PatchedColumns(p: ConfigPatch, x: IOConfig, y: IOConfig) {
    && JsonColumn(p.payload, x.payload, y.payload) && JsonColumn(p.headers, x.headers, y.headers)
    && JsonColumn(p.jsonSchema, x.jsonSchema, y.jsonSchema)
    && Column(p.targetUrl, x.targetUrl, y.targetUrl) && Column(p.verb, x.verb, y.verb)
  }

  predicate PatchedConfigRow(p: Option<ConfigPatch>, x: IOConfig, y: IOConfig) {
    if p.Some? then PatchedColumns(p.value, x, y) else y == x
  }

  ghost predicate JobPatched(t: Tables, now: Time, id: JobId, p: JobPatch, t': Tables)
    requires id in t.jobs && id in t.schedules
  {
    && t'.jobs.Keys == t.jobs.Keys && t'.schedules.Keys == t.schedules.Keys && t'.runs == t.runs
    && (forall j | j in t.jobs && j != id :: t'.jobs[j] == t.jobs[j])
    && t'.jobs[id] == (if p.name.Some? then t.jobs[id].(name := p.name.value, updatedAt := now) else t.jobs[id])
    && (forall j | j in t.schedules && j != id :: t'.schedules[j] == t.schedules[j])
    && if p.schedule.Some? then PatchedRow(p.schedule.value, t.schedules[id], now, t'.schedules[id])
       else t'.schedules[id] == t.schedules[id]
  }

  ghost predicate ConfigsPatched(t: Tables, id: JobId, p: JobPatch, t': Tables) {
    && t'.configs.Keys == t.configs.Keys
    && (forall k | k in t.configs && k.job != id :: t'.configs[k] == t.configs[k])
    && var f, d := ConfigKey(id, Fetcher), ConfigKey(id, Deliverer);
       && (f in t.configs ==> PatchedConfigRow(p.fetcher, t.configs[f], t'.configs[f]))
       && (d in t.configs ==> PatchedConfigRow(p.deliverer, t.configs[d], t'.configs[d]))
  }

  lemma RowsArePatched(t: Tables, now: Time, id: JobId, p: JobPatch, t': Tables)
    requires P.RowsPatched(t, now, id, p, t') && id in t.jobs && id in t.schedules
    ensures JobPatched(t, now, id, p, t') && ConfigsPatched(t, id, p, t')
  {
  }

  // A patch of an existing job fails exactly on a negative interval. Otherwise every
  // field that it sets has its value afterwards, and every other field the old one.
  lemma PatchWrites(s: State, id: JobId, p: JobPatch)
    requires KeysAgree(s) && id in s.t.jobs
    ensures
      var t, t' := s.t, Effect(s.t, s.now, Patch(id, p));
      var fails := p.schedule.Some? && p.schedule.value.repeatSec.Some? && p.schedule.value.repeatSec.value < 0;
      && (PatchJob(t, s.now, id, p).None? <==> fails)
      && if fails then t' == t else id in t.schedules && JobPatched(t, s.now, id, p, t') && ConfigsPatched(t, id, p, t')
  {
    hide PatchJob, P.RowsPatched, JobPatched, ConfigsPatched;
    P.PatchIsRowWise(s.t, s.now, id, p);
    if PatchJob(s.t, s.now, id, p).Some? { RowsArePatched(s.t, s.now, id, p, PatchJob(s.t, s.now, id, p).value); }
  }
}
