// What each SQL statement does to the tables, written as a function of the
// tables before it. The methods of Database.Db are proved against these, and
// Lifecycle builds its transitions from them.
module Sql {
  import opened Model

  // ---------------------------------------------------------------- claiming

  // One claimed row: the job, and the run identifier generated for it.
  datatype Pick = Pick(job: JobId, run: RunId)

  predicate Eligible(t: Tables, now: Time, j: JobId) {
    && j in t.schedules
    && var s := t.schedules[j];
       && s.isActive
       && s.nextRunAt.Some?
       && s.nextRunAt.value <= now
       && (s.targetRuns == 0 || s.doneRuns < s.targetRuns)
       && !HasActiveRun(t, j)
  }

  ghost predicate Picked(picks: seq<Pick>, j: JobId) {
    exists i | 0 <= i < |picks| :: picks[i].job == j
  }

  // What ORDER BY next_run_at, SKIP LOCKED and LIMIT allow the claim to choose.
  // Rows in `locked` are held by another transaction and skipped.
  ghost predicate ValidPicks(t: Tables, now: Time, batch: nat, locked: set<JobId>, picks: seq<Pick>) {
    && |picks| <= batch
    && (forall i | 0 <= i < |picks| :: Eligible(t, now, picks[i].job) && picks[i].job !in locked)
    && DistinctPicks(picks)
    && (forall i, k | 0 <= i < k < |picks| ::
          t.schedules[picks[i].job].nextRunAt.value <= t.schedules[picks[k].job].nextRunAt.value)
    && (forall j | Eligible(t, now, j) && j !in locked && !Picked(picks, j) ::
          && |picks| == batch
          && forall i | 0 <= i < |picks| ::
               t.schedules[picks[i].job].nextRunAt.value <= t.schedules[j].nextRunAt.value)
  }

  function ClaimedSchedule(s: Schedule, now: Time): Schedule {
    s.(lastScheduledAt := Some(now),
       nextRunAt :=
         if s.targetRuns != 0 && s.doneRuns + 1 >= s.targetRuns then None
         else if s.repeatSec > 0 then Some(now + s.repeatSec * SECOND)
         else Some(now),
       updatedAt := now)
  }

  function NewRun(j: JobId, now: Time): RunRow {
    RunRow(j, Scheduled, now, None, None, None)
  }

  function ClaimOne(t: Tables, now: Time, p: Pick): Tables
    requires p.job in t.schedules
  {
    t.(schedules := t.schedules[p.job := ClaimedSchedule(t.schedules[p.job], now)],
       runs := t.runs[p.run := NewRun(p.job, now)])
  }

  function ClaimAll(t: Tables, now: Time, picks: seq<Pick>): (r: Tables)
    requires forall i | 0 <= i < |picks| :: picks[i].job in t.schedules
    ensures r.schedules.Keys == t.schedules.Keys
    ensures r.jobs == t.jobs && r.configs == t.configs
  {
    if picks == [] then t
    else
      var last := |picks| - 1;
      ClaimOne(ClaimAll(t, now, picks[..last]), now, picks[last])
  }

  // Row by row, a claim over distinct jobs and fresh runs is the simultaneous
  // update and insert that the statement asks for.
  ghost predicate DistinctPicks(picks: seq<Pick>) {
    forall i, k | 0 <= i < k < |picks| :: picks[i].job != picks[k].job && picks[i].run != picks[k].run
  }

  lemma {:induction false} ClaimAllSchedules(t: Tables, now: Time, picks: seq<Pick>)
    requires forall i | 0 <= i < |picks| :: picks[i].job in t.schedules
    requires DistinctPicks(picks)
    ensures forall j | j in t.schedules && !Picked(picks, j) :: ClaimAll(t, now, picks).schedules[j] == t.schedules[j]
    ensures forall i | 0 <= i < |picks| ::
              ClaimAll(t, now, picks).schedules[picks[i].job] == ClaimedSchedule(t.schedules[picks[i].job], now)
  {
    if picks != [] {
      var last := |picks| - 1;
      var front := picks[..last];
      ClaimAllSchedules(t, now, front);
      assert !Picked(front, picks[last].job);
      forall j | j in t.schedules && !Picked(picks, j)
        ensures ClaimAll(t, now, picks).schedules[j] == t.schedules[j]
      {
        assert picks[last].job != j;
        assert forall i | 0 <= i < last :: front[i] == picks[i];
        assert !Picked(front, j);
      }
      forall i | 0 <= i < last
        ensures ClaimAll(t, now, picks).schedules[picks[i].job] == ClaimedSchedule(t.schedules[picks[i].job], now)
      {
        assert picks[i] == front[i];
      }
    }
  }

  lemma {:induction false} ClaimAllRuns(t: Tables, now: Time, picks: seq<Pick>)
    requires forall i | 0 <= i < |picks| :: picks[i].job in t.schedules
    requires DistinctPicks(picks)
    requires forall i | 0 <= i < |picks| :: picks[i].run !in t.runs
    ensures forall r | r in t.runs :: r in ClaimAll(t, now, picks).runs && ClaimAll(t, now, picks).runs[r] == t.runs[r]
    ensures forall i | 0 <= i < |picks| ::
              && picks[i].run in ClaimAll(t, now, picks).runs
              && ClaimAll(t, now, picks).runs[picks[i].run] == NewRun(picks[i].job, now)
  {
    if picks != [] {
      var last := |picks| - 1;
      var front := picks[..last];
      assert forall i | 0 <= i < last :: picks[i] == front[i];
      ClaimAllRuns(t, now, front);
      var before := ClaimAll(t, now, front).runs;
      assert ClaimAll(t, now, picks).runs == before[picks[last].run := NewRun(picks[last].job, now)];
    }
  }

  lemma {:induction false} ClaimAllNewRuns(t: Tables, now: Time, picks: seq<Pick>)
    requires forall i | 0 <= i < |picks| :: picks[i].job in t.schedules
    ensures forall r | r in ClaimAll(t, now, picks).runs && r !in t.runs ::
              exists i | 0 <= i < |picks| :: picks[i].run == r
  {
    if picks != [] {
      var last := |picks| - 1;
      var front := picks[..last];
      ClaimAllNewRuns(t, now, front);
      forall r | r in ClaimAll(t, now, front).runs && r !in t.runs
        ensures exists i | 0 <= i < |picks| :: picks[i].run == r
      {
        var i :| 0 <= i < |front| && front[i].run == r;
        assert picks[i].run == r;
      }
    }
  }

  // ------------------------------------------------------- worker run status

  // The compare-and-swap guard: which status may replace which.
  predicate MayReplace(next: Status, current: Status) {
    || (next.Fetching? && current.Scheduled?)
    || (next.Delivering? && current.Fetching?)
    || (Terminal(next) && Active(current))
  }

  predicate SetRunMatches(t: Tables, status: Status, run: RunId, job: JobId) {
    run in t.runs && t.runs[run].job == job && MayReplace(status, t.runs[run].status)
  }

  function Restamped(r: RunRow, status: Status, now: Time): RunRow {
    r.(status := status,
       fetchStartedAt := if status.Fetching? then Some(now) else r.fetchStartedAt,
       deliverStartedAt := if status.Delivering? then Some(now) else r.deliverStartedAt,
       endedAt := if Terminal(status) then Some(now) else r.endedAt)
  }

  function Credited(s: Schedule, status: Status, now: Time): Schedule {
    s.(doneRuns := if Terminal(status) then s.doneRuns + 1 else s.doneRuns, updatedAt := now)
  }

  function SetRun(t: Tables, now: Time, status: Status, run: RunId, job: JobId): Tables {
    if !SetRunMatches(t, status, run, job) then t
    else
      t.(runs := t.runs[run := Restamped(t.runs[run], status, now)],
         schedules := if job in t.schedules then t.schedules[job := Credited(t.schedules[job], status, now)]
                      else t.schedules)
  }

  // -------------------------------------------------------- timeouts, retiring

  // COALESCE(deliver_started_at, fetch_started_at, scheduled_at)
  function LastStart(r: RunRow): Time {
    if r.deliverStartedAt.Some? then r.deliverStartedAt.value
    else if r.fetchStartedAt.Some? then r.fetchStartedAt.value
    else r.scheduledAt
  }

  predicate Hung(r: RunRow, now: Time, procSec: int, schedSec: int) {
    || ((r.status.Fetching? || r.status.Delivering?) && now - LastStart(r) > procSec * SECOND)
    || (r.status.Scheduled? && now - r.scheduledAt > schedSec * SECOND)
  }

  function ResetHung(t: Tables, now: Time, procSec: int, schedSec: int): Tables {
    t.(runs := map r | r in t.runs ::
         if Hung(t.runs[r], now, procSec, schedSec) then t.runs[r].(status := Error, endedAt := Some(now))
         else t.runs[r])
  }

  predicate Spent(s: Schedule) {
    s.isActive && s.doneRuns >= s.targetRuns && s.targetRuns != 0
  }

  function DisableSpent(t: Tables): Tables {
    t.(schedules := map j | j in t.schedules ::
         if Spent(t.schedules[j]) then t.schedules[j].(isActive := false) else t.schedules[j])
  }

  // --------------------------------------------------------------- API writes

  predicate CommandMatches(t: Tables, j: JobId) {
    j in t.schedules && !HasActiveRun(t, j)
  }

  function SetActive(t: Tables, now: Time, j: JobId, active: bool): Tables {
    if CommandMatches(t, j) then
      t.(schedules := t.schedules[j := t.schedules[j].(isActive := active, updatedAt := now)])
    else t
  }

  datatype JobSpec = JobSpec(
    name: string, nextRunAt: Time, repeatSec: int, targetRuns: int,
    fetcher: IOConfig, deliverer: IOConfig)

  // The four inserts of the create transaction. None: a primary key is taken or
  // the CHECK on repeat_interval_sec fails, and the transaction is rolled back.
  function CreateJob(t: Tables, now: Time, id: JobId, spec: JobSpec): Option<Tables> {
    if id in t.jobs || id in t.schedules || spec.repeatSec < 0
       || ConfigKey(id, Fetcher) in t.configs || ConfigKey(id, Deliverer) in t.configs then None
    else
      Some(t.(jobs := t.jobs[id := JobRow(spec.name, now, now)],
              schedules := t.schedules[id :=
                Schedule(true, spec.repeatSec, 0, spec.targetRuns, None, Some(spec.nextRunAt), now, now)],
              configs := t.configs[ConfigKey(id, Fetcher) := spec.fetcher][ConfigKey(id, Deliverer) := spec.deliverer]))
  }

  // DELETE FROM jobs, with the three ON DELETE CASCADE foreign keys.
  function DeleteJob(t: Tables, id: JobId): Tables {
    if id !in t.jobs then t
    else
      Tables(t.jobs - {id}, t.schedules - {id},
             map k | k in t.configs && k.job != id :: t.configs[k],
             map r | r in t.runs && t.runs[r].job != id :: t.runs[r])
  }

  // A JSON field of a patch: left alone, or replaced by a value or by NULL.
  datatype JsonField = Absent | Set(value: Option<Json>)

  datatype SchedulePatch = SchedulePatch(repeatSec: Option<int>, targetRuns: Option<int>, nextRunAt: Option<Time>)

  datatype ConfigPatch = ConfigPatch(
    payload: JsonField, headers: JsonField, jsonSchema: JsonField,
    targetUrl: Option<string>, verb: Option<string>)

  datatype JobPatch = JobPatch(
    name: Option<string>, schedule: Option<SchedulePatch>,
    fetcher: Option<ConfigPatch>, deliverer: Option<ConfigPatch>)

  function SetOr(f: JsonField, current: Option<Json>): Option<Json> {
    if f.Set? then f.value else current
  }

  function UpdateName(t: Tables, now: Time, id: JobId, name: string): Option<Tables> {
    if id in t.jobs then Some(t.(jobs := t.jobs[id := t.jobs[id].(name := name, updatedAt := now)]))
    else None
  }

  function PatchedSchedule(s: Schedule, now: Time, p: SchedulePatch): Schedule {
    s.(repeatSec := Coalesce(p.repeatSec, s.repeatSec),
       targetRuns := Coalesce(p.targetRuns, s.targetRuns),
       nextRunAt := if p.nextRunAt.Some? then p.nextRunAt else s.nextRunAt,
       updatedAt := now)
  }

  function PatchSchedule(t: Tables, now: Time, id: JobId, p: SchedulePatch): Option<Tables> {
    if id !in t.schedules || Coalesce(p.repeatSec, t.schedules[id].repeatSec) < 0 then None
    else Some(t.(schedules := t.schedules[id := PatchedSchedule(t.schedules[id], now, p)]))
  }

  function PatchedConfig(c: IOConfig, p: ConfigPatch): IOConfig {
    IOConfig(SetOr(p.payload, c.payload), SetOr(p.headers, c.headers), SetOr(p.jsonSchema, c.jsonSchema),
             Coalesce(p.targetUrl, c.targetUrl), Coalesce(p.verb, c.verb))
  }

  function PatchConfig(t: Tables, id: JobId, kind: Kind, p: ConfigPatch): Option<Tables> {
    var k := ConfigKey(id, kind);
    if k !in t.configs then None
    else Some(t.(configs := t.configs[k := PatchedConfig(t.configs[k], p)]))
  }

  // The patch transaction. None: some part touched no row or broke a CHECK, so
  // everything is rolled back.
  function PatchJob(t: Tables, now: Time, id: JobId, p: JobPatch): Option<Tables> {
    var t1 := if p.name.Some? then UpdateName(t, now, id, p.name.value) else Some(t);
    if t1.None? then None else
    var t2 := if p.schedule.Some? then PatchSchedule(t1.value, now, id, p.schedule.value) else t1;
    if t2.None? then None else
    var t3 := if p.fetcher.Some? then PatchConfig(t2.value, id, Fetcher, p.fetcher.value) else t2;
    if t3.None? then None else
    if p.deliverer.Some? then PatchConfig(t3.value, id, Deliverer, p.deliverer.value) else t3
  }
}
