// The database server and the statements of the query files, over mutable tables.
// Every statement that stands alone is proved to perform exactly one action of
// Lifecycle; those of the transactions are composed by Repository, and queries
// change nothing.
module Database {
  import opened Model
  import opened Sql
  import L = Lifecycle
  import W = Statements

  // A schedule and its latest active run, as the API shows them.
  datatype ScheduleView = ScheduleView(
    status: Status,
    schedule: Schedule,
    lastRunTakenAt: Option<Time>)

  // NoRows is what the driver reports when a row was asked for and none came back.
  datatype Fetched<T> = Row(value: T) | NoRows | ScanFailed

  predicate Shows(v: ScheduleView, run: RunRow) {
    && (v.schedule.isActive ==> v.status == run.status)
    && v.lastRunTakenAt == if run.deliverStartedAt.Some? then run.deliverStartedAt else run.fetchStartedAt
  }

  predicate ActiveRunOf(t: Tables, j: JobId, r: RunId) {
    r in t.runs && t.runs[r].job == j && Active(t.runs[r].status)
  }

  predicate LatestActive(t: Tables, j: JobId, r: RunId) {
    && ActiveRunOf(t, j, r)
    && forall q | q in t.runs && ActiveRunOf(t, j, q) :: t.runs[q].scheduledAt <= t.runs[r].scheduledAt
  }

  // The text of a status, and the check that rejects any other text.
  function StatusText(status: Status): string {
    match status
    case Idle => "idle"
    case Scheduled => "scheduled"
    case Fetching => "fetching"
    case Delivering => "delivering"
    case Error => "error"
    case Disabled => "disabled"
  }

  function ParseStatus(text: string): (r: Option<Status>)
    ensures r.Some? ==> StatusText(r.value) == text
    ensures r.None? ==> forall s :: StatusText(s) != text
    ensures (r == Some(Idle) <==> text == "idle") && (r == Some(Scheduled) <==> text == "scheduled")
    ensures (r == Some(Fetching) <==> text == "fetching") && (r == Some(Delivering) <==> text == "delivering")
    ensures (r == Some(Error) <==> text == "error") && (r == Some(Disabled) <==> text == "disabled")
  {
    if text == "idle" then Some(Idle)
    else if text == "scheduled" then Some(Scheduled)
    else if text == "fetching" then Some(Fetching)
    else if text == "delivering" then Some(Delivering)
    else if text == "error" then Some(Error)
    else if text == "disabled" then Some(Disabled)
    else None
  }

  // Two of the six statuses pass the check but can never be written.
  lemma NeverWritten(t: Tables, now: Time, status: Status, run: RunId, job: JobId)
    ensures status == Scheduled || status == Disabled <==>
              forall t', r, j :: !SetRunMatches(t', status, r, j)
    ensures status == Scheduled || status == Disabled ==> SetRun(t, now, status, run, job) == t
  {
    if status != Scheduled && status != Disabled {
      var before := if status == Delivering then Fetching else Scheduled;
      var t' := Tables(map[], map[], map[], map[run := NewRun(job, now).(status := before)]);
      assert SetRunMatches(t', status, run, job);
    }
  }

  ghost function HungRuns(runs: map<RunId, RunRow>, now: Time, procSec: int, schedSec: int): set<RunId> {
    set r | r in runs && Hung(runs[r], now, procSec, schedSec)
  }

  ghost function SpentJobs(schedules: map<JobId, Schedule>): set<JobId> {
    set j | j in schedules && Spent(schedules[j])
  }

  datatype SetResult = Updated | InvalidStatus | NoRunUpdated

  // Between two picks: what is chosen is due before everything still to choose from.
  ghost predicate Choosing(t: Tables, now: Time, locked: set<JobId>, picks: seq<Pick>, due: set<JobId>) {
    && (forall i | 0 <= i < |picks| ::
        Eligible(t, now, picks[i].job) && picks[i].job !in locked && picks[i].job !in due)
    && (forall i, k | 0 <= i < k < |picks| :: picks[i].job != picks[k].job)
    && (forall j | j in due :: Eligible(t, now, j) && j !in locked)
    && (forall j | Eligible(t, now, j) && j !in locked :: j in due || Picked(picks, j))
    && (forall i, k | 0 <= i < k < |picks| ::
          t.schedules[picks[i].job].nextRunAt.value <= t.schedules[picks[k].job].nextRunAt.value)
    && (forall i, j | 0 <= i < |picks| && j in due ::
          t.schedules[picks[i].job].nextRunAt.value <= t.schedules[j].nextRunAt.value)
  }

  lemma ChoosingStarts(t: Tables, now: Time, locked: set<JobId>, due: set<JobId>)
    requires forall j :: j in due <==> Eligible(t, now, j) && j !in locked
    ensures Choosing(t, now, locked, [], due)
  {
  }

  lemma ChoosingFromEligible(t: Tables, now: Time, locked: set<JobId>, picks: seq<Pick>, due: set<JobId>)
    requires Choosing(t, now, locked, picks, due)
    ensures forall j | j in due :: Eligible(t, now, j)
  {
  }

  lemma ChoosingGrows(t: Tables, now: Time, locked: set<JobId>, picks: seq<Pick>, due: set<JobId>, p: Pick)
    requires Choosing(t, now, locked, picks, due) && p.job in due && Eligible(t, now, p.job)
    requires forall j | j in due && Eligible(t, now, j) ::
               t.schedules[p.job].nextRunAt.value <= t.schedules[j].nextRunAt.value
    ensures Choosing(t, now, locked, picks + [p], due - {p.job})
  {
    var more := picks + [p];
    assert more[|picks|] == p;
    forall k | Picked(picks, k) ensures Picked(more, k) {
      var i :| 0 <= i < |picks| && picks[i].job == k;
      assert more[i].job == k;
    }
  }

  lemma ChoosingEnds(t: Tables, now: Time, batch: nat, locked: set<JobId>, picks: seq<Pick>, due: set<JobId>)
    requires Choosing(t, now, locked, picks, due) && |picks| <= batch && (|picks| == batch || due == {})
    requires forall i, k | 0 <= i < k < |picks| :: picks[i].run != picks[k].run
    ensures ValidPicks(t, now, batch, locked, picks)
  {
  }

  // A sweep that has not yet visited the rows in `rest`.
  ghost function SweptExcept(
    rows: map<RunId, RunRow>, rest: set<RunId>, now: Time, procSec: int, schedSec: int): map<RunId, RunRow>
  {
    map r | r in rows ::
      if r !in rest && Hung(rows[r], now, procSec, schedSec) then rows[r].(status := Error, endedAt := Some(now))
      else rows[r]
  }

  lemma SweepStarts(t: Tables, now: Time, procSec: int, schedSec: int)
    ensures SweptExcept(t.runs, t.runs.Keys, now, procSec, schedSec) == t.runs
    ensures |HungRuns(t.runs, now, procSec, schedSec) - t.runs.Keys| == 0
    ensures SweptExcept(t.runs, {}, now, procSec, schedSec) == ResetHung(t, now, procSec, schedSec).runs
    ensures HungRuns(t.runs, now, procSec, schedSec) - {} == HungRuns(t.runs, now, procSec, schedSec)
  {
    hide Hung;
    assert HungRuns(t.runs, now, procSec, schedSec) - t.runs.Keys == {};
  }

  lemma SweepOne(rows: map<RunId, RunRow>, rest: set<RunId>, now: Time, procSec: int, schedSec: int, r: RunId)
    requires r in rest && rest <= rows.Keys
    ensures
      var before := SweptExcept(rows, rest, now, procSec, schedSec);
      var after := SweptExcept(rows, rest - {r}, now, procSec, schedSec);
      var hung := HungRuns(rows, now, procSec, schedSec);
      && before.Keys == rows.Keys && before[r] == rows[r]
      && after == (if r in hung then before[r := rows[r].(status := Error, endedAt := Some(now))] else before)
      && (r in hung <==> Hung(rows[r], now, procSec, schedSec))
      && |hung - (rest - {r})| == |hung - rest| + if r in hung then 1 else 0
  {
    var hung := HungRuns(rows, now, procSec, schedSec);
    assert hung - (rest - {r}) == (hung - rest) + if r in hung then {r} else {};
  }

  // Likewise for the monitor that retires spent schedules.
  ghost function RetiredExcept(rows: map<JobId, Schedule>, rest: set<JobId>): map<JobId, Schedule> {
    map j | j in rows :: if j !in rest && Spent(rows[j]) then rows[j].(isActive := false) else rows[j]
  }

  lemma RetireOne(rows: map<JobId, Schedule>, rest: set<JobId>, j: JobId)
    requires j in rest && rest <= rows.Keys
    ensures
      var before, after := RetiredExcept(rows, rest), RetiredExcept(rows, rest - {j});
      var spent := SpentJobs(rows);
      && before.Keys == rows.Keys && before[j] == rows[j]
      && after == (if j in spent then before[j := rows[j].(isActive := false)] else before)
      && |spent - (rest - {j})| == |spent - rest| + if j in spent then 1 else 0
  {
    var spent := SpentJobs(rows);
    assert spent - (rest - {j}) == (spent - rest) + if j in spent then {j} else {};
  }

  class Db {
    var jobs: map<JobId, JobRow>
    var schedules: map<JobId, Schedule>
    var configs: map<ConfigKey, IOConfig>
    var runs: map<RunId, RunRow>
    var now: Time
    const reliable: bool // no statement fails for reasons of its own

    function State(): Tables
      reads this
    {
      Tables(jobs, schedules, configs, runs)
    }

    constructor (start: Time, reliable: bool)
      ensures State() == L.Initial(start).t && now == start && this.reliable == reliable
    {
      this.reliable := reliable;
      jobs, schedules, configs, runs, now := map[], map[], map[], map[], start;
    }

    // The working copy of a transaction, and its commit.
    constructor Begin(db: Db)
      ensures State() == db.State() && now == db.now && reliable == db.reliable
    {
      reliable := db.reliable;
      jobs, schedules, configs, runs, now := db.jobs, db.schedules, db.configs, db.runs, db.now;
    }

    method Commit(tx: Db)
      modifies `jobs, `schedules, `configs, `runs
      ensures State() == old(tx.State())
    {
      jobs, schedules, configs, runs := tx.jobs, tx.schedules, tx.configs, tx.runs;
    }

    // Whatever other processes do between two statements.
    method Others()
      modifies this
      ensures now >= old(now)
    {
      var elapsed: int := *;
      jobs, schedules, configs, runs := *, *, *, *;
      if elapsed > 0 { now := now + elapsed; }
    }

    // ------------------------------------------------------------ claiming

    method HasActive(j: JobId) returns (found: bool)
      ensures found <==> HasActiveRun(State(), j)
    {
      var rest := runs.Keys;
      while rest != {}
        invariant rest <= runs.Keys
        invariant forall r | r in runs && r !in rest :: !ActiveRunOf(State(), j, r)
        decreases |rest|
      {
        var r :| r in rest;
        if runs[r].job == j && Active(runs[r].status) {
          return true;
        }
        rest := rest - {r};
      }
      return false;
    }

    method IsEligible(j: JobId) returns (yes: bool)
      requires j in schedules
      ensures yes <==> Eligible(State(), now, j)
    {
      var s := schedules[j];
      yes := s.isActive && s.nextRunAt.Some? && s.nextRunAt.value <= now
          && (s.targetRuns == 0 || s.doneRuns < s.targetRuns);
      if yes {
        var active := HasActive(j);
        yes := !active;
      }
    }

    // The WHERE clause, skipping rows that another transaction holds.
    method Candidates(locked: set<JobId>) returns (due: set<JobId>)
      ensures forall j :: j in due <==> Eligible(State(), now, j) && j !in locked
    {
      due := {};
      var rest := schedules.Keys;
      while rest != {}
        invariant rest <= schedules.Keys
        invariant forall j :: j in due <==> j in schedules && j !in rest && Eligible(State(), now, j) && j !in locked
        decreases |rest|
      {
        var j :| j in rest;
        var yes := IsEligible(j);
        if yes && j !in locked { due := due + {j}; }
        rest := rest - {j};
      }
    }

    method Earliest(due: set<JobId>) returns (first: JobId)
      requires due != {} && forall j | j in due :: Eligible(State(), now, j)
      ensures first in due && Eligible(State(), now, first)
      ensures forall j | j in due && Eligible(State(), now, j) ::
          schedules[first].nextRunAt.value <= schedules[j].nextRunAt.value
    {
      first :| first in due;
      var rest := due - {first};
      while rest != {}
        invariant rest <= due && first in due
        invariant Eligible(State(), now, first)
        invariant forall j | j in due && j !in rest && Eligible(State(), now, j) ::
            schedules[first].nextRunAt.value <= schedules[j].nextRunAt.value
        decreases |rest|
      {
        var j :| j in rest;
        assert Eligible(State(), now, j);
        if schedules[j].nextRunAt.value < schedules[first].nextRunAt.value { first := j; }
        rest := rest - {j};
      }
    }

    // ORDER BY next_run_at and LIMIT, giving each picked row a fresh identifier.
    method Pick(batch: nat, locked: set<JobId>, ids: seq<RunId>) returns (picks: seq<Pick>)
      requires |ids| == batch && forall i, k | 0 <= i < k < |ids| :: ids[i] != ids[k]
      ensures ValidPicks(State(), now, batch, locked, picks)
      ensures forall i | 0 <= i < |picks| :: picks[i].run == ids[i]
    {
      hide Eligible, Choosing, ValidPicks;
      picks := [];
      var due := Candidates(locked);
      ChoosingStarts(State(), now, locked, due);
      while |picks| < batch && due != {}
        invariant |picks| <= batch
        invariant forall i | 0 <= i < |picks| :: picks[i].run == ids[i]
        invariant Choosing(State(), now, locked, picks, due)
        decreases |due|
      {
        ChoosingFromEligible(State(), now, locked, picks, due);
        var j := Earliest(due);
        ChoosingGrows(State(), now, locked, picks, due, Sql.Pick(j, ids[|picks|]));
        picks := picks + [Sql.Pick(j, ids[|picks|])];
        due := due - {j};
      }
      ChoosingEnds(State(), now, batch, locked, picks, due);
    }

    // Update and insert one row at a time, and collect the returned rows.
    method UpdateAndInsert(picks: seq<Pick>) returns (items: seq<Pick>)
      requires forall i | 0 <= i < |picks| :: picks[i].job in schedules
      modifies `schedules, `runs
      ensures items == picks && State() == ClaimAll(old(State()), now, picks)
    {
      hide ClaimedSchedule, NewRun;
      items := [];
      for i := 0 to |picks|
        invariant items == picks[..i]
        invariant State() == ClaimAll(old(State()), now, picks[..i])
      {
        var j := picks[i].job;
        assert picks[..i + 1][..i] == picks[..i];
        schedules := schedules[j := ClaimedSchedule(schedules[j], now)];
        runs := runs[picks[i].run := NewRun(j, now)];
        items := items + [picks[i]];
      }
      assert picks[..|picks|] == picks;
    }

    method ClaimNextJobs(batch: nat, locked: set<JobId>, ids: seq<RunId>) returns (items: seq<Pick>)
      requires |ids| == batch && forall i, k | 0 <= i < k < |ids| :: ids[i] != ids[k]
      requires forall i | 0 <= i < |ids| :: ids[i] !in runs
      modifies `schedules, `runs
      ensures ValidPicks(old(State()), now, batch, locked, items)
      ensures forall i | 0 <= i < |items| :: items[i].run == ids[i]
      ensures State() == L.Effect(old(State()), now, L.Claim(batch, locked, items))
      ensures W.ClaimedRows(old(State()), now, items, State()) && W.InsertedRuns(old(State()), now, items, State())
    {
      var picks := Pick(batch, locked, ids);
      assert |picks| <= |ids| && forall i | 0 <= i < |picks| :: picks[i].run !in runs;
      hide ValidPicks, ClaimAll, W.ClaimedRows, W.InsertedRuns;
      W.ClaimWrites(State(), now, batch, locked, picks);
      items := UpdateAndInsert(picks);
    }

    // --------------------------------------------------------- run statuses

    method SetJobRunStatus(text: string, run: RunId, job: JobId) returns (r: SetResult)
      modifies `schedules, `runs
      ensures r == InvalidStatus <==> ParseStatus(text).None?
      ensures r == InvalidStatus ==> State() == old(State())
      ensures ParseStatus(text).Some? ==>
                State() == L.Effect(old(State()), now, L.SetStatus(ParseStatus(text).value, run, job))
      ensures r == Updated <==> ParseStatus(text).Some? && job in old(schedules)
                                && SetRunMatches(old(State()), ParseStatus(text).value, run, job)
    {
      var parsed := ParseStatus(text);
      if parsed.None? {
        return InvalidStatus;
      }
      var status := parsed.value;
      if run !in runs || runs[run].job != job || !MayReplace(status, runs[run].status) {
        return NoRunUpdated;
      }
      runs := runs[run := Restamped(runs[run], status, now)];
      if job !in schedules {
        return NoRunUpdated;
      }
      schedules := schedules[job := Credited(schedules[job], status, now)];
      return Updated;
    }

    method ResetHungMessage(procSec: int, schedSec: int) returns (affected: nat)
      modifies `runs
      ensures State() == L.Effect(old(State()), now, L.Reset(procSec, schedSec))
      ensures affected == |HungRuns(old(runs), now, procSec, schedSec)|
    {
      hide Hung, SweptExcept, HungRuns;
      SweepStarts(State(), now, procSec, schedSec);
      affected := 0;
      ghost var rows, hung := runs, HungRuns(runs, now, procSec, schedSec);
      var rest := runs.Keys;
      while rest != {}
        invariant rest <= rows.Keys
        invariant runs == SweptExcept(rows, rest, now, procSec, schedSec)
        invariant affected == |hung - rest|
        decreases |rest|
      {
        var r :| r in rest;
        SweepOne(rows, rest, now, procSec, schedSec, r);
        if Hung(runs[r], now, procSec, schedSec) {
          runs := runs[r := runs[r].(status := Error, endedAt := Some(now))];
          affected := affected + 1;
        }
        rest := rest - {r};
      }
    }

    method SwitchToDisabledIfNeed() returns (affected: nat)
      modifies `schedules
      ensures State() == L.Effect(old(State()), now, L.Disable)
      ensures affected == |SpentJobs(old(schedules))|
    {
      affected := 0;
      ghost var rows, spent := schedules, SpentJobs(schedules);
      var rest := schedules.Keys;
      assert spent - rest == {};
      while rest != {}
        invariant rest <= rows.Keys
        invariant schedules == RetiredExcept(rows, rest)
        invariant affected == |spent - rest|
        decreases |rest|
      {
        var j :| j in rest;
        RetireOne(rows, rest, j);
        if Spent(schedules[j]) {
          schedules := schedules[j := schedules[j].(isActive := false)];
          affected := affected + 1;
        }
        rest := rest - {j};
      }
      assert spent - rest == spent;
    }

    // ----------------------------------------------------------- API statements

    // The row statements of the two transactions. Each may fail for reasons of its
    // own, besides a broken constraint or having no row to return.

    method CreateJobRow(id: JobId, name: string) returns (ok: bool)
      modifies `jobs
      ensures ok ==> id !in old(jobs) && jobs == old(jobs)[id := JobRow(name, now, now)]
      ensures !ok ==> jobs == old(jobs)
      ensures reliable && id !in old(jobs) ==> ok
    {
      ok := *;
      if reliable { ok := true; }
      if id in jobs { ok := false; }
      if ok { jobs := jobs[id := JobRow(name, now, now)]; }
    }

    method CreateJobSchedule(id: JobId, spec: JobSpec) returns (ok: bool)
      modifies `schedules
      ensures ok ==>
        && id !in old(schedules) && id in jobs && spec.repeatSec >= 0
        && schedules == old(schedules)[id :=
             Schedule(true, spec.repeatSec, 0, spec.targetRuns, None, Some(spec.nextRunAt), now, now)]
      ensures !ok ==> schedules == old(schedules)
      ensures reliable && id !in old(schedules) && id in jobs && spec.repeatSec >= 0 ==> ok
    {
      ok := *;
      if reliable { ok := true; }
      if id in schedules || id !in jobs || spec.repeatSec < 0 { ok := false; }
      if ok {
        schedules := schedules[id :=
          Schedule(true, spec.repeatSec, 0, spec.targetRuns, None, Some(spec.nextRunAt), now, now)];
      }
    }

    method CreateJobIOConfig(id: JobId, kind: Kind, config: IOConfig) returns (ok: bool)
      modifies `configs
      ensures ok ==>
        && id in jobs && ConfigKey(id, kind) !in old(configs)
        && configs == old(configs)[ConfigKey(id, kind) := config]
      ensures !ok ==> configs == old(configs)
      ensures reliable && id in jobs && ConfigKey(id, kind) !in old(configs) ==> ok
    {
      ok := *;
      if reliable { ok := true; }
      if id !in jobs || ConfigKey(id, kind) in configs { ok := false; }
      if ok { configs := configs[ConfigKey(id, kind) := config]; }
    }

    method UpdateJobName(id: JobId, name: string) returns (ok: bool)
      modifies `jobs
      ensures ok ==> UpdateName(old(State()), now, id, name) == Some(State())
      ensures !ok ==> State() == old(State())
      ensures reliable && UpdateName(old(State()), now, id, name).Some? ==> ok
    {
      ok := *;
      if reliable { ok := true; }
      if id !in jobs { ok := false; }
      if ok { jobs := jobs[id := jobs[id].(name := name, updatedAt := now)]; }
    }

    method PatchJobSchedule(id: JobId, p: SchedulePatch) returns (ok: bool)
      modifies `schedules
      ensures ok ==> PatchSchedule(old(State()), now, id, p) == Some(State())
      ensures !ok ==> State() == old(State())
      ensures reliable && PatchSchedule(old(State()), now, id, p).Some? ==> ok
    {
      ok := *;
      if reliable { ok := true; }
      if id !in schedules { return false; }
      var s := schedules[id];
      var repeatSec := if p.repeatSec.Some? then p.repeatSec.value else s.repeatSec;
      if repeatSec < 0 { ok := false; }
      if ok {
        var targetRuns := if p.targetRuns.Some? then p.targetRuns.value else s.targetRuns;
        var nextRunAt := if p.nextRunAt.Some? then p.nextRunAt else s.nextRunAt;
        schedules := schedules[id :=
          s.(repeatSec := repeatSec, targetRuns := targetRuns, nextRunAt := nextRunAt, updatedAt := now)];
      }
    }

    method PatchJobIOConfig(id: JobId, kind: Kind, p: ConfigPatch) returns (ok: bool)
      modifies `configs
      ensures ok ==> PatchConfig(old(State()), id, kind, p) == Some(State())
      ensures !ok ==> State() == old(State())
      ensures reliable && PatchConfig(old(State()), id, kind, p).Some? ==> ok
    {
      ok := *;
      if reliable { ok := true; }
      var k := ConfigKey(id, kind);
      if k !in configs { return false; }
      if ok {
        var c := configs[k];
        configs := configs[k := IOConfig(
          if p.payload.Set? then p.payload.value else c.payload,
          if p.headers.Set? then p.headers.value else c.headers,
          if p.jsonSchema.Set? then p.jsonSchema.value else c.jsonSchema,
          if p.targetUrl.Some? then p.targetUrl.value else c.targetUrl,
          if p.verb.Some? then p.verb.value else c.verb)];
      }
    }

    // ActivateJob and DeactivateJob; false: no row came back.
    method SetActive(j: JobId, active: bool) returns (found: bool)
      modifies `schedules
      ensures State() == L.Effect(old(State()), now, if active then L.Activate(j) else L.Deactivate(j))
      ensures found <==> CommandMatches(old(State()), j)
    {
      var busy := HasActive(j);
      if j !in schedules || busy {
        return false;
      }
      schedules := schedules[j := schedules[j].(isActive := active, updatedAt := now)];
      return true;
    }

    method DeleteJob(id: JobId) returns (found: bool)
      modifies this
      ensures now == old(now) && State() == L.Effect(old(State()), now, L.Delete(id))
      ensures found <==> id in old(jobs)
    {
      if id !in jobs {
        return false;
      }
      jobs := jobs - {id};
      schedules := schedules - {id};
      configs := map k | k in configs && k.job != id :: configs[k];
      runs := map r | r in runs && runs[r].job != id :: runs[r];
      return true;
    }

    // A worker asks for a configuration by the text of its kind.
    method GetConfig(kind: string, job: JobId) returns (r: Fetched<IOConfig>, known: bool)
      ensures known <==> kind == "fetcher" || kind == "deliver"
      ensures r.Row? <==> known && ConfigKey(job, if kind == "fetcher" then Fetcher else Deliverer) in configs
      ensures r.Row? ==> r.value == configs[ConfigKey(job, if kind == "fetcher" then Fetcher else Deliverer)]
      ensures !r.ScanFailed?
    {
      r, known := NoRows, true;
      var key: ConfigKey;
      if kind == "fetcher" {
        key := ConfigKey(job, Fetcher);
      } else if kind == "deliver" {
        key := ConfigKey(job, Deliverer);
      } else {
        known := false;
        return;
      }
      if key in configs {
        r := Row(configs[key]);
      }
    }

    // The lateral join: the latest scheduled of the active runs of j.
    method LatestRun(j: JobId) returns (latest: Option<RunId>)
      ensures latest.None? <==> !HasActiveRun(State(), j)
      ensures latest.Some? ==> LatestActive(State(), j, latest.value)
    {
      latest := None;
      var rest := runs.Keys;
      while rest != {}
        invariant rest <= runs.Keys
        invariant latest.None? ==> forall r | r in runs && r !in rest :: !ActiveRunOf(State(), j, r)
        invariant latest.Some? ==> ActiveRunOf(State(), j, latest.value) && forall r | r in runs && r !in rest ::
          ActiveRunOf(State(), j, r) ==> runs[r].scheduledAt <= runs[latest.value].scheduledAt
        decreases |rest|
      {
        var r :| r in rest;
        if runs[r].job == j && Active(runs[r].status)
           && (latest.None? || runs[r].scheduledAt > runs[latest.value].scheduledAt) {
          latest := Some(r);
        }
        rest := rest - {r};
      }
    }

    // NULL in next_run_at does not scan into the row's time field.
    method GetJobSchedule(j: JobId) returns (r: Fetched<ScheduleView>)
      ensures r == NoRows <==> j !in schedules
      ensures r == ScanFailed <==> j in schedules && schedules[j].nextRunAt.None?
      ensures r.Row? ==> j in schedules && r.value.schedule == schedules[j]
      ensures r.Row? && !schedules[j].isActive ==> r.value.status == Disabled
      ensures r.Row? && schedules[j].isActive && !HasActiveRun(State(), j) ==> r.value.status == Idle
      ensures r.Row? && !HasActiveRun(State(), j) ==> r.value.lastRunTakenAt == None
      ensures r.Row? && HasActiveRun(State(), j) ==>
          (exists q :: LatestActive(State(), j, q) && Shows(r.value, runs[q]))
    {
      if j !in schedules {
        return NoRows;
      }
      var s := schedules[j];
      var latest := LatestRun(j);
      if s.nextRunAt.None? {
        return ScanFailed;
      }
      if latest.None? {
        return Row(ScheduleView(if s.isActive then Idle else Disabled, s, None));
      }
      var run := runs[latest.value];
      return Row(ScheduleView(if s.isActive then run.status else Disabled, s,
                              if run.deliverStartedAt.Some? then run.deliverStartedAt else run.fetchStartedAt));
    }

    method ListJobIOConfigs(id: JobId) returns (items: seq<(ConfigKey, IOConfig)>)
      ensures forall i | 0 <= i < |items| ::
          items[i].0 in configs && items[i].0.job == id && items[i].1 == configs[items[i].0]
      ensures forall k | k in configs && k.job == id :: (k, configs[k]) in items
      ensures forall i, k | 0 <= i < k < |items| :: items[i].0 != items[k].0
    {
      items := [];
      var rest := configs.Keys;
      while rest != {}
        invariant rest <= configs.Keys
        invariant forall i | 0 <= i < |items| ::
          items[i].0 in configs && items[i].0 !in rest && items[i].0.job == id && items[i].1 == configs[items[i].0]
        invariant forall k | k in configs && k !in rest && k.job == id :: (k, configs[k]) in items
        invariant forall i, k | 0 <= i < k < |items| :: items[i].0 != items[k].0
        decreases |rest|
      {
        var k :| k in rest;
        if k.job == id { items := items + [(k, configs[k])]; }
        rest := rest - {k};
      }
    }
  }
}
