// The API repository: the create and patch transactions, the commands with their
// error mapping, and how a job is read back.
module Repository {
  import opened Model
  import opened Sql
  import L = Lifecycle
  import P = Patches
  import Q = Quietness
  import Requests
  import opened Database

  // RolledBack: a part failed. CommitFailed: the commit reported an error, and may
  // or may not have taken effect.
  datatype TxResult = Committed | RolledBack | CommitFailed

  datatype CommandResult = Accepted | NotFound | StatusConflict | CheckFailed

  datatype JobView = JobView(job: JobRow, schedule: ScheduleView, fetcher: IOConfig, deliverer: IOConfig)

  // A transaction applies the whole change or nothing, and reports success only
  // for the former.
  ghost predicate AllOrNothing(before: Tables, change: Option<Tables>, after: Tables, r: TxResult) {
    match r
    case Committed => change == Some(after)
    case RolledBack => after == before
    case CommitFailed => change.Some? && (after == before || after == change.value)
  }

  method Finish(db: Db, tx: Db) returns (r: TxResult)
    requires db != tx
    modifies db`jobs, db`schedules, db`configs, db`runs
    ensures r.Committed? ==> db.State() == tx.State()
    ensures r.CommitFailed? ==> db.State() == old(db.State()) || db.State() == tx.State()
    ensures !r.RolledBack? && (db.reliable ==> r.Committed?)
  {
    var reached: bool, replied: bool := *, *;
    if db.reliable { reached, replied := true, true; }
    if reached { db.Commit(tx); }
    r := if reached && replied then Committed else CommitFailed;
  }

  method CreateJob(db: Db, id: JobId, spec: JobSpec) returns (r: TxResult)
    modifies db
    ensures db.now == old(db.now)
    ensures AllOrNothing(old(db.State()), Sql.CreateJob(old(db.State()), db.now, id, spec), db.State(), r)
    ensures db.reliable ==>
              r == if Sql.CreateJob(old(db.State()), db.now, id, spec).Some? then Committed else RolledBack
  {
    var tx := new Db.Begin(db);
    var ok := tx.CreateJobRow(id, spec.name);
    if !ok { return RolledBack; }
    ok := tx.CreateJobSchedule(id, spec);
    if !ok { return RolledBack; }
    ok := tx.CreateJobIOConfig(id, Fetcher, spec.fetcher);
    if !ok { return RolledBack; }
    ok := tx.CreateJobIOConfig(id, Deliverer, spec.deliverer);
    if !ok { return RolledBack; }
    r := Finish(db, tx);
  }

  // The parts of a patch, one after the other on the working copy, up to the first
  // that fails.
  method PatchParts(tx: Db, id: JobId, patch: JobPatch) returns (ok: bool)
    modifies tx`jobs, tx`schedules, tx`configs
    ensures ok ==> Sql.PatchJob(old(tx.State()), tx.now, id, patch) == Some(tx.State())
    ensures tx.reliable && Sql.PatchJob(old(tx.State()), tx.now, id, patch).Some? ==> ok
  {
    hide UpdateName, PatchSchedule, PatchConfig;
    if patch.name.Some? {
      ok := tx.UpdateJobName(id, patch.name.value);
      if !ok { return; }
    }
    if patch.schedule.Some? {
      ok := tx.PatchJobSchedule(id, patch.schedule.value);
      if !ok { return; }
    }
    if patch.fetcher.Some? {
      ok := tx.PatchJobIOConfig(id, Fetcher, patch.fetcher.value);
      if !ok { return; }
    }
    if patch.deliverer.Some? {
      ok := tx.PatchJobIOConfig(id, Deliverer, patch.deliverer.value);
      if !ok { return; }
    }
    ok := true;
  }

  method PatchJob(db: Db, id: JobId, patch: JobPatch) returns (r: TxResult)
    modifies db
    ensures db.now == old(db.now)
    ensures AllOrNothing(old(db.State()), Sql.PatchJob(old(db.State()), db.now, id, patch), db.State(), r)
    ensures db.reliable ==>
              r == if Sql.PatchJob(old(db.State()), db.now, id, patch).Some? then Committed else RolledBack
  {
    hide Sql.PatchJob;
    var tx := new Db.Begin(db);
    var ok := PatchParts(tx, id, patch);
    if !ok { return RolledBack; }
    r := Finish(db, tx);
  }

  // Why a command touched no row. A schedule that has claimed its last run has no
  // next_run_at, so the check itself fails while that run is in flight.
  method MapScheduleCommandError(db: Db, id: JobId) returns (r: CommandResult)
    ensures r == if id !in db.schedules then NotFound
                 else if db.schedules[id].nextRunAt.None? then CheckFailed else StatusConflict
  {
    var s := db.GetJobSchedule(id);
    r := match s
      case NoRows => NotFound
      case ScanFailed => CheckFailed
      case Row(_) => StatusConflict;
  }

  // ActivateJob and DeactivateJob. The reason of a rejection is looked up by a
  // second statement, in the tables `seen` that it finds; others may act between.
  method Command(db: Db, id: JobId, active: bool) returns (r: CommandResult, ghost seen: Tables)
    modifies db
    ensures db.State() == seen
    ensures r == Accepted <==> CommandMatches(old(db.State()), id)
    ensures
      var command := if active then L.Activate(id) else L.Deactivate(id);
      L.Effect(old(db.State()), old(db.now), command) == if r == Accepted then seen else old(db.State())
    ensures r != Accepted ==>
              r == if id !in seen.schedules then NotFound
                   else if seen.schedules[id].nextRunAt.None? then CheckFailed else StatusConflict
  {
    var found := db.SetActive(id, active);
    seen := db.State();
    if found {
      return Accepted, seen;
    }
    db.Others();
    seen := db.State();
    r := MapScheduleCommandError(db, id);
  }

  // ------------------------------------------------------------- reading back

  ghost predicate ShowsSchedule(t: Tables, id: JobId, v: ScheduleView) {
    && id in t.schedules && t.schedules[id].nextRunAt.Some? && v.schedule == t.schedules[id]
    && (!v.schedule.isActive ==> v.status == Disabled)
    && (!HasActiveRun(t, id) ==> v.lastRunTakenAt == None && (v.schedule.isActive ==> v.status == Idle))
    && (HasActiveRun(t, id) ==> exists q :: LatestActive(t, id, q) && Shows(v, t.runs[q]))
  }

  ghost predicate ShowsConfigs(t: Tables, id: JobId, fetcher: IOConfig, deliverer: IOConfig) {
    && fetcher == (if ConfigKey(id, Fetcher) in t.configs then t.configs[ConfigKey(id, Fetcher)] else NO_CONFIG)
    && deliverer == (if ConfigKey(id, Deliverer) in t.configs then t.configs[ConfigKey(id, Deliverer)] else NO_CONFIG)
  }

  // The three parts of a view, each read from tables of its own.
  ghost predicate ShowsJob(t1: Tables, t2: Tables, t3: Tables, id: JobId, v: JobView) {
    && id in t1.jobs && v.job == t1.jobs[id]
    && ShowsSchedule(t2, id, v.schedule)
    && ShowsConfigs(t3, id, v.fetcher, v.deliverer)
  }

  method Assemble(id: JobId, items: seq<(ConfigKey, IOConfig)>) returns (fetcher: IOConfig, deliverer: IOConfig)
    requires forall i | 0 <= i < |items| :: items[i].0.job == id
    requires forall i, k | 0 <= i < k < |items| :: items[i].0 != items[k].0
    ensures (ConfigKey(id, Fetcher), fetcher) in items
         || (fetcher == NO_CONFIG && forall c :: (ConfigKey(id, Fetcher), c) !in items)
    ensures (ConfigKey(id, Deliverer), deliverer) in items
         || (deliverer == NO_CONFIG && forall c :: (ConfigKey(id, Deliverer), c) !in items)
  {
    fetcher, deliverer := NO_CONFIG, NO_CONFIG;
    for i := 0 to |items|
      invariant (ConfigKey(id, Fetcher), fetcher) in items[..i]
             || (fetcher == NO_CONFIG && forall c :: (ConfigKey(id, Fetcher), c) !in items[..i])
      invariant (ConfigKey(id, Deliverer), deliverer) in items[..i]
             || (deliverer == NO_CONFIG && forall c :: (ConfigKey(id, Deliverer), c) !in items[..i])
    {
      assert items[..i + 1] == items[..i] + [items[i]];
      match items[i].0.kind
      case Fetcher => fetcher := items[i].1;
      case Deliverer => deliverer := items[i].1;
    }
    assert items[..|items|] == items;
  }

  // Three statements, reading the old tables, t2 and t3; others may act between.
  method GetJobByID(db: Db, id: JobId) returns (r: Fetched<JobView>, ghost t2: Tables, ghost t3: Tables)
    modifies db
    ensures r == NoRows <==> id !in old(db.jobs) || id !in t2.schedules
    ensures r == ScanFailed <==> id in old(db.jobs) && id in t2.schedules && t2.schedules[id].nextRunAt.None?
    ensures r.Row? ==> ShowsJob(old(db.State()), t2, t3, id, r.value) && db.State() == t3
  {
    t2, t3 := db.State(), db.State();
    if id !in db.jobs {
      return NoRows, t2, t3;
    }
    var job := db.jobs[id];
    db.Others();
    t2, t3 := db.State(), db.State();
    var schedule := db.GetJobSchedule(id);
    if schedule.NoRows? {
      return NoRows, t2, t3;
    }
    if schedule.ScanFailed? {
      return ScanFailed, t2, t3;
    }
    db.Others();
    t3 := db.State();
    var items := db.ListJobIOConfigs(id);
    var fetcher, deliverer := Assemble(id, items);
    ConfigsFromList(t3, id, items, fetcher, deliverer);
    return Row(JobView(job, schedule.value, fetcher, deliverer)), t2, t3;
  }

  lemma ConfigsFromList(t: Tables, id: JobId, items: seq<(ConfigKey, IOConfig)>, fetcher: IOConfig, deliverer: IOConfig)
    requires forall i | 0 <= i < |items| :: items[i].0 in t.configs && items[i].1 == t.configs[items[i].0]
    requires forall k | k in t.configs && k.job == id :: (k, t.configs[k]) in items
    requires (ConfigKey(id, Fetcher), fetcher) in items
          || (fetcher == NO_CONFIG && forall c :: (ConfigKey(id, Fetcher), c) !in items)
    requires (ConfigKey(id, Deliverer), deliverer) in items
          || (deliverer == NO_CONFIG && forall c :: (ConfigKey(id, Deliverer), c) !in items)
    ensures ShowsConfigs(t, id, fetcher, deliverer)
  {
  }

  // ------------------------------------------------------- what create leaves

  // The rows of a job as it was created at `at`, and no run of it.
  ghost predicate AsCreated(s: L.State, id: JobId, spec: JobSpec, at: Time) {
    && id in s.t.jobs && s.t.jobs[id] == JobRow(spec.name, at, at)
    && id in s.t.schedules
    && s.t.schedules[id] == Schedule(true, spec.repeatSec, 0, spec.targetRuns, None, Some(spec.nextRunAt), at, at)
    && ConfigKey(id, Fetcher) in s.t.configs && s.t.configs[ConfigKey(id, Fetcher)] == spec.fetcher
    && ConfigKey(id, Deliverer) in s.t.configs && s.t.configs[ConfigKey(id, Deliverer)] == spec.deliverer
    && forall r | r in s.t.runs :: s.t.runs[r].job != id
  }

  lemma RowsOfOthers(s: L.State, a: L.Action, s': L.State, id: JobId)
    requires L.Next(s, a, s') && !(a.Patch? && a.id == id) && !(a.Delete? && a.id == id) && id in s.t.jobs
    requires ConfigKey(id, Fetcher) in s.t.configs && ConfigKey(id, Deliverer) in s.t.configs
    ensures id in s'.t.jobs && s'.t.jobs[id] == s.t.jobs[id]
    ensures ConfigKey(id, Fetcher) in s'.t.configs && ConfigKey(id, Deliverer) in s'.t.configs
    ensures s'.t.configs[ConfigKey(id, Fetcher)] == s.t.configs[ConfigKey(id, Fetcher)]
    ensures s'.t.configs[ConfigKey(id, Deliverer)] == s.t.configs[ConfigKey(id, Deliverer)]
  {
    hide Sql.PatchJob;
    if a.Patch? { P.PatchIsRowWise(s.t, s.now, a.id, a.patch); }
  }

  // ------------------------------------------------------------ torn views

  // A view assembled from three moments is the view of the second if and only if
  // the row of the job and its configurations are the same there.
  lemma ViewOfSecond(t1: Tables, t2: Tables, t3: Tables, id: JobId, v: JobView)
    requires ShowsJob(t1, t2, t3, id, v)
    ensures ShowsJob(t2, t2, t2, id, v) <==>
              id in t2.jobs && t2.jobs[id] == t1.jobs[id] && ShowsConfigs(t2, id, v.fetcher, v.deliverer)
  {
  }

  predicate Rewrites(a: L.Action, id: JobId) {
    (a.Patch? && a.id == id) || (a.Delete? && a.id == id)
  }

  predicate SameJob(t: Tables, t': Tables, id: JobId) {
    && id in t.jobs && id in t'.jobs && t'.jobs[id] == t.jobs[id]
    && ConfigKey(id, Fetcher) in t.configs && ConfigKey(id, Fetcher) in t'.configs
    && ConfigKey(id, Deliverer) in t.configs && ConfigKey(id, Deliverer) in t'.configs
    && t'.configs[ConfigKey(id, Fetcher)] == t.configs[ConfigKey(id, Fetcher)]
    && t'.configs[ConfigKey(id, Deliverer)] == t.configs[ConfigKey(id, Deliverer)]
  }

  lemma {:induction false} JobUntouched(states: seq<L.State>, actions: seq<L.Action>, i: nat, n: nat, id: JobId)
    requires L.Behaviour(states, actions) && i <= n <= |actions| && id in states[i].t.jobs
    requires forall m | i <= m < n :: !Rewrites(actions[m], id)
    ensures SameJob(states[i].t, states[n].t, id)
  {
    hide L.Next;
    L.InvAlways(states, actions, i);
    if i < n {
      JobUntouched(states, actions, i, n - 1, id);
      RowsOfOthers(states[n - 1], actions[n - 1], states[n], id);
    }
  }

  // Without a patch or a deletion of the job between the first read and the third,
  // the view is the one of the second moment.
  lemma ViewIsWhole(states: seq<L.State>, actions: seq<L.Action>, i: nat, k: nat, n: nat, id: JobId, v: JobView)
    requires L.Behaviour(states, actions) && i <= k <= n <= |actions|
    requires forall m | i <= m < n :: !Rewrites(actions[m], id)
    requires ShowsJob(states[i].t, states[k].t, states[n].t, id, v)
    ensures ShowsJob(states[k].t, states[k].t, states[k].t, id, v)
  {
    hide L.Next;
    JobUntouched(states, actions, i, k, id);
    JobUntouched(states, actions, k, n, id);
  }

  // The configurations shown are those of the job if it exists at the third moment;
  // if it was deleted before, the view shows it with two empty ones.
  lemma DeletedView(states: seq<L.State>, actions: seq<L.Action>, i: nat, k: nat, n: nat, id: JobId, v: JobView)
    requires L.Behaviour(states, actions) && i <= k <= n <= |actions|
    requires ShowsJob(states[i].t, states[k].t, states[n].t, id, v)
    ensures id in states[n].t.jobs ==>
              && ConfigKey(id, Fetcher) in states[n].t.configs && ConfigKey(id, Deliverer) in states[n].t.configs
              && v.fetcher == states[n].t.configs[ConfigKey(id, Fetcher)]
              && v.deliverer == states[n].t.configs[ConfigKey(id, Deliverer)]
    ensures id !in states[n].t.jobs ==>
              v.fetcher == v.deliverer == IOConfig(None, None, None, "", "")
  {
    hide L.Next;
    L.InvAlways(states, actions, n);
  }

  lemma ScheduleOfOthers(s: L.State, a: L.Action, s': L.State, id: JobId, spec: JobSpec, at: Time)
    requires L.RunsEvolve(s, a, s') && L.SchedulesEvolve(s, a, s') && AsCreated(s, id, spec, at)
    requires !L.Touches(a, id) && spec.targetRuns >= 0 && id in s'.t.schedules
    ensures s'.t.schedules[id] == s.t.schedules[id] && forall r | r in s'.t.runs :: s'.t.runs[r].job != id
  {
    assert s'.t.schedules[id] == L.ScheduleAfter(s.t, s.now, a, id);
    forall r | r in s'.t.runs ensures s'.t.runs[r].job != id {
      if r in s.t.runs { assert L.RowEvolves(s.t.runs[r], s'.t.runs[r], s.now); }
    }
  }

  lemma AsCreatedStays(s: L.State, a: L.Action, s': L.State, id: JobId, spec: JobSpec, at: Time)
    requires L.Inv(s) && L.Next(s, a, s') && AsCreated(s, id, spec, at) && !L.Touches(a, id) && spec.targetRuns >= 0
    ensures AsCreated(s', id, spec, at)
  {
    hide L.Next, L.Inv, L.RunsEvolve, L.SchedulesEvolve, L.MemoryEvolves;
    L.InvStep(s, a, s');
    RowsOfOthers(s, a, s', id);
    L.InvSchedules(s', id);
    ScheduleOfOthers(s, a, s', id, spec, at);
  }

  lemma CreatedNow(s: L.State, a: L.Action, s': L.State, id: JobId, spec: JobSpec)
    requires L.Inv(s) && L.Next(s, a, s') && a == L.Create(id, spec) && Sql.CreateJob(s.t, s.now, id, spec).Some?
    ensures AsCreated(s', id, spec, s.now)
  {
  }

  lemma {:induction false} AsCreatedAlways(
    states: seq<L.State>, actions: seq<L.Action>, k: nat, n: nat, id: JobId, spec: JobSpec)
    requires L.Behaviour(states, actions) && k < n <= |actions| && actions[k] == L.Create(id, spec)
    requires Sql.CreateJob(states[k].t, states[k].now, id, spec).Some? && spec.targetRuns >= 0
    requires forall i | k < i < n :: !L.Touches(actions[i], id)
    ensures AsCreated(states[n], id, spec, states[k].now)
  {
    hide L.Next, L.Inv, L.Touches, AsCreated, Sql.CreateJob;
    L.InvAlways(states, actions, n - 1);
    if n == k + 1 {
      CreatedNow(states[k], actions[k], states[n], id, spec);
    } else {
      AsCreatedAlways(states, actions, k, n - 1, id, spec);
      AsCreatedStays(states[n - 1], actions[n - 1], states[n], id, spec, states[k].now);
    }
  }

  // What a validated request created is what is read back, through any behaviour in
  // which nobody claims, commands, patches or deletes the job before the last of the
  // three reads.
  lemma CreateThenGet(
    states: seq<L.State>, actions: seq<L.Action>, k: nat, n1: nat, n2: nat, n3: nat,
    id: JobId, spec: JobSpec, v: JobView)
    requires L.Behaviour(states, actions) && k < n1 <= n2 <= n3 <= |actions| && actions[k] == L.Create(id, spec)
    requires Sql.CreateJob(states[k].t, states[k].now, id, spec).Some?
    requires Requests.ValidateCreateJobRequest(spec).None?
    requires forall i | k < i < n3 :: !L.Touches(actions[i], id)
    requires ShowsJob(states[n1].t, states[n2].t, states[n3].t, id, v)
    ensures
      var at := states[k].now;
      var x := Schedule(true, spec.repeatSec, 0, spec.targetRuns, None, Some(spec.nextRunAt), at, at);
      v == JobView(JobRow(spec.name, at, at), ScheduleView(Idle, x, None), spec.fetcher, spec.deliverer)
  {
    hide L.Next, L.Inv, L.Touches, Sql.CreateJob;
    AsCreatedAlways(states, actions, k, n1, id, spec);
    AsCreatedAlways(states, actions, k, n2, id, spec);
    AsCreatedAlways(states, actions, k, n3, id, spec);
    assert !HasActiveRun(states[n2].t, id);
  }

  // In every reachable state the view tells the truth about the one active run;
  // and while callers respect the rule for targets, `disabled` and `idle` both mean
  // that there is none.
  lemma ViewIsTrue(states: seq<L.State>, actions: seq<L.Action>, n: nat, id: JobId, v: ScheduleView)
    requires L.Behaviour(states, actions) && n <= |actions| && ShowsSchedule(states[n].t, id, v)
    ensures forall r | r in states[n].t.runs && ActiveRunOf(states[n].t, id, r) :: Shows(v, states[n].t.runs[r])
    ensures Active(v.status) ==> HasActiveRun(states[n].t, id)
    ensures v.status == Idle <==> v.schedule.isActive && !HasActiveRun(states[n].t, id)
    ensures (forall i | 0 <= i < n :: Q.QuietRule(states[i], actions[i])) ==>
              v.status == Disabled ==> !HasActiveRun(states[n].t, id)
  {
    hide L.Next, Q.QuietRule;
    L.InvAlways(states, actions, n);
    if forall i | 0 <= i < n :: Q.QuietRule(states[i], actions[i]) {
      Q.UnspentAlways(states, actions, n);
    }
  }
}
