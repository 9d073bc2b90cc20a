// The algebra of patches: one patch after another is their field-wise override,
// repeating a patch changes nothing but time stamps, and a patch touches nothing
// but the rows and fields it names.
module Patches {
  import opened Model
  import opened Sql

  function Override<T>(p: Option<T>, q: Option<T>): Option<T> {
    if q.Some? then q else p
  }

  // A field set to NULL overrides; an absent one does not.
  function OverrideField(p: JsonField, q: JsonField): JsonField {
    if q.Set? then q else p
  }

  function OverrideSchedule(p: Option<SchedulePatch>, q: Option<SchedulePatch>): Option<SchedulePatch> {
    if p.Some? && q.Some? then
      Some(SchedulePatch(Override(p.value.repeatSec, q.value.repeatSec),
                         Override(p.value.targetRuns, q.value.targetRuns),
                         Override(p.value.nextRunAt, q.value.nextRunAt)))
    else Override(p, q)
  }

  function OverrideConfig(p: Option<ConfigPatch>, q: Option<ConfigPatch>): Option<ConfigPatch> {
    if p.Some? && q.Some? then
      Some(ConfigPatch(OverrideField(p.value.payload, q.value.payload),
                       OverrideField(p.value.headers, q.value.headers),
                       OverrideField(p.value.jsonSchema, q.value.jsonSchema),
                       Override(p.value.targetUrl, q.value.targetUrl),
                       Override(p.value.verb, q.value.verb)))
    else Override(p, q)
  }

  function OverrideJob(p: JobPatch, q: JobPatch): JobPatch {
    JobPatch(Override(p.name, q.name), OverrideSchedule(p.schedule, q.schedule),
             OverrideConfig(p.fetcher, q.fetcher), OverrideConfig(p.deliverer, q.deliverer))
  }

  // ------------------------------------------------- a patch, table by table

  predicate Succeeds(t: Tables, id: JobId, p: JobPatch) {
    && (p.name.Some? ==> id in t.jobs)
    && (p.schedule.Some? ==> id in t.schedules && Coalesce(p.schedule.value.repeatSec, t.schedules[id].repeatSec) >= 0)
    && (p.fetcher.Some? ==> ConfigKey(id, Fetcher) in t.configs)
    && (p.deliverer.Some? ==> ConfigKey(id, Deliverer) in t.configs)
  }

  function PatchedName(j: JobRow, now: Time, name: Option<string>): JobRow {
    if name.Some? then j.(name := name.value, updatedAt := now) else j
  }

  function PatchedTimes(s: Schedule, now: Time, p: Option<SchedulePatch>): Schedule {
    if p.Some? then PatchedSchedule(s, now, p.value) else s
  }

  function PatchedIO(c: IOConfig, p: Option<ConfigPatch>): IOConfig {
    if p.Some? then PatchedConfig(c, p.value) else c
  }

  // t' is t with exactly the rows of this job rewritten by p.
  ghost predicate RowsPatched(t: Tables, now: Time, id: JobId, p: JobPatch, t': Tables) {
    && t'.jobs.Keys == t.jobs.Keys && t'.schedules.Keys == t.schedules.Keys && t'.configs.Keys == t.configs.Keys
    && t'.runs == t.runs
    && (forall j | j in t.jobs :: t'.jobs[j] == if j == id then PatchedName(t.jobs[j], now, p.name) else t.jobs[j])
    && (forall j | j in t.schedules ::
          t'.schedules[j] == if j == id then PatchedTimes(t.schedules[j], now, p.schedule) else t.schedules[j])
    && (forall k | k in t.configs ::
          t'.configs[k] ==
            if k.job == id then PatchedIO(t.configs[k], if k.kind.Fetcher? then p.fetcher else p.deliverer)
            else t.configs[k])
  }

  lemma PatchedConfigs(t: Tables, t': Tables, id: JobId, p: JobPatch)
    requires p.fetcher.Some? ==> ConfigKey(id, Fetcher) in t.configs
    requires p.deliverer.Some? ==> ConfigKey(id, Deliverer) in t.configs
    requires
      var t1 := if p.fetcher.Some? then PatchConfig(t, id, Fetcher, p.fetcher.value) else Some(t);
      var t2 := if p.deliverer.Some? then PatchConfig(t1.value, id, Deliverer, p.deliverer.value) else t1;
      t2 == Some(t')
    ensures t'.jobs == t.jobs && t'.schedules == t.schedules && t'.runs == t.runs && t'.configs.Keys == t.configs.Keys
    ensures forall k | k in t.configs ::
          t'.configs[k] ==
            if k.job == id then PatchedIO(t.configs[k], if k.kind.Fetcher? then p.fetcher else p.deliverer)
            else t.configs[k]
  {
    hide PatchedConfig;
  }

  lemma PatchedHead(t: Tables, now: Time, id: JobId, p: JobPatch, t': Tables)
    requires (p.name.Some? ==> id in t.jobs)
    requires
      var t1 := if p.name.Some? then UpdateName(t, now, id, p.name.value) else Some(t);
      var t2 := if p.schedule.Some? then PatchSchedule(t1.value, now, id, p.schedule.value) else t1;
      t2 == Some(t')
    ensures t'.configs == t.configs && t'.runs == t.runs
    ensures t'.jobs.Keys == t.jobs.Keys && t'.schedules.Keys == t.schedules.Keys
    ensures forall j | j in t.jobs :: t'.jobs[j] == if j == id then PatchedName(t.jobs[j], now, p.name) else t.jobs[j]
    ensures forall j | j in t.schedules ::
              t'.schedules[j] == if j == id then PatchedTimes(t.schedules[j], now, p.schedule) else t.schedules[j]
  {
    hide PatchedSchedule;
  }

  lemma PatchRows(t: Tables, now: Time, id: JobId, p: JobPatch)
    requires PatchJob(t, now, id, p).Some?
    ensures RowsPatched(t, now, id, p, PatchJob(t, now, id, p).value)
  {
    hide PatchedConfig, PatchedSchedule, UpdateName, PatchSchedule, PatchConfig, PatchedName, PatchedTimes, PatchedIO;
    var t1 := if p.name.Some? then UpdateName(t, now, id, p.name.value) else Some(t);
    var t2 := if p.schedule.Some? then PatchSchedule(t1.value, now, id, p.schedule.value) else t1;
    PartsNeedRows(t, now, id, p);
    PatchedHead(t, now, id, p, t2.value);
    PatchedConfigs(t2.value, PatchJob(t, now, id, p).value, id, p);
  }

  lemma PartsNeedRows(t: Tables, now: Time, id: JobId, p: JobPatch)
    ensures PatchJob(t, now, id, p).Some? <==> Succeeds(t, id, p)
  {
    hide PatchedConfig, PatchedSchedule;
  }

  // A patch succeeds exactly when every row that it names exists and the interval
  // it leaves behind is not negative; then it rewrites exactly those rows.
  lemma PatchIsRowWise(t: Tables, now: Time, id: JobId, p: JobPatch)
    ensures PatchJob(t, now, id, p).Some? <==> Succeeds(t, id, p)
    ensures PatchJob(t, now, id, p).Some? ==> RowsPatched(t, now, id, p, PatchJob(t, now, id, p).value)
  {
    hide PatchJob, Succeeds, RowsPatched;
    PartsNeedRows(t, now, id, p);
    if PatchJob(t, now, id, p).Some? { PatchRows(t, now, id, p); }
  }

  // Tables that agree row by row are equal.
  lemma SameRows(t: Tables, now: Time, id: JobId, p: JobPatch, t': Tables, t'': Tables)
    requires RowsPatched(t, now, id, p, t') && RowsPatched(t, now, id, p, t'')
    ensures t' == t''
  {
    assert t'.jobs == t''.jobs && t'.schedules == t''.schedules && t'.configs == t''.configs;
  }

  // ------------------------------------------------------------------- algebra

  // The tables with every updated_at erased.
  ghost function Untimed(t: Tables): Tables {
    t.(jobs := map j | j in t.jobs :: t.jobs[j].(updatedAt := 0),
       schedules := map j | j in t.schedules :: t.schedules[j].(updatedAt := 0))
  }

  lemma OverrideSucceeds(t: Tables, now: Time, id: JobId, p: JobPatch, q: JobPatch, t1: Tables)
    requires Succeeds(t, id, p) && RowsPatched(t, now, id, p, t1)
    ensures Succeeds(t1, id, q) <==> Succeeds(t, id, OverrideJob(p, q))
  {
  }

  lemma RowsOverride(now: Time, later: Time, p: JobPatch, q: JobPatch)
    ensures forall j :: PatchedName(PatchedName(j, now, p.name), later, q.name).(updatedAt := 0)
                     == PatchedName(j, later, Override(p.name, q.name)).(updatedAt := 0)
    ensures forall s :: PatchedTimes(PatchedTimes(s, now, p.schedule), later, q.schedule).(updatedAt := 0)
                     == PatchedTimes(s, later, OverrideSchedule(p.schedule, q.schedule)).(updatedAt := 0)
    ensures forall c ::
              PatchedIO(PatchedIO(c, p.fetcher), q.fetcher) == PatchedIO(c, OverrideConfig(p.fetcher, q.fetcher))
    ensures forall c ::
              PatchedIO(PatchedIO(c, p.deliverer), q.deliverer) ==
              PatchedIO(c, OverrideConfig(p.deliverer, q.deliverer))
  {
  }

  // After a patch p that succeeds, q does what the override of p by q does on the
  // original tables:
  // it fails in the same cases, and otherwise leaves the same rows but for
  // updated_at. Absent, NULL and value are kept apart.
  lemma PatchThenPatch(t: Tables, now: Time, later: Time, id: JobId, p: JobPatch, q: JobPatch)
    requires PatchJob(t, now, id, p).Some?
    ensures
      var both := PatchJob(PatchJob(t, now, id, p).value, later, id, q);
      var once := PatchJob(t, later, id, OverrideJob(p, q));
      && both.Some? == once.Some?
      && (both.Some? ==> Untimed(both.value) == Untimed(once.value))
  {
    hide PatchJob, Succeeds, OverrideSchedule, OverrideConfig, PatchedName, PatchedTimes, PatchedIO;
    var t1 := PatchJob(t, now, id, p).value;
    PatchIsRowWise(t, now, id, p);
    PatchIsRowWise(t1, later, id, q);
    PatchIsRowWise(t, later, id, OverrideJob(p, q));
    OverrideSucceeds(t, now, id, p, q, t1);
    if Succeeds(t1, id, q) {
      var both := PatchJob(t1, later, id, q).value;
      var once := PatchJob(t, later, id, OverrideJob(p, q)).value;
      RowsOverride(now, later, p, q);
      assert Untimed(both).jobs == Untimed(once).jobs;
      assert Untimed(both).schedules == Untimed(once).schedules;
      assert Untimed(both).configs == Untimed(once).configs;
    }
  }

  // ---------------------------------------------------- when two patches agree

  predicate KeepsValue<T(==)>(x: Option<T>, current: T) {
    x.Some? ==> x.value == current
  }

  predicate KeepsJson(f: JsonField, current: Option<Json>) {
    f.Set? ==> f.value == current
  }

  predicate KeepsSchedule(p: SchedulePatch, s: Schedule) {
    && KeepsValue(p.repeatSec, s.repeatSec) && KeepsValue(p.targetRuns, s.targetRuns)
    && (p.nextRunAt.Some? ==> p.nextRunAt == s.nextRunAt)
  }

  predicate KeepsConfig(p: ConfigPatch, c: IOConfig) {
    && KeepsJson(p.payload, c.payload) && KeepsJson(p.headers, c.headers) && KeepsJson(p.jsonSchema, c.jsonSchema)
    && KeepsValue(p.targetUrl, c.targetUrl) && KeepsValue(p.verb, c.verb)
  }

  predicate KeepsIO(p: Option<ConfigPatch>, t: Tables, k: ConfigKey) {
    p.Some? && k in t.configs ==> KeepsConfig(p.value, t.configs[k])
  }

  // Every value that p sets is there already.
  predicate Keeps(t: Tables, id: JobId, p: JobPatch) {
    && (id in t.jobs ==> KeepsValue(p.name, t.jobs[id].name))
    && (p.schedule.Some? && id in t.schedules ==> KeepsSchedule(p.schedule.value, t.schedules[id]))
    && KeepsIO(p.fetcher, t, ConfigKey(id, Fetcher)) && KeepsIO(p.deliverer, t, ConfigKey(id, Deliverer))
  }

  function Without<T>(p: Option<T>, q: Option<T>): Option<T> {
    if q.Some? then None else p
  }

  function WithoutField(p: JsonField, q: JsonField): JsonField {
    if q.Set? then Absent else p
  }

  function WithoutConfig(p: Option<ConfigPatch>, q: Option<ConfigPatch>): Option<ConfigPatch> {
    if p.Some? && q.Some? then
      Some(ConfigPatch(WithoutField(p.value.payload, q.value.payload),
                       WithoutField(p.value.headers, q.value.headers),
                       WithoutField(p.value.jsonSchema, q.value.jsonSchema),
                       Without(p.value.targetUrl, q.value.targetUrl),
                       Without(p.value.verb, q.value.verb)))
    else p
  }

  // The fields of p that q leaves alone.
  function WithoutJob(p: JobPatch, q: JobPatch): JobPatch {
    JobPatch(
      Without(p.name, q.name),
      if p.schedule.Some? && q.schedule.Some? then
        Some(SchedulePatch(Without(p.schedule.value.repeatSec, q.schedule.value.repeatSec),
                           Without(p.schedule.value.targetRuns, q.schedule.value.targetRuns),
                           Without(p.schedule.value.nextRunAt, q.schedule.value.nextRunAt)))
      else p.schedule,
      WithoutConfig(p.fetcher, q.fetcher),
      WithoutConfig(p.deliverer, q.deliverer))
  }

  const EMPTY := JobPatch(None, None, None, None)

  // Two patches make the same of the rows of this job, but for updated_at.
  ghost predicate AgreeOn(t: Tables, id: JobId, p: JobPatch, q: JobPatch) {
    && (id in t.jobs ==> Coalesce(p.name, t.jobs[id].name) == Coalesce(q.name, t.jobs[id].name))
    && (id in t.schedules ==>
          PatchedTimes(t.schedules[id], 0, p.schedule).(updatedAt := 0) ==
          PatchedTimes(t.schedules[id], 0, q.schedule).(updatedAt := 0))
    && (ConfigKey(id, Fetcher) in t.configs ==>
          PatchedIO(t.configs[ConfigKey(id, Fetcher)], p.fetcher) ==
          PatchedIO(t.configs[ConfigKey(id, Fetcher)], q.fetcher))
    && (ConfigKey(id, Deliverer) in t.configs ==>
          PatchedIO(t.configs[ConfigKey(id, Deliverer)], p.deliverer) ==
          PatchedIO(t.configs[ConfigKey(id, Deliverer)], q.deliverer))
  }

  lemma NothingPatched(t: Tables, now: Time, id: JobId)
    ensures RowsPatched(t, now, id, EMPTY, t)
  {
  }

  lemma AgreeWithNothing(t: Tables, id: JobId, p: JobPatch)
    ensures AgreeOn(t, id, p, EMPTY) <==> Keeps(t, id, p)
  {
  }

  lemma AgreeWithOverride(t: Tables, id: JobId, p: JobPatch, q: JobPatch)
    ensures AgreeOn(t, id, q, OverrideJob(p, q)) <==> Keeps(t, id, WithoutJob(p, q))
  {
  }

  lemma NameUntimed(j: JobRow, now: Time, name: Option<string>)
    ensures PatchedName(j, now, name).(updatedAt := 0) == j.(name := Coalesce(name, j.name), updatedAt := 0)
  {
  }

  lemma ScheduleUntimed(s: Schedule, now: Time, p: Option<SchedulePatch>)
    ensures PatchedTimes(s, now, p).(updatedAt := 0) == PatchedTimes(s, 0, p).(updatedAt := 0)
  {
  }

  lemma AgreeMeansSame(t: Tables, now: Time, later: Time, id: JobId, p: JobPatch, q: JobPatch, x: Tables, y: Tables)
    requires RowsPatched(t, now, id, p, x) && RowsPatched(t, later, id, q, y) && AgreeOn(t, id, p, q)
    ensures Untimed(x) == Untimed(y)
  {
    hide PatchedName, PatchedTimes, PatchedIO;
    if id in t.jobs {
      NameUntimed(t.jobs[id], now, p.name);
      NameUntimed(t.jobs[id], later, q.name);
    }
    if id in t.schedules {
      ScheduleUntimed(t.schedules[id], now, p.schedule);
      ScheduleUntimed(t.schedules[id], later, q.schedule);
    }
    SameConfigs(t, now, later, id, p, q, x, y);
    hide AgreeOn;
    assert Untimed(x).jobs == Untimed(y).jobs;
    assert Untimed(x).schedules == Untimed(y).schedules;
  }

  lemma SameConfigs(t: Tables, now: Time, later: Time, id: JobId, p: JobPatch, q: JobPatch, x: Tables, y: Tables)
    requires RowsPatched(t, now, id, p, x) && RowsPatched(t, later, id, q, y) && AgreeOn(t, id, p, q)
    ensures x.configs == y.configs
  {
    hide PatchedName, PatchedTimes, PatchedIO;
    forall k | k in t.configs ensures x.configs[k] == y.configs[k] {
      assert k.kind.Fetcher? || k.kind.Deliverer?;
      assert k == ConfigKey(k.job, Fetcher) || k == ConfigKey(k.job, Deliverer);
    }
  }

  lemma SameMeansAgree(t: Tables, now: Time, later: Time, id: JobId, p: JobPatch, q: JobPatch, x: Tables, y: Tables)
    requires RowsPatched(t, now, id, p, x) && RowsPatched(t, later, id, q, y) && Untimed(x) == Untimed(y)
    ensures AgreeOn(t, id, p, q)
  {
    hide PatchedName, PatchedTimes, PatchedIO;
    if id in t.jobs {
      assert Untimed(x).jobs[id] == Untimed(y).jobs[id];
      NameUntimed(t.jobs[id], now, p.name);
      NameUntimed(t.jobs[id], later, q.name);
    }
    if id in t.schedules {
      assert Untimed(x).schedules[id] == Untimed(y).schedules[id];
      ScheduleUntimed(t.schedules[id], now, p.schedule);
      ScheduleUntimed(t.schedules[id], later, q.schedule);
    }
    assert x.configs == y.configs;
  }

  // Two results of patching the same tables are the same, but for updated_at, if
  // and only if the patches agree on the rows of the job.
  lemma SameResult(t: Tables, now: Time, later: Time, id: JobId, p: JobPatch, q: JobPatch, x: Tables, y: Tables)
    requires RowsPatched(t, now, id, p, x) && RowsPatched(t, later, id, q, y)
    ensures Untimed(x) == Untimed(y) <==> AgreeOn(t, id, p, q)
  {
    hide RowsPatched, Untimed, AgreeOn;
    if AgreeOn(t, id, p, q) { AgreeMeansSame(t, now, later, id, p, q, x, y); }
    if Untimed(x) == Untimed(y) { SameMeansAgree(t, now, later, id, p, q, x, y); }
  }

  // An input at which they differ, on any existing schedule. Requests like the
  // first are rejected before they reach the repository.
  lemma OverrideNeedsTheFirst(t: Tables, now: Time, id: JobId)
    requires id in t.schedules
    ensures
      var p := JobPatch(None, Some(SchedulePatch(Some(-1), Some(5), None)), None, None);
      var q := JobPatch(None, Some(SchedulePatch(Some(60), None, None)), None, None);
      && PatchJob(t, now, id, p).None?
      && PatchJob(t, now, id, q).Some?
      && PatchJob(t, now, id, q).value.schedules[id].targetRuns == t.schedules[id].targetRuns
      && PatchJob(t, now, id, OverrideJob(p, q)).Some?
      && PatchJob(t, now, id, OverrideJob(p, q)).value.schedules[id].targetRuns == 5
  {
    hide PatchJob;
    var p := JobPatch(None, Some(SchedulePatch(Some(-1), Some(5), None)), None, None);
    var q := JobPatch(None, Some(SchedulePatch(Some(60), None, None)), None, None);
    PatchIsRowWise(t, now, id, p);
    PatchIsRowWise(t, now, id, q);
    PatchIsRowWise(t, now, id, OverrideJob(p, q));
  }

  // A second application succeeds, and is as if only it had happened.
  lemma PatchIsIdempotent(t: Tables, now: Time, later: Time, id: JobId, p: JobPatch)
    requires PatchJob(t, now, id, p).Some?
    ensures PatchJob(PatchJob(t, now, id, p).value, later, id, p) == PatchJob(t, later, id, p)
    ensures PatchJob(t, later, id, p).Some?
    ensures Untimed(PatchJob(t, later, id, p).value) == Untimed(PatchJob(t, now, id, p).value)
  {
    hide PatchJob, PatchedName, PatchedTimes, PatchedIO;
    var t1 := PatchJob(t, now, id, p).value;
    PatchIsRowWise(t, now, id, p);
    PatchIsRowWise(t1, later, id, p);
    PatchIsRowWise(t, later, id, p);
    RowsRepeat(now, later, p);
    OverrideSucceeds(t, now, id, p, p, t1);
    OverrideItself(p);
    var twice, once := PatchJob(t1, later, id, p).value, PatchJob(t, later, id, p).value;
    SameRows(t, later, id, p, twice, once);
    SameButTimes(t, now, later, id, p, t1, once);
  }

  lemma SameButTimes(t: Tables, now: Time, later: Time, id: JobId, p: JobPatch, x: Tables, y: Tables)
    requires RowsPatched(t, now, id, p, x) && RowsPatched(t, later, id, p, y)
    ensures Untimed(x) == Untimed(y)
  {
    hide PatchedName, PatchedTimes, PatchedIO;
    RowsRepeat(now, later, p);
    assert Untimed(x).jobs == Untimed(y).jobs && Untimed(x).schedules == Untimed(y).schedules;
    assert x.configs == y.configs;
  }

  lemma OverrideItself(p: JobPatch)
    ensures OverrideJob(p, p) == p
  {
  }

  lemma RowsRepeat(now: Time, later: Time, p: JobPatch)
    ensures forall j :: PatchedName(PatchedName(j, now, p.name), later, p.name) == PatchedName(j, later, p.name)
    ensures forall j :: PatchedName(j, later, p.name).(updatedAt := 0) == PatchedName(j, now, p.name).(updatedAt := 0)
    ensures forall s ::
              PatchedTimes(PatchedTimes(s, now, p.schedule), later, p.schedule) == PatchedTimes(s, later, p.schedule)
    ensures forall s ::
              PatchedTimes(s, later, p.schedule).(updatedAt := 0) == PatchedTimes(s, now, p.schedule).(updatedAt := 0)
    ensures forall c, x :: PatchedIO(PatchedIO(c, x), x) == PatchedIO(c, x)
  {
  }

  lemma SucceedsElsewhere(t: Tables, now: Time, id: JobId, p: JobPatch, t1: Tables, other: JobId, q: JobPatch)
    requires id != other && RowsPatched(t, now, id, p, t1)
    ensures Succeeds(t1, other, q) <==> Succeeds(t, other, q)
  {
  }

  lemma RowsCommute(
    t: Tables, now: Time, later: Time, id: JobId, other: JobId, p: JobPatch, q: JobPatch,
    t1: Tables, t2: Tables, x: Tables, y: Tables)
    requires id != other && RowsPatched(t, now, id, p, t1) && RowsPatched(t, later, other, q, t2)
    requires RowsPatched(t1, later, other, q, x) && RowsPatched(t2, now, id, p, y)
    ensures x == y
  {
    hide PatchedName, PatchedTimes, PatchedIO;
    assert x.jobs == y.jobs && x.schedules == y.schedules && x.configs == y.configs;
  }

  // Patches of different jobs commute, exactly.
  lemma PatchesCommute(t: Tables, now: Time, later: Time, id: JobId, other: JobId, p: JobPatch, q: JobPatch)
    requires id != other && PatchJob(t, now, id, p).Some? && PatchJob(t, later, other, q).Some?
    ensures PatchJob(PatchJob(t, now, id, p).value, later, other, q)
        == PatchJob(PatchJob(t, later, other, q).value, now, id, p)
    ensures PatchJob(PatchJob(t, now, id, p).value, later, other, q).Some?
  {
    hide PatchJob, RowsPatched, Succeeds;
    var t1, t2 := PatchJob(t, now, id, p).value, PatchJob(t, later, other, q).value;
    PatchIsRowWise(t, now, id, p);
    PatchIsRowWise(t, later, other, q);
    SucceedsElsewhere(t, now, id, p, t1, other, q);
    SucceedsElsewhere(t, later, other, q, t2, id, p);
    PatchIsRowWise(t1, later, other, q);
    PatchIsRowWise(t2, now, id, p);
    RowsCommute(
      t, now, later, id, other, p, q, t1, t2, PatchJob(t1, later, other, q).value, PatchJob(t2, now, id, p).value);
  }
}
