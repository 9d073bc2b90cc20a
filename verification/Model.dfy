// Rows of the four tables, and the vocabulary shared by every other module.
module Model {

  // Identifiers are UUIDs; only equality of two of them is ever used.
  datatype JobId = JobId(uuid: nat)
  datatype RunId = RunId(uuid: nat)

  // Instants and durations are nanoseconds. The database clock and the worker
  // clock have the same type but are never compared with each other.
  type Time = int
  type Json = string

  const SECOND: Time := 1_000_000_000

  datatype Option<+T> = None | Some(value: T)

  // The enum schedule_status. Disabled is part of the enum but no run row ever
  // holds it: it only appears in the view of a schedule.
  datatype Status = Idle | Scheduled | Fetching | Delivering | Error | Disabled

  datatype Kind = Fetcher | Deliverer

  datatype JobRow = JobRow(name: string, createdAt: Time, updatedAt: Time)

  datatype Schedule = Schedule(
    isActive: bool,
    repeatSec: int,
    doneRuns: int,
    targetRuns: int,
    lastScheduledAt: Option<Time>,
    nextRunAt: Option<Time>,
    createdAt: Time,
    updatedAt: Time)

  datatype IOConfig = IOConfig(
    payload: Option<Json>,
    headers: Option<Json>,
    jsonSchema: Option<Json>,
    targetUrl: string,
    verb: string)

  const NO_CONFIG := IOConfig(None, None, None, "", "")

  datatype RunRow = RunRow(
    job: JobId,
    status: Status,
    scheduledAt: Time,
    fetchStartedAt: Option<Time>,
    deliverStartedAt: Option<Time>,
    endedAt: Option<Time>)

  datatype ConfigKey = ConfigKey(job: JobId, kind: Kind)

  datatype Tables = Tables(
    jobs: map<JobId, JobRow>,
    schedules: map<JobId, Schedule>,
    configs: map<ConfigKey, IOConfig>,
    runs: map<RunId, RunRow>)

  function Coalesce<T>(x: Option<T>, current: T): T {
    if x.Some? then x.value else current
  }

  predicate Active(status: Status) {
    status.Scheduled? || status.Fetching? || status.Delivering?
  }

  predicate Terminal(status: Status) {
    status.Idle? || status.Error?
  }

  // How far a run has travelled; both terminal statuses share the last rank.
  function Rank(status: Status): nat {
    match status
    case Scheduled => 0
    case Fetching => 1
    case Delivering => 2
    case _ => 3
  }

  predicate HasActiveRun(t: Tables, j: JobId) {
    exists r | r in t.runs :: t.runs[r].job == j && Active(t.runs[r].status)
  }

  function RunsOf(t: Tables, j: JobId): set<RunId> {
    set r | r in t.runs && t.runs[r].job == j
  }

  function ActiveRunsOf(t: Tables, j: JobId): set<RunId> {
    set r | r in t.runs && t.runs[r].job == j && Active(t.runs[r].status)
  }

  lemma SubsetSize<T>(a: set<T>, b: set<T>)
    requires a <= b
    ensures |a| <= |b|
  {
    assert b == a + (b - a);
  }
}
