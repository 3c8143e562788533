/**
 The cron tables `_system_cron_jobs` and `_system_cron_runs` of one tenant: rows in rowid
 order, AUTOINCREMENT counters that survive deletion, and the writer operations on them.
 Each operation is one writer closure and so one atomic step.
 */
module CronStore {

  datatype Option<+T> = None | Some(value: T)

  datatype Target = Function(name: string) | Rpc(name: string)

  datatype Job = Job(
    id: int, name: string, schedule: string, target: Target, payload: Option<string>, active: bool,
    createdAt: string, updatedAt: string,
    lastRunAt: Option<string>, lastStatus: Option<string>, lastError: Option<string>, lastDuration: Option<int>)

  datatype Run = Run(id: int, jobId: int, report: Report)

  /** What a fire reports when it is over. */
  datatype Report = Report(firedAt: string, status: string, error: Option<string>, duration: Option<int>)

  datatype Tables = Tables(jobs: seq<Job>, runs: seq<Run>, lastJobId: int, lastRunId: int)

  const Empty := Tables([], [], 0, 0)

  const RUNS_KEEP_PER_JOB: nat := 20

  /** A one-sided merge: `None` leaves a column alone; `payload: Some(None)` clears it. */
  datatype Patch = Patch(schedule: Option<string>, payload: Option<Option<string>>, active: Option<bool>)

  datatype Error = Duplicate | JobLimit | NotFound
  datatype Result<+T> = Ok(value: T) | Err(error: Error)

  // ---------------------------------------------------------------- queries

  /** The row of that name, or -1 (`name` is UNIQUE, so the first is the only one). */
  function IndexOf(jobs: seq<Job>, name: string): (r: int)
    ensures -1 <= r < |jobs|
    ensures r >= 0 ==> jobs[r].name == name
    ensures r < 0 ==> forall i :: 0 <= i < |jobs| ==> jobs[i].name != name
  {
    if jobs == [] then -1
    else if jobs[0].name == name then 0
    else var r := IndexOf(jobs[1..], name); if r < 0 then -1 else r + 1
  }

  predicate Live(jobs: seq<Job>, id: int) { exists i :: 0 <= i < |jobs| && jobs[i].id == id }

  /** `WHERE job_id = j`, in id order. */
  function RunsOf(runs: seq<Run>, j: int): seq<Run> {
    if runs == [] then []
    else if runs[0].jobId == j then [runs[0]] + RunsOf(runs[1..], j)
    else RunsOf(runs[1..], j)
  }

  // ---------------------------------------------------------------- statements

  /** `DELETE FROM runs WHERE job_id = j`. */
  function WithoutRunsOf(runs: seq<Run>, j: int): seq<Run> {
    if runs == [] then []
    else if runs[0].jobId == j then WithoutRunsOf(runs[1..], j)
    else [runs[0]] + WithoutRunsOf(runs[1..], j)
  }

  /** How many runs of `j` have an id above `id`. */
  function NewerThan(runs: seq<Run>, j: int, id: int): nat {
    if runs == [] then 0
    else (if runs[0].jobId == j && runs[0].id > id then 1 else 0) + NewerThan(runs[1..], j, id)
  }

  /** Delete those of `runs` that belong to `j` and are not among the `keep` newest of `all`:
      the rows outside `ORDER BY id DESC LIMIT keep`. */
  function Prune(runs: seq<Run>, all: seq<Run>, j: int, keep: nat): seq<Run> {
    if runs == [] then []
    else if runs[0].jobId == j && NewerThan(all, j, runs[0].id) >= keep then Prune(runs[1..], all, j, keep)
    else [runs[0]] + Prune(runs[1..], all, j, keep)
  }

  /** `UPDATE jobs SET last_* .. WHERE id = j`. */
  function SetLast(jobs: seq<Job>, j: int, rep: Report, now: string): (r: seq<Job>)
    ensures |r| == |jobs|
    ensures forall i :: 0 <= i < |jobs| ==> r[i] == if jobs[i].id == j then Stamped(jobs[i], rep, now) else jobs[i]
  {
    if jobs == [] then [] else [if jobs[0].id == j then Stamped(jobs[0], rep, now) else jobs[0]] + SetLast(jobs[1..], j, rep, now)
  }

  function Stamped(job: Job, rep: Report, now: string): Job {
    job.(lastRunAt := Some(rep.firedAt), lastStatus := Some(rep.status), lastError := rep.error, lastDuration := rep.duration, updatedAt := now)
  }

  function Merge(job: Job, p: Patch, now: string): Job {
    job.(schedule := if p.schedule.Some? then p.schedule.value else job.schedule,
         payload := if p.payload.Some? then p.payload.value else job.payload,
         active := if p.active.Some? then p.active.value else job.active,
         updatedAt := now)
  }

  // ---------------------------------------------------------------- operations

  datatype Op =
    | Create(name: string, schedule: string, target: Target, payload: Option<string>, active: bool, now: string)
    | Update(name: string, patch: Patch, now: string)
    | Delete(name: string)
    | Record(jobId: int, report: Report, now: string)

  function NewJob(id: int, op: Op): Job
    requires op.Create?
  {
    Job(id, op.name, op.schedule, op.target, op.payload, op.active, op.now, op.now, None, None, None, None)
  }

  /** Duplicate before limit; both before the insert. The limit may be any integer. */
  function CreateVerdict(limit: int, t: Tables, name: string): Option<Error> {
    if IndexOf(t.jobs, name) >= 0 then Some(Duplicate) else if |t.jobs| >= limit then Some(JobLimit) else None
  }

  function Apply(limit: int, t: Tables, op: Op): Tables {
    match op
    case Create(name, _, _, _, _, _) =>
      if CreateVerdict(limit, t, name).Some? then t
      else t.(jobs := t.jobs + [NewJob(t.lastJobId + 1, op)], lastJobId := t.lastJobId + 1)
    case Update(name, patch, now) =>
      var i := IndexOf(t.jobs, name);
      if i < 0 then t else t.(jobs := t.jobs[i := Merge(t.jobs[i], patch, now)])
    case Delete(name) =>
      var i := IndexOf(t.jobs, name);
      if i < 0 then t
      else t.(runs := WithoutRunsOf(t.runs, t.jobs[i].id), jobs := t.jobs[..i] + t.jobs[i + 1..])
    case Record(j, rep, now) =>
      if Live(t.jobs, j) then Inserted(t, Run(t.lastRunId + 1, j, rep), now) else t
  }

  /** Insert the run, prune its job's runs to the newest, stamp its job. */
  function Inserted(t: Tables, run: Run, now: string): Tables {
    var all := t.runs + [run];
    Tables(SetLast(t.jobs, run.jobId, run.report, now), Prune(all, all, run.jobId, RUNS_KEEP_PER_JOB), t.lastJobId, run.id)
  }

  /** The tables after a whole history of operations. */
  function Replay(limit: int, ops: seq<Op>): Tables {
    if ops == [] then Empty else Apply(limit, Replay(limit, ops[..|ops| - 1]), ops[|ops| - 1])
  }

  // ---------------------------------------------------------------- what the history promises

  /** Every run recorded for `j` while it was live, oldest first, however long ago. */
  function Recorded(limit: int, ops: seq<Op>, j: int): seq<Run> {
    if ops == [] then []
    else
      var before, op := Replay(limit, ops[..|ops| - 1]), ops[|ops| - 1];
      Recorded(limit, ops[..|ops| - 1], j) +
      if op.Record? && op.jobId == j && Live(before.jobs, j) then [Run(before.lastRunId + 1, j, op.report)] else []
  }

  /** The ids handed out so far, in order. */
  function CreatedIds(limit: int, ops: seq<Op>): seq<int> {
    if ops == [] then []
    else
      var before, op := Replay(limit, ops[..|ops| - 1]), ops[|ops| - 1];
      CreatedIds(limit, ops[..|ops| - 1]) +
      if op.Create? && CreateVerdict(limit, before, op.name).None? then [before.lastJobId + 1] else []
  }

  function Newest<T>(xs: seq<T>, n: nat): seq<T> { if |xs| <= n then xs else xs[|xs| - n..] }

  /** The `last_*` columns are those of the newest recorded run, and empty before any. */
  predicate LastIs(job: Job, runs: seq<Run>) {
    if runs == [] then job.lastRunAt.None? && job.lastStatus.None? && job.lastError.None? && job.lastDuration.None?
    else
      var rep := runs[|runs| - 1].report;
      job.lastRunAt == Some(rep.firedAt) && job.lastStatus == Some(rep.status) && job.lastError == rep.error && job.lastDuration == rep.duration
  }

  predicate DistinctNames(jobs: seq<Job>) { forall i, k :: 0 <= i < k < |jobs| ==> jobs[i].name != jobs[k].name }

  predicate Increasing(ids: seq<int>) { forall i, k :: 0 <= i < k < |ids| ==> ids[i] < ids[k] }

  predicate IncreasingIds(jobs: seq<Job>) { forall i, k :: 0 <= i < k < |jobs| ==> jobs[i].id < jobs[k].id }

  predicate SortedRuns(runs: seq<Run>) { forall i, k :: 0 <= i < k < |runs| ==> runs[i].id < runs[k].id }

  predicate JobsOk(limit: int, t: Tables) {
    && DistinctNames(t.jobs) && IncreasingIds(t.jobs)
    && (forall i :: 0 <= i < |t.jobs| ==> t.jobs[i].id <= t.lastJobId)
    && (t.jobs == [] || |t.jobs| <= limit)
  }

  /** Runs are in id order and none lacks its job. */
  predicate RowsOk(t: Tables) {
    SortedRuns(t.runs) && forall i :: 0 <= i < |t.runs| ==> t.runs[i].id <= t.lastRunId && Live(t.jobs, t.runs[i].jobId)
  }

  /** `rec(j)` is what was ever recorded for `j`. */
  ghost predicate AllKept(t: Tables, rec: int -> seq<Run>) {
    forall i :: 0 <= i < |t.jobs| ==> KeptFor(t, t.jobs[i], rec(t.jobs[i].id))
  }

  ghost predicate NoneAhead(t: Tables, rec: int -> seq<Run>) { forall j {:trigger rec(j)} :: j > t.lastJobId ==> rec(j) == [] }

  predicate KeptFor(t: Tables, job: Job, rec: seq<Run>) {
    RunsOf(t.runs, job.id) == Newest(rec, RUNS_KEEP_PER_JOB) && LastIs(job, rec)
  }
}
