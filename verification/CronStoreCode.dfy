/** The writer functions on the two tables, statement by statement. */
module CronStoreCode {
  import opened CronStore
  import opened CronStoreTheorems

  /** `DELETE FROM _system_cron_runs WHERE job_id = j`, row by row. */
  method DropRunsOf(rows: seq<Run>, j: int) returns (left: seq<Run>)
    requires SortedRuns(rows)
    ensures left == WithoutRunsOf(rows, j) && Within(left, rows)
    ensures RunsOf(left, j) == [] && forall k :: k != j ==> RunsOf(left, k) == RunsOf(rows, k)
  {
    left := [];
    assert rows[0..] == rows;
    for i := 0 to |rows|
      invariant left + WithoutRunsOf(rows[i..], j) == WithoutRunsOf(rows, j)
    {
      WithoutNext(rows, i, j, left);
      if rows[i].jobId != j {
        left := left + [rows[i]];
      }
    }
    assert rows[|rows|..] == [];
    DeletedRuns(rows, j);
  }

  /** `DELETE .. WHERE job_id = j AND id NOT IN (newest keep)`: from the newest row backwards,
      the first `keep` rows of the job stay. */
  method KeepNewest(rows: seq<Run>, j: int, keep: nat) returns (left: seq<Run>)
    requires SortedRuns(rows)
    ensures left == Prune(rows, rows, j, keep) && Within(left, rows)
    ensures RunsOf(left, j) == Newest(RunsOf(rows, j), keep) && forall k :: k != j ==> RunsOf(left, k) == RunsOf(rows, k)
  {
    left := [];
    var kept: nat, i: nat := 0, |rows|;
    while i > 0
      invariant i <= |rows| && left == Prune(rows[i..], rows, j, keep)
      invariant kept == AtMost(|RunsOf(rows[i..], j)|, keep)
    {
      i := i - 1;
      NewerAreBehind(rows, i, j);
      PruneNext(rows, i, j, keep);
      if rows[i].jobId != j {
        left := [rows[i]] + left;
      } else if kept < keep {
        left, kept := [rows[i]] + left, kept + 1;
      }
    }
    PrunedRuns(rows, j, keep);
    forall k | k != j
      ensures RunsOf(Prune(rows, rows, j, keep), k) == RunsOf(rows, k)
    {
      PruneOthers(rows, rows, j, keep, k);
    }
  }

  function AtMost(n: nat, limit: nat): nat { if n < limit then n else limit }

  ghost predicate Below(runs: seq<Run>, id: int) { forall i :: 0 <= i < |runs| ==> runs[i].id <= id }

  lemma WithinBelow(part: seq<Run>, runs: seq<Run>, id: int)
    requires Within(part, runs) && Below(runs, id)
    ensures Below(part, id)
  {
    forall i | 0 <= i < |part|
      ensures part[i].id <= id
    {
      assert part[i] in runs;
    }
  }

  method Appended(rows: seq<Run>, run: Run) returns (all: seq<Run>)
    requires SortedRuns(rows) && Below(rows, run.id - 1)
    ensures all == rows + [run] && SortedRuns(all) && Below(all, run.id) && RunsOf(all, run.jobId) == RunsOf(rows, run.jobId) + [run]
  {
    all := rows + [run];
    RunsOfAppend(rows, [run], run.jobId);
    OneRun(run);
  }

  lemma OthersAppended(rows: seq<Run>, run: Run)
    ensures forall k :: k != run.jobId ==> RunsOf(rows + [run], k) == RunsOf(rows, k)
  {
    forall k | k != run.jobId
      ensures RunsOf(rows + [run], k) == RunsOf(rows, k)
    {
      RunsOfAppend(rows, [run], k);
      assert [run][1..] == [];
    }
  }

  /** The insert and the prune of `record_run`. */
  method InsertAndPrune(rows: seq<Run>, run: Run) returns (left: seq<Run>)
    requires SortedRuns(rows) && Below(rows, run.id - 1)
    ensures left == Prune(rows + [run], rows + [run], run.jobId, RUNS_KEEP_PER_JOB)
    ensures SortedRuns(left) && Below(left, run.id)
    ensures RunsOf(left, run.jobId) == Newest(RunsOf(rows, run.jobId) + [run], RUNS_KEEP_PER_JOB)
    ensures forall k :: k != run.jobId ==> RunsOf(left, k) == RunsOf(rows, k)
  {
    var all := Appended(rows, run);
    OthersAppended(rows, run);
    left := KeepNewest(all, run.jobId, RUNS_KEEP_PER_JOB);
    WithinBelow(left, all, run.id);
  }

  /** `UPDATE _system_cron_jobs SET last_* .. WHERE id = j`, row by row. */
  method StampLast(jobs: seq<Job>, j: int, rep: Report, now: string) returns (r: seq<Job>)
    ensures r == SetLast(jobs, j, rep, now)
  {
    r := jobs;
    for i := 0 to |jobs|
      invariant |r| == |jobs|
      invariant forall k :: 0 <= k < |jobs| ==> r[k] == if k < i && jobs[k].id == j then Stamped(jobs[k], rep, now) else jobs[k]
    {
      if r[i].id == j {
        r := r[i := r[i].(lastRunAt := Some(rep.firedAt), lastStatus := Some(rep.status), lastError := rep.error,
                          lastDuration := rep.duration, updatedAt := now)];
      }
    }
  }

  /** The one-sided merge, column by column: those the patch names take its values, the rest stay,
      and the time stamp moves. */
  predicate Patched(was: Job, job: Job, patch: Patch, now: string) {
    && job.schedule == (if patch.schedule.Some? then patch.schedule.value else was.schedule)
    && job.payload == (if patch.payload.Some? then patch.payload.value else was.payload)
    && job.active == (if patch.active.Some? then patch.active.value else was.active)
    && job.updatedAt == now && job.id == was.id && job.name == was.name && job.target == was.target && job.createdAt == was.createdAt
    && job.lastRunAt == was.lastRunAt && job.lastStatus == was.lastStatus && job.lastError == was.lastError && job.lastDuration == was.lastDuration
  }

  class CronTables {
    var jobs: seq<Job>
    var runs: seq<Run>
    var lastJobId: int
    var lastRunId: int

    ghost function View(): Tables
      reads this
    {
      Tables(jobs, runs, lastJobId, lastRunId)
    }

    /** AUTOINCREMENT keeps the runs in id order, below the counter. */
    ghost predicate Valid()
      reads this
    {
      SortedRuns(runs) && Below(runs, lastRunId)
    }

    constructor ()
      ensures Valid() && View() == Empty
    {
      jobs, runs, lastJobId, lastRunId := [], [], 0, 0;
    }

    /** The writer closure of `ops::create_job`: duplicate, limit, insert, read back. A taken name is
        refused first, a full table second, and a refusal changes nothing; otherwise one row comes
        last, with the next id, the given columns and no run yet. */
    method CreateJob(limit: int, name: string, schedule: string, target: Target, payload: Option<string>, active: bool, now: string)
      returns (r: Result<Job>)
      requires Valid()
      modifies this
      ensures Valid() && View() == Apply(limit, old(View()), Create(name, schedule, target, payload, active, now))
      ensures r == Err(Duplicate) <==> exists i :: 0 <= i < |old(jobs)| && old(jobs)[i].name == name
      ensures r == Err(JobLimit) <==> |old(jobs)| >= limit && forall i :: 0 <= i < |old(jobs)| ==> old(jobs)[i].name != name
      ensures r.Err? ==> (r.error.Duplicate? || r.error.JobLimit?) && jobs == old(jobs) && lastJobId == old(lastJobId)
      ensures r.Ok? ==> jobs == old(jobs) + [r.value] && lastJobId == old(lastJobId) + 1 &&
                        r.value == Job(old(lastJobId) + 1, name, schedule, target, payload, active, now, now, None, None, None, None)
      ensures runs == old(runs) && lastRunId == old(lastRunId)
    {
      if IndexOf(jobs, name) >= 0 {
        return Err(Duplicate);
      }
      if |jobs| >= limit {
        return Err(JobLimit);
      }
      lastJobId := lastJobId + 1;
      var job := Job(lastJobId, name, schedule, target, payload, active, now, now, None, None, None, None);
      jobs := jobs + [job];
      r := Ok(job);
    }

    method UpdateJob(name: string, patch: Patch, now: string) returns (r: Option<Job>)
      modifies this`jobs
      ensures old(Valid()) ==> Valid()
      ensures forall limit :: View() == Apply(limit, old(View()), Update(name, patch, now))
      ensures r.Some? <==> exists i :: 0 <= i < |old(jobs)| && old(jobs)[i].name == name
      ensures r.None? ==> jobs == old(jobs)
      ensures r.Some? ==> exists i :: 0 <= i < |old(jobs)| && old(jobs)[i].name == name && jobs == old(jobs)[i := r.value] &&
                                      Patched(old(jobs)[i], r.value, patch, now)
    {
      var i := IndexOf(jobs, name);
      if i < 0 {
        return None;
      }
      var cur := jobs[i];
      var schedule := match patch.schedule case Some(s) => s case None => cur.schedule;
      var payload := match patch.payload case Some(p) => p case None => cur.payload;
      var active := match patch.active case Some(a) => a case None => cur.active;
      jobs := jobs[i := cur.(schedule := schedule, payload := payload, active := active, updatedAt := now)];
      r := Some(jobs[i]);
    }

    /** The job goes with all its runs; every other job keeps its row and its runs. */
    method DeleteJob(name: string) returns (existed: bool)
      requires Valid()
      modifies this`jobs, this`runs
      ensures Valid() && forall limit :: View() == Apply(limit, old(View()), Delete(name))
      ensures existed <==> exists i :: 0 <= i < |old(jobs)| && old(jobs)[i].name == name
      ensures !existed ==> jobs == old(jobs) && runs == old(runs)
      ensures existed ==> exists i :: 0 <= i < |old(jobs)| && old(jobs)[i].name == name && jobs == old(jobs)[..i] + old(jobs)[i + 1..] &&
                                      RunsOf(runs, old(jobs)[i].id) == [] &&
                                      forall k :: k != old(jobs)[i].id ==> RunsOf(runs, k) == RunsOf(old(runs), k)
    {
      var i := IndexOf(jobs, name);
      if i < 0 {
        return false;
      }
      ghost var before := runs;
      runs := DropRunsOf(runs, jobs[i].id);
      WithinBelow(runs, before, lastRunId);
      jobs := jobs[..i] + jobs[i + 1..];
      return true;
    }

    /** Insert, prune, stamp: a live job ends up with the newest 20 of the runs it had and this
        one, and its row says what this one reported; other jobs keep their rows and runs; nothing
        at all happens when the job is gone. */
    method RecordRun(j: int, rep: Report, now: string)
      requires Valid()
      modifies this
      ensures Valid() && forall limit :: View() == Apply(limit, old(View()), Record(j, rep, now))
      ensures var all := RunsOf(old(runs), j) + [Run(old(lastRunId) + 1, j, rep)];
              (exists i :: 0 <= i < |old(jobs)| && old(jobs)[i].id == j) ==>
                RunsOf(runs, j) == (if |all| <= 20 then all else all[|all| - 20..]) && lastRunId == old(lastRunId) + 1
      ensures forall k :: k != j ==> RunsOf(runs, k) == RunsOf(old(runs), k)
      ensures |jobs| == |old(jobs)| && forall i :: 0 <= i < |jobs| ==>
                jobs[i] == if old(jobs)[i].id != j then old(jobs)[i]
                           else old(jobs)[i].(lastRunAt := Some(rep.firedAt), lastStatus := Some(rep.status), lastError := rep.error,
                                              lastDuration := rep.duration, updatedAt := now)
      ensures (forall i :: 0 <= i < |old(jobs)| ==> old(jobs)[i].id != j) ==> View() == old(View())
    {
      if !(exists i :: 0 <= i < |jobs| && jobs[i].id == j) {
        return;
      }
      ghost var before := View();
      lastRunId := lastRunId + 1;
      var run := Run(lastRunId, j, rep);
      runs := InsertAndPrune(runs, run);
      jobs := StampLast(jobs, j, rep, now);
      assert View() == Inserted(before, run, now);
      RecordIsInsert(before, run, now);
    }
  }

  lemma RecordIsInsert(t: Tables, run: Run, now: string)
    requires Live(t.jobs, run.jobId) && run.id == t.lastRunId + 1
    ensures forall limit :: Apply(limit, t, Record(run.jobId, run.report, now)) == Inserted(t, run, now)
  {
    assert run == Run(run.id, run.jobId, run.report);
  }

  lemma WithoutNext(runs: seq<Run>, i: nat, j: int, left: seq<Run>)
    requires i < |runs|
    ensures left + WithoutRunsOf(runs[i..], j) ==
            (if runs[i].jobId == j then left else left + [runs[i]]) + WithoutRunsOf(runs[i + 1..], j)
  {
    assert runs[i..][0] == runs[i] && runs[i..][1..] == runs[i + 1..];
  }

  lemma DeletedRuns(runs: seq<Run>, j: int)
    requires SortedRuns(runs)
    ensures Within(WithoutRunsOf(runs, j), runs)
    ensures RunsOf(WithoutRunsOf(runs, j), j) == [] && forall k :: k != j ==> RunsOf(WithoutRunsOf(runs, j), k) == RunsOf(runs, k)
  {
    WithoutWithin(runs, j);
    NoRunsOf(WithoutRunsOf(runs, j), j);
    forall k | k != j
      ensures RunsOf(WithoutRunsOf(runs, j), k) == RunsOf(runs, k)
    {
      WithoutOthers(runs, j, k);
    }
  }

  lemma PruneNext(runs: seq<Run>, i: nat, j: int, keep: nat)
    requires i < |runs| && NewerThan(runs, j, runs[i].id) == |RunsOf(runs[i + 1..], j)|
    ensures Prune(runs[i..], runs, j, keep) ==
            (if runs[i].jobId == j && |RunsOf(runs[i + 1..], j)| >= keep then [] else [runs[i]]) + Prune(runs[i + 1..], runs, j, keep)
    ensures |RunsOf(runs[i..], j)| == |RunsOf(runs[i + 1..], j)| + if runs[i].jobId == j then 1 else 0
  {
    assert runs[i..][0] == runs[i] && runs[i..][1..] == runs[i + 1..];
  }

  lemma PrunedRuns(runs: seq<Run>, j: int, keep: nat)
    requires SortedRuns(runs)
    ensures Within(Prune(runs, runs, j, keep), runs) && RunsOf(Prune(runs, runs, j, keep), j) == Newest(RunsOf(runs, j), keep)
    ensures runs[0..] == runs
  {
    assert runs[0..] == runs;
    PruneWithin(runs, runs, j, keep);
    PruneKeepsNewest(runs, 0, j, keep);
  }

  lemma OneRun(r: Run)
    ensures RunsOf([r], r.jobId) == [r]
  {
    assert [r][1..] == [];
  }
}
