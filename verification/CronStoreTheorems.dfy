/** Retention and referential integrity over every history of the cron tables. */
module CronStoreTheorems {
  import opened CronStore

  // ---------------------------------------------------------------- lists of runs

  lemma {:induction false} RunsOfAppend(a: seq<Run>, b: seq<Run>, j: int)
    ensures RunsOf(a + b, j) == RunsOf(a, j) + RunsOf(b, j)
  {
    if a == [] {
      assert a + b == b;
    } else {
      assert (a + b)[1..] == a[1..] + b;
      RunsOfAppend(a[1..], b, j);
    }
  }

  lemma {:induction false} NewerAppend(a: seq<Run>, b: seq<Run>, j: int, id: int)
    ensures NewerThan(a + b, j, id) == NewerThan(a, j, id) + NewerThan(b, j, id)
  {
    if a == [] {
      assert a + b == b;
    } else {
      assert (a + b)[1..] == a[1..] + b;
      NewerAppend(a[1..], b, j, id);
    }
  }

  lemma {:induction false} NoneNewer(a: seq<Run>, j: int, id: int)
    requires forall i :: 0 <= i < |a| ==> a[i].id <= id
    ensures NewerThan(a, j, id) == 0
  {
    if a != [] {
      NoneNewer(a[1..], j, id);
    }
  }

  lemma {:induction false} AllNewer(b: seq<Run>, j: int, id: int)
    requires forall i :: 0 <= i < |b| ==> b[i].id > id
    ensures NewerThan(b, j, id) == |RunsOf(b, j)|
  {
    if b != [] {
      AllNewer(b[1..], j, id);
    }
  }

  /** In id order, the rows newer than one row are those behind it. */
  lemma NewerAreBehind(all: seq<Run>, n: nat, j: int)
    requires SortedRuns(all) && n < |all|
    ensures NewerThan(all, j, all[n].id) == |RunsOf(all[n + 1..], j)|
  {
    assert all == all[..n + 1] + all[n + 1..];
    NewerAppend(all[..n + 1], all[n + 1..], j, all[n].id);
    NoneNewer(all[..n + 1], j, all[n].id);
    AllNewer(all[n + 1..], j, all[n].id);
  }

  /** The prune statement keeps exactly the newest `keep` rows of its job. */
  lemma {:induction false} PruneKeepsNewest(all: seq<Run>, n: nat, j: int, keep: nat)
    requires SortedRuns(all) && n <= |all|
    ensures RunsOf(Prune(all[n..], all, j, keep), j) == Newest(RunsOf(all[n..], j), keep)
    decreases |all| - n
  {
    if n < |all| {
      assert all[n..][1..] == all[n + 1..];
      NewerAreBehind(all, n, j);
      PruneKeepsNewest(all, n + 1, j, keep);
      if all[n].jobId == j {
        NewestCons(all[n], RunsOf(all[n + 1..], j), keep);
      }
      var rest := Prune(all[n + 1..], all, j, keep);
      assert ([all[n]] + rest)[1..] == rest;
    }
  }

  lemma NewestCons<T>(x: T, xs: seq<T>, n: nat)
    ensures Newest([x] + xs, n) == if |xs| >= n then Newest(xs, n) else [x] + xs
  {
  }

  /** Dropping all but the newest as they come is dropping all but the newest at the end. */
  lemma NewestSnoc<T>(xs: seq<T>, x: T, n: nat)
    requires n > 0
    ensures Newest(Newest(xs, n) + [x], n) == Newest(xs + [x], n)
  {
  }

  lemma {:induction false} PruneOthers(runs: seq<Run>, all: seq<Run>, j: int, keep: nat, k: int)
    requires k != j
    ensures RunsOf(Prune(runs, all, j, keep), k) == RunsOf(runs, k)
  {
    if runs != [] {
      PruneOthers(runs[1..], all, j, keep, k);
      var rest := Prune(runs[1..], all, j, keep);
      assert ([runs[0]] + rest)[1..] == rest;
    }
  }

  /** `part` keeps some rows of `runs`, in order. */
  ghost predicate Within(part: seq<Run>, runs: seq<Run>) {
    SortedRuns(part) && forall i :: 0 <= i < |part| ==> part[i] in runs
  }

  lemma WithinCons(part: seq<Run>, runs: seq<Run>)
    requires runs != [] && SortedRuns(runs) && Within(part, runs[1..])
    ensures Within(part, runs) && Within([runs[0]] + part, runs)
  {
    forall i | 0 <= i < |part|
      ensures part[i].id > runs[0].id && part[i] in runs
    {
      var k :| 0 <= k < |runs[1..]| && runs[1..][k] == part[i];
    }
  }

  lemma {:induction false} PruneWithin(runs: seq<Run>, all: seq<Run>, j: int, keep: nat)
    requires SortedRuns(runs)
    ensures Within(Prune(runs, all, j, keep), runs)
  {
    if runs != [] {
      PruneWithin(runs[1..], all, j, keep);
      WithinCons(Prune(runs[1..], all, j, keep), runs);
    }
  }

  lemma {:induction false} WithoutWithin(runs: seq<Run>, j: int)
    requires SortedRuns(runs)
    ensures Within(WithoutRunsOf(runs, j), runs)
    ensures forall i :: 0 <= i < |WithoutRunsOf(runs, j)| ==> WithoutRunsOf(runs, j)[i].jobId != j
  {
    if runs != [] {
      WithoutWithin(runs[1..], j);
      WithinCons(WithoutRunsOf(runs[1..], j), runs);
    }
  }

  lemma {:induction false} WithoutOthers(runs: seq<Run>, j: int, k: int)
    requires k != j
    ensures RunsOf(WithoutRunsOf(runs, j), k) == RunsOf(runs, k)
  {
    if runs != [] {
      WithoutOthers(runs[1..], j, k);
      var rest := WithoutRunsOf(runs[1..], j);
      assert ([runs[0]] + rest)[1..] == rest;
    }
  }

  lemma {:induction false} NoRunsOf(runs: seq<Run>, j: int)
    requires forall i :: 0 <= i < |runs| ==> runs[i].jobId != j
    ensures RunsOf(runs, j) == []
  {
    if runs != [] {
      NoRunsOf(runs[1..], j);
    }
  }

  // ---------------------------------------------------------------- one operation

  lemma SameKeys(limit: int, t: Tables, t': Tables)
    requires JobsOk(limit, t) && |t'.jobs| == |t.jobs| && t'.lastJobId == t.lastJobId
    requires forall i :: 0 <= i < |t.jobs| ==> t'.jobs[i].id == t.jobs[i].id && t'.jobs[i].name == t.jobs[i].name
    ensures JobsOk(limit, t')
  {
  }

  lemma OneKeyLess(limit: int, t: Tables, t': Tables, n: nat)
    requires JobsOk(limit, t) && n < |t.jobs| && t'.jobs == t.jobs[..n] + t.jobs[n + 1..] && t'.lastJobId == t.lastJobId
    ensures JobsOk(limit, t')
  {
    assert forall i :: 0 <= i < |t'.jobs| ==> t'.jobs[i] == t.jobs[if i < n then i else i + 1];
  }

  lemma OneKeyMore(limit: int, t: Tables, t': Tables, job: Job)
    requires JobsOk(limit, t) && IndexOf(t.jobs, job.name) < 0 && |t.jobs| < limit
    requires t'.jobs == t.jobs + [job] && job.id == t'.lastJobId == t.lastJobId + 1
    ensures JobsOk(limit, t')
  {
  }

  /** Updates and records leave ids and names alone. */
  lemma KeysStay(limit: int, t: Tables, op: Op)
    requires op.Update? || op.Record?
    ensures var t' := Apply(limit, t, op);
            |t'.jobs| == |t.jobs| && t'.lastJobId == t.lastJobId &&
            forall i :: 0 <= i < |t.jobs| ==> t'.jobs[i].id == t.jobs[i].id && t'.jobs[i].name == t.jobs[i].name
  {
  }

  lemma JobsCreated(limit: int, t: Tables, op: Op)
    requires JobsOk(limit, t) && op.Create?
    ensures JobsOk(limit, Apply(limit, t, op))
  {
    if CreateVerdict(limit, t, op.name).None? {
      OneKeyMore(limit, t, Apply(limit, t, op), NewJob(t.lastJobId + 1, op));
    }
  }

  lemma JobsDeleted(limit: int, t: Tables, op: Op)
    requires JobsOk(limit, t) && op.Delete?
    ensures JobsOk(limit, Apply(limit, t, op))
  {
    if IndexOf(t.jobs, op.name) >= 0 {
      OneKeyLess(limit, t, Apply(limit, t, op), IndexOf(t.jobs, op.name));
    }
  }

  lemma JobsStep(limit: int, t: Tables, op: Op)
    requires JobsOk(limit, t)
    ensures JobsOk(limit, Apply(limit, t, op))
  {
    if op.Create? {
      JobsCreated(limit, t, op);
    } else if op.Delete? {
      JobsDeleted(limit, t, op);
    } else {
      KeysStay(limit, t, op);
      SameKeys(limit, t, Apply(limit, t, op));
    }
  }

  ghost predicate RunsOk(t: Tables, rec: int -> seq<Run>) { RowsOk(t) && AllKept(t, rec) && NoneAhead(t, rec) }

  /** What was recorded, one operation later. */
  ghost function RecordedNext(t: Tables, op: Op, rec: int -> seq<Run>): int -> seq<Run> {
    j => rec(j) + if op.Record? && op.jobId == j && Live(t.jobs, j) then [Run(t.lastRunId + 1, j, op.report)] else []
  }

  lemma LiveStays(jobs: seq<Job>, jobs': seq<Job>, id: int)
    requires Live(jobs, id) && |jobs| <= |jobs'| && forall i :: 0 <= i < |jobs| ==> jobs'[i].id == jobs[i].id
    ensures Live(jobs', id)
  {
    var k :| 0 <= k < |jobs| && jobs[k].id == id;
    assert jobs'[k].id == id;
  }

  /** Rows keep their job when no job goes. */
  lemma RowsStay(t: Tables, t': Tables)
    requires RowsOk(t) && t'.runs == t.runs && t'.lastRunId == t.lastRunId
    requires |t.jobs| <= |t'.jobs| && forall i :: 0 <= i < |t.jobs| ==> t'.jobs[i].id == t.jobs[i].id
    ensures RowsOk(t')
  {
    forall i | 0 <= i < |t.runs|
      ensures Live(t'.jobs, t.runs[i].jobId)
    {
      LiveStays(t.jobs, t'.jobs, t.runs[i].jobId);
    }
  }

  lemma CreateStep(limit: int, t: Tables, op: Op, rec: int -> seq<Run>)
    requires JobsOk(limit, t) && RunsOk(t, rec) && op.Create? && CreateVerdict(limit, t, op.name).None?
    ensures RunsOk(Apply(limit, t, op), rec)
  {
    var t' := Apply(limit, t, op);
    RowsStay(t, t');
    NoRunsOf(t.runs, t.lastJobId + 1);
    assert rec(t.lastJobId + 1) == [];
    forall i | 0 <= i < |t'.jobs|
      ensures KeptFor(t', t'.jobs[i], rec(t'.jobs[i].id))
    {
      if i < |t.jobs| {
        assert KeptFor(t, t.jobs[i], rec(t.jobs[i].id));
      }
    }
  }

  lemma UpdateStep(limit: int, t: Tables, op: Op, rec: int -> seq<Run>)
    requires RunsOk(t, rec) && op.Update?
    ensures RunsOk(Apply(limit, t, op), rec)
  {
    var t' := Apply(limit, t, op);
    RowsStay(t, t');
    forall i | 0 <= i < |t'.jobs|
      ensures KeptFor(t', t'.jobs[i], rec(t'.jobs[i].id))
    {
      assert KeptFor(t, t.jobs[i], rec(t.jobs[i].id));
    }
  }

  /** Rows of other jobs keep their job when one job goes with its runs. */
  lemma LiveWithout(t: Tables, t': Tables, n: nat, run: Run)
    requires n < |t.jobs| && t'.jobs == t.jobs[..n] + t.jobs[n + 1..]
    requires Live(t.jobs, run.jobId) && run.jobId != t.jobs[n].id
    ensures Live(t'.jobs, run.jobId)
  {
    var k :| 0 <= k < |t.jobs| && t.jobs[k].id == run.jobId;
    assert t'.jobs[if k < n then k else k - 1].id == run.jobId;
  }

  lemma RowsAfterDelete(t: Tables, t': Tables, n: nat)
    requires n < |t.jobs| && t'.jobs == t.jobs[..n] + t.jobs[n + 1..] && t'.runs == WithoutRunsOf(t.runs, t.jobs[n].id)
    requires t'.lastRunId == t.lastRunId && RowsOk(t)
    ensures RowsOk(t')
  {
    WithoutWithin(t.runs, t.jobs[n].id);
    forall i | 0 <= i < |t'.runs|
      ensures t'.runs[i].id <= t'.lastRunId && Live(t'.jobs, t'.runs[i].jobId)
    {
      var m :| 0 <= m < |t.runs| && t.runs[m] == t'.runs[i];
      LiveWithout(t, t', n, t.runs[m]);
    }
  }

  lemma KeptAfterDelete(limit: int, t: Tables, t': Tables, n: nat, rec: int -> seq<Run>)
    requires JobsOk(limit, t) && AllKept(t, rec) && n < |t.jobs|
    requires t'.jobs == t.jobs[..n] + t.jobs[n + 1..] && t'.runs == WithoutRunsOf(t.runs, t.jobs[n].id)
    ensures AllKept(t', rec)
  {
    forall i | 0 <= i < |t'.jobs|
      ensures KeptFor(t', t'.jobs[i], rec(t'.jobs[i].id))
    {
      var m := if i < n then i else i + 1;
      assert t'.jobs[i] == t.jobs[m] && KeptFor(t, t.jobs[m], rec(t.jobs[m].id));
      assert t.jobs[m].id != t.jobs[n].id;
      WithoutOthers(t.runs, t.jobs[n].id, t.jobs[m].id);
    }
  }

  lemma DeleteStep(limit: int, t: Tables, op: Op, rec: int -> seq<Run>)
    requires JobsOk(limit, t) && RunsOk(t, rec) && op.Delete? && IndexOf(t.jobs, op.name) >= 0
    ensures RunsOk(Apply(limit, t, op), rec)
  {
    var t', n := Apply(limit, t, op), IndexOf(t.jobs, op.name);
    RowsAfterDelete(t, t', n);
    KeptAfterDelete(limit, t, t', n, rec);
  }

  lemma RowsAfterRecord(t: Tables, t': Tables, run: Run)
    requires t'.runs == Prune(t.runs + [run], t.runs + [run], run.jobId, RUNS_KEEP_PER_JOB)
    requires run.id == t'.lastRunId == t.lastRunId + 1 && RowsOk(t) && Live(t.jobs, run.jobId)
    requires |t'.jobs| == |t.jobs| && forall i :: 0 <= i < |t.jobs| ==> t'.jobs[i].id == t.jobs[i].id
    ensures SortedRuns(t.runs + [run]) && RowsOk(t')
  {
    var inserted := t.runs + [run];
    PruneWithin(inserted, inserted, run.jobId, RUNS_KEEP_PER_JOB);
    forall i | 0 <= i < |t'.runs|
      ensures t'.runs[i].id <= t'.lastRunId && Live(t'.jobs, t'.runs[i].jobId)
    {
      var m :| 0 <= m < |inserted| && inserted[m] == t'.runs[i];
      var k :| 0 <= k < |t.jobs| && t.jobs[k].id == inserted[m].jobId;
      assert t'.jobs[k].id == t'.runs[i].jobId;
    }
  }

  ghost predicate RunAdded(t: Tables, t': Tables, op: Op)
    requires op.Record?
  {
    var inserted := t.runs + [Run(t.lastRunId + 1, op.jobId, op.report)];
    SortedRuns(inserted) && t'.runs == Prune(inserted, inserted, op.jobId, RUNS_KEEP_PER_JOB)
  }

  ghost function JobAfter(op: Op, job: Job): Job
    requires op.Record?
  {
    if job.id == op.jobId then Stamped(job, op.report, op.now) else job
  }

  ghost function RecordedAfter(t: Tables, op: Op, job: Job, rec: seq<Run>): seq<Run>
    requires op.Record?
  {
    rec + if job.id == op.jobId then [Run(t.lastRunId + 1, op.jobId, op.report)] else []
  }

  /** Whatever job is kept by the tables before is kept, one run further, by those after. */
  ghost predicate CarriesOver(t: Tables, t': Tables, op: Op)
    requires op.Record?
  {
    forall job, rec {:trigger KeptFor(t, job, rec)} :: KeptFor(t, job, rec) ==> KeptFor(t', JobAfter(op, job), RecordedAfter(t, op, job, rec))
  }

  lemma RecordCarriesOver(t: Tables, t': Tables, op: Op)
    requires op.Record? && RunAdded(t, t', op)
    ensures CarriesOver(t, t', op)
  {
    forall job, rec | KeptFor(t, job, rec)
      ensures KeptFor(t', JobAfter(op, job), RecordedAfter(t, op, job, rec))
    {
      RecordKept(t, t', op, job, rec);
    }
  }

  lemma RecordAllKept(t: Tables, t': Tables, op: Op, rec: int -> seq<Run>)
    requires op.Record? && CarriesOver(t, t', op) && AllKept(t, rec) && t'.jobs == SetLast(t.jobs, op.jobId, op.report, op.now)
    ensures AllKept(t', RecordedNext(t, op, rec))
  {
    forall i | 0 <= i < |t'.jobs|
      ensures KeptFor(t', t'.jobs[i], RecordedNext(t, op, rec)(t'.jobs[i].id))
    {
      var job := t.jobs[i];
      assert Live(t.jobs, job.id) && KeptFor(t, job, rec(job.id));
      assert t'.jobs[i] == JobAfter(op, job) && RecordedNext(t, op, rec)(job.id) == RecordedAfter(t, op, job, rec(job.id));
    }
  }

  lemma NoneAheadRecord(limit: int, t: Tables, op: Op, rec: int -> seq<Run>)
    requires JobsOk(limit, t) && NoneAhead(t, rec) && op.Record? && Live(t.jobs, op.jobId)
    ensures NoneAhead(Apply(limit, t, op), RecordedNext(t, op, rec))
  {
    assert op.jobId <= t.lastJobId;
  }

  lemma RecordStep(limit: int, t: Tables, op: Op, rec: int -> seq<Run>)
    requires JobsOk(limit, t) && RunsOk(t, rec) && op.Record? && Live(t.jobs, op.jobId)
    ensures RunsOk(Apply(limit, t, op), RecordedNext(t, op, rec))
  {
    KeysStay(limit, t, op);
    RowsAfterRecord(t, Apply(limit, t, op), Run(t.lastRunId + 1, op.jobId, op.report));
    RecordCarriesOver(t, Apply(limit, t, op), op);
    RecordAllKept(t, Apply(limit, t, op), op, rec);
    NoneAheadRecord(limit, t, op, rec);
  }

  lemma RecordKept(t: Tables, t': Tables, op: Op, job: Job, rec: seq<Run>)
    requires op.Record? && SortedRuns(t.runs + [Run(t.lastRunId + 1, op.jobId, op.report)]) && KeptFor(t, job, rec)
    requires var inserted := t.runs + [Run(t.lastRunId + 1, op.jobId, op.report)];
             t'.runs == Prune(inserted, inserted, op.jobId, RUNS_KEEP_PER_JOB)
    ensures var run := Run(t.lastRunId + 1, op.jobId, op.report);
            if job.id == op.jobId then KeptFor(t', Stamped(job, op.report, op.now), rec + [run])
            else KeptFor(t', job, rec + [])
  {
    var j, run := op.jobId, Run(t.lastRunId + 1, op.jobId, op.report);
    var inserted := t.runs + [run];
    RunsOfAppend(t.runs, [run], job.id);
    assert RunsOf([run], job.id) == if job.id == j then [run] else [] by { assert [run][1..] == []; }
    if job.id == j {
      assert inserted[0..] == inserted;
      PruneKeepsNewest(inserted, 0, j, RUNS_KEEP_PER_JOB);
      NewestSnoc(rec, run, RUNS_KEEP_PER_JOB);
    } else {
      PruneOthers(inserted, inserted, j, RUNS_KEEP_PER_JOB, job.id);
      assert rec + [] == rec && RunsOf(t.runs, job.id) + [] == RunsOf(t.runs, job.id);
    }
  }

  lemma SameRecorded(t: Tables, a: int -> seq<Run>, b: int -> seq<Run>)
    requires RunsOk(t, a) && forall j {:trigger a(j)} {:trigger b(j)} :: a(j) == b(j)
    ensures RunsOk(t, b)
  {
    forall i | 0 <= i < |t.jobs|
      ensures KeptFor(t, t.jobs[i], b(t.jobs[i].id))
    {
      assert KeptFor(t, t.jobs[i], a(t.jobs[i].id));
    }
  }

  lemma RunsStep(limit: int, t: Tables, op: Op, rec: int -> seq<Run>)
    requires JobsOk(limit, t) && RunsOk(t, rec)
    ensures RunsOk(Apply(limit, t, op), RecordedNext(t, op, rec))
  {
    if op.Record? && Live(t.jobs, op.jobId) {
      RecordStep(limit, t, op, rec);
    } else {
      if op.Create? && CreateVerdict(limit, t, op.name).None? {
        CreateStep(limit, t, op, rec);
      } else if op.Update? {
        UpdateStep(limit, t, op, rec);
      } else if op.Delete? && IndexOf(t.jobs, op.name) >= 0 {
        DeleteStep(limit, t, op, rec);
      }
      forall j: int
        ensures rec(j) == RecordedNext(t, op, rec)(j)
      {
        assert rec(j) + [] == rec(j);
      }
      SameRecorded(Apply(limit, t, op), rec, RecordedNext(t, op, rec));
    }
  }

  // ---------------------------------------------------------------- every history

  ghost function History(limit: int, ops: seq<Op>): int -> seq<Run> { j => Recorded(limit, ops, j) }

  lemma HistoryStep(limit: int, ops: seq<Op>, j: int)
    requires ops != []
    ensures RecordedNext(Replay(limit, ops[..|ops| - 1]), ops[|ops| - 1], History(limit, ops[..|ops| - 1]))(j) == History(limit, ops)(j)
  {
  }

  lemma StoreStep(limit: int, ops: seq<Op>)
    requires ops != [] && JobsOk(limit, Replay(limit, ops[..|ops| - 1]))
    requires RunsOk(Replay(limit, ops[..|ops| - 1]), History(limit, ops[..|ops| - 1]))
    ensures RunsOk(Replay(limit, ops), History(limit, ops))
  {
    var t, op, rec := Replay(limit, ops[..|ops| - 1]), ops[|ops| - 1], History(limit, ops[..|ops| - 1]);
    RunsStep(limit, t, op, rec);
    forall j: int
      ensures RecordedNext(t, op, rec)(j) == History(limit, ops)(j)
    {
      HistoryStep(limit, ops, j);
    }
    SameRecorded(Apply(limit, t, op), RecordedNext(t, op, rec), History(limit, ops));
  }

  /** Over every sequence of creates, updates, deletes and records, records for deleted jobs
      included: names are unique and ids too, the table stays within the limit, no run lacks
      its job, every live job keeps exactly the newest min(20, n) of the n runs ever recorded
      for it, and its `last_*` columns are those of the newest. */
  lemma {:induction false} StoreTheorem(limit: int, ops: seq<Op>)
    ensures JobsOk(limit, Replay(limit, ops))
    ensures RunsOk(Replay(limit, ops), History(limit, ops))
    decreases |ops|
  {
    if ops != [] {
      StoreTheorem(limit, ops[..|ops| - 1]);
      JobsStep(limit, Replay(limit, ops[..|ops| - 1]), ops[|ops| - 1]);
      StoreStep(limit, ops);
    }
  }

  /** Ids are handed out in increasing order, so none is ever given twice, not even after its
      row was deleted; every live job carries one of them. */
  lemma {:induction false} IdsNeverReused(limit: int, ops: seq<Op>)
    ensures Increasing(CreatedIds(limit, ops))
    ensures forall id :: id in CreatedIds(limit, ops) ==> id <= Replay(limit, ops).lastJobId
    ensures forall id :: Live(Replay(limit, ops).jobs, id) ==> id in CreatedIds(limit, ops)
    decreases |ops|
  {
    if ops != [] {
      var before, op := ops[..|ops| - 1], ops[|ops| - 1];
      IdsNeverReused(limit, before);
      LiveIdsFrom(limit, Replay(limit, before), op);
      IncreasingSnoc(CreatedIds(limit, before), Replay(limit, before).lastJobId + 1);
    }
  }

  lemma IncreasingSnoc(ids: seq<int>, x: int)
    requires Increasing(ids) && forall id :: id in ids ==> id < x
    ensures Increasing(ids + [x])
  {
    assert forall i :: 0 <= i < |ids| ==> ids[i] in ids;
  }

  lemma LiveAfterDelete(jobs: seq<Job>, n: nat, id: int)
    requires n < |jobs| && Live(jobs[..n] + jobs[n + 1..], id)
    ensures Live(jobs, id)
  {
    var left := jobs[..n] + jobs[n + 1..];
    var i :| 0 <= i < |left| && left[i].id == id;
    assert jobs[if i < n then i else i + 1].id == id;
  }

  lemma LiveAfterCreate(jobs: seq<Job>, job: Job, id: int)
    requires Live(jobs + [job], id)
    ensures Live(jobs, id) || id == job.id
  {
    var i :| 0 <= i < |jobs + [job]| && (jobs + [job])[i].id == id;
    assert i < |jobs| ==> jobs[i].id == id;
  }

  lemma LiveSameIds(jobs: seq<Job>, jobs': seq<Job>, id: int)
    requires |jobs'| == |jobs| && (forall i :: 0 <= i < |jobs| ==> jobs'[i].id == jobs[i].id) && Live(jobs', id)
    ensures Live(jobs, id)
  {
    var i :| 0 <= i < |jobs'| && jobs'[i].id == id;
    assert jobs[i].id == id;
  }

  /** The only id an operation can add is a fresh one. */
  lemma LiveIdsFrom(limit: int, t: Tables, op: Op)
    ensures var t', adds := Apply(limit, t, op), op.Create? && CreateVerdict(limit, t, op.name).None?;
            t'.lastJobId == (if adds then t.lastJobId + 1 else t.lastJobId) &&
            forall id :: Live(t'.jobs, id) ==> Live(t.jobs, id) || (adds && id == t.lastJobId + 1)
  {
    var t' := Apply(limit, t, op);
    forall id | Live(t'.jobs, id)
      ensures Live(t.jobs, id) || (op.Create? && CreateVerdict(limit, t, op.name).None? && id == t.lastJobId + 1)
    {
      if op.Delete? {
        if IndexOf(t.jobs, op.name) >= 0 {
          LiveAfterDelete(t.jobs, IndexOf(t.jobs, op.name), id);
        }
      } else if op.Create? {
        if CreateVerdict(limit, t, op.name).None? {
          LiveAfterCreate(t.jobs, NewJob(t.lastJobId + 1, op), id);
        }
      } else {
        KeysStay(limit, t, op);
        LiveSameIds(t.jobs, t'.jobs, id);
      }
    }
  }

  /** `op` is about this row. */
  predicate About(op: Op, job: Job) {
    match op
    case Create(name, _, _, _, _, _) => false
    case Update(name, _, _) => job.name == name
    case Delete(name) => job.name == name
    case Record(j, _, _) => job.id == j
  }

  lemma OthersAfterRecord(limit: int, t: Tables, op: Op, job: Job)
    requires op.Record? && job.id != op.jobId && Live(t.jobs, op.jobId)
    ensures RunsOf(Apply(limit, t, op).runs, job.id) == RunsOf(t.runs, job.id)
  {
    var run := Run(t.lastRunId + 1, op.jobId, op.report);
    RunsOfAppend(t.runs, [run], job.id);
    assert [run][1..] == [] && RunsOf(t.runs, job.id) + [] == RunsOf(t.runs, job.id);
    PruneOthers(t.runs + [run], t.runs + [run], op.jobId, RUNS_KEEP_PER_JOB, job.id);
  }

  lemma OthersAfterDelete(limit: int, t: Tables, op: Op, k: nat)
    requires JobsOk(limit, t) && k < |t.jobs| && op.Delete? && t.jobs[k].name != op.name && IndexOf(t.jobs, op.name) >= 0
    ensures t.jobs[k] in Apply(limit, t, op).jobs
    ensures RunsOf(Apply(limit, t, op).runs, t.jobs[k].id) == RunsOf(t.runs, t.jobs[k].id)
  {
    var n := IndexOf(t.jobs, op.name);
    var left := t.jobs[..n] + t.jobs[n + 1..];
    assert left[if k < n then k else k - 1] == t.jobs[k];
    assert t.jobs[k].id != t.jobs[n].id;
    WithoutOthers(t.runs, t.jobs[n].id, t.jobs[k].id);
  }

  /** Whatever an operation does, the rows and runs of all other jobs stay as they were. */
  lemma OthersUntouched(limit: int, t: Tables, op: Op, k: nat)
    requires JobsOk(limit, t) && k < |t.jobs| && !About(op, t.jobs[k])
    ensures t.jobs[k] in Apply(limit, t, op).jobs
    ensures RunsOf(Apply(limit, t, op).runs, t.jobs[k].id) == RunsOf(t.runs, t.jobs[k].id)
  {
    if op.Delete? && IndexOf(t.jobs, op.name) >= 0 {
      OthersAfterDelete(limit, t, op, k);
    } else {
      assert Apply(limit, t, op).jobs[k] == t.jobs[k];
      if op.Record? && Live(t.jobs, op.jobId) {
        OthersAfterRecord(limit, t, op, t.jobs[k]);
      }
    }
  }

  /** `q` on top of `p`: what `q` mentions wins. */
  function Over(p: Patch, q: Patch): Patch {
    Patch(if q.schedule.Some? then q.schedule else p.schedule,
          if q.payload.Some? then q.payload else p.payload,
          if q.active.Some? then q.active else p.active)
  }

  /** Updates merge one-sidedly: two in a row are one with the later values, an empty one only
      moves the time stamp, and identity, target, creation and run columns never change. */
  lemma UpdatesMerge(job: Job, p: Patch, q: Patch, before: string, now: string)
    ensures Merge(Merge(job, p, before), q, now) == Merge(job, Over(p, q), now)
    ensures Merge(job, Patch(None, None, None), now) == job.(updatedAt := now)
    ensures Merge(job, p, now).(schedule := job.schedule, payload := job.payload, active := job.active, updatedAt := job.updatedAt) == job
    ensures p.schedule.Some? ==> Merge(job, p, now).schedule == p.schedule.value
    ensures p.payload.Some? ==> Merge(job, p, now).payload == p.payload.value
    ensures p.active.Some? ==> Merge(job, p, now).active == p.active.value
  {
  }
}
