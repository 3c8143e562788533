/**
 Cron fires: each due (tenant, job, minute) is spawned at most once whatever the clock does,
 every fire ends in exactly one outcome, and a dispatch runs a row that was fresh, active and
 unchanged in id and schedule when it was re-read behind the gates.
 */
module EngineCron {
  import opened EngineModel
  import opened EngineHoldings
  import opened EngineSafety

  // ---------------------------------------------------------------- at most once

  ghost function Key(f: FireInfo): (Tenant, int, int) { (f.tenant, f.job.id, f.minute) }

  ghost predicate DistinctFires(fs: seq<FireInfo>) {
    forall i, j :: 0 <= i < j < |fs| ==> Key(fs[i]) != Key(fs[j])
  }

  ghost predicate AllAt(fs: seq<FireInfo>, minute: int) { forall i :: 0 <= i < |fs| ==> fs[i].minute == minute }

  /** Nothing was spawned twice, nothing that waits to be spawned was spawned before, and all of
      it lies at or before the last dispatched minute. */
  ghost predicate SpawnOk(loop: MinuteLoop, spawned: seq<Spawn>) {
    && (forall i, j :: 0 <= i < j < |spawned| ==> Key(spawned[i].fire) != Key(spawned[j].fire))
    && (forall i, j :: 0 <= i < |spawned| && 0 <= j < |loop.toSpawn| ==> Key(spawned[i].fire) != Key(loop.toSpawn[j]))
    && DistinctFires(loop.toSpawn)
    && (forall i :: 0 <= i < |spawned| ==> loop.lastFired.Some? && spawned[i].fire.minute <= loop.lastFired.value)
    && (loop.toSpawn != [] ==> loop.lastFired.Some? && AllAt(loop.toSpawn, loop.lastFired.value))
  }

  /** `f` is a fire of one of `jobs`. */
  ghost predicate FireOf(f: FireInfo, t: Tenant, jobs: seq<IndexedJob>, minute: int) {
    f.tenant == t && f.minute == minute && f.job in jobs
  }

  lemma FirstIsNew(jobs: seq<IndexedJob>, job: IndexedJob)
    requires jobs != [] && DistinctIds(jobs) && job in jobs[1..]
    ensures job.id != jobs[0].id
  {
    var k :| 0 <= k < |jobs[1..]| && jobs[1..][k] == job;
    assert jobs[k + 1] == job;
  }

  lemma TailDistinct(jobs: seq<IndexedJob>)
    requires jobs != [] && DistinctIds(jobs)
    ensures DistinctIds(jobs[1..])
  {
    forall i, j | 0 <= i < j < |jobs[1..]|
      ensures jobs[1..][i].id != jobs[1..][j].id
    {
      assert jobs[1..][i] == jobs[i + 1] && jobs[1..][j] == jobs[j + 1];
    }
  }

  lemma DistinctCons(f: FireInfo, fs: seq<FireInfo>)
    requires DistinctFires(fs) && forall i :: 0 <= i < |fs| ==> Key(fs[i]) != Key(f)
    ensures DistinctFires([f] + fs)
  {
  }

  lemma {:induction false} DueAreFires(due: (string, int) -> bool, t: Tenant, jobs: seq<IndexedJob>, minute: int)
    ensures forall i :: 0 <= i < |DueOfTenant(due, t, jobs, minute)| ==> FireOf(DueOfTenant(due, t, jobs, minute)[i], t, jobs, minute)
  {
    if jobs != [] {
      DueAreFires(due, t, jobs[1..], minute);
      var rest := DueOfTenant(due, t, jobs[1..], minute);
      forall i | 0 <= i < |rest|
        ensures FireOf(rest[i], t, jobs, minute)
      {
        assert FireOf(rest[i], t, jobs[1..], minute);
      }
    }
  }

  lemma {:induction false} DueAreDistinct(due: (string, int) -> bool, t: Tenant, jobs: seq<IndexedJob>, minute: int)
    requires DistinctIds(jobs)
    ensures DistinctFires(DueOfTenant(due, t, jobs, minute))
  {
    if jobs != [] {
      var rest := DueOfTenant(due, t, jobs[1..], minute);
      TailDistinct(jobs);
      DueAreDistinct(due, t, jobs[1..], minute);
      DueAreFires(due, t, jobs[1..], minute);
      if due(jobs[0].schedule, minute) {
        forall i | 0 <= i < |rest|
          ensures Key(rest[i]) != Key(FireInfo(t, jobs[0], minute))
        {
          assert FireOf(rest[i], t, jobs[1..], minute);
          FirstIsNew(jobs, rest[i].job);
        }
        DistinctCons(FireInfo(t, jobs[0], minute), rest);
      } else {
        assert [] + rest == rest;
      }
    }
  }

  /** `f` belongs to some tenant of the snapshot. */
  ghost predicate FromSnapshot(f: FireInfo, snapshot: seq<(Tenant, seq<IndexedJob>)>) {
    exists j :: 0 <= j < |snapshot| && snapshot[j].0 == f.tenant
  }

  lemma FromTail(f: FireInfo, snapshot: seq<(Tenant, seq<IndexedJob>)>)
    requires snapshot != [] && FromSnapshot(f, snapshot[1..]) && DistinctSnapshot(snapshot)
    ensures FromSnapshot(f, snapshot) && f.tenant != snapshot[0].0
  {
    var j :| 0 <= j < |snapshot[1..]| && snapshot[1..][j].0 == f.tenant;
    assert snapshot[j + 1].0 == f.tenant;
  }

  lemma SnapshotTail(snapshot: seq<(Tenant, seq<IndexedJob>)>)
    requires snapshot != [] && DistinctSnapshot(snapshot)
    ensures DistinctSnapshot(snapshot[1..])
  {
    var tail := snapshot[1..];
    assert forall i :: 0 <= i < |tail| ==> tail[i] == snapshot[i + 1];
  }

  lemma DistinctConcat(fs: seq<FireInfo>, gs: seq<FireInfo>)
    requires DistinctFires(fs) && DistinctFires(gs)
    requires forall i, j :: 0 <= i < |fs| && 0 <= j < |gs| ==> fs[i].tenant != gs[j].tenant
    ensures DistinctFires(fs + gs)
  {
  }

  lemma {:induction false} CollectDueOk(due: (string, int) -> bool, snapshot: seq<(Tenant, seq<IndexedJob>)>, minute: int)
    requires DistinctSnapshot(snapshot)
    ensures var fs := CollectDue(due, snapshot, minute);
            AllAt(fs, minute) && DistinctFires(fs) && forall i :: 0 <= i < |fs| ==> FromSnapshot(fs[i], snapshot)
  {
    if snapshot != [] {
      var (t, jobs) := snapshot[0];
      var first, rest := DueOfTenant(due, t, jobs, minute), CollectDue(due, snapshot[1..], minute);
      SnapshotTail(snapshot);
      CollectDueOk(due, snapshot[1..], minute);
      DueAreFires(due, t, jobs, minute);
      DueAreDistinct(due, t, jobs, minute);
      forall i | 0 <= i < |first|
        ensures first[i].minute == minute && first[i].tenant == t && FromSnapshot(first[i], snapshot)
      {
        assert FireOf(first[i], t, jobs, minute) && snapshot[0].0 == first[i].tenant;
      }
      forall i | 0 <= i < |rest|
        ensures FromSnapshot(rest[i], snapshot) && rest[i].tenant != t
      {
        FromTail(rest[i], snapshot);
      }
      DistinctConcat(first, rest);
    }
  }

  lemma TickOk(c: Config, loop: MinuteLoop, spawned: seq<Spawn>, now: int, snapshot: seq<(Tenant, seq<IndexedJob>)>)
    requires SpawnOk(loop, spawned) && loop.toSpawn == [] && DistinctSnapshot(snapshot)
    requires ShouldFire(loop.lastFired, NextMinute(now))
    ensures SpawnOk(MinuteLoop(Some(NextMinute(now)), CollectDue(c.due, snapshot, NextMinute(now))), spawned)
  {
    CollectDueOk(c.due, snapshot, NextMinute(now));
  }

  lemma SpawnOne(loop: MinuteLoop, spawned: seq<Spawn>, id: TaskId)
    requires SpawnOk(loop, spawned) && loop.toSpawn != []
    ensures SpawnOk(loop.(toSpawn := loop.toSpawn[1..]), spawned + [Spawn(id, loop.toSpawn[0])])
  {
    var rest := loop.toSpawn[1..];
    assert forall j :: 0 <= j < |rest| ==> rest[j] == loop.toSpawn[j + 1];
  }

  lemma SpawnStep(c: Config, s: State, a: Action)
    requires SpawnOk(s.loop, s.log.spawned) && Enabled(c, s, a)
    ensures SpawnOk(NextLoop(c, s, a), NextLog(c, s, a).spawned)
  {
    if a.Tick? {
      if ShouldFire(s.loop.lastFired, NextMinute(a.now)) { TickOk(c, s.loop, s.log.spawned, a.now, a.snapshot); }
    } else if a.SpawnFire? {
      SpawnOne(s.loop, s.log.spawned, Fire(s.next));
    }
  }

  // ---------------------------------------------------------------- which fires are due

  /** The minute a tick is for: the first full minute after `now`. */
  lemma NextMinuteIs(now: int)
    ensures now < NextMinute(now) <= now + 60_000_000_000 && NextMinute(now) % 60_000_000_000 == 0
  {
  }

  ghost predicate DueAt(due: (string, int) -> bool, jobs: seq<IndexedJob>, minute: int, p: nat) { p < |jobs| && due(jobs[p].schedule, minute) }

  /** `at` lists places in `jobs` in order, and exactly those whose schedule is due. */
  ghost predicate PicksDue(due: (string, int) -> bool, jobs: seq<IndexedJob>, minute: int, at: seq<nat>) {
    && (forall i, j :: 0 <= i < j < |at| ==> at[i] < at[j])
    && (forall p: nat :: DueAt(due, jobs, minute, p) <==> p in at)
  }

  /** The fires are those jobs of the tenant, each once, in order, for that minute. */
  ghost predicate FiresAt(t: Tenant, jobs: seq<IndexedJob>, minute: int, at: seq<nat>, fires: seq<FireInfo>) {
    |fires| == |at| && forall i :: 0 <= i < |at| ==> at[i] < |jobs| && fires[i] == FireInfo(t, jobs[at[i]], minute)
  }

  lemma {:induction false} DueSnoc(due: (string, int) -> bool, t: Tenant, jobs: seq<IndexedJob>, j: IndexedJob, minute: int)
    ensures DueOfTenant(due, t, jobs + [j], minute) ==
            DueOfTenant(due, t, jobs, minute) + if due(j.schedule, minute) then [FireInfo(t, j, minute)] else []
  {
    if jobs == [] {
      assert jobs + [j] == [j] && [j][1..] == [];
    } else {
      assert (jobs + [j])[1..] == jobs[1..] + [j];
      DueSnoc(due, t, jobs[1..], j, minute);
    }
  }

  lemma DueAtSnoc(due: (string, int) -> bool, jobs: seq<IndexedJob>, j: IndexedJob, minute: int, p: nat)
    ensures DueAt(due, jobs + [j], minute, p) <==> DueAt(due, jobs, minute, p) || (p == |jobs| && due(j.schedule, minute))
  {
  }

  lemma PickedSnoc(due: (string, int) -> bool, jobs: seq<IndexedJob>, j: IndexedJob, minute: int, at: seq<nat>)
    requires PicksDue(due, jobs, minute, at)
    ensures PicksDue(due, jobs + [j], minute, if due(j.schedule, minute) then at + [|jobs|] else at)
  {
    var all := if due(j.schedule, minute) then at + [|jobs|] else at;
    forall p: nat
      ensures DueAt(due, jobs + [j], minute, p) <==> p in all
    {
      DueAtSnoc(due, jobs, j, minute, p);
    }
    forall i | 0 <= i < |at|
      ensures at[i] < |jobs|
    {
      assert at[i] in at;
    }
  }

  lemma FiresSame(t: Tenant, jobs: seq<IndexedJob>, j: IndexedJob, minute: int, at: seq<nat>, fires: seq<FireInfo>)
    requires FiresAt(t, jobs, minute, at, fires)
    ensures FiresAt(t, jobs + [j], minute, at, fires)
    ensures FiresAt(t, jobs + [j], minute, at + [|jobs|], fires + [FireInfo(t, j, minute)])
  {
  }

  /** A tenant's due fires are exactly its due jobs. */
  lemma {:induction false} DueArePicked(due: (string, int) -> bool, t: Tenant, jobs: seq<IndexedJob>, minute: int) returns (at: seq<nat>)
    ensures PicksDue(due, jobs, minute, at) && FiresAt(t, jobs, minute, at, DueOfTenant(due, t, jobs, minute))
    decreases |jobs|
  {
    if jobs == [] {
      at := [];
    } else {
      var front, j := jobs[..|jobs| - 1], jobs[|jobs| - 1];
      var rest := DueArePicked(due, t, front, minute);
      assert jobs == front + [j];
      DueSnoc(due, t, front, j, minute);
      PickedSnoc(due, front, j, minute, rest);
      FiresSame(t, front, j, minute, rest, DueOfTenant(due, t, front, minute));
      if due(j.schedule, minute) {
        at := rest + [|front|];
      } else {
        at := rest;
        assert DueOfTenant(due, t, front, minute) + [] == DueOfTenant(due, t, front, minute);
      }
    }
  }

  /** Tenant by tenant in the order of the snapshot, the due jobs of each, each once, in order. */
  ghost predicate ListsDue(due: (string, int) -> bool, snapshot: seq<(Tenant, seq<IndexedJob>)>, minute: int, fires: seq<FireInfo>) {
    exists parts: seq<seq<FireInfo>> :: |parts| == |snapshot| && Flat(parts) == fires &&
      forall i :: 0 <= i < |snapshot| ==> DueFires(due, snapshot[i].0, snapshot[i].1, minute, parts[i])
  }

  ghost predicate DueFires(due: (string, int) -> bool, t: Tenant, jobs: seq<IndexedJob>, minute: int, fires: seq<FireInfo>) {
    exists at :: PicksDue(due, jobs, minute, at) && FiresAt(t, jobs, minute, at, fires)
  }

  function Flat<T>(parts: seq<seq<T>>): seq<T> { if parts == [] then [] else parts[0] + Flat(parts[1..]) }

  lemma {:induction false} DueOfEach(due: (string, int) -> bool, snapshot: seq<(Tenant, seq<IndexedJob>)>, minute: int) returns (parts: seq<seq<FireInfo>>)
    ensures |parts| == |snapshot| && Flat(parts) == CollectDue(due, snapshot, minute)
    ensures forall i :: 0 <= i < |snapshot| ==> DueFires(due, snapshot[i].0, snapshot[i].1, minute, parts[i])
  {
    if snapshot == [] {
      parts := [];
    } else {
      var rest := DueOfEach(due, snapshot[1..], minute);
      var at := DueArePicked(due, snapshot[0].0, snapshot[0].1, minute);
      parts := [DueOfTenant(due, snapshot[0].0, snapshot[0].1, minute)] + rest;
      assert parts[1..] == rest;
      forall i | 0 <= i < |snapshot|
        ensures DueFires(due, snapshot[i].0, snapshot[i].1, minute, parts[i])
      {
        if i > 0 {
          assert snapshot[1..][i - 1] == snapshot[i] && parts[i] == rest[i - 1];
        }
      }
    }
  }

  /** `collect_due` finds the due jobs of the snapshot and nothing else. */
  lemma CollectDueLists(due: (string, int) -> bool, snapshot: seq<(Tenant, seq<IndexedJob>)>, minute: int)
    ensures ListsDue(due, snapshot, minute, CollectDue(due, snapshot, minute))
  {
    var parts := DueOfEach(due, snapshot, minute);
  }

  // ---------------------------------------------------------------- one outcome each

  ghost function LiveFires(ts: Tasks): set<TaskId> { set k | k in ts && k.Fire? }

  ghost function Ids(spawned: seq<Spawn>): set<TaskId> { set i | 0 <= i < |spawned| :: spawned[i].id }

  /** A live fire is the one that was spawned under its id. */
  ghost predicate SpawnedAs(s: State, e: Spawn) {
    e.id.Fire? && e.id.n < s.next && (e.id in s.tasks ==> s.tasks[e.id].CronFire? && s.tasks[e.id].fire == e.fire)
  }

  /** Every spawned fire is live or has an outcome, not both, and there are no others. */
  ghost predicate FiresOk(s: State) {
    && LiveFires(s.tasks) !! s.log.outcomes.Keys && LiveFires(s.tasks) + s.log.outcomes.Keys == Ids(s.log.spawned)
    && (forall i, j :: 0 <= i < j < |s.log.spawned| ==> s.log.spawned[i].id != s.log.spawned[j].id)
    && (forall i :: 0 <= i < |s.log.spawned| ==> SpawnedAs(s, s.log.spawned[i]))
  }

  /** A step ends a fire exactly when it records an outcome for it. */
  lemma EndsStep(c: Config, s: State, a: Action)
    requires Shape(s) && Enabled(c, s, a)
    ensures NextLog(c, s, a).outcomes
         == if a.FireStep? && EndsWith(s.tasks[a.k], a.op).Some? then s.log.outcomes[a.k := EndsWith(s.tasks[a.k], a.op).value]
            else s.log.outcomes
    ensures a.FireStep? ==> a.k.Fire? && (NewTask(c, s, a).None? <==> EndsWith(s.tasks[a.k], a.op).Some?)
  {
    if a.FireStep? { assert ShapeAt(s.tasks, s.next, a.k); }
  }

  lemma LiveFiresStep(c: Config, s: State, a: Action)
    requires Shape(s) && Enabled(c, s, a)
    ensures LiveFires(NextTasks(c, s, a))
         == if a.SpawnFire? then LiveFires(s.tasks) + {Fire(s.next)}
            else if a.FireStep? && EndsWith(s.tasks[a.k], a.op).Some? then LiveFires(s.tasks) - {a.k}
            else LiveFires(s.tasks)
    ensures a.SpawnFire? ==> Fire(s.next) !in s.tasks
    ensures a.FireStep? ==> a.k in LiveFires(s.tasks)
  {
    EndsStep(c, s, a);
    if Mover(s, a).Some? { assert ShapeAt(s.tasks, s.next, Mover(s, a).value); }
  }

  lemma IdsSnoc(spawned: seq<Spawn>, e: Spawn)
    ensures Ids(spawned + [e]) == Ids(spawned) + {e.id}
  {
    var all := spawned + [e];
    assert all[|spawned|] == e && forall i :: 0 <= i < |spawned| ==> all[i] == spawned[i];
    forall k | k in Ids(spawned) + {e.id}
      ensures k in Ids(all)
    {
      if k in Ids(spawned) {
        var i :| 0 <= i < |spawned| && spawned[i].id == k;
        assert all[i].id == k;
      }
    }
  }

  /** A step moves live fires, outcomes and the list of spawned fires together. */
  lemma FireSetsStep(c: Config, s: State, a: Action)
    requires Shape(s) && FiresOk(s) && Enabled(c, s, a)
    ensures var s' := Next(c, s, a);
            LiveFires(s'.tasks) !! s'.log.outcomes.Keys && LiveFires(s'.tasks) + s'.log.outcomes.Keys == Ids(s'.log.spawned)
  {
    EndsStep(c, s, a);
    LiveFiresStep(c, s, a);
    if a.SpawnFire? {
      IdsSnoc(s.log.spawned, Spawn(Fire(s.next), s.loop.toSpawn[0]));
      NotSpawnedYet(s);
    }
  }

  lemma NotSpawnedYet(s: State)
    requires FiresOk(s)
    ensures Fire(s.next) !in Ids(s.log.spawned)
  {
    forall i | 0 <= i < |s.log.spawned|
      ensures s.log.spawned[i].id != Fire(s.next)
    {
      assert SpawnedAs(s, s.log.spawned[i]);
    }
  }

  /** A fire keeps what it was spawned with. */
  lemma SpawnedAsStep(c: Config, s: State, a: Action, e: Spawn)
    requires Shape(s) && Enabled(c, s, a) && SpawnedAs(s, e)
    ensures SpawnedAs(Next(c, s, a), e)
  {
    assert ShapeAt(s.tasks, s.next, e.id);
  }

  lemma FiresStep(c: Config, s: State, a: Action)
    requires Shape(s) && FiresOk(s) && Enabled(c, s, a)
    ensures FiresOk(Next(c, s, a))
  {
    var s' := Next(c, s, a);
    FireSetsStep(c, s, a);
    NotSpawnedYet(s);
    forall i | 0 <= i < |s.log.spawned|
      ensures s'.log.spawned[i] == s.log.spawned[i] && SpawnedAs(s', s.log.spawned[i]) && s.log.spawned[i].id in Ids(s.log.spawned)
    {
      assert SpawnedAs(s, s.log.spawned[i]);
      SpawnedAsStep(c, s, a, s.log.spawned[i]);
    }
  }

  // ---------------------------------------------------------------- rows

  /** The row a fire dispatches or has dispatched. */
  ghost function StageRow(stage: FireStage): Option<JobRow> {
    match stage
    case Calling(row, _) => Some(row)
    case Rpc(row) => Some(row)
    case Recording(row) => Some(row)
    case Unwind(_, Dispatched(row)) => Some(row)
    case _ => None
  }

  /** The row a task carries changes only by the fire-time read, which takes it from the
      database of that moment, behind marker, gate and permit. */
  lemma RowStep(c: Config, s: State, a: Action, k: TaskId)
    requires Shape(s) && Enabled(c, s, a) && k in NextTasks(c, s, a) && NextTasks(c, s, a)[k].CronFire?
    requires StageRow(NextTasks(c, s, a)[k].stage).Some?
    ensures k in s.tasks && s.tasks[k].CronFire? && s.tasks[k].fire == NextTasks(c, s, a)[k].fire
    ensures StageRow(s.tasks[k].stage) == StageRow(NextTasks(c, s, a)[k].stage)
            || (a == FireStep(k, Reread(true)) && ReadsRow(s, k, StageRow(NextTasks(c, s, a)[k].stage).value))
  {
    assert ShapeAt(s.tasks, s.next, k);
  }

  /** In state `s` fire `k` stands at its re-read, holds its marker, gate and permit and nothing
      else, and the re-read finds `row`: present under the job's name, active, same id, same
      schedule. */
  ghost predicate ReadsRow(s: State, k: TaskId, row: JobRow) {
    && k in s.tasks && s.tasks[k].CronFire? && s.tasks[k].stage.Reassert?
    && var f := s.tasks[k].fire;
       && HeldBy(s.tasks[k]) == NOTHING.(mark := Some((f.tenant, f.job.id)), gate := Some(f.tenant), cronPermit := true)
       && f.tenant in s.db && f.job.name in s.db[f.tenant] && s.db[f.tenant][f.job.name] == row
       && row.id == f.job.id && row.active && row.schedule == f.job.schedule
  }
}
