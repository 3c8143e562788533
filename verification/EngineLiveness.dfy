/**
 Liveness: some step is always possible while anything is unfinished, every internal step
 lowers a measure, and so the system drains to a state in which everything is free.
 */
module EngineLiveness {
  import opened EngineModel
  import opened EngineHoldings
  import opened EngineSafety
  import opened EngineTheorems

  // ---------------------------------------------------------------- progress

  ghost predicate IdleWorker(t: Task) { t.LaneIdle? && t.lane == [] }

  /** Something is still under way: a task other than an idle lane worker, an invocation on
      its way to a lane, or a due fire not yet spawned. */
  ghost predicate Unfinished(s: State) {
    || (exists k :: k in s.tasks && !IdleWorker(s.tasks[k]))
    || s.chan.hand.Some?
    || s.chan.queue != []
    || s.loop.toSpawn != []
  }

  ghost predicate CanStep(c: Config, s: State) { exists a :: Internal(a) && Enabled(c, s, a) }

  ghost predicate SomeRun(ts: Tasks, run: RunPhase) { exists k :: k in ts && InRun(ts[k], run) }

  lemma PermitsFree(c: Config, ts: Tasks, r: Resources)
    requires Exclusive(c, HoldingsOf(ts), r) && !SomeRun(ts, Executing)
    ensures r.permits == c.permits
  {
    var m := HoldingsOf(ts);
    forall k | k in ts ensures !m[k].permit { ExecutingHolds(ts[k]); }
    assert PermitHolders(m) == {};
  }

  lemma LockHolds(t: Task)
    requires HeldBy(t).lock.Some?
    ensures InRun(t, Executing) || InRun(t, Releasing) || InRun(t, WantPermit)
  {
  }

  lemma LocksFree(c: Config, ts: Tasks, r: Resources)
    requires Exclusive(c, HoldingsOf(ts), r)
    requires !SomeRun(ts, Executing) && !SomeRun(ts, Releasing) && !SomeRun(ts, WantPermit)
    ensures forall t :: t !in r.lockOwner
  {
    var m := HoldingsOf(ts);
    forall k | k in ts ensures m[k].lock.None? { if m[k].lock.Some? { LockHolds(ts[k]); } }
    assert forall k :: k !in LockMap(m);
  }

  /** A task inside `run_one` never waits in vain: executor permits and tenant locks are only
      held by tasks further along. */
  lemma RunProgress(c: Config, s: State, k: TaskId)
    requires c.Valid() && Exclusive(c, HoldingsOf(s.tasks), s.res) && k in s.tasks && RunOf(s.tasks[k]).Some?
    ensures CanStep(c, s)
  {
    if SomeRun(s.tasks, Executing) {
      var l :| l in s.tasks && InRun(s.tasks[l], Executing);
      assert Enabled(c, s, RunStep(l, Finish));
    } else if SomeRun(s.tasks, Releasing) {
      var l :| l in s.tasks && InRun(s.tasks[l], Releasing);
      assert Enabled(c, s, RunStep(l, ReleaseLock));
    } else if SomeRun(s.tasks, WantPermit) {
      var l :| l in s.tasks && InRun(s.tasks[l], WantPermit);
      PermitsFree(c, s.tasks, s.res);
      assert Enabled(c, s, RunStep(l, AcquirePermit));
    } else {
      assert InRun(s.tasks[k], RunOf(s.tasks[k]).value.1);
      LocksFree(c, s.tasks, s.res);
      assert Enabled(c, s, RunStep(k, AcquireLock));
    }
  }

  lemma DispatchProgress(c: Config, s: State, k: TaskId)
    requires c.Valid() && Exclusive(c, HoldingsOf(s.tasks), s.res) && k in s.tasks && Dispatching(s.tasks[k])
    ensures CanStep(c, s)
  {
    var stage := s.tasks[k].stage;
    if stage.Reassert? { assert Enabled(c, s, FireStep(k, Reread(true))); }
    else if stage.Calling? { RunProgress(c, s, k); }
    else if stage.Rpc? { assert Enabled(c, s, FireStep(k, RunRpc)); }
    else if stage.Recording? { assert Enabled(c, s, FireStep(k, RecordRun)); }
    else { assert Enabled(c, s, FireStep(k, DropGuard)); }
  }

  /** A fire waits for a cron permit only while some fire holds one, and that one can move. */
  lemma PermitProgress(c: Config, s: State, k: TaskId)
    requires c.Valid() && Exclusive(c, HoldingsOf(s.tasks), s.res)
    requires k in s.tasks && s.tasks[k].CronFire? && s.tasks[k].stage.WantCronPermit?
    ensures CanStep(c, s)
  {
    if s.res.cronPermits > 0 {
      assert Enabled(c, s, FireStep(k, TakePermit));
    } else {
      var m := HoldingsOf(s.tasks);
      assert CronPermitHolders(m) != {};
      var l :| l in CronPermitHolders(m);
      DispatchingHolds(s.tasks[l]);
      DispatchProgress(c, s, l);
    }
  }

  lemma GateHolds(t: Task)
    requires HeldBy(t).gate.Some?
    ensures t.CronFire? && (t.stage.WantCronPermit? || t.stage.Unwind? || Dispatching(t))
  {
  }

  /** A fire waits for its tenant's gate only while some fire holds it, and that one can move. */
  lemma GateProgress(c: Config, s: State, k: TaskId)
    requires c.Valid() && Exclusive(c, HoldingsOf(s.tasks), s.res)
    requires k in s.tasks && s.tasks[k].CronFire? && s.tasks[k].stage.WantGate?
    ensures CanStep(c, s)
  {
    var t := s.tasks[k].fire.tenant;
    if t !in s.res.gateOwner {
      assert Enabled(c, s, FireStep(k, TakeGate));
    } else {
      var l := s.res.gateOwner[t];
      assert l in GateMap(HoldingsOf(s.tasks));
      GateHolds(s.tasks[l]);
      if s.tasks[l].stage.WantCronPermit? { PermitProgress(c, s, l); }
      else if s.tasks[l].stage.Unwind? { assert Enabled(c, s, FireStep(l, DropGuard)); }
      else { DispatchProgress(c, s, l); }
    }
  }

  lemma FireProgress(c: Config, s: State, k: TaskId)
    requires c.Valid() && Exclusive(c, HoldingsOf(s.tasks), s.res) && k in s.tasks && s.tasks[k].CronFire?
    ensures CanStep(c, s)
  {
    var stage := s.tasks[k].stage;
    if stage.Arrived? { assert Enabled(c, s, FireStep(k, CheckLive(true))); }
    else if stage.AtOverlap? { assert Enabled(c, s, FireStep(k, CheckOverlap)); }
    else if stage.Skipping? { assert Enabled(c, s, FireStep(k, RecordSkip)); }
    else if stage.WantGate? { GateProgress(c, s, k); }
    else if stage.WantCronPermit? { PermitProgress(c, s, k); }
    else if stage.Unwind? { assert Enabled(c, s, FireStep(k, DropGuard)); }
    else { DispatchProgress(c, s, k); }
  }

  lemma EnqProgress(c: Config, s: State, k: TaskId)
    requires c.Valid() && k in s.tasks && s.chan.queue == []
    requires s.tasks[k].EnqNew? || s.tasks[k].EnqRejecting? || s.tasks[k].EnqDropping? || s.tasks[k].EnqSending?
    ensures CanStep(c, s)
  {
    var t := s.tasks[k];
    assert Enabled(c, s, EnqStep(k, if t.EnqNew? then Count else if t.EnqRejecting? then Reject
                                    else if t.EnqDropping? then Drop else if s.chan.receiverUp then Send else SendFail));
  }

  /** Progress across the cron gate, the cron permit, the tenant lock and the executor permit:
      in every reachable state with anything unfinished, the system itself can take a step. */
  lemma ProgressTheorem(c: Config, s: State)
    requires c.Valid() && Inv(c, s) && Unfinished(s)
    ensures CanStep(c, s)
  {
    if s.chan.hand.Some? {
      assert Enabled(c, s, Route);
    } else if s.chan.queue != [] {
      assert Enabled(c, s, Recv);
    } else if s.loop.toSpawn != [] {
      assert Enabled(c, s, SpawnFire);
    } else {
      var k :| k in s.tasks && !IdleWorker(s.tasks[k]);
      var t := s.tasks[k];
      if t.LaneIdle? { assert Enabled(c, s, LaneTake(k)); }
      else if t.LaneDecrement? { assert Enabled(c, s, Decrement(k)); }
      else if t.LaneRun? || t.SyncRun? { RunProgress(c, s, k); }
      else if t.CronFire? { FireProgress(c, s, k); }
      else { EnqProgress(c, s, k); }
    }
  }

  /** No interleaving deadlocks: while there is a task other than a lane worker with an empty lane,
      or an invocation in the drain loop's hand or in the channel, or a fire to spawn, some step of
      the enqueuers, the drain loop, the lanes, the runs, the minute loop or the fires is possible. */
  lemma NoDeadlock(c: Config, s: State)
    requires c.Valid() && Reachable(c, s)
    requires (exists k :: k in s.tasks && s.tasks[k] != LaneIdle([])) || s.chan.hand.Some? || s.chan.queue != [] || s.loop.toSpawn != []
    ensures exists a :: Enabled(c, s, a) &&
              (a.EnqStep? || a.Recv? || a.Route? || a.LaneTake? || a.RunStep? || a.Decrement? || a.SpawnFire? || a.FireStep?)
  {
    ReachableInv(c, s);
    ProgressTheorem(c, s);
    var a :| Internal(a) && Enabled(c, s, a);
  }
}
