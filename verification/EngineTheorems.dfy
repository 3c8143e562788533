/**
 What holds in every run of the execution system, from the initial state, under any
 interleaving, any arrivals, any clock, any database writes and any index snapshots.
 */
module EngineTheorems {
  import opened EngineModel
  import opened EngineHoldings
  import opened EngineSafety
  import opened EngineFifo
  import opened EngineAccounts
  import opened EngineCron

  ghost predicate Inv(c: Config, s: State) {
    && Shape(s)
    && Exclusive(c, HoldingsOf(s.tasks), s.res)
    && Fifo(s)
    && Accounts(c, s)
    && SpawnOk(s.loop, s.log.spawned)
    && FiresOk(s)
  }

  lemma InvInit(c: Config)
    ensures Inv(c, Init(c))
  {
    var s := Init(c);
    assert LockMap(HoldingsOf(s.tasks)) == map[] && GateMap(HoldingsOf(s.tasks)) == map[] && MarkMap(HoldingsOf(s.tasks)) == map[];
    assert PermitHolders(HoldingsOf(s.tasks)) == {} && CronPermitHolders(HoldingsOf(s.tasks)) == {};
    assert LiveFires(s.tasks) == {};
    forall t ensures DepthAt(c, s, t) && BalanceAt(s, t) {
      assert forall kind :: Having(Kinds(s.tasks, t), kind) == {};
    }
  }

  lemma InvStep(c: Config, s: State, a: Action)
    requires Inv(c, s) && Enabled(c, s, a)
    ensures Inv(c, Next(c, s, a))
  {
    ShapeStep(c, s, a);
    ExclusiveStep(c, s, a);
    FifoStep(c, s, a);
    AccountsStep(c, s, a);
    SpawnStep(c, s, a);
    FiresStep(c, s, a);
  }

  lemma {:induction false} InvRun(c: Config, s: State, acts: seq<Action>)
    requires Inv(c, s) && IsRun(c, s, acts)
    ensures Inv(c, After(c, s, acts))
    decreases |acts|
  {
    if acts != [] {
      InvRun(c, s, acts[..|acts| - 1]);
      InvStep(c, After(c, s, acts[..|acts| - 1]), acts[|acts| - 1]);
    }
  }

  /** A state some run reaches. */
  ghost predicate Reachable(c: Config, s: State) { exists acts :: IsRun(c, Init(c), acts) && After(c, Init(c), acts) == s }

  lemma ReachableInv(c: Config, s: State)
    requires Reachable(c, s)
    ensures Inv(c, s)
  {
    var acts :| IsRun(c, Init(c), acts) && After(c, Init(c), acts) == s;
    InvInit(c);
    InvRun(c, Init(c), acts);
  }

  // ---------------------------------------------------------------- exclusion

  ghost function ExecutingTasks(ts: Tasks): set<TaskId> { set k | k in ts && InRun(ts[k], Executing) }

  /** Past the cron permit and before dropping it. */
  ghost predicate Dispatching(t: Task) {
    t.CronFire? && (t.stage.Reassert? || t.stage.Calling? || t.stage.Rpc? || t.stage.Recording?
                    || (t.stage.Unwind? && t.stage.level >= 3))
  }

  ghost function DispatchingFires(ts: Tasks): set<TaskId> { set k | k in ts && Dispatching(ts[k]) }

  ghost predicate PastOverlap(t: Task) {
    t.CronFire? && !t.stage.Arrived? && !t.stage.AtOverlap? && !t.stage.Skipping?
  }

  lemma ExecutingHolds(t: Task)
    ensures HeldBy(t).permit <==> InRun(t, Executing)
    ensures HeldBy(t).permit ==> HeldBy(t).lock == Some(RunOf(t).value.0)
  {
  }

  lemma DispatchingHolds(t: Task)
    ensures HeldBy(t).cronPermit <==> Dispatching(t)
    ensures HeldBy(t).cronPermit ==> HeldBy(t).gate == Some(t.fire.tenant)
    ensures HeldBy(t).mark == if PastOverlap(t) then Some(MarkKey(t.fire)) else None
  {
  }

  /** At most one execution per tenant (queued, synchronous and cron-started together), and
      at most `permits` in total. */
  lemma OneExecutionPerTenant(c: Config, s: State, k: TaskId, l: TaskId)
    requires Reachable(c, s)
    ensures |ExecutingTasks(s.tasks)| <= c.permits
    ensures k in ExecutingTasks(s.tasks) && l in ExecutingTasks(s.tasks)
            && RunOf(s.tasks[k]).value.0 == RunOf(s.tasks[l]).value.0
            ==> k == l
  {
    ReachableInv(c, s);
    var m := HoldingsOf(s.tasks);
    assert ExecutingTasks(s.tasks) == PermitHolders(m) by {
      forall j | j in s.tasks { ExecutingHolds(s.tasks[j]); }
    }
    if k in ExecutingTasks(s.tasks) && l in ExecutingTasks(s.tasks) {
      ExecutingHolds(s.tasks[k]);
      ExecutingHolds(s.tasks[l]);
      assert LockMap(m)[k] == RunOf(s.tasks[k]).value.0 && LockMap(m)[l] == RunOf(s.tasks[l]).value.0;
    }
  }

  /** A tenant occupies at most one cron permit, and at most `cronPermits` are out. */
  lemma OneCronPermitPerTenant(c: Config, s: State, k: TaskId, l: TaskId)
    requires Reachable(c, s)
    ensures |DispatchingFires(s.tasks)| <= c.cronPermits
    ensures k in DispatchingFires(s.tasks) && l in DispatchingFires(s.tasks)
            && s.tasks[k].fire.tenant == s.tasks[l].fire.tenant
            ==> k == l
  {
    ReachableInv(c, s);
    var m := HoldingsOf(s.tasks);
    assert DispatchingFires(s.tasks) == CronPermitHolders(m) by {
      forall j | j in s.tasks { DispatchingHolds(s.tasks[j]); }
    }
    if k in DispatchingFires(s.tasks) && l in DispatchingFires(s.tasks) {
      DispatchingHolds(s.tasks[k]);
      DispatchingHolds(s.tasks[l]);
      assert GateMap(m)[k] == s.tasks[k].fire.tenant && GateMap(m)[l] == s.tasks[l].fire.tenant;
    }
  }

  /** At most one fire per job is past the overlap gate, and the in-flight set is exactly the
      jobs of the fires that are. */
  lemma OneFirePastOverlap(c: Config, s: State, k: TaskId, l: TaskId, t: Tenant, id: int)
    requires Reachable(c, s)
    ensures k in s.tasks && l in s.tasks && PastOverlap(s.tasks[k]) && PastOverlap(s.tasks[l])
            && s.tasks[k].fire.tenant == s.tasks[l].fire.tenant && s.tasks[k].fire.job.id == s.tasks[l].fire.job.id
            ==> k == l
    ensures (t, id) in s.res.inFlight <==>
            exists j :: j in s.tasks && PastOverlap(s.tasks[j]) && s.tasks[j].fire.tenant == t && s.tasks[j].fire.job.id == id
  {
    ReachableInv(c, s);
    var m := MarkMap(HoldingsOf(s.tasks));
    forall j | j in s.tasks
      ensures j in m <==> PastOverlap(s.tasks[j])
      ensures j in m ==> m[j] == MarkKey(s.tasks[j].fire)
    {
      DispatchingHolds(s.tasks[j]);
    }
    if (t, id) in s.res.inFlight {
      var j :| j in m && m[j] == (t, id);
      assert j in s.tasks && PastOverlap(s.tasks[j]) && MarkKey(s.tasks[j].fire) == (t, id);
    }
  }

  // ---------------------------------------------------------------- order and accounting

  /** What has finished or is running for a tenant is a prefix of what was sent for it, in
      send order, whatever other tenants do; the rest waits in lane, hand and channel order. */
  lemma SendOrder(c: Config, s: State, t: Tenant)
    requires Reachable(c, s)
    ensures Proj(s.log.sent, t) == Proj(s.log.finished, t) + InLane(s.tasks, t) + Proj(HandSeq(s.chan), t)
                                   + Proj(s.chan.queue, t) + Proj(s.chan.stranded, t)
    ensures Worker(t) in s.tasks && s.tasks[Worker(t)].LaneRun?
            ==> Proj(s.log.finished, t) + [s.tasks[Worker(t)].inv] <= Proj(s.log.sent, t)
  {
    ReachableInv(c, s);
    assert FifoAt(s, t);
    Regroup(Proj(s.log.finished, t), InLane(s.tasks, t), Proj(HandSeq(s.chan), t), Proj(s.chan.queue, t), Proj(s.chan.stranded, t));
    if Worker(t) in s.tasks && s.tasks[Worker(t)].LaneRun? {
      FirstOf(Proj(s.log.finished, t), s.tasks[Worker(t)].inv, s.tasks[Worker(t)].lane, InChannel(s.chan, t));
    }
  }

  lemma Regroup<T>(a: seq<T>, b: seq<T>, c: seq<T>, d: seq<T>, e: seq<T>)
    ensures a + (b + (c + d + e)) == a + b + c + d + e
  {
  }

  lemma FirstOf<T>(a: seq<T>, x: T, b: seq<T>, c: seq<T>)
    ensures a + [x] <= a + (([x] + b) + c)
  {
  }

  lemma QueueStep(c: Config, s: State, a: Action)
    requires Enabled(c, s, a) && |s.chan.queue| <= c.channel
    ensures |NextChannel(c, s, a).queue| <= c.channel
  {
  }

  lemma {:induction false} QueueRun(c: Config, acts: seq<Action>)
    requires IsRun(c, Init(c), acts)
    ensures |After(c, Init(c), acts).chan.queue| <= c.channel
    decreases |acts|
  {
    if acts != [] {
      QueueRun(c, acts[..|acts| - 1]);
      QueueStep(c, After(c, Init(c), acts[..|acts| - 1]), acts[|acts| - 1]);
    }
  }

  /** The channel never holds more than its capacity. */
  lemma ChannelWithinCapacity(c: Config, s: State)
    requires Reachable(c, s)
    ensures |s.chan.queue| <= c.channel
  {
    var acts :| IsRun(c, Init(c), acts) && After(c, Init(c), acts) == s;
    QueueRun(c, acts);
  }

  /** Depth is probes, plus accepted-and-unfinished, plus abandoned; acceptance respects the cap;
      nothing offered goes missing; and no decrement ever meets a zero counter. */
  lemma DepthConserved(c: Config, s: State, t: Tenant)
    requires Reachable(c, s)
    ensures DepthOf(s.depth, t) == Tally(s.tasks, t, Probing) + InSystem(s.tasks, s.chan, t) + Abandoned(s, t)
    ensures InSystem(s.tasks, s.chan, t) + Abandoned(s, t) <= c.cap
    ensures BalanceAt(s, t)
    ensures forall a :: Enabled(c, s, a) && Concerns(s, a, t) && (a.Decrement? || (a.EnqStep? && (a.enq == Reject || a.enq == SendFail)))
                        ==> DepthOf(s.depth, t) > 0
  {
    ReachableInv(c, s);
    assert DepthAt(c, s, t) && BalanceAt(s, t);
    forall a | Enabled(c, s, a) && Concerns(s, a, t) && (a.Decrement? || (a.EnqStep? && (a.enq == Reject || a.enq == SendFail)))
      ensures DepthOf(s.depth, t) > 0
    {
      HoldsASlot(c, s, a, t);
    }
  }

  /** Who is about to decrement is counted itself. */
  lemma HoldsASlot(c: Config, s: State, a: Action, t: Tenant)
    requires Shape(s) && ChannelOk(s.chan) && DepthAt(c, s, t) && Enabled(c, s, a) && Concerns(s, a, t)
    requires a.Decrement? || (a.EnqStep? && (a.enq == Reject || a.enq == SendFail))
    ensures DepthOf(s.depth, t) > 0
  {
    assert ShapeAt(s.tasks, s.next, a.k);
    if a.Decrement? {
      assert a.k == Worker(t) && |InLane(s.tasks, t)| > 0;
    } else {
      NumbersStep(c, s, a, t);
    }
  }

  // ---------------------------------------------------------------- cron

  /** No (tenant, job id, minute) is spawned twice, whatever the clock trace. */
  lemma SpawnedAtMostOnce(c: Config, s: State, i: nat, j: nat)
    requires Reachable(c, s) && i < j < |s.log.spawned|
    ensures var f, g := s.log.spawned[i].fire, s.log.spawned[j].fire;
            f.tenant != g.tenant || f.job.id != g.job.id || f.minute != g.minute
  {
    ReachableInv(c, s);
    assert Key(s.log.spawned[i].fire) != Key(s.log.spawned[j].fire);
  }

  /** Fire by fire: each spawned fire runs under an id of its own; it is live, as the fire it was
      spawned as, or it has exactly one outcome, and never both; an outcome once recorded is
      never replaced; and nothing else is live or has one. */
  lemma OneOutcomePerFire(c: Config, s: State, a: Action)
    requires Reachable(c, s) && Enabled(c, s, a)
    ensures forall i, j :: 0 <= i < j < |s.log.spawned| ==> s.log.spawned[i].id != s.log.spawned[j].id
    ensures forall i :: 0 <= i < |s.log.spawned| ==> LiveOrEnded(s, s.log.spawned[i])
    ensures forall k :: k in LiveFires(s.tasks) || k in s.log.outcomes ==> exists n :: 0 <= n < |s.log.spawned| && s.log.spawned[n].id == k
    ensures forall k :: k in s.log.outcomes ==> k in Next(c, s, a).log.outcomes && Next(c, s, a).log.outcomes[k] == s.log.outcomes[k]
  {
    ReachableInv(c, s);
    forall i | 0 <= i < |s.log.spawned|
      ensures LiveOrEnded(s, s.log.spawned[i])
    {
      EachLiveOrEnded(s, i);
    }
    forall k | k in LiveFires(s.tasks) || k in s.log.outcomes
      ensures exists n :: 0 <= n < |s.log.spawned| && s.log.spawned[n].id == k
    {
      assert k in Ids(s.log.spawned);
    }
    OutcomesStay(c, s, a);
  }

  ghost predicate LiveOrEnded(s: State, e: Spawn) {
    (e.id in s.tasks <==> e.id !in s.log.outcomes) && (e.id in s.tasks ==> s.tasks[e.id].CronFire? && s.tasks[e.id].fire == e.fire)
  }

  lemma EachLiveOrEnded(s: State, i: nat)
    requires FiresOk(s) && i < |s.log.spawned|
    ensures LiveOrEnded(s, s.log.spawned[i])
  {
    assert SpawnedAs(s, s.log.spawned[i]);
    assert s.log.spawned[i].id in Ids(s.log.spawned);
  }

  lemma OutcomesStay(c: Config, s: State, a: Action)
    requires Shape(s) && FiresOk(s) && Enabled(c, s, a)
    ensures forall k :: k in s.log.outcomes ==> k in Next(c, s, a).log.outcomes && Next(c, s, a).log.outcomes[k] == s.log.outcomes[k]
  {
    EndsStep(c, s, a);
    if a.FireStep? {
      assert ShapeAt(s.tasks, s.next, a.k) && a.k in LiveFires(s.tasks);
    }
  }

  /** The row with which fire `k` is being, or was, dispatched. */
  ghost function RowOf(s: State, k: TaskId): Option<JobRow> {
    if k in s.tasks && s.tasks[k].CronFire? then StageRow(s.tasks[k].stage)
    else if k in s.log.outcomes && s.log.outcomes[k].Dispatched? then Some(s.log.outcomes[k].row)
    else None
  }

  /** A fire that ends takes its row into its outcome. */
  lemma RowOfEnded(c: Config, s: State, a: Action, k: TaskId)
    requires Shape(s) && FiresOk(s) && Enabled(c, s, a) && !(k in NextTasks(c, s, a) && NextTasks(c, s, a)[k].CronFire?)
    requires k in NextLog(c, s, a).outcomes && NextLog(c, s, a).outcomes[k].Dispatched?
    ensures RowOf(s, k) == Some(NextLog(c, s, a).outcomes[k].row)
  {
    assert ShapeAt(s.tasks, s.next, k);
    EndsStep(c, s, a);
    if k in s.log.outcomes {
      assert k !in LiveFires(s.tasks) && k in Ids(s.log.spawned);
      OutcomesStay(c, s, a);
      NotAFire(s, k);
    }
  }

  lemma NotAFire(s: State, k: TaskId)
    requires Shape(s) && FiresOk(s) && k in s.log.outcomes
    ensures k !in s.tasks
  {
    assert ShapeAt(s.tasks, s.next, k) && k in Ids(s.log.spawned);
    var i :| 0 <= i < |s.log.spawned| && s.log.spawned[i].id == k;
    assert SpawnedAs(s, s.log.spawned[i]);
  }

  lemma RowOfStep(c: Config, s: State, a: Action, k: TaskId)
    requires Inv(c, s) && Enabled(c, s, a) && RowOf(Next(c, s, a), k).Some?
    ensures RowOf(s, k) == RowOf(Next(c, s, a), k) || (a == FireStep(k, Reread(true)) && ReadsRow(s, k, RowOf(Next(c, s, a), k).value))
  {
    if k in NextTasks(c, s, a) && NextTasks(c, s, a)[k].CronFire? {
      RowStep(c, s, a, k);
    } else {
      RowOfEnded(c, s, a, k);
    }
  }

  lemma RowOfLast(c: Config, acts: seq<Action>, k: TaskId, row: JobRow)
    requires IsRun(c, Init(c), acts) && RowOf(After(c, Init(c), acts), k) == Some(row)
    ensures acts != [] && IsRun(c, Init(c), acts[..|acts| - 1])
    ensures var s := After(c, Init(c), acts[..|acts| - 1]); RowOf(s, k) == Some(row) || (acts[|acts| - 1] == FireStep(k, Reread(true)) && ReadsRow(s, k, row))
  {
    var before := acts[..|acts| - 1];
    InvInit(c);
    InvRun(c, Init(c), before);
    RowOfStep(c, After(c, Init(c), before), acts[|acts| - 1], k);
  }

  /** However stale the index: whatever row a fire dispatches, some earlier step of the run is
      that fire's own re-read, made while it held marker, gate and permit, and it found exactly
      that row in the database of that moment, present under the job's name, active, with the
      snapshot's id and schedule. */
  lemma {:induction false} DispatchedRowWasFresh(c: Config, acts: seq<Action>, k: TaskId, row: JobRow) returns (i: nat)
    requires IsRun(c, Init(c), acts) && RowOf(After(c, Init(c), acts), k) == Some(row)
    ensures i < |acts| && IsRun(c, Init(c), acts[..i])
    ensures acts[i] == FireStep(k, Reread(true)) && ReadsRow(After(c, Init(c), acts[..i]), k, row)
    decreases |acts|
  {
    RowOfLast(c, acts, k, row);
    var before := acts[..|acts| - 1];
    if RowOf(After(c, Init(c), before), k) == Some(row) {
      i := DispatchedRowWasFresh(c, before, k, row);
      assert before[..i] == acts[..i];
    } else {
      i := |before|;
    }
  }
}
