/**
 Termination: every step of the system itself lowers a measure, so without new arrivals it
 stops, and where it stops every lock, gate, marker and permit is free.
 */
module EngineDrain {
  import opened EngineModel
  import opened EngineHoldings
  import opened EngineSafety
  import opened EngineFifo
  import opened EngineAccounts
  import opened EngineTheorems
  import opened EngineLiveness

  // ---------------------------------------------------------------- sums over tasks

  ghost function Sum(m: map<TaskId, nat>): nat
    decreases |m|
  {
    if m == map[] then 0 else var k :| k in m; m[k] + Sum(m - {k})
  }

  lemma {:induction false} SumTakes(m: map<TaskId, nat>, k: TaskId)
    requires k in m
    ensures Sum(m) == m[k] + Sum(m - {k})
    decreases |m|
  {
    var j :| j in m && Sum(m) == m[j] + Sum(m - {j});
    if j != k {
      SumTakes(m - {j}, k);
      SumTakes(m - {k}, j);
      assert m - {j} - {k} == m - {k} - {j};
    }
  }

  lemma SumPut(m: map<TaskId, nat>, k: TaskId, v: Option<nat>)
    ensures Sum(Put(m, k, v)) + (if k in m then m[k] else 0) == Sum(m) + (if v.Some? then v.value else 0)
  {
    var rest := m - {k};
    if k in m { SumTakes(m, k); } else { assert rest == m; }
    if v.Some? {
      SumTakes(m[k := v.value], k);
      assert m[k := v.value] - {k} == rest;
    }
  }

  // ---------------------------------------------------------------- the measure

  ghost function RunWeight(run: RunPhase): nat {
    match run
    case WantLock => 4
    case WantPermit => 3
    case Executing => 2
    case Releasing => 1
  }

  ghost function StageWeight(stage: FireStage): nat {
    match stage
    case Arrived => 13
    case AtOverlap => 12
    case Skipping => 1
    case WantGate => 11
    case WantCronPermit => 10
    case Reassert => 9
    case Calling(_, run) => 4 + RunWeight(run)
    case Rpc(_) => 5
    case Recording(_) => 4
    case Unwind(level, _) => level
  }

  /** How many steps of its own a task has at most left; a queued invocation brings those of
      its passage through the lane. */
  ghost function Weight(t: Task): nat {
    match t
    case EnqNew(_) => 10
    case EnqRejecting(_) => 2
    case EnqDropping(_) => 1
    case EnqSending(_) => 9
    case LaneIdle(lane) => 6 * |lane|
    case LaneRun(lane, _, run) => 6 * |lane| + 1 + RunWeight(run)
    case LaneDecrement(lane, _) => 6 * |lane| + 1
    case SyncRun(_, run) => RunWeight(run)
    case CronFire(_, stage) => StageWeight(stage)
  }

  ghost function WeightOpt(t: Option<Task>): nat { if t.Some? then Weight(t.value) else 0 }

  ghost function Weights(ts: Tasks): map<TaskId, nat> { map k | k in ts :: Weight(ts[k]) }

  ghost function ChannelWeight(ch: Channel): nat { 8 * |ch.queue| + (if ch.hand.Some? then 7 else 0) }

  ghost function Measure(s: State): nat {
    Sum(Weights(s.tasks)) + ChannelWeight(s.chan) + 14 * |s.loop.toSpawn|
  }

  lemma WeightsPut(ts: Tasks, k: TaskId, t: Option<Task>)
    ensures Sum(Weights(Put(ts, k, t))) + WeightOpt(Look(ts, k)) == Sum(Weights(ts)) + WeightOpt(t)
  {
    var v := if t.Some? then Some(Weight(t.value)) else None;
    assert Weights(Put(ts, k, t)) == Put(Weights(ts), k, v);
    SumPut(Weights(ts), k, v);
  }

  lemma RunWeightFalls(r: Resources, t: Task, op: RunOp)
    requires RunEnabled(r, t, op)
    ensures WeightOpt(RunNext(t, op)) < Weight(t)
  {
  }

  lemma FireWeightFalls(r: Resources, db: map<Tenant, map<string, JobRow>>, t: Task, op: FireOp)
    requires FireEnabled(r, t, op) && (t.stage.Unwind? ==> t.stage.level >= 1)
    ensures WeightOpt(FireTask(t.fire, FireNext(r, db, t.fire, t.stage, op))) < Weight(t)
  {
  }

  /** A step inside one task lowers that task's weight; a step that passes an invocation or a
      fire on gives the receiver less than it takes from the giver. */
  lemma WeightMoves(c: Config, s: State, a: Action, k: TaskId)
    requires Shape(s) && Enabled(c, s, a) && Internal(a) && Mover(s, a) == Some(k)
    ensures var was, now := WeightOpt(Look(s.tasks, k)), WeightOpt(NewTask(c, s, a));
            if a.SpawnFire? then was == 0 && now == 13
            else if a.Route? then now == was + 6
            else if a.EnqStep? && a.enq == Send then was == 9 && now == 0
            else now < was
  {
    assert ShapeAt(s.tasks, s.next, k);
    if a.FireStep? { FireWeightFalls(s.res, s.db, s.tasks[k], a.op); }
    else if a.RunStep? { RunWeightFalls(s.res, s.tasks[k], a.run); }
  }

  lemma MeasureStep(c: Config, s: State, a: Action)
    requires Shape(s) && Enabled(c, s, a) && Internal(a)
    ensures Measure(Next(c, s, a)) < Measure(s)
  {
    if Mover(s, a).Some? {
      var k := Mover(s, a).value;
      WeightMoves(c, s, a, k);
      WeightsPut(s.tasks, k, NewTask(c, s, a));
      assert NextTasks(c, s, a) == Put(s.tasks, k, NewTask(c, s, a));
    }
  }

  ghost predicate AllInternal(acts: seq<Action>) { forall i :: 0 <= i < |acts| ==> Internal(acts[i]) }

  /** Without new arrivals a run is no longer than the measure it started with. */
  lemma {:induction false} RunsAreBounded(c: Config, s: State, acts: seq<Action>)
    requires Inv(c, s) && IsRun(c, s, acts) && AllInternal(acts)
    ensures |acts| + Measure(After(c, s, acts)) <= Measure(s)
    decreases |acts|
  {
    if acts != [] {
      var before := acts[..|acts| - 1];
      RunsAreBounded(c, s, before);
      InvRun(c, s, before);
      MeasureStep(c, After(c, s, before), acts[|acts| - 1]);
    }
  }

  // ---------------------------------------------------------------- where it stops

  /** Nothing under way, everything free. Depth remembers only what was lost in a channel
      whose receiver went away, and what callers abandoned. */
  ghost predicate Quiescent(c: Config, s: State) {
    && !Unfinished(s)
    && s.res == Resources(map[], c.permits, map[], c.cronPermits, {})
    && (forall t :: DepthOf(s.depth, t) == |Proj(s.chan.stranded, t)| + Abandoned(s, t))
  }

  lemma IdleHoldsNothing(c: Config, ts: Tasks, r: Resources)
    requires Exclusive(c, HoldingsOf(ts), r) && forall k :: k in ts ==> IdleWorker(ts[k])
    ensures r == Resources(map[], c.permits, map[], c.cronPermits, {})
  {
    var m := HoldingsOf(ts);
    assert LockMap(m) == map[] && GateMap(m) == map[] && MarkMap(m) == map[];
    assert PermitHolders(m) == {} && CronPermitHolders(m) == {};
    assert r.lockOwner == map[];
    assert r.gateOwner == map[];
    assert r.inFlight == {};
  }

  lemma NoTally(ts: Tasks, t: Tenant, kind: Kind)
    requires kind != NoEnq && forall k :: k in ts ==> IdleWorker(ts[k])
    ensures Tally(ts, t, kind) == 0
  {
    assert Having(Kinds(ts, t), kind) == {};
  }

  lemma IdleLane(s: State, t: Tenant)
    requires !Unfinished(s)
    ensures InPipeline(s.tasks, s.chan, t) == |Proj(s.chan.stranded, t)|
  {
    assert Worker(t) in s.tasks ==> IdleWorker(s.tasks[Worker(t)]);
  }

  lemma IdleCountsNothing(c: Config, s: State, t: Tenant)
    requires Inv(c, s) && !Unfinished(s)
    ensures DepthOf(s.depth, t) == |Proj(s.chan.stranded, t)| + Abandoned(s, t)
  {
    assert DepthAt(c, s, t);
    NoTally(s.tasks, t, Probing);
    NoTally(s.tasks, t, Accepted);
    IdleLane(s, t);
  }

  /** A reachable state in which the system cannot step is quiescent. */
  lemma StopsOnlyWhenDone(c: Config, s: State)
    requires c.Valid() && Inv(c, s) && !CanStep(c, s)
    ensures Quiescent(c, s)
  {
    if Unfinished(s) { ProgressTheorem(c, s); }
    IdleHoldsNothing(c, s.tasks, s.res);
    forall t ensures DepthOf(s.depth, t) == |Proj(s.chan.stranded, t)| + Abandoned(s, t) { IdleCountsNothing(c, s, t); }
  }

  /** A step down, from any state that can step. */
  lemma StepDown(c: Config, s: State) returns (a: Action)
    requires Inv(c, s) && CanStep(c, s)
    ensures Internal(a) && Enabled(c, s, a) && Inv(c, Next(c, s, a)) && Measure(Next(c, s, a)) < Measure(s)
  {
    a :| Internal(a) && Enabled(c, s, a);
    InvStep(c, s, a);
    MeasureStep(c, s, a);
  }

  lemma InternalSnoc(acts: seq<Action>, a: Action)
    requires AllInternal(acts) && Internal(a)
    ensures AllInternal(acts + [a])
  {
  }

  lemma DrainOn(c: Config, s: State, acts: seq<Action>) returns (all: seq<Action>)
    requires c.Valid() && IsRun(c, s, acts) && AllInternal(acts) && Inv(c, After(c, s, acts))
    ensures IsRun(c, s, all) && AllInternal(all) && Quiescent(c, After(c, s, all))
    decreases Measure(After(c, s, acts))
  {
    if CanStep(c, After(c, s, acts)) {
      var a := StepDown(c, After(c, s, acts));
      RunSnoc(c, s, acts, a);
      InternalSnoc(acts, a);
      all := DrainOn(c, s, acts + [a]);
    } else {
      all := acts;
      StopsOnlyWhenDone(c, After(c, s, acts));
    }
  }

  /** From every reachable state, internal steps alone lead to quiescence. */
  lemma DrainsToQuiescence(c: Config, s: State) returns (acts: seq<Action>)
    requires c.Valid() && Reachable(c, s)
    ensures IsRun(c, s, acts) && AllInternal(acts) && Quiescent(c, After(c, s, acts))
  {
    ReachableInv(c, s);
    acts := DrainOn(c, s, []);
  }
}
