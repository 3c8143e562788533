/**
 Exclusion: in every step the lock, gate and marker tables and the two semaphores stay in
 agreement with what the tasks, read off their program positions, hold.
 */
module EngineSafety {
  import opened EngineModel
  import opened EngineHoldings

  // ---------------------------------------------------------------- shape

  ghost predicate LaneOf(lane: seq<Invocation>, w: Tenant) {
    forall i :: 0 <= i < |lane| ==> lane[i].tenant == w
  }

  ghost predicate TaskOk(k: TaskId, t: Task) {
    match k
    case Enq(_) => t.EnqNew? || t.EnqRejecting? || t.EnqDropping? || t.EnqSending?
    case Sync(_) => t.SyncRun?
    case Fire(_) => t.CronFire? && (t.stage.Unwind? ==> 1 <= t.stage.level <= 3)
    case Worker(w) =>
      (t.LaneIdle? || t.LaneRun? || t.LaneDecrement?) && LaneOf(t.lane, w) && (t.LaneIdle? || t.inv.tenant == w)
  }

  ghost predicate ShapeAt(ts: Tasks, next: nat, k: TaskId) {
    k in ts ==> TaskOk(k, ts[k]) && (k.Worker? || k.n < next)
  }

  ghost predicate Shape(s: State) { forall k :: ShapeAt(s.tasks, s.next, k) }

  lemma NewTaskOk(c: Config, s: State, a: Action)
    requires Shape(s) && Enabled(c, s, a) && Mover(s, a).Some? && NewTask(c, s, a).Some?
    ensures TaskOk(Mover(s, a).value, NewTask(c, s, a).value)
  {
    assert ShapeAt(s.tasks, s.next, Mover(s, a).value);
  }

  lemma ShapeStep(c: Config, s: State, a: Action)
    requires Shape(s) && Enabled(c, s, a)
    ensures Shape(Next(c, s, a))
  {
    var s' := Next(c, s, a);
    forall k ensures ShapeAt(s'.tasks, s'.next, k) {
      assert ShapeAt(s.tasks, s.next, k);
      if Mover(s, a) == Some(k) && NewTask(c, s, a).Some? { NewTaskOk(c, s, a); }
    }
  }

  // ---------------------------------------------------------------- who holds what

  ghost function HeldInRun(run: RunPhase, t: Tenant): Held {
    match run
    case WantLock => NOTHING
    case Executing => NOTHING.(lock := Some(t), permit := true)
    case _ => NOTHING.(lock := Some(t))
  }

  ghost function HeldInStage(f: FireInfo, stage: FireStage): Held {
    var mark := NOTHING.(mark := Some(MarkKey(f)));
    var gate := mark.(gate := Some(f.tenant));
    var full := gate.(cronPermit := true);
    match stage
    case Arrived => NOTHING
    case AtOverlap => NOTHING
    case Skipping => NOTHING
    case WantGate => mark
    case WantCronPermit => gate
    case Calling(_, run) => full.(lock := HeldInRun(run, f.tenant).lock, permit := HeldInRun(run, f.tenant).permit)
    case Unwind(level, _) => if level >= 3 then full else if level == 2 then gate else mark
    case _ => full
  }

  /** What a task holds, read off its program position alone. */
  ghost function HeldBy(t: Task): Held {
    match t
    case LaneRun(_, inv, run) => HeldInRun(run, inv.tenant)
    case SyncRun(tenant, run) => HeldInRun(run, tenant)
    case CronFire(f, stage) => HeldInStage(f, stage)
    case _ => NOTHING
  }

  ghost function HeldOpt(t: Option<Task>): Option<Held> { if t.Some? then Some(HeldBy(t.value)) else None }

  ghost function Or(h: Option<Held>): Held { if h.Some? then h.value else NOTHING }

  ghost function HoldingsOf(ts: Tasks): Holdings { map k | k in ts :: HeldBy(ts[k]) }

  lemma HoldingsPut(ts: Tasks, k: TaskId, t: Option<Task>)
    ensures HoldingsOf(Put(ts, k, t)) == Put(HoldingsOf(ts), k, HeldOpt(t))
  {
  }

  ghost function FireTask(f: FireInfo, st: Option<FireStage>): Option<Task> {
    if st.Some? then Some(CronFire(f, st.value)) else None
  }

  lemma RunMoves(r: Resources, k: TaskId, t: Task, op: RunOp)
    requires RunEnabled(r, t, op)
    ensures ResourceMove(r, RunResources(r, k, t, op), k, HeldBy(t), Or(HeldOpt(RunNext(t, op))))
  {
  }

  lemma FireMoves(r: Resources, db: map<Tenant, map<string, JobRow>>, k: TaskId, t: Task, op: FireOp)
    requires FireEnabled(r, t, op) && (t.stage.Unwind? ==> 1 <= t.stage.level <= 3)
    ensures ResourceMove(r, FireResources(r, k, t, op), k, HeldBy(t),
                         Or(HeldOpt(FireTask(t.fire, FireNext(r, db, t.fire, t.stage, op)))))
  {
    if op == CheckOverlap && MarkKey(t.fire) in r.inFlight { assert r.inFlight + {MarkKey(t.fire)} == r.inFlight; }
  }

  /** A caller that goes away gives back its permit at once and its lock with the next step. */
  lemma CancelMoves(c: Config, s: State, k: TaskId)
    requires Enabled(c, s, Cancel(k))
    ensures ResourceMove(s.res, NextResources(c, s, Cancel(k)), k, HeldBy(s.tasks[k]), Or(HeldOpt(CancelNext(s.tasks[k]))))
  {
  }

  /** Only these, the steps of `run_one` and those of `run_due_job` change what the moved task
      holds. */
  lemma OtherMoves(c: Config, s: State, a: Action)
    requires Shape(s) && Enabled(c, s, a) && Mover(s, a).Some? && !a.Cancel? && !a.RunStep? && !a.FireStep?
    ensures Or(HeldOpt(NewTask(c, s, a))) == Or(HeldOpt(Look(s.tasks, Mover(s, a).value)))
  {
    assert ShapeAt(s.tasks, s.next, Mover(s, a).value);
  }

  lemma StepMoves(c: Config, s: State, a: Action, k: TaskId)
    requires Shape(s) && Enabled(c, s, a) && Mover(s, a) == Some(k)
    ensures ResourceMove(s.res, NextResources(c, s, a), k, At(HoldingsOf(s.tasks), k), Or(HeldOpt(NewTask(c, s, a))))
  {
    assert ShapeAt(s.tasks, s.next, k);
    match a {
      case Cancel(_) => CancelMoves(c, s, k);
      case RunStep(_, op) => RunMoves(s.res, k, s.tasks[k], op);
      case FireStep(_, op) => FireMoves(s.res, s.db, k, s.tasks[k], op);
      case _ => OtherMoves(c, s, a);
    }
  }

  lemma ExclusiveStep(c: Config, s: State, a: Action)
    requires Shape(s) && Exclusive(c, HoldingsOf(s.tasks), s.res) && Enabled(c, s, a)
    ensures Exclusive(c, HoldingsOf(NextTasks(c, s, a)), NextResources(c, s, a))
  {
    if Mover(s, a).Some? {
      var k, t := Mover(s, a).value, NewTask(c, s, a);
      StepMoves(c, s, a, k);
      HoldingsPut(s.tasks, k, t);
      ExclusiveMove(c, HoldingsOf(s.tasks), s.res, NextResources(c, s, a), k, HeldOpt(t));
      assert NextTasks(c, s, a) == Put(s.tasks, k, t);
    }
  }
}
