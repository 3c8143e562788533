/**
 The concurrent execution system of the server as one transition system.

 Three sources feed it: queued invocations (dispatcher -> bounded global channel -> drain
 loop -> per-tenant FIFO lane -> lane worker), synchronous invocations (`run_one` called
 directly) and cron fires (overlap marker -> per-tenant gate -> global cron permit ->
 fire-time re-read -> dispatch, which for a function target enters the same `run_one`).

 Every atomic operation of the source (an atomic counter update, a channel send or receive,
 a lock or permit acquisition, a release, one database read) is one `Action`. Interleaving
 is arbitrary: a run is any list of enabled actions.

 A caller may go away at any of its suspension points: the future of a manual enqueue or of a
 synchronous run is dropped, and with it the guards it holds (`Cancel`).
 */
module EngineModel {

  type Tenant = string

  datatype Option<+T> = None | Some(value: T)

  /** One queued invocation; `payload` stands for function name, trigger, event and caller. */
  datatype Invocation = Invocation(tenant: Tenant, payload: nat)

  /** A `_system_cron_jobs` row as the fire-time read sees it. */
  datatype TargetKind = FunctionTarget | RpcTarget | UnknownTarget
  datatype JobRow = JobRow(id: int, name: string, schedule: string, active: bool, kind: TargetKind, payload: nat)

  /** The part of an index entry that a fire carries and later compares. */
  datatype IndexedJob = IndexedJob(id: int, name: string, schedule: string)

  datatype FireInfo = FireInfo(tenant: Tenant, job: IndexedJob, minute: int)

  /** Where a task stands inside `Executor::run_one`. */
  datatype RunPhase =
    | WantLock     // waiting for the tenant lock
    | WantPermit   // holds the tenant lock, waiting for the global permit
    | Executing    // holds lock and permit
    | Releasing    // permit dropped, lock still held

  /** Where a task stands inside `run_due_job`. `Unwind(n, ..)` drops the guards in reverse
      order of acquisition: 3 = permit, gate and marker held, 2 = gate and marker, 1 = marker. */
  datatype FireStage =
    | Arrived
    | AtOverlap
    | Skipping
    | WantGate
    | WantCronPermit
    | Reassert
    | Calling(row: JobRow, run: RunPhase)
    | Rpc(row: JobRow)
    | Recording(row: JobRow)
    | Unwind(level: nat, outcome: Outcome)

  datatype Outcome = Gone | SkippedOverlap | ReassertFailed | Dispatched(row: JobRow)

  datatype Task =
    | EnqNew(inv: Invocation)        // about to count itself
    | EnqRejecting(inv: Invocation)  // counted, found the cap reached
    | EnqDropping(inv: Invocation)   // uncounted again, drop not yet recorded
    | EnqSending(inv: Invocation)    // counted and accepted, waiting for channel capacity
    | LaneIdle(lane: seq<Invocation>)
    | LaneRun(lane: seq<Invocation>, inv: Invocation, run: RunPhase)
    | LaneDecrement(lane: seq<Invocation>, inv: Invocation)
    | SyncRun(tenant: Tenant, run: RunPhase)
    | CronFire(fire: FireInfo, stage: FireStage)

  datatype TaskId = Enq(n: nat) | Worker(t: Tenant) | Sync(n: nat) | Fire(n: nat)

  type Tasks = map<TaskId, Task>

  /** `permits` and `cronPermits` are clamped to at least 1 by the source
      (`cfg.concurrency.max(1)`), and a bounded channel has capacity at least 1. `due` is
      `schedule::is_due`, a library predicate about which nothing is assumed. */
  datatype Config = Config(cap: nat, channel: nat, permits: nat, cronPermits: nat, due: (string, int) -> bool) {
    predicate Valid() { channel >= 1 && permits >= 1 && cronPermits >= 1 }
  }

  /** The global channel: `hand` is what the drain loop received and has not routed yet;
      `stranded` is what sat in the channel when its receiver went away. */
  datatype Channel = Channel(queue: seq<Invocation>, hand: Option<Invocation>, receiverUp: bool, stranded: seq<Invocation>)

  /** Executor.tenant_locks and .semaphore; CronDeps.tenant_gate, .permits and .in_flight. */
  datatype Resources = Resources(
    lockOwner: map<Tenant, TaskId>,
    permits: nat,
    gateOwner: map<Tenant, TaskId>,
    cronPermits: nat,
    inFlight: set<(Tenant, int)>)

  /** The minute loop: last dispatched minute, and the due fires it has yet to spawn. */
  datatype MinuteLoop = MinuteLoop(lastFired: Option<int>, toSpawn: seq<FireInfo>)

  /** A fire that the minute loop has spawned, as the task `id`. */
  datatype Spawn = Spawn(id: TaskId, fire: FireInfo)

  /** What happened so far, in order. `dropped_total` is `|dropped|`; `abandoned` is what an
      accepted enqueue still had in hand when its caller went away. */
  datatype Log = Log(
    offered: seq<Invocation>,
    dropped: seq<Invocation>,
    lost: seq<Invocation>,
    abandoned: seq<Invocation>,
    sent: seq<Invocation>,
    finished: seq<Invocation>,
    spawned: seq<Spawn>,
    outcomes: map<TaskId, Outcome>)

  datatype State = State(
    next: nat,                          // fresh task numbers
    tasks: Tasks,
    depth: map<Tenant, nat>,
    chan: Channel,
    res: Resources,
    loop: MinuteLoop,
    db: map<Tenant, map<string, JobRow>>,
    log: Log)

  /** The atomic steps of `enqueue`. */
  datatype EnqOp = Count | Reject | Drop | Send | SendFail

  /** The atomic steps of `run_one`. */
  datatype RunOp = AcquireLock | AcquirePermit | Finish | ReleaseLock

  /** The atomic steps of `run_due_job` outside `run_one`. */
  datatype FireOp = CheckLive(alive: bool) | CheckOverlap | RecordSkip | TakeGate | TakePermit | Reread(ok: bool) | RunRpc | RecordRun | DropGuard

  datatype Action =
    // environment: new work, callers that go away, the clock, database writers, loss of the
    // channel receiver
    | Offer(inv: Invocation)
    | Invoke(tenant: Tenant)
    | Cancel(k: TaskId)
    | Tick(now: int, snapshot: seq<(Tenant, seq<IndexedJob>)>)
    | DbWrite(tenant: Tenant, rows: map<string, JobRow>)
    | CloseReceiver
    // the system's own steps
    | EnqStep(k: TaskId, enq: EnqOp)
    | Recv
    | Route
    | LaneTake(k: TaskId)
    | RunStep(k: TaskId, run: RunOp)
    | Decrement(k: TaskId)
    | SpawnFire
    | FireStep(k: TaskId, op: FireOp)

  predicate Internal(a: Action) {
    !(a.Offer? || a.Invoke? || a.Cancel? || a.Tick? || a.DbWrite? || a.CloseReceiver?)
  }

  function Init(c: Config): State {
    State(0, map[], map[], Channel([], None, true, []), Resources(map[], c.permits, map[], c.cronPermits, {}),
          MinuteLoop(None, []), map[], Log([], [], [], [], [], [], [], map[]))
  }

  // ---------------------------------------------------------------- schedule math

  const NANOS_PER_MINUTE: int := 60_000_000_000

  /** `next_minute`: truncate to the minute and advance by one (a timestamp is nanoseconds
      since the epoch; Euclidean division truncates towards minus infinity, as calendar
      truncation does). */
  function NextMinute(now: int): int { (now / NANOS_PER_MINUTE + 1) * NANOS_PER_MINUTE }

  predicate ShouldFire(last: Option<int>, minute: int) { last.None? || minute > last.value }

  function DueOfTenant(due: (string, int) -> bool, t: Tenant, jobs: seq<IndexedJob>, minute: int): seq<FireInfo> {
    if jobs == [] then []
    else (if due(jobs[0].schedule, minute) then [FireInfo(t, jobs[0], minute)] else [])
         + DueOfTenant(due, t, jobs[1..], minute)
  }

  function CollectDue(due: (string, int) -> bool, snapshot: seq<(Tenant, seq<IndexedJob>)>, minute: int): seq<FireInfo> {
    if snapshot == [] then []
    else DueOfTenant(due, snapshot[0].0, snapshot[0].1, minute) + CollectDue(due, snapshot[1..], minute)
  }

  /** An index snapshot lists each tenant once (it is read off a map), and a tenant's jobs
      carry distinct ids (they were read off a primary key). Nothing else is assumed of it. */
  predicate DistinctSnapshot(snapshot: seq<(Tenant, seq<IndexedJob>)>) {
    && (forall i, j :: 0 <= i < j < |snapshot| ==> snapshot[i].0 != snapshot[j].0)
    && (forall i :: 0 <= i < |snapshot| ==> DistinctIds(snapshot[i].1))
  }

  predicate DistinctIds(jobs: seq<IndexedJob>) {
    forall i, j :: 0 <= i < j < |jobs| ==> jobs[i].id != jobs[j].id
  }

  // ---------------------------------------------------------------- views of a task

  function RunOf(t: Task): Option<(Tenant, RunPhase)> {
    match t
    case LaneRun(_, inv, run) => Some((inv.tenant, run))
    case SyncRun(tenant, run) => Some((tenant, run))
    case CronFire(fire, Calling(_, run)) => Some((fire.tenant, run))
    case _ => None
  }

  function WithRun(t: Task, run: RunPhase): Task
    requires RunOf(t).Some?
  {
    match t
    case LaneRun(lane, inv, _) => LaneRun(lane, inv, run)
    case SyncRun(tenant, _) => SyncRun(tenant, run)
    case CronFire(fire, Calling(row, _)) => CronFire(fire, Calling(row, run))
  }

  predicate InRun(t: Task, run: RunPhase) { RunOf(t).Some? && RunOf(t).value.1 == run }

  function MarkKey(f: FireInfo): (Tenant, int) { (f.tenant, f.job.id) }

  function DepthOf(depth: map<Tenant, nat>, t: Tenant): nat { if t in depth then depth[t] else 0 }

  const USIZE_MAX: nat := 0xffff_ffff_ffff_ffff

  /** `fetch_sub(1)` on an `AtomicUsize`: wraps below zero. */
  function FetchSub(n: nat): nat { if n == 0 then USIZE_MAX else n - 1 }

  /** `fetch_update(|v| v.checked_sub(1))`: zero stays zero. */
  function Saturating(n: nat): nat { if n == 0 then 0 else n - 1 }

  /** The fire-time read of the fresh row: present, same id, active, same schedule. */
  predicate Reasserts(db: map<Tenant, map<string, JobRow>>, f: FireInfo) {
    f.tenant in db && f.job.name in db[f.tenant] &&
    var row := db[f.tenant][f.job.name];
    row.id == f.job.id && row.active && row.schedule == f.job.schedule
  }

  function StageForRow(row: JobRow): FireStage {
    match row.kind
    case FunctionTarget => Calling(row, WantLock)
    case RpcTarget => Rpc(row)
    case UnknownTarget => Recording(row)
  }

  // ---------------------------------------------------------------- transitions
  //
  // An action is described component by component: what becomes of the one task it moves,
  // of the depth counters, of the channel, of the locks and permits, of the minute loop, and
  // what it adds to the log. A component an action does not mention is left unchanged.

  predicate EnqEnabled(c: Config, ch: Channel, t: Task, op: EnqOp) {
    match op
    case Count => t.EnqNew?
    case Reject => t.EnqRejecting?
    case Drop => t.EnqDropping?
    case Send => t.EnqSending? && ch.receiverUp && |ch.queue| < c.channel
    case SendFail => t.EnqSending? && !ch.receiverUp
  }

  predicate RunEnabled(r: Resources, t: Task, op: RunOp) {
    match op
    case AcquireLock => InRun(t, WantLock) && RunOf(t).value.0 !in r.lockOwner
    case AcquirePermit => InRun(t, WantPermit) && r.permits > 0
    case Finish => InRun(t, Executing)
    case ReleaseLock => InRun(t, Releasing)
  }

  predicate FireEnabled(r: Resources, t: Task, op: FireOp) {
    t.CronFire? &&
    match op
    case CheckLive(_) => t.stage.Arrived?
    case CheckOverlap => t.stage.AtOverlap?
    case RecordSkip => t.stage.Skipping?
    case TakeGate => t.stage.WantGate? && t.fire.tenant !in r.gateOwner
    case TakePermit => t.stage.WantCronPermit? && r.cronPermits > 0
    case Reread(_) => t.stage.Reassert?
    case RunRpc => t.stage.Rpc?
    case RecordRun => t.stage.Recording?
    case DropGuard => t.stage.Unwind?
  }

  /** A caller waits for the channel, or for the lock, the permit or the end of its run. */
  predicate Cancellable(t: Task) { t.EnqSending? || (t.SyncRun? && !t.run.Releasing?) }

  predicate Enabled(c: Config, s: State, a: Action) {
    match a
    case Offer(_) => true
    case Invoke(_) => true
    case Cancel(k) => k in s.tasks && Cancellable(s.tasks[k])
    case Tick(_, snapshot) => s.loop.toSpawn == [] && DistinctSnapshot(snapshot)
    case DbWrite(_, _) => true
    case CloseReceiver => s.chan.receiverUp && s.chan.hand.None?
    case EnqStep(k, op) => k in s.tasks && EnqEnabled(c, s.chan, s.tasks[k], op)
    case Recv => s.chan.receiverUp && s.chan.hand.None? && s.chan.queue != []
    case Route => s.chan.hand.Some?
    case LaneTake(k) => k in s.tasks && s.tasks[k].LaneIdle? && s.tasks[k].lane != []
    case RunStep(k, op) => k in s.tasks && RunEnabled(s.res, s.tasks[k], op)
    case Decrement(k) => k in s.tasks && s.tasks[k].LaneDecrement?
    case SpawnFire => s.loop.toSpawn != []
    case FireStep(k, op) => k in s.tasks && FireEnabled(s.res, s.tasks[k], op)
  }

  /** `enqueue`: fetch_add, then the cap decides on the previous value. */
  function EnqNext(c: Config, depth: nat, t: Task, op: EnqOp): Option<Task>
    requires t.EnqNew? || t.EnqRejecting? || t.EnqDropping? || t.EnqSending?
  {
    match op
    case Count => Some(if depth >= c.cap then EnqRejecting(t.inv) else EnqSending(t.inv))
    case Reject => Some(EnqDropping(t.inv))
    case _ => None
  }

  /** `run_one`. At its end the lane worker goes on to decrement, a synchronous caller is
      done, a cron fire goes on to record its outcome. */
  function RunNext(t: Task, op: RunOp): Option<Task>
    requires RunOf(t).Some?
  {
    match op
    case AcquireLock => Some(WithRun(t, WantPermit))
    case AcquirePermit => Some(WithRun(t, Executing))
    case Finish => Some(WithRun(t, Releasing))
    case ReleaseLock =>
      match t
      case LaneRun(lane, inv, _) => Some(LaneDecrement(lane, inv))
      case CronFire(fire, Calling(row, _)) => Some(CronFire(fire, Recording(row)))
      case SyncRun(_, _) => None
  }

  /** `run_due_job`: the stage a fire moves to; `None` when the fire ends. */
  function FireNext(r: Resources, db: map<Tenant, map<string, JobRow>>, f: FireInfo, stage: FireStage, op: FireOp): Option<FireStage> {
    match op
    case CheckLive(alive) => if alive then Some(AtOverlap) else None
    case CheckOverlap => Some(if MarkKey(f) in r.inFlight then Skipping else WantGate)
    case RecordSkip => None
    case TakeGate => Some(WantCronPermit)
    case TakePermit => Some(Reassert)
    case Reread(ok) =>
      Some(if ok && Reasserts(db, f) then StageForRow(db[f.tenant][f.job.name]) else Unwind(3, ReassertFailed))
    case RunRpc => if stage.Rpc? then Some(Recording(stage.row)) else None
    case RecordRun => if stage.Recording? then Some(Unwind(3, Dispatched(stage.row))) else None
    case DropGuard => if stage.Unwind? && stage.level >= 2 then Some(Unwind(stage.level - 1, stage.outcome)) else None
  }

  /** A dropped future: a sender is gone, its slot still counted; a run that holds anything
      drops the permit (if it has one) and is left with the lock to release. */
  function CancelNext(t: Task): Option<Task> {
    if t.SyncRun? && !t.run.WantLock? then Some(SyncRun(t.tenant, Releasing)) else None
  }

  function PushLane(t: Task, inv: Invocation): Task {
    match t
    case LaneIdle(lane) => LaneIdle(lane + [inv])
    case LaneRun(lane, i, r) => LaneRun(lane + [inv], i, r)
    case LaneDecrement(lane, i) => LaneDecrement(lane + [inv], i)
    case _ => t
  }

  /** The one task an action moves or creates. */
  function Mover(s: State, a: Action): Option<TaskId> {
    match a
    case Offer(_) => Some(Enq(s.next))
    case Invoke(_) => Some(Sync(s.next))
    case SpawnFire => Some(Fire(s.next))
    case Route => if s.chan.hand.Some? then Some(Worker(s.chan.hand.value.tenant)) else None
    case Cancel(k) => Some(k)
    case EnqStep(k, _) => Some(k)
    case LaneTake(k) => Some(k)
    case RunStep(k, _) => Some(k)
    case Decrement(k) => Some(k)
    case FireStep(k, _) => Some(k)
    case _ => None
  }

  /** What becomes of the moved task; `None` when it ends. */
  function NewTask(c: Config, s: State, a: Action): Option<Task>
    requires Enabled(c, s, a)
  {
    match a
    case Offer(inv) => Some(EnqNew(inv))
    case Invoke(t) => Some(SyncRun(t, WantLock))
    case Cancel(k) => CancelNext(s.tasks[k])
    case EnqStep(k, op) => EnqNext(c, DepthOf(s.depth, s.tasks[k].inv.tenant), s.tasks[k], op)
    case Route =>
      // the lane worker is created on first use
      var w := Worker(s.chan.hand.value.tenant);
      Some(PushLane(if w in s.tasks then s.tasks[w] else LaneIdle([]), s.chan.hand.value))
    case LaneTake(k) => Some(LaneRun(s.tasks[k].lane[1..], s.tasks[k].lane[0], WantLock))
    case RunStep(k, op) => RunNext(s.tasks[k], op)
    case Decrement(k) => Some(LaneIdle(s.tasks[k].lane))
    case SpawnFire => Some(CronFire(s.loop.toSpawn[0], Arrived))
    case FireStep(k, op) =>
      var f := s.tasks[k].fire;
      var stage := FireNext(s.res, s.db, f, s.tasks[k].stage, op);
      if stage.Some? then Some(CronFire(f, stage.value)) else None
    case _ => None
  }

  function NextTasks(c: Config, s: State, a: Action): Tasks
    requires Enabled(c, s, a)
  {
    if Mover(s, a).None? then s.tasks
    else if NewTask(c, s, a).Some? then s.tasks[Mover(s, a).value := NewTask(c, s, a).value]
    else s.tasks - {Mover(s, a).value}
  }

  function NextDepth(c: Config, s: State, a: Action): map<Tenant, nat>
    requires Enabled(c, s, a)
  {
    match a
    case EnqStep(k, Count) => var t := s.tasks[k].inv.tenant; s.depth[t := DepthOf(s.depth, t) + 1]
    case EnqStep(k, Reject) => var t := s.tasks[k].inv.tenant; s.depth[t := FetchSub(DepthOf(s.depth, t))]
    case EnqStep(k, SendFail) => var t := s.tasks[k].inv.tenant; s.depth[t := FetchSub(DepthOf(s.depth, t))]
    case Decrement(k) => var t := s.tasks[k].inv.tenant; s.depth[t := Saturating(DepthOf(s.depth, t))]
    case _ => s.depth
  }

  function NextChannel(c: Config, s: State, a: Action): Channel
    requires Enabled(c, s, a)
  {
    match a
    case EnqStep(k, Send) => s.chan.(queue := s.chan.queue + [s.tasks[k].inv])
    case Recv => s.chan.(hand := Some(s.chan.queue[0]), queue := s.chan.queue[1..])
    case Route => s.chan.(hand := None)
    case CloseReceiver => s.chan.(receiverUp := false, stranded := s.chan.queue, queue := [])
    case _ => s.chan
  }

  function RunResources(r: Resources, k: TaskId, t: Task, op: RunOp): Resources
    requires RunEnabled(r, t, op)
  {
    match op
    case AcquireLock => r.(lockOwner := r.lockOwner[RunOf(t).value.0 := k])
    case AcquirePermit => r.(permits := r.permits - 1)
    case Finish => r.(permits := r.permits + 1)
    case ReleaseLock => r.(lockOwner := r.lockOwner - {RunOf(t).value.0})
  }

  /** Guards drop in reverse order of acquisition: permit (3), gate (2), marker (1). */
  function FireResources(r: Resources, k: TaskId, t: Task, op: FireOp): Resources
    requires FireEnabled(r, t, op)
  {
    match op
    case CheckOverlap => r.(inFlight := r.inFlight + {MarkKey(t.fire)})
    case TakeGate => r.(gateOwner := r.gateOwner[t.fire.tenant := k])
    case TakePermit => r.(cronPermits := r.cronPermits - 1)
    case DropGuard =>
      if t.stage.level >= 3 then r.(cronPermits := r.cronPermits + 1)
      else if t.stage.level == 2 then r.(gateOwner := r.gateOwner - {t.fire.tenant})
      else r.(inFlight := r.inFlight - {MarkKey(t.fire)})
    case _ => r
  }

  function NextResources(c: Config, s: State, a: Action): Resources
    requires Enabled(c, s, a)
  {
    match a
    case Cancel(k) => if InRun(s.tasks[k], Executing) then s.res.(permits := s.res.permits + 1) else s.res
    case RunStep(k, op) => RunResources(s.res, k, s.tasks[k], op)
    case FireStep(k, op) => FireResources(s.res, k, s.tasks[k], op)
    case _ => s.res
  }

  function NextLoop(c: Config, s: State, a: Action): MinuteLoop
    requires Enabled(c, s, a)
  {
    match a
    case Tick(now, snapshot) =>
      var minute := NextMinute(now);
      if ShouldFire(s.loop.lastFired, minute) then MinuteLoop(Some(minute), CollectDue(c.due, snapshot, minute)) else s.loop
    case SpawnFire => s.loop.(toSpawn := s.loop.toSpawn[1..])
    case _ => s.loop
  }

  /** The outcome with which a fire ends in this step. */
  function EndsWith(t: Task, op: FireOp): Option<Outcome> {
    match op
    case CheckLive(alive) => if alive then None else Some(Gone)
    case RecordSkip => Some(SkippedOverlap)
    case DropGuard => if t.CronFire? && t.stage.Unwind? && t.stage.level <= 1 then Some(t.stage.outcome) else None
    case _ => None
  }

  function NextLog(c: Config, s: State, a: Action): Log
    requires Enabled(c, s, a)
  {
    match a
    case Offer(inv) => s.log.(offered := s.log.offered + [inv])
    case Cancel(k) => if s.tasks[k].EnqSending? then s.log.(abandoned := s.log.abandoned + [s.tasks[k].inv]) else s.log
    case EnqStep(k, Drop) => s.log.(dropped := s.log.dropped + [s.tasks[k].inv])
    case EnqStep(k, Send) => s.log.(sent := s.log.sent + [s.tasks[k].inv])
    case EnqStep(k, SendFail) => s.log.(lost := s.log.lost + [s.tasks[k].inv])
    case Decrement(k) => s.log.(finished := s.log.finished + [s.tasks[k].inv])
    case SpawnFire => s.log.(spawned := s.log.spawned + [Spawn(Fire(s.next), s.loop.toSpawn[0])])
    case FireStep(k, op) =>
      var o := EndsWith(s.tasks[k], op);
      if o.Some? then s.log.(outcomes := s.log.outcomes[k := o.value]) else s.log
    case _ => s.log
  }

  function Next(c: Config, s: State, a: Action): State
    requires Enabled(c, s, a)
  {
    State(
      if a.Offer? || a.Invoke? || a.SpawnFire? then s.next + 1 else s.next,
      NextTasks(c, s, a),
      NextDepth(c, s, a),
      NextChannel(c, s, a),
      NextResources(c, s, a),
      NextLoop(c, s, a),
      if a.DbWrite? then s.db[a.tenant := a.rows] else s.db,
      NextLog(c, s, a))
  }

  // ---------------------------------------------------------------- runs

  /** `acts` is a run from `s`: every action is enabled where it is taken. */
  ghost predicate IsRun(c: Config, s: State, acts: seq<Action>)
    decreases |acts|, 0
  {
    acts == [] || (IsRun(c, s, acts[..|acts| - 1]) && Enabled(c, After(c, s, acts[..|acts| - 1]), acts[|acts| - 1]))
  }

  ghost function After(c: Config, s: State, acts: seq<Action>): State
    requires IsRun(c, s, acts)
    decreases |acts|, 1
  {
    if acts == [] then s else Next(c, After(c, s, acts[..|acts| - 1]), acts[|acts| - 1])
  }

  lemma RunSnoc(c: Config, s: State, acts: seq<Action>, a: Action)
    requires IsRun(c, s, acts) && Enabled(c, After(c, s, acts), a)
    ensures IsRun(c, s, acts + [a]) && After(c, s, acts + [a]) == Next(c, After(c, s, acts), a)
  {
    var longer := acts + [a];
    assert longer[..|longer| - 1] == acts && longer[|longer| - 1] == a;
  }
}
