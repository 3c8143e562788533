/**
 The code of the execution system as whole methods, statement by statement in the order of
 the source, upon fields that every task shares. At each suspension point any number of
 arbitrary steps of all other tasks, of the clock, of database writers and of new work may
 happen (`Others`). Each method is proved to emit exactly its own task's actions, in order,
 inside a run of the transition system, and to stop before its end only where none of its own
 steps is possible; so what holds of all runs holds of this code. (A method tells the story of
 a caller that stays; any other caller may go away at any suspension point.)
 */
module EngineCode {
  import opened EngineModel
  import opened EngineSafety
  import opened EngineCron
  import opened EngineTheorems

  // ---------------------------------------------------------------- whose steps

  /** A task of its own, the drain loop of the channel, or the minute loop. */
  datatype Who = TheTask(k: TaskId) | TheDrain | TheMinute

  predicate Own(who: Who, a: Action) {
    match who
    case TheTask(k) => (a.Cancel? || a.EnqStep? || a.LaneTake? || a.RunStep? || a.Decrement? || a.FireStep?) && a.k == k
    case TheDrain => a.Recv? || a.Route?
    case TheMinute => a.Tick? || a.SpawnFire?
  }

  /** The steps of a run that are someone's own, in order. */
  ghost function Mine(who: Who, acts: seq<Action>): seq<Action> {
    if acts == [] then []
    else Mine(who, acts[..|acts| - 1]) + if Own(who, acts[|acts| - 1]) then [acts[|acts| - 1]] else []
  }

  lemma MineSnoc(who: Who, acts: seq<Action>, a: Action)
    ensures Mine(who, acts + [a]) == if Own(who, a) then Mine(who, acts) + [a] else Mine(who, acts)
  {
    assert (acts + [a])[..|acts + [a]| - 1] == acts;
  }

  /** The same task at the same place; a lane may have grown. */
  ghost predicate Grown(t: Task, t': Task) {
    match t
    case LaneIdle(lane) => t'.LaneIdle? && lane <= t'.lane
    case LaneRun(lane, inv, run) => t'.LaneRun? && t'.inv == inv && t'.run == run && lane <= t'.lane
    case LaneDecrement(lane, inv) => t'.LaneDecrement? && t'.inv == inv && lane <= t'.lane
    case _ => t' == t
  }

  lemma GrownTrans(t: Task, u: Task, v: Task)
    requires Grown(t, u) && Grown(u, v)
    ensures Grown(t, v)
  {
  }

  /** Nobody else moves a task. */
  lemma OthersKeepTask(c: Config, s: State, a: Action, k: TaskId)
    requires Shape(s) && Enabled(c, s, a) && !Own(TheTask(k), a) && k in s.tasks
    ensures k in NextTasks(c, s, a) && Grown(s.tasks[k], NextTasks(c, s, a)[k])
  {
    assert ShapeAt(s.tasks, s.next, k);
  }

  /** What someone relies on at a suspension point: its task, its hand, its list. */
  ghost predicate Kept(who: Who, s: State, s': State) {
    match who
    case TheTask(k) => k in s.tasks ==> k in s'.tasks && Grown(s.tasks[k], s'.tasks[k])
    case TheDrain => s'.chan.hand == s.chan.hand
    case TheMinute => s'.loop == s.loop && s'.log.spawned == s.log.spawned
  }

  lemma OthersKeep(c: Config, s: State, a: Action, who: Who)
    requires Shape(s) && Enabled(c, s, a) && !Own(who, a)
    ensures Kept(who, s, Next(c, s, a))
  {
    if who.TheTask? {
      if who.k in s.tasks { OthersKeepTask(c, s, a, who.k); }
    }
  }

  lemma KeptTrans(who: Who, s: State, t: State, u: State)
    requires Kept(who, s, t) && Kept(who, t, u)
    ensures Kept(who, s, u)
  {
    if who.TheTask? {
      if who.k in s.tasks { GrownTrans(s.tasks[who.k], t.tasks[who.k], u.tasks[who.k]); }
    }
  }

  lemma KeptSame(who: Who, s: State)
    ensures Kept(who, s, s)
  {
  }

  lemma SameRun(t: Task, t': Task)
    requires RunOf(t).Some? && Grown(t, t')
    ensures RunOf(t') == RunOf(t)
  {
  }

  /** What became of the task that was running as `t`, now that `run_one` has returned. */
  ghost predicate Returned(k: TaskId, t: Task, tasks: Tasks) {
    match t
    case LaneRun(lane, inv, _) => k in tasks && tasks[k].LaneDecrement? && tasks[k].inv == inv && lane <= tasks[k].lane
    case CronFire(fire, Calling(row, _)) => k in tasks && tasks[k] == CronFire(fire, Recording(row))
    case SyncRun(_, _) => k !in tasks
    case _ => true
  }

  lemma GrownRun(t: Task, t': Task, run: RunPhase)
    requires RunOf(t).Some? && Grown(t, t')
    ensures RunOf(t').Some? && Grown(WithRun(t, run), WithRun(t', run))
  {
  }

  lemma GrownReturned(k: TaskId, t: Task, t': Task, tasks: Tasks)
    requires RunOf(t).Some? && Grown(WithRun(t, Releasing), t') && Returned(k, t', tasks)
    ensures Returned(k, t, tasks)
  {
  }

  /** Task `k` is there, and none of its own steps is possible. */
  ghost predicate Stuck(c: Config, s: State, k: TaskId) {
    k in s.tasks && forall a :: Own(TheTask(k), a) && Internal(a) ==> !Enabled(c, s, a)
  }

  lemma StuckAtLock(c: Config, s: State, k: TaskId)
    requires k in s.tasks && InRun(s.tasks[k], WantLock) && RunOf(s.tasks[k]).value.0 in s.res.lockOwner
    ensures Stuck(c, s, k)
  {
  }

  lemma StuckAtPermit(c: Config, s: State, k: TaskId)
    requires k in s.tasks && InRun(s.tasks[k], WantPermit) && s.res.permits == 0
    ensures Stuck(c, s, k)
  {
  }

  lemma StuckAtGate(c: Config, s: State, k: TaskId)
    requires k in s.tasks && s.tasks[k].CronFire? && s.tasks[k].stage.WantGate? && s.tasks[k].fire.tenant in s.res.gateOwner
    ensures Stuck(c, s, k)
  {
  }

  lemma StuckAtCronPermit(c: Config, s: State, k: TaskId)
    requires k in s.tasks && s.tasks[k].CronFire? && s.tasks[k].stage.WantCronPermit? && s.res.cronPermits == 0
    ensures Stuck(c, s, k)
  {
  }

  lemma StuckAtLane(c: Config, s: State, k: TaskId)
    requires k in s.tasks && s.tasks[k] == LaneIdle([])
    ensures Stuck(c, s, k)
  {
  }

  // ---------------------------------------------------------------- the programs

  datatype EnqEnd = Dropped | Sent | Lost | StillSending

  /** The steps of `enqueue`, by how it ends. */
  function EnqProgram(k: TaskId, end: EnqEnd): seq<Action> {
    match end
    case Dropped => [EnqStep(k, Count), EnqStep(k, Reject), EnqStep(k, Drop)]
    case Sent => [EnqStep(k, Count), EnqStep(k, Send)]
    case Lost => [EnqStep(k, Count), EnqStep(k, SendFail)]
    case StillSending => [EnqStep(k, Count)]
  }

  /** The steps of `run_one`: lock, permit, run, unlock. */
  function RunProgram(k: TaskId): seq<Action> {
    [RunStep(k, AcquireLock), RunStep(k, AcquirePermit), RunStep(k, Finish), RunStep(k, ReleaseLock)]
  }

  /** What `enqueue` does after counting itself and being accepted. */
  function Sending(k: TaskId, end: EnqEnd): seq<Action> {
    match end
    case Sent => [EnqStep(k, Send)]
    case Lost => [EnqStep(k, SendFail)]
    case _ => []
  }

  lemma Two(m: seq<Action>, a: Action, b: Action)
    ensures m + [a] + [b] == m + [a, b]
  {
  }

  lemma Three(m: seq<Action>, a: Action, b: Action, d: Action)
    ensures m + [a] + [b] + [d] == m + [a, b, d]
  {
  }

  lemma Prepend(before: seq<Action>, a: Action, rest: seq<Action>)
    ensures before + [a] + rest == before + ([a] + rest)
  {
  }

  function Acquiring(k: TaskId, n: nat): seq<Action> {
    if n == 0 then [] else if n == 1 then [RunStep(k, AcquireLock)] else [RunStep(k, AcquireLock), RunStep(k, AcquirePermit)]
  }

  lemma RunPrefix(k: TaskId, before: seq<Action>, n: nat)
    requires n <= 2
    ensures before + Acquiring(k, n) == before + RunProgram(k)[..n]
    ensures (before + Acquiring(k, 2)) + [RunStep(k, Finish), RunStep(k, ReleaseLock)] == before + RunProgram(k)[..4]
  {
    assert Acquiring(k, n) == RunProgram(k)[..n] && Acquiring(k, 2) + [RunStep(k, Finish), RunStep(k, ReleaseLock)] == RunProgram(k)[..4];
  }

  /** How a fire goes: the ways through `run_due_job`. */
  datatype FirePath = GonePath | SkipPath | FailPath(ok: bool) | CallPath | RpcPath | UnknownPath

  function GateSteps(k: TaskId): seq<Action> {
    [FireStep(k, CheckLive(true)), FireStep(k, CheckOverlap), FireStep(k, TakeGate), FireStep(k, TakePermit)]
  }

  /** From the re-read to the recorded outcome. */
  function DispatchSteps(k: TaskId, path: FirePath): seq<Action> {
    match path
    case FailPath(ok) => [FireStep(k, Reread(ok))]
    case CallPath => [FireStep(k, Reread(true))] + RunProgram(k) + [FireStep(k, RecordRun)]
    case RpcPath => [FireStep(k, Reread(true)), FireStep(k, RunRpc), FireStep(k, RecordRun)]
    case _ => [FireStep(k, Reread(true)), FireStep(k, RecordRun)]
  }

  /** Permit, gate and marker are dropped in this order. */
  function UnwindSteps(k: TaskId): seq<Action> { [FireStep(k, DropGuard), FireStep(k, DropGuard), FireStep(k, DropGuard)] }

  function FireProgram(k: TaskId, path: FirePath): seq<Action> {
    match path
    case GonePath => [FireStep(k, CheckLive(false))]
    case SkipPath => [FireStep(k, CheckLive(true)), FireStep(k, CheckOverlap), FireStep(k, RecordSkip)]
    case _ => GateSteps(k) + DispatchSteps(k, path) + UnwindSteps(k)
  }

  /** `run_due_job` beyond the overlap gate. */
  predicate Beyond(path: FirePath) { !path.GonePath? && !path.SkipPath? }

  lemma EntrySteps(k: TaskId, m: seq<Action>)
    ensures m + [FireStep(k, CheckLive(true))] + [FireStep(k, CheckOverlap)] == m + GateSteps(k)[..2]
    ensures m + [FireStep(k, CheckLive(true))] + [FireStep(k, CheckOverlap), FireStep(k, RecordSkip)] == m + FireProgram(k, SkipPath)
  {
    assert GateSteps(k)[..2] == [FireStep(k, CheckLive(true)), FireStep(k, CheckOverlap)];
  }

  lemma CallSteps(k: TaskId, before: seq<Action>, n: nat)
    requires n <= 5
    ensures (before + [FireStep(k, Reread(true))]) + (RunProgram(k) + [FireStep(k, RecordRun)])[..n] == before + DispatchSteps(k, CallPath)[..n + 1]
  {
    var all := DispatchSteps(k, CallPath);
    assert all == [FireStep(k, Reread(true))] + (RunProgram(k) + [FireStep(k, RecordRun)]);
    assert all[..n + 1] == [FireStep(k, Reread(true))] + (RunProgram(k) + [FireStep(k, RecordRun)])[..n];
  }

  lemma DispatchedSteps(k: TaskId, m: seq<Action>)
    ensures (m + [FireStep(k, Reread(true))]) + [FireStep(k, RunRpc), FireStep(k, RecordRun)] == m + DispatchSteps(k, RpcPath)[..3]
    ensures (m + [FireStep(k, Reread(true))]) + [FireStep(k, RecordRun)] == m + DispatchSteps(k, UnknownPath)[..2]
  {
    assert DispatchSteps(k, RpcPath)[..3] == DispatchSteps(k, RpcPath) && DispatchSteps(k, UnknownPath)[..2] == DispatchSteps(k, UnknownPath);
  }

  lemma GatePrefix(k: TaskId, before: seq<Action>, n: nat, path: FirePath)
    requires n <= 2 && Beyond(path)
    ensures (before + GateSteps(k)[..2]) + GateSteps(k)[2..][..n] == before + FireProgram(k, path)[..2 + n]
    ensures (before + GateSteps(k)[..2]) + GateSteps(k)[2..][..2] == before + GateSteps(k)
  {
    assert FireProgram(k, path)[..2 + n] == GateSteps(k)[..2] + GateSteps(k)[2..][..n];
    assert GateSteps(k) == GateSteps(k)[..2] + GateSteps(k)[2..][..2];
  }

  lemma MiddlePrefix(before: seq<Action>, x: seq<Action>, y: seq<Action>, z: seq<Action>, n: nat)
    requires n <= |y|
    ensures (before + x) + y[..n] == before + (x + y + z)[..|x| + n]
    ensures (before + x) + y[..|y|] + z == before + (x + y + z)[..|x| + |y| + |z|]
  {
    assert (x + y + z)[..|x| + n] == x + y[..n];
    assert y[..|y|] == y && (x + y + z)[..|x| + |y| + |z|] == x + y + z;
  }

  lemma DispatchPrefix(k: TaskId, before: seq<Action>, n: nat, path: FirePath)
    requires n <= |DispatchSteps(k, path)| && Beyond(path)
    ensures |FireProgram(k, path)| == 4 + |DispatchSteps(k, path)| + 3
    ensures (before + GateSteps(k)) + DispatchSteps(k, path)[..n] == before + FireProgram(k, path)[..4 + n]
    ensures (before + GateSteps(k)) + DispatchSteps(k, path)[..|DispatchSteps(k, path)|] + UnwindSteps(k) ==
            before + FireProgram(k, path)[..4 + |DispatchSteps(k, path)| + 3]
  {
    MiddlePrefix(before, GateSteps(k), DispatchSteps(k, path), UnwindSteps(k), n);
  }

  /** The outcome a fire ends with on each path. */
  predicate EndsAs(path: FirePath, o: Outcome) {
    match path
    case GonePath => o.Gone?
    case SkipPath => o.SkippedOverlap?
    case FailPath(_) => o.ReassertFailed?
    case CallPath => o.Dispatched? && o.row.kind.FunctionTarget?
    case RpcPath => o.Dispatched? && o.row.kind.RpcTarget?
    case UnknownPath => o.Dispatched? && o.row.kind.UnknownTarget?
  }

  /** One turn of a lane worker. */
  function Turn(k: TaskId): seq<Action> { [LaneTake(k)] + RunProgram(k) + [Decrement(k)] }

  function Turns(k: TaskId, n: nat): seq<Action> { if n == 0 then [] else Turns(k, n - 1) + Turn(k) }

  function Drains(n: nat): seq<Action> { if n == 0 then [] else Drains(n - 1) + [Recv, Route] }

  function Spawns(n: nat): seq<Action> { if n == 0 then [] else Spawns(n - 1) + [SpawnFire] }

  lemma TurnPrefix(k: TaskId, m: seq<Action>, n: nat)
    requires n <= 4
    ensures (m + [LaneTake(k)]) + RunProgram(k)[..n] == m + Turn(k)[..n + 1]
    ensures (m + [LaneTake(k)]) + RunProgram(k)[..4] + [Decrement(k)] == m + Turn(k)[..6]
  {
    MiddlePrefix(m, [LaneTake(k)], RunProgram(k), [Decrement(k)], n);
    assert RunProgram(k)[..4] == RunProgram(k)[..|RunProgram(k)|];
  }

  lemma WholeTurn(k: TaskId, m: seq<Action>, full: nat)
    ensures (m + Turns(k, full)) + Turn(k)[..6] == m + Turns(k, full + 1) && Turn(k)[..0] == []
  {
    assert Turn(k)[..6] == Turn(k);
  }

  /** What was spawned, without the task numbers. */
  ghost function Fires(spawned: seq<Spawn>): seq<FireInfo> { seq(|spawned|, i requires 0 <= i < |spawned| => spawned[i].fire) }

  lemma FiresSnoc(before: seq<Spawn>, after: seq<Spawn>)
    requires |after| == |before| + 1 && before <= after
    ensures Fires(after) == Fires(before) + [after[|before|].fire]
  {
  }

  lemma WholeDrain(m: seq<Action>, n: nat)
    ensures (m + Drains(n)) + [Recv] + [Route] == m + Drains(n + 1)
  {
    Two(m + Drains(n), Recv, Route);
  }

  // ---------------------------------------------------------------- collect_due

  lemma DueNext(due: (string, int) -> bool, t: Tenant, jobs: seq<IndexedJob>, j: nat, minute: int, done: seq<FireInfo>)
    requires j < |jobs|
    ensures done + DueOfTenant(due, t, jobs[j..], minute) ==
            (if due(jobs[j].schedule, minute) then done + [FireInfo(t, jobs[j], minute)] else done) + DueOfTenant(due, t, jobs[j + 1..], minute)
  {
    assert jobs[j..][0] == jobs[j] && jobs[j..][1..] == jobs[j + 1..];
  }

  lemma CollectNext(due: (string, int) -> bool, snapshot: seq<(Tenant, seq<IndexedJob>)>, i: nat, minute: int, done: seq<FireInfo>)
    requires i < |snapshot|
    ensures done + CollectDue(due, snapshot[i..], minute) ==
            (done + DueOfTenant(due, snapshot[i].0, snapshot[i].1, minute)) + CollectDue(due, snapshot[i + 1..], minute)
  {
    assert snapshot[i..][0] == snapshot[i] && snapshot[i..][1..] == snapshot[i + 1..];
  }

  /** The inner loop of `collect_due`. */
  method AddDueJobs(due: (string, int) -> bool, t: Tenant, jobs: seq<IndexedJob>, minute: int, before: seq<FireInfo>) returns (fires: seq<FireInfo>)
    ensures fires == before + DueOfTenant(due, t, jobs, minute)
  {
    fires := before;
    assert jobs[0..] == jobs;
    for j := 0 to |jobs|
      invariant fires + DueOfTenant(due, t, jobs[j..], minute) == before + DueOfTenant(due, t, jobs, minute)
    {
      DueNext(due, t, jobs, j, minute, fires);
      if due(jobs[j].schedule, minute) {
        fires := fires + [FireInfo(t, jobs[j], minute)];
      }
    }
    assert jobs[|jobs|..] == [];
  }

  /** `collect_due`: the nested loops over a snapshot. */
  method CollectDueJobs(due: (string, int) -> bool, snapshot: seq<(Tenant, seq<IndexedJob>)>, minute: int) returns (fires: seq<FireInfo>)
    ensures fires == CollectDue(due, snapshot, minute) && ListsDue(due, snapshot, minute, fires)
  {
    CollectDueLists(due, snapshot, minute);
    fires := [];
    assert snapshot[0..] == snapshot;
    for i := 0 to |snapshot|
      invariant fires + CollectDue(due, snapshot[i..], minute) == CollectDue(due, snapshot, minute)
    {
      CollectNext(due, snapshot, i, minute, fires);
      fires := AddDueJobs(due, snapshot[i].0, snapshot[i].1, minute, fires);
    }
    assert snapshot[|snapshot|..] == [];
  }

  // ---------------------------------------------------------------- the shared state

  /** `ok` relates a history to the state it ends in: it holds at the start, every enabled action
      keeps it, and it admits no ill-formed state. The code is proved for every such relation;
      `RunEnds` is the one that says "the history is a run, and this is its last state". */
  ghost predicate Inductive(c: Config, ok: (seq<Action>, State) -> bool) {
    && ok([], Init(c))
    && (forall acts, s, a {:trigger ok(acts + [a], Next(c, s, a))} :: ok(acts, s) && Enabled(c, s, a) ==> ok(acts + [a], Next(c, s, a)))
    && (forall acts, s {:trigger ok(acts, s), Shape(s)} :: ok(acts, s) ==> Shape(s))
  }

  ghost function RunEnds(c: Config): (seq<Action>, State) -> bool {
    (acts, s) => IsRun(c, Init(c), acts) && After(c, Init(c), acts) == s
  }

  lemma RunEndsStep(c: Config, acts: seq<Action>, s: State, a: Action)
    requires RunEnds(c)(acts, s) && Enabled(c, s, a)
    ensures RunEnds(c)(acts + [a], Next(c, s, a))
  {
    RunSnoc(c, Init(c), acts, a);
  }

  lemma RunEndsShape(c: Config, acts: seq<Action>, s: State)
    requires RunEnds(c)(acts, s)
    ensures Shape(s)
  {
    InvInit(c);
    InvRun(c, Init(c), acts);
  }

  /** With this relation a valid engine stands at the end of a run, in a reachable state. */
  lemma RunEndsInductive(c: Config)
    ensures Inductive(c, RunEnds(c))
    ensures forall acts, s {:trigger RunEnds(c)(acts, s)} :: RunEnds(c)(acts, s) ==> Reachable(c, s)
  {
    var ok := RunEnds(c);
    assert IsRun(c, Init(c), []) && After(c, Init(c), []) == Init(c);
    forall acts, s, a {:trigger ok(acts + [a], Next(c, s, a))} | ok(acts, s) && Enabled(c, s, a)
      ensures ok(acts + [a], Next(c, s, a))
    {
      RunEndsStep(c, acts, s, a);
    }
    forall acts, s {:trigger ok(acts, s), Shape(s)} | ok(acts, s)
      ensures Shape(s)
    {
      RunEndsShape(c, acts, s);
    }
  }

  class Engine {
    const c: Config
    var next: nat
    var tasks: Tasks                             // where every task stands
    var depth: map<Tenant, nat>                  // per-tenant counters
    var chan: Channel                            // the global channel
    var res: Resources                           // locks, gates, permits, in-flight markers
    var loop: MinuteLoop
    var db: map<Tenant, map<string, JobRow>>
    var log: Log
    ghost var trace: seq<Action>                 // everything that has happened

    function View(): State
      reads this
    {
      State(next, tasks, depth, chan, res, loop, db, log)
    }

    ghost const ok: (seq<Action>, State) -> bool

    /** The recorded history leads to this state. */
    ghost predicate Valid()
      reads this
    {
      Inductive(c, ok) && ok(trace, View())
    }

    constructor (config: Config, ghost relation: (seq<Action>, State) -> bool)
      requires Inductive(config, relation)
      ensures c == config && ok == relation && Valid() && trace == []
    {
      c := config;
      ok := relation;
      next, tasks, depth := 0, map[], map[];
      chan := Channel([], None, true, []);
      res := Resources(map[], config.permits, map[], config.cronPermits, {});
      loop, db := MinuteLoop(None, []), map[];
      log := Log([], [], [], [], [], [], [], map[]);
      trace := [];
    }

    /** The field updates since `before` are the action `a`. */
    ghost method Note(before: State, a: Action)
      requires Inductive(c, ok) && ok(trace, before) && Enabled(c, before, a) && View() == Next(c, before, a)
      modifies this`trace
      ensures Valid() && trace == old(trace) + [a]
      ensures forall who :: Mine(who, trace) == if Own(who, a) then Mine(who, old(trace)) + [a] else Mine(who, old(trace))
    {
      assert ok(trace + [a], Next(c, before, a));
      trace := trace + [a];
      forall who
        ensures Mine(who, trace) == if Own(who, a) then Mine(who, old(trace)) + [a] else Mine(who, old(trace))
      {
        MineSnoc(who, old(trace), a);
      }
    }

    method Become(s: State)
      modifies this
      ensures View() == s && trace == old(trace)
    {
      next, tasks, depth, chan, res, loop, db, log := s.next, s.tasks, s.depth, s.chan, s.res, s.loop, s.db, s.log;
    }

    /** One step of somebody else. */
    method OneOther(who: Who, a: Action)
      requires Valid() && Enabled(c, View(), a) && !Own(who, a)
      modifies this
      ensures Valid() && Mine(who, trace) == Mine(who, old(trace)) && Kept(who, old(View()), View())
    {
      ghost var before := View();
      OthersKeep(c, before, a, who);
      Become(Next(c, View(), a));
      Note(before, a);
    }

    /** A suspension point of `who`: any number of arbitrary steps of everybody else. */
    method Others(who: Who)
      requires Valid()
      modifies this
      ensures Valid() && Mine(who, trace) == Mine(who, old(trace)) && Kept(who, old(View()), View())
    {
      var n: nat := *;
      KeptSame(who, View());
      while n > 0
        invariant Valid() && Mine(who, trace) == Mine(who, old(trace)) && Kept(who, old(View()), View())
        decreases n
      {
        var a: Action := *;
        if Enabled(c, View(), a) && !Own(who, a) {
          ghost var before := View();
          OneOther(who, a);
          KeptTrans(who, old(View()), before, View());
        }
        n := n - 1;
      }
    }

    /** What task `k` has done so far. */
    ghost function Steps(k: TaskId): seq<Action>
      reads this
    {
      Mine(TheTask(k), trace)
    }

    /** Task `k` waits here. */
    ghost predicate Blocked(k: TaskId)
      reads this
    {
      Stuck(c, View(), k)
    }

    /** A suspension point of task `k`. */
    method Suspend(k: TaskId)
      requires Valid() && k in tasks
      modifies this
      ensures Valid() && Steps(k) == old(Steps(k)) && k in tasks && Grown(old(tasks)[k], tasks[k])
    {
      Others(TheTask(k));
    }

    // ------------------------------------------------------------ dispatcher

    method BeginEnqueue(inv: Invocation) returns (k: TaskId)
      requires Valid()
      modifies this
      ensures Valid() && trace == old(trace) + [Offer(inv)] && Steps(k) == old(Steps(k))
      ensures k.Enq? && k in tasks && tasks[k] == EnqNew(inv)
    {
      ghost var before := View();
      k := Enq(next);
      tasks := tasks[k := EnqNew(inv)];
      next := next + 1;
      log := log.(offered := log.offered + [inv]);
      Note(before, Offer(inv));
    }

    /** `counter.fetch_add(1)` and the cap test on the previous value. */
    method FetchAdd(k: TaskId, inv: Invocation) returns (prev: nat)
      requires Valid() && k in tasks && tasks[k] == EnqNew(inv)
      modifies this
      ensures Valid() && Steps(k) == old(Steps(k)) + [EnqStep(k, Count)]
      ensures prev == DepthOf(old(depth), inv.tenant)
      ensures k in tasks && tasks[k] == if prev >= c.cap then EnqRejecting(inv) else EnqSending(inv)
    {
      ghost var before := View();
      prev := DepthOf(depth, inv.tenant);
      depth := depth[inv.tenant := prev + 1];
      tasks := tasks[k := if prev >= c.cap then EnqRejecting(inv) else EnqSending(inv)];
      Note(before, EnqStep(k, Count));
    }

    /** `counter.fetch_sub(1)` on the overflow path. */
    method GiveBack(k: TaskId, inv: Invocation)
      requires Valid() && k in tasks && tasks[k] == EnqRejecting(inv)
      modifies this
      ensures Valid() && Steps(k) == old(Steps(k)) + [EnqStep(k, Reject)]
      ensures k in tasks && tasks[k] == EnqDropping(inv)
    {
      ghost var before := View();
      depth := depth[inv.tenant := FetchSub(DepthOf(depth, inv.tenant))];
      tasks := tasks[k := EnqDropping(inv)];
      Note(before, EnqStep(k, Reject));
    }

    method CountDrop(k: TaskId, inv: Invocation)
      requires Valid() && k in tasks && tasks[k] == EnqDropping(inv)
      modifies this
      ensures Valid() && Steps(k) == old(Steps(k)) + [EnqStep(k, Drop)]
      ensures tasks == old(tasks) - {k}
    {
      ghost var before := View();
      log := log.(dropped := log.dropped + [inv]);
      tasks := tasks - {k};
      Note(before, EnqStep(k, Drop));
    }

    method PushToChannel(k: TaskId, inv: Invocation)
      requires Valid() && k in tasks && tasks[k] == EnqSending(inv) && chan.receiverUp && |chan.queue| < c.channel
      modifies this
      ensures Valid() && Steps(k) == old(Steps(k)) + [EnqStep(k, Send)]
      ensures tasks == old(tasks) - {k} && chan.queue == old(chan).queue + [inv]
    {
      ghost var before := View();
      chan := chan.(queue := chan.queue + [inv]);
      log := log.(sent := log.sent + [inv]);
      tasks := tasks - {k};
      Note(before, EnqStep(k, Send));
    }

    method LoseInvocation(k: TaskId, inv: Invocation)
      requires Valid() && k in tasks && tasks[k] == EnqSending(inv) && !chan.receiverUp
      modifies this
      ensures Valid() && Steps(k) == old(Steps(k)) + [EnqStep(k, SendFail)]
      ensures tasks == old(tasks) - {k}
    {
      ghost var before := View();
      depth := depth[inv.tenant := FetchSub(DepthOf(depth, inv.tenant))];
      log := log.(lost := log.lost + [inv]);
      tasks := tasks - {k};
      Note(before, EnqStep(k, SendFail));
    }

    /** The overflow path: give the slot back, count the drop. */
    method Overflow(k: TaskId, inv: Invocation)
      requires Valid() && k in tasks && tasks[k] == EnqRejecting(inv)
      modifies this
      ensures Valid() && Steps(k) == old(Steps(k)) + [EnqStep(k, Reject), EnqStep(k, Drop)] && k !in tasks
    {
      GiveBack(k, inv);
      Suspend(k);
      CountDrop(k, inv);
    }

    /** `tx.send(inv).await`: wait for capacity, or learn that the receiver is gone. */
    method SendAwait(k: TaskId, inv: Invocation) returns (end: EnqEnd)
      requires Valid() && k in tasks && tasks[k] == EnqSending(inv)
      modifies this
      ensures Valid() && !end.Dropped? && [EnqStep(k, Count)] + Sending(k, end) == EnqProgram(k, end) && Steps(k) == old(Steps(k)) + Sending(k, end)
      ensures if end.StillSending? then k in tasks && tasks[k] == EnqSending(inv) && chan.receiverUp && |chan.queue| >= c.channel else k !in tasks
    {
      Suspend(k);
      if !chan.receiverUp {
        LoseInvocation(k, inv);
        return Lost;
      }
      if |chan.queue| < c.channel {
        PushToChannel(k, inv);
        return Sent;
      }
      return StillSending;
    }

    /** The probe: the previous value decides between overflow and sending. */
    method CountAndSend(k: TaskId, inv: Invocation) returns (end: EnqEnd)
      requires Valid() && k in tasks && tasks[k] == EnqNew(inv)
      modifies this
      ensures Valid() && Steps(k) == old(Steps(k)) + EnqProgram(k, end)
      ensures if end.StillSending? then k in tasks && tasks[k] == EnqSending(inv) && chan.receiverUp && |chan.queue| >= c.channel else k !in tasks
      ensures end.Dropped? <==> DepthOf(old(depth), inv.tenant) >= c.cap
    {
      var prev := FetchAdd(k, inv);
      if prev >= c.cap {
        Suspend(k);
        Overflow(k, inv);
        end := Dropped;
        Prepend(old(Steps(k)), EnqStep(k, Count), [EnqStep(k, Reject), EnqStep(k, Drop)]);
      } else {
        end := SendAwait(k, inv);
        Prepend(old(Steps(k)), EnqStep(k, Count), Sending(k, end));
      }
    }

    /** `enqueue`: count, then reject and drop at the cap, or wait for the channel and send. */
    method Enqueue(inv: Invocation) returns (k: TaskId, end: EnqEnd)
      requires Valid()
      modifies this
      ensures Valid() && Steps(k) == Mine(TheTask(k), old(trace)) + EnqProgram(k, end)
      ensures if end.StillSending? then k in tasks && tasks[k] == EnqSending(inv) && chan.receiverUp && |chan.queue| >= c.channel else k !in tasks
    {
      k := BeginEnqueue(inv);
      Suspend(k);
      end := CountAndSend(k, inv);
    }

    // ------------------------------------------------------------ executor

    method TakeTenantLock(k: TaskId)
      requires Valid() && k in tasks && InRun(tasks[k], WantLock) && RunOf(tasks[k]).value.0 !in res.lockOwner
      modifies this
      ensures Valid() && Steps(k) == old(Steps(k)) + [RunStep(k, AcquireLock)]
      ensures tasks == old(tasks)[k := WithRun(old(tasks)[k], WantPermit)]
    {
      ghost var before := View();
      res := res.(lockOwner := res.lockOwner[RunOf(tasks[k]).value.0 := k]);
      tasks := tasks[k := WithRun(tasks[k], WantPermit)];
      Note(before, RunStep(k, AcquireLock));
    }

    method TakePermitOfExecutor(k: TaskId)
      requires Valid() && k in tasks && InRun(tasks[k], WantPermit) && res.permits > 0
      modifies this
      ensures Valid() && Steps(k) == old(Steps(k)) + [RunStep(k, AcquirePermit)]
      ensures tasks == old(tasks)[k := WithRun(old(tasks)[k], Executing)]
    {
      ghost var before := View();
      res := res.(permits := res.permits - 1);
      tasks := tasks[k := WithRun(tasks[k], Executing)];
      Note(before, RunStep(k, AcquirePermit));
    }

    /** The run is over and recorded; the permit guard drops first. */
    method DropPermit(k: TaskId)
      requires Valid() && k in tasks && InRun(tasks[k], Executing)
      modifies this
      ensures Valid() && Steps(k) == old(Steps(k)) + [RunStep(k, Finish)]
      ensures tasks == old(tasks)[k := WithRun(old(tasks)[k], Releasing)]
    {
      ghost var before := View();
      res := res.(permits := res.permits + 1);
      tasks := tasks[k := WithRun(tasks[k], Releasing)];
      Note(before, RunStep(k, Finish));
    }

    /** Then the lock guard; control goes back to the lane worker, the fire or the caller. */
    method DropTenantLock(k: TaskId)
      requires Valid() && k in tasks && InRun(tasks[k], Releasing)
      modifies this
      ensures Valid() && Steps(k) == old(Steps(k)) + [RunStep(k, ReleaseLock)]
      ensures Returned(k, old(tasks)[k], tasks)
    {
      ghost var before := View();
      var t := tasks[k];
      res := res.(lockOwner := res.lockOwner - {RunOf(t).value.0});
      if t.LaneRun? {
        tasks := tasks[k := LaneDecrement(t.lane, t.inv)];
      } else if t.CronFire? {
        tasks := tasks[k := CronFire(t.fire, Recording(t.stage.row))];
      } else {
        tasks := tasks - {k};
      }
      Note(before, RunStep(k, ReleaseLock));
    }

    /** First the tenant lock, then the global permit; `n` of the two were obtained. */
    method AcquireBoth(k: TaskId) returns (n: nat)
      requires Valid() && k in tasks && InRun(tasks[k], WantLock)
      modifies this
      ensures Valid() && n <= 2 && Steps(k) == old(Steps(k)) + Acquiring(k, n) && k in tasks
      ensures if n == 2 then Grown(WithRun(old(tasks)[k], Executing), tasks[k]) else Blocked(k)
    {
      ghost var t := tasks[k];
      Suspend(k);
      SameRun(t, tasks[k]);
      if RunOf(tasks[k]).value.0 in res.lockOwner {
        StuckAtLock(c, View(), k);
        return 0;
      }
      GrownRun(t, tasks[k], WantPermit);
      TakeTenantLock(k);
      ghost var locked := tasks[k];
      Suspend(k);
      SameRun(locked, tasks[k]);
      GrownTrans(WithRun(t, WantPermit), locked, tasks[k]);
      if res.permits == 0 {
        StuckAtPermit(c, View(), k);
        return 1;
      }
      GrownRun(WithRun(t, WantPermit), tasks[k], Executing);
      TakePermitOfExecutor(k);
      return 2;
    }

    /** The run itself, its log row, and both guards in reverse order. */
    method RunAndRelease(k: TaskId, ghost t: Task)
      requires Valid() && k in tasks && InRun(t, Executing) && Grown(t, tasks[k])
      modifies this
      ensures Valid() && Steps(k) == old(Steps(k)) + [RunStep(k, Finish), RunStep(k, ReleaseLock)] && Returned(k, t, tasks)
    {
      ghost var u := tasks[k];
      Suspend(k);
      GrownTrans(t, u, tasks[k]);
      SameRun(t, tasks[k]);
      GrownRun(t, tasks[k], Releasing);
      DropPermit(k);
      ghost var v := tasks[k];
      Suspend(k);
      GrownTrans(WithRun(t, Releasing), v, tasks[k]);
      SameRun(WithRun(t, Releasing), tasks[k]);
      ghost var w := tasks[k];
      DropTenantLock(k);
      GrownReturned(k, t, w, tasks);
    }

    /** `run_one`: tenant lock, then global permit, then the run, then both guards in reverse.
        `n` of the four steps are made; fewer than four only while it waits for lock or permit. */
    method RunOne(k: TaskId) returns (n: nat)
      requires Valid() && k in tasks && InRun(tasks[k], WantLock)
      modifies this
      ensures Valid() && (n == 0 || n == 1 || n == 4) && Steps(k) == old(Steps(k)) + RunProgram(k)[..n]
      ensures if n == 4 then Returned(k, old(tasks)[k], tasks) else Blocked(k)
    {
      ghost var t := tasks[k];
      n := AcquireBoth(k);
      RunPrefix(k, old(Steps(k)), n);
      if n == 2 {
        RunAndRelease(k, WithRun(t, Executing));
        n := 4;
      }
    }

    method TakeFromLane(k: TaskId)
      requires Valid() && k in tasks && tasks[k].LaneIdle? && tasks[k].lane != []
      modifies this
      ensures Valid() && Steps(k) == old(Steps(k)) + [LaneTake(k)]
      ensures k in tasks && tasks[k] == LaneRun(old(tasks)[k].lane[1..], old(tasks)[k].lane[0], WantLock)
    {
      ghost var before := View();
      var lane := tasks[k].lane;
      tasks := tasks[k := LaneRun(lane[1..], lane[0], WantLock)];
      Note(before, LaneTake(k));
    }

    /** `decrement_depth`: `fetch_update` with `checked_sub`, so zero stays zero. */
    method DecrementDepth(k: TaskId)
      requires Valid() && k in tasks && tasks[k].LaneDecrement?
      modifies this
      ensures Valid() && Steps(k) == old(Steps(k)) + [Decrement(k)]
      ensures k in tasks && tasks[k] == LaneIdle(old(tasks)[k].lane)
    {
      ghost var before := View();
      var inv := tasks[k].inv;
      var v := DepthOf(depth, inv.tenant);
      depth := depth[inv.tenant := if v >= 1 then v - 1 else v];
      log := log.(finished := log.finished + [inv]);
      tasks := tasks[k := LaneIdle(tasks[k].lane)];
      Note(before, Decrement(k));
    }

    /** One turn of a lane worker: take the head of the lane, run it, give its slot back; less
        than that only while it waits for an invocation, the lock or the permit. */
    method LaneTurn(k: TaskId) returns (n: nat)
      requires Valid() && k in tasks && tasks[k].LaneIdle?
      modifies this
      ensures Valid() && n <= 6 && Steps(k) == old(Steps(k)) + Turn(k)[..n]
      ensures if n == 6 then k in tasks && tasks[k].LaneIdle? else Blocked(k)
    {
      Suspend(k);
      if tasks[k].lane == [] {
        StuckAtLane(c, View(), k);
        return 0;
      }
      TakeFromLane(k);
      n := RunOne(k);
      TurnPrefix(k, old(Steps(k)), n);
      if n < 4 {
        return n + 1;
      }
      Suspend(k);
      DecrementDepth(k);
      return 6;
    }

    /** A lane worker for at most `rounds` turns: whole turns one after the other, and fewer only
        when the next one waits, of which it has then made the first `n` steps. */
    method LaneWorker(k: TaskId, rounds: nat) returns (full: nat, n: nat)
      requires Valid() && k in tasks && tasks[k].LaneIdle?
      modifies this
      ensures Valid() && full <= rounds && n < 6 && Steps(k) == old(Steps(k)) + Turns(k, full) + Turn(k)[..n]
      ensures if full == rounds then n == 0 && k in tasks && tasks[k].LaneIdle? else Blocked(k)
    {
      full, n := 0, 0;
      while full < rounds
        invariant Valid() && full <= rounds && k in tasks && tasks[k].LaneIdle? && n == 0
        invariant Steps(k) == old(Steps(k)) + Turns(k, full)
        decreases rounds - full
      {
        n := LaneTurn(k);
        WholeTurn(k, old(Steps(k)), full);
        if n < 6 {
          return full, n;
        }
        full, n := full + 1, 0;
      }
    }

    // ------------------------------------------------------------ the drain loop

    method Receive()
      requires Valid() && chan.receiverUp && chan.hand.None? && chan.queue != []
      modifies this
      ensures Valid() && Mine(TheDrain, trace) == Mine(TheDrain, old(trace)) + [Recv]
      ensures chan.hand == Some(old(chan).queue[0])
    {
      ghost var before := View();
      chan := chan.(hand := Some(chan.queue[0]), queue := chan.queue[1..]);
      Note(before, Recv);
    }

    /** `route_to_lane`: lane and worker come into being on first use; never waits. */
    method RouteToLane(inv: Invocation)
      requires Valid() && chan.hand == Some(inv)
      modifies this
      ensures Valid() && Mine(TheDrain, trace) == Mine(TheDrain, old(trace)) + [Route]
      ensures chan.hand.None? && Worker(inv.tenant) in tasks
    {
      ghost var before := View();
      var worker := Worker(inv.tenant);
      if worker !in tasks {
        tasks := tasks[worker := LaneIdle([])];
      }
      tasks := tasks[worker := PushLane(tasks[worker], inv)];
      chan := chan.(hand := None);
      Note(before, Route);
    }

    /** `while let Some(inv) = rx.recv().await { route_to_lane(inv) }`, at most `rounds` times;
        fewer only when nothing is queued or the channel is closed. */
    method DrainLoop(rounds: nat) returns (n: nat)
      requires Valid() && chan.hand.None?
      modifies this
      ensures Valid() && n <= rounds && Mine(TheDrain, trace) == Mine(TheDrain, old(trace)) + Drains(n)
      ensures chan.hand.None? && (n < rounds ==> chan.queue == [] || !chan.receiverUp)
    {
      n := 0;
      while n < rounds
        invariant Valid() && n <= rounds && chan.hand.None?
        invariant Mine(TheDrain, trace) == Mine(TheDrain, old(trace)) + Drains(n)
        decreases rounds - n
      {
        Others(TheDrain);
        if !chan.receiverUp || chan.queue == [] {
          return;
        }
        Receive();
        var inv := chan.hand.value;
        Others(TheDrain);
        RouteToLane(inv);
        WholeDrain(Mine(TheDrain, old(trace)), n);
        n := n + 1;
      }
    }

    // ------------------------------------------------------------ the minute loop

    /** `tick_decision`: whether the minute is dispatched, recording it if so. */
    method TickDecision(last: Option<int>, minute: int) returns (fire: bool, now: Option<int>)
      ensures fire == ShouldFire(last, minute) && now == if fire then Some(minute) else last
    {
      if last.Some? && minute <= last.value {
        return false, last;
      }
      return true, Some(minute);
    }

    method TickMinute(now: int, snapshot: seq<(Tenant, seq<IndexedJob>)>)
      requires Valid() && loop.toSpawn == [] && DistinctSnapshot(snapshot)
      modifies this
      ensures Valid() && Mine(TheMinute, trace) == Mine(TheMinute, old(trace)) + [Tick(now, snapshot)]
      ensures loop == if ShouldFire(old(loop).lastFired, NextMinute(now))
                      then MinuteLoop(Some(NextMinute(now)), CollectDue(c.due, snapshot, NextMinute(now))) else old(loop)
      ensures log == old(log)
    {
      ghost var before := View();
      var fire, last := TickDecision(loop.lastFired, NextMinute(now));
      if fire {
        var due := CollectDueJobs(c.due, snapshot, NextMinute(now));
        loop := MinuteLoop(last, due);
      }
      Note(before, Tick(now, snapshot));
    }

    method SpawnNextFire()
      requires Valid() && loop.toSpawn != []
      modifies this
      ensures Valid() && Mine(TheMinute, trace) == Mine(TheMinute, old(trace)) + [SpawnFire]
      ensures loop == old(loop).(toSpawn := old(loop).toSpawn[1..])
      ensures |log.spawned| == |old(log).spawned| + 1 && old(log).spawned <= log.spawned
      ensures log.spawned[|old(log).spawned|].fire == old(loop).toSpawn[0]
    {
      ghost var before := View();
      tasks := tasks[Fire(next) := CronFire(loop.toSpawn[0], Arrived)];
      log := log.(spawned := log.spawned + [Spawn(Fire(next), loop.toSpawn[0])]);
      next := next + 1;
      loop := loop.(toSpawn := loop.toSpawn[1..]);
      Note(before, SpawnFire);
    }

    /** All that is due is spawned, one by one in order, and nothing else. */
    method SpawnAll() returns (n: nat)
      requires Valid()
      modifies this
      ensures Valid() && loop == old(loop).(toSpawn := []) && Mine(TheMinute, trace) == Mine(TheMinute, old(trace)) + Spawns(n)
      ensures |log.spawned| == |old(log).spawned| + n && Fires(log.spawned) == Fires(old(log).spawned) + old(loop).toSpawn
    {
      n := 0;
      while loop.toSpawn != []
        invariant Valid() && n + |loop.toSpawn| == |old(loop).toSpawn| && Mine(TheMinute, trace) == Mine(TheMinute, old(trace)) + Spawns(n)
        invariant loop == old(loop).(toSpawn := old(loop).toSpawn[n..]) && |log.spawned| == |old(log).spawned| + n
        invariant Fires(log.spawned) == Fires(old(log).spawned) + old(loop).toSpawn[..n]
        decreases |loop.toSpawn|
      {
        Others(TheMinute);
        ghost var before := log.spawned;
        SpawnNextFire();
        FiresSnoc(before, log.spawned);
        n := n + 1;
      }
    }

    /** One turn of the minute loop. It is for the first full minute after `now`. If that lies after
        the last dispatched minute, every job of the snapshot that is due at it is spawned, once, in
        order, for that minute, and the minute is recorded; nothing else is ever spawned. */
    method MinuteTurn(now: int, snapshot: seq<(Tenant, seq<IndexedJob>)>) returns (n: nat, ghost minute: int, ghost fires: seq<FireInfo>)
      requires Valid() && loop.toSpawn == [] && DistinctSnapshot(snapshot)
      modifies this
      ensures Valid() && Mine(TheMinute, trace) == Mine(TheMinute, old(trace)) + [Tick(now, snapshot)] + Spawns(n)
      ensures now < minute <= now + 60_000_000_000 && minute % 60_000_000_000 == 0
      ensures |fires| == n && Fires(log.spawned) == Fires(old(log).spawned) + fires
      ensures if old(loop).lastFired.Some? && minute <= old(loop).lastFired.value then fires == [] && loop == old(loop)
              else ListsDue(c.due, snapshot, minute, fires) && loop == MinuteLoop(Some(minute), [])
    {
      minute := NextMinute(now);
      NextMinuteIs(now);
      CollectDueLists(c.due, snapshot, minute);
      Others(TheMinute);
      TickMinute(now, snapshot);
      fires := loop.toSpawn;
      n := SpawnAll();
      assert fires[..|fires|] == fires;
    }

    // ------------------------------------------------------------ cron fires

    method TenantIsLive(k: TaskId, fire: FireInfo, alive: bool)
      requires Valid() && k in tasks && tasks[k] == CronFire(fire, Arrived)
      modifies this
      ensures Valid() && Steps(k) == old(Steps(k)) + [FireStep(k, CheckLive(alive))]
      ensures if alive then k in tasks && tasks[k] == CronFire(fire, AtOverlap) else Ended(k, Gone)
    {
      ghost var before := View();
      if alive {
        tasks := tasks[k := CronFire(fire, AtOverlap)];
      } else {
        log := log.(outcomes := log.outcomes[k := Gone]);
        tasks := tasks - {k};
      }
      Note(before, FireStep(k, CheckLive(alive)));
    }

    /** The fire is over, with this outcome. */
    ghost predicate Ended(k: TaskId, o: Outcome)
      reads this
    {
      k !in tasks && k in log.outcomes && log.outcomes[k] == o
    }

    /** The vacant or occupied entry of the in-flight map. */
    method OverlapGate(k: TaskId, fire: FireInfo) returns (inserted: bool)
      requires Valid() && k in tasks && tasks[k] == CronFire(fire, AtOverlap)
      modifies this
      ensures Valid() && Steps(k) == old(Steps(k)) + [FireStep(k, CheckOverlap)]
      ensures inserted <==> (fire.tenant, fire.job.id) !in old(res).inFlight
      ensures k in tasks && tasks[k] == CronFire(fire, if inserted then WantGate else Skipping)
    {
      ghost var before := View();
      inserted := MarkKey(fire) !in res.inFlight;
      if inserted {
        res := res.(inFlight := res.inFlight + {MarkKey(fire)});
        tasks := tasks[k := CronFire(fire, WantGate)];
      } else {
        assert res.inFlight + {MarkKey(fire)} == res.inFlight;
        tasks := tasks[k := CronFire(fire, Skipping)];
      }
      Note(before, FireStep(k, CheckOverlap));
    }

    method RecordSkipped(k: TaskId, fire: FireInfo)
      requires Valid() && k in tasks && tasks[k] == CronFire(fire, Skipping)
      modifies this
      ensures Valid() && Steps(k) == old(Steps(k)) + [FireStep(k, RecordSkip)] && Ended(k, SkippedOverlap)
    {
      ghost var before := View();
      log := log.(outcomes := log.outcomes[k := SkippedOverlap]);
      tasks := tasks - {k};
      Note(before, FireStep(k, RecordSkip));
    }

    method TakeTenantGate(k: TaskId, fire: FireInfo)
      requires Valid() && k in tasks && tasks[k] == CronFire(fire, WantGate) && fire.tenant !in res.gateOwner
      modifies this
      ensures Valid() && Steps(k) == old(Steps(k)) + [FireStep(k, TakeGate)]
      ensures k in tasks && tasks[k] == CronFire(fire, WantCronPermit)
    {
      ghost var before := View();
      res := res.(gateOwner := res.gateOwner[fire.tenant := k]);
      tasks := tasks[k := CronFire(fire, WantCronPermit)];
      Note(before, FireStep(k, TakeGate));
    }

    method TakeCronPermit(k: TaskId, fire: FireInfo)
      requires Valid() && k in tasks && tasks[k] == CronFire(fire, WantCronPermit) && res.cronPermits > 0
      modifies this
      ensures Valid() && Steps(k) == old(Steps(k)) + [FireStep(k, TakePermit)]
      ensures k in tasks && tasks[k] == CronFire(fire, Reassert)
    {
      ghost var before := View();
      res := res.(cronPermits := res.cronPermits - 1);
      tasks := tasks[k := CronFire(fire, Reassert)];
      Note(before, FireStep(k, TakePermit));
    }

    /** The fire-time re-read (`ok` is false when it fails), test by test. */
    method ReassertRow(k: TaskId, fire: FireInfo, ok: bool) returns (current: Option<JobRow>)
      requires Valid() && k in tasks && tasks[k] == CronFire(fire, Reassert)
      modifies this
      ensures Valid() && Steps(k) == old(Steps(k)) + [FireStep(k, Reread(ok))]
      ensures current.Some? <==> (ok && fire.tenant in old(db) && fire.job.name in old(db)[fire.tenant] &&
                                  (var row := old(db)[fire.tenant][fire.job.name];
                                   row.id == fire.job.id && row.active && row.schedule == fire.job.schedule))
      ensures current.Some? ==> current.value == old(db)[fire.tenant][fire.job.name]
      ensures k in tasks && tasks[k] == CronFire(fire, if current.Some? then StageForRow(current.value) else Unwind(3, ReassertFailed))
    {
      ghost var before := View();
      current := None;
      var stage := Unwind(3, ReassertFailed);
      if ok && fire.tenant in db && fire.job.name in db[fire.tenant] {
        var row := db[fire.tenant][fire.job.name];
        if row.id == fire.job.id {
          if row.active && row.schedule == fire.job.schedule {
            current, stage := Some(row), StageForRow(row);
          }
        }
      }
      tasks := tasks[k := CronFire(fire, stage)];
      Note(before, FireStep(k, Reread(ok)));
    }

    method CallRpc(k: TaskId, fire: FireInfo, row: JobRow)
      requires Valid() && k in tasks && tasks[k] == CronFire(fire, Rpc(row))
      modifies this
      ensures Valid() && Steps(k) == old(Steps(k)) + [FireStep(k, RunRpc)]
      ensures k in tasks && tasks[k] == CronFire(fire, Recording(row))
    {
      ghost var before := View();
      tasks := tasks[k := CronFire(fire, Recording(row))];
      Note(before, FireStep(k, RunRpc));
    }

    method RecordOutcome(k: TaskId, fire: FireInfo, row: JobRow)
      requires Valid() && k in tasks && tasks[k] == CronFire(fire, Recording(row))
      modifies this
      ensures Valid() && Steps(k) == old(Steps(k)) + [FireStep(k, RecordRun)]
      ensures k in tasks && tasks[k] == CronFire(fire, Unwind(3, Dispatched(row)))
    {
      ghost var before := View();
      tasks := tasks[k := CronFire(fire, Unwind(3, Dispatched(row)))];
      Note(before, FireStep(k, RecordRun));
    }

    method DropCronPermit(k: TaskId, fire: FireInfo, o: Outcome)
      requires Valid() && k in tasks && tasks[k] == CronFire(fire, Unwind(3, o))
      modifies this
      ensures Valid() && Steps(k) == old(Steps(k)) + [FireStep(k, DropGuard)]
      ensures k in tasks && tasks[k] == CronFire(fire, Unwind(2, o))
    {
      ghost var before := View();
      res := res.(cronPermits := res.cronPermits + 1);
      tasks := tasks[k := CronFire(fire, Unwind(2, o))];
      Note(before, FireStep(k, DropGuard));
    }

    method DropTenantGate(k: TaskId, fire: FireInfo, o: Outcome)
      requires Valid() && k in tasks && tasks[k] == CronFire(fire, Unwind(2, o))
      modifies this
      ensures Valid() && Steps(k) == old(Steps(k)) + [FireStep(k, DropGuard)]
      ensures k in tasks && tasks[k] == CronFire(fire, Unwind(1, o))
    {
      ghost var before := View();
      res := res.(gateOwner := res.gateOwner - {fire.tenant});
      tasks := tasks[k := CronFire(fire, Unwind(1, o))];
      Note(before, FireStep(k, DropGuard));
    }

    /** `InFlightGuard::drop`, the last thing a fire past the overlap gate does. */
    method DropInFlightMarker(k: TaskId, fire: FireInfo, o: Outcome)
      requires Valid() && k in tasks && tasks[k] == CronFire(fire, Unwind(1, o))
      modifies this
      ensures Valid() && Steps(k) == old(Steps(k)) + [FireStep(k, DropGuard)] && Ended(k, o)
    {
      ghost var before := View();
      res := res.(inFlight := res.inFlight - {MarkKey(fire)});
      log := log.(outcomes := log.outcomes[k := o]);
      tasks := tasks - {k};
      Note(before, FireStep(k, DropGuard));
    }

    /** The overlap gate: an overlapping fire only leaves a run row. */
    method PassOverlap(k: TaskId, fire: FireInfo) returns (inserted: bool)
      requires Valid() && k in tasks && tasks[k] == CronFire(fire, AtOverlap)
      modifies this
      ensures Valid() && Steps(k) == old(Steps(k)) + if inserted then [FireStep(k, CheckOverlap)] else [FireStep(k, CheckOverlap), FireStep(k, RecordSkip)]
      ensures if inserted then k in tasks && tasks[k] == CronFire(fire, WantGate) else Ended(k, SkippedOverlap)
    {
      inserted := OverlapGate(k, fire);
      if !inserted {
        Suspend(k);
        RecordSkipped(k, fire);
        Two(old(Steps(k)), FireStep(k, CheckOverlap), FireStep(k, RecordSkip));
      }
    }

    /** Up to the overlap gate: a gone tenant and an overlapping fire end here. */
    method EnterFire(k: TaskId, fire: FireInfo, alive: bool) returns (stop: Option<FirePath>)
      requires Valid() && k in tasks && tasks[k] == CronFire(fire, Arrived)
      modifies this
      ensures Valid() && (stop.Some? ==> stop.value.GonePath? || stop.value.SkipPath?)
      ensures stop.Some? && stop.value.GonePath? <==> !alive
      ensures Steps(k) == old(Steps(k)) + if stop.Some? then FireProgram(k, stop.value) else GateSteps(k)[..2]
      ensures if stop.None? then k in tasks && tasks[k] == CronFire(fire, WantGate) else Ended(k, if stop.value.GonePath? then Gone else SkippedOverlap)
    {
      Suspend(k);
      TenantIsLive(k, fire, alive);
      if !alive {
        return Some(GonePath);
      }
      Suspend(k);
      var inserted := PassOverlap(k, fire);
      EntrySteps(k, old(Steps(k)));
      stop := if inserted then None else Some(SkipPath);
    }

    /** First the tenant's gate, then the global cron permit; `n` of the two were obtained. */
    method PassGates(k: TaskId, fire: FireInfo) returns (n: nat)
      requires Valid() && k in tasks && tasks[k] == CronFire(fire, WantGate)
      modifies this
      ensures Valid() && n <= 2 && Steps(k) == old(Steps(k)) + GateSteps(k)[2..][..n] && k in tasks
      ensures if n == 2 then tasks[k] == CronFire(fire, Reassert) else Blocked(k)
    {
      Suspend(k);
      if fire.tenant in res.gateOwner {
        StuckAtGate(c, View(), k);
        return 0;
      }
      TakeTenantGate(k, fire);
      Suspend(k);
      if res.cronPermits == 0 {
        StuckAtCronPermit(c, View(), k);
        return 1;
      }
      TakeCronPermit(k, fire);
      return 2;
    }

    /** A function target: `run_one`, then the run row. */
    method DispatchFunction(k: TaskId, fire: FireInfo, row: JobRow) returns (n: nat)
      requires Valid() && k in tasks && tasks[k] == CronFire(fire, Calling(row, WantLock))
      modifies this
      ensures Valid() && n <= 5 && Steps(k) == old(Steps(k)) + (RunProgram(k) + [FireStep(k, RecordRun)])[..n]
      ensures if n == 5 then k in tasks && tasks[k] == CronFire(fire, Unwind(3, Dispatched(row))) else Blocked(k)
    {
      n := RunOne(k);
      assert (RunProgram(k) + [FireStep(k, RecordRun)])[..n] == RunProgram(k)[..n];
      if n == 4 {
        Suspend(k);
        RecordOutcome(k, fire, row);
        n := 5;
      }
    }

    /** An RPC target, then the run row. */
    method DispatchRpc(k: TaskId, fire: FireInfo, row: JobRow)
      requires Valid() && k in tasks && tasks[k] == CronFire(fire, Rpc(row))
      modifies this
      ensures Valid() && Steps(k) == old(Steps(k)) + [FireStep(k, RunRpc), FireStep(k, RecordRun)]
      ensures k in tasks && tasks[k] == CronFire(fire, Unwind(3, Dispatched(row)))
    {
      Suspend(k);
      CallRpc(k, fire, row);
      Suspend(k);
      RecordOutcome(k, fire, row);
      Two(old(Steps(k)), FireStep(k, RunRpc), FireStep(k, RecordRun));
    }

    /** The dispatch by `target_kind`, with the fresh row. */
    method DispatchRow(k: TaskId, fire: FireInfo, row: JobRow, ghost before: seq<Action>) returns (path: FirePath, n: nat)
      requires Valid() && k in tasks && tasks[k] == CronFire(fire, StageForRow(row)) && Steps(k) == before + [FireStep(k, Reread(true))]
      modifies this
      ensures Valid() && (path.CallPath? || path.RpcPath? || path.UnknownPath?) && n <= |DispatchSteps(k, path)|
      ensures Steps(k) == before + DispatchSteps(k, path)[..n] && EndsAs(path, Dispatched(row))
      ensures if n == |DispatchSteps(k, path)| then k in tasks && tasks[k] == CronFire(fire, Unwind(3, Dispatched(row))) else Blocked(k)
    {
      DispatchedSteps(k, before);
      if row.kind.FunctionTarget? {
        n := DispatchFunction(k, fire, row);
        path := CallPath;
        CallSteps(k, before, n);
        n := n + 1;
      } else if row.kind.RpcTarget? {
        DispatchRpc(k, fire, row);
        path, n := RpcPath, 3;
      } else {
        Suspend(k);
        RecordOutcome(k, fire, row);
        path, n := UnknownPath, 2;
      }
    }

    /** The re-read and what follows from it, up to the recorded outcome: a row that is there under
        the job's name, active, with the snapshot's id and schedule, is dispatched as it stands in
        the database at that moment; one that is not, or a failed read, dispatches nothing. */
    method RereadAndDispatch(k: TaskId, fire: FireInfo, ok: bool) returns (path: FirePath, n: nat, ghost o: Outcome)
      requires Valid() && k in tasks && tasks[k] == CronFire(fire, Reassert)
      modifies this
      ensures Valid() && Beyond(path) && n <= |DispatchSteps(k, path)|
      ensures Steps(k) == old(Steps(k)) + DispatchSteps(k, path)[..n]
      ensures if n == |DispatchSteps(k, path)| then k in tasks && tasks[k] == CronFire(fire, Unwind(3, o)) && EndsAs(path, o) else Blocked(k)
      ensures path.FailPath? ==> path.ok == ok && n == 1
      ensures !path.FailPath? <==> (ok && fire.tenant in old(db) && fire.job.name in old(db)[fire.tenant] &&
                                    (var row := old(db)[fire.tenant][fire.job.name];
                                     row.id == fire.job.id && row.active && row.schedule == fire.job.schedule))
      ensures o == if path.FailPath? then ReassertFailed else Dispatched(old(db)[fire.tenant][fire.job.name])
    {
      var current := ReassertRow(k, fire, ok);
      if current.None? {
        assert DispatchSteps(k, FailPath(ok))[..1] == [FireStep(k, Reread(ok))];
        return FailPath(ok), 1, ReassertFailed;
      }
      path, n := DispatchRow(k, fire, current.value, old(Steps(k)));
      o := Dispatched(current.value);
    }

    /** The guards go in reverse order of acquisition. */
    method DropGuards(k: TaskId, fire: FireInfo, ghost o: Outcome)
      requires Valid() && k in tasks && tasks[k] == CronFire(fire, Unwind(3, o))
      modifies this
      ensures Valid() && Steps(k) == old(Steps(k)) + UnwindSteps(k) && Ended(k, o)
    {
      Suspend(k);
      DropCronPermit(k, fire, tasks[k].stage.outcome);
      Suspend(k);
      DropTenantGate(k, fire, tasks[k].stage.outcome);
      Suspend(k);
      DropInFlightMarker(k, fire, tasks[k].stage.outcome);
      Three(old(Steps(k)), FireStep(k, DropGuard), FireStep(k, DropGuard), FireStep(k, DropGuard));
    }

    /** `run_due_job`: overlap gate, tenant gate, permit, re-read, dispatch, record; whatever
        way it goes, its steps are those of that way in order, and every way that passes the
        overlap gate ends by dropping all three guards. `n` of its steps are made; fewer than all
        only while it waits for the gate, a permit or the tenant lock. A gone tenant's fire ends
        at once, and a failed re-read dispatches nothing. */
    method RunDueJob(k: TaskId, fire: FireInfo, alive: bool, ok: bool) returns (path: FirePath, n: nat)
      requires Valid() && k in tasks && tasks[k] == CronFire(fire, Arrived)
      modifies this
      ensures Valid() && n <= |FireProgram(k, path)| && Steps(k) == old(Steps(k)) + FireProgram(k, path)[..n]
      ensures if n == |FireProgram(k, path)| then k !in tasks && k in log.outcomes && EndsAs(path, log.outcomes[k]) else Blocked(k)
      ensures (path.GonePath? <==> !alive) && (path.FailPath? ==> path.ok == ok)
      ensures alive && !ok ==> path.SkipPath? || path.FailPath?
    {
      ghost var before := Steps(k);
      var stop := EnterFire(k, fire, alive);
      if stop.Some? {
        return stop.value, |FireProgram(k, stop.value)|;
      }
      var gates := PassGates(k, fire);
      GatePrefix(k, before, gates, FailPath(ok));
      if gates < 2 {
        return FailPath(ok), 2 + gates;
      }
      Suspend(k);
      ghost var o;
      path, n, o := RereadAndDispatch(k, fire, ok);
      DispatchPrefix(k, before, n, path);
      n := 4 + n;
      if n == 4 + |DispatchSteps(k, path)| {
        DropGuards(k, fire, o);
        n := n + 3;
      }
    }
  }
}
