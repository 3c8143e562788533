/**
 Depth accounting: a tenant's depth counter is its probes in progress, plus everything accepted
 and not yet completed, plus what was accepted and then abandoned by a caller that went away;
 what is accepted never exceeds the cap; nothing offered goes missing.
 */
module EngineAccounts {
  import opened EngineModel
  import opened EngineHoldings
  import opened EngineSafety
  import opened EngineFifo

  /** How an enqueue task of tenant `t` counts: `Fresh` holds no depth slot, `Probing` holds
      one that it will give back, `Accepted` holds one that travels with the invocation. */
  datatype Kind = NoEnq | Fresh | Probing | Accepted

  ghost function KindOf(task: Option<Task>, t: Tenant): Kind {
    if task.None? then NoEnq
    else match task.value
      case EnqNew(inv) => if inv.tenant == t then Fresh else NoEnq
      case EnqDropping(inv) => if inv.tenant == t then Fresh else NoEnq
      case EnqRejecting(inv) => if inv.tenant == t then Probing else NoEnq
      case EnqSending(inv) => if inv.tenant == t then Accepted else NoEnq
      case _ => NoEnq
  }

  ghost function Kinds(ts: Tasks, t: Tenant): map<TaskId, Kind> { map k | k in ts :: KindOf(Some(ts[k]), t) }

  ghost function Having(m: map<TaskId, Kind>, kind: Kind): set<TaskId> { set k | k in m && m[k] == kind }

  /** How many enqueue tasks of tenant `t` are of this kind. */
  ghost function Tally(ts: Tasks, t: Tenant, kind: Kind): nat { |Having(Kinds(ts, t), kind)| }

  ghost function One(b: bool): nat { if b then 1 else 0 }

  lemma HavingPut(m: map<TaskId, Kind>, k: TaskId, now: Option<Kind>, kind: Kind)
    ensures |Having(Put(m, k, now), kind)| == |Having(m, kind)| - One(Look(m, k) == Some(kind)) + One(now == Some(kind))
  {
    assert Having(Put(m, k, now), kind) == PutIf(Having(m, kind), k, now == Some(kind));
  }

  lemma TallyPut(ts: Tasks, k: TaskId, task: Option<Task>, t: Tenant, kind: Kind)
    requires kind != NoEnq
    ensures Tally(Put(ts, k, task), t, kind)
         == Tally(ts, t, kind) - One(KindOf(Look(ts, k), t) == kind) + One(KindOf(task, t) == kind)
  {
    var now := if task.Some? then Some(KindOf(task, t)) else None;
    assert Kinds(Put(ts, k, task), t) == Put(Kinds(ts, t), k, now);
    HavingPut(Kinds(ts, t), k, now, kind);
  }

  /** The kind of the moved task before and after. */
  lemma KindStep(c: Config, s: State, a: Action, t: Tenant, k: TaskId)
    requires Shape(s) && Enabled(c, s, a) && Mover(s, a) == Some(k)
    ensures var was, now := KindOf(Look(s.tasks, k), t), KindOf(NewTask(c, s, a), t);
            if a.Offer? then was == NoEnq && now == if a.inv.tenant == t then Fresh else NoEnq
            else if a.EnqStep? then
              if s.tasks[k].inv.tenant != t then was == now == NoEnq
              else match a.enq
                case Count => was == Fresh && now == if DepthOf(s.depth, t) >= c.cap then Probing else Accepted
                case Reject => was == Probing && now == Fresh
                case Drop => was == Fresh && now == NoEnq
                case _ => was == Accepted && now == NoEnq
            else if a.Cancel? then
              was == (if s.tasks[k].EnqSending? && s.tasks[k].inv.tenant == t then Accepted else NoEnq) && now == NoEnq
            else was == now == NoEnq
  {
    assert ShapeAt(s.tasks, s.next, k);
  }

  ghost function Flow(was: Kind, now: Kind, kind: Kind): int { One(now == kind) - One(was == kind) }

  lemma TallyStep(c: Config, s: State, a: Action, t: Tenant, kind: Kind)
    requires Shape(s) && Enabled(c, s, a) && kind != NoEnq
    ensures Tally(NextTasks(c, s, a), t, kind) - Tally(s.tasks, t, kind)
         == (if Mover(s, a).None? then 0
             else Flow(KindOf(Look(s.tasks, Mover(s, a).value), t), KindOf(NewTask(c, s, a), t), kind))
  {
    if Mover(s, a).Some? {
      var k := Mover(s, a).value;
      assert NextTasks(c, s, a) == Put(s.tasks, k, NewTask(c, s, a));
      TallyPut(s.tasks, k, NewTask(c, s, a), t, kind);
    }
  }

  /** Sent and not yet completed. */
  ghost function InPipeline(ts: Tasks, ch: Channel, t: Tenant): nat { |InLane(ts, t)| + |InChannel(ch, t)| }

  /** Everything of `t` that was accepted and has not completed. */
  ghost function InSystem(ts: Tasks, ch: Channel, t: Tenant): nat { Tally(ts, t, Accepted) + InPipeline(ts, ch, t) }

  lemma PipelineStep(c: Config, s: State, a: Action, t: Tenant)
    requires Shape(s) && ChannelOk(s.chan) && Enabled(c, s, a)
    ensures InPipeline(NextTasks(c, s, a), NextChannel(c, s, a), t)
         == InPipeline(s.tasks, s.chan, t) + |Entering(s, a, t)| - |Leaving(s, a, t)|
  {
    LaneStep(c, s, a, t);
    ChannelStep(c, s, a, t);
    assert |Leaving(s, a, t) + InLane(NextTasks(c, s, a), t)| == |InLane(s.tasks, t) + Routed(s, a, t)|;
    assert |Routed(s, a, t) + InChannel(NextChannel(c, s, a), t)| == |InChannel(s.chan, t) + Entering(s, a, t)|;
  }

  /** How many invocations of `t` were abandoned between their acceptance and the channel. */
  ghost function Abandoned(s: State, t: Tenant): nat { |Proj(s.log.abandoned, t)| }

  ghost predicate DepthAt(c: Config, s: State, t: Tenant) {
    && DepthOf(s.depth, t) == Tally(s.tasks, t, Probing) + InSystem(s.tasks, s.chan, t) + Abandoned(s, t)
    && InSystem(s.tasks, s.chan, t) + Abandoned(s, t) <= c.cap
  }

  ghost predicate BalanceAt(s: State, t: Tenant) {
    |Proj(s.log.offered, t)| == |Proj(s.log.dropped, t)| + |Proj(s.log.lost, t)| + Abandoned(s, t) + |Proj(s.log.finished, t)|
      + Tally(s.tasks, t, Fresh) + Tally(s.tasks, t, Probing) + InSystem(s.tasks, s.chan, t)
  }

  ghost predicate Accounts(c: Config, s: State) { forall t :: DepthAt(c, s, t) && BalanceAt(s, t) }

  /** The tenant whose depth counter, enqueue tasks or logs an action can touch. */
  ghost predicate Concerns(s: State, a: Action, t: Tenant) {
    (a.EnqStep? || a.Decrement? || a.Cancel?) && a.k in s.tasks
    && (s.tasks[a.k].EnqNew? || s.tasks[a.k].EnqRejecting? || s.tasks[a.k].EnqDropping? || s.tasks[a.k].EnqSending? || s.tasks[a.k].LaneDecrement?)
    && s.tasks[a.k].inv.tenant == t
  }

  /** What each step does to depth, for the tenant concerned. */
  lemma DepthStep(c: Config, s: State, a: Action, t: Tenant)
    requires Enabled(c, s, a)
    ensures DepthOf(NextDepth(c, s, a), t)
         == if !Concerns(s, a, t) then DepthOf(s.depth, t)
            else if a.Decrement? then Saturating(DepthOf(s.depth, t))
            else if a.Cancel? then DepthOf(s.depth, t)
            else match a.enq
              case Count => DepthOf(s.depth, t) + 1
              case Reject => FetchSub(DepthOf(s.depth, t))
              case SendFail => FetchSub(DepthOf(s.depth, t))
              case _ => DepthOf(s.depth, t)
  {
  }

  lemma InOutStep(c: Config, s: State, a: Action, t: Tenant)
    requires Enabled(c, s, a)
    ensures |Entering(s, a, t)| == One(a.EnqStep? && a.enq == Send && Concerns(s, a, t))
    ensures |Leaving(s, a, t)| == One(a.Decrement? && Concerns(s, a, t))
  {
    if a.EnqStep? || a.Decrement? { ProjOne(s.tasks[a.k].inv, t); }
  }

  /** All the moves of one step, as numbers: probing, accepted, fresh, pipeline. */
  lemma NumbersStep(c: Config, s: State, a: Action, t: Tenant)
    requires Shape(s) && ChannelOk(s.chan) && Enabled(c, s, a)
    ensures var ts, ts' := s.tasks, NextTasks(c, s, a);
            var mine := Concerns(s, a, t);
            var accept := mine && a.EnqStep? && a.enq == Count && DepthOf(s.depth, t) < c.cap;
            var probe := mine && a.EnqStep? && a.enq == Count && DepthOf(s.depth, t) >= c.cap;
            var reject := mine && a.EnqStep? && a.enq == Reject;
            var drop := mine && a.EnqStep? && a.enq == Drop;
            var leave := mine && (a.Cancel? || (a.EnqStep? && (a.enq == Send || a.enq == SendFail)));
            && Tally(ts', t, Probing) == Tally(ts, t, Probing) + One(probe) - One(reject)
            && Tally(ts', t, Accepted) == Tally(ts, t, Accepted) + One(accept) - One(leave)
            && Tally(ts', t, Fresh) == Tally(ts, t, Fresh) + One(a.Offer? && a.inv.tenant == t)
                                       - One(accept) - One(probe) + One(reject) - One(drop)
  {
    TallyStep(c, s, a, t, Probing);
    TallyStep(c, s, a, t, Accepted);
    TallyStep(c, s, a, t, Fresh);
    if Mover(s, a).Some? { KindStep(c, s, a, t, Mover(s, a).value); }
  }

  lemma AbandonedStep(c: Config, s: State, a: Action, t: Tenant)
    requires Enabled(c, s, a)
    ensures |Proj(NextLog(c, s, a).abandoned, t)| == Abandoned(s, t) + One(a.Cancel? && Concerns(s, a, t))
  {
    if a.Cancel? && s.tasks[a.k].EnqSending? { Appended(s.log.abandoned, s.tasks[a.k].inv, t); }
  }

  lemma DepthAtStep(c: Config, s: State, a: Action, t: Tenant)
    requires Shape(s) && ChannelOk(s.chan) && DepthAt(c, s, t) && Enabled(c, s, a)
    ensures DepthOf(NextDepth(c, s, a), t)
         == Tally(NextTasks(c, s, a), t, Probing) + InSystem(NextTasks(c, s, a), NextChannel(c, s, a), t) + |Proj(NextLog(c, s, a).abandoned, t)|
    ensures InSystem(NextTasks(c, s, a), NextChannel(c, s, a), t) + |Proj(NextLog(c, s, a).abandoned, t)| <= c.cap
  {
    NumbersStep(c, s, a, t);
    PipelineStep(c, s, a, t);
    InOutStep(c, s, a, t);
    DepthStep(c, s, a, t);
    AbandonedStep(c, s, a, t);
  }

  lemma Appended(q: seq<Invocation>, x: Invocation, t: Tenant)
    ensures |Proj(q + [x], t)| == |Proj(q, t)| + One(x.tenant == t)
  {
    ProjConcat(q, [x], t);
    ProjOne(x, t);
  }

  lemma LogTotals(c: Config, s: State, a: Action, t: Tenant)
    requires Enabled(c, s, a)
    ensures |Proj(NextLog(c, s, a).offered, t)| == |Proj(s.log.offered, t)| + One(a.Offer? && a.inv.tenant == t)
    ensures |Proj(NextLog(c, s, a).dropped, t)| == |Proj(s.log.dropped, t)| + One(a.EnqStep? && a.enq == Drop && Concerns(s, a, t))
    ensures |Proj(NextLog(c, s, a).lost, t)| == |Proj(s.log.lost, t)| + One(a.EnqStep? && a.enq == SendFail && Concerns(s, a, t))
  {
    match a {
      case Offer(inv) => Appended(s.log.offered, inv, t);
      case EnqStep(k, Drop) => Appended(s.log.dropped, s.tasks[k].inv, t);
      case EnqStep(k, SendFail) => Appended(s.log.lost, s.tasks[k].inv, t);
      case _ =>
    }
  }

  lemma BalanceAtStep(c: Config, s: State, a: Action, t: Tenant)
    requires Shape(s) && ChannelOk(s.chan) && BalanceAt(s, t) && Enabled(c, s, a)
    ensures |Proj(NextLog(c, s, a).offered, t)|
         == |Proj(NextLog(c, s, a).dropped, t)| + |Proj(NextLog(c, s, a).lost, t)| + |Proj(NextLog(c, s, a).abandoned, t)|
            + |Proj(NextLog(c, s, a).finished, t)|
            + Tally(NextTasks(c, s, a), t, Fresh) + Tally(NextTasks(c, s, a), t, Probing)
            + InSystem(NextTasks(c, s, a), NextChannel(c, s, a), t)
  {
    NumbersStep(c, s, a, t);
    PipelineStep(c, s, a, t);
    InOutStep(c, s, a, t);
    LogTotals(c, s, a, t);
    AbandonedStep(c, s, a, t);
    LogStep(c, s, a, t);
    assert |Proj(NextLog(c, s, a).finished, t)| == |Proj(s.log.finished, t)| + |Leaving(s, a, t)|;
  }

  lemma AccountsStep(c: Config, s: State, a: Action)
    requires Shape(s) && ChannelOk(s.chan) && Accounts(c, s) && Enabled(c, s, a)
    ensures Accounts(c, Next(c, s, a))
  {
    forall t ensures DepthAt(c, Next(c, s, a), t) && BalanceAt(Next(c, s, a), t) {
      assert DepthAt(c, s, t) && BalanceAt(s, t);
      DepthAtStep(c, s, a, t);
      BalanceAtStep(c, s, a, t);
    }
  }
}
