/**
 Per-tenant order: what a tenant sent is exactly what finished, then what its lane worker has
 in hand, then its lane, then what the drain loop and the channel still hold, in that order.
 */
module EngineFifo {
  import opened EngineModel
  import opened EngineHoldings
  import opened EngineSafety

  /** The invocations of one tenant, in order. */
  ghost function Proj(q: seq<Invocation>, t: Tenant): seq<Invocation> {
    if q == [] then []
    else Proj(q[..|q| - 1], t) + (if q[|q| - 1].tenant == t then [q[|q| - 1]] else [])
  }

  lemma {:induction false} ProjConcat(p: seq<Invocation>, q: seq<Invocation>, t: Tenant)
    ensures Proj(p + q, t) == Proj(p, t) + Proj(q, t)
  {
    if q == [] {
      assert p + q == p;
    } else {
      assert (p + q)[..|p + q| - 1] == p + q[..|q| - 1];
      ProjConcat(p, q[..|q| - 1], t);
    }
  }

  ghost function LaneContents(t: Option<Task>): seq<Invocation> {
    if t.None? then []
    else match t.value
      case LaneIdle(lane) => lane
      case LaneRun(lane, inv, _) => [inv] + lane
      case LaneDecrement(lane, inv) => [inv] + lane
      case _ => []
  }

  ghost function HandSeq(ch: Channel): seq<Invocation> { if ch.hand.Some? then [ch.hand.value] else [] }

  /** Sent and not yet in a lane, oldest first. */
  ghost function InChannel(ch: Channel, t: Tenant): seq<Invocation> {
    Proj(HandSeq(ch), t) + Proj(ch.queue, t) + Proj(ch.stranded, t)
  }

  ghost function InLane(ts: Tasks, t: Tenant): seq<Invocation> { LaneContents(Look(ts, Worker(t))) }

  ghost predicate ChannelOk(ch: Channel) {
    if ch.receiverUp then ch.stranded == [] else ch.queue == [] && ch.hand.None?
  }

  ghost predicate FifoAt(s: State, t: Tenant) {
    Proj(s.log.sent, t) == Proj(s.log.finished, t) + (InLane(s.tasks, t) + InChannel(s.chan, t))
  }

  ghost predicate Fifo(s: State) { ChannelOk(s.chan) && forall t :: FifoAt(s, t) }

  lemma {:induction false} ProjOne(x: Invocation, t: Tenant)
    ensures Proj([x], t) == if x.tenant == t then [x] else []
  {
  }

  lemma LaneElsewhere(c: Config, s: State, a: Action, t: Tenant)
    requires Shape(s) && Enabled(c, s, a) && Mover(s, a) != Some(Worker(t))
    ensures InLane(NextTasks(c, s, a), t) == InLane(s.tasks, t)
  {
  }

  lemma LaneRunStep(c: Config, s: State, a: Action, t: Tenant)
    requires Shape(s) && Enabled(c, s, a) && a.RunStep?
    ensures InLane(NextTasks(c, s, a), t) == InLane(s.tasks, t)
  {
    assert ShapeAt(s.tasks, s.next, Worker(t));
  }

  lemma LaneOwnStep(c: Config, s: State, a: Action, t: Tenant)
    requires Shape(s) && Enabled(c, s, a) && Mover(s, a) == Some(Worker(t)) && !a.RunStep?
    ensures a.Route? || a.LaneTake? || a.Decrement?
    ensures var l, l' := InLane(s.tasks, t), InLane(NextTasks(c, s, a), t);
            if a.Route? then l' == l + [s.chan.hand.value] else if a.Decrement? then l == [s.tasks[a.k].inv] + l' else l' == l
  {
    assert ShapeAt(s.tasks, s.next, Worker(t));
  }

  /** What the action puts into the channel, moves from channel to lane, takes off the lane. */
  ghost function Entering(s: State, a: Action, t: Tenant): seq<Invocation> {
    if a.EnqStep? && a.enq == Send && a.k in s.tasks && s.tasks[a.k].EnqSending? then Proj([s.tasks[a.k].inv], t) else []
  }

  ghost function Routed(s: State, a: Action, t: Tenant): seq<Invocation> {
    if a.Route? then Proj(HandSeq(s.chan), t) else []
  }

  ghost function Leaving(s: State, a: Action, t: Tenant): seq<Invocation> {
    if a.Decrement? && a.k in s.tasks && s.tasks[a.k].LaneDecrement? then Proj([s.tasks[a.k].inv], t) else []
  }

  lemma RouteStep(c: Config, s: State, t: Tenant)
    requires Shape(s) && Enabled(c, s, Route)
    ensures InLane(NextTasks(c, s, Route), t) == InLane(s.tasks, t) + Routed(s, Route, t)
  {
    ProjOne(s.chan.hand.value, t);
    if s.chan.hand.value.tenant == t { LaneOwnStep(c, s, Route, t); } else { LaneElsewhere(c, s, Route, t); }
  }

  lemma DecrementStep(c: Config, s: State, k: TaskId, t: Tenant)
    requires Shape(s) && Enabled(c, s, Decrement(k))
    ensures Leaving(s, Decrement(k), t) + InLane(NextTasks(c, s, Decrement(k)), t) == InLane(s.tasks, t)
  {
    ProjOne(s.tasks[k].inv, t);
    assert ShapeAt(s.tasks, s.next, k);
    if k == Worker(t) { LaneOwnStep(c, s, Decrement(k), t); } else { LaneElsewhere(c, s, Decrement(k), t); }
  }

  lemma LaneStep(c: Config, s: State, a: Action, t: Tenant)
    requires Shape(s) && Enabled(c, s, a)
    ensures Leaving(s, a, t) + InLane(NextTasks(c, s, a), t) == InLane(s.tasks, t) + Routed(s, a, t)
  {
    if a.Route? { RouteStep(c, s, t); }
    else if a.Decrement? { DecrementStep(c, s, a.k, t); }
    else if a.RunStep? { LaneRunStep(c, s, a, t); }
    else if Mover(s, a) != Some(Worker(t)) { LaneElsewhere(c, s, a, t); }
    else { LaneOwnStep(c, s, a, t); }
  }

  lemma SendStep(ch: Channel, x: Invocation, t: Tenant)
    requires ChannelOk(ch) && ch.receiverUp
    ensures InChannel(ch.(queue := ch.queue + [x]), t) == InChannel(ch, t) + Proj([x], t)
  {
    ProjConcat(ch.queue, [x], t);
  }

  lemma RecvStep(ch: Channel, t: Tenant)
    requires ch.hand.None? && ch.queue != []
    ensures InChannel(ch.(hand := Some(ch.queue[0]), queue := ch.queue[1..]), t) == InChannel(ch, t)
  {
    ProjConcat([ch.queue[0]], ch.queue[1..], t);
    assert ch.queue == [ch.queue[0]] + ch.queue[1..];
  }

  lemma ChannelStep(c: Config, s: State, a: Action, t: Tenant)
    requires ChannelOk(s.chan) && Enabled(c, s, a)
    ensures ChannelOk(NextChannel(c, s, a))
    ensures Routed(s, a, t) + InChannel(NextChannel(c, s, a), t) == InChannel(s.chan, t) + Entering(s, a, t)
  {
    if a.EnqStep? && a.enq == Send { SendStep(s.chan, s.tasks[a.k].inv, t); }
    if a.Recv? { RecvStep(s.chan, t); }
  }

  lemma LogStep(c: Config, s: State, a: Action, t: Tenant)
    requires Enabled(c, s, a)
    ensures Proj(NextLog(c, s, a).sent, t) == Proj(s.log.sent, t) + Entering(s, a, t)
    ensures Proj(NextLog(c, s, a).finished, t) == Proj(s.log.finished, t) + Leaving(s, a, t)
  {
    if a.EnqStep? && a.enq == Send { ProjConcat(s.log.sent, [s.tasks[a.k].inv], t); }
    if a.Decrement? { ProjConcat(s.log.finished, [s.tasks[a.k].inv], t); }
  }

  /** `x` enters the channel, `y` moves from channel to lane, `z` leaves the lane. */
  lemma Advance<T>(sent: seq<T>, done: seq<T>, l: seq<T>, q: seq<T>, l': seq<T>, q': seq<T>, x: seq<T>, y: seq<T>, z: seq<T>)
    requires sent == done + (l + q) && z + l' == l + y && y + q' == q + x
    ensures sent + x == done + z + (l' + q')
  {
    assert sent + x == done + (l + (q + x)) == done + ((l + y) + q');
  }

  lemma FifoAtStep(c: Config, s: State, a: Action, t: Tenant)
    requires Shape(s) && ChannelOk(s.chan) && FifoAt(s, t) && Enabled(c, s, a)
    ensures Proj(NextLog(c, s, a).sent, t) == Proj(NextLog(c, s, a).finished, t)
              + (InLane(NextTasks(c, s, a), t) + InChannel(NextChannel(c, s, a), t))
  {
    LaneStep(c, s, a, t);
    ChannelStep(c, s, a, t);
    LogStep(c, s, a, t);
    Advance(Proj(s.log.sent, t), Proj(s.log.finished, t), InLane(s.tasks, t), InChannel(s.chan, t),
            InLane(NextTasks(c, s, a), t), InChannel(NextChannel(c, s, a), t),
            Entering(s, a, t), Routed(s, a, t), Leaving(s, a, t));
  }

  lemma FifoStep(c: Config, s: State, a: Action)
    requires Shape(s) && Fifo(s) && Enabled(c, s, a)
    ensures Fifo(Next(c, s, a))
  {
    forall t ensures FifoAt(Next(c, s, a), t) {
      assert FifoAt(s, t);
      FifoAtStep(c, s, a, t);
    }
    ChannelStep(c, s, a, "");
  }
}
