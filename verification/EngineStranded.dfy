/**
 What leaks: the depth slots of the invocations that sat in the channel when the executor's
 receiver went away, and those of accepted invocations whose caller went away before the
 channel took them. They are never returned, and no others leak.
 */
module EngineStranded {
  import opened EngineModel
  import opened EngineHoldings
  import opened EngineSafety
  import opened EngineFifo
  import opened EngineAccounts
  import opened EngineTheorems
  import opened EngineDrain

  /** Without a receiver the channel never changes again. */
  lemma ChannelStays(c: Config, s: State, a: Action)
    requires ChannelOk(s.chan) && !s.chan.receiverUp && Enabled(c, s, a)
    ensures NextChannel(c, s, a) == s.chan
  {
  }

  lemma {:induction false} ChannelStaysForever(c: Config, s: State, acts: seq<Action>)
    requires ChannelOk(s.chan) && !s.chan.receiverUp && IsRun(c, s, acts)
    ensures After(c, s, acts).chan == s.chan
    decreases |acts|
  {
    if acts != [] {
      ChannelStaysForever(c, s, acts[..|acts| - 1]);
      ChannelStays(c, After(c, s, acts[..|acts| - 1]), acts[|acts| - 1]);
    }
  }

  lemma StrandedCount(c: Config, s: State, t: Tenant)
    requires Inv(c, s)
    ensures DepthOf(s.depth, t) >= |Proj(s.chan.stranded, t)|
  {
    assert DepthAt(c, s, t);
  }

  /** In every continuation the stranded invocations stay stranded and keep their slots. */
  lemma StrandedForever(c: Config, s: State, acts: seq<Action>, t: Tenant)
    requires Reachable(c, s) && !s.chan.receiverUp && IsRun(c, s, acts)
    ensures After(c, s, acts).chan.stranded == s.chan.stranded
    ensures DepthOf(After(c, s, acts).depth, t) >= |Proj(s.chan.stranded, t)|
  {
    ReachableInv(c, s);
    ChannelStaysForever(c, s, acts);
    InvRun(c, s, acts);
    StrandedCount(c, After(c, s, acts), t);
  }

  /** Exactly what leaks: wherever the system comes to rest after the receiver went away, each
      tenant's counter is the number of its invocations that were queued at that moment, and of
      those that were abandoned. */
  lemma LeaksExactlyTheQueue(c: Config, s: State, acts: seq<Action>, t: Tenant)
    requires Reachable(c, s) && Enabled(c, s, CloseReceiver) && IsRun(c, Next(c, s, CloseReceiver), acts)
    requires Quiescent(c, After(c, Next(c, s, CloseReceiver), acts))
    ensures var e := After(c, Next(c, s, CloseReceiver), acts); DepthOf(e.depth, t) == |Proj(s.chan.queue, t)| + Abandoned(e, t)
  {
    ReachableInv(c, s);
    var s' := Next(c, s, CloseReceiver);
    InvStep(c, s, CloseReceiver);
    ChannelStaysForever(c, s', acts);
  }

  // ---------------------------------------------------------------- callers that go away

  lemma AbandonedGrows(c: Config, s: State, a: Action, t: Tenant)
    requires Enabled(c, s, a)
    ensures Abandoned(Next(c, s, a), t) >= Abandoned(s, t)
  {
    AbandonedStep(c, s, a, t);
  }

  lemma {:induction false} AbandonedGrowsOn(c: Config, s: State, acts: seq<Action>, t: Tenant)
    requires IsRun(c, s, acts)
    ensures Abandoned(After(c, s, acts), t) >= Abandoned(s, t)
    decreases |acts|
  {
    if acts != [] {
      AbandonedGrowsOn(c, s, acts[..|acts| - 1], t);
      AbandonedGrows(c, After(c, s, acts[..|acts| - 1]), acts[|acts| - 1], t);
    }
  }

  /** Each caller of an enqueue that goes away between acceptance and channel takes one of its
      tenant's slots for good: after `cap` of them nothing of that tenant is ever accepted again,
      whatever happens, and every new probe is on its way to be dropped. */
  lemma AbandonedSlotsNeverReturn(c: Config, s: State, acts: seq<Action>, t: Tenant, a: Action)
    requires Reachable(c, s) && IsRun(c, s, acts) && Enabled(c, After(c, s, acts), a)
    ensures var e := After(c, s, acts);
            InSystem(e.tasks, e.chan, t) <= c.cap - Abandoned(s, t) &&
            (Abandoned(s, t) == c.cap && a.EnqStep? && a.enq == Count && e.tasks[a.k].inv.tenant == t ==>
               Next(c, e, a).tasks[a.k] == EnqRejecting(e.tasks[a.k].inv))
  {
    ReachableInv(c, s);
    InvRun(c, s, acts);
    AbandonedGrowsOn(c, s, acts, t);
    assert DepthAt(c, After(c, s, acts), t);
  }

  lemma LockIsHeld(c: Config, s: State, k: TaskId, t: Tenant)
    requires Inv(c, s) && k in s.tasks && s.tasks[k] == SyncRun(t, Executing)
    ensures t in s.res.lockOwner && s.res.lockOwner[t] == k
  {
    assert HoldingsOf(s.tasks)[k].lock == Some(t);
    assert LockMap(HoldingsOf(s.tasks))[k] == t;
  }

  /** A caller of `run_one` may go away while it runs: its permit is free at once, the lock it holds
      with the step after that, which nothing can prevent, and the run is gone. */
  lemma CancelledRunFrees(c: Config, s: State, k: TaskId, t: Tenant)
    requires Reachable(c, s) && k in s.tasks && s.tasks[k] == SyncRun(t, Executing)
    ensures t in s.res.lockOwner && s.res.lockOwner[t] == k
    ensures Enabled(c, s, Cancel(k)) && Enabled(c, Next(c, s, Cancel(k)), RunStep(k, ReleaseLock))
    ensures var s2 := Next(c, Next(c, s, Cancel(k)), RunStep(k, ReleaseLock));
            k !in s2.tasks && s2.res == s.res.(permits := s.res.permits + 1, lockOwner := s.res.lockOwner - {t})
  {
    ReachableInv(c, s);
    LockIsHeld(c, s, k, t);
    var s1 := Next(c, s, Cancel(k));
    assert s1.tasks == s.tasks[k := SyncRun(t, Releasing)] && s1.res == s.res.(permits := s.res.permits + 1);
  }

  /** One that waits for the lock holds nothing and is simply gone; one that waits for the permit
      leaves its lock to be released next. */
  lemma CancelledWait(c: Config, s: State, k: TaskId, t: Tenant)
    requires k in s.tasks && (s.tasks[k] == SyncRun(t, WantLock) || s.tasks[k] == SyncRun(t, WantPermit))
    ensures Enabled(c, s, Cancel(k)) && Next(c, s, Cancel(k)).res == s.res
    ensures var s1 := Next(c, s, Cancel(k));
            if s.tasks[k].run.WantLock? then k !in s1.tasks
            else Enabled(c, s1, RunStep(k, ReleaseLock)) && k !in Next(c, s1, RunStep(k, ReleaseLock)).tasks
  {
  }

  /** One more step of a run from the initial state. */
  lemma Then(c: Config, acts: seq<Action>, s: State, a: Action) returns (longer: seq<Action>, s': State)
    requires IsRun(c, Init(c), acts) && After(c, Init(c), acts) == s && Enabled(c, s, a)
    ensures IsRun(c, Init(c), longer) && After(c, Init(c), longer) == s' == Next(c, s, a)
  {
    RunSnoc(c, Init(c), acts, a);
    longer, s' := acts + [a], Next(c, s, a);
  }

  lemma OneAccepted(c: Config, inv: Invocation) returns (acts: seq<Action>, s: State)
    requires c.Valid() && c.cap > 0
    ensures IsRun(c, Init(c), acts) && After(c, Init(c), acts) == s
    ensures s.tasks == map[Enq(0) := EnqSending(inv)] && s.chan == Init(c).chan && s.depth == map[inv.tenant := 1]
  {
    acts, s := [], Init(c);
    acts, s := Then(c, acts, s, Offer(inv));
    assert s.tasks == map[Enq(0) := EnqNew(inv)] && s.depth == map[] && s.chan == Init(c).chan;
    acts, s := Then(c, acts, s, EnqStep(Enq(0), Count));
  }

  lemma OneSent(c: Config, inv: Invocation) returns (acts: seq<Action>, s: State)
    requires c.Valid() && c.cap > 0
    ensures IsRun(c, Init(c), acts) && After(c, Init(c), acts) == s
    ensures s.tasks == map[] && s.chan == Init(c).chan.(queue := [inv]) && s.depth == map[inv.tenant := 1]
  {
    acts, s := OneAccepted(c, inv);
    acts, s := Then(c, acts, s, EnqStep(Enq(0), Send));
  }

  /** And it happens: one accepted invocation, and a receiver that goes away before taking it. */
  lemma OneStranded(c: Config, inv: Invocation) returns (acts: seq<Action>)
    requires c.Valid() && c.cap > 0
    ensures IsRun(c, Init(c), acts)
    ensures var s := After(c, Init(c), acts);
            !s.chan.receiverUp && s.chan.stranded == [inv] && s.tasks == map[] && DepthOf(s.depth, inv.tenant) == 1
  {
    var sent, s := OneSent(c, inv);
    acts, s := Then(c, sent, s, CloseReceiver);
  }

  lemma AcceptNext(c: Config, acts: seq<Action>, s: State, inv: Invocation) returns (longer: seq<Action>, s': State)
    requires IsRun(c, Init(c), acts) && After(c, Init(c), acts) == s && s.tasks == map[] && DepthOf(s.depth, inv.tenant) < c.cap
    ensures IsRun(c, Init(c), longer) && After(c, Init(c), longer) == s'
    ensures s'.tasks == map[Enq(s.next) := EnqSending(inv)] && s'.next == s.next + 1 && s'.log.abandoned == s.log.abandoned
    ensures DepthOf(s'.depth, inv.tenant) == DepthOf(s.depth, inv.tenant) + 1
  {
    longer, s' := Then(c, acts, s, Offer(inv));
    assert s'.tasks == map[Enq(s.next) := EnqNew(inv)];
    longer, s' := Then(c, longer, s', EnqStep(Enq(s.next), Count));
  }

  /** And it happens: any number of callers, up to the cap, that go away while they wait. */
  lemma {:induction false} AbandonedRun(c: Config, inv: Invocation, n: nat) returns (acts: seq<Action>, s: State)
    requires n <= c.cap
    ensures IsRun(c, Init(c), acts) && After(c, Init(c), acts) == s
    ensures s.tasks == map[] && Abandoned(s, inv.tenant) == n && DepthOf(s.depth, inv.tenant) == n
  {
    if n == 0 {
      acts, s := [], Init(c);
    } else {
      acts, s := AbandonedRun(c, inv, n - 1);
      var before := s;
      acts, s := AcceptNext(c, acts, s, inv);
      AbandonedStep(c, s, Cancel(Enq(before.next)), inv.tenant);
      acts, s := Then(c, acts, s, Cancel(Enq(before.next)));
    }
  }
}
