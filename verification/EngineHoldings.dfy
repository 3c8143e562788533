/**
 Locks, gates, markers and permits seen from the outside: which task holds which resource,
 and when the owner tables and the semaphore counters agree with that. Nothing here looks
 inside a task.
 */
module EngineHoldings {
  import opened EngineModel

  ghost function Put<K, T>(m: map<K, T>, k: K, t: Option<T>): map<K, T> {
    if t.Some? then m[k := t.value] else m - {k}
  }

  ghost function Look<K, T>(m: map<K, T>, k: K): Option<T> { if k in m then Some(m[k]) else None }

  // ---------------------------------------------------------------- one kind of resource

  /** `owner` is exactly the record of who holds what, and nobody shares: the two maps are
      each other's inverse. */
  ghost predicate Owned<K(!new), T(!new)>(held: map<K, T>, owner: map<T, K>) {
    && (forall t :: t in owner ==> owner[t] in held && held[owner[t]] == t)
    && (forall k :: k in held ==> held[k] in owner && owner[held[k]] == k)
  }

  /** The owner table follows one holder `k` from `was` to `now`; a lock is taken only when free. */
  ghost predicate OwnerMove<K, T>(owner: map<T, K>, owner': map<T, K>, k: K, was: Option<T>, now: Option<T>) {
    if was == now then owner' == owner
    else if was.None? then now.value !in owner && owner' == owner[now.value := k]
    else now.None? && owner' == owner - {was.value}
  }

  lemma OwnedMove<K(!new), T(!new)>(held: map<K, T>, owner: map<T, K>, owner': map<T, K>, k: K, now: Option<T>)
    requires Owned(held, owner) && OwnerMove(owner, owner', k, Look(held, k), now)
    ensures Owned(Put(held, k, now), owner')
  {
    if Look(held, k) == now { assert Put(held, k, now) == held; }
  }

  /** A marker set is exactly the markers held, one holder each. */
  ghost predicate Marked<K(!new), T(!new)>(held: map<K, T>, marks: set<T>) {
    && (forall k :: k in held ==> held[k] in marks)
    && (forall t :: t in marks ==> exists k :: k in held && held[k] == t)
    && (forall k, l :: k in held && l in held && held[k] == held[l] ==> k == l)
  }

  ghost predicate MarkMove<T>(marks: set<T>, marks': set<T>, was: Option<T>, now: Option<T>) {
    if was == now then marks' == marks
    else if was.None? then now.value !in marks && marks' == marks + {now.value}
    else now.None? && marks' == marks - {was.value}
  }

  lemma MarkedMove<K(!new), T(!new)>(held: map<K, T>, marks: set<T>, marks': set<T>, k: K, now: Option<T>)
    requires Marked(held, marks) && MarkMove(marks, marks', Look(held, k), now)
    ensures Marked(Put(held, k, now), marks')
  {
    var held' := Put(held, k, now);
    if Look(held, k) == now { assert held' == held; }
    forall u | u in marks' ensures exists l :: l in held' && held'[l] == u {
      if now == Some(u) { assert held'[k] == u; } else { var l :| l in held && held[l] == u; assert held'[l] == u; }
    }
  }

  /** A semaphore counts what its holders left. */
  ghost predicate Counted<K>(holders: set<K>, available: nat, limit: nat) { available + |holders| == limit }

  ghost function PutIf<K>(holders: set<K>, k: K, now: bool): set<K> { if now then holders + {k} else holders - {k} }

  ghost predicate CountMove(n: nat, n': nat, was: bool, now: bool) {
    n' == n + (if was then 1 else 0) - (if now then 1 else 0)
  }

  lemma CountedMove<K>(holders: set<K>, n: nat, n': nat, limit: nat, k: K, now: bool)
    requires Counted(holders, n, limit) && CountMove(n, n', k in holders, now)
    ensures Counted(PutIf(holders, k, now), n', limit)
  {
  }

  // ---------------------------------------------------------------- holdings of all tasks

  /** What a task holds: executor lock and permit, cron gate and permit, overlap marker. */
  datatype Held = Held(lock: Option<Tenant>, permit: bool, gate: Option<Tenant>, cronPermit: bool, mark: Option<(Tenant, int)>)

  const NOTHING: Held := Held(None, false, None, false, None)

  type Holdings = map<TaskId, Held>

  ghost function At(m: Holdings, k: TaskId): Held { if k in m then m[k] else NOTHING }

  ghost function LockMap(m: Holdings): map<TaskId, Tenant> { map k | k in m && m[k].lock.Some? :: m[k].lock.value }

  ghost function GateMap(m: Holdings): map<TaskId, Tenant> { map k | k in m && m[k].gate.Some? :: m[k].gate.value }

  ghost function MarkMap(m: Holdings): map<TaskId, (Tenant, int)> { map k | k in m && m[k].mark.Some? :: m[k].mark.value }

  ghost function PermitHolders(m: Holdings): set<TaskId> { set k | k in m && m[k].permit }

  ghost function CronPermitHolders(m: Holdings): set<TaskId> { set k | k in m && m[k].cronPermit }

  /** Tables and counters agree with the holdings. */
  ghost predicate Exclusive(c: Config, m: Holdings, r: Resources) {
    && Owned(LockMap(m), r.lockOwner)
    && Owned(GateMap(m), r.gateOwner)
    && Marked(MarkMap(m), r.inFlight)
    && Counted(PermitHolders(m), r.permits, c.permits)
    && Counted(CronPermitHolders(m), r.cronPermits, c.cronPermits)
  }

  /** The resource tables follow one task from holding `was` to holding `now`. */
  ghost predicate ResourceMove(r: Resources, r': Resources, k: TaskId, was: Held, now: Held) {
    && OwnerMove(r.lockOwner, r'.lockOwner, k, was.lock, now.lock)
    && OwnerMove(r.gateOwner, r'.gateOwner, k, was.gate, now.gate)
    && MarkMove(r.inFlight, r'.inFlight, was.mark, now.mark)
    && CountMove(r.permits, r'.permits, was.permit, now.permit)
    && CountMove(r.cronPermits, r'.cronPermits, was.cronPermit, now.cronPermit)
  }

  lemma LockView(m: Holdings, k: TaskId, h: Option<Held>)
    ensures LockMap(Put(m, k, h)) == Put(LockMap(m), k, if h.Some? then h.value.lock else None)
    ensures Look(LockMap(m), k) == At(m, k).lock
  {
  }

  lemma GateView(m: Holdings, k: TaskId, h: Option<Held>)
    ensures GateMap(Put(m, k, h)) == Put(GateMap(m), k, if h.Some? then h.value.gate else None)
    ensures Look(GateMap(m), k) == At(m, k).gate
  {
  }

  lemma MarkView(m: Holdings, k: TaskId, h: Option<Held>)
    ensures MarkMap(Put(m, k, h)) == Put(MarkMap(m), k, if h.Some? then h.value.mark else None)
    ensures Look(MarkMap(m), k) == At(m, k).mark
  {
  }

  lemma PermitViews(m: Holdings, k: TaskId, h: Option<Held>)
    ensures PermitHolders(Put(m, k, h)) == PutIf(PermitHolders(m), k, h.Some? && h.value.permit)
    ensures CronPermitHolders(Put(m, k, h)) == PutIf(CronPermitHolders(m), k, h.Some? && h.value.cronPermit)
    ensures k in PermitHolders(m) <==> At(m, k).permit
    ensures k in CronPermitHolders(m) <==> At(m, k).cronPermit
  {
  }

  lemma ExclusiveMove(c: Config, m: Holdings, r: Resources, r': Resources, k: TaskId, h: Option<Held>)
    requires Exclusive(c, m, r) && ResourceMove(r, r', k, At(m, k), if h.Some? then h.value else NOTHING)
    ensures Exclusive(c, Put(m, k, h), r')
  {
    var now := if h.Some? then h.value else NOTHING;
    assert Owned(LockMap(Put(m, k, h)), r'.lockOwner) by {
      LockView(m, k, h);
      OwnedMove(LockMap(m), r.lockOwner, r'.lockOwner, k, now.lock);
    }
    assert Owned(GateMap(Put(m, k, h)), r'.gateOwner) by {
      GateView(m, k, h);
      OwnedMove(GateMap(m), r.gateOwner, r'.gateOwner, k, now.gate);
    }
    assert Marked(MarkMap(Put(m, k, h)), r'.inFlight) by {
      MarkView(m, k, h);
      MarkedMove(MarkMap(m), r.inFlight, r'.inFlight, k, now.mark);
    }
    PermitViews(m, k, h);
    CountedMove(PermitHolders(m), r.permits, r'.permits, c.permits, k, now.permit);
    CountedMove(CronPermitHolders(m), r.cronPermits, r'.cronPermits, c.cronPermits, k, now.cronPermit);
  }
}
