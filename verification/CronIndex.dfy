/**
 The schedule index as a transition system: an in-memory cache of each tenant's active jobs,
 refreshed by read-then-apply under a per-tenant lock. Lock objects have an identity of their
 own: `invalidate` drops the lock from the lock table while others may still hold or wait on
 a clone of it, and a later `reload` puts a new one in its place.

 Two things may go wrong with a reload: its read may fail, which clears the entry, and its
 caller may go away while it waits for the lock or for the read, after the commit that called
 for it. An `invalidate` may lose its caller likewise while it waits for the lock.
 */
module CronIndex {

  type Tenant = string
  type Lock = nat
  type TaskId = nat

  datatype Option<+T> = None | Some(value: T)

  datatype IndexedJob = IndexedJob(id: int, name: string, schedule: string, targetKind: string, targetName: string, payload: string)

  datatype Row = Row(job: IndexedJob, active: bool)

  /** The active rows, in order. */
  function ActiveJobs(rows: seq<Row>): seq<IndexedJob> {
    if rows == [] then [] else (if rows[0].active then [rows[0].job] else []) + ActiveJobs(rows[1..])
  }

  type Index = map<Tenant, seq<IndexedJob>>

  /** `apply_jobs`: an empty list removes the entry. */
  function Applied(index: Index, t: Tenant, rows: seq<Row>): Index {
    if ActiveJobs(rows) == [] then index - {t} else index[t := ActiveJobs(rows)]
  }

  datatype Kind = Reload | Scan | Invalidate

  datatype Phase =
    | Entering                             // about to look the lock up (or create it)
    | Waiting(lock: Lock)                  // holds a clone, waits for the lock
    | Holding(lock: Lock)                  // has the lock
    | HasRead(lock: Lock, rows: seq<Row>)  // has read the database, not applied yet
    | Removed(lock: Lock)                  // invalidate: entry removed, lock still in the table
    | Leaving(lock: Lock)                  // done, guard not dropped yet

  datatype Task = Task(t: Tenant, kind: Kind, phase: Phase)

  /** `loaded`: some read has been applied; `swept`: some invalidate has removed the entry. */
  datatype State = State(
    db: map<Tenant, seq<Row>>,
    deleted: set<Tenant>,
    index: Index,
    locks: map<Tenant, Lock>,
    owner: map<Lock, TaskId>,
    nextLock: Lock,
    tasks: map<TaskId, Task>,
    nextTask: TaskId,
    loaded: set<Tenant>,
    swept: set<Tenant>)

  const Init := State(map[], {}, map[], map[], map[], 0, map[], 0, {}, {})

  function Rows(db: map<Tenant, seq<Row>>, t: Tenant): seq<Row> { if t in db then db[t] else [] }

  datatype Action =
    | Commit(t: Tenant, rows: seq<Row>)  // a mutation commits; its reload is still to come
    | Begin(t: Tenant, kind: Kind)       // a reload without mutation, a scan, an invalidate
    | SoftDelete(t: Tenant)
    | Enter(k: TaskId)
    | Acquire(k: TaskId)
    | ReadDb(k: TaskId)
    | ReadFails(k: TaskId, t: Tenant)    // a reload's read of `t`
    | SkipTenant(k: TaskId)              // the scan's read failed
    | Apply(k: TaskId)
    | RemoveEntry(k: TaskId)
    | ForgetLock(k: TaskId)
    | Release(k: TaskId)
    | Cancel(k: TaskId, t: Tenant)       // the caller of a reload or invalidate of `t` goes away

  /** A deleted tenant is not mutated any more, and only a deleted tenant is invalidated. */
  predicate Enabled(s: State, a: Action) {
    match a
    case Commit(t, _) => t !in s.deleted
    case Begin(t, kind) => kind.Invalidate? ==> t in s.deleted
    case SoftDelete(_) => true
    case Enter(k) => k in s.tasks && s.tasks[k].phase.Entering?
    case Acquire(k) => k in s.tasks && s.tasks[k].phase.Waiting? && s.tasks[k].phase.lock !in s.owner
    case ReadDb(k) => k in s.tasks && s.tasks[k].phase.Holding? && !s.tasks[k].kind.Invalidate?
    case ReadFails(k, t) => k in s.tasks && s.tasks[k].t == t && s.tasks[k].phase.Holding? && s.tasks[k].kind.Reload?
    case SkipTenant(k) => k in s.tasks && s.tasks[k].phase.Holding? && s.tasks[k].kind.Scan?
    case Apply(k) => k in s.tasks && s.tasks[k].phase.HasRead?
    case RemoveEntry(k) => k in s.tasks && s.tasks[k].phase.Holding? && s.tasks[k].kind.Invalidate?
    case ForgetLock(k) => k in s.tasks && s.tasks[k].phase.Removed?
    case Release(k) => k in s.tasks && s.tasks[k].phase.Leaving?
    case Cancel(k, t) => k in s.tasks && s.tasks[k].t == t && Cancellable(s.tasks[k])
  }

  /** Waiting for the lock, or under the lock for the read. The boot scan has no caller. */
  predicate Cancellable(task: Task) {
    (task.phase.Waiting? && !task.kind.Scan?) || (task.phase.Holding? && task.kind.Reload?)
  }

  /** The task an action moves, if it moves one. */
  function MovedTask(a: Action): Option<TaskId> {
    match a
    case Commit(_, _) => None
    case Begin(_, _) => None
    case SoftDelete(_) => None
    case _ => Some(a.k)
  }

  /** `locks.entry(t).or_default()`. */
  function LockOf(s: State, t: Tenant): Lock { if t in s.locks then s.locks[t] else s.nextLock }

  function Moved(s: State, k: TaskId, p: Phase): map<TaskId, Task>
    requires k in s.tasks
  {
    s.tasks[k := s.tasks[k].(phase := p)]
  }

  function Spawned(s: State, t: Tenant, kind: Kind): State {
    s.(tasks := s.tasks[s.nextTask := Task(t, kind, Entering)], nextTask := s.nextTask + 1)
  }

  function Next(s: State, a: Action): State
    requires Enabled(s, a)
  {
    match a
    case Commit(t, rows) => Spawned(s.(db := s.db[t := rows]), t, Reload)
    case Begin(t, kind) => Spawned(s, t, kind)
    case SoftDelete(t) => s.(db := s.db[t := []], deleted := s.deleted + {t})
    case Enter(k) =>
      var lock := LockOf(s, s.tasks[k].t);
      s.(locks := s.locks[s.tasks[k].t := lock],
         nextLock := if lock == s.nextLock then s.nextLock + 1 else s.nextLock,
         tasks := Moved(s, k, Waiting(lock)))
    case Acquire(k) => s.(owner := s.owner[s.tasks[k].phase.lock := k], tasks := Moved(s, k, Holding(s.tasks[k].phase.lock)))
    case ReadDb(k) => s.(tasks := Moved(s, k, HasRead(s.tasks[k].phase.lock, Rows(s.db, s.tasks[k].t))))
    case ReadFails(k, _) => s.(tasks := Moved(s, k, HasRead(s.tasks[k].phase.lock, [])))
    case SkipTenant(k) => s.(tasks := Moved(s, k, Leaving(s.tasks[k].phase.lock)))
    case Apply(k) =>
      s.(index := Applied(s.index, s.tasks[k].t, s.tasks[k].phase.rows),
         loaded := s.loaded + {s.tasks[k].t},
         tasks := Moved(s, k, Leaving(s.tasks[k].phase.lock)))
    case RemoveEntry(k) =>
      s.(index := s.index - {s.tasks[k].t},
         swept := s.swept + {s.tasks[k].t},
         tasks := Moved(s, k, Removed(s.tasks[k].phase.lock)))
    case ForgetLock(k) => s.(locks := s.locks - {s.tasks[k].t}, tasks := Moved(s, k, Leaving(s.tasks[k].phase.lock)))
    case Release(k) => s.(owner := s.owner - {s.tasks[k].phase.lock}, tasks := s.tasks - {k})
    case Cancel(k, _) =>
      s.(owner := if s.tasks[k].phase.Holding? then s.owner - {s.tasks[k].phase.lock} else s.owner, tasks := s.tasks - {k})
  }

  ghost predicate IsRun(s: State, acts: seq<Action>)
    decreases |acts|, 0
  {
    acts == [] || (IsRun(s, acts[..|acts| - 1]) && Enabled(After(s, acts[..|acts| - 1]), acts[|acts| - 1]))
  }

  ghost function After(s: State, acts: seq<Action>): State
    requires IsRun(s, acts)
    decreases |acts|, 1
  {
    if acts == [] then s else Next(After(s, acts[..|acts| - 1]), acts[|acts| - 1])
  }

  // ---------------------------------------------------------------- invariants

  predicate HasClone(p: Phase) { !p.Entering? }

  predicate HasLock(p: Phase) { !p.Entering? && !p.Waiting? }

  ghost predicate Numbered(s: State) {
    && (forall k :: k in s.tasks ==> k < s.nextTask)
    && (forall t :: t in s.locks ==> s.locks[t] < s.nextLock)
    && (forall k :: k in s.tasks && HasClone(s.tasks[k].phase) ==> s.tasks[k].phase.lock < s.nextLock)
  }

  /** Whoever is past the lock owns it. */
  ghost predicate Owned(s: State) {
    forall k :: k in s.tasks && HasLock(s.tasks[k].phase) ==>
      s.tasks[k].phase.lock in s.owner && s.owner[s.tasks[k].phase.lock] == k
  }

  /** Until a tenant is swept, everyone who works on it uses the one lock of the table. */
  ghost predicate OneLock(s: State) {
    forall k :: k in s.tasks && HasClone(s.tasks[k].phase) && s.tasks[k].t !in s.swept ==>
      s.tasks[k].t in s.locks && s.locks[s.tasks[k].t] == s.tasks[k].phase.lock
  }

  ghost predicate Deletions(s: State) {
    && s.swept <= s.deleted
    && (forall t :: t in s.deleted ==> Rows(s.db, t) == [])
    && (forall k :: k in s.tasks && (s.tasks[k].kind.Invalidate? || s.tasks[k].phase.Removed?) ==> s.tasks[k].t in s.deleted)
    && (forall k :: k in s.tasks && s.tasks[k].phase.Removed? ==> s.tasks[k].t in s.swept)
  }

  ghost predicate NoEmptyEntry(s: State) { forall t :: t in s.index ==> s.index[t] != [] }

  function Entry(index: Index, t: Tenant): seq<IndexedJob> { if t in index then index[t] else [] }

  ghost predicate Agrees(s: State, t: Tenant) { Entry(s.index, t) == ActiveJobs(Rows(s.db, t)) }

  /** Task `k` is a reload of `t` that has not read yet. */
  ghost predicate WillRead(s: State, t: Tenant, k: TaskId) {
    k in s.tasks && s.tasks[k].t == t && s.tasks[k].kind.Reload? &&
    (s.tasks[k].phase.Entering? || s.tasks[k].phase.Waiting? || s.tasks[k].phase.Holding?)
  }

  ghost predicate HasReadOf(s: State, t: Tenant, k: TaskId) { k in s.tasks && s.tasks[k].t == t && s.tasks[k].phase.HasRead? }

  /** What task `k` has read is what the database has: the same active jobs. */
  ghost predicate FreshRead(s: State, t: Tenant, k: TaskId) {
    HasReadOf(s, t, k) && ActiveJobs(s.tasks[k].phase.rows) == ActiveJobs(Rows(s.db, t))
  }

  ghost predicate NoStaleRead(s: State, t: Tenant) { forall k :: HasReadOf(s, t, k) ==> FreshRead(s, t, k) }

  /** The entry of `t` is right already, or a reload is about to make it so. */
  ghost predicate RightOrFixed(s: State, t: Tenant) {
    Agrees(s, t) || exists k :: FreshRead(s, t, k) && s.tasks[k].kind.Reload?
  }

  /** The entry of `t` is taken care of: a reload is yet to read; or nobody holds an outdated read
      and the entry, if there has been a load, is right or about to be. */
  ghost predicate Covered(s: State, t: Tenant) {
    (exists k :: WillRead(s, t, k)) || (NoStaleRead(s, t) && (t in s.loaded ==> RightOrFixed(s, t)))
  }

  ghost predicate SweptStaysEmpty(s: State) {
    && (forall t :: t in s.swept ==> t !in s.index)
    && (forall k :: k in s.tasks && s.tasks[k].phase.HasRead? && s.tasks[k].t in s.swept ==> ActiveJobs(s.tasks[k].phase.rows) == [])
  }

  ghost predicate Inv(s: State) {
    Numbered(s) && Owned(s) && OneLock(s) && Deletions(s) && NoEmptyEntry(s) && SweptStaysEmpty(s)
  }
}
