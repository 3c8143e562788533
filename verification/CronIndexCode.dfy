/**
 The code of the index as whole methods in the source's statement order, upon the fields all
 tasks share. Between any two of its statements arbitrary steps of everybody else may happen
 (`Others`). Each method is proved to emit exactly its own task's steps, in order, inside a run
 of the transition system, and to stop before its end only while somebody else holds its lock.
 */
module CronIndexCode {
  import opened CronIndex
  import opened CronIndexTheorems

  // ---------------------------------------------------------------- whose steps

  predicate Own(k: TaskId, a: Action) { MovedTask(a) == Some(k) }

  /** The steps of a run that are task `k`'s own, in order. */
  ghost function Mine(k: TaskId, acts: seq<Action>): seq<Action> {
    if acts == [] then []
    else Mine(k, acts[..|acts| - 1]) + if Own(k, acts[|acts| - 1]) then [acts[|acts| - 1]] else []
  }

  lemma MineSnoc(k: TaskId, acts: seq<Action>, a: Action)
    ensures Mine(k, acts + [a]) == if Own(k, a) then Mine(k, acts) + [a] else Mine(k, acts)
  {
    assert (acts + [a])[..|acts + [a]| - 1] == acts;
  }

  /** The history is a run, and this is its last state. */
  ghost predicate RunEnds(acts: seq<Action>, s: State) { IsRun(Init, acts) && After(Init, acts) == s }

  lemma RunEndsInv(acts: seq<Action>, s: State)
    requires RunEnds(acts, s)
    ensures Inv(s)
  {
    InvRun(Init, acts);
  }

  lemma RunEndsSnoc(acts: seq<Action>, s: State, a: Action)
    requires RunEnds(acts, s) && Enabled(s, a)
    ensures RunEnds(acts + [a], Next(s, a))
  {
    Snoc(Init, acts, a);
  }

  /** What others leave alone: where `k` stands, and that a tenant has been loaded or swept. */
  ghost predicate Kept(k: TaskId, s: State, s': State) {
    (k in s.tasks ==> k in s'.tasks && s'.tasks[k] == s.tasks[k]) && s.loaded <= s'.loaded && s.swept <= s'.swept
  }

  lemma OthersKeep(k: TaskId, s: State, a: Action)
    requires Numbered(s) && Enabled(s, a) && !Own(k, a)
    ensures Kept(k, s, Next(s, a))
  {
    if k in s.tasks {
      OthersStay(s, a, k);
    }
  }

  /** Task `k` has been here and is gone. */
  ghost predicate Gone(k: TaskId, s: State) { k !in s.tasks && k < s.nextTask }

  lemma GoneStep(k: TaskId, s: State, a: Action)
    requires Enabled(s, a) && Gone(k, s)
    ensures Gone(k, Next(s, a)) && !Own(k, a)
  {
  }

  /** Who is gone does nothing any more, and task numbers are not used twice. */
  lemma {:induction false} GoneForever(k: TaskId, before: seq<Action>, acts: seq<Action>)
    requires IsRun(Init, acts) && before <= acts && IsRun(Init, before) && Gone(k, After(Init, before))
    ensures Gone(k, After(Init, acts)) && Mine(k, acts) == Mine(k, before)
    decreases |acts|
  {
    if |acts| == |before| {
      assert acts == before;
    } else {
      GoneForever(k, before, acts[..|acts| - 1]);
      GoneStep(k, After(Init, acts[..|acts| - 1]), acts[|acts| - 1]);
    }
  }

  lemma NumbersStep(s: State, a: Action)
    requires Enabled(s, a)
    ensures s.nextTask <= Next(s, a).nextTask
    ensures Numbered(s) && MovedTask(a).Some? ==> a.k < s.nextTask
  {
  }

  lemma {:induction false} NumbersGrow(before: seq<Action>, acts: seq<Action>)
    requires IsRun(Init, acts) && before <= acts && IsRun(Init, before)
    ensures After(Init, before).nextTask <= After(Init, acts).nextTask
    decreases |acts|
  {
    if |acts| == |before| {
      assert acts == before;
    } else {
      NumbersGrow(before, acts[..|acts| - 1]);
      NumbersStep(After(Init, acts[..|acts| - 1]), acts[|acts| - 1]);
    }
  }

  /** Who has not been here yet has done nothing. */
  lemma {:induction false} NothingYet(k: TaskId, acts: seq<Action>)
    requires IsRun(Init, acts) && k >= After(Init, acts).nextTask
    ensures Mine(k, acts) == []
    decreases |acts|
  {
    if acts != [] {
      InvRun(Init, acts[..|acts| - 1]);
      NumbersStep(After(Init, acts[..|acts| - 1]), acts[|acts| - 1]);
      NothingYet(k, acts[..|acts| - 1]);
    }
  }

  // ---------------------------------------------------------------- the programs

  /** The steps of a reload, whose read may fail. */
  function ReloadSteps(k: TaskId, t: Tenant, readable: bool): seq<Action> {
    [Enter(k), Acquire(k), if readable then ReadDb(k) else ReadFails(k, t), Apply(k), Release(k)]
  }

  /** One turn of the boot scan, which skips a tenant it cannot read. */
  function ScanSteps(k: TaskId, readable: bool): seq<Action> {
    if readable then [Enter(k), Acquire(k), ReadDb(k), Apply(k), Release(k)] else [Enter(k), Acquire(k), SkipTenant(k), Release(k)]
  }

  /** The entry goes, then the lock itself. */
  function InvalidateSteps(k: TaskId): seq<Action> { [Enter(k), Acquire(k), RemoveEntry(k), ForgetLock(k), Release(k)] }

  lemma Joined(m: seq<Action>, a: Action, b: Action, rest: seq<Action>)
    ensures m + [a] + [b] + rest == m + ([a, b] + rest)
    ensures m + [a] == m + ([a, b] + rest)[..1]
  {
    assert ([a, b] + rest)[..1] == [a];
  }

  lemma Two(m: seq<Action>, a: Action, b: Action)
    ensures m + [a] + [b] == m + [a, b]
  {
  }

  lemma Three(m: seq<Action>, a: Action, b: Action, d: Action)
    ensures m + [a] + [b] + [d] == m + [a, b, d]
  {
  }

  lemma ReloadParts(k: TaskId, t: Tenant, readable: bool)
    ensures ReloadSteps(k, t, readable) == [Enter(k), Acquire(k)] + [if readable then ReadDb(k) else ReadFails(k, t), Apply(k), Release(k)]
    ensures ReloadSteps(k, t, readable)[..5] == ReloadSteps(k, t, readable)
  {
  }

  lemma ScanParts(k: TaskId)
    ensures ScanSteps(k, true) == [Enter(k), Acquire(k)] + [ReadDb(k), Apply(k), Release(k)]
    ensures ScanSteps(k, false) == [Enter(k), Acquire(k)] + [SkipTenant(k), Release(k)]
    ensures ScanSteps(k, true)[..5] == ScanSteps(k, true) && ScanSteps(k, false)[..4] == ScanSteps(k, false)
  {
  }

  lemma InvalidateParts(k: TaskId)
    ensures InvalidateSteps(k) == [Enter(k), Acquire(k)] + [RemoveEntry(k), ForgetLock(k), Release(k)]
    ensures InvalidateSteps(k)[..5] == InvalidateSteps(k)
  {
  }

  // ---------------------------------------------------------------- turns of the boot scan

  /** Turn `k` of the boot scan is over: it took all its steps, and a readable tenant is loaded. */
  ghost predicate TurnOver(k: TaskId, t: Tenant, readable: bool, acts: seq<Action>, s: State) {
    Gone(k, s) && Mine(k, acts) == ScanSteps(k, readable) && (readable ==> t in s.loaded)
  }

  /** The first `n` tenants have had their turns. */
  ghost predicate TurnsOver(turns: seq<TaskId>, ids: seq<Tenant>, unreadable: set<Tenant>, n: nat, acts: seq<Action>, s: State) {
    n <= |turns| && n <= |ids| && forall i :: 0 <= i < n ==> TurnOver(turns[i], ids[i], ids[i] !in unreadable, acts, s)
  }

  lemma TurnsStay(turns: seq<TaskId>, ids: seq<Tenant>, unreadable: set<Tenant>, n: nat, before: seq<Action>, s: State, acts: seq<Action>, s': State, k: TaskId)
    requires RunEnds(before, s) && RunEnds(acts, s') && before <= acts && s.loaded <= s'.loaded && TurnsOver(turns, ids, unreadable, n, before, s)
    ensures TurnsOver(turns + [k], ids, unreadable, n, acts, s')
  {
    forall i | 0 <= i < n
      ensures TurnOver((turns + [k])[i], ids[i], ids[i] !in unreadable, acts, s')
    {
      assert TurnOver(turns[i], ids[i], ids[i] !in unreadable, before, s);
      GoneForever(turns[i], before, acts);
    }
  }

  // ---------------------------------------------------------------- the shared state

  class ScheduleIndex {
    var db: map<Tenant, seq<Row>>
    var deleted: set<Tenant>
    var entries: Index
    var locks: map<Tenant, Lock>
    var owner: map<Lock, TaskId>
    var nextLock: Lock
    var tasks: map<TaskId, Task>
    var nextTask: TaskId
    var loaded: set<Tenant>
    var swept: set<Tenant>
    ghost var trace: seq<Action>

    function View(): State
      reads this
    {
      State(db, deleted, entries, locks, owner, nextLock, tasks, nextTask, loaded, swept)
    }

    ghost predicate Valid()
      reads this
    {
      RunEnds(trace, View())
    }

    constructor ()
      ensures Valid() && trace == []
    {
      db, deleted, entries, locks, owner, nextLock := map[], {}, map[], map[], map[], 0;
      tasks, nextTask, loaded, swept, trace := map[], 0, {}, {}, [];
    }

    /** What task `k` has done so far. */
    ghost function Steps(k: TaskId): seq<Action>
      reads this
    {
      Mine(k, trace)
    }

    /** Task `k` is there and waits for a lock that somebody holds. */
    ghost predicate WaitsForLock(k: TaskId)
      reads this
    {
      k in tasks && tasks[k].phase.Waiting? && tasks[k].phase.lock in owner
    }

    /** The field updates since `before` are the action `a`. */
    ghost method Note(before: State, a: Action)
      requires RunEnds(trace, before) && Enabled(before, a) && View() == Next(before, a)
      modifies this`trace
      ensures Valid() && trace == old(trace) + [a]
      ensures forall k :: Steps(k) == if Own(k, a) then old(Steps(k)) + [a] else old(Steps(k))
    {
      RunEndsSnoc(trace, before, a);
      trace := trace + [a];
      forall k
        ensures Mine(k, trace) == if Own(k, a) then Mine(k, old(trace)) + [a] else Mine(k, old(trace))
      {
        MineSnoc(k, old(trace), a);
      }
    }

    method Become(s: State)
      modifies this
      ensures View() == s && trace == old(trace)
    {
      db, deleted, entries, locks, owner, nextLock := s.db, s.deleted, s.index, s.locks, s.owner, s.nextLock;
      tasks, nextTask, loaded, swept := s.tasks, s.nextTask, s.loaded, s.swept;
    }

    /** One step of somebody else. */
    method OneOther(k: TaskId, a: Action)
      requires Valid() && Enabled(View(), a) && !Own(k, a)
      modifies this
      ensures Valid() && old(trace) <= trace && Steps(k) == old(Steps(k)) && Kept(k, old(View()), View())
    {
      ghost var before := View();
      RunEndsInv(trace, before);
      OthersKeep(k, before, a);
      Become(Next(View(), a));
      Note(before, a);
    }

    /** Any number of arbitrary steps of everybody but task `k`. */
    method Others(k: TaskId)
      requires Valid()
      modifies this
      ensures Valid() && old(trace) <= trace && Steps(k) == old(Steps(k)) && Kept(k, old(View()), View())
    {
      var n: nat := *;
      while n > 0
        invariant Valid() && old(trace) <= trace && Steps(k) == old(Steps(k)) && Kept(k, old(View()), View())
        decreases n
      {
        var a: Action := *;
        if Enabled(View(), a) && !Own(k, a) {
          OneOther(k, a);
        }
        n := n - 1;
      }
    }

    // ------------------------------------------------------------ single statements

    /** `locks.entry(t).or_default().clone()`. */
    method CloneLock(k: TaskId, t: Tenant) returns (lock: Lock)
      requires Valid() && k in tasks && tasks[k].t == t && tasks[k].phase.Entering?
      modifies this
      ensures Valid() && old(trace) <= trace && Steps(k) == old(Steps(k)) + [Enter(k)] && loaded == old(loaded) && swept == old(swept)
      ensures k in tasks && tasks[k] == old(tasks)[k].(phase := Waiting(lock))
    {
      ghost var before := View();
      RunEndsInv(trace, before);
      if t in locks {
        lock := locks[t];
      } else {
        lock := nextLock;
        nextLock := nextLock + 1;
      }
      locks := locks[t := lock];
      tasks := tasks[k := tasks[k].(phase := Waiting(lock))];
      Note(before, Enter(k));
    }

    method TakeLock(k: TaskId, lock: Lock)
      requires Valid() && k in tasks && tasks[k].phase == Waiting(lock) && lock !in owner
      modifies this
      ensures Valid() && old(trace) <= trace && Steps(k) == old(Steps(k)) + [Acquire(k)] && loaded == old(loaded) && swept == old(swept)
      ensures k in tasks && tasks[k] == old(tasks)[k].(phase := Holding(lock))
    {
      ghost var before := View();
      owner := owner[lock := k];
      tasks := tasks[k := tasks[k].(phase := Holding(lock))];
      Note(before, Acquire(k));
    }

    method DropGuard(k: TaskId, lock: Lock)
      requires Valid() && k in tasks && tasks[k].phase == Leaving(lock)
      modifies this
      ensures Valid() && old(trace) <= trace && Steps(k) == old(Steps(k)) + [Release(k)] && loaded == old(loaded) && swept == old(swept)
      ensures k !in tasks
    {
      ghost var before := View();
      owner := owner - {lock};
      tasks := tasks - {k};
      Note(before, Release(k));
    }

    method ReadJobs(k: TaskId, t: Tenant, lock: Lock) returns (rows: seq<Row>)
      requires Valid() && k in tasks && tasks[k].t == t && tasks[k].phase == Holding(lock) && !tasks[k].kind.Invalidate?
      modifies this
      ensures Valid() && old(trace) <= trace && Steps(k) == old(Steps(k)) + [ReadDb(k)] && loaded == old(loaded)
      ensures k in tasks && tasks[k] == old(tasks)[k].(phase := HasRead(lock, rows))
    {
      ghost var before := View();
      rows := if t in db then db[t] else [];
      tasks := tasks[k := tasks[k].(phase := HasRead(lock, rows))];
      Note(before, ReadDb(k));
    }

    /** A failed read counts as no jobs. */
    method FailToRead(k: TaskId, t: Tenant, lock: Lock)
      requires Valid() && k in tasks && tasks[k].t == t && tasks[k].phase == Holding(lock) && tasks[k].kind.Reload?
      modifies this
      ensures Valid() && old(trace) <= trace && Steps(k) == old(Steps(k)) + [ReadFails(k, t)] && loaded == old(loaded)
      ensures k in tasks && tasks[k] == old(tasks)[k].(phase := HasRead(lock, []))
    {
      ghost var before := View();
      tasks := tasks[k := tasks[k].(phase := HasRead(lock, []))];
      Note(before, ReadFails(k, t));
    }

    method SkipUnreadable(k: TaskId, lock: Lock)
      requires Valid() && k in tasks && tasks[k].phase == Holding(lock) && tasks[k].kind.Scan?
      modifies this
      ensures Valid() && old(trace) <= trace && Steps(k) == old(Steps(k)) + [SkipTenant(k)] && loaded == old(loaded)
      ensures k in tasks && tasks[k] == old(tasks)[k].(phase := Leaving(lock))
    {
      ghost var before := View();
      tasks := tasks[k := tasks[k].(phase := Leaving(lock))];
      Note(before, SkipTenant(k));
    }

    /** `apply_jobs`: the entry becomes the jobs of the active rows, row by row; without any it is
        removed; the other tenants' entries stay. */
    method ApplyJobs(t: Tenant, rows: seq<Row>)
      modifies this`entries
      ensures entries == Applied(old(entries), t, rows)
      ensures AreActive(rows, if t in entries then entries[t] else []) && (t in entries ==> entries[t] != [])
      ensures entries - {t} == old(entries) - {t}
    {
      ActiveJobsAre(rows, ActiveJobs(rows));
      var active: seq<IndexedJob> := [];
      for i := 0 to |rows|
        invariant active + ActiveJobs(rows[i..]) == ActiveJobs(rows)
      {
        assert rows[i..][0] == rows[i] && rows[i..][1..] == rows[i + 1..];
        if rows[i].active {
          active := active + [rows[i].job];
        }
      }
      assert rows[|rows|..] == [] && active == ActiveJobs(rows);
      if active == [] {
        entries := entries - {t};
      } else {
        entries := entries[t := active];
      }
    }

    method ApplyRead(k: TaskId, t: Tenant, lock: Lock, rows: seq<Row>)
      requires Valid() && k in tasks && tasks[k].t == t && tasks[k].phase == HasRead(lock, rows)
      modifies this
      ensures Valid() && old(trace) <= trace && Steps(k) == old(Steps(k)) + [Apply(k)] && loaded == old(loaded) + {t}
      ensures k in tasks && tasks[k] == old(tasks)[k].(phase := Leaving(lock))
    {
      ghost var before := View();
      ApplyJobs(t, rows);
      loaded := loaded + {t};
      tasks := tasks[k := tasks[k].(phase := Leaving(lock))];
      Note(before, Apply(k));
    }

    method DropEntry(k: TaskId, t: Tenant, lock: Lock)
      requires Valid() && k in tasks && tasks[k].t == t && tasks[k].phase == Holding(lock) && tasks[k].kind.Invalidate?
      modifies this
      ensures Valid() && Steps(k) == old(Steps(k)) + [RemoveEntry(k)] && t in swept
      ensures k in tasks && tasks[k] == old(tasks)[k].(phase := Removed(lock))
    {
      ghost var before := View();
      entries := entries - {t};
      swept := swept + {t};
      tasks := tasks[k := tasks[k].(phase := Removed(lock))];
      Note(before, RemoveEntry(k));
    }

    method DropLock(k: TaskId, t: Tenant, lock: Lock)
      requires Valid() && k in tasks && tasks[k].t == t && tasks[k].phase == Removed(lock)
      modifies this
      ensures Valid() && Steps(k) == old(Steps(k)) + [ForgetLock(k)] && swept == old(swept)
      ensures k in tasks && tasks[k] == old(tasks)[k].(phase := Leaving(lock))
    {
      ghost var before := View();
      locks := locks - {t};
      tasks := tasks[k := tasks[k].(phase := Leaving(lock))];
      Note(before, ForgetLock(k));
    }

    // ------------------------------------------------------------ whole methods

    /** The tenant's lock is cloned out of the table and awaited. */
    method LockTenant(k: TaskId, t: Tenant) returns (lock: Lock, got: bool)
      requires Valid() && k in tasks && tasks[k].t == t && tasks[k].phase.Entering?
      modifies this
      ensures Valid() && old(trace) <= trace && Steps(k) == old(Steps(k)) + if got then [Enter(k)] + [Acquire(k)] else [Enter(k)]
      ensures if got then k in tasks && tasks[k] == old(tasks)[k].(phase := Holding(lock))
              else WaitsForLock(k) && tasks[k].t == t && tasks[k].kind == old(tasks)[k].kind
      ensures old(loaded) <= loaded
    {
      Others(k);
      lock := CloneLock(k, t);
      Others(k);
      got := lock !in owner;
      if got {
        TakeLock(k, lock);
      }
    }

    /** From the read on, under the lock. */
    method ReadAndApply(k: TaskId, t: Tenant, lock: Lock, readable: bool)
      requires Valid() && k in tasks && tasks[k].t == t && tasks[k].phase == Holding(lock) && tasks[k].kind.Reload?
      modifies this
      ensures Valid() && old(trace) <= trace && k !in tasks && t in loaded
      ensures Steps(k) == old(Steps(k)) + [if readable then ReadDb(k) else ReadFails(k, t), Apply(k), Release(k)]
    {
      Others(k);
      var rows: seq<Row> := [];
      if readable {
        rows := ReadJobs(k, t, lock);
      } else {
        FailToRead(k, t, lock);
      }
      Others(k);
      ApplyRead(k, t, lock, rows);
      Others(k);
      DropGuard(k, lock);
      Three(old(Steps(k)), if readable then ReadDb(k) else ReadFails(k, t), Apply(k), Release(k));
    }

    /** `reload`: lock, read (a failed read counts as no jobs), apply, unlock; it stops after the
        first step only while somebody else holds the lock. */
    method Reload(k: TaskId, t: Tenant, readable: bool) returns (n: nat)
      requires Valid() && k in tasks && tasks[k] == Task(t, CronIndex.Reload, Entering)
      modifies this
      ensures Valid() && old(trace) <= trace && (n == 1 || n == 5) && Steps(k) == old(Steps(k)) + ReloadSteps(k, t, readable)[..n]
      ensures if n == 5 then k !in tasks && t in loaded else WaitsForLock(k)
    {
      ReloadParts(k, t, readable);
      Joined(old(Steps(k)), Enter(k), Acquire(k), [if readable then ReadDb(k) else ReadFails(k, t), Apply(k), Release(k)]);
      var lock, got := LockTenant(k, t);
      if !got {
        return 1;
      }
      ReadAndApply(k, t, lock, readable);
      return 5;
    }

    /** A mutation: commit, then `reload`, whatever others do in between. */
    method Mutate(t: Tenant, rows: seq<Row>, readable: bool) returns (k: TaskId, n: nat)
      requires Valid() && t !in deleted
      modifies this
      ensures Valid() && (n == 1 || n == 5) && old(trace) + [Commit(t, rows)] <= trace
      ensures Steps(k) == Mine(k, old(trace)) + ReloadSteps(k, t, readable)[..n]
      ensures if n == 5 then k !in tasks && t in loaded else WaitsForLock(k)
    {
      ghost var before := View();
      k := nextTask;
      db, tasks, nextTask := db[t := rows], tasks[k := Task(t, CronIndex.Reload, Entering)], nextTask + 1;
      Note(before, Commit(t, rows));
      n := Reload(k, t, readable);
    }

    /** `invalidate`: lock, entry out, lock out of the table, unlock; afterwards the entry is gone,
        whatever others do meanwhile. */
    method Invalidate(k: TaskId, t: Tenant) returns (n: nat)
      requires Valid() && k in tasks && tasks[k] == Task(t, CronIndex.Invalidate, Entering)
      modifies this
      ensures Valid() && (n == 1 || n == 5) && Steps(k) == old(Steps(k)) + InvalidateSteps(k)[..n]
      ensures if n == 5 then k !in tasks && t !in entries else WaitsForLock(k)
    {
      InvalidateParts(k);
      Joined(old(Steps(k)), Enter(k), Acquire(k), [RemoveEntry(k), ForgetLock(k), Release(k)]);
      var lock, got := LockTenant(k, t);
      if !got {
        return 1;
      }
      Sweep(k, t, lock);
      RunEndsInv(trace, View());
      return 5;
    }

    /** Entry out, lock out of the table, guard dropped. */
    method Sweep(k: TaskId, t: Tenant, lock: Lock)
      requires Valid() && k in tasks && tasks[k].t == t && tasks[k].phase == Holding(lock) && tasks[k].kind.Invalidate?
      modifies this
      ensures Valid() && k !in tasks && t in swept
      ensures Steps(k) == old(Steps(k)) + [RemoveEntry(k), ForgetLock(k), Release(k)]
    {
      DropEntry(k, t, lock);
      Others(k);
      DropLock(k, t, lock);
      Others(k);
      DropGuard(k, lock);
      Three(old(Steps(k)), RemoveEntry(k), ForgetLock(k), Release(k));
    }

    /** One turn of the boot scan: like a reload, but an unreadable tenant is skipped. */
    method ScanTenant(k: TaskId, t: Tenant, readable: bool) returns (n: nat)
      requires Valid() && k in tasks && tasks[k] == Task(t, Scan, Entering)
      modifies this
      ensures Valid() && old(trace) <= trace && n <= |ScanSteps(k, readable)| && Steps(k) == old(Steps(k)) + ScanSteps(k, readable)[..n]
      ensures if n == |ScanSteps(k, readable)| then k !in tasks && (readable ==> t in loaded) else n == 1 && WaitsForLock(k) && tasks[k].t == t
      ensures old(loaded) <= loaded
    {
      ScanParts(k);
      Joined(old(Steps(k)), Enter(k), Acquire(k), if readable then [ReadDb(k), Apply(k), Release(k)] else [SkipTenant(k), Release(k)]);
      var lock, got := LockTenant(k, t);
      if !got {
        return 1;
      }
      ScanLocked(k, t, lock, readable);
      return |ScanSteps(k, readable)|;
    }

    method ScanLocked(k: TaskId, t: Tenant, lock: Lock, readable: bool)
      requires Valid() && k in tasks && tasks[k].t == t && tasks[k].phase == Holding(lock) && tasks[k].kind.Scan?
      modifies this
      ensures Valid() && old(trace) <= trace && k !in tasks && (readable ==> t in loaded) && old(loaded) <= loaded
      ensures Steps(k) == old(Steps(k)) + if readable then [ReadDb(k), Apply(k), Release(k)] else [SkipTenant(k), Release(k)]
    {
      if readable {
        var rows := ReadJobs(k, t, lock);
        Others(k);
        ApplyRead(k, t, lock, rows);
        Three(old(Steps(k)), ReadDb(k), Apply(k), Release(k));
      } else {
        SkipUnreadable(k, lock);
        Two(old(Steps(k)), SkipTenant(k), Release(k));
      }
      Others(k);
      DropGuard(k, lock);
    }

    /** The next tenant's turn. */
    method BeginScan(t: Tenant) returns (k: TaskId)
      requires Valid()
      modifies this
      ensures Valid() && old(trace) <= trace && k in tasks && tasks[k] == Task(t, Scan, Entering) && loaded == old(loaded)
      ensures Steps(k) == []
    {
      ghost var before := View();
      NothingYet(nextTask, trace);
      k := nextTask;
      tasks, nextTask := tasks[k := Task(t, Scan, Entering)], nextTask + 1;
      Note(before, Begin(t, Scan));
    }

    method ScanNext(t: Tenant, readable: bool) returns (k: TaskId, done: bool)
      requires Valid()
      modifies this
      ensures Valid() && old(trace) <= trace && old(loaded) <= loaded
      ensures if done then TurnOver(k, t, readable, trace, View()) else WaitsForLock(k) && tasks[k].t == t
    {
      k := BeginScan(t);
      ghost var begun := trace;
      RunEndsInv(trace, View());
      var n := ScanTenant(k, t, readable);
      NumbersGrow(begun, trace);
      done := n != 1;
    }

    /** `boot_scan`: tenant after tenant, in order, each in a whole turn of its own. It stops early
        only while somebody else holds the lock of the tenant whose turn it is; every tenant it has
        passed and could read is loaded, and stays so. */
    method BootScan(ids: seq<Tenant>, unreadable: set<Tenant>) returns (n: nat, turns: seq<TaskId>)
      requires Valid()
      modifies this
      ensures Valid() && TurnsOver(turns, ids, unreadable, n, trace, View())
      ensures n <= |ids| && if n == |ids| then |turns| == n else |turns| == n + 1 && WaitsForLock(turns[n]) && tasks[turns[n]].t == ids[n]
    {
      n, turns := 0, [];
      while n < |ids|
        invariant Valid() && n <= |ids| && |turns| == n && TurnsOver(turns, ids, unreadable, n, trace, View())
        decreases |ids| - n
      {
        ghost var before, s := trace, View();
        var k, done := ScanNext(ids[n], ids[n] !in unreadable);
        TurnsStay(turns, ids, unreadable, n, before, s, trace, View(), k);
        turns := turns + [k];
        if !done {
          return n, turns;
        }
        n := n + 1;
      }
    }

    /** A point-in-time copy: every indexed tenant once, with its jobs, and nothing else. */
    method Snapshot() returns (out: seq<(Tenant, seq<IndexedJob>)>)
      ensures forall i, j :: 0 <= i < j < |out| ==> out[i].0 != out[j].0
      ensures forall i :: 0 <= i < |out| ==> out[i].0 in entries && out[i].1 == entries[out[i].0]
      ensures forall t :: t in entries ==> (t, entries[t]) in out
    {
      out := [];
      var rest := entries.Keys;
      while rest != {}
        invariant rest <= entries.Keys
        invariant forall i, j :: 0 <= i < j < |out| ==> out[i].0 != out[j].0
        invariant forall i :: 0 <= i < |out| ==> out[i].0 in entries && out[i].1 == entries[out[i].0] && out[i].0 !in rest
        invariant forall t :: t in entries && t !in rest ==> (t, entries[t]) in out
        decreases |rest|
      {
        var t :| t in rest;
        rest := rest - {t};
        out := out + [(t, entries[t])];
      }
    }
  }
}
