/** Agreement of the index with the database, and its silence about deleted tenants. */
module CronIndexTheorems {
  import opened CronIndex

  lemma NumberedStep(s: State, a: Action)
    requires Enabled(s, a) && Numbered(s)
    ensures Numbered(Next(s, a))
  {
  }

  lemma OwnedStep(s: State, a: Action)
    requires Enabled(s, a) && Numbered(s) && Owned(s)
    ensures Owned(Next(s, a))
  {
  }

  lemma OneLockStep(s: State, a: Action)
    requires Enabled(s, a) && Numbered(s) && OneLock(s) && Deletions(s)
    ensures OneLock(Next(s, a))
  {
  }

  lemma DeletionsStep(s: State, a: Action)
    requires Enabled(s, a) && Numbered(s) && Deletions(s)
    ensures Deletions(Next(s, a))
  {
  }

  lemma NoEmptyEntryStep(s: State, a: Action)
    requires Enabled(s, a) && NoEmptyEntry(s)
    ensures NoEmptyEntry(Next(s, a))
  {
  }

  /** Two tasks past the lock of an unswept tenant are one. */
  lemma Exclusive(s: State, j: TaskId, k: TaskId)
    requires Owned(s) && OneLock(s) && j in s.tasks && k in s.tasks && s.tasks[j].t == s.tasks[k].t && s.tasks[k].t !in s.swept
    requires HasLock(s.tasks[j].phase) && HasLock(s.tasks[k].phase)
    ensures j == k
  {
  }

  /** A tenant is swept by a task that alone holds its lock, so no older read is left. */
  lemma SweptStep(s: State, a: Action)
    requires Enabled(s, a) && Numbered(s) && Owned(s) && OneLock(s) && Deletions(s) && SweptStaysEmpty(s)
    ensures SweptStaysEmpty(Next(s, a))
  {
    if a.RemoveEntry? {
      forall j | j in s.tasks && s.tasks[j].phase.HasRead? && s.tasks[j].t == s.tasks[a.k].t && s.tasks[j].t !in s.swept
        ensures j == a.k
      {
        Exclusive(s, j, a.k);
      }
    }
  }

  lemma OthersStay(s: State, a: Action, j: TaskId)
    requires Enabled(s, a) && Numbered(s) && j in s.tasks && MovedTask(a) != Some(j)
    ensures j in Next(s, a).tasks && Next(s, a).tasks[j] == s.tasks[j]
  {
  }

  lemma InvStep(s: State, a: Action)
    requires Inv(s) && Enabled(s, a)
    ensures Inv(Next(s, a))
  {
    NumberedStep(s, a);
    OwnedStep(s, a);
    OneLockStep(s, a);
    DeletionsStep(s, a);
    NoEmptyEntryStep(s, a);
    SweptStep(s, a);
  }

  lemma {:induction false} InvRun(s: State, acts: seq<Action>)
    requires Inv(s) && IsRun(s, acts)
    ensures Inv(After(s, acts))
    decreases |acts|
  {
    if acts != [] {
      InvRun(s, acts[..|acts| - 1]);
      InvStep(After(s, acts[..|acts| - 1]), acts[|acts| - 1]);
    }
  }

  // ---------------------------------------------------------------- what is taken care of

  /** A reload of `t` comes to nothing: its caller goes away, or its read fails. */
  predicate Mishap(a: Action, t: Tenant) { (a.Cancel? || a.ReadFails?) && a.t == t }

  predicate NoMishap(acts: seq<Action>, t: Tenant) { forall i :: 0 <= i < |acts| ==> !Mishap(acts[i], t) }

  /** A reload that has yet to read still has to, unless this very step reads. */
  lemma WillReadStep(s: State, a: Action, t: Tenant, j: TaskId)
    requires Enabled(s, a) && Numbered(s) && WillRead(s, t, j) && !(a.ReadDb? && a.k == j) && !Mishap(a, t)
    ensures WillRead(Next(s, a), t, j)
  {
    if MovedTask(a) != Some(j) {
      OthersStay(s, a, j);
    }
  }

  /** Who reads holds the only read of its tenant. */
  lemma ReadCovers(s: State, k: TaskId, t: Tenant)
    requires Inv(s) && Enabled(s, ReadDb(k)) && WillRead(s, t, k) && t !in s.deleted
    ensures Covered(Next(s, ReadDb(k)), t)
  {
    var s' := Next(s, ReadDb(k));
    assert FreshRead(s', t, k) && s'.tasks[k].kind.Reload?;
    forall j | HasReadOf(s', t, j)
      ensures j == k
    {
      if j != k {
        Exclusive(s, j, k);
      }
    }
  }

  /** A step that neither commits nor applies for a live tenant leaves its entry and rows. */
  lemma StillLoaded(s: State, a: Action, t: Tenant)
    requires Enabled(s, a) && Deletions(s)
    requires !(a.Commit? && a.t == t) && !(a.Apply? && s.tasks[a.k].t == t) && t !in Next(s, a).deleted
    ensures t in Next(s, a).loaded ==> t in s.loaded
    ensures Agrees(Next(s, a), t) <==> Agrees(s, t)
    ensures t !in s.deleted && Rows(Next(s, a).db, t) == Rows(s.db, t)
  {
  }

  lemma FreshReadStep(s: State, a: Action, t: Tenant, k: TaskId)
    requires Enabled(s, a) && Numbered(s) && FreshRead(s, t, k) && Rows(Next(s, a).db, t) == Rows(s.db, t)
    requires !(a.Apply? && s.tasks[a.k].t == t)
    ensures FreshRead(Next(s, a), t, k) && Next(s, a).tasks[k].kind == s.tasks[k].kind
  {
    if MovedTask(a) != Some(k) {
      OthersStay(s, a, k);
    }
  }

  lemma NoStaleReadStep(s: State, a: Action, t: Tenant)
    requires Inv(s) && Enabled(s, a) && NoStaleRead(s, t) && !Mishap(a, t) && Rows(Next(s, a).db, t) == Rows(s.db, t)
    ensures NoStaleRead(Next(s, a), t)
  {
    var s' := Next(s, a);
    forall k | HasReadOf(s', t, k)
      ensures FreshRead(s', t, k)
    {
      if HasReadOf(s, t, k) {
        assert FreshRead(s, t, k);
      }
    }
  }

  /** Applying the tenant's only read, which is fresh, makes the entry right. */
  lemma ApplyCovers(s: State, k: TaskId, t: Tenant)
    requires Inv(s) && Enabled(s, Apply(k)) && s.tasks[k].t == t && NoStaleRead(s, t) && t !in s.deleted
    ensures Covered(Next(s, Apply(k)), t)
  {
    var s' := Next(s, Apply(k));
    assert FreshRead(s, t, k);
    assert Agrees(s', t);
    NoStaleReadStep(s, Apply(k), t);
  }

  lemma QuietStepCovers(s: State, a: Action, t: Tenant)
    requires Inv(s) && Enabled(s, a) && NoStaleRead(s, t) && (t in s.loaded ==> RightOrFixed(s, t)) && !Mishap(a, t)
    requires !(a.Commit? && a.t == t) && !(a.Apply? && s.tasks[a.k].t == t) && t !in Next(s, a).deleted
    ensures Covered(Next(s, a), t)
  {
    StillLoaded(s, a, t);
    NoStaleReadStep(s, a, t);
    if t in s.loaded && !Agrees(s, t) {
      var k :| FreshRead(s, t, k) && s.tasks[k].kind.Reload?;
      FreshReadStep(s, a, t, k);
    }
  }

  /** A tenant that is taken care of stays so, whatever happens but a mishap. */
  lemma CoveredStep(s: State, a: Action, t: Tenant)
    requires Inv(s) && Enabled(s, a) && Covered(s, t) && !Mishap(a, t) && t !in Next(s, a).deleted
    ensures Covered(Next(s, a), t)
  {
    if a.Commit? && a.t == t {
      assert WillRead(Next(s, a), t, s.nextTask);
    } else if k :| WillRead(s, t, k) {
      StillCovered(s, a, t, k);
    } else if a.Apply? && s.tasks[a.k].t == t {
      ApplyCovers(s, a.k, t);
    } else {
      QuietStepCovers(s, a, t);
    }
  }

  lemma StillCovered(s: State, a: Action, t: Tenant, k: TaskId)
    requires Inv(s) && Enabled(s, a) && WillRead(s, t, k) && !Mishap(a, t) && t !in Next(s, a).deleted
    ensures Covered(Next(s, a), t)
  {
    if a.ReadDb? && a.k == k {
      ReadCovers(s, k, t);
    } else {
      WillReadStep(s, a, t, k);
    }
  }

  lemma DeletedGrows(s: State, a: Action, t: Tenant)
    requires Enabled(s, a) && t in s.deleted
    ensures t in Next(s, a).deleted
  {
  }

  lemma {:induction false} CoveredRun(s: State, acts: seq<Action>, t: Tenant)
    requires Inv(s) && Covered(s, t) && IsRun(s, acts) && NoMishap(acts, t) && t !in After(s, acts).deleted
    ensures Covered(After(s, acts), t)
    decreases |acts|
  {
    if acts != [] {
      var before, a := acts[..|acts| - 1], acts[|acts| - 1];
      if t in After(s, before).deleted {
        DeletedGrows(After(s, before), a, t);
      }
      CoveredRun(s, before, t);
      InvRun(s, before);
      CoveredStep(After(s, before), a, t);
    }
  }

  // ---------------------------------------------------------------- the active jobs

  ghost predicate ActiveAt(rows: seq<Row>, p: nat) { p < |rows| && rows[p].active }

  /** `at` lists places in `rows` in order, exactly those of the active ones, and `jobs` are the
      jobs found there. */
  ghost predicate PickedAt(rows: seq<Row>, jobs: seq<IndexedJob>, at: seq<nat>) {
    && (forall i, j :: 0 <= i < j < |at| ==> at[i] < at[j])
    && (forall p: nat :: ActiveAt(rows, p) <==> p in at)
    && |at| == |jobs| && forall i :: 0 <= i < |at| ==> at[i] < |rows| && rows[at[i]].job == jobs[i]
  }

  /** `jobs` are the jobs of the active rows, row by row, and no others. */
  ghost predicate AreActive(rows: seq<Row>, jobs: seq<IndexedJob>) { exists at :: PickedAt(rows, jobs, at) }

  lemma {:induction false} ActiveJobsSnoc(rows: seq<Row>, r: Row)
    ensures ActiveJobs(rows + [r]) == ActiveJobs(rows) + if r.active then [r.job] else []
  {
    if rows == [] {
      assert rows + [r] == [r] && [r][1..] == [];
    } else {
      assert (rows + [r])[1..] == rows[1..] + [r];
      ActiveJobsSnoc(rows[1..], r);
    }
  }

  lemma ActiveAtSnoc(rows: seq<Row>, r: Row, p: nat)
    ensures ActiveAt(rows + [r], p) <==> ActiveAt(rows, p) || (p == |rows| && r.active)
  {
  }

  lemma PickedSnoc(rows: seq<Row>, r: Row, jobs: seq<IndexedJob>, at: seq<nat>)
    requires PickedAt(rows, jobs, at)
    ensures if r.active then PickedAt(rows + [r], jobs + [r.job], at + [|rows|]) else PickedAt(rows + [r], jobs, at)
  {
    var all := if r.active then at + [|rows|] else at;
    forall p: nat
      ensures ActiveAt(rows + [r], p) <==> p in all
    {
      ActiveAtSnoc(rows, r, p);
    }
  }

  lemma {:induction false} ActiveJobsAt(rows: seq<Row>) returns (at: seq<nat>)
    ensures PickedAt(rows, ActiveJobs(rows), at)
  {
    if rows == [] {
      at := [];
    } else {
      var front, r := rows[..|rows| - 1], rows[|rows| - 1];
      var rest := ActiveJobsAt(front);
      assert rows == front + [r];
      ActiveJobsSnoc(front, r);
      PickedSnoc(front, r, ActiveJobs(front), rest);
      if r.active {
        at := rest + [|front|];
      } else {
        at := rest;
        assert ActiveJobs(front) + [] == ActiveJobs(front);
      }
    }
  }

  /** An active last row is picked last, .. */
  lemma LastActive(rows: seq<Row>, r: Row, jobs: seq<IndexedJob>, at: seq<nat>)
    requires PickedAt(rows + [r], jobs, at) && r.active
    ensures jobs != [] && jobs[|jobs| - 1] == r.job && PickedAt(rows, jobs[..|jobs| - 1], at[..|at| - 1])
  {
    var m := |at| - 1;
    assert ActiveAt(rows + [r], |rows|);
    var i :| 0 <= i < |at| && at[i] == |rows|;
    assert at[m] == |rows|;
    assert at == at[..m] + [at[m]];
    forall p: nat
      ensures ActiveAt(rows, p) <==> p in at[..m]
    {
      ActiveAtSnoc(rows, r, p);
      assert p in at <==> p in at[..m] || p == |rows|;
    }
    forall k | 0 <= k < m
      ensures at[..m][k] < |rows| && rows[at[..m][k]].job == jobs[..m][k]
    {
      assert at[k] < at[m] && (rows + [r])[at[k]] == rows[at[k]];
    }
  }

  /** .. and any other one not at all. */
  lemma LastIdle(rows: seq<Row>, r: Row, jobs: seq<IndexedJob>, at: seq<nat>)
    requires PickedAt(rows + [r], jobs, at) && !r.active
    ensures PickedAt(rows, jobs, at)
  {
    forall p: nat
      ensures ActiveAt(rows, p) <==> p in at
    {
      ActiveAtSnoc(rows, r, p);
    }
    forall k | 0 <= k < |at|
      ensures at[k] < |rows| && rows[at[k]].job == jobs[k]
    {
      assert at[k] in at;
    }
  }

  lemma {:induction false} OnlyActiveJobs(rows: seq<Row>, jobs: seq<IndexedJob>, at: seq<nat>)
    requires PickedAt(rows, jobs, at)
    ensures jobs == ActiveJobs(rows)
  {
    if rows == [] {
      assert jobs == [];
    } else {
      var front, r := rows[..|rows| - 1], rows[|rows| - 1];
      assert rows == front + [r];
      ActiveJobsSnoc(front, r);
      if r.active {
        LastActive(front, r, jobs, at);
        OnlyActiveJobs(front, jobs[..|jobs| - 1], at[..|at| - 1]);
        assert jobs == jobs[..|jobs| - 1] + [r.job];
      } else {
        LastIdle(front, r, jobs, at);
        OnlyActiveJobs(front, jobs, at);
        assert ActiveJobs(front) + [] == ActiveJobs(front);
      }
    }
  }

  /** The list that a reload computes is that one and no other. */
  lemma ActiveJobsAre(rows: seq<Row>, jobs: seq<IndexedJob>)
    ensures AreActive(rows, jobs) <==> jobs == ActiveJobs(rows)
  {
    var at := ActiveJobsAt(rows);
    if b :| PickedAt(rows, jobs, b) {
      OnlyActiveJobs(rows, jobs, b);
    }
  }

  // ---------------------------------------------------------------- agreement

  /** No task stands between a commit on `t` and the end of the reload that follows it. */
  ghost predicate NoReloadPending(s: State, t: Tenant) {
    forall k :: k in s.tasks && s.tasks[k].t == t ==> !s.tasks[k].kind.Reload?
  }

  /** Live, loaded, and nothing under way that was to reload it. */
  ghost predicate Settled(s: State, t: Tenant) { t in s.loaded && t !in s.deleted && NoReloadPending(s, t) }

  /** The entry lists the jobs of the active rows that the database has for the tenant, row by row,
      and no others; it is absent when there are none. */
  ghost predicate Exact(s: State, t: Tenant) {
    && AreActive(if t in s.db then s.db[t] else [], if t in s.index then s.index[t] else [])
    && (t in s.index ==> s.index[t] != [])
  }

  lemma ExactAgrees(s: State, t: Tenant)
    requires NoEmptyEntry(s)
    ensures Exact(s, t) <==> Agrees(s, t)
  {
    ActiveJobsAre(Rows(s.db, t), Entry(s.index, t));
  }

  lemma SettledIsExact(s: State, t: Tenant)
    requires NoEmptyEntry(s) && Covered(s, t) && Settled(s, t)
    ensures Exact(s, t)
  {
    assert Agrees(s, t);
    ExactAgrees(s, t);
  }

  /** For any interleaving of mutations, reloads and scans, mishaps of other tenants included:
      once a live tenant has been loaded, whenever no mutation of it is still to be reloaded and
      no reload of it has come to nothing, its entry is exactly the active jobs of the database. */
  lemma IndexAgrees(acts: seq<Action>, t: Tenant)
    requires IsRun(Init, acts) && NoMishap(acts, t) && Settled(After(Init, acts), t)
    ensures Exact(After(Init, acts), t)
  {
    InvRun(Init, acts);
    CoveredRun(Init, acts, t);
    SettledIsExact(After(Init, acts), t);
  }

  /** From `s` on, barring new mishaps, the entry of `t` is exact whenever `t` is settled. */
  ghost predicate Recovers(s: State, t: Tenant) {
    forall acts {:trigger IsRun(s, acts)} :: IsRun(s, acts) && NoMishap(acts, t) && Settled(After(s, acts), t) ==> Exact(After(s, acts), t)
  }

  lemma CoveredRecovers(s: State, t: Tenant)
    requires Inv(s) && Covered(s, t)
    ensures Recovers(s, t)
  {
    forall acts {:trigger IsRun(s, acts)} | IsRun(s, acts) && NoMishap(acts, t) && Settled(After(s, acts), t)
      ensures Exact(After(s, acts), t)
    {
      CoveredRun(s, acts, t);
      InvRun(s, acts);
      SettledIsExact(After(s, acts), t);
    }
  }

  lemma Snoc(s: State, acts: seq<Action>, a: Action)
    requires IsRun(s, acts) && Enabled(After(s, acts), a)
    ensures IsRun(s, acts + [a]) && After(s, acts + [a]) == Next(After(s, acts), a)
  {
    assert (acts + [a])[..|acts + [a]| - 1] == acts;
  }

  lemma NoSteps(s: State)
    ensures IsRun(s, []) && After(s, []) == s
  {
  }

  /** Once the guard of a last reload is dropped, the tenant is settled. */
  lemma LetGo(s: State, t: Tenant) returns (acts: seq<Action>)
    requires Inv(s) && t in s.loaded && t !in s.deleted && (forall j :: !WillRead(s, t, j))
    requires forall j :: HasReadOf(s, t, j) ==> s.tasks[j].kind.Scan?
    ensures IsRun(s, acts) && NoMishap(acts, t) && Settled(After(s, acts), t)
    ensures After(s, acts).index == s.index && After(s, acts).db == s.db
  {
    NoSteps(s);
    if NoReloadPending(s, t) {
      acts := [];
    } else {
      var k :| k in s.tasks && s.tasks[k].t == t && s.tasks[k].kind.Reload?;
      assert !WillRead(s, t, k) && !HasReadOf(s, t, k);
      Snoc(s, [], Release(k));
      acts := [] + [Release(k)];
      forall j | j in s.tasks && s.tasks[j].t == t && s.tasks[j].kind.Reload?
        ensures j == k
      {
        assert !WillRead(s, t, j) && !HasReadOf(s, t, j);
        Exclusive(s, j, k);
      }
    }
  }

  /** An outdated read is applied last. */
  lemma StaleRecoversNot(s: State, t: Tenant, k: TaskId)
    requires Inv(s) && t !in s.deleted && (forall j :: !WillRead(s, t, j)) && HasReadOf(s, t, k) && !FreshRead(s, t, k)
    ensures !Recovers(s, t)
  {
    NoSteps(s);
    Snoc(s, [], Apply(k));
    var s1 := Next(s, Apply(k));
    Snoc(s, [] + [Apply(k)], Release(k));
    var acts := [] + [Apply(k)] + [Release(k)];
    var e := Next(s1, Release(k));
    ExactAgrees(e, t);
    forall j | j in e.tasks && e.tasks[j].t == t && e.tasks[j].kind.Reload?
      ensures false
    {
      assert !WillRead(s, t, j);
      Exclusive(s, j, k);
    }
    assert IsRun(s, acts) && After(s, acts) == e && NoMishap(acts, t) && Settled(e, t) && !Exact(e, t);
  }

  lemma WrongRecoversNot(s: State, t: Tenant)
    requires Inv(s) && t in s.loaded && t !in s.deleted && (forall j :: !WillRead(s, t, j)) && NoStaleRead(s, t) && !RightOrFixed(s, t)
    ensures !Recovers(s, t)
  {
    forall j | HasReadOf(s, t, j)
      ensures s.tasks[j].kind.Scan?
    {
      assert FreshRead(s, t, j);
    }
    var acts := LetGo(s, t);
    ExactAgrees(After(s, acts), t);
    assert !Exact(After(s, acts), t);
  }

  /** Exactly when mishaps do no harm. In every state of every run, mishaps included: from there on
      the entry of a live tenant is exact whenever the tenant is settled, if and only if it is
      covered there. */
  lemma RecoversIff(acts: seq<Action>, t: Tenant)
    requires IsRun(Init, acts) && t !in After(Init, acts).deleted
    ensures Recovers(After(Init, acts), t) <==> Covered(After(Init, acts), t)
  {
    var s := After(Init, acts);
    InvRun(Init, acts);
    if Covered(s, t) {
      CoveredRecovers(s, t);
    } else if k :| HasReadOf(s, t, k) && !FreshRead(s, t, k) {
      StaleRecoversNot(s, t, k);
    } else {
      WrongRecoversNot(s, t);
    }
  }

  /** A reload of `t` other than `k` is yet to read. */
  ghost predicate AnotherWillRead(s: State, t: Tenant, k: TaskId) { exists j :: j != k && WillRead(s, t, j) }

  /** Nobody holds an outdated read, and the entry, if loaded, is right already or a reload has
      read what makes it so. */
  ghost predicate Settling(s: State, t: Tenant) { NoStaleRead(s, t) && (t in s.loaded ==> RightOrFixed(s, t)) }

  lemma RecoversNextIff(acts: seq<Action>, a: Action, t: Tenant)
    requires IsRun(Init, acts) && Enabled(After(Init, acts), a) && t !in Next(After(Init, acts), a).deleted
    ensures var s' := Next(After(Init, acts), a); Recovers(s', t) <==> Covered(s', t)
  {
    Snoc(Init, acts, a);
    RecoversIff(acts + [a], t);
  }

  lemma CancelledCover(s: State, k: TaskId, t: Tenant)
    requires Inv(s) && Enabled(s, Cancel(k, t)) && s.tasks[k].kind.Reload?
    ensures Covered(Next(s, Cancel(k, t)), t) <==> AnotherWillRead(s, t, k) || Settling(s, t)
  {
    var s' := Next(s, Cancel(k, t));
    assert forall j :: j != k && j in s.tasks ==> j in s'.tasks && s'.tasks[j] == s.tasks[j];
    assert forall j :: WillRead(s', t, j) <==> j != k && WillRead(s, t, j);
    assert forall j :: HasReadOf(s', t, j) <==> HasReadOf(s, t, j);
    assert forall j :: FreshRead(s', t, j) <==> FreshRead(s, t, j);
  }

  /** When the caller of a reload goes away, no harm comes of it if and only if another reload of
      the tenant is yet to read, or nobody holds an outdated read and the entry, if loaded, is
      right already or another reload has read what makes it so. */
  lemma LostReloadIff(acts: seq<Action>, k: TaskId, t: Tenant)
    requires IsRun(Init, acts) && Enabled(After(Init, acts), Cancel(k, t))
    requires After(Init, acts).tasks[k].kind.Reload? && t !in After(Init, acts).deleted
    ensures var s := After(Init, acts);
            Recovers(Next(s, Cancel(k, t)), t) <==> AnotherWillRead(s, t, k) || Settling(s, t)
  {
    InvRun(Init, acts);
    CancelledCover(After(Init, acts), k, t);
    RecoversNextIff(acts, Cancel(k, t), t);
  }

  lemma FailedCover(s: State, k: TaskId, t: Tenant)
    requires Inv(s) && Enabled(s, ReadFails(k, t)) && t !in s.deleted
    ensures Covered(Next(s, ReadFails(k, t)), t) <==> AnotherWillRead(s, t, k) || ActiveJobs(Rows(s.db, t)) == []
  {
    var s' := Next(s, ReadFails(k, t));
    forall j | HasReadOf(s', t, j)
      ensures j == k
    {
      if j != k {
        Exclusive(s, j, k);
      }
    }
    assert forall j :: WillRead(s', t, j) <==> j != k && WillRead(s, t, j);
    assert HasReadOf(s', t, k) && (FreshRead(s', t, k) <==> ActiveJobs(Rows(s.db, t)) == []);
  }

  /** When a reload's read fails, no harm comes of it if and only if another reload of the tenant
      is yet to read, or the tenant has no active job. */
  lemma FailedReadIff(acts: seq<Action>, k: TaskId, t: Tenant)
    requires IsRun(Init, acts) && Enabled(After(Init, acts), ReadFails(k, t)) && t !in After(Init, acts).deleted
    ensures var s := After(Init, acts);
            Recovers(Next(s, ReadFails(k, t)), t) <==> AnotherWillRead(s, t, k) || ActiveJobs(Rows(s.db, t)) == []
  {
    InvRun(Init, acts);
    FailedCover(After(Init, acts), k, t);
    RecoversNextIff(acts, ReadFails(k, t), t);
  }

  // ---------------------------------------------------------------- what mishaps leave behind

  ghost predicate NobodyAt(s: State, t: Tenant) { forall k :: k in s.tasks ==> s.tasks[k].t != t }

  /** New work on `t`. */
  predicate Touches(a: Action, t: Tenant) { (a.Commit? || a.Begin? || a.SoftDelete?) && a.t == t }

  lemma UntouchedStep(s: State, a: Action, t: Tenant)
    requires Enabled(s, a) && NobodyAt(s, t) && !Touches(a, t)
    ensures NobodyAt(Next(s, a), t)
    ensures Entry(Next(s, a).index, t) == Entry(s.index, t) && Rows(Next(s, a).db, t) == Rows(s.db, t)
    ensures t in Next(s, a).deleted <==> t in s.deleted
  {
  }

  /** With nobody at work on a tenant, its entry stays as it is, right or wrong, until somebody
      mutates, reloads or deletes it. */
  lemma {:induction false} Untouched(s: State, acts: seq<Action>, t: Tenant)
    requires IsRun(s, acts) && NobodyAt(s, t) && forall i :: 0 <= i < |acts| ==> !Touches(acts[i], t)
    ensures NobodyAt(After(s, acts), t)
    ensures Entry(After(s, acts).index, t) == Entry(s.index, t) && Rows(After(s, acts).db, t) == Rows(s.db, t)
    ensures t in After(s, acts).deleted <==> t in s.deleted
    decreases |acts|
  {
    if acts != [] {
      Untouched(s, acts[..|acts| - 1], t);
      UntouchedStep(After(s, acts[..|acts| - 1]), acts[|acts| - 1], t);
    }
  }

  lemma Then(acts: seq<Action>, s: State, a: Action) returns (longer: seq<Action>, s': State)
    requires IsRun(Init, acts) && After(Init, acts) == s && Enabled(s, a)
    ensures IsRun(Init, longer) && After(Init, longer) == s' == Next(s, a)
  {
    Snoc(Init, acts, a);
    longer, s' := acts + [a], Next(s, a);
  }

  /** A first reload of an empty tenant .. */
  lemma LoadedEmpty(t: Tenant) returns (acts: seq<Action>, s: State)
    ensures IsRun(Init, acts) && After(Init, acts) == s
    ensures s == Init.(locks := map[t := 0], nextLock := 1, nextTask := 1, loaded := {t})
  {
    acts, s := [], Init;
    acts, s := Then(acts, s, Begin(t, Reload));
    acts, s := Then(acts, s, Enter(0));
    acts, s := Then(acts, s, Acquire(0));
    acts, s := Then(acts, s, ReadDb(0));
    acts, s := Then(acts, s, Apply(0));
    acts, s := Then(acts, s, Release(0));
  }

  /** .. then a commit, and its reload up to the wait for the lock. */
  lemma CommittedAndWaiting(t: Tenant, rows: seq<Row>) returns (acts: seq<Action>, s: State)
    ensures IsRun(Init, acts) && After(Init, acts) == s
    ensures s == State(map[t := rows], {}, map[], map[t := 0], map[], 1, map[1 := Task(t, Reload, Waiting(0))], 2, {t}, {})
  {
    acts, s := LoadedEmpty(t);
    acts, s := Then(acts, s, Commit(t, rows));
    acts, s := Then(acts, s, Enter(1));
  }

  /** The caller of a committed mutation goes away: the new jobs are not in the index, and with
      `Untouched` they never fire until the tenant's jobs are next mutated or the server boots. */
  lemma LostReloadRun(t: Tenant, rows: seq<Row>) returns (acts: seq<Action>, s: State)
    requires ActiveJobs(rows) != []
    ensures IsRun(Init, acts) && After(Init, acts) == s && NobodyAt(s, t) && Settled(s, t)
    ensures Entry(s.index, t) == [] && ActiveJobs(Rows(s.db, t)) == ActiveJobs(rows)
  {
    acts, s := CommittedAndWaiting(t, rows);
    acts, s := Then(acts, s, Cancel(1, t));
  }

  /** The caller of a soft delete goes away while the invalidation waits for the lock: the entry of
      the deleted tenant stays, and with `Untouched` nothing ever removes it. */
  lemma GhostEntryRun(t: Tenant, rows: seq<Row>) returns (acts: seq<Action>, s: State)
    requires ActiveJobs(rows) != []
    ensures IsRun(Init, acts) && After(Init, acts) == s && NobodyAt(s, t)
    ensures t in s.deleted && Entry(s.index, t) == ActiveJobs(rows)
  {
    acts, s := CommittedAndWaiting(t, rows);
    acts, s := Then(acts, s, Acquire(1));
    acts, s := Then(acts, s, ReadDb(1));
    acts, s := Then(acts, s, Apply(1));
    acts, s := Then(acts, s, Release(1));
    acts, s := Then(acts, s, SoftDelete(t));
    acts, s := Then(acts, s, Begin(t, Invalidate));
    acts, s := Then(acts, s, Enter(2));
    acts, s := Then(acts, s, Cancel(2, t));
  }

  // ---------------------------------------------------------------- deleted tenants

  lemma SweptGrows(s: State, a: Action, t: Tenant)
    requires Enabled(s, a) && t in s.swept
    ensures t in Next(s, a).swept
  {
  }

  lemma {:induction false} SweptForever(acts: seq<Action>, n: nat, t: Tenant)
    requires IsRun(Init, acts) && n <= |acts| && IsRun(Init, acts[..n]) && t in After(Init, acts[..n]).swept
    ensures t in After(Init, acts).swept
    decreases |acts|
  {
    if n == |acts| {
      assert acts[..n] == acts;
    } else {
      var before := acts[..|acts| - 1];
      assert before[..n] == acts[..n];
      SweptForever(before, n, t);
      SweptGrows(After(Init, before), acts[|acts| - 1], t);
    }
  }

  /** Once an invalidate of a deleted tenant has removed its entry, the entry is absent in every
      later state, whatever reloads and scans were in flight or start later, although the
      invalidate throws the lock away under them. */
  lemma DeletedStaysAbsent(acts: seq<Action>, n: nat, t: Tenant)
    requires IsRun(Init, acts) && n <= |acts| && IsRun(Init, acts[..n]) && t in After(Init, acts[..n]).swept
    ensures t !in After(Init, acts).index
  {
    SweptForever(acts, n, t);
    InvRun(Init, acts);
  }
}
