/**
 What an interrupted boot costs for good. Both column backfills and the publish grant put
 their marker first, so an interruption between marker and effect is never made up for; these
 theorems say exactly when that has happened, over every run.
 */
module RunOnceMissed {
  import opened RunOnce
  import opened RunOnceTheorems

  /** One more step of a run. */
  lemma Then(c: Config, s: State, acts: seq<Action>, a: Action) returns (longer: seq<Action>, s': State)
    requires IsRun(c, s, acts) && Enabled(After(c, s, acts), a)
    ensures IsRun(c, s, longer) && After(c, s, longer) == s' == Next(c, After(c, s, acts), a) && |longer| == |acts| + 1
  {
    longer := acts + [a];
    assert longer[..|longer| - 1] == acts;
    s' := Next(c, After(c, s, acts), a);
  }

  // ---------------------------------------------------------------- the publish grant

  /** A step that leaves `t` marked without its grant: the process dies before the grant, or
      dies or fails before the mark is taken back. */
  predicate LosesGrant(s: State, a: Action, t: Tenant) {
    (s.pc.Grant? && s.pc.t == t && a.Die?) || (s.pc.Reset? && s.pc.t == t && (a.Die? || (a.Do? && !a.ok)))
  }

  /** Some step of the run was one. */
  ghost predicate LostGrant(c: Config, s: State, acts: seq<Action>, t: Tenant)
    requires IsRun(c, s, acts)
    decreases |acts|
  {
    acts != [] && (LostGrant(c, s, acts[..|acts| - 1], t) || LosesGrant(After(c, s, acts[..|acts| - 1]), acts[|acts| - 1], t))
  }

  /** The run does not create `t` (a tenant born after the upgrade is stamped, never granted). */
  predicate NeverCreated(acts: seq<Action>, t: Tenant) {
    forall i :: 0 <= i < |acts| ==> !(acts[i].Change? && acts[i].edit.CreateTenant? && acts[i].edit.t == t)
  }

  lemma MissedByBoot(c: Config, s: State, ok: bool, migrated: bool, t: Tenant)
    requires Inv(s) && Booting(s.pc) && !Missed(s, t)
    ensures Missed(BootStep(c, s, ok, migrated), t) <==> LosesGrant(s, Do(ok, migrated), t)
  {
    var s', e := BootStep(c, s, ok, migrated), EffectOf(s, ok, migrated);
    assert s'.marked == NextMarked(s, ok) && s'.pc == NextPc(s, ok, migrated);
    assert PublishGranted(t) in s'.done <==> PublishGranted(t) in s.done || e == Some(PublishGranted(t));
  }

  /** An operator's change touches no marker but those of a tenant it creates. */
  lemma EditedMarkers(s: State, e: Edit)
    ensures var s' := Edited(s, e);
            s'.pc == s.pc && s'.done == s.done && s'.roleColumn == s.roleColumn && s'.ownerColumn == s.ownerColumn &&
            s'.marked == if e.CreateTenant? then s.marked + {e.t} else s.marked
  {
  }

  lemma MissedByStep(c: Config, s: State, a: Action, t: Tenant)
    requires Inv(s) && Enabled(s, a) && !Missed(s, t) && NeverCreated([a], t)
    ensures Missed(Next(c, s, a), t) <==> LosesGrant(s, a, t)
  {
    if a.Do? {
      MissedByBoot(c, s, a.ok, a.migrated, t);
    } else if a.Change? {
      assert [a][0] == a;
      EditedMarkers(s, a.edit);
    }
  }

  /** For a tenant the run does not create: it stands marked without its grant, and no boot is
      about to make or re-arm it, if and only if some earlier step lost the grant. */
  lemma {:induction false} MissedIff(c: Config, s: State, acts: seq<Action>, t: Tenant)
    requires Start(s) && IsRun(c, s, acts) && NeverCreated(acts, t)
    ensures Missed(After(c, s, acts), t) <==> LostGrant(c, s, acts, t)
    decreases |acts|
  {
    if acts != [] {
      var before, a := acts[..|acts| - 1], acts[|acts| - 1];
      var s' := After(c, s, before);
      MissedIff(c, s, before, t);
      InvRun(c, s, before);
      if Missed(s', t) {
        MissedStep(c, s', a, t);
      } else {
        MissedByStep(c, s', a, t);
      }
    }
  }

  /** It happens: the first boot of an upgraded server dies right after marking. */
  lemma MissedRun(c: Config, s: State, t: Tenant) returns (acts: seq<Action>)
    requires Start(s) && t in s.files
    ensures IsRun(c, s, acts) && Missed(After(c, s, acts), t)
  {
    acts := ToPublish(c, s, t);
    var s' := After(c, s, acts);
    PublishTurn(c, s', t, []);
    acts, s' := Then(c, s, acts, Do(true, true));
    acts, s' := Then(c, s, acts, Die);
  }

  lemma ToOwner(c: Config, s: State, ts: seq<Tenant>) returns (acts: seq<Action>, s': State)
    requires Start(s)
    ensures IsRun(c, s, acts) && After(c, s, acts) == s'
    ensures s'.pc == ProbeOwner(ts) && !s'.ownerColumn && s'.marked == {} && s'.files == s.files && s'.done == [RolesLifted]
  {
    acts := [];
    acts, s' := Then(c, s, acts, StartBoot(ts));
    acts, s' := Then(c, s, acts, Do(true, true));
    assert s'.pc == LiftRoles(ts) && s'.done == [] && !s'.ownerColumn;
    acts, s' := Then(c, s, acts, Do(true, true));
  }

  lemma ToEgress(c: Config, s: State, ts: seq<Tenant>) returns (acts: seq<Action>)
    requires Start(s)
    ensures IsRun(c, s, acts)
    ensures var s' := After(c, s, acts); s'.pc == Egress(ts) && s'.marked == {} && s'.files == s.files && s'.done == [RolesLifted, OwnersSet]
  {
    var s';
    acts, s' := ToOwner(c, s, ts);
    acts, s' := Then(c, s, acts, Do(true, true));
    assert s'.pc == SetOwners(ts) && s'.done == [RolesLifted];
    acts, s' := Then(c, s, acts, Do(true, true));
  }

  lemma ToPublish(c: Config, s: State, t: Tenant) returns (acts: seq<Action>)
    requires Start(s)
    ensures IsRun(c, s, acts)
    ensures var s' := After(c, s, acts);
            s'.pc == Publish(t, []) && s'.marked == {} && s'.files == s.files && PublishGranted(t) !in s'.done
  {
    acts := ToEgress(c, s, [t]);
    var s' := After(c, s, acts);
    assert [t] == [t] + [];
    EgressTurn(c, s', t, []);
    assert EffectOf(s', true, true) != Some(PublishGranted(t));
    acts, s' := Then(c, s, acts, Do(true, true));
  }

  // ---------------------------------------------------------------- the column backfills

  datatype Backfill = OfRoles | OfOwners

  predicate HasColumn(s: State, b: Backfill) { if b.OfRoles? then s.roleColumn else s.ownerColumn }

  function EffectFor(b: Backfill): Effect { if b.OfRoles? then RolesLifted else OwnersSet }

  /** This boot has added the column and not yet made the backfill. */
  predicate Between(pc: Pc, b: Backfill) { if b.OfRoles? then pc.LiftRoles? else pc.SetOwners? }

  /** The column is there, its backfill is not, and no boot is about to make it. */
  predicate NotBackfilled(s: State, b: Backfill) { HasColumn(s, b) && EffectFor(b) !in s.done && !Between(s.pc, b) }

  predicate LosesBackfill(s: State, a: Action, b: Backfill) { Between(s.pc, b) && (a.Die? || (a.Do? && !a.ok)) }

  ghost predicate LostBackfill(c: Config, s: State, acts: seq<Action>, b: Backfill)
    requires IsRun(c, s, acts)
    decreases |acts|
  {
    acts != [] && (LostBackfill(c, s, acts[..|acts| - 1], b) || LosesBackfill(After(c, s, acts[..|acts| - 1]), acts[|acts| - 1], b))
  }

  lemma NotBackfilledByBoot(c: Config, s: State, ok: bool, migrated: bool, b: Backfill)
    requires Inv(s) && Booting(s.pc)
    ensures NotBackfilled(BootStep(c, s, ok, migrated), b) <==> NotBackfilled(s, b) || LosesBackfill(s, Do(ok, migrated), b)
  {
    var s', e := BootStep(c, s, ok, migrated), EffectOf(s, ok, migrated);
    assert s'.pc == NextPc(s, ok, migrated);
    assert EffectFor(b) in s'.done <==> EffectFor(b) in s.done || e == Some(EffectFor(b));
  }

  lemma NotBackfilledByStep(c: Config, s: State, a: Action, b: Backfill)
    requires Inv(s) && Enabled(s, a)
    ensures NotBackfilled(Next(c, s, a), b) <==> NotBackfilled(s, b) || LosesBackfill(s, a, b)
  {
    if a.Do? {
      NotBackfilledByBoot(c, s, a.ok, a.migrated, b);
    } else if a.Change? {
      EditedMarkers(s, a.edit);
    }
  }

  /** A backfill stands undone behind its column if and only if some earlier boot died or failed
      between the two statements; by the same step-wise equivalence it then stays undone. */
  lemma {:induction false} NotBackfilledIff(c: Config, s: State, acts: seq<Action>, b: Backfill)
    requires Start(s) && IsRun(c, s, acts)
    ensures NotBackfilled(After(c, s, acts), b) <==> LostBackfill(c, s, acts, b)
    decreases |acts|
  {
    if acts != [] {
      NotBackfilledIff(c, s, acts[..|acts| - 1], b);
      InvRun(c, s, acts[..|acts| - 1]);
      NotBackfilledByStep(c, After(c, s, acts[..|acts| - 1]), acts[|acts| - 1], b);
    }
  }

  predicate NoEdits(acts: seq<Action>) { forall i :: 0 <= i < |acts| ==> !acts[i].Change? }

  lemma NotBackfilledData(c: Config, s: State, a: Action, b: Backfill)
    requires Enabled(s, a) && NotBackfilled(s, b) && !a.Change?
    ensures SameData(EffectFor(b), s, Next(c, s, a))
  {
    if a.Do? {
      BootStepChanges(c, s, a.ok, a.migrated, EffectFor(b));
    }
  }

  /** Then no boot ever makes it, in any continuation, and without an operator's own change its
      data stays as it was: on a fresh install every admin stays a member. */
  lemma {:induction false} NotBackfilledForever(c: Config, s: State, acts: seq<Action>, b: Backfill)
    requires Inv(s) && IsRun(c, s, acts) && NotBackfilled(s, b)
    ensures NotBackfilled(After(c, s, acts), b)
    ensures NoEdits(acts) ==> SameData(EffectFor(b), s, After(c, s, acts))
    decreases |acts|
  {
    if acts != [] {
      var before := acts[..|acts| - 1];
      NotBackfilledForever(c, s, before, b);
      InvRun(c, s, before);
      NotBackfilledByStep(c, After(c, s, before), acts[|acts| - 1], b);
      if NoEdits(acts) {
        NotBackfilledData(c, After(c, s, before), acts[|acts| - 1], b);
      }
    }
  }

  /** It happens in three steps: a first boot that dies after adding the column. */
  lemma NotBackfilledRun(c: Config, s: State, ts: seq<Tenant>) returns (acts: seq<Action>)
    requires Start(s)
    ensures IsRun(c, s, acts) && |acts| == 3
    ensures NotBackfilled(After(c, s, acts), OfRoles) && After(c, s, acts).roles == s.roles
  {
    acts := [];
    var s';
    acts, s' := Then(c, s, acts, StartBoot(ts));
    acts, s' := Then(c, s, acts, Do(true, true));
    acts, s' := Then(c, s, acts, Die);
  }
}
