/** Each run-once step takes effect at most once, so what an operator changes afterwards stays. */
module RunOnceTheorems {
  import opened RunOnce

  lemma NoRepeatsSnoc(done: seq<Effect>, e: Effect)
    requires NoRepeats(done) && e !in done
    ensures NoRepeats(done + [e])
  {
  }

  /** What is about to happen has not happened yet. */
  lemma EffectIsNew(s: State, ok: bool, migrated: bool)
    requires Inv(s) && EffectOf(s, ok, migrated).Some?
    ensures EffectOf(s, ok, migrated).value !in s.done
  {
  }

  lemma BootStepInv(c: Config, s: State, ok: bool, migrated: bool)
    requires Inv(s) && Booting(s.pc)
    ensures Inv(BootStep(c, s, ok, migrated))
  {
    var e := EffectOf(s, ok, migrated);
    if e.Some? {
      EffectIsNew(s, ok, migrated);
      NoRepeatsSnoc(s.done, e.value);
    }
    ColumnsStep(c, s, ok, migrated);
    MarkersStep(c, s, ok, migrated);
  }

  lemma ColumnsStep(c: Config, s: State, ok: bool, migrated: bool)
    requires ColumnsFirst(s) && Booting(s.pc)
    ensures ColumnsFirst(BootStep(c, s, ok, migrated))
  {
  }

  lemma DoneNext(c: Config, s: State, ok: bool, migrated: bool, x: Effect)
    requires Booting(s.pc)
    ensures x in BootStep(c, s, ok, migrated).done ==> x in s.done || EffectOf(s, ok, migrated) == Some(x)
    ensures x in s.done ==> x in BootStep(c, s, ok, migrated).done
  {
  }

  lemma MarkersStep(c: Config, s: State, ok: bool, migrated: bool)
    requires MarkersFirst(s) && Booting(s.pc)
    ensures MarkersFirst(BootStep(c, s, ok, migrated))
  {
    var s' := BootStep(c, s, ok, migrated);
    forall t
      ensures EgressMerged(t) in s'.done ==> t in s'.merged
      ensures PublishGranted(t) in s'.done ==> t in s'.marked
    {
      DoneNext(c, s, ok, migrated, EgressMerged(t));
      DoneNext(c, s, ok, migrated, PublishGranted(t));
    }
    if s'.pc.Grant? || s'.pc.Reset? {
      DoneNext(c, s, ok, migrated, PublishGranted(s'.pc.t));
    }
  }

  lemma EditInv(s: State, e: Edit)
    requires Inv(s) && !Booting(s.pc)
    ensures Inv(Edited(s, e)) && Edited(s, e).done == s.done
  {
  }

  lemma InvStep(c: Config, s: State, a: Action)
    requires Inv(s) && Enabled(s, a)
    ensures Inv(Next(c, s, a))
  {
    match a
    case Do(ok, migrated) => BootStepInv(c, s, ok, migrated);
    case Change(edit) => EditInv(s, edit);
    case StartBoot(_) =>
    case Die =>
  }

  lemma {:induction false} InvRun(c: Config, s: State, acts: seq<Action>)
    requires Inv(s) && IsRun(c, s, acts)
    ensures Inv(After(c, s, acts))
    decreases |acts|
  {
    if acts != [] {
      InvRun(c, s, acts[..|acts| - 1]);
      InvStep(c, After(c, s, acts[..|acts| - 1]), acts[|acts| - 1]);
    }
  }

  /** Over every sequence of boots, edits, failures and crashes: each backfill, each tenant's
      merge and each tenant's grant takes effect at most once. */
  lemma EffectsAtMostOnce(c: Config, s: State, acts: seq<Action>)
    requires Start(s) && IsRun(c, s, acts)
    ensures NoRepeats(After(c, s, acts).done)
  {
    InvRun(c, s, acts);
  }

  /** What an effect is about. */
  ghost predicate SameData(e: Effect, s: State, s': State) {
    match e
    case RolesLifted => s'.roles == s.roles
    case OwnersSet => s'.owners == s.owners
    case EgressMerged(t) => AllowOf(s', t) == AllowOf(s, t)
    case PublishGranted(t) => RootOf(s', t) == RootOf(s, t)
  }

  /** A boot changes an effect's data only by that effect taking place. */
  lemma BootStepChanges(c: Config, s: State, ok: bool, migrated: bool, e: Effect)
    requires Booting(s.pc) && EffectOf(s, ok, migrated) != Some(e)
    ensures SameData(e, s, BootStep(c, s, ok, migrated))
  {
  }

  /** Once an effect has taken place, no boot ever touches its data again: in every state of
      every run, every step but an operator's own change leaves it as it is. */
  lemma OperatorChangesStay(c: Config, s: State, acts: seq<Action>, a: Action, e: Effect)
    requires Start(s) && IsRun(c, s, acts) && Enabled(After(c, s, acts), a) && !a.Change?
    requires e in After(c, s, acts).done
    ensures SameData(e, After(c, s, acts), Next(c, After(c, s, acts), a)) && e in Next(c, After(c, s, acts), a).done
  {
    var t := After(c, s, acts);
    InvRun(c, s, acts);
    if a.Do? {
      if EffectOf(t, a.ok, a.migrated).Some? {
        EffectIsNew(t, a.ok, a.migrated);
      }
      BootStepChanges(c, t, a.ok, a.migrated, e);
    }
  }

  // ---------------------------------------------------------------- the price of marking first

  /** `t` is marked, has no grant, and no boot is about to make one or take the mark back. */
  predicate Missed(s: State, t: Tenant) {
    t in s.marked && PublishGranted(t) !in s.done && !((s.pc.Grant? || s.pc.Reset?) && s.pc.t == t)
  }

  lemma MissedBoot(c: Config, s: State, ok: bool, migrated: bool, t: Tenant)
    requires Booting(s.pc) && Missed(s, t)
    ensures Missed(BootStep(c, s, ok, migrated), t)
  {
    var s' := BootStep(c, s, ok, migrated);
    assert s'.marked == NextMarked(s, ok) && s'.pc == NextPc(s, ok, migrated);
    assert EffectOf(s, ok, migrated) != Some(PublishGranted(t));
  }

  lemma MissedEdit(s: State, e: Edit, t: Tenant)
    requires Missed(s, t)
    ensures Missed(Edited(s, e), t)
  {
  }

  lemma MissedStep(c: Config, s: State, a: Action, t: Tenant)
    requires Enabled(s, a) && Missed(s, t)
    ensures Missed(Next(c, s, a), t)
  {
    if a.Do? {
      MissedBoot(c, s, a.ok, a.migrated, t);
    } else if a.Change? {
      MissedEdit(s, a.edit, t);
    }
  }

  /** A boot that dies between marking and granting, or whose reset fails after a failed grant,
      costs the tenant its grant for good: it fails closed, in every continuation. */
  lemma {:induction false} MissedForever(c: Config, s: State, acts: seq<Action>, t: Tenant)
    requires IsRun(c, s, acts) && Missed(s, t)
    ensures Missed(After(c, s, acts), t) && PublishGranted(t) !in After(c, s, acts).done
    decreases |acts|
  {
    if acts != [] {
      MissedForever(c, s, acts[..|acts| - 1], t);
      MissedStep(c, After(c, s, acts[..|acts| - 1]), acts[|acts| - 1], t);
    }
  }

  // ---------------------------------------------------------------- a boot without mishap

  ghost function Clean(c: Config, s: State, n: nat): State
    decreases n
  {
    if n == 0 || !Booting(s.pc) then s else Clean(c, BootStep(c, s, true, true), n - 1)
  }

  /** What a tenant's turn leaves behind. */
  ghost predicate Settled(s: State, s': State, t: Tenant) {
    && (t in s'.merged && (t in s.files ==> t in s'.marked))
    && (t !in s.merged ==> EgressMerged(t) in s'.done)
    && (t !in s.marked && t in s.files ==> PublishGranted(t) in s'.done)
  }

  /** Markers and effects are only added, the files stay. */
  ghost predicate Grows(s: State, s': State) {
    s.merged <= s'.merged && s.marked <= s'.marked && s'.files == s.files && forall e :: e in s.done ==> e in s'.done
  }

  lemma EgressTurn(c: Config, s: State, t: Tenant, rest: seq<Tenant>)
    requires s.pc.Egress? && s.pc.ts == [t] + rest
    ensures var s' := BootStep(c, s, true, true);
            s'.pc == Publish(t, rest) && Grows(s, s') && s'.merged == s.merged + {t} && s'.marked == s.marked &&
            (t !in s.merged ==> EgressMerged(t) in s'.done)
  {
    if t !in s.merged {
      assert BootStep(c, s, true, true).done == s.done + [EgressMerged(t)];
    }
  }

  lemma PublishTurn(c: Config, s: State, t: Tenant, rest: seq<Tenant>)
    requires s.pc == Publish(t, rest)
    ensures var s' := BootStep(c, s, true, true);
            s'.pc == (if Marks(s, true) then Grant(t, rest) else Egress(rest)) && Grows(s, s') && s'.merged == s.merged &&
            s'.marked == (if Marks(s, true) then s.marked + {t} else s.marked)
  {
  }

  lemma GrantTurn(c: Config, s: State, t: Tenant, rest: seq<Tenant>)
    requires s.pc == Grant(t, rest)
    ensures var s' := BootStep(c, s, true, true);
            s'.pc == Egress(rest) && Grows(s, s') && s'.merged == s.merged && s'.marked == s.marked && PublishGranted(t) in s'.done
  {
    assert BootStep(c, s, true, true).done == s.done + [PublishGranted(t)];
  }

  lemma CleanStep(c: Config, s: State, n: nat)
    requires Booting(s.pc)
    ensures Clean(c, s, n + 1) == Clean(c, BootStep(c, s, true, true), n)
  {
  }

  /** One tenant's turn: two statements, or three when there is a grant to make. */
  lemma OneTenant(c: Config, s: State, t: Tenant, rest: seq<Tenant>) returns (n: nat, s': State)
    requires s.pc.Egress? && s.pc.ts == [t] + rest
    ensures forall m: nat :: Clean(c, s, n + m) == Clean(c, s', m)
    ensures s'.pc == Egress(rest) && Grows(s, s') && Settled(s, s', t)
    ensures s'.merged <= s.merged + {t} && s'.marked <= s.marked + {t}
  {
    var s1 := BootStep(c, s, true, true);
    EgressTurn(c, s, t, rest);
    var s2 := BootStep(c, s1, true, true);
    PublishTurn(c, s1, t, rest);
    n, s' := 2, s2;
    if Marks(s1, true) {
      n, s' := 3, BootStep(c, s2, true, true);
      GrantTurn(c, s2, t, rest);
    }
    forall m: nat
      ensures Clean(c, s, n + m) == Clean(c, s', m)
    {
      CleanStep(c, s, n - 1 + m);
      CleanStep(c, s1, n - 2 + m);
      if n == 3 {
        CleanStep(c, s2, m);
      }
    }
  }

  /** Then all of them, each settled. */
  lemma {:induction false} AllTenants(c: Config, s: State, ts: seq<Tenant>) returns (n: nat)
    requires s.pc == Egress(ts) && forall i, j :: 0 <= i < j < |ts| ==> ts[i] != ts[j]
    ensures Clean(c, s, n).pc.Serving? && Grows(s, Clean(c, s, n))
    ensures forall i :: 0 <= i < |ts| ==> Settled(s, Clean(c, s, n), ts[i])
    decreases |ts|
  {
    if ts == [] {
      n := 1;
      assert Clean(c, s, 1) == Clean(c, BootStep(c, s, true, true), 0);
    } else {
      assert ts == [ts[0]] + ts[1..];
      var k, s' := OneTenant(c, s, ts[0], ts[1..]);
      var m := AllTenants(c, s', ts[1..]);
      n := k + m;
      var end := Clean(c, s', m);
      assert Clean(c, s, n) == end;
      forall i | 0 <= i < |ts|
        ensures Settled(s, end, ts[i])
      {
        if i > 0 {
          assert Settled(s', end, ts[1..][i - 1]);
        }
      }
    }
  }

  /** A boot in which nothing fails adds both columns, with their backfills if this boot added
      them, and settles every tenant. */
  lemma CleanBoot(c: Config, s: State, ts: seq<Tenant>) returns (n: nat)
    requires s.pc == ProbeRole(ts) && forall i, j :: 0 <= i < j < |ts| ==> ts[i] != ts[j]
    ensures Clean(c, s, n).pc.Serving?
    ensures !s.roleColumn ==> RolesLifted in Clean(c, s, n).done
    ensures !s.ownerColumn ==> OwnersSet in Clean(c, s, n).done
    ensures forall i :: 0 <= i < |ts| ==> Settled(s, Clean(c, s, n), ts[i])
  {
    var k, s1 := RoleTurn(c, s, ts);
    var l, s2 := OwnerTurn(c, s1, ts);
    var m := AllTenants(c, s2, ts);
    n := k + (l + m);
    assert Clean(c, s, n) == Clean(c, s1, l + m) == Clean(c, s2, m);
    forall i | 0 <= i < |ts|
      ensures Settled(s, Clean(c, s, n), ts[i])
    {
      assert Settled(s2, Clean(c, s2, m), ts[i]);
    }
  }

  ghost predicate SameTenants(s: State, s': State) { s'.merged == s.merged && s'.marked == s.marked && s'.files == s.files && s'.ownerColumn == s.ownerColumn }

  lemma RoleTurn(c: Config, s: State, ts: seq<Tenant>) returns (n: nat, s': State)
    requires s.pc == ProbeRole(ts)
    ensures (forall m: nat :: Clean(c, s, n + m) == Clean(c, s', m)) && s'.pc == ProbeOwner(ts) && SameTenants(s, s')
    ensures !s.roleColumn ==> RolesLifted in s'.done
  {
    var s1 := BootStep(c, s, true, true);
    n, s' := 1, s1;
    if !s.roleColumn {
      n, s' := 2, BootStep(c, s1, true, true);
      assert s'.done == s1.done + [RolesLifted];
    }
    forall m: nat
      ensures Clean(c, s, n + m) == Clean(c, s', m)
    {
      CleanStep(c, s, n - 1 + m);
      if n == 2 {
        CleanStep(c, s1, m);
      }
    }
  }

  lemma OwnerTurn(c: Config, s: State, ts: seq<Tenant>) returns (n: nat, s': State)
    requires s.pc == ProbeOwner(ts)
    ensures (forall m: nat :: Clean(c, s, n + m) == Clean(c, s', m)) && s'.pc == Egress(ts)
    ensures s'.merged == s.merged && s'.marked == s.marked && s'.files == s.files && (forall e :: e in s.done ==> e in s'.done)
    ensures !s.ownerColumn ==> OwnersSet in s'.done
  {
    var s1 := BootStep(c, s, true, true);
    n, s' := 1, s1;
    if !s.ownerColumn {
      n, s' := 2, BootStep(c, s1, true, true);
      assert s'.done == s1.done + [OwnersSet];
    }
    forall m: nat
      ensures Clean(c, s, n + m) == Clean(c, s', m)
    {
      CleanStep(c, s, n - 1 + m);
      if n == 2 {
        CleanStep(c, s1, m);
      }
    }
  }

  // ---------------------------------------------------------------- the ownership backfill

  lemma {:induction false} FirstOwnerExists(roles: map<Admin, Role>, a: Admin)
    requires a in roles && roles[a] == Owner
    ensures exists b :: IsFirstOwner(roles, b)
    decreases a
  {
    if b :| b in roles && roles[b] == Owner && b < a {
      FirstOwnerExists(roles, b);
    } else {
      assert IsFirstOwner(roles, a);
    }
  }

  lemma OneFirstOwner(roles: map<Admin, Role>, a: Admin, b: Admin)
    requires IsFirstOwner(roles, a) && IsFirstOwner(roles, b)
    ensures a == b
  {
    assert roles[a] == Owner && roles[b] == Owner;
  }

  lemma FirstOwnerIs(roles: map<Admin, Role>, a: Admin)
    ensures FirstOwner(roles) == Some(a) <==> IsFirstOwner(roles, a)
  {
    if IsFirstOwner(roles, a) {
      OneFirstOwner(roles, a, FirstOwner(roles).value);
    }
  }

  /** The backfill gives exactly the live tenants without an owner the owner admin with the
      lowest id, if there is an owner admin at all; deleted and owned tenants stay. */
  lemma OwnersAdopted(s: State, t: Tenant, a: Admin)
    requires t in s.owners
    ensures t in Adopted(s)
    ensures s.owners[t].Some? || t !in s.live ==> Adopted(s)[t] == s.owners[t]
    ensures s.owners[t].None? && t in s.live ==>
            (Adopted(s)[t] == Some(a) <==> a in s.roles && s.roles[a] == Owner && forall b :: b in s.roles && s.roles[b] == Owner ==> a <= b)
    ensures s.owners[t].None? && t in s.live && a in s.roles && s.roles[a] == Owner ==> Adopted(s)[t].Some?
  {
    FirstOwnerIs(s.roles, a);
    if a in s.roles && s.roles[a] == Owner {
      FirstOwnerExists(s.roles, a);
    }
  }

  // ---------------------------------------------------------------- the egress merge

  /** What covers an origin: a webhook entry that normalizes to it. */
  ghost predicate CoveredBy(c: Config, e: Entry, origin: string) { e.system == Webhook && c.normalize(e.uri) == Some(origin) }

  /** `after` is `before` with entries appended for the URLs at the places `at`: one webhook entry
      with the origin of each of those, in order; a URL with an origin is passed over exactly
      when an entry that is there by then covers it. */
  ghost predicate MergedAt(c: Config, before: seq<Entry>, after: seq<Entry>, urls: seq<string>, at: seq<nat>) {
    && |after| == |before| + |at| && after[..|before|] == before
    && (forall k :: 0 <= k < |at| ==> at[k] < |urls|) && (forall i, j :: 0 <= i < j < |at| ==> at[i] < at[j])
    && (forall e :: |before| <= e < |after| ==> after[e].system == Webhook && c.normalize(urls[at[e - |before|]]) == Some(after[e].uri))
    && (forall e, j :: |before| <= e < |after| && 0 <= j < e ==> !CoveredBy(c, after[j], after[e].uri))
    && (forall u :: 0 <= u < |urls| && c.normalize(urls[u]).Some? ==>
          u in at || exists j :: 0 <= j < |after| && (j < |before| || at[j - |before|] < u) && CoveredBy(c, after[j], c.normalize(urls[u]).value))
  }

  ghost predicate Merged(c: Config, before: seq<Entry>, after: seq<Entry>, urls: seq<string>) { exists at :: MergedAt(c, before, after, urls, at) }

  lemma {:induction false} OriginsSnoc(c: Config, urls: seq<string>, u: string)
    ensures Origins(c, urls + [u]) == Origins(c, urls) + if c.normalize(u).Some? then [c.normalize(u).value] else []
  {
    if urls == [] {
      assert urls + [u] == [u] && [u][1..] == [];
    } else {
      assert (urls + [u])[1..] == urls[1..] + [u];
      OriginsSnoc(c, urls[1..], u);
    }
  }

  lemma {:induction false} MergeSnoc(c: Config, entries: seq<Entry>, origins: seq<string>, o: string)
    ensures var m := Merge(c, entries, origins);
            Merge(c, entries, origins + [o]) == if Covered(c, m, o) then m else m + [Entry(Webhook, o)]
    decreases |origins|
  {
    if origins == [] {
      assert origins + [o] == [o] && [o][1..] == [];
    } else {
      assert (origins + [o])[1..] == origins[1..] + [o];
      MergeSnoc(c, if Covered(c, entries, origins[0]) then entries else entries + [Entry(Webhook, origins[0])], origins[1..], o);
    }
  }

  /** The next URL brings nothing new, .. */
  lemma MergedPast(c: Config, before: seq<Entry>, after: seq<Entry>, urls: seq<string>, u: string, at: seq<nat>)
    requires MergedAt(c, before, after, urls, at)
    requires c.normalize(u).Some? ==> Covered(c, after, c.normalize(u).value)
    ensures MergedAt(c, before, after, urls + [u], at)
  {
    var longer := urls + [u];
    assert forall p :: 0 <= p < |urls| ==> longer[p] == urls[p];
    forall e | |before| <= e < |after|
      ensures c.normalize(longer[at[e - |before|]]) == Some(after[e].uri)
    {
      assert longer[at[e - |before|]] == urls[at[e - |before|]];
    }
    if c.normalize(u).Some? {
      var j :| 0 <= j < |after| && Covers(c, after[j], c.normalize(u).value);
      assert CoveredBy(c, after[j], c.normalize(u).value);
    }
  }

  /** .. or an entry for its origin. */
  lemma MergedMore(c: Config, before: seq<Entry>, after: seq<Entry>, urls: seq<string>, u: string, at: seq<nat>)
    requires MergedAt(c, before, after, urls, at) && c.normalize(u).Some? && !Covered(c, after, c.normalize(u).value)
    ensures MergedAt(c, before, after + [Entry(Webhook, c.normalize(u).value)], urls + [u], at + [|urls|])
  {
    var o, all, more := c.normalize(u).value, after + [Entry(Webhook, c.normalize(u).value)], at + [|urls|];
    assert all[..|before|] == before && more[|at|] == |urls|;
    assert forall k :: 0 <= k < |at| ==> more[k] == at[k];
    forall e | |before| <= e < |after|
      ensures c.normalize((urls + [u])[more[e - |before|]]) == Some(all[e].uri)
    {
      assert (urls + [u])[at[e - |before|]] == urls[at[e - |before|]];
    }
    forall j | 0 <= j < |after|
      ensures !CoveredBy(c, after[j], o)
    {
      assert !Covers(c, after[j], o);
    }
    forall v | 0 <= v < |urls| && c.normalize(urls[v]).Some?
      ensures v in more || exists j :: 0 <= j < |all| && (j < |before| || more[j - |before|] < v) && CoveredBy(c, all[j], c.normalize(urls[v]).value)
    {
      if v in at {
        assert v in more;
      } else {
        var j :| 0 <= j < |after| && (j < |before| || at[j - |before|] < v) && CoveredBy(c, after[j], c.normalize(urls[v]).value);
        assert all[j] == after[j];
      }
    }
  }

  lemma {:induction false} MergeAt(c: Config, before: seq<Entry>, urls: seq<string>) returns (at: seq<nat>)
    ensures MergedAt(c, before, Merge(c, before, Origins(c, urls)), urls, at)
    decreases |urls|
  {
    if urls == [] {
      at := [];
    } else {
      var front, u := urls[..|urls| - 1], urls[|urls| - 1];
      var m := Merge(c, before, Origins(c, front));
      at := MergeAt(c, before, front);
      assert urls == front + [u];
      OriginsSnoc(c, front, u);
      if c.normalize(u).Some? {
        MergeSnoc(c, before, Origins(c, front), c.normalize(u).value);
      } else {
        assert Origins(c, front) + [] == Origins(c, front);
      }
      if c.normalize(u).Some? && !Covered(c, m, c.normalize(u).value) {
        MergedMore(c, before, m, front, u, at);
        at := at + [|front|];
      } else {
        MergedPast(c, before, m, front, u, at);
      }
    }
  }

  /** The merge keeps every entry an operator had and adds, URL by URL in order, a webhook entry
      for each origin that none covers by then, and nothing else. */
  lemma MergeIsUnion(c: Config, before: seq<Entry>, urls: seq<string>)
    ensures Merged(c, before, Merge(c, before, Origins(c, urls)), urls)
  {
    var at := MergeAt(c, before, urls);
  }

  /** Merging what is covered adds nothing. */
  lemma {:induction false} MergeIdempotent(c: Config, entries: seq<Entry>, origins: seq<string>)
    requires forall o :: o in origins ==> exists i :: 0 <= i < |entries| && CoveredBy(c, entries[i], o)
    ensures Merge(c, entries, origins) == entries
    decreases |origins|
  {
    if origins != [] {
      assert origins[0] in origins;
      var i :| 0 <= i < |entries| && CoveredBy(c, entries[i], origins[0]);
      assert Covers(c, entries[i], origins[0]);
      assert forall o :: o in origins[1..] ==> o in origins;
      MergeIdempotent(c, entries, origins[1..]);
    }
  }

  // ---------------------------------------------------------------- the publish grant

  /** A boot changes a tenant's root rule only by filling publish roles that are null, and only in
      the step that grants. */
  lemma BootOnlyFillsNull(c: Config, s: State, a: Action, t: Tenant)
    requires Enabled(s, a) && !a.Change?
    ensures var r := Next(c, s, a).root;
            if a.Do? && a.ok && s.pc.Grant? && s.pc.t == t && t in s.root && s.root[t] == Rule(None)
            then t in r && r[t] == Rule(Some("[\"anon\",\"user\"]"))
            else (t in r <==> t in s.root) && (t in r ==> r[t] == s.root[t])
  {
  }

  /** The run makes no change of its own to the root rule of `t`. */
  predicate RootUnedited(acts: seq<Action>, t: Tenant) {
    forall i :: 0 <= i < |acts| ==> !(acts[i].Change? && (acts[i].edit.EditRoot? || acts[i].edit.CreateTenant?) && acts[i].edit.t == t)
  }

  lemma PublishRolesStayOnce(c: Config, s: State, a: Action, t: Tenant, roles: string)
    requires Enabled(s, a) && RootUnedited([a], t) && t in s.root && s.root[t] == Rule(Some(roles))
    ensures t in Next(c, s, a).root && Next(c, s, a).root[t] == Rule(Some(roles))
  {
    assert [a][0] == a;
    if a.Change? {
      RootOnlyEdited(s, a.edit, t);
    } else {
      BootOnlyFillsNull(c, s, a, t);
    }
  }

  lemma RootOnlyEdited(s: State, e: Edit, t: Tenant)
    requires !((e.EditRoot? || e.CreateTenant?) && e.t == t) && t in s.root
    ensures t in Edited(s, e).root && Edited(s, e).root[t] == s.root[t]
  {
  }

  /** No boot, however often and wherever it stops, ever changes a root rule that has publish
      roles: from any state on, they stay until an operator changes them. */
  lemma {:induction false} PublishRolesStay(c: Config, s: State, acts: seq<Action>, t: Tenant, roles: string)
    requires IsRun(c, s, acts) && RootUnedited(acts, t) && t in s.root && s.root[t] == Rule(Some(roles))
    ensures t in After(c, s, acts).root && After(c, s, acts).root[t] == Rule(Some(roles))
    decreases |acts|
  {
    if acts != [] {
      PublishRolesStay(c, s, acts[..|acts| - 1], t, roles);
      PublishRolesStayOnce(c, After(c, s, acts[..|acts| - 1]), acts[|acts| - 1], t, roles);
    }
  }
}
