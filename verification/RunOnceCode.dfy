/** The run-once migration functions as they update the meta and tenant databases in place.
    Each boolean parameter says whether the statement it is named after succeeds. */
module RunOnceCode {
  import opened RunOnce
  import opened RunOnceTheorems

  lemma PublishIs(c: Config, s: State, ok: bool)
    requires s.pc.Publish?
    ensures BootStep(c, s, ok, true) ==
            if s.pc.t in s.marked || s.pc.t !in s.files || !ok then s.(pc := Egress(s.pc.rest))
            else s.(marked := s.marked + {s.pc.t}, pc := Grant(s.pc.t, s.pc.rest))
  {
  }

  lemma GrantIs(c: Config, s: State, ok: bool)
    requires s.pc.Grant?
    ensures BootStep(c, s, ok, true) ==
            if !ok then s.(pc := Reset(s.pc.t, s.pc.rest))
            else s.(root := if s.pc.t in s.root && s.root[s.pc.t] == Rule(None) then s.root[s.pc.t := Rule(Some(ALL_ROLES))] else s.root,
                    done := s.done + [PublishGranted(s.pc.t)], pc := Egress(s.pc.rest))
  {
  }

  /** A tenant whose additive migration failed is passed over. */
  lemma PassedOver(c: Config, s: State, t: Tenant, rest: seq<Tenant>)
    requires s.pc == Egress([t] + rest)
    ensures BootStep(c, s, true, false) == s.(pc := Egress(rest))
  {
    assert ([t] + rest)[0] == t && ([t] + rest)[1..] == rest;
  }

  lemma EgressSkips(c: Config, s: State, t: Tenant, rest: seq<Tenant>, ok: bool)
    requires s.pc == Egress([t] + rest) && (!ok || t in s.merged)
    ensures BootStep(c, s, ok, true) == s.(pc := Publish(t, rest))
  {
    assert ([t] + rest)[0] == t && ([t] + rest)[1..] == rest;
  }

  /** The tenant's list merged and its marker set. */
  function WithMerged(s: State, t: Tenant, rest: seq<Tenant>, entries: seq<Entry>): State {
    s.(allow := s.allow[t := entries], merged := s.merged + {t}, done := s.done + [EgressMerged(t)], pc := Publish(t, rest))
  }

  lemma EgressMerges(c: Config, s: State, t: Tenant, rest: seq<Tenant>)
    requires s.pc == Egress([t] + rest) && t !in s.merged
    ensures BootStep(c, s, true, true) == WithMerged(s, t, rest, Merge(c, AllowOf(s, t), Origins(c, UrlsOf(s, t))))
  {
    assert ([t] + rest)[0] == t && ([t] + rest)[1..] == rest;
  }

  // ---------------------------------------------------------------- a tenant's turn

  /** How one tenant's turn goes: its additive migration fails, or each of the statements after it
      succeeds or not. */
  datatype Turn = Unmigrated | Migrated(egressOk: bool, markOk: bool, grantOk: bool, resetOk: bool)

  /** Nothing of tenant `t` has changed. */
  ghost predicate Untouched(s: State, s': State, t: Tenant) {
    && (t in s'.allow <==> t in s.allow) && (t in s.allow ==> s'.allow[t] == s.allow[t])
    && (t in s'.root <==> t in s.root) && (t in s.root ==> s'.root[t] == s.root[t])
    && (t in s'.merged <==> t in s.merged) && (t in s'.marked <==> t in s.marked)
  }

  /** The egress half: the origins of the tenant's webhooks are merged into its allowlist and the
      marker is set, unless it is set already or the statement fails. */
  ghost predicate EgressHalf(c: Config, s: State, s': State, t: Tenant, ok: bool) {
    if ok && t !in s.merged then
      t in s'.merged && t in s'.allow &&
      Merged(c, if t in s.allow then s.allow[t] else [], s'.allow[t], if t in s.files && t in s.hooks then s.hooks[t] else [])
    else
      (t in s'.merged <==> t in s.merged) && (t in s'.allow <==> t in s.allow) && (t in s.allow ==> s'.allow[t] == s.allow[t])
  }

  /** The publish half: an unmarked tenant with a file is marked and granted; the mark is taken back
      if the grant fails. Only a root rule whose publish roles are null changes. */
  ghost predicate PublishHalf(s: State, s': State, t: Tenant, o: Turn)
    requires o.Migrated?
  {
    var marks := t !in s.marked && t in s.files && o.markOk;
    && (t in s'.marked <==> t in s.marked || (marks && (o.grantOk || !o.resetOk)))
    && (if marks && o.grantOk && t in s.root && s.root[t] == Rule(None)
        then t in s'.root && s'.root[t] == Rule(Some("[\"anon\",\"user\"]"))
        else (t in s'.root <==> t in s.root) && (t in s.root ==> s'.root[t] == s.root[t]))
  }

  ghost predicate TurnTaken(c: Config, s: State, s': State, t: Tenant, o: Turn) {
    if o.Unmigrated? then Untouched(s, s', t) else EgressHalf(c, s, s', t, o.egressOk) && PublishHalf(s, s', t, o)
  }

  /** What no tenant's turn touches. */
  ghost predicate SameElse(s: State, s': State) {
    s'.roles == s.roles && s'.owners == s.owners && s'.live == s.live && s'.files == s.files && s'.hooks == s.hooks &&
    s'.roleColumn == s.roleColumn && s'.ownerColumn == s.ownerColumn
  }

  lemma SkippedHalf(c: Config, s: State, t: Tenant, rest: seq<Tenant>, ok: bool)
    requires !ok || t in s.merged
    ensures EgressHalf(c, s, s.(pc := Publish(t, rest)), t, ok)
    ensures forall u :: Untouched(s, s.(pc := Publish(t, rest)), u)
  {
  }

  lemma MergedHalf(c: Config, s: State, t: Tenant, rest: seq<Tenant>, entries: seq<Entry>)
    requires t !in s.merged && Merged(c, AllowOf(s, t), entries, UrlsOf(s, t))
    ensures EgressHalf(c, s, WithMerged(s, t, rest, entries), t, true)
    ensures forall u :: u != t ==> Untouched(s, WithMerged(s, t, rest, entries), u)
  {
  }

  lemma MergeTaken(c: Config, s: State, t: Tenant, rest: seq<Tenant>)
    requires s.pc == Egress([t] + rest) && t !in s.merged
    ensures var s' := WithMerged(s, t, rest, Merge(c, AllowOf(s, t), Origins(c, UrlsOf(s, t))));
            s' == BootStep(c, s, true, true) && EgressHalf(c, s, s', t, true) && forall u :: u != t ==> Untouched(s, s', u)
  {
    EgressMerges(c, s, t, rest);
    MergeIsUnion(c, AllowOf(s, t), UrlsOf(s, t));
    MergedHalf(c, s, t, rest, Merge(c, AllowOf(s, t), Origins(c, UrlsOf(s, t))));
  }

  /** The state after the publish half. */
  ghost function Published(s: State, o: Turn): State
    requires o.Migrated? && s.pc.Publish?
  {
    var t := s.pc.t;
    var marks := t !in s.marked && t in s.files && o.markOk;
    s.(pc := Egress(s.pc.rest),
       marked := if marks && (o.grantOk || !o.resetOk) then s.marked + {t} else s.marked,
       root := if marks && o.grantOk && t in s.root && s.root[t] == Rule(None)
               then s.root[t := Rule(Some("[\"anon\",\"user\"]"))] else s.root,
       done := if marks && o.grantOk then s.done + [PublishGranted(t)] else s.done)
  }

  lemma PublishedHalf(s: State, o: Turn)
    requires o.Migrated? && s.pc.Publish?
    ensures PublishHalf(s, Published(s, o), s.pc.t, o)
    ensures forall u :: u != s.pc.t ==> Untouched(s, Published(s, o), u)
  {
  }

  /** Both halves make a turn. */
  lemma WholeTurn(c: Config, s: State, m: State, t: Tenant, o: Turn)
    requires o.Migrated? && m.pc.Publish? && m.pc.t == t && EgressHalf(c, s, m, t, o.egressOk)
    requires m.root == s.root && m.marked == s.marked && SameElse(s, m)
    ensures TurnTaken(c, s, Published(m, o), t, o)
  {
    PublishedHalf(m, o);
  }

  lemma UntouchedTwice(s: State, m: State, s': State, t: Tenant)
    requires Untouched(s, m, t) && Untouched(m, s', t)
    ensures Untouched(s, s', t)
  {
  }

  /** The first `n` tenants have had their turns, and the others are as they were. */
  ghost predicate Taken(c: Config, s: State, s': State, ts: seq<Tenant>, turns: seq<Turn>, n: nat)
    requires n <= |ts| == |turns|
  {
    && (forall i :: 0 <= i < n ==> TurnTaken(c, s, s', ts[i], turns[i]))
    && (forall t :: t !in ts[..n] ==> Untouched(s, s', t))
  }

  lemma TakenNext(c: Config, s: State, m: State, s': State, ts: seq<Tenant>, turns: seq<Turn>, n: nat)
    requires n < |ts| == |turns| && SameElse(s, m) && Taken(c, s, m, ts, turns, n) && ts[n] !in ts[..n]
    requires TurnTaken(c, m, s', ts[n], turns[n]) && forall u :: u != ts[n] ==> Untouched(m, s', u)
    ensures Taken(c, s, s', ts, turns, n + 1)
  {
    assert ts[..n + 1] == ts[..n] + [ts[n]];
    forall i | 0 <= i < n
      ensures TurnTaken(c, s, s', ts[i], turns[i])
    {
      assert ts[i] == ts[..n][i];
      TurnKept(c, s, m, s', ts[i], turns[i]);
    }
    TurnAfter(c, s, m, s', ts[n], turns[n]);
    forall t | t !in ts[..n + 1]
      ensures Untouched(s, s', t)
    {
      assert t !in ts[..n] && t != ts[n];
      UntouchedTwice(s, m, s', t);
    }
  }

  /** A turn of another tenant does not matter. */
  lemma TurnKept(c: Config, s: State, m: State, s': State, t: Tenant, o: Turn)
    requires TurnTaken(c, s, m, t, o) && Untouched(m, s', t) && SameElse(s, m)
    ensures TurnTaken(c, s, s', t, o)
  {
  }

  lemma TurnAfter(c: Config, s: State, m: State, s': State, t: Tenant, o: Turn)
    requires Untouched(s, m, t) && SameElse(s, m) && TurnTaken(c, m, s', t, o)
    ensures TurnTaken(c, s, s', t, o)
  {
  }

  /** The owner admin with the lowest id; none when no admin is an owner. */
  ghost predicate IsLowestOwner(roles: map<Admin, Role>, best: Option<Admin>) {
    match best
    case Some(a) => a in roles && roles[a] == Owner && forall b :: b in roles && roles[b] == Owner ==> a <= b
    case None => forall b :: b in roles ==> roles[b] != Owner
  }

  /** `UPDATE tenants SET owner_admin_id = first WHERE owner_admin_id IS NULL AND deleted_at IS NULL`. */
  function WithOwner(owners: map<Tenant, Option<Admin>>, live: set<Tenant>, first: Option<Admin>): map<Tenant, Option<Admin>> {
    map t | t in owners :: if owners[t].None? && t in live then first else owners[t]
  }

  class Databases {
    const c: Config
    var state: State

    constructor (config: Config, s: State)
      ensures c == config && state == s
    {
      c := config;
      state := s;
    }

    /** The origins of the webhook URLs, in order. */
    method DiscoverOrigins(urls: seq<string>) returns (origins: seq<string>)
      ensures origins == Origins(c, urls)
    {
      origins := [];
      for i := 0 to |urls|
        invariant origins + Origins(c, urls[i..]) == Origins(c, urls)
      {
        assert urls[i..][0] == urls[i] && urls[i..][1..] == urls[i + 1..];
        var origin := c.normalize(urls[i]);
        if origin.Some? {
          origins := origins + [origin.value];
        }
      }
    }

    /** The merge loop: append what no webhook entry covers yet. */
    method MergeOrigins(existing: seq<Entry>, origins: seq<string>) returns (entries: seq<Entry>)
      ensures entries == Merge(c, existing, origins)
    {
      entries := existing;
      for i := 0 to |origins|
        invariant Merge(c, entries, origins[i..]) == Merge(c, existing, origins)
      {
        assert origins[i..][0] == origins[i] && origins[i..][1..] == origins[i + 1..];
        var already := exists k :: 0 <= k < |entries| && Covers(c, entries[k], origins[i]);
        if !already {
          entries := entries + [Entry(Webhook, origins[i])];
        }
      }
    }

    /** The merged list and the marker go into the row in one statement. */
    method MergeWebhooks(t: Tenant, rest: seq<Tenant>)
      requires state.pc == Egress([t] + rest) && t !in state.merged
      modifies this
      ensures state == WithMerged(old(state), t, rest, Merge(c, AllowOf(old(state), t), Origins(c, UrlsOf(old(state), t))))
    {
      var origins := DiscoverOrigins(UrlsOf(state, t));
      var merged := MergeOrigins(AllowOf(state, t), origins);
      state := WithMerged(state, t, rest, merged);
    }

    /** Skipped when the marker is set; when the statement fails, nothing changes. */
    method BackfillEgress(ok: bool, rest: seq<Tenant>, t: Tenant)
      requires state.pc == Egress([t] + rest)
      modifies this
      ensures state == BootStep(c, old(state), ok, true)
      ensures EgressHalf(c, old(state), state, t, ok)
      ensures forall u :: u != t ==> Untouched(old(state), state, u)
      ensures state.pc == Publish(t, rest) && state.root == old(state).root && state.marked == old(state).marked && SameElse(old(state), state)
    {
      if t in state.merged || !ok {
        EgressSkips(c, state, t, rest, ok);
        SkippedHalf(c, state, t, rest, ok);
        state := state.(pc := Publish(t, rest));
      } else {
        MergeTaken(c, state, t, rest);
        MergeWebhooks(t, rest);
      }
    }

    /** Probe, and add the column if it is missing. */
    method AddRoleColumn(ok: bool)
      requires state.pc.ProbeRole?
      modifies this
      ensures state == BootStep(c, old(state), ok, true)
    {
      var ts := state.pc.ts;
      if state.roleColumn {
        state := state.(pc := ProbeOwner(ts));
      } else if ok {
        state := state.(roleColumn := true, pc := LiftRoles(ts));
      } else {
        state := state.(pc := Down);
      }
    }

    /** `UPDATE admins SET role='owner'`. */
    method LiftAllAdmins(ok: bool)
      requires state.pc.LiftRoles?
      modifies this
      ensures state == BootStep(c, old(state), ok, true)
    {
      if ok {
        state := state.(roles := Lifted(state.roles), done := state.done + [RolesLifted], pc := ProbeOwner(state.pc.ts));
      } else {
        state := state.(pc := Down);
      }
    }

    /** The backfill belongs to the boot that added the column: that boot, and no other, makes every
        admin an owner; if a statement fails, the boot ends there. */
    method BackfillRoles(addOk: bool, updateOk: bool)
      requires state.pc.ProbeRole?
      modifies this
      ensures var s1 := BootStep(c, old(state), addOk, true);
              state == if s1.pc.LiftRoles? then BootStep(c, s1, updateOk, true) else s1
      ensures var lifts := !old(state).roleColumn && addOk && updateOk;
              state.roles.Keys == old(state).roles.Keys &&
              (forall a :: a in state.roles ==> state.roles[a] == if lifts then Owner else old(state).roles[a]) &&
              state.roleColumn == (old(state).roleColumn || addOk) &&
              state.pc == (if old(state).roleColumn || lifts then ProbeOwner(old(state).pc.ts) else Down) &&
              state.done == old(state).done + (if lifts then [RolesLifted] else [])
    {
      AddRoleColumn(addOk);
      if state.pc.LiftRoles? {
        LiftAllAdmins(updateOk);
      }
    }

    /** `SELECT id FROM admins WHERE role='owner' ORDER BY id LIMIT 1`. */
    method LowestOwner(roles: map<Admin, Role>) returns (best: Option<Admin>)
      ensures best == FirstOwner(roles) && IsLowestOwner(roles, best)
    {
      best := None;
      var rest := roles.Keys;
      while rest != {}
        invariant rest <= roles.Keys
        invariant best.Some? ==> best.value in roles && roles[best.value] == Owner
        invariant forall b :: b in roles && b !in rest && roles[b] == Owner ==> best.Some? && best.value <= b
        decreases |rest|
      {
        var a :| a in rest;
        rest := rest - {a};
        if roles[a] == Owner && (best.None? || a < best.value) {
          best := Some(a);
        }
      }
      if best.Some? {
        assert IsFirstOwner(roles, best.value);
        FirstOwnerIs(roles, best.value);
      } else {
        assert forall b :: !IsFirstOwner(roles, b);
      }
    }

    /** Live tenants without an owner get the lowest-id owner admin, if there is one. */
    method AdoptOrphans(ok: bool)
      requires state.pc.SetOwners?
      modifies this
      ensures state == BootStep(c, old(state), ok, true)
      ensures state.owners.Keys == old(state).owners.Keys
      ensures forall t :: t in state.owners && !(ok && old(state).owners[t].None? && t in state.live) ==> state.owners[t] == old(state).owners[t]
      ensures forall t :: t in state.owners && ok && old(state).owners[t].None? && t in state.live ==> IsLowestOwner(state.roles, state.owners[t])
    {
      if ok {
        var first := LowestOwner(state.roles);
        var owners := WithOwner(state.owners, state.live, first);
        assert owners == Adopted(state);
        state := state.(owners := owners, done := state.done + [OwnersSet], pc := Egress(state.pc.ts));
      } else {
        state := state.(pc := Down);
      }
    }

    method AddOwnerColumn(ok: bool)
      requires state.pc.ProbeOwner?
      modifies this
      ensures state == BootStep(c, old(state), ok, true)
    {
      var ts := state.pc.ts;
      if state.ownerColumn {
        state := state.(pc := Egress(ts));
      } else if ok {
        state := state.(ownerColumn := true, pc := SetOwners(ts));
      } else {
        state := state.(pc := Down);
      }
    }

    /** The ownership backfill belongs to the boot that added the column: that boot, and no other,
        gives the live tenants without an owner the owner admin with the lowest id, if there is one. */
    method BackfillOwners(addOk: bool, updateOk: bool)
      requires state.pc.ProbeOwner?
      modifies this
      ensures var s := old(state); var adopts := !s.ownerColumn && addOk && updateOk;
              state.owners.Keys == s.owners.Keys &&
              (forall t :: t in s.owners && !(adopts && s.owners[t].None? && t in s.live) ==> state.owners[t] == s.owners[t]) &&
              (forall t :: t in s.owners && adopts && s.owners[t].None? && t in s.live ==> IsLowestOwner(s.roles, state.owners[t])) &&
              state.ownerColumn == (s.ownerColumn || addOk) && state.roles == s.roles &&
              state.pc == (if s.ownerColumn || adopts then Egress(s.pc.ts) else Down)
    {
      AddOwnerColumn(addOk);
      if state.pc.SetOwners? {
        AdoptOrphans(updateOk);
      }
    }

    method MarkTenant(ok: bool)
      requires state.pc.Publish?
      modifies this
      ensures state == BootStep(c, old(state), ok, true)
    {
      var t, rest := state.pc.t, state.pc.rest;
      PublishIs(c, state, ok);
      if t in state.marked || t !in state.files || !ok {
        state := state.(pc := Egress(rest));
      } else {
        state := state.(marked := state.marked + {t}, pc := Grant(t, rest));
      }
    }

    /** `grant_root_public_upload`: only a root rule whose publish roles are null is changed. */
    method GrantRoot(ok: bool)
      requires state.pc.Grant?
      modifies this
      ensures state == BootStep(c, old(state), ok, true)
      ensures var t := old(state).pc.t;
              state.root == if ok && t in old(state).root && old(state).root[t] == Rule(None)
                            then old(state).root[t := Rule(Some("[\"anon\",\"user\"]"))] else old(state).root
    {
      var t, rest := state.pc.t, state.pc.rest;
      GrantIs(c, state, ok);
      if ok {
        if t in state.root && state.root[t] == Rule(None) {
          state := state.(root := state.root[t := Rule(Some(ALL_ROLES))]);
        }
        state := state.(done := state.done + [PublishGranted(t)], pc := Egress(rest));
      } else {
        state := state.(pc := Reset(t, rest));
      }
    }

    method TakeMarkBack(ok: bool)
      requires state.pc.Reset?
      modifies this
      ensures state == BootStep(c, old(state), ok, true)
    {
      if ok {
        state := state.(marked := state.marked - {state.pc.t});
      }
      state := state.(pc := Egress(state.pc.rest));
    }

    /** Marker first, grant second, compensation if the grant fails. The tenant's root rule changes
        only if mark and grant both succeed and its publish roles were null; then they become those
        of everybody. A root with publish roles, an absent root and every other tenant's stay. */
    method SeedPublishGrant(markOk: bool, grantOk: bool, resetOk: bool)
      requires state.pc.Publish?
      modifies this
      ensures var s, t := old(state), old(state).pc.t;
              var marks := t !in s.marked && t in s.files && markOk;
              state == s.(
                pc := Egress(s.pc.rest),
                marked := if marks && (grantOk || !resetOk) then s.marked + {t} else s.marked,
                root := if marks && grantOk && t in s.root && s.root[t] == Rule(None)
                        then s.root[t := Rule(Some("[\"anon\",\"user\"]"))] else s.root,
                done := if marks && grantOk then s.done + [PublishGranted(t)] else s.done)
      ensures var s1 := BootStep(c, old(state), markOk, true);
              if !s1.pc.Grant? then state == s1
              else
                var s2 := BootStep(c, s1, grantOk, true);
                state == if s2.pc.Reset? then BootStep(c, s2, resetOk, true) else s2
    {
      MarkTenant(markOk);
      if state.pc.Grant? {
        GrantRoot(grantOk);
        if state.pc.Reset? {
          TakeMarkBack(resetOk);
        }
      }
    }

    /** One tenant's turn in the boot loop. */
    method TakeTurn(t: Tenant, rest: seq<Tenant>, o: Turn)
      requires state.pc == Egress([t] + rest)
      modifies this
      ensures state.pc == Egress(rest) && SameElse(old(state), state) && TurnTaken(c, old(state), state, t, o)
      ensures forall u :: u != t ==> Untouched(old(state), state, u)
    {
      if o.Unmigrated? {
        PassedOver(c, state, t, rest);
        state := state.(pc := Egress(rest));
        return;
      }
      BackfillEgress(o.egressOk, rest, t);
      ghost var m := state;
      WholeTurn(c, old(state), m, t, o);
      PublishedHalf(m, o);
      SeedPublishGrant(o.markOk, o.grantOk, o.resetOk);
      assert state == Published(m, o);
      forall u | u != t
        ensures Untouched(old(state), state, u)
      {
        UntouchedTwice(old(state), m, state, u);
      }
    }

    /** The boot loop over all tenants: each whose additive migration goes through takes its turn,
        exactly once, whatever became of the others; the rest are passed over. */
    method MigrateTenants(ts: seq<Tenant>, turns: seq<Turn>)
      requires state.pc == Egress(ts) && |turns| == |ts| && forall i, j :: 0 <= i < j < |ts| ==> ts[i] != ts[j]
      modifies this
      ensures state.pc.Serving? && SameElse(old(state), state)
      ensures Taken(c, old(state), state, ts, turns, |ts|)
    {
      assert ts[0..] == ts;
      for n := 0 to |ts|
        invariant state.pc == Egress(ts[n..]) && SameElse(old(state), state) && Taken(c, old(state), state, ts, turns, n)
      {
        ghost var before := state;
        assert ts[n..] == [ts[n]] + ts[n + 1..];
        TakeTurn(ts[n], ts[n + 1..], turns[n]);
        TakenNext(c, old(state), before, state, ts, turns, n);
      }
      ghost var last := state;
      assert ts[|ts|..] == [] && ts[..|ts|] == ts;
      state := state.(pc := Serving);
      TakenThen(c, old(state), last, ts, turns);
    }
  }

  lemma TakenThen(c: Config, s: State, m: State, ts: seq<Tenant>, turns: seq<Turn>)
    requires |ts| == |turns| && SameElse(s, m) && Taken(c, s, m, ts, turns, |ts|)
    ensures Taken(c, s, m.(pc := Serving), ts, turns, |ts|)
  {
    forall i | 0 <= i < |ts|
      ensures TurnTaken(c, s, m.(pc := Serving), ts[i], turns[i])
    {
      TurnKept(c, s, m, m.(pc := Serving), ts[i], turns[i]);
    }
  }
}
