/** What boots and token operations keep, over every history of them. */
module AdminTokensTheorems {
  import opened AdminTokens

  // ---------------------------------------------------------------- one statement

  ghost predicate NoLegacyActive(rows: seq<Token>) { forall i :: 0 <= i < |rows| ==> !IsLegacyRow(rows[i]) }

  /** Each row keeps its place; precious rows stay as they are. */
  ghost predicate Keeps(rows: seq<Token>, rows': seq<Token>) {
    |rows| <= |rows'| && forall i :: 0 <= i < |rows| ==>
      rows'[i].id == rows[i].id && rows'[i].admin == rows[i].admin && (Precious(rows[i]) ==> rows'[i] == rows[i]) && (Precious(rows'[i]) ==> Precious(rows[i]))
  }

  /** Same rows, but for some that have been revoked. */
  ghost predicate OnlyRevoked(rows: seq<Token>, rows': seq<Token>) {
    |rows'| == |rows| && forall i :: 0 <= i < |rows| ==> MaybeRevoked(rows[i], rows'[i])
  }

  ghost predicate MaybeRevoked(t: Token, t': Token) { t' == t || (t'.revoked.Some? && t' == t.(revoked := t'.revoked)) }

  lemma RevokeOnly(rows: seq<Token>, p: Token -> bool, now: int)
    ensures OnlyRevoked(rows, RevokeWhere(rows, p, now))
  {
  }

  lemma SoundRevoked(s: State, s': State)
    requires Sound(s) && OnlyRevoked(s.rows, s'.rows) && s' == s.(rows := s'.rows)
    ensures Sound(s')
  {
    forall i | 0 <= i < |s.rows|
      ensures s'.rows[i].id == s.rows[i].id && s'.rows[i].admin == s.rows[i].admin
    {
      assert MaybeRevoked(s.rows[i], s'.rows[i]);
    }
  }

  /** Revoking rows keeps the invariant. */
  lemma RevokedInv(s: State, s': State)
    requires Inv(s) && OnlyRevoked(s.rows, s'.rows) && s' == s.(rows := s'.rows)
    ensures Inv(s')
  {
    SoundRevoked(s, s');
    forall i | 0 <= i < |s.rows|
      ensures SameKind(s.rows[i], s'.rows[i])
    {
      assert MaybeRevoked(s.rows[i], s'.rows[i]);
    }
    FewerActive(s.index, s.rows, s'.rows);
    if s.index.Missing? {
      StillOneEach(s, s');
    }
  }

  lemma StillOneEach(s: State, s': State)
    requires OnePlaintextEach(s) && |s'.rows| == |s.rows| && forall i :: 0 <= i < |s.rows| ==> SameKind(s.rows[i], s'.rows[i])
    ensures OnePlaintextEach(s')
  {
    forall i, j | 0 <= i < j < |s.rows|
      ensures !Clash(AllActive, s'.rows[i], s'.rows[j]) || s'.rows[i].plaintext.None? || s'.rows[j].plaintext.None?
    {
      assert SameKind(s.rows[i], s'.rows[i]) && SameKind(s.rows[j], s'.rows[j]);
    }
  }

  ghost predicate SameKind(t: Token, t': Token) {
    t'.admin == t.admin && t'.labelText == t.labelText && t'.expires == t.expires && t'.plaintext == t.plaintext && (Active(t') ==> Active(t))
  }

  lemma LegacyRevoked(rows: seq<Token>, now: int)
    ensures var rows' := RevokeWhere(rows, IsLegacyRow, now); NoLegacyActive(rows') && Keeps(rows, rows')
  {
    var rows' := RevokeWhere(rows, IsLegacyRow, now);
    forall i | 0 <= i < |rows|
      ensures rows'[i] == if IsLegacyRow(rows[i]) then Revoke(rows[i], now) else rows[i]
    {
    }
  }

  lemma RevokeLegacyStep(s: State, now: int)
    requires Inv(s)
    ensures var r := Exec(s, RevokeLegacy, now); r.Ok? && Inv(r.value) && NoLegacyActive(r.value.rows) && Keeps(s.rows, r.value.rows)
  {
    RevokeOnly(s.rows, IsLegacyRow, now);
    RevokedInv(s, Exec(s, RevokeLegacy, now).value);
    LegacyRevoked(s.rows, now);
  }

  /** Revoking rows cannot break a unique index. */
  lemma FewerActive(index: UniqueIndex, rows: seq<Token>, rows': seq<Token>)
    requires Unique(index, rows) && |rows'| == |rows|
    requires forall i :: 0 <= i < |rows| ==> SameKind(rows[i], rows'[i])
    ensures Unique(index, rows')
  {
    forall i, j | 0 <= i < j < |rows|
      ensures !Clash(index, rows'[i], rows'[j])
    {
      assert SameKind(rows[i], rows'[i]) && SameKind(rows[j], rows'[j]);
      assert !Clash(index, rows[i], rows[j]);
    }
  }

  lemma NoneActiveUnique(index: UniqueIndex, rows: seq<Token>)
    requires forall i :: 0 <= i < |rows| ==> !Active(rows[i])
    ensures Unique(index, rows)
  {
  }

  lemma SwapIndexStep(s: State, now: int)
    requires Inv(s) && NoLegacyActive(s.rows)
    ensures var r := Exec(s, SwapIndex, now); r.Ok? && Inv(r.value) && r.value.rows == s.rows && !r.value.index.Missing?
  {
    if s.index.Missing? {
      ActiveArePlaintext(s);
    }
  }

  /** With the hash-only rows revoked, whatever is active bears plaintext. */
  lemma ActiveArePlaintext(s: State)
    requires NoLegacyActive(s.rows) && NoLabels(s) && OnePlaintextEach(s)
    ensures Unique(AllActive, s.rows)
  {
    forall i, j | 0 <= i < j < |s.rows|
      ensures !Clash(AllActive, s.rows[i], s.rows[j])
    {
      assert !IsLegacyRow(s.rows[i]) && !IsLegacyRow(s.rows[j]);
    }
  }

  lemma RebuildStep(s: State, now: int)
    requires Inv(s) && NoLegacyActive(s.rows) && !s.index.Missing?
    ensures var r := Exec(s, Rebuild, now); r.Ok? && Inv(r.value) && r.value.rows == s.rows && !r.value.index.Missing? && !r.value.legacy
  {
    if s.legacy {
      assert Stripped(s.rows) == s.rows;
      NoneActiveUnique(AllActive, s.rows);
    }
  }

  lemma InsertStep(s: State, t: Token)
    requires Inv(s) && t.id == s.nextId && t.admin in s.admins && t.plaintext.Some?
    requires !s.index.Missing? && !s.legacy && (s.index.AllActive? ==> t.labelText.None? && t.expires.None?)
    requires forall i :: 0 <= i < |s.rows| ==> !Clash(s.index, s.rows[i], t)
    ensures Insert(s, t).Ok? && Inv(Insert(s, t).value)
  {
    var rows' := s.rows + [t];
    assert forall i :: 0 <= i < |s.rows| ==> rows'[i] == s.rows[i];
    assert Unique(s.index, rows');
  }

  lemma EnsureStep(s: State, a: nat, now: int)
    requires Inv(s) && NoLegacyActive(s.rows) && !s.index.Missing? && !s.legacy && a in s.admins
    ensures var r := Exec(s, Ensure(a), now);
            r.Ok? && Inv(r.value) && NoLegacyActive(r.value.rows) && Keeps(s.rows, r.value.rows) &&
            r.value.index == s.index && !r.value.legacy && r.value.admins == s.admins && Covered(r.value, a) &&
            (forall b :: Covered(s, b) ==> Covered(r.value, b))
  {
    if !Covered(s, a) {
      var t := Fresh(s, a, None, None);
      forall i | 0 <= i < |s.rows|
        ensures !Clash(s.index, s.rows[i], t)
      {
        assert !ActiveUnlabeled(s.rows[i], a);
      }
      InsertStep(s, t);
      CoveredBySnoc(s, Insert(s, t).value, t);
    }
  }

  lemma CoveredBySnoc(s: State, s': State, t: Token)
    requires s'.rows == s.rows + [t]
    ensures forall b :: Covered(s, b) || ActiveUnlabeled(t, b) ==> Covered(s', b)
  {
    forall b | Covered(s, b) || ActiveUnlabeled(t, b)
      ensures Covered(s', b)
    {
      if Covered(s, b) {
        var i :| 0 <= i < |s.rows| && ActiveUnlabeled(s.rows[i], b);
        assert ActiveUnlabeled(s'.rows[i], b);
      } else {
        assert ActiveUnlabeled(s'.rows[|s.rows|], b);
      }
    }
  }

  /** The strict index is dropped: for a moment nothing but the rows themselves says that they are
      unique. */
  lemma DropStrictStep(s: State, now: int)
    requires Inv(s) && !s.index.Missing?
    ensures var r := Exec(s, DropStrict, now); r.Ok? && Inv(r.value) && r.value == s.(index := if s.index.AllActive? then Missing else s.index)
  {
    if s.index.AllActive? {
      assert forall i, j :: 0 <= i < j < |s.rows| ==> !Clash(AllActive, s.rows[i], s.rows[j]);
    }
  }

  lemma CreateRelaxedStep(s: State, now: int)
    requires Inv(s) && NoLegacyActive(s.rows) && !s.index.AllActive?
    ensures var r := Exec(s, CreateRelaxed, now); r.Ok? && Inv(r.value) && r.value == s.(index := UnlabeledActive)
  {
    if s.index.Missing? {
      ActiveArePlaintext(s);
      forall i, j | 0 <= i < j < |s.rows|
        ensures !Clash(UnlabeledActive, s.rows[i], s.rows[j])
      {
        assert !Clash(AllActive, s.rows[i], s.rows[j]);
      }
    }
  }

  // ---------------------------------------------------------------- one boot

  /** How far a boot of `s` has come after `n` statements. */
  ghost predicate Progress(s: State, t: State, n: nat) {
    && Inv(t) && Keeps(s.rows, t.rows) && t.admins == s.admins && t.nextAdmin == s.nextAdmin && t.up == s.up
    && (n >= 1 ==> NoLegacyActive(t.rows))
    && (2 <= n <= 3 + |s.admins| ==> !t.index.Missing?)
    && (n >= 3 ==> !t.legacy)
    && (forall i :: 0 <= i < n - 3 && i < |s.admins| ==> Covered(t, s.admins[i]))
    && (n == 4 + |s.admins| ==> !t.index.AllActive?)
    && (n > 4 + |s.admins| ==> t.index.UnlabeledActive?)
  }

  lemma KeepsTrans(a: seq<Token>, b: seq<Token>, c: seq<Token>)
    requires Keeps(a, b) && Keeps(b, c)
    ensures Keeps(a, c)
  {
  }

  lemma EarlyStep(s: State, t: State, n: nat, now: int)
    requires n < 3 && Progress(s, t, n)
    ensures var r := Exec(t, Script(s.admins)[n], now); r.Ok? && Progress(s, r.value, n + 1)
  {
    var r := Exec(t, Script(s.admins)[n], now);
    if n == 0 {
      RevokeLegacyStep(t, now);
      KeepsTrans(s.rows, t.rows, r.value.rows);
    } else if n == 1 {
      SwapIndexStep(t, now);
    } else {
      RebuildStep(t, now);
    }
  }

  lemma LateStep(s: State, t: State, n: nat, now: int)
    requires 3 <= n < |Script(s.admins)| && Progress(s, t, n)
    ensures var r := Exec(t, Script(s.admins)[n], now); r.Ok? && Progress(s, r.value, n + 1)
  {
    var r := Exec(t, Script(s.admins)[n], now);
    if n < 3 + |s.admins| {
      assert Script(s.admins)[n] == Ensure(s.admins[n - 3]);
      EnsureStep(t, s.admins[n - 3], now);
      KeepsTrans(s.rows, t.rows, r.value.rows);
    } else {
      if n == 3 + |s.admins| {
        assert Script(s.admins)[n] == DropStrict;
        DropStrictStep(t, now);
      } else {
        assert Script(s.admins)[n] == CreateRelaxed;
        CreateRelaxedStep(t, now);
      }
      assert forall a :: Covered(t, a) ==> Covered(r.value, a);
    }
  }

  lemma ProgressStep(s: State, t: State, n: nat, now: int)
    requires n < |Script(s.admins)| && Progress(s, t, n)
    ensures var r := Exec(t, Script(s.admins)[n], now); r.Ok? && Progress(s, r.value, n + 1)
  {
    if n < 3 {
      EarlyStep(s, t, n, now);
    } else {
      LateStep(s, t, n, now);
    }
  }

  lemma RunNext(s: State, script: seq<Statement>, n: nat, now: int)
    requires 0 < n <= |script| && Run(s, script, n - 1, now).Ok?
    ensures Run(s, script, n, now) == Exec(Run(s, script, n - 1, now).value, script[n - 1], now)
  {
  }

  lemma {:induction false} RunProgress(s: State, n: nat, now: int)
    requires Inv(s) && n <= |Script(s.admins)|
    ensures Run(s, Script(s.admins), n, now).Ok? && Progress(s, Run(s, Script(s.admins), n, now).value, n)
  {
    if n > 0 {
      var script := Script(s.admins);
      RunProgress(s, n - 1, now);
      var t := Run(s, script, n - 1, now).value;
      ProgressStep(s, t, n - 1, now);
      RunNext(s, script, n, now);
    }
  }

  lemma BootInv(s: State, n: nat, now: int)
    requires Inv(s) && n <= |Script(s.admins)|
    ensures Run(s, Script(s.admins), n, now).Ok? && Inv(Boot(s, n, now))
  {
    RunProgress(s, n, now);
  }

  // ---------------------------------------------------------------- operations

  lemma {:induction false} WithoutMembers(rows: seq<Token>, a: nat)
    ensures forall i :: 0 <= i < |WithoutAdmin(rows, a)| ==> WithoutAdmin(rows, a)[i] in rows && WithoutAdmin(rows, a)[i].admin != a
  {
    if rows != [] {
      WithoutMembers(rows[1..], a);
    }
  }

  ghost predicate Pairwise(rows: seq<Token>, r: (Token, Token) -> bool) {
    forall i, j {:trigger rows[i], rows[j]} :: 0 <= i < j < |rows| ==> r(rows[i], rows[j])
  }

  /** What holds of every two rows still does when rows are taken out. */
  lemma {:induction false} PairwiseWithout(rows: seq<Token>, a: nat, r: (Token, Token) -> bool)
    requires Pairwise(rows, r)
    ensures Pairwise(WithoutAdmin(rows, a), r)
  {
    if rows != [] {
      PairwiseWithout(rows[1..], a, r);
      WithoutMembers(rows[1..], a);
      var rest := WithoutAdmin(rows[1..], a);
      forall j | 0 <= j < |rest|
        ensures r(rows[0], rest[j])
      {
        var k :| 0 <= k < |rows[1..]| && rows[1..][k] == rest[j];
        assert rows[k + 1] == rest[j];
      }
    }
  }

  ghost predicate Distinct(admins: seq<nat>) { forall i, j :: 0 <= i < j < |admins| ==> admins[i] != admins[j] }

  lemma {:induction false} AdminsWithout(admins: seq<nat>, a: nat)
    requires Distinct(admins)
    ensures Distinct(Minus(admins, a)) && forall b :: b in Minus(admins, a) <==> b in admins && b != a
  {
    if admins != [] {
      AdminsWithout(admins[1..], a);
      var rest := Minus(admins[1..], a);
      forall j | 0 <= j < |rest|
        ensures rest[j] != admins[0]
      {
        assert rest[j] in admins[1..];
      }
    }
  }

  lemma DeleteSound(s: State, a: nat)
    requires Sound(s)
    ensures Sound(Apply(s, DeleteAdmin(a)))
  {
    var s' := Apply(s, DeleteAdmin(a));
    WithoutMembers(s.rows, a);
    AdminsWithout(s.admins, a);
    PairwiseWithout(s.rows, a, (x: Token, y: Token) => x.id != y.id);
    assert forall i :: 0 <= i < |s'.admins| ==> s'.admins[i] in s.admins;
  }

  lemma DeleteUnique(s: State, a: nat)
    requires Unique(s.index, s.rows)
    ensures Unique(s.index, WithoutAdmin(s.rows, a))
  {
    PairwiseWithout(s.rows, a, (x: Token, y: Token) => !Clash(s.index, x, y));
  }

  lemma DeleteOneEach(s: State, a: nat)
    requires OnePlaintextEach(s)
    ensures OnePlaintextEach(Apply(s, DeleteAdmin(a)))
  {
    PairwiseWithout(s.rows, a, (x: Token, y: Token) => !Clash(AllActive, x, y) || x.plaintext.None? || y.plaintext.None?);
  }

  lemma DeleteStep(s: State, a: nat)
    requires Inv(s)
    ensures Inv(Apply(s, DeleteAdmin(a)))
  {
    DeleteSound(s, a);
    DeleteUnique(s, a);
    if s.index.Missing? {
      DeleteOneEach(s, a);
    }
    WithoutMembers(s.rows, a);
  }

  lemma RevokeStep(s: State, p: Token -> bool, now: int)
    requires Inv(s)
    ensures Inv(s.(rows := RevokeWhere(s.rows, p, now)))
  {
    RevokeOnly(s.rows, p, now);
    RevokedInv(s, s.(rows := RevokeWhere(s.rows, p, now)));
  }

  lemma RerollStep(s: State, a: nat, now: int)
    requires Inv(s) && s.up
    ensures Inv(Apply(s, Reroll(a, now)))
  {
    if a in s.admins {
      var p := t => ActiveUnlabeled(t, a);
      var s1 := s.(rows := RevokeWhere(s.rows, p, now));
      RevokeStep(s, p, now);
      InsertStep(s1, Fresh(s1, a, None, None));
    }
  }

  lemma MintStep(s: State, a: nat, text: string, expires: int)
    requires Inv(s) && s.up
    ensures Inv(Apply(s, MintCli(a, text, expires)))
  {
    if a in s.admins {
      InsertStep(s, Fresh(s, a, Some(text), Some(expires)));
    }
  }

  lemma RefreshStep(s: State, id: nat, expires: int, now: int)
    requires Inv(s) && s.up
    ensures Inv(Apply(s, RefreshCli(id, expires, now)))
  {
    var i := IndexOf(s.rows, id);
    if i >= 0 && Active(s.rows[i]) && s.rows[i].labelText.Some? {
      var s1 := s.(rows := s.rows[i := Revoke(s.rows[i], now)]);
      RevokedInv(s, s1);
      InsertStep(s1, Fresh(s1, s.rows[i].admin, s.rows[i].labelText, Some(expires)));
    }
  }

  lemma AddAdminStep(s: State)
    requires Inv(s)
    ensures Inv(Apply(s, AddAdmin))
  {
  }

  lemma InviteStep(s: State)
    requires Inv(s) && s.up
    ensures Inv(Apply(s, Invite))
  {
    AddAdminStep(s);
    var s1 := Apply(s, AddAdmin);
    var t := Fresh(s1, s.nextAdmin, None, None);
    assert s1.admins[|s.admins|] == s.nextAdmin;
    InsertStep(s1, t);
  }

  lemma OperationInv(s: State, op: Op)
    requires Inv(s) && (s.up || op.AddAdmin?)
    ensures Inv(Apply(s, op))
  {
    match op
    case AddAdmin => AddAdminStep(s);
    case Invite => InviteStep(s);
    case DeleteAdmin(a) => DeleteStep(s, a);
    case Reroll(a, now) => RerollStep(s, a, now);
    case MintCli(a, text, expires) => MintStep(s, a, text, expires);
    case RevokeCli(id, a, now) => RevokeStep(s, (t: Token) => t.id == id && t.admin == a && t.labelText.Some? && Active(t), now);
    case RefreshCli(id, expires, now) => RefreshStep(s, id, expires, now);
  }

  // ---------------------------------------------------------------- what operations do

  /** The rows at `hit` are revoked as of now, the others stay. */
  ghost predicate Revoked(rows: seq<Token>, rows': seq<Token>, hit: set<nat>, now: int) {
    |rows| <= |rows'| && forall i :: 0 <= i < |rows| ==> rows'[i] == if i in hit then rows[i].(revoked := Some(now)) else rows[i]
  }

  /** One row more: a new active token of `a`. */
  ghost predicate OneMore(s: State, rows': seq<Token>, a: nat, labelText: Option<string>, expires: Option<int>) {
    |rows'| == |s.rows| + 1 && rows'[|s.rows|] == Token(s.nextId, a, s.nextId, Some(s.nextId), labelText, expires, None)
  }

  /** The effect of an operation, row by row. */
  ghost predicate EffectIs(s: State, op: Op, s': State) {
    match op
    case AddAdmin => s'.rows == s.rows && s'.admins == s.admins + [s.nextAdmin]
    case Invite => Revoked(s.rows, s'.rows, {}, 0) && OneMore(s, s'.rows, s.nextAdmin, None, None) && s'.admins == s.admins + [s.nextAdmin]
    case DeleteAdmin(a) =>
      (forall t :: t in s'.rows <==> t in s.rows && t.admin != a) && (forall b :: b in s'.admins <==> b in s.admins && b != a)
    case Reroll(a, now) =>
      s'.admins == s.admins &&
      if a !in s.admins then s'.rows == s.rows
      else
        Revoked(s.rows, s'.rows, (set i: nat | i < |s.rows| && s.rows[i].admin == a && s.rows[i].revoked.None? && s.rows[i].labelText.None?), now) &&
        OneMore(s, s'.rows, a, None, None)
    case MintCli(a, text, expires) =>
      s'.admins == s.admins &&
      if a !in s.admins then s'.rows == s.rows else Revoked(s.rows, s'.rows, {}, 0) && OneMore(s, s'.rows, a, Some(text), Some(expires))
    case RevokeCli(id, a, now) =>
      s'.admins == s.admins && |s'.rows| == |s.rows| &&
      Revoked(s.rows, s'.rows, (set i: nat | i < |s.rows| && s.rows[i].id == id && s.rows[i].admin == a && s.rows[i].revoked.None? && s.rows[i].labelText.Some?), now)
    case RefreshCli(id, expires, now) =>
      s'.admins == s.admins &&
      if forall i :: 0 <= i < |s.rows| && s.rows[i].id == id ==> s.rows[i].revoked.Some? || s.rows[i].labelText.None? then s'.rows == s.rows
      else exists i :: 0 <= i < |s.rows| && s.rows[i].id == id && s.rows[i].revoked.None? && s.rows[i].labelText.Some? &&
                       Revoked(s.rows, s'.rows, {i}, now) && OneMore(s, s'.rows, s.rows[i].admin, s.rows[i].labelText, Some(expires))
  }

  lemma {:induction false} WithoutKeeps(rows: seq<Token>, a: nat, t: Token)
    ensures t in WithoutAdmin(rows, a) <==> t in rows && t.admin != a
  {
    if rows != [] {
      WithoutKeeps(rows[1..], a, t);
    }
  }

  lemma DeleteEffect(s: State, a: nat)
    requires Inv(s)
    ensures EffectIs(s, DeleteAdmin(a), Apply(s, DeleteAdmin(a)))
  {
    AdminsWithout(s.admins, a);
    forall t
      ensures t in WithoutAdmin(s.rows, a) <==> t in s.rows && t.admin != a
    {
      WithoutKeeps(s.rows, a, t);
    }
  }

  lemma InviteEffect(s: State)
    requires Inv(s) && s.up
    ensures EffectIs(s, Invite, Apply(s, Invite))
  {
    AddAdminStep(s);
    var s1 := Apply(s, AddAdmin);
    assert s1.admins[|s.admins|] == s.nextAdmin;
    InsertStep(s1, Fresh(s1, s.nextAdmin, None, None));
  }

  lemma RerollEffect(s: State, a: nat, now: int)
    requires Inv(s) && s.up
    ensures EffectIs(s, Reroll(a, now), Apply(s, Reroll(a, now)))
  {
    if a in s.admins {
      var p := t => ActiveUnlabeled(t, a);
      var s1 := s.(rows := RevokeWhere(s.rows, p, now));
      RevokeStep(s, p, now);
      InsertStep(s1, Fresh(s1, a, None, None));
    }
  }

  lemma MintEffect(s: State, a: nat, text: string, expires: int)
    requires Inv(s) && s.up
    ensures EffectIs(s, MintCli(a, text, expires), Apply(s, MintCli(a, text, expires)))
  {
    if a in s.admins {
      InsertStep(s, Fresh(s, a, Some(text), Some(expires)));
    }
  }

  /** Ids are distinct, so the first row with an id is the only one. */
  lemma OnlyIndex(s: State, id: nat, i: nat)
    requires Sound(s) && i < |s.rows| && s.rows[i].id == id
    ensures IndexOf(s.rows, id) == i
  {
    FoundIndex(s.rows, id, i);
  }

  lemma {:induction false} FoundIndex(rows: seq<Token>, id: nat, i: nat)
    requires i < |rows| && rows[i].id == id
    ensures 0 <= IndexOf(rows, id) <= i
  {
    if rows[0].id != id {
      FoundIndex(rows[1..], id, i - 1);
    }
  }

  lemma RefreshEffect(s: State, id: nat, expires: int, now: int)
    requires Inv(s) && s.up
    ensures EffectIs(s, RefreshCli(id, expires, now), Apply(s, RefreshCli(id, expires, now)))
  {
    var i := IndexOf(s.rows, id);
    if i >= 0 && Active(s.rows[i]) && s.rows[i].labelText.Some? {
      var s1 := s.(rows := s.rows[i := Revoke(s.rows[i], now)]);
      RevokedInv(s, s1);
      InsertStep(s1, Fresh(s1, s.rows[i].admin, s.rows[i].labelText, Some(expires)));
    } else {
      forall j | 0 <= j < |s.rows| && s.rows[j].id == id
        ensures s.rows[j].revoked.Some? || s.rows[j].labelText.None?
      {
        OnlyIndex(s, id, j);
      }
    }
  }

  /** After any history, what each operation does to the table of a server that is up. */
  lemma OperationEffect(s: State, es: seq<Event>, op: Op)
    requires Start(s) && IsHistory(s, es) && Final(s, es).up
    ensures EffectIs(Final(s, es), op, Apply(Final(s, es), op))
  {
    var t := Final(s, es);
    HistoryInv(s, es);
    match op
    case AddAdmin =>
    case Invite => InviteEffect(t);
    case DeleteAdmin(a) => DeleteEffect(t, a);
    case Reroll(a, now) => RerollEffect(t, a, now);
    case MintCli(a, text, expires) => MintEffect(t, a, text, expires);
    case RevokeCli(id, a, now) =>
    case RefreshCli(id, expires, now) => RefreshEffect(t, id, expires, now);
  }

  // ---------------------------------------------------------------- every history

  lemma {:induction false} HistoryInv(s: State, es: seq<Event>)
    requires Start(s) && IsHistory(s, es)
    ensures Inv(Final(s, es))
    decreases |es|
  {
    if es != [] {
      var t, e := Final(s, es[..|es| - 1]), es[|es| - 1];
      HistoryInv(s, es[..|es| - 1]);
      if e.BootStops? {
        BootInv(t, e.n, e.now);
      } else {
        OperationInv(t, e.op);
      }
    }
  }

  /** A row of admin `a`, not revoked, without a label. */
  ghost predicate Shown(t: Token, a: nat) { t.admin == a && t.revoked.None? && t.labelText.None? }

  /** Exactly one active unlabeled token. */
  ghost predicate ExactlyOne(s: State, a: nat) {
    exists i :: 0 <= i < |s.rows| && Shown(s.rows[i], a) && forall j :: 0 <= j < |s.rows| && Shown(s.rows[j], a) ==> j == i
  }

  lemma CoveredOnce(s: State, a: nat)
    requires Covered(s, a) && Unique(UnlabeledActive, s.rows)
    ensures ExactlyOne(s, a)
  {
    var i :| 0 <= i < |s.rows| && ActiveUnlabeled(s.rows[i], a);
    assert Shown(s.rows[i], a);
    forall j | 0 <= j < |s.rows| && Shown(s.rows[j], a)
      ensures j == i
    {
      assert !Clash(UnlabeledActive, s.rows[if i < j then i else j], s.rows[if i < j then j else i]) || i == j;
    }
  }

  /** After any history of boots, broken boots and token operations: every statement of a boot
      succeeds, and a boot, wherever it stops, leaves labeled and plaintext-bearing rows
      exactly as they were. */
  lemma BootAltersNoPreciousRow(s: State, es: seq<Event>, n: nat, now: int)
    requires Start(s) && IsHistory(s, es) && n <= |Script(Final(s, es).admins)|
    ensures var t := Final(s, es);
            Possible(t, BootStops(n, now)) &&
            |t.rows| <= |Boot(t, n, now).rows| &&
            forall i :: 0 <= i < |t.rows| && (t.rows[i].labelText.Some? || t.rows[i].plaintext.Some?) ==> Boot(t, n, now).rows[i] == t.rows[i]
  {
    HistoryInv(s, es);
    RunProgress(Final(s, es), n, now);
  }

  /** What a boot makes of the rows, in full: from the first statement on, the active hash-only rows
      without a label are revoked as of now; every other row is as it was; what is added are fresh
      active tokens of admins, with plaintext, without label or expiry. */
  ghost predicate RowsAfter(s: State, t: State, n: nat, now: int) {
    && |s.rows| <= |t.rows|
    && (forall i :: 0 <= i < |s.rows| ==>
          t.rows[i] == if n >= 1 && s.rows[i].revoked.None? && s.rows[i].plaintext.None? && s.rows[i].labelText.None?
                       then s.rows[i].(revoked := Some(now)) else s.rows[i])
    && (forall i :: |s.rows| <= i < |t.rows| ==> IsFreshToken(s, t.rows[i]))
  }

  ghost predicate IsFreshToken(s: State, t: Token) {
    t.id >= s.nextId && t.admin in s.admins && t.plaintext == Some(t.hash) && t.hash >= s.nextId && t.labelText.None? && t.expires.None? && t.revoked.None?
  }

  lemma RowsAfterFirst(s: State, now: int)
    requires Inv(s)
    ensures RowsAfter(s, Exec(s, RevokeLegacy, now).value, 1, now)
  {
    LegacyRows(s.rows, now);
  }

  lemma LegacyRows(rows: seq<Token>, now: int)
    ensures var rows' := RevokeWhere(rows, IsLegacyRow, now);
            |rows'| == |rows| && forall i :: 0 <= i < |rows| ==>
              rows'[i] == if rows[i].revoked.None? && rows[i].plaintext.None? && rows[i].labelText.None? then rows[i].(revoked := Some(now)) else rows[i]
  {
    var rows' := RevokeWhere(rows, IsLegacyRow, now);
    forall i | 0 <= i < |rows|
      ensures rows'[i] == if IsLegacyRow(rows[i]) then Revoke(rows[i], now) else rows[i]
    {
    }
  }

  /** A later statement only adds. */
  lemma RowsAfterLater(s: State, t: State, stmt: Statement, n: nat, now: int)
    requires n >= 1 && !stmt.RevokeLegacy? && Inv(t) && NoLegacyActive(t.rows) && RowsAfter(s, t, n, now) && s.nextId <= t.nextId
    requires stmt.Ensure? ==> stmt.admin in s.admins
    requires Exec(t, stmt, now).Ok?
    ensures RowsAfter(s, Exec(t, stmt, now).value, n + 1, now) && s.nextId <= Exec(t, stmt, now).value.nextId
  {
    if stmt.Rebuild? && t.legacy {
      assert Stripped(t.rows) == t.rows;
    }
  }

  lemma {:induction false} RunRows(s: State, n: nat, now: int)
    requires Inv(s) && n <= |Script(s.admins)|
    ensures Run(s, Script(s.admins), n, now).Ok?
    ensures var t := Run(s, Script(s.admins), n, now).value; RowsAfter(s, t, n, now) && s.nextId <= t.nextId
  {
    if n == 1 {
      FirstRows(s, now);
    } else if n > 1 {
      RunRows(s, n - 1, now);
      NextRows(s, n, now);
    }
  }

  lemma FirstRows(s: State, now: int)
    requires Inv(s)
    ensures Run(s, Script(s.admins), 1, now).Ok?
    ensures var t := Run(s, Script(s.admins), 1, now).value; RowsAfter(s, t, 1, now) && s.nextId <= t.nextId
  {
    assert Run(s, Script(s.admins), 0, now) == Ok(s) && Script(s.admins)[0] == RevokeLegacy;
    RunNext(s, Script(s.admins), 1, now);
    RowsAfterFirst(s, now);
  }

  lemma NextRows(s: State, n: nat, now: int)
    requires Inv(s) && 1 < n <= |Script(s.admins)| && Run(s, Script(s.admins), n - 1, now).Ok?
    requires var t := Run(s, Script(s.admins), n - 1, now).value; RowsAfter(s, t, n - 1, now) && s.nextId <= t.nextId
    ensures Run(s, Script(s.admins), n, now).Ok?
    ensures var t := Run(s, Script(s.admins), n, now).value; RowsAfter(s, t, n, now) && s.nextId <= t.nextId
  {
    var t, stmt := Run(s, Script(s.admins), n - 1, now).value, Script(s.admins)[n - 1];
    RunProgress(s, n - 1, now);
    ProgressStep(s, t, n - 1, now);
    RunNext(s, Script(s.admins), n, now);
    LaterStatement(s.admins, n);
    RowsAfterLater(s, t, stmt, n - 1, now);
  }

  lemma LaterStatement(admins: seq<nat>, n: nat)
    requires 1 < n <= |Script(admins)|
    ensures var stmt := Script(admins)[n - 1]; !stmt.RevokeLegacy? && (stmt.Ensure? ==> stmt.admin in admins)
  {
    assert 3 < n <= 3 + |admins| ==> Script(admins)[n - 1] == Ensure(admins[n - 4]);
  }

  /** After any history, this is what a boot that stops after `n` statements makes of the rows. */
  lemma BootRows(s: State, es: seq<Event>, n: nat, now: int)
    requires Start(s) && IsHistory(s, es) && n <= |Script(Final(s, es).admins)|
    ensures var t := Final(s, es); Possible(t, BootStops(n, now)) && RowsAfter(t, Boot(t, n, now), n, now)
  {
    HistoryInv(s, es);
    RunRows(Final(s, es), n, now);
  }

  lemma RunCovers(t: State, now: int, i: nat)
    requires Inv(t) && i < |t.admins|
    ensures var n := |Script(t.admins)|;
            Possible(t, BootStops(n, now)) && ExactlyOne(Boot(t, n, now), t.admins[i])
  {
    var n := |Script(t.admins)|;
    RunProgress(t, n, now);
    var u := Run(t, Script(t.admins), n, now).value;
    assert Covered(u, t.admins[i]);
    CoveredOnce(u, t.admins[i]);
    SameRows(u, Boot(t, n, now), t.admins[i]);
  }

  lemma SameRows(u: State, v: State, a: nat)
    requires u.rows == v.rows && ExactlyOne(u, a)
    ensures ExactlyOne(v, a)
  {
  }

  /** And one that goes through leaves every admin with exactly one active unlabeled token. */
  lemma BootCoversEveryAdmin(s: State, es: seq<Event>, now: int, a: nat)
    requires Start(s) && IsHistory(s, es) && a in Final(s, es).admins
    ensures var t := Final(s, es);
            Possible(t, BootStops(|Script(t.admins)|, now)) && ExactlyOne(Boot(t, |Script(t.admins)|, now), a)
  {
    var t := Final(s, es);
    HistoryInv(s, es);
    var i :| 0 <= i < |t.admins| && t.admins[i] == a;
    RunCovers(t, now, i);
  }

  lemma NothingInStatement(s: State, stmt: Statement, now: int)
    requires Inv(s) && s.up && (stmt.Ensure? ==> Covered(s, stmt.admin))
    ensures Exec(s, stmt, now) == Ok(s)
  {
    if stmt.RevokeLegacy? {
      assert RevokeWhere(s.rows, IsLegacyRow, now) == s.rows;
    }
  }

  /** A boot of a server that is up and whose admins all have their token changes nothing. */
  lemma {:induction false} NothingToDo(s: State, n: nat, now: int)
    requires Inv(s) && s.up && n <= |Script(s.admins)| && forall i :: 0 <= i < |s.admins| ==> Covered(s, s.admins[i])
    ensures Run(s, Script(s.admins), n, now) == Ok(s)
  {
    if n > 0 {
      NothingToDo(s, n - 1, now);
      assert 3 < n <= 3 + |s.admins| ==> Script(s.admins)[n - 1] == Ensure(s.admins[n - 4]);
      NothingInStatement(s, Script(s.admins)[n - 1], now);
    }
  }

  /** A second boot right after one that went through leaves the whole table as it is. */
  lemma SecondBootChangesNothing(s: State, es: seq<Event>, now: int, later: int)
    requires Start(s) && IsHistory(s, es)
    ensures var t := Final(s, es); var n := |Script(t.admins)|;
            Possible(t, BootStops(n, now)) &&
            (var u := Boot(t, n, now);
             u.admins == t.admins && Possible(u, BootStops(n, later)) && Boot(u, n, later) == u)
  {
    var t := Final(s, es);
    var n := |Script(t.admins)|;
    HistoryInv(s, es);
    RunProgress(t, n, now);
    BootInv(t, n, now);
    var u := Boot(t, n, now);
    forall i | 0 <= i < |u.admins|
      ensures Covered(u, u.admins[i])
    {
      var v := Run(t, Script(t.admins), n, now).value;
      assert Covered(v, t.admins[i]);
    }
    NothingToDo(u, n, later);
  }

  /** A statement of a boot that finds nothing to revoke, rebuild or mint leaves the rows. */
  lemma RowsStay(s: State, stmt: Statement, now: int)
    requires Exec(s, stmt, now).Ok? && NoLegacyActive(s.rows) && !s.legacy && (stmt.Ensure? ==> Covered(s, stmt.admin))
    ensures Exec(s, stmt, now).value.rows == s.rows && !Exec(s, stmt, now).value.legacy
  {
    if stmt.RevokeLegacy? {
      assert RevokeWhere(s.rows, IsLegacyRow, now) == s.rows;
    }
  }

  lemma {:induction false} BootKeepsRows(s: State, n: nat, now: int)
    requires Inv(s) && n <= |Script(s.admins)| && NoLegacyActive(s.rows) && !s.legacy
    requires forall i :: 0 <= i < |s.admins| ==> Covered(s, s.admins[i])
    ensures Run(s, Script(s.admins), n, now).Ok?
    ensures var r := Run(s, Script(s.admins), n, now).value; r.rows == s.rows && !r.legacy
  {
    RunProgress(s, n, now);
    if n > 0 {
      BootKeepsRows(s, n - 1, now);
      RunNext(s, Script(s.admins), n, now);
      StatementKeepsRows(s, Run(s, Script(s.admins), n - 1, now).value, n, now);
    }
  }

  lemma StatementKeepsRows(s: State, r: State, n: nat, now: int)
    requires 0 < n <= |Script(s.admins)| && NoLegacyActive(s.rows) && r.rows == s.rows && !r.legacy
    requires forall i :: 0 <= i < |s.admins| ==> Covered(s, s.admins[i])
    requires Exec(r, Script(s.admins)[n - 1], now).Ok?
    ensures var t := Exec(r, Script(s.admins)[n - 1], now).value; t.rows == s.rows && !t.legacy
  {
    var stmt := Script(s.admins)[n - 1];
    if stmt.Ensure? {
      assert stmt == Ensure(s.admins[n - 4]) && Covered(s, s.admins[n - 4]);
      SameCover(s, r, stmt.admin);
    }
    RowsStay(r, stmt, now);
  }

  lemma SameCover(s: State, r: State, a: nat)
    requires r.rows == s.rows && Covered(s, a)
    ensures Covered(r, a)
  {
  }

  /** Where a boot stands between dropping the strict index and creating the relaxed one. */
  function BetweenIndexes(admins: seq<nat>): nat { |Script(admins)| - 1 }

  lemma StoppedBetween(t: State, now: int)
    requires Inv(t)
    ensures var n := BetweenIndexes(t.admins);
            Possible(t, BootStops(n, now)) &&
            (var u := Boot(t, n, now);
             Inv(u) && u.admins == t.admins && !u.legacy && NoLegacyActive(u.rows) && !u.index.AllActive? &&
             forall i :: 0 <= i < |u.admins| ==> Covered(u, u.admins[i]))
  {
    var n := BetweenIndexes(t.admins);
    RunProgress(t, n, now);
    BootInv(t, n, now);
    var v := Run(t, Script(t.admins), n, now).value;
    forall i | 0 <= i < |t.admins|
      ensures Covered(Boot(t, n, now), t.admins[i])
    {
      assert Covered(v, t.admins[i]);
    }
  }

  /** Dying between the two index statements costs nothing: after any history, such a boot may leave
      plaintext-bearing rows under no index at all; the next boot succeeds, does not touch a single
      row, and puts the relaxed index in place. */
  lemma InterruptedRelaxRecovers(s: State, es: seq<Event>, now: int, later: int)
    requires Start(s) && IsHistory(s, es)
    ensures var t := Final(s, es); var n := BetweenIndexes(t.admins);
            Possible(t, BootStops(n, now)) &&
            (var u := Boot(t, n, now);
             u.admins == t.admins && Possible(u, BootStops(n + 1, later)) &&
             (var v := Boot(u, n + 1, later);
              v.rows == u.rows && v.index.UnlabeledActive? && v.up))
  {
    var t := Final(s, es);
    var n := BetweenIndexes(t.admins);
    HistoryInv(s, es);
    StoppedBetween(t, now);
    var u := Boot(t, n, now);
    BootKeepsRows(u, n + 1, later);
    RunProgress(u, n + 1, later);
  }

  /** And it happens: a boot of a database without the relaxed index stands there without any. */
  lemma DroppedOnTheWay(t: State, now: int)
    requires Inv(t) && !t.index.UnlabeledActive?
    ensures var n := BetweenIndexes(t.admins); Possible(t, BootStops(n, now)) && Boot(t, n, now).index.Missing?
  {
    StoppedBetween(t, now);
    NeverRelaxedEarly(t, BetweenIndexes(t.admins), now);
  }

  lemma {:induction false} NeverRelaxedEarly(t: State, n: nat, now: int)
    requires Inv(t) && !t.index.UnlabeledActive? && n < |Script(t.admins)|
    ensures Run(t, Script(t.admins), n, now).Ok? && !Run(t, Script(t.admins), n, now).value.index.UnlabeledActive?
  {
    RunProgress(t, n, now);
    if n > 0 {
      NeverRelaxedEarly(t, n - 1, now);
      NotRelaxedBy(Run(t, Script(t.admins), n - 1, now).value, Script(t.admins)[n - 1], now);
    }
  }

  lemma NotRelaxedBy(s: State, stmt: Statement, now: int)
    requires stmt != CreateRelaxed && !s.index.UnlabeledActive? && Exec(s, stmt, now).Ok?
    ensures !Exec(s, stmt, now).value.index.UnlabeledActive?
  {
  }
}
