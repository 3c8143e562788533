/** The boot's token statements and the token operations, updating the table in place. */
module AdminTokensCode {
  import opened AdminTokens
  import opened AdminTokensTheorems

  /** The next statement of a boot that stands in the backfill. */
  lemma NextEnsure(s: State, t: State, i: nat, now: int)
    requires Inv(s) && i < |s.admins| && Run(s, Script(s.admins), 3 + i, now) == Ok(t)
    ensures Exec(t, Ensure(s.admins[i]), now).Ok?
    ensures Run(s, Script(s.admins), 3 + (i + 1), now) == Exec(t, Ensure(s.admins[i]), now)
  {
    RunProgress(s, 3 + (i + 1), now);
    assert Script(s.admins)[3 + i] == Ensure(s.admins[i]);
  }

  /** The first three statements of a boot, none of which can fail. */
  lemma PrepareRun(s: State, now: int)
    requires Inv(s)
    ensures var t1 := s.(rows := RevokeWhere(s.rows, IsLegacyRow, now));
            var t2 := if t1.index.Missing? then t1.(index := AllActive) else t1;
            Run(s, Script(s.admins), 3, now) == Ok(if t2.legacy then t2.(rows := Stripped(t2.rows), index := AllActive, legacy := false) else t2)
  {
    var script := Script(s.admins);
    assert script[0] == RevokeLegacy && script[1] == SwapIndex && script[2] == Rebuild;
    var t1 := Exec(s, RevokeLegacy, now).value;
    assert Run(s, script, 0, now) == Ok(s) && Run(s, script, 1, now) == Ok(t1);
    RevokeLegacyStep(s, now);
    SwapIndexStep(t1, now);
    var t2 := Exec(t1, SwapIndex, now).value;
    assert Run(s, script, 2, now) == Ok(t2);
    RebuildStep(t2, now);
    assert Run(s, script, 3, now) == Exec(t2, Rebuild, now);
  }

  /** The last two statements of a boot, from what they find. */
  lemma RelaxRun(s: State, t: State, now: int)
    requires Inv(s) && Run(s, Script(s.admins), 3 + |s.admins|, now) == Ok(t)
    ensures !t.index.Missing?
    ensures Run(s, Script(s.admins), 4 + |s.admins|, now) == Ok(if t.index.AllActive? then t.(index := Missing) else t)
    ensures Run(s, Script(s.admins), |Script(s.admins)|, now) == Ok(t.(index := UnlabeledActive))
  {
    var n := |s.admins|;
    var script := Script(s.admins);
    RunProgress(s, 3 + n, now);
    assert script[3 + n] == DropStrict && script[4 + n] == CreateRelaxed;
    DropStrictStep(t, now);
    var u := Exec(t, DropStrict, now).value;
    assert Run(s, script, 4 + n, now) == Ok(u);
    CreateRelaxedStep(u, now);
    assert Run(s, script, 5 + n, now) == Exec(u, CreateRelaxed, now);
  }

  class TokenTable {
    var admins: seq<nat>
    var rows: seq<Token>
    var index: UniqueIndex
    var legacy: bool
    var up: bool
    var nextAdmin: nat
    var nextId: nat

    ghost function View(): State
      reads this
    {
      State(admins, rows, index, legacy, up, nextAdmin, nextId)
    }

    constructor (s: State)
      ensures View() == s
    {
      admins, rows, index, legacy, up, nextAdmin, nextId := s.admins, s.rows, s.index, s.legacy, s.up, s.nextAdmin, s.nextId;
    }

    /** `UPDATE .. SET revoked_at` over the rows that satisfy `p`. */
    method RevokeRows(p: Token -> bool, now: int)
      modifies this`rows
      ensures rows == RevokeWhere(old(rows), p, now)
    {
      for i := 0 to |rows|
        invariant |rows| == |old(rows)|
        invariant forall j :: 0 <= j < |rows| ==> rows[j] == if j < i && p(old(rows)[j]) then Revoke(old(rows)[j], now) else old(rows)[j]
      {
        if p(rows[i]) {
          rows := rows[i := Revoke(rows[i], now)];
        }
      }
    }

    /** Steps 3 to 6: revoke hash-only rows, swap the index, rebuild an old table. */
    method PrepareTable(now: int)
      requires Inv(View())
      modifies this
      ensures Run(old(View()), Script(old(admins)), 3, now) == Ok(View())
    {
      PrepareRun(View(), now);
      RevokeRows(IsLegacyRow, now);
      if index.Missing? {
        index := AllActive;
      }
      if legacy {
        rows, index, legacy := Stripped(rows), AllActive, false;
      }
    }

    /** Give `a` a token unless it has an active unlabeled one. */
    method EnsureToken(a: nat, now: int)
      requires Exec(View(), Ensure(a), now).Ok?
      modifies this`rows, this`nextId
      ensures Exec(old(View()), Ensure(a), now) == Ok(View())
    {
      if !(exists j :: 0 <= j < |rows| && ActiveUnlabeled(rows[j], a)) {
        rows := rows + [Token(nextId, a, nextId, Some(nextId), None, None, None)];
        nextId := nextId + 1;
      }
    }

    /** Step 7: every admin without an active unlabeled token gets one. */
    method Backfill(ghost s: State, now: int)
      requires Inv(s) && Run(s, Script(s.admins), 3, now) == Ok(View()) && admins == s.admins
      modifies this`rows, this`nextId
      ensures Run(s, Script(s.admins), 3 + |s.admins|, now) == Ok(View())
    {
      for i := 0 to |admins|
        invariant Run(s, Script(s.admins), 3 + i, now) == Ok(View())
      {
        NextEnsure(s, View(), i, now);
        EnsureToken(admins[i], now);
      }
    }

    /** The last two statements let labeled rows coexist: the strict index is dropped and the relaxed
        one created, unless it is relaxed already. */
    method Relax(ghost s: State, now: int)
      requires Inv(s) && Run(s, Script(s.admins), 3 + |s.admins|, now) == Ok(View())
      modifies this
      ensures Run(s, Script(s.admins), |Script(s.admins)|, now) == Ok(View())
    {
      RelaxRun(s, View(), now);
      var needsRelax := index.AllActive?;
      if needsRelax {
        index := Missing;
      }
      if needsRelax {
        index := UnlabeledActive;
      }
    }

    /** A boot without interruption; nothing in it can fail. */
    method MigrateTokens(now: int)
      requires Inv(View())
      modifies this
      ensures Run(old(View()), Script(old(admins)), |Script(old(admins))|, now).Ok?
      ensures View() == Boot(old(View()), |Script(old(admins))|, now) && Inv(View())
    {
      ghost var s := View();
      PrepareTable(now);
      assert admins == s.admins by { RunProgress(s, 3, now); }
      Backfill(s, now);
      Relax(s, now);
      up := true;
      assert Inv(View()) by { BootInv(s, |Script(s.admins)|, now); }
    }

    /** One transaction: the old unlabeled token goes, a new one comes. An unknown admin fails
        the foreign key, and the transaction has no effect. */
    method RerollToken(a: nat, now: int) returns (ok: bool)
      requires Inv(View()) && up
      modifies this
      ensures View() == Apply(old(View()), Reroll(a, now)) && Inv(View())
      ensures ok <==> a in old(admins)
      ensures |rows| == |old(rows)| + (if ok then 1 else 0) && forall i :: 0 <= i < |old(rows)| ==>
                rows[i] == if ok && old(rows)[i].admin == a && old(rows)[i].revoked.None? && old(rows)[i].labelText.None?
                           then old(rows)[i].(revoked := Some(now)) else old(rows)[i]
      ensures ok ==> rows[|old(rows)|] == Token(old(nextId), a, old(nextId), Some(old(nextId)), None, None, None)
    {
      RerollStep(View(), a, now);
      if a !in admins {
        return false;
      }
      ghost var s1 := View().(rows := RevokeWhere(rows, t => ActiveUnlabeled(t, a), now));
      RevokeStep(View(), t => ActiveUnlabeled(t, a), now);
      InsertStep(s1, Fresh(s1, a, None, None));
      RevokeRows(t => ActiveUnlabeled(t, a), now);
      rows := rows + [Token(nextId, a, nextId, Some(nextId), None, None, None)];
      nextId := nextId + 1;
      return true;
    }

    /** `mint_cli_token`: a labeled, expiring row outside the unique index, for a known admin. */
    method MintCliToken(a: nat, text: string, expires: int) returns (id: Option<nat>)
      requires Inv(View()) && up
      modifies this
      ensures View() == Apply(old(View()), MintCli(a, text, expires)) && Inv(View())
      ensures id == if a in old(admins) then Some(old(nextId)) else None
      ensures rows == old(rows) + if a in old(admins) then [Token(old(nextId), a, old(nextId), Some(old(nextId)), Some(text), Some(expires), None)] else []
      ensures forall i :: 0 <= i < |old(rows)| ==> Some(old(rows)[i].id) != id
    {
      MintStep(View(), a, text, expires);
      if a !in admins {
        return None;
      }
      InsertStep(View(), Fresh(View(), a, Some(text), Some(expires)));
      id := Some(nextId);
      rows := rows + [Token(nextId, a, nextId, Some(nextId), Some(text), Some(expires), None)];
      nextId := nextId + 1;
    }
  }
}
