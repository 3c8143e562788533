/**
 The `_admin_tokens` table under boot migrations and token operations. A boot executes a
 fixed script of statements and may stop (error or crash) between any two of them; the
 server takes token operations only after a boot that went through.
 */
module AdminTokens {

  datatype Option<+T> = None | Some(value: T)

  /** `plaintext`, `label`, `expires` and `revoked` are nullable columns; a column an old table
      lacks is one that is null in every row. */
  datatype Token = Token(id: nat, admin: nat, hash: nat, plaintext: Option<nat>, labelText: Option<string>, expires: Option<int>, revoked: Option<int>)

  /** `uniq_admin_tokens_active`: missing, over all active rows, or over the unlabeled ones. */
  datatype UniqueIndex = Missing | AllActive | UnlabeledActive

  datatype State = State(
    admins: seq<nat>,
    rows: seq<Token>,
    index: UniqueIndex,
    legacy: bool,      // the table still has its `kind` and `name` columns
    up: bool,          // the last boot went through
    nextAdmin: nat,
    nextId: nat)       // also the source of fresh token secrets

  datatype Statement = RevokeLegacy | SwapIndex | Rebuild | Ensure(admin: nat) | DropStrict | CreateRelaxed

  datatype Result<+T> = Ok(value: T) | Fails

  predicate Active(t: Token) { t.revoked.None? }

  /** What the settings page shows: the one active token without a label. */
  predicate ActiveUnlabeled(t: Token, a: nat) { t.admin == a && Active(t) && t.labelText.None? }

  /** Rows the boot must never alter. */
  predicate Precious(t: Token) { t.labelText.Some? || t.plaintext.Some? }

  function Revoke(t: Token, now: int): Token { t.(revoked := Some(now)) }

  function RevokeWhere(rows: seq<Token>, p: Token -> bool, now: int): (r: seq<Token>)
    ensures |r| == |rows| && forall i :: 0 <= i < |rows| ==> r[i] == if p(rows[i]) then Revoke(rows[i], now) else rows[i]
  {
    if rows == [] then [] else [if p(rows[0]) then Revoke(rows[0], now) else rows[0]] + RevokeWhere(rows[1..], p, now)
  }

  /** The rebuild copies seven columns; label and expiry are not among them. */
  function Stripped(rows: seq<Token>): (r: seq<Token>)
    ensures |r| == |rows| && forall i :: 0 <= i < |rows| ==> r[i] == rows[i].(labelText := None, expires := None)
  {
    if rows == [] then [] else [rows[0].(labelText := None, expires := None)] + Stripped(rows[1..])
  }

  /** Two rows that a unique index would not both admit. */
  predicate Clash(index: UniqueIndex, x: Token, y: Token) {
    match index
    case Missing => false
    case AllActive => x.admin == y.admin && Active(x) && Active(y)
    case UnlabeledActive => x.admin == y.admin && Active(x) && Active(y) && x.labelText.None? && y.labelText.None?
  }

  predicate Unique(index: UniqueIndex, rows: seq<Token>) {
    forall i, j :: 0 <= i < j < |rows| ==> !Clash(index, rows[i], rows[j])
  }

  /** A fresh token: id and secret never used before. */
  function Fresh(s: State, a: nat, labelText: Option<string>, expires: Option<int>): Token {
    Token(s.nextId, a, s.nextId, Some(s.nextId), labelText, expires, None)
  }

  function Insert(s: State, t: Token): Result<State> {
    if Unique(s.index, s.rows + [t]) then Ok(s.(rows := s.rows + [t], nextId := s.nextId + 1)) else Fails
  }

  predicate IsLegacyRow(t: Token) { Active(t) && t.plaintext.None? && t.labelText.None? }

  predicate Covered(s: State, a: nat) { exists i :: 0 <= i < |s.rows| && ActiveUnlabeled(s.rows[i], a) }

  function Exec(s: State, stmt: Statement, now: int): Result<State> {
    match stmt
    case RevokeLegacy => Ok(s.(rows := RevokeWhere(s.rows, IsLegacyRow, now)))
    case SwapIndex =>
      if !s.index.Missing? then Ok(s)
      else if Unique(AllActive, s.rows) then Ok(s.(index := AllActive))
      else Fails
    case Rebuild =>
      if !s.legacy then Ok(s)
      else if Unique(AllActive, s.rows) then Ok(s.(rows := Stripped(s.rows), index := AllActive, legacy := false))
      else Fails
    case Ensure(a) => if Covered(s, a) then Ok(s) else Insert(s, Fresh(s, a, None, None))
    case DropStrict => if s.index.AllActive? then Ok(s.(index := Missing)) else Ok(s)
    case CreateRelaxed =>
      if !s.index.Missing? then Ok(s)
      else if Unique(UnlabeledActive, s.rows) then Ok(s.(index := UnlabeledActive))
      else Fails
  }

  function Ensures(admins: seq<nat>): (r: seq<Statement>)
    ensures |r| == |admins| && forall i :: 0 <= i < |admins| ==> r[i] == Ensure(admins[i])
  {
    seq(|admins|, i requires 0 <= i < |admins| => Ensure(admins[i]))
  }

  /** The relaxation of the index is two statements of one batch, outside any transaction; the
      second is reached with a missing index only right after the first. */
  function Script(admins: seq<nat>): seq<Statement> {
    [RevokeLegacy, SwapIndex, Rebuild] + Ensures(admins) + [DropStrict, CreateRelaxed]
  }

  /** The first `n` statements; a failing one ends the boot where it is. */
  function Run(s: State, script: seq<Statement>, n: nat, now: int): Result<State>
    requires n <= |script|
  {
    if n == 0 then Ok(s)
    else
      var r := Run(s, script, n - 1, now);
      if r.Ok? then Exec(r.value, script[n - 1], now) else Fails
  }

  /** A boot that stops after `n` statements, because the next one fails or the process dies;
      `up` when all were done. */
  function Boot(s: State, n: nat, now: int): State
    requires n <= |Script(s.admins)| && Run(s, Script(s.admins), n, now).Ok?
  {
    Run(s, Script(s.admins), n, now).value.(up := n == |Script(s.admins)|)
  }

  // ---------------------------------------------------------------- token operations

  datatype Op =
    | AddAdmin                                        // bootstrap: no token yet
    | Invite                                          // a new admin and its token, one transaction
    | DeleteAdmin(a: nat)                             // tokens go by cascade
    | Reroll(a: nat, now: int)
    | MintCli(a: nat, labelText: string, expires: int)
    | RevokeCli(id: nat, a: nat, now: int)            // also logout
    | RefreshCli(id: nat, expires: int, now: int)

  function WithoutAdmin(rows: seq<Token>, a: nat): seq<Token> {
    if rows == [] then [] else (if rows[0].admin == a then [] else [rows[0]]) + WithoutAdmin(rows[1..], a)
  }

  function Minus(admins: seq<nat>, a: nat): seq<nat> {
    if admins == [] then [] else (if admins[0] == a then [] else [admins[0]]) + Minus(admins[1..], a)
  }

  function IndexOf(rows: seq<Token>, id: nat): (r: int)
    ensures -1 <= r < |rows| && (r >= 0 ==> rows[r].id == id)
  {
    if rows == [] then -1 else if rows[0].id == id then 0 else var r := IndexOf(rows[1..], id); if r < 0 then -1 else r + 1
  }

  /** The effect of an operation; a transaction that fails has none. */
  function Apply(s: State, op: Op): State {
    match op
    case AddAdmin => s.(admins := s.admins + [s.nextAdmin], nextAdmin := s.nextAdmin + 1)
    case Invite =>
      var s1 := s.(admins := s.admins + [s.nextAdmin], nextAdmin := s.nextAdmin + 1);
      var r := Insert(s1, Fresh(s1, s.nextAdmin, None, None));
      if r.Ok? then r.value else s
    case DeleteAdmin(a) => s.(admins := Minus(s.admins, a), rows := WithoutAdmin(s.rows, a))
    case Reroll(a, now) =>
      if a !in s.admins then s
      else
        var s1 := s.(rows := RevokeWhere(s.rows, t => ActiveUnlabeled(t, a), now));
        var r := Insert(s1, Fresh(s1, a, None, None));
        if r.Ok? then r.value else s
    case MintCli(a, labelText, expires) =>
      if a !in s.admins then s
      else
        var r := Insert(s, Fresh(s, a, Some(labelText), Some(expires)));
        if r.Ok? then r.value else s
    case RevokeCli(id, a, now) =>
      s.(rows := RevokeWhere(s.rows, (t: Token) => t.id == id && t.admin == a && t.labelText.Some? && Active(t), now))
    case RefreshCli(id, expires, now) =>
      var i := IndexOf(s.rows, id);
      if i < 0 || !Active(s.rows[i]) || s.rows[i].labelText.None? then s
      else
        var s1 := s.(rows := s.rows[i := Revoke(s.rows[i], now)]);
        var r := Insert(s1, Fresh(s1, s.rows[i].admin, s.rows[i].labelText, Some(expires)));
        if r.Ok? then r.value else s
  }

  // ---------------------------------------------------------------- histories

  /** Any database that some version left behind, before a boot with this script: hash-only
      token rows, any number of them active, under no index; or at most one active row per
      admin, plaintext-bearing or not, and revoked ones, under the index over all active rows,
      or under none if the process died while the index was being relaxed; or labeled rows
      besides, under the relaxed index. Labels came with the relaxed index; old-shaped tables
      hold unlabeled hashes only. */
  ghost predicate Start(s: State) {
    && !s.up && Sound(s) && Unique(s.index, s.rows)
    && (s.legacy || !s.index.UnlabeledActive? ==> NoLabels(s))
    && (s.legacy ==> NoPlaintext(s))
    && (s.index.Missing? ==> OnePlaintextEach(s))
  }

  ghost predicate Sound(s: State) {
    && (forall i :: 0 <= i < |s.admins| ==> s.admins[i] < s.nextAdmin)
    && (forall i, j :: 0 <= i < j < |s.admins| ==> s.admins[i] != s.admins[j])
    && (forall i :: 0 <= i < |s.rows| ==> s.rows[i].id < s.nextId && s.rows[i].admin in s.admins)
    && (forall i, j :: 0 <= i < j < |s.rows| ==> s.rows[i].id != s.rows[j].id)
  }

  datatype Event = BootStops(n: nat, now: int) | Operation(op: Op)

  /** Operations need a server that is up; only admins may be added to one that is down. */
  predicate Possible(s: State, e: Event) {
    match e
    case BootStops(n, now) => n <= |Script(s.admins)| && Run(s, Script(s.admins), n, now).Ok?
    case Operation(op) => s.up || op.AddAdmin?
  }

  function After(s: State, e: Event): State
    requires Possible(s, e)
  {
    match e
    case BootStops(n, now) => Boot(s, n, now)
    case Operation(op) => Apply(s, op)
  }

  ghost predicate IsHistory(s: State, es: seq<Event>)
    decreases |es|, 0
  {
    es == [] || (IsHistory(s, es[..|es| - 1]) && Possible(Final(s, es[..|es| - 1]), es[|es| - 1]))
  }

  ghost function Final(s: State, es: seq<Event>): State
    requires IsHistory(s, es)
    decreases |es|, 1
  {
    if es == [] then s else After(Final(s, es[..|es| - 1]), es[|es| - 1])
  }

  // ---------------------------------------------------------------- what holds throughout

  ghost predicate Inv(s: State) {
    && Sound(s) && Unique(s.index, s.rows)
    && (s.legacy ==> NoLabels(s) && NoPlaintext(s))
    && (!s.index.UnlabeledActive? ==> NoLabels(s))
    && (s.index.Missing? ==> OnePlaintextEach(s))
    && (s.up ==> s.index.UnlabeledActive? && !s.legacy && forall i :: 0 <= i < |s.rows| ==> !IsLegacyRow(s.rows[i]))
  }

  ghost predicate NoLabels(s: State) { forall i :: 0 <= i < |s.rows| ==> s.rows[i].labelText.None? && s.rows[i].expires.None? }

  /** No two active plaintext-bearing rows of one admin. */
  ghost predicate OnePlaintextEach(s: State) {
    forall i, j :: 0 <= i < j < |s.rows| ==> !Clash(AllActive, s.rows[i], s.rows[j]) || s.rows[i].plaintext.None? || s.rows[j].plaintext.None?
  }

  ghost predicate NoPlaintext(s: State) { forall i :: 0 <= i < |s.rows| ==> s.rows[i].plaintext.None? }
}
