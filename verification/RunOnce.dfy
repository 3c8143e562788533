/**
 The run-once steps of the boot migration: role backfill, ownership backfill, egress merge and
 publish grant. A boot executes them statement by statement; any statement can fail and the
 process can die between any two. Between boots, and while the server runs, an operator may
 change everything except the markers. The publish grant spans two databases, so its marker
 (meta) and its effect (tenant file) are two statements.
 */
module RunOnce {

  type Tenant = string
  type Admin = nat

  datatype Option<+T> = None | Some(value: T)

  datatype Role = Owner | Member

  datatype System = Webhook | Function

  datatype Entry = Entry(system: System, uri: string)

  /** The root file-policy rule of a tenant: absent, or with its publish roles (null or set). */
  datatype Root = NoRule | Rule(publishRoles: Option<string>)

  const ALL_ROLES := "[\"anon\",\"user\"]"

  /** `normalize` is `egress::normalize_origin`, about which nothing is assumed. */
  datatype Config = Config(normalize: string -> Option<string>)

  /** Where the process stands; `ts` are the tenants this boot has yet to do. */
  datatype Pc =
    | Down
    | ProbeRole(ts: seq<Tenant>)
    | LiftRoles(ts: seq<Tenant>)    // this boot has just added the column
    | ProbeOwner(ts: seq<Tenant>)
    | SetOwners(ts: seq<Tenant>)    // this boot has just added the column
    | Egress(ts: seq<Tenant>)
    | Publish(t: Tenant, rest: seq<Tenant>)
    | Grant(t: Tenant, rest: seq<Tenant>)  // marked, grant not made yet
    | Reset(t: Tenant, rest: seq<Tenant>)  // the grant failed, marker to be taken back
    | Serving

  datatype Effect = RolesLifted | OwnersSet | EgressMerged(t: Tenant) | PublishGranted(t: Tenant)

  datatype State = State(
    pc: Pc,
    roleColumn: bool,
    roles: map<Admin, Role>,
    ownerColumn: bool,
    owners: map<Tenant, Option<Admin>>,
    live: set<Tenant>,               // deleted_at IS NULL
    merged: set<Tenant>,             // egress_backfill_done
    allow: map<Tenant, seq<Entry>>,
    marked: set<Tenant>,             // public_upload_seeded
    root: map<Tenant, Root>,
    files: set<Tenant>,              // data.sqlite exists
    hooks: map<Tenant, seq<string>>, // webhook URLs in the tenant's file
    done: seq<Effect>)               // what has taken effect so far, in order

  // ---------------------------------------------------------------- the four effects

  function Lifted(roles: map<Admin, Role>): map<Admin, Role> { map a | a in roles :: Owner }

  /** The owner admin with the lowest id. */
  ghost function FirstOwner(roles: map<Admin, Role>): Option<Admin> {
    if exists a :: IsFirstOwner(roles, a) then (var a :| IsFirstOwner(roles, a); Some(a)) else None
  }

  predicate IsFirstOwner(roles: map<Admin, Role>, a: Admin) {
    a in roles && roles[a] == Owner && forall b :: b in roles && roles[b] == Owner ==> a <= b
  }

  /** Live tenants without an owner get the first owner; the rest stay. */
  ghost function Adopted(s: State): map<Tenant, Option<Admin>> {
    map t | t in s.owners :: if s.owners[t].None? && t in s.live then FirstOwner(s.roles) else s.owners[t]
  }

  predicate Covers(c: Config, e: Entry, origin: string) { e.system == Webhook && c.normalize(e.uri) == Some(origin) }

  predicate Covered(c: Config, entries: seq<Entry>, origin: string) {
    exists i :: 0 <= i < |entries| && Covers(c, entries[i], origin)
  }

  /** The origins of the webhook URLs; those that do not normalize are passed over. */
  function Origins(c: Config, urls: seq<string>): seq<string> {
    if urls == [] then []
    else (if c.normalize(urls[0]).Some? then [c.normalize(urls[0]).value] else []) + Origins(c, urls[1..])
  }

  /** Union: append what no webhook entry covers yet. */
  function Merge(c: Config, entries: seq<Entry>, origins: seq<string>): seq<Entry>
    decreases |origins|
  {
    if origins == [] then entries
    else Merge(c, if Covered(c, entries, origins[0]) then entries else entries + [Entry(Webhook, origins[0])], origins[1..])
  }

  function AllowOf(s: State, t: Tenant): seq<Entry> { if t in s.allow then s.allow[t] else [] }

  function UrlsOf(s: State, t: Tenant): seq<string> { if t in s.files && t in s.hooks then s.hooks[t] else [] }

  function RootOf(s: State, t: Tenant): Root { if t in s.root then s.root[t] else NoRule }

  // ---------------------------------------------------------------- steps

  datatype Edit =
    | EditRoles(roles: map<Admin, Role>)
    | EditOwners(owners: map<Tenant, Option<Admin>>, live: set<Tenant>)
    | EditAllow(t: Tenant, entries: seq<Entry>)
    | EditRoot(t: Tenant, rule: Root)
    | EditHooks(t: Tenant, urls: seq<string>)
    | EditFiles(files: set<Tenant>)
    | CreateTenant(t: Tenant, owner: Option<Admin>)

  /** `Do(ok, migrated)` runs the next statement of the boot, which succeeds or not; `migrated`
      says whether the tenant's additive migration, which precedes its steps, went through. */
  datatype Action = StartBoot(ts: seq<Tenant>) | Do(ok: bool, migrated: bool) | Die | Change(edit: Edit)

  predicate Booting(pc: Pc) { !pc.Down? && !pc.Serving? }

  predicate Enabled(s: State, a: Action) {
    match a
    case StartBoot(_) => s.pc.Down?
    case Do(_, _) => Booting(s.pc)
    case Die => true
    case Change(_) => !Booting(s.pc)
  }

  function Edited(s: State, e: Edit): State {
    match e
    case EditRoles(roles) => s.(roles := roles)
    case EditOwners(owners, live) => s.(owners := owners, live := live)
    case EditAllow(t, entries) => s.(allow := s.allow[t := entries])
    case EditRoot(t, rule) => s.(root := s.root[t := rule])
    case EditHooks(t, urls) => s.(hooks := s.hooks[t := urls])
    case EditFiles(files) => s.(files := files)
    case CreateTenant(t, owner) =>
      // born after the upgrade: stamped, never seeded
      s.(owners := s.owners[t := owner], live := s.live + {t}, merged := s.merged + {t}, marked := s.marked + {t},
         allow := s.allow[t := []], root := s.root[t := Rule(None)], files := s.files + {t})
  }

  /** The effect that the next statement has, if it has one. */
  function EffectOf(s: State, ok: bool, migrated: bool): Option<Effect> {
    if !ok then None
    else
      match s.pc
      case LiftRoles(_) => Some(RolesLifted)
      case SetOwners(_) => Some(OwnersSet)
      case Egress(ts) => if ts != [] && migrated && ts[0] !in s.merged then Some(EgressMerged(ts[0])) else None
      case Grant(t, _) => Some(PublishGranted(t))
      case _ => None
  }

  /** It marks its tenant before granting. */
  predicate Marks(s: State, ok: bool) { ok && s.pc.Publish? && s.pc.t !in s.marked && s.pc.t in s.files }

  function NextPc(s: State, ok: bool, migrated: bool): Pc {
    match s.pc
    case ProbeRole(ts) => if s.roleColumn then ProbeOwner(ts) else if ok then LiftRoles(ts) else Down
    case LiftRoles(ts) => if ok then ProbeOwner(ts) else Down
    case ProbeOwner(ts) => if s.ownerColumn then Egress(ts) else if ok then SetOwners(ts) else Down
    case SetOwners(ts) => if ok then Egress(ts) else Down
    case Egress(ts) => if ts == [] then Serving else if migrated then Publish(ts[0], ts[1..]) else Egress(ts[1..])
    case Publish(t, rest) => if Marks(s, ok) then Grant(t, rest) else Egress(rest)
    case Grant(t, rest) => if ok then Egress(rest) else Reset(t, rest)
    case Reset(_, rest) => Egress(rest)
    case _ => s.pc
  }

  function NextMarked(s: State, ok: bool): set<Tenant> {
    if Marks(s, ok) then s.marked + {s.pc.t} else if s.pc.Reset? && ok then s.marked - {s.pc.t} else s.marked
  }

  /** The egress merge writes its data and its marker in one statement. */
  function NextAllow(c: Config, s: State, e: Option<Effect>): map<Tenant, seq<Entry>> {
    if e.Some? && e.value.EgressMerged? then s.allow[e.value.t := Merge(c, AllowOf(s, e.value.t), Origins(c, UrlsOf(s, e.value.t)))]
    else s.allow
  }

  function NextMerged(s: State, e: Option<Effect>): set<Tenant> {
    if e.Some? && e.value.EgressMerged? then s.merged + {e.value.t} else s.merged
  }

  /** `UPDATE .. WHERE prefix = '' AND public_upload_roles IS NULL`. */
  function NextRoot(s: State, e: Option<Effect>): map<Tenant, Root> {
    if e.Some? && e.value.PublishGranted? && RootOf(s, e.value.t) == Rule(None) then s.root[e.value.t := Rule(Some(ALL_ROLES))] else s.root
  }

  ghost function BootStep(c: Config, s: State, ok: bool, migrated: bool): State
    requires Booting(s.pc)
  {
    var e := EffectOf(s, ok, migrated);
    State(
      NextPc(s, ok, migrated),
      s.roleColumn || (s.pc.ProbeRole? && ok),
      if e == Some(RolesLifted) then Lifted(s.roles) else s.roles,
      s.ownerColumn || (s.pc.ProbeOwner? && ok),
      if e == Some(OwnersSet) then Adopted(s) else s.owners,
      s.live,
      NextMerged(s, e),
      NextAllow(c, s, e),
      NextMarked(s, ok),
      NextRoot(s, e),
      s.files,
      s.hooks,
      s.done + if e.Some? then [e.value] else [])
  }

  ghost function Next(c: Config, s: State, a: Action): State
    requires Enabled(s, a)
  {
    match a
    case StartBoot(ts) => s.(pc := ProbeRole(ts))
    case Do(ok, migrated) => BootStep(c, s, ok, migrated)
    case Die => s.(pc := Down)
    case Change(edit) => Edited(s, edit)
  }

  /** Before the first boot with these steps: nothing marked, nothing done. */
  predicate Start(s: State) {
    s.pc.Down? && !s.roleColumn && !s.ownerColumn && s.merged == {} && s.marked == {} && s.done == []
  }

  ghost predicate IsRun(c: Config, s: State, acts: seq<Action>)
    decreases |acts|, 0
  {
    acts == [] || (IsRun(c, s, acts[..|acts| - 1]) && Enabled(After(c, s, acts[..|acts| - 1]), acts[|acts| - 1]))
  }

  ghost function After(c: Config, s: State, acts: seq<Action>): State
    requires IsRun(c, s, acts)
    decreases |acts|, 1
  {
    if acts == [] then s else Next(c, After(c, s, acts[..|acts| - 1]), acts[|acts| - 1])
  }

  // ---------------------------------------------------------------- what holds throughout

  predicate NoRepeats(done: seq<Effect>) { forall i, j :: 0 <= i < j < |done| ==> done[i] != done[j] }

  /** A marker precedes or accompanies its effect, and is taken back only before it. */
  predicate ColumnsFirst(s: State) {
    && (s.pc.LiftRoles? ==> s.roleColumn && RolesLifted !in s.done)
    && (s.pc.SetOwners? ==> s.ownerColumn && OwnersSet !in s.done)
    && (!s.roleColumn ==> RolesLifted !in s.done)
    && (!s.ownerColumn ==> OwnersSet !in s.done)
  }

  ghost predicate MarkersFirst(s: State) {
    && (forall t :: EgressMerged(t) in s.done ==> t in s.merged)
    && (forall t :: PublishGranted(t) in s.done ==> t in s.marked)
    && (s.pc.Grant? || s.pc.Reset? ==> s.pc.t in s.marked && PublishGranted(s.pc.t) !in s.done)
  }

  ghost predicate Inv(s: State) { NoRepeats(s.done) && ColumnsFirst(s) && MarkersFirst(s) }
}
