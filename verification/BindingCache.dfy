/**
 The binding cache of one tenant with its clock: no lock, invalidation after every commit,
 and a safety time-to-live. Loads run in three steps (drop what is stale, read, insert), so
 they interleave with commits, invalidations, hits and each other in any order.
 */
module BindingCache {

  datatype Option<+T> = None | Some(value: T)

  datatype Row = Row(name: string, triggersJson: string, active: bool)

  datatype Trigger = OnRecord(collection: string, events: seq<string>) | OnFileUploaded(flag: bool)

  type Triggers = seq<Trigger>

  datatype Binding = Binding(functionName: string, triggers: Triggers)

  /** `parse` is `parse_triggers`, about which nothing is assumed. */
  datatype Config = Config(ttl: nat, parse: string -> Option<Triggers>)

  /** Active rows whose triggers parse, in order. */
  function Bindings(c: Config, rows: seq<Row>): seq<Binding> {
    if rows == [] then []
    else
      var p := c.parse(rows[0].triggersJson);
      (if rows[0].active && p.Some? then [Binding(rows[0].name, p.value)] else []) + Bindings(c, rows[1..])
  }

  /** What the table held from `since` on. */
  datatype Version = Version(since: int, rows: seq<Row>)

  /** Where a value comes from: version `v` of the table, read at `readAt` by a load that began
      at `begun`. */
  datatype Origin = Origin(v: nat, readAt: int, begun: int)

  datatype Entry = Entry(inserted: int, bindings: seq<Binding>, origin: Origin)

  datatype Load =
    | Missed(begun: int)
    | Cleared(begun: int)
    | HasRead(bindings: seq<Binding>, origin: Origin)

  datatype State = State(
    now: int,
    history: seq<Version>,
    entry: Option<Entry>,
    loads: map<nat, Load>,
    writers: set<nat>)   // committed, invalidation still to come

  const Init := State(0, [Version(0, [])], None, map[], {})

  datatype Action =
    | Elapse(d: nat)
    | Commit(w: nat, rows: seq<Row>)
    | Invalidate(w: nat)
    | Hit
    | Miss(k: nat)
    | Clear(k: nat)
    | Read(k: nat)
    | ReadFails(k: nat)
    | Insert(k: nat)

  predicate Usable(c: Config, s: State) { s.entry.Some? && s.now - s.entry.value.inserted < c.ttl }

  predicate Enabled(c: Config, s: State, a: Action) {
    match a
    case Elapse(_) => true
    case Commit(w, _) => w !in s.writers
    case Invalidate(w) => w in s.writers
    case Hit => Usable(c, s)
    case Miss(k) => !Usable(c, s) && k !in s.loads
    case Clear(k) => k in s.loads && s.loads[k].Missed?
    case Read(k) => k in s.loads && s.loads[k].Cleared?
    case ReadFails(k) => k in s.loads && s.loads[k].Cleared?
    case Insert(k) => k in s.loads && s.loads[k].HasRead?
  }

  function Latest(s: State): nat
    requires s.history != []
  {
    |s.history| - 1
  }

  function Next(c: Config, s: State, a: Action): State
    requires Enabled(c, s, a) && s.history != []
  {
    match a
    case Elapse(d) => s.(now := s.now + d)
    case Commit(w, rows) => s.(history := s.history + [Version(s.now, rows)], writers := s.writers + {w})
    case Invalidate(w) => s.(entry := None, writers := s.writers - {w})
    case Hit => s
    case Miss(k) => s.(loads := s.loads[k := Missed(s.now)])
    case Clear(k) => s.(entry := None, loads := s.loads[k := Cleared(s.loads[k].begun)])
    case Read(k) =>
      s.(loads := s.loads[k := HasRead(Bindings(c, s.history[Latest(s)].rows), Origin(Latest(s), s.now, s.loads[k].begun))])
    case ReadFails(k) => s.(loads := s.loads - {k})
    case Insert(k) => s.(entry := Some(Entry(s.now, s.loads[k].bindings, s.loads[k].origin)), loads := s.loads - {k})
  }

  /** What a step hands to its caller: nothing, the empty list after a failed read, or the
      bindings of some origin. */
  datatype Served = Nothing | AsNone | Value(bindings: seq<Binding>, origin: Origin)

  function Serves(c: Config, s: State, a: Action): Served
    requires Enabled(c, s, a)
  {
    match a
    case Hit => Value(s.entry.value.bindings, s.entry.value.origin)
    case Insert(k) => Value(s.loads[k].bindings, s.loads[k].origin)
    case ReadFails(_) => AsNone
    case _ => Nothing
  }

  ghost predicate IsRun(c: Config, s: State, acts: seq<Action>)
    requires s.history != []
    decreases |acts|, 0
  {
    acts == [] || (IsRun(c, s, acts[..|acts| - 1]) && Enabled(c, After(c, s, acts[..|acts| - 1]), acts[|acts| - 1]))
  }

  ghost function After(c: Config, s: State, acts: seq<Action>): (r: State)
    requires s.history != [] && IsRun(c, s, acts)
    ensures r.history != []
    decreases |acts|, 1
  {
    if acts == [] then s else Next(c, After(c, s, acts[..|acts| - 1]), acts[|acts| - 1])
  }

  // ---------------------------------------------------------------- origins

  ghost predicate KeptAt(c: Config, rows: seq<Row>, p: nat) { p < |rows| && rows[p].active && c.parse(rows[p].triggersJson).Some? }

  /** `at` lists places in `rows` in order, exactly those of the active rows whose triggers parse,
      and `b` are the bindings found there. */
  ghost predicate ParsedAt(c: Config, rows: seq<Row>, b: seq<Binding>, at: seq<nat>) {
    && (forall i, j :: 0 <= i < j < |at| ==> at[i] < at[j])
    && (forall p: nat :: KeptAt(c, rows, p) <==> p in at)
    && |at| == |b| && forall i :: 0 <= i < |at| ==>
          at[i] < |rows| && b[i].functionName == rows[at[i]].name && c.parse(rows[at[i]].triggersJson) == Some(b[i].triggers)
  }

  /** `b` are the bindings of the active rows whose triggers parse, row by row, and no others. */
  ghost predicate AreParsed(c: Config, rows: seq<Row>, b: seq<Binding>) { exists at :: ParsedAt(c, rows, b, at) }

  /** `o` names a real read: the table held version `o.v` at `o.readAt`, during the load. */
  ghost predicate RealRead(c: Config, s: State, o: Origin, b: seq<Binding>) {
    && o.v < |s.history| && AreParsed(c, s.history[o.v].rows, b)
    && s.history[o.v].since <= o.readAt && (o.v + 1 < |s.history| ==> o.readAt <= s.history[o.v + 1].since)
    && o.begun <= o.readAt <= s.now
  }

  ghost predicate Inv(c: Config, s: State) {
    && s.history != [] && (forall i :: 0 <= i < |s.history| ==> s.history[i].since <= s.now)
    && (s.entry.Some? ==>
          s.entry.value.origin.readAt <= s.entry.value.inserted <= s.now && RealRead(c, s, s.entry.value.origin, s.entry.value.bindings))
    && (forall k :: k in s.loads ==> LoadOk(c, s, s.loads[k]))
  }

  ghost predicate LoadOk(c: Config, s: State, l: Load) {
    if l.HasRead? then RealRead(c, s, l.origin, l.bindings) else l.begun <= s.now
  }
}
