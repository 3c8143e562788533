/**
 The code of the binding cache as whole methods, upon the map of all tenants' slots. Between any
 two statements arbitrary steps of other loads, of writers and of the clock may happen, and the
 slots of other tenants may change at will (`Others`). Each method is proved to emit exactly its
 own steps, in order, inside a run of the transition system of the tenant in focus.
 */
module BindingCacheCode {
  import opened BindingCache
  import opened BindingCacheTheorems

  type Tenant = string

  /** What a slot of the map stores. */
  datatype Cached = Cached(inserted: int, bindings: seq<Binding>)

  // ---------------------------------------------------------------- whose steps

  datatype Who = TheLoad(k: nat) | TheWriter(w: nat)

  predicate Own(who: Who, a: Action) {
    match who
    case TheLoad(k) => (a.Miss? || a.Clear? || a.Read? || a.ReadFails? || a.Insert?) && a.k == k
    case TheWriter(w) => (a.Commit? || a.Invalidate?) && a.w == w
  }

  /** The steps of a run that are someone's own, in order. */
  ghost function Mine(who: Who, acts: seq<Action>): seq<Action> {
    if acts == [] then []
    else Mine(who, acts[..|acts| - 1]) + if Own(who, acts[|acts| - 1]) then [acts[|acts| - 1]] else []
  }

  lemma MineSnoc(who: Who, acts: seq<Action>, a: Action)
    ensures Mine(who, acts + [a]) == if Own(who, a) then Mine(who, acts) + [a] else Mine(who, acts)
  {
    assert (acts + [a])[..|acts + [a]| - 1] == acts;
  }

  /** The history is a run, and this is its last state. */
  ghost predicate RunEnds(c: Config, acts: seq<Action>, s: State) { IsRun(c, Init, acts) && After(c, Init, acts) == s }

  lemma RunEndsInv(c: Config, acts: seq<Action>, s: State)
    requires RunEnds(c, acts, s)
    ensures Inv(c, s)
  {
    InvRun(c, acts);
  }

  lemma RunEndsSnoc(c: Config, acts: seq<Action>, s: State, a: Action)
    requires RunEnds(c, acts, s) && Enabled(c, s, a)
    ensures s.history != [] && RunEnds(c, acts + [a], Next(c, s, a))
  {
    assert (acts + [a])[..|acts + [a]| - 1] == acts;
  }

  /** A load relies on its own progress and on the clock; a writer on its turn to invalidate, and
      on no read older than its commit turning up. */
  ghost predicate Kept(who: Who, s: State, s': State) {
    match who
    case TheLoad(k) => s.now <= s'.now && (k in s.loads ==> k in s'.loads && s'.loads[k] == s.loads[k])
    case TheWriter(w) =>
      (w in s.writers ==> w in s'.writers) && |s.history| <= |s'.history| &&
      forall v: nat {:trigger NoOldRead(s, v)} {:trigger NoOldRead(s', v)} :: v < |s.history| && NoOldRead(s, v) ==> NoOldRead(s', v)
  }

  lemma OthersKeep(c: Config, who: Who, s: State, a: Action)
    requires s.history != [] && Enabled(c, s, a) && !Own(who, a)
    ensures Kept(who, s, Next(c, s, a))
  {
    if who.TheWriter? {
      forall v: nat | v < |s.history| && NoOldRead(s, v)
        ensures NoOldRead(Next(c, s, a), v)
      {
        NoOldReadStep(c, s, a, v);
      }
    }
  }

  // ---------------------------------------------------------------- the programs

  /** How a get goes. */
  datatype Way = AHit | ALoad | AFailedLoad

  function LoadSteps(k: nat, way: Way): seq<Action> {
    match way
    case AHit => []
    case ALoad => [Miss(k), Clear(k), Read(k), Insert(k)]
    case AFailedLoad => [Miss(k), Clear(k), ReadFails(k)]
  }

  lemma Joined(m: seq<Action>, k: nat)
    ensures m + [Miss(k)] + [Clear(k)] + [Read(k)] + [Insert(k)] == m + LoadSteps(k, ALoad)
    ensures m + [Miss(k)] + [Clear(k)] + [ReadFails(k)] == m + LoadSteps(k, AFailedLoad)
  {
  }

  lemma Two(m: seq<Action>, a: Action, b: Action)
    ensures m + [a] + [b] == m + [a, b]
  {
  }

  function RowBinding(c: Config, r: Row): seq<Binding> {
    if r.active && c.parse(r.triggersJson).Some? then [Binding(r.name, c.parse(r.triggersJson).value)] else []
  }

  lemma ParseNext(c: Config, rows: seq<Row>, i: nat, done: seq<Binding>)
    requires i < |rows|
    ensures done + Bindings(c, rows[i..]) == (done + RowBinding(c, rows[i])) + Bindings(c, rows[i + 1..]) && done + [] == done
  {
    assert rows[i..][0] == rows[i] && rows[i..][1..] == rows[i + 1..];
  }

  class Cache {
    const c: Config
    const tenant: Tenant               // the tenant in focus
    var entries: map<Tenant, Cached>   // the slots of all tenants
    var origin: Origin                 // where the slot of the tenant in focus came from
    var now: int
    var history: seq<Version>          // what the tenant's table held, the last now
    var loads: map<nat, Load>
    var writers: set<nat>
    ghost var trace: seq<Action>

    function Slot(): Option<Entry>
      reads this
    {
      if tenant in entries then Some(Entry(entries[tenant].inserted, entries[tenant].bindings, origin)) else None
    }

    function View(): State
      reads this
    {
      State(now, history, Slot(), loads, writers)
    }

    ghost predicate Valid()
      reads this
    {
      RunEnds(c, trace, View())
    }

    constructor (config: Config, t: Tenant)
      ensures c == config && tenant == t && Valid() && trace == []
    {
      c, tenant := config, t;
      entries, origin := map[], Origin(0, 0, 0);
      now, history, loads, writers, trace := 0, [Version(0, [])], map[], {}, [];
    }

    /** The field updates since `before` are the action `a`. */
    ghost method Note(before: State, a: Action)
      requires RunEnds(c, trace, before) && Enabled(c, before, a) && before.history != [] && View() == Next(c, before, a)
      modifies this`trace
      ensures Valid() && trace == old(trace) + [a]
      ensures forall who :: Mine(who, trace) == if Own(who, a) then Mine(who, old(trace)) + [a] else Mine(who, old(trace))
    {
      RunEndsSnoc(c, trace, before, a);
      trace := trace + [a];
      forall who
        ensures Mine(who, trace) == if Own(who, a) then Mine(who, old(trace)) + [a] else Mine(who, old(trace))
      {
        MineSnoc(who, old(trace), a);
      }
    }

    method OneOther(who: Who, a: Action)
      requires Valid() && Enabled(c, View(), a) && !Own(who, a)
      modifies this
      ensures Valid() && Mine(who, trace) == Mine(who, old(trace)) && Kept(who, old(View()), View())
    {
      ghost var before := View();
      RunEndsInv(c, trace, before);
      OthersKeep(c, who, before, a);
      var s := Next(c, View(), a);
      now, history, loads, writers := s.now, s.history, s.loads, s.writers;
      if s.entry.Some? {
        entries, origin := entries[tenant := Cached(s.entry.value.inserted, s.entry.value.bindings)], s.entry.value.origin;
      } else {
        entries := entries - {tenant};
      }
      Note(before, a);
    }

    /** The slots of other tenants become whatever they become. */
    method OtherTenants()
      requires Valid()
      modifies this`entries
      ensures Valid() && View() == old(View())
    {
      var m: map<Tenant, Cached> := *;
      entries := if tenant in entries then m[tenant := entries[tenant]] else m - {tenant};
      assert View() == old(View());
    }

    /** Any number of arbitrary steps of everybody else. */
    method Others(who: Who)
      requires Valid()
      modifies this
      ensures Valid() && Mine(who, trace) == Mine(who, old(trace)) && Kept(who, old(View()), View())
    {
      var n: nat := *;
      while n > 0
        invariant Valid() && Mine(who, trace) == Mine(who, old(trace)) && Kept(who, old(View()), View())
        decreases n
      {
        var a: Action := *;
        OtherTenants();
        if Enabled(c, View(), a) && !Own(who, a) {
          OneOther(who, a);
        }
        n := n - 1;
      }
    }

    /** What load `k` has done so far. */
    ghost function Steps(k: nat): seq<Action>
      reads this
    {
      Mine(TheLoad(k), trace)
    }

    // ------------------------------------------------------------ single statements

    /** The first look: a hit within the time-to-live returns at once, anything else begins a load. */
    method Probe(k: nat) returns (hit: Option<seq<Binding>>)
      requires Valid() && k !in loads
      modifies this
      ensures Valid() && (hit.Some? <==> old(Usable(c, View())))
      ensures hit.Some? ==> trace == old(trace) + [Hit] && View() == old(View()) && hit.value == entries[tenant].bindings
      ensures Steps(k) == if hit.Some? then old(Steps(k)) else old(Steps(k)) + [Miss(k)]
      ensures hit.None? ==> now == old(now) && k in loads && loads[k] == Missed(now)
    {
      ghost var before := View();
      RunEndsInv(c, trace, before);
      if tenant in entries && now - entries[tenant].inserted < c.ttl {
        Note(before, Hit);
        return Some(entries[tenant].bindings);
      }
      loads := loads[k := Missed(now)];
      Note(before, Miss(k));
      return None;
    }

    /** The load drops whatever is there, which another load may have put in meanwhile. */
    method DropStale(k: nat, begun: int)
      requires Valid() && k in loads && loads[k] == Missed(begun)
      modifies this
      ensures Valid() && Steps(k) == old(Steps(k)) + [Clear(k)] && k in loads && loads[k] == Cleared(begun)
      ensures tenant !in entries
    {
      ghost var before := View();
      RunEndsInv(c, trace, before);
      entries := entries - {tenant};
      loads := loads[k := Cleared(begun)];
      Note(before, Clear(k));
    }

    method FailToRead(k: nat)
      requires Valid() && k in loads && loads[k].Cleared?
      modifies this
      ensures Valid() && Steps(k) == old(Steps(k)) + [ReadFails(k)] && k !in loads
    {
      ghost var before := View();
      RunEndsInv(c, trace, before);
      loads := loads - {k};
      Note(before, ReadFails(k));
    }

    /** The rows kept: active ones whose triggers parse. */
    method ParseRows(rows: seq<Row>) returns (bindings: seq<Binding>)
      ensures bindings == Bindings(c, rows) && AreParsed(c, rows, bindings)
    {
      ghost var at := BindingsAre(c, rows);
      bindings := [];
      assert rows[0..] == rows;
      for i := 0 to |rows|
        invariant bindings + Bindings(c, rows[i..]) == Bindings(c, rows)
      {
        ParseNext(c, rows, i, bindings);
        if rows[i].active {
          var parsed := c.parse(rows[i].triggersJson);
          if parsed.Some? {
            bindings := bindings + [Binding(rows[i].name, parsed.value)];
          }
        }
      }
      assert rows[|rows|..] == [];
    }

    /** The table as it is now, parsed. */
    method ReadRows(k: nat, begun: int) returns (bindings: seq<Binding>, from: Origin)
      requires Valid() && k in loads && loads[k] == Cleared(begun)
      modifies this
      ensures Valid() && Steps(k) == old(Steps(k)) + [Read(k)] && k in loads && loads[k] == HasRead(bindings, from) && from.begun == begun
    {
      ghost var before := View();
      RunEndsInv(c, trace, before);
      bindings := ParseRows(history[|history| - 1].rows);
      from := Origin(|history| - 1, now, begun);
      loads := loads[k := HasRead(bindings, from)];
      Note(before, Read(k));
    }

    /** What was read goes into the map. */
    method Store(k: nat, bindings: seq<Binding>, from: Origin)
      requires Valid() && k in loads && loads[k] == HasRead(bindings, from)
      modifies this
      ensures Valid() && Steps(k) == old(Steps(k)) + [Insert(k)] && k !in loads
      ensures RealRead(c, View(), from, bindings)
    {
      ghost var before := View();
      RunEndsInv(c, trace, before);
      assert LoadOk(c, before, before.loads[k]);
      entries, origin := entries[tenant := Cached(now, bindings)], from;
      loads := loads - {k};
      Note(before, Insert(k));
    }

    method RemoveEntry(w: nat)
      requires Valid() && w in writers
      modifies this
      ensures Valid() && Mine(TheWriter(w), trace) == Mine(TheWriter(w), old(trace)) + [BindingCache.Invalidate(w)]
      ensures tenant !in entries && w !in writers && history == old(history) && loads == old(loads)
    {
      ghost var before := View();
      RunEndsInv(c, trace, before);
      entries := entries - {tenant};
      writers := writers - {w};
      Note(before, BindingCache.Invalidate(w));
    }

    method CommitRows(w: nat, rows: seq<Row>)
      requires Valid() && w !in writers
      modifies this
      ensures Valid() && Mine(TheWriter(w), trace) == Mine(TheWriter(w), old(trace)) + [Commit(w, rows)]
      ensures w in writers && loads == old(loads) && history == old(history) + [Version(now, rows)]
    {
      ghost var before := View();
      RunEndsInv(c, trace, before);
      history := history + [Version(now, rows)];
      writers := writers + {w};
      Note(before, Commit(w, rows));
    }

    // ------------------------------------------------------------ whole methods

    /** From the first miss on. What a successful load returns was read from the table after the
        load began, and is what the table held then. */
    method Load(k: nat, readable: bool) returns (served: seq<Binding>, ghost from: Origin)
      requires Valid() && k in loads && loads[k] == Missed(now)
      modifies this
      ensures Valid() && k !in loads
      ensures Steps(k) == old(Steps(k)) + [Clear(k)] + if readable then [Read(k)] + [Insert(k)] else [ReadFails(k)]
      ensures if readable then RealRead(c, View(), from, served) && from.begun == old(now) else served == []
    {
      var begun := now;
      Others(TheLoad(k));
      DropStale(k, begun);
      Others(TheLoad(k));
      from := Origin(0, 0, 0);
      if !readable {
        FailToRead(k);
        return [], from;
      }
      var bindings, o := ReadRows(k, begun);
      Others(TheLoad(k));
      Store(k, bindings, o);
      Two(old(Steps(k)) + [Clear(k)], Read(k), Insert(k));
      return bindings, o;
    }

    /** `get_or_load`: a hit exactly when the slot is within the time-to-live, served as it is; else
        drop, read, insert, in that order whatever others do meanwhile, and what is returned was read
        during this very call; a failed read returns nothing and leaves the slot to others. */
    method GetOrLoad(k: nat, readable: bool) returns (served: seq<Binding>, way: Way, ghost from: Origin)
      requires Valid() && k !in loads
      modifies this
      ensures Valid() && Steps(k) == old(Steps(k)) + LoadSteps(k, way)
      ensures way == if old(Usable(c, View())) then AHit else if readable then ALoad else AFailedLoad
      ensures way.AHit? ==> trace == old(trace) + [Hit] && View() == old(View()) && served == entries[tenant].bindings
      ensures way.ALoad? ==> RealRead(c, View(), from, served) && from.begun == old(now)
      ensures way.AFailedLoad? ==> served == []
    {
      from := Origin(0, 0, 0);
      var hit := Probe(k);
      if hit.Some? {
        return hit.value, AHit, from;
      }
      served, from := Load(k, readable);
      way := if readable then ALoad else AFailedLoad;
      Joined(old(Steps(k)), k);
      if readable {
        Two(old(Steps(k)) + [Miss(k)] + [Clear(k)], Read(k), Insert(k));
      }
    }

    /** A mutation: commit, then `invalidate`, whatever others do in between. Afterwards the slot is
        empty, and if no load held a read when the commit happened, every later get reflects it. */
    method Mutate(w: nat, rows: seq<Row>)
      requires Valid() && w !in writers
      modifies this
      ensures Valid() && Mine(TheWriter(w), trace) == Mine(TheWriter(w), old(trace)) + [Commit(w, rows), BindingCache.Invalidate(w)]
      ensures tenant !in entries && w !in writers && history != []
      ensures (forall k :: k in old(loads) ==> !old(loads)[k].HasRead?) ==> SeenFrom(c, View(), |old(history)|)
    {
      ghost var v := |history|;
      CommitRows(w, rows);
      ghost var noRead := forall k :: k in loads ==> !loads[k].HasRead?;
      assert noRead ==> NoOldRead(View(), v);
      Others(TheWriter(w));
      assert noRead ==> NoOldRead(View(), v);
      RemoveEntry(w);
      Two(Mine(TheWriter(w), old(trace)), Commit(w, rows), BindingCache.Invalidate(w));
      RunEndsInv(c, trace, View());
      InvalidationWorksIff(c, View(), v);
    }
  }
}
