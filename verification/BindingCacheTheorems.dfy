/** What the binding cache may serve, and exactly when a commit can go unseen. */
module BindingCacheTheorems {
  import opened BindingCache

  lemma {:induction false} BindingsSnoc(c: Config, rows: seq<Row>, r: Row)
    ensures Bindings(c, rows + [r]) ==
            Bindings(c, rows) + if r.active && c.parse(r.triggersJson).Some? then [Binding(r.name, c.parse(r.triggersJson).value)] else []
  {
    if rows == [] {
      assert rows + [r] == [r] && [r][1..] == [];
    } else {
      assert (rows + [r])[1..] == rows[1..] + [r];
      BindingsSnoc(c, rows[1..], r);
    }
  }

  lemma KeptAtSnoc(c: Config, rows: seq<Row>, r: Row, p: nat)
    ensures KeptAt(c, rows + [r], p) <==> KeptAt(c, rows, p) || (p == |rows| && r.active && c.parse(r.triggersJson).Some?)
  {
  }

  lemma ParsedSnoc(c: Config, rows: seq<Row>, r: Row, b: seq<Binding>, at: seq<nat>)
    requires ParsedAt(c, rows, b, at)
    ensures if r.active && c.parse(r.triggersJson).Some?
            then ParsedAt(c, rows + [r], b + [Binding(r.name, c.parse(r.triggersJson).value)], at + [|rows|])
            else ParsedAt(c, rows + [r], b, at)
  {
    var all := if r.active && c.parse(r.triggersJson).Some? then at + [|rows|] else at;
    forall p: nat
      ensures KeptAt(c, rows + [r], p) <==> p in all
    {
      KeptAtSnoc(c, rows, r, p);
    }
  }

  /** What a load computes from the rows is that list. */
  lemma {:induction false} BindingsAre(c: Config, rows: seq<Row>) returns (at: seq<nat>)
    ensures ParsedAt(c, rows, Bindings(c, rows), at)
  {
    if rows == [] {
      at := [];
    } else {
      var front, r := rows[..|rows| - 1], rows[|rows| - 1];
      var rest := BindingsAre(c, front);
      assert rows == front + [r];
      BindingsSnoc(c, front, r);
      ParsedSnoc(c, front, r, Bindings(c, front), rest);
      if r.active && c.parse(r.triggersJson).Some? {
        at := rest + [|front|];
      } else {
        at := rest;
        assert Bindings(c, front) + [] == Bindings(c, front);
      }
    }
  }

  lemma RealReadStep(c: Config, s: State, a: Action, o: Origin, b: seq<Binding>)
    requires Inv(c, s) && Enabled(c, s, a) && RealRead(c, s, o, b)
    ensures RealRead(c, Next(c, s, a), o, b)
  {
  }

  lemma InvStep(c: Config, s: State, a: Action)
    requires Inv(c, s) && Enabled(c, s, a)
    ensures Inv(c, Next(c, s, a))
  {
    var s' := Next(c, s, a);
    if s.entry.Some? {
      RealReadStep(c, s, a, s.entry.value.origin, s.entry.value.bindings);
    }
    if a.Read? {
      var at := BindingsAre(c, s.history[Latest(s)].rows);
    }
    forall k | k in s'.loads
      ensures LoadOk(c, s', s'.loads[k])
    {
      if k in s.loads && s.loads[k].HasRead? {
        RealReadStep(c, s, a, s.loads[k].origin, s.loads[k].bindings);
      }
    }
    if a.Insert? {
      RealReadStep(c, s, a, s.loads[a.k].origin, s.loads[a.k].bindings);
    }
  }

  lemma {:induction false} InvRun(c: Config, acts: seq<Action>)
    requires IsRun(c, Init, acts)
    ensures Inv(c, After(c, Init, acts))
    decreases |acts|
  {
    if acts != [] {
      InvRun(c, acts[..|acts| - 1]);
      InvStep(c, After(c, Init, acts[..|acts| - 1]), acts[|acts| - 1]);
    }
  }

  /** For any interleaving of loaders and writers: a served value is the active parseable
      bindings of the table at a real read. A hit is younger than the time-to-live plus the
      duration of the load that put it there (its insertion minus its start); the value a load
      returns itself is no older than that load. */
  lemma ServedIsRealAndYoung(c: Config, acts: seq<Action>, a: Action)
    requires IsRun(c, Init, acts) && Enabled(c, After(c, Init, acts), a) && Serves(c, After(c, Init, acts), a).Value?
    ensures var s, v := After(c, Init, acts), Serves(c, After(c, Init, acts), a);
            RealRead(c, s, v.origin, v.bindings) &&
            (a.Hit? ==> s.now - v.origin.readAt < c.ttl + (s.entry.value.inserted - v.origin.begun)) &&
            (a.Insert? ==> s.now - v.origin.readAt <= s.now - v.origin.begun)
  {
    InvRun(c, acts);
    var s := After(c, Init, acts);
    assert a.Insert? ==> LoadOk(c, s, s.loads[a.k]);
  }

  /** The net under a missed invalidation: what a hit serves was superseded, if at all, less
      than the time-to-live plus the load's duration ago. */
  lemma StalenessBounded(c: Config, acts: seq<Action>)
    requires IsRun(c, Init, acts) && Usable(c, After(c, Init, acts))
    requires var s := After(c, Init, acts); s.entry.value.origin.v + 1 < |s.history|
    ensures var s := After(c, Init, acts); var e := s.entry.value;
            s.now - s.history[e.origin.v + 1].since < c.ttl + (e.inserted - e.origin.begun)
  {
    ServedIsRealAndYoung(c, acts, Hit);
  }

  lemma Then(c: Config, acts: seq<Action>, a: Action) returns (longer: seq<Action>)
    requires IsRun(c, Init, acts) && Enabled(c, After(c, Init, acts), a)
    ensures IsRun(c, Init, longer) && After(c, Init, longer) == Next(c, After(c, Init, acts), a)
  {
    longer := acts + [a];
    assert longer[..|longer| - 1] == acts;
  }

  /** A load that has read the initial table. */
  lemma Loading(c: Config) returns (acts: seq<Action>)
    ensures IsRun(c, Init, acts)
    ensures After(c, Init, acts) == Init.(loads := map[0 := HasRead([], Origin(0, 0, 0))])
  {
    acts := [];
    assert After(c, Init, acts) == Init;
    acts := Then(c, acts, Miss(0));
    acts := Then(c, acts, Clear(0));
    acts := Then(c, acts, Read(0));
    assert Bindings(c, []) == [];
  }

  /** The same load still in flight after a commit and its invalidation. */
  lemma Straddling(c: Config, rows: seq<Row>) returns (acts: seq<Action>)
    ensures IsRun(c, Init, acts)
    ensures After(c, Init, acts) == State(0, [Version(0, []), Version(0, rows)], None, map[0 := HasRead([], Origin(0, 0, 0))], {})
  {
    acts := Loading(c);
    acts := Then(c, acts, Commit(0, rows));
    acts := Then(c, acts, Invalidate(0));
  }

  /** The load's duration matters: with any positive time-to-live, and for any delay, a load that
      straddles a commit and its invalidation makes a superseded value be served `delay` plus
      the time-to-live less one tick after the commit. The time-to-live alone is no bound. */
  lemma SupersededBeyondTtl(c: Config, rows: seq<Row>, delay: nat) returns (acts: seq<Action>)
    requires c.ttl > 0
    ensures IsRun(c, Init, acts) && Usable(c, After(c, Init, acts))
    ensures var s := After(c, Init, acts);
            s.history == [Version(0, []), Version(0, rows)] && s.entry.value.origin.v == 0 &&
            s.now - s.history[1].since == delay + c.ttl - 1
  {
    acts := Straddling(c, rows);
    acts := Then(c, acts, Elapse(delay));
    acts := Then(c, acts, Insert(0));
    acts := Then(c, acts, Elapse(c.ttl - 1));
  }

  /** Time and history only grow, and what is added to the history is new. */
  ghost predicate Later(s: State, s': State) {
    && s.now <= s'.now && |s.history| <= |s'.history|
    && (forall i :: 0 <= i < |s.history| ==> s'.history[i] == s.history[i])
    && (forall i :: |s.history| <= i < |s'.history| ==> s.now <= s'.history[i].since)
  }

  lemma {:induction false} HistoryGrows(c: Config, s: State, acts: seq<Action>)
    requires s.history != [] && IsRun(c, s, acts)
    ensures Later(s, After(c, s, acts))
    decreases |acts|
  {
    if acts != [] {
      HistoryGrows(c, s, acts[..|acts| - 1]);
      var t := After(c, s, acts[..|acts| - 1]);
      assert Later(t, Next(c, t, acts[|acts| - 1]));
    }
  }

  /** Version `v` has not been followed by another before time `t`. */
  ghost predicate NotSupersededBefore(s: State, v: nat, t: int) { v + 1 < |s.history| ==> s.history[v + 1].since >= t }

  /** A hit in `s` serves nothing that was superseded a time-to-live ago or longer. */
  ghost predicate WithinTtl(c: Config, s: State, v: nat) { v + 1 < |s.history| ==> s.now - s.history[v + 1].since < c.ttl }

  /** Every hit that entry `e` can give from `s` on stays within the time-to-live. */
  ghost predicate AlwaysWithinTtl(c: Config, s: State, e: Entry)
    requires s.history != []
  {
    forall acts {:trigger IsRun(c, s, acts)} :: IsRun(c, s, acts) && After(c, s, acts).entry == Some(e) && Usable(c, After(c, s, acts)) ==>
      WithinTtl(c, After(c, s, acts), e.origin.v)
  }

  lemma OneAction(c: Config, s: State, a: Action)
    requires s.history != [] && Enabled(c, s, a)
    ensures IsRun(c, s, [a]) && After(c, s, [a]) == Next(c, s, a)
  {
    assert [a][..|[a]| - 1] == [];
    assert IsRun(c, s, []) && After(c, s, []) == s;
  }

  /** Exactly when the documented bound holds: the hits of an entry never serve a value
      superseded a time-to-live ago, if and only if the value had not been superseded when the
      load inserted it. */
  lemma TtlBoundIff(c: Config, s: State, k: nat)
    requires Inv(c, s) && Enabled(c, s, Insert(k)) && c.ttl > 0
    ensures var s' := Next(c, s, Insert(k));
            AlwaysWithinTtl(c, s', s'.entry.value) <==> NotSupersededBefore(s, s.loads[k].origin.v, s.now)
  {
    var s' := Next(c, s, Insert(k));
    var e := s'.entry.value;
    if NotSupersededBefore(s, e.origin.v, s.now) {
      forall acts | IsRun(c, s', acts) && After(c, s', acts).entry == Some(e) && Usable(c, After(c, s', acts))
        ensures WithinTtl(c, After(c, s', acts), e.origin.v)
      {
        HistoryGrows(c, s', acts);
      }
    } else {
      OneAction(c, s', Elapse(c.ttl - 1));
      assert !WithinTtl(c, After(c, s', [Elapse(c.ttl - 1)]), e.origin.v);
    }
  }

  // ---------------------------------------------------------------- commits seen and unseen

  /** No load in flight holds a read older than version `v`. */
  ghost predicate NoOldRead(s: State, v: nat) { forall k :: k in s.loads && s.loads[k].HasRead? ==> s.loads[k].origin.v >= v }

  ghost predicate NoOldEntry(s: State, v: nat) { s.entry.Some? ==> s.entry.value.origin.v >= v }

  /** Whatever happens from `s` on, nothing older than version `v` is served. */
  ghost predicate SeenFrom(c: Config, s: State, v: nat)
    requires s.history != []
  {
    forall acts, a :: IsRun(c, s, acts) && Enabled(c, After(c, s, acts), a) && Serves(c, After(c, s, acts), a).Value? ==>
      Serves(c, After(c, s, acts), a).origin.v >= v
  }

  lemma NoOldStep(c: Config, s: State, a: Action, v: nat)
    requires s.history != [] && Enabled(c, s, a) && v < |s.history| && NoOldRead(s, v) && NoOldEntry(s, v)
    ensures var s' := Next(c, s, a); v < |s'.history| && NoOldRead(s', v) && NoOldEntry(s', v)
  {
  }

  lemma {:induction false} NoOldRun(c: Config, s: State, acts: seq<Action>, v: nat)
    requires s.history != [] && IsRun(c, s, acts) && v < |s.history| && NoOldRead(s, v) && NoOldEntry(s, v)
    ensures var s' := After(c, s, acts); v < |s'.history| && NoOldRead(s', v) && NoOldEntry(s', v)
    decreases |acts|
  {
    if acts != [] {
      NoOldRun(c, s, acts[..|acts| - 1], v);
      NoOldStep(c, After(c, s, acts[..|acts| - 1]), acts[|acts| - 1], v);
    }
  }

  /** The exact condition: when the invalidation of a commit has just happened, every later get
      reflects that commit if and only if no load then in flight had read before it. */
  lemma InvalidationWorksIff(c: Config, s: State, v: nat)
    requires s.history != [] && v < |s.history| && s.entry.None?
    ensures SeenFrom(c, s, v) <==> NoOldRead(s, v)
  {
    if NoOldRead(s, v) {
      forall acts, a | IsRun(c, s, acts) && Enabled(c, After(c, s, acts), a) && Serves(c, After(c, s, acts), a).Value?
        ensures Serves(c, After(c, s, acts), a).origin.v >= v
      {
        NoOldRun(c, s, acts, v);
      }
    } else {
      var k :| k in s.loads && s.loads[k].HasRead? && s.loads[k].origin.v < v;
      assert IsRun(c, s, []) && After(c, s, []) == s;
      assert Enabled(c, s, Insert(k)) && Serves(c, s, Insert(k)).origin.v < v;
    }
  }

  lemma NoOldReadStep(c: Config, s: State, a: Action, v: nat)
    requires s.history != [] && Enabled(c, s, a) && v < |s.history| && NoOldRead(s, v)
    ensures v < |Next(c, s, a).history| && NoOldRead(Next(c, s, a), v)
  {
  }

  lemma {:induction false} NoOldReadRun(c: Config, s: State, acts: seq<Action>, v: nat)
    requires s.history != [] && IsRun(c, s, acts) && v < |s.history| && NoOldRead(s, v)
    ensures v < |After(c, s, acts).history| && NoOldRead(After(c, s, acts), v)
    decreases |acts|
  {
    if acts != [] {
      NoOldReadRun(c, s, acts[..|acts| - 1], v);
      NoOldReadStep(c, After(c, s, acts[..|acts| - 1]), acts[|acts| - 1], v);
    }
  }

  /** If no load has read and not yet inserted when a commit happens, then once that commit's
      invalidation is done every later get reflects the commit, whatever happened between the
      commit and the invalidation. */
  lemma CommitIsSeen(c: Config, s: State, w: nat, rows: seq<Row>, between: seq<Action>, x: nat)
    requires s.history != [] && w !in s.writers
    requires forall k :: k in s.loads ==> !s.loads[k].HasRead?
    requires var s1 := Next(c, s, Commit(w, rows)); IsRun(c, s1, between) && Enabled(c, After(c, s1, between), Invalidate(x))
    ensures var s1 := Next(c, s, Commit(w, rows));
            SeenFrom(c, Next(c, After(c, s1, between), Invalidate(x)), |s.history|)
  {
    var s1 := Next(c, s, Commit(w, rows));
    NoOldReadRun(c, s1, between, |s.history|);
    var s2 := After(c, s1, between);
    InvalidationWorksIff(c, Next(c, s2, Invalidate(x)), |s.history|);
  }
}
