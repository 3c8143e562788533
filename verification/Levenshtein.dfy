/**
 `levenshtein`: the rolling two-row table, proved to compute the length of a shortest script of
 single-byte insertions, deletions and substitutions, and `suggest_similar` on top of it.
 */
module Levenshtein {

  type Byte = x: int | 0 <= x < 256

  type Bytes = seq<Byte>

  // ---------------------------------------------------------------- the reference: edit scripts

  datatype Edit = Insert(at: nat, b: Byte) | Delete(at: nat) | Substitute(at: nat, b: Byte)

  predicate Fits(e: Edit, s: Bytes) {
    match e
    case Insert(at, _) => at <= |s|
    case Delete(at) => at < |s|
    case Substitute(at, _) => at < |s|
  }

  function Apply(e: Edit, s: Bytes): Bytes
    requires Fits(e, s)
  {
    match e
    case Insert(at, b) => s[..at] + [b] + s[at..]
    case Delete(at) => s[..at] + s[at + 1..]
    case Substitute(at, b) => s[at := b]
  }

  /** `script` turns `a` into `b`, one edit at a time. */
  predicate Turns(a: Bytes, script: seq<Edit>, b: Bytes)
    decreases |script|
  {
    if script == [] then a == b
    else Fits(script[0], a) && Turns(Apply(script[0], a), script[1..], b)
  }

  // ---------------------------------------------------------------- the recurrence

  function Min(x: nat, y: nat): nat { if x <= y then x else y }

  function Cost(x: Byte, y: Byte): nat { if x == y then 0 else 1 }

  function Init(s: Bytes): Bytes
    requires s != []
  {
    s[..|s| - 1]
  }

  function Last(s: Bytes): Byte
    requires s != []
  {
    s[|s| - 1]
  }

  /** The table the two rows sweep: distance between prefixes, from their last bytes. */
  function Distance(a: Bytes, b: Bytes): nat
    decreases |a| + |b|
  {
    if a == [] then |b|
    else if b == [] then |a|
    else Min(Min(Distance(Init(a), b) + 1, Distance(a, Init(b)) + 1), Distance(Init(a), Init(b)) + Cost(Last(a), Last(b)))
  }

  // ---------------------------------------------------------------- no script beats the recurrence

  lemma AppendOne(a: Bytes, b: Bytes, x: Byte)
    ensures Distance(a + [x], b) <= Distance(a, b) + 1
    ensures Distance(a, b + [x]) <= Distance(a, b) + 1
  {
    assert Init(a + [x]) == a && Init(b + [x]) == b;
  }

  lemma InitFarther(a: Bytes, b: Bytes)
    requires b != []
    ensures Distance(a, b) <= Distance(a, Init(b)) + 1
  {
  }

  lemma {:induction false} DropOne(a: Bytes, b: Bytes, x: Byte)
    ensures Distance(a, b) <= Distance(a + [x], b) + 1
    decreases |b|
  {
    assert Init(a + [x]) == a;
    if b != [] {
      DropOne(a, Init(b), x);
      InitFarther(a, b);
    }
  }

  /** Two strings that differ in one place, followed by the same tail. */
  lemma {:induction false} TailOfNear(a: Bytes, m: Bytes, tail: Bytes, b: Bytes)
    requires forall b' :: Distance(a, b') <= Distance(m, b') + 1
    ensures Distance(a + tail, b) <= Distance(m + tail, b) + 1
    decreases |tail| + |b|
  {
    if tail == [] {
      assert a + tail == a && m + tail == m;
    } else {
      var t := Init(tail);
      assert Init(a + tail) == a + t && Init(m + tail) == m + t && Last(a + tail) == Last(tail) == Last(m + tail);
      TailOfNear(a, m, t, b);
      if b != [] {
        TailOfNear(a, m, tail, Init(b));
        TailOfNear(a, m, t, Init(b));
      } else {
        assert Distance(a, []) == |a| && Distance(m, []) == |m|;
      }
    }
  }

  lemma {:induction false} SubstituteLast(a: Bytes, b: Bytes, x: Byte, y: Byte)
    ensures Distance(a + [x], b) <= Distance(a + [y], b) + 1
    decreases |b|
  {
    assert Init(a + [x]) == a && Init(a + [y]) == a;
    if b != [] {
      SubstituteLast(a, Init(b), x, y);
      DropOne(a, b, y);
    }
  }

  lemma OneInsert(p: Bytes, x: Byte, q: Bytes, b: Bytes)
    ensures Distance(p + q, b) <= Distance(p + [x] + q, b) + 1
  {
    forall b' ensures Distance(p, b') <= Distance(p + [x], b') + 1 { DropOne(p, b', x); }
    TailOfNear(p, p + [x], q, b);
  }

  lemma OneDelete(p: Bytes, x: Byte, q: Bytes, b: Bytes)
    ensures Distance(p + [x] + q, b) <= Distance(p + q, b) + 1
  {
    forall b' ensures Distance(p + [x], b') <= Distance(p, b') + 1 { AppendOne(p, b', x); }
    TailOfNear(p + [x], p, q, b);
  }

  lemma OneSubstitute(p: Bytes, x: Byte, y: Byte, q: Bytes, b: Bytes)
    ensures Distance(p + [x] + q, b) <= Distance(p + [y] + q, b) + 1
  {
    forall b' ensures Distance(p + [x], b') <= Distance(p + [y], b') + 1 { SubstituteLast(p, b', x, y); }
    TailOfNear(p + [x], p + [y], q, b);
  }

  /** One edit changes the distance to any target by at most one. */
  lemma OneEdit(e: Edit, a: Bytes, b: Bytes)
    requires Fits(e, a)
    ensures Distance(a, b) <= Distance(Apply(e, a), b) + 1
  {
    match e {
      case Insert(at, x) =>
        assert a[..at] + a[at..] == a;
        OneInsert(a[..at], x, a[at..], b);
      case Delete(at) =>
        assert a[..at] + [a[at]] + a[at + 1..] == a;
        OneDelete(a[..at], a[at], a[at + 1..], b);
      case Substitute(at, x) =>
        assert a[..at] + [a[at]] + a[at + 1..] == a;
        assert a[..at] + [x] + a[at + 1..] == Apply(e, a);
        OneSubstitute(a[..at], a[at], x, a[at + 1..], b);
    }
  }

  lemma {:induction false} DistanceSelf(a: Bytes)
    ensures Distance(a, a) == 0
  {
    if a != [] { DistanceSelf(Init(a)); }
  }

  lemma {:induction false} NoShorterScript(a: Bytes, script: seq<Edit>, b: Bytes)
    requires Turns(a, script, b)
    ensures Distance(a, b) <= |script|
    decreases |script|
  {
    if script == [] {
      DistanceSelf(a);
    } else {
      NoShorterScript(Apply(script[0], a), script[1..], b);
      OneEdit(script[0], a, b);
    }
  }

  // ---------------------------------------------------------------- some script attains it

  lemma {:induction false} TurnsTrans(a: Bytes, p: seq<Edit>, m: Bytes, q: seq<Edit>, b: Bytes)
    requires Turns(a, p, m) && Turns(m, q, b)
    ensures Turns(a, p + q, b)
    decreases |p|
  {
    if p == [] {
      assert p + q == q;
    } else {
      TurnsTrans(Apply(p[0], a), p[1..], m, q, b);
      assert (p + q)[1..] == p[1..] + q;
    }
  }

  /** A script works the same in front of an untouched byte. */
  lemma {:induction false} TurnsBefore(a: Bytes, script: seq<Edit>, b: Bytes, x: Byte)
    requires Turns(a, script, b)
    ensures Turns(a + [x], script, b + [x])
    decreases |script|
  {
    if script != [] {
      assert Apply(script[0], a + [x]) == Apply(script[0], a) + [x];
      TurnsBefore(Apply(script[0], a), script[1..], b, x);
    }
  }

  lemma {:induction false} BestScript(a: Bytes, b: Bytes) returns (script: seq<Edit>)
    ensures Turns(a, script, b) && |script| == Distance(a, b)
    decreases |a| + |b|, 1
  {
    if a == [] && b == [] {
      script := [];
    } else if a == [] {
      script := InsertLast(a, b);
    } else if b == [] {
      script := DeleteLast(a, b);
    } else if Distance(a, b) == Distance(Init(a), b) + 1 {
      script := DeleteLast(a, b);
    } else if Distance(a, b) == Distance(a, Init(b)) + 1 {
      script := InsertLast(a, b);
    } else {
      script := AlignLast(a, b);
    }
  }

  lemma {:induction false} AlignLast(a: Bytes, b: Bytes) returns (script: seq<Edit>)
    requires a != [] && b != []
    ensures Turns(a, script, b) && |script| == Distance(Init(a), Init(b)) + Cost(Last(a), Last(b))
    decreases |a| + |b|, 0
  {
    var rest := BestScript(Init(a), Init(b));
    script := FixEnds(a, rest, b);
  }

  lemma InitLast(a: Bytes)
    requires a != []
    ensures Init(a) + [Last(a)] == a
  {
  }

  lemma FixEnds(a: Bytes, rest: seq<Edit>, b: Bytes) returns (script: seq<Edit>)
    requires a != [] && b != [] && Turns(Init(a), rest, Init(b))
    ensures Turns(a, script, b) && |script| == |rest| + Cost(Last(a), Last(b))
  {
    InitLast(a);
    InitLast(b);
    script := FixLast(Init(a), rest, Init(b), Last(a), Last(b));
  }

  lemma OneStep(e: Edit, s: Bytes, t: Bytes)
    requires Fits(e, s) && Apply(e, s) == t
    ensures Turns(s, [e], t)
  {
    assert [e][1..] == [];
  }

  lemma FixLast(a: Bytes, rest: seq<Edit>, b: Bytes, x: Byte, y: Byte) returns (script: seq<Edit>)
    requires Turns(a, rest, b)
    ensures Turns(a + [x], script, b + [y]) && |script| == |rest| + Cost(x, y)
  {
    TurnsBefore(a, rest, b, x);
    if x == y {
      script := rest;
    } else {
      var e := Substitute(|b|, y);
      OneStep(e, b + [x], b + [y]);
      TurnsTrans(a + [x], rest, b + [x], [e], b + [y]);
      script := rest + [e];
    }
  }

  lemma {:induction false} DeleteLast(a: Bytes, b: Bytes) returns (script: seq<Edit>)
    requires a != []
    ensures Turns(a, script, b) && |script| == Distance(Init(a), b) + 1
    decreases |a| + |b|, 0
  {
    var rest := BestScript(Init(a), b);
    script := [Delete(|a| - 1)] + rest;
    assert Apply(script[0], a) == Init(a) && script[1..] == rest;
  }

  lemma {:induction false} InsertLast(a: Bytes, b: Bytes) returns (script: seq<Edit>)
    requires b != []
    ensures Turns(a, script, b) && |script| == Distance(a, Init(b)) + 1
    decreases |a| + |b|, 0
  {
    var rest := BestScript(a, Init(b));
    var e := Insert(|b| - 1, Last(b));
    OneStep(e, Init(b), b);
    TurnsTrans(a, rest, Init(b), [e], b);
    script := rest + [e];
  }

  // ---------------------------------------------------------------- what the distance is

  /** `d` is the length of a shortest script from `a` to `b`. */
  ghost predicate Shortest(a: Bytes, b: Bytes, d: nat) {
    && (exists script :: Turns(a, script, b) && |script| == d)
    && (forall script :: Turns(a, script, b) ==> d <= |script|)
  }

  lemma DistanceIsShortest(a: Bytes, b: Bytes)
    ensures Shortest(a, b, Distance(a, b))
  {
    var best := BestScript(a, b);
    forall script | Turns(a, script, b) ensures Distance(a, b) <= |script| { NoShorterScript(a, script, b); }
  }

  /** Undoing one edit. */
  function Undo(e: Edit, s: Bytes): Edit
    requires Fits(e, s)
  {
    match e
    case Insert(at, _) => Delete(at)
    case Delete(at) => Insert(at, s[at])
    case Substitute(at, _) => Substitute(at, s[at])
  }

  lemma {:induction false} TurnsBack(a: Bytes, script: seq<Edit>, b: Bytes) returns (back: seq<Edit>)
    requires Turns(a, script, b)
    ensures Turns(b, back, a) && |back| == |script|
    decreases |script|
  {
    if script == [] {
      back := [];
    } else {
      var e, m := script[0], Apply(script[0], a);
      var rest := TurnsBack(m, script[1..], b);
      OneStep(Undo(e, a), m, a);
      TurnsTrans(b, rest, m, [Undo(e, a)], a);
      back := rest + [Undo(e, a)];
    }
  }

  /** The distance is a metric: zero exactly on equal strings, symmetric, triangle inequality. */
  lemma DistanceIsMetric(a: Bytes, b: Bytes, c: Bytes)
    ensures Distance(a, b) == 0 <==> a == b
    ensures Distance(a, b) == Distance(b, a)
    ensures Distance(a, c) <= Distance(a, b) + Distance(b, c)
  {
    DistanceSelf(a);
    var ab := BestScript(a, b);
    var ba := BestScript(b, a);
    var bc := BestScript(b, c);
    var ba' := TurnsBack(a, ab, b);
    var ab' := TurnsBack(b, ba, a);
    NoShorterScript(b, ba', a);
    NoShorterScript(a, ab', b);
    TurnsTrans(a, ab, b, bc, c);
    NoShorterScript(a, ab + bc, c);
  }

  // ---------------------------------------------------------------- the code

  /** The table cell for the first `i` bytes of `a` and the first `j` of `b`. */
  ghost function Cell(a: Bytes, b: Bytes, i: nat, j: nat): nat
    requires i <= |a| && j <= |b|
  {
    Distance(a[..i], b[..j])
  }

  lemma CellStep(a: Bytes, b: Bytes, i: nat, j: nat)
    requires i <= |a| && j <= |b|
    ensures i == 0 ==> Cell(a, b, i, j) == j
    ensures j == 0 ==> Cell(a, b, i, j) == i
    ensures i > 0 && j > 0 ==>
              Cell(a, b, i, j) == Min(Min(Cell(a, b, i - 1, j) + 1, Cell(a, b, i, j - 1) + 1),
                                      Cell(a, b, i - 1, j - 1) + Cost(a[i - 1], b[j - 1]))
  {
    if i > 0 && j > 0 {
      assert Init(a[..i]) == a[..i - 1] && Init(b[..j]) == b[..j - 1];
    }
  }

  ghost predicate IsRow(a: Bytes, b: Bytes, i: nat, row: seq<nat>, n: nat)
    requires i <= |a| && n <= |b| + 1 && n <= |row|
  {
    forall j :: 0 <= j < n ==> row[j] == Cell(a, b, i, j)
  }

  /** The inner loop: one row from the previous one. */
  method FillRow(a: Bytes, b: Bytes, i: nat, prev: array<nat>, curr: array<nat>)
    requires 1 <= i <= |a| && prev != curr && prev.Length == curr.Length == |b| + 1
    requires IsRow(a, b, i - 1, prev[..], |b| + 1)
    modifies curr
    ensures IsRow(a, b, i, curr[..], |b| + 1)
  {
    curr[0] := i;
    CellStep(a, b, i, 0);
    for j := 1 to |b| + 1
      invariant IsRow(a, b, i - 1, prev[..], |b| + 1)
      invariant IsRow(a, b, i, curr[..], j)
    {
      var cost := if a[i - 1] == b[j - 1] then 0 else 1;
      CellStep(a, b, i, j);
      assert prev[..][j] == prev[j] && prev[..][j - 1] == prev[j - 1] && curr[..][j - 1] == curr[j - 1];
      ghost var was := curr[..];
      curr[j] := Min(Min(prev[j] + 1, curr[j - 1] + 1), prev[j - 1] + cost);
      assert curr[..] == was[j := curr[j]];
    }
  }

  method Compute(a: Bytes, b: Bytes) returns (d: nat)
    ensures Shortest(a, b, d)
    ensures d == Distance(a, b)
  {
    var prev := new nat[|b| + 1](j => j);
    var curr := new nat[|b| + 1](j => 0);
    forall j | 0 <= j <= |b| ensures prev[j] == Cell(a, b, 0, j) { CellStep(a, b, 0, j); }
    for i := 1 to |a| + 1
      invariant prev != curr && prev.Length == curr.Length == |b| + 1
      invariant fresh(prev) && fresh(curr)
      invariant IsRow(a, b, i - 1, prev[..], |b| + 1)
    {
      FillRow(a, b, i, prev, curr);
      prev, curr := curr, prev;
    }
    d := prev[|b|];
    assert prev[..][|b|] == d;
    assert a[..|a|] == a && b[..|b|] == b;
    DistanceIsShortest(a, b);
  }

  datatype Option<+T> = None | Some(value: T)

  const USIZE_MAX: nat := 0xffff_ffff_ffff_ffff

  /** `suggest_similar` without its message text: a nearest key, exactly when one lies within 3.
      The set is visited in an arbitrary order. */
  method SuggestSimilar(target: Bytes, keys: set<Bytes>) returns (best: Option<Bytes>)
    ensures best.Some? <==> exists k :: k in keys && Distance(target, k) <= 3
    ensures best.Some? ==> best.value in keys && forall k :: k in keys ==> Distance(target, best.value) <= Distance(target, k)
  {
    var d: nat, name: Bytes := USIZE_MAX, [];
    var rest := keys;
    while rest != {}
      invariant rest <= keys
      invariant forall k :: k in keys - rest ==> d <= Distance(target, k)
      invariant d < USIZE_MAX ==> name in keys && d == Distance(target, name)
      invariant d <= USIZE_MAX
      decreases rest
    {
      var k :| k in rest;
      var n := Compute(target, k);
      if n < d { d, name := n, k; }
      rest := rest - {k};
    }
    best := if d <= 3 then Some(name) else None;
  }
}
