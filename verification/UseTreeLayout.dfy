/** Exactly when the expansion of a `use` tree is right. */
module UseTreeLayout {
  import opened UseTree
  import opened UseTreeProofs
  import opened UseTreeTheorem

  // ---------------------------------------------------------------- tight layouts are right

  lemma JoinCons(seg: string, more: seq<string>)
    ensures Join([seg] + more) == if more == [] then seg else seg + "::" + Join(more)
  {
    assert ([seg] + more)[1..] == more;
  }

  lemma TightStep(seg: string, rest: string)
    ensures "" + ("::" + ("" + (seg + rest))) == "::" + (seg + rest) && seg + "" == seg
  {
  }

  lemma Assoc(a: string, b: string, d: string)
    ensures a + (b + d) == a + b + d
  {
  }

  lemma {:induction false} TightStepsText(steps: seq<Step>)
    requires TightSteps(steps) && steps != []
    ensures StepsText(steps) == "::" + Join(StepSegs(steps))
  {
    var st, rest := steps[0], steps[1..];
    assert st.before == "" && st.after == "";
    TightStep(st.seg, StepsText(rest));
    JoinCons(st.seg, StepSegs(rest));
    if rest != [] {
      TightStepsText(rest);
      Assoc(st.seg, "::", Join(StepSegs(rest)));
    }
  }

  lemma TightPathText(p: Path)
    requires TightPath(p)
    ensures PathText(p) == Join(Segs(p))
  {
    if p.rest == [] {
      assert p.first + "" == p.first && Segs(p) == [p.first];
    } else {
      TightStepsText(p.rest);
      assert Segs(p)[1..] == StepSegs(p.rest);
      assert p.first + ("::" + Join(StepSegs(p.rest))) == p.first + "::" + Join(StepSegs(p.rest));
    }
  }

  lemma {:induction false} JoinAppend(p: seq<string>, q: seq<string>)
    requires p != [] && q != []
    ensures Join(p + q) == Join(p) + "::" + Join(q)
  {
    if |p| == 1 {
      assert (p + q)[1..] == q;
    } else {
      assert (p + q)[1..] == p[1..] + q;
      JoinAppend(p[1..], q);
    }
  }

  /** Segment lists of at least one non-empty segment. */
  ghost predicate Real(path: seq<string>) { path != [] && forall i :: 0 <= i < |path| ==> path[i] != "" }

  ghost predicate AllReal(paths: seq<seq<string>>) { forall i :: 0 <= i < |paths| ==> Real(paths[i]) }

  lemma {:induction false} JoinReal(path: seq<string>)
    requires Real(path)
    ensures Join(path) != ""
  {
  }

  /** Text prefixing is segment prefixing. */
  lemma {:induction false} AttachUnder(p: seq<string>, paths: seq<seq<string>>)
    requires (p == [] || Real(p)) && AllReal(paths)
    ensures AttachAll(Join(p), JoinAll(paths)) == JoinAll(Under(p, paths))
  {
    if paths != [] {
      assert Real(paths[0]);
      JoinReal(paths[0]);
      if p == [] {
        assert p + paths[0] == paths[0];
      } else {
        JoinReal(p);
        JoinAppend(p, paths[0]);
      }
      AttachUnder(p, paths[1..]);
    }
  }

  lemma {:induction false} StepSegsReal(steps: seq<Step>)
    requires ValidSteps(steps)
    ensures forall i :: 0 <= i < |StepSegs(steps)| ==> StepSegs(steps)[i] != ""
  {
    if steps != [] {
      assert ValidStep(steps[0]);
      StepSegsReal(steps[1..]);
    }
  }

  lemma SegsReal(p: Path)
    requires ValidPath(p)
    ensures Real(Segs(p))
  {
    StepSegsReal(p.rest);
  }

  lemma {:induction false} UnderReal(p: seq<string>, paths: seq<seq<string>>)
    requires (p == [] || Real(p)) && AllReal(paths)
    ensures AllReal(Under(p, paths))
  {
    if paths != [] {
      assert Real(paths[0]);
      UnderReal(p, paths[1..]);
    }
  }

  lemma {:induction false} PathsReal(t: Tree)
    requires Valid(t)
    ensures AllReal(FullPaths(t))
    decreases t
  {
    match t {
      case Leaf(path, _) => SegsReal(path);
      case Group(prefix, items) =>
        ItemPathsReal(items);
        if prefix.Prefix? { SegsReal(prefix.path); }
        UnderReal(PrefixSegs(prefix), ItemPaths(items));
    }
  }

  lemma {:induction false} ItemPathsReal(items: Items)
    requires ValidItems(items)
    ensures AllReal(ItemPaths(items))
    decreases items
  {
    match items {
      case End =>
      case More(Blank(_), rest) => ItemPathsReal(rest);
      case More(Entry(_, tree, _), rest) => PathsReal(tree); ItemPathsReal(rest);
    }
  }

  lemma {:induction false} JoinAllConcat(x: seq<seq<string>>, y: seq<seq<string>>)
    ensures JoinAll(x + y) == JoinAll(x) + JoinAll(y)
  {
    if x == [] {
      assert x + y == y;
    } else {
      assert (x + y)[1..] == x[1..] + y;
      JoinAllConcat(x[1..], y);
    }
  }

  lemma TightPrefixText(p: Prefix)
    requires ValidPrefix(p) && TightPrefix(p)
    ensures KeptPrefix(p) == Join(PrefixSegs(p)) && (PrefixSegs(p) == [] || Real(PrefixSegs(p)))
  {
    if p.Prefix? {
      TightPathText(p.path);
      SegsReal(p.path);
    }
  }

  lemma {:induction false} TightIsRight(t: Tree)
    requires Valid(t) && Tight(t)
    ensures CodePaths(t) == JoinAll(FullPaths(t))
    decreases t
  {
    match t {
      case Leaf(path, _) =>
        TightPathText(path);
        assert [Segs(path)][1..] == [];
      case Group(prefix, items) =>
        SameCount(t);
        SameItemCount(items);
        if ItemPaths(items) != [] {
          TightItemsAreRight(items);
          TightPrefixText(prefix);
          ItemPathsReal(items);
          AttachUnder(PrefixSegs(prefix), ItemPaths(items));
        } else {
          assert CodeItems(items) == [];
        }
    }
  }

  lemma {:induction false} TightItemsAreRight(items: Items)
    requires ValidItems(items) && TightItems(items)
    ensures CodeItems(items) == JoinAll(ItemPaths(items))
    decreases items
  {
    match items {
      case End =>
      case More(Blank(_), rest) => TightItemsAreRight(rest);
      case More(Entry(_, tree, _), rest) =>
        TightIsRight(tree);
        TightItemsAreRight(rest);
        JoinAllConcat(FullPaths(tree), ItemPaths(rest));
    }
  }

  // ---------------------------------------------------------------- counts and lengths

  ghost predicate NoneEmpty(ss: seq<string>) { forall i :: 0 <= i < |ss| ==> ss[i] != "" }

  lemma {:induction false} AttachCount(prefix: string, ss: seq<string>)
    ensures |AttachAll(prefix, ss)| == |ss|
  {
    if ss != [] { AttachCount(prefix, ss[1..]); }
  }

  lemma {:induction false} UnderCount(p: seq<string>, paths: seq<seq<string>>)
    ensures |Under(p, paths)| == |paths|
  {
    if paths != [] { UnderCount(p, paths[1..]); }
  }

  lemma {:induction false} SameCount(t: Tree)
    ensures |CodePaths(t)| == |FullPaths(t)|
    decreases t
  {
    match t {
      case Leaf(_, _) =>
      case Group(prefix, items) =>
        SameItemCount(items);
        AttachCount(KeptPrefix(prefix), CodeItems(items));
        UnderCount(PrefixSegs(prefix), ItemPaths(items));
    }
  }

  lemma {:induction false} SameItemCount(items: Items)
    ensures |CodeItems(items)| == |ItemPaths(items)|
    decreases items
  {
    match items {
      case End =>
      case More(Blank(_), rest) => SameItemCount(rest);
      case More(Entry(_, tree, _), rest) => SameCount(tree); SameItemCount(rest);
    }
  }

  function Total(ss: seq<string>): nat { if ss == [] then 0 else |ss[0]| + Total(ss[1..]) }

  lemma {:induction false} TotalConcat(x: seq<string>, y: seq<string>)
    ensures Total(x + y) == Total(x) + Total(y)
  {
    if x == [] {
      assert x + y == y;
    } else {
      assert (x + y)[1..] == x[1..] + y;
      TotalConcat(x[1..], y);
    }
  }

  /** `n` times `w`. */
  function Times(n: nat, w: nat): nat { if n == 0 then 0 else w + Times(n - 1, w) }

  lemma {:induction false} TimesMore(n: nat, a: nat, b: nat)
    requires a >= b
    ensures Times(n, a) >= Times(n, b) && (n > 0 && a > b ==> Times(n, a) > Times(n, b))
  {
    if n > 0 { TimesMore(n - 1, a, b); }
  }

  lemma AttachOne(prefix: string, s: string)
    requires prefix != "" && s != ""
    ensures |Attach(prefix, s)| == |s| + (|prefix| + 2) && Attach(prefix, s) != ""
  {
  }

  /** What a prefix adds to each path below it. */
  lemma {:induction false} AttachTotal(prefix: string, ss: seq<string>)
    requires prefix != "" && NoneEmpty(ss)
    ensures Total(AttachAll(prefix, ss)) == Total(ss) + Times(|ss|, |prefix| + 2) && NoneEmpty(AttachAll(prefix, ss))
  {
    if ss != [] {
      AttachOne(prefix, ss[0]);
      AttachTotal(prefix, ss[1..]);
      TotalCons(Attach(prefix, ss[0]), AttachAll(prefix, ss[1..]));
    }
  }

  lemma TotalOne(s: string)
    ensures Total([s]) == |s|
  {
    assert [s][1..] == [];
  }

  lemma TotalCons(s: string, rest: seq<string>)
    ensures Total([s] + rest) == |s| + Total(rest) && (s != "" && NoneEmpty(rest) ==> NoneEmpty([s] + rest))
  {
    assert ([s] + rest)[1..] == rest;
  }

  lemma {:induction false} AttachNothing(ss: seq<string>)
    ensures AttachAll("", ss) == ss
  {
    if ss != [] { AttachNothing(ss[1..]); }
  }

  lemma KeptNotEmpty(p: Prefix)
    requires ValidPrefix(p) && p.Prefix?
    ensures KeptPrefix(p) != ""
  {
    PathChars(p.path);
  }

  lemma {:induction false} CodeNotEmpty(t: Tree)
    requires Valid(t)
    ensures NoneEmpty(CodePaths(t))
    decreases t
  {
    match t {
      case Leaf(path, _) => PathChars(path);
      case Group(prefix, items) =>
        CodeItemsNotEmpty(items);
        if prefix.NoPrefix? {
          AttachNothing(CodeItems(items));
        } else {
          KeptNotEmpty(prefix);
          AttachTotal(KeptPrefix(prefix), CodeItems(items));
        }
    }
  }

  lemma {:induction false} CodeItemsNotEmpty(items: Items)
    requires ValidItems(items)
    ensures NoneEmpty(CodeItems(items))
    decreases items
  {
    match items {
      case End =>
      case More(Blank(_), rest) => CodeItemsNotEmpty(rest);
      case More(Entry(_, tree, _), rest) => CodeNotEmpty(tree); CodeItemsNotEmpty(rest);
    }
  }

  lemma {:induction false} JoinAllNotEmpty(paths: seq<seq<string>>)
    requires AllReal(paths)
    ensures NoneEmpty(JoinAll(paths)) && |JoinAll(paths)| == |paths|
  {
    if paths != [] {
      assert Real(paths[0]);
      JoinReal(paths[0]);
      JoinAllNotEmpty(paths[1..]);
    }
  }

  // ---------------------------------------------------------------- loose layouts are longer

  lemma {:induction false} LooseSteps(steps: seq<Step>)
    requires steps != []
    ensures |StepsText(steps)| >= 2 + |Join(StepSegs(steps))|
    ensures !TightSteps(steps) ==> |StepsText(steps)| > 2 + |Join(StepSegs(steps))|
  {
    var rest := steps[1..];
    assert StepSegs(steps)[1..] == StepSegs(rest);
    if rest != [] {
      LooseSteps(rest);
    } else {
      assert StepsText(rest) == "" && StepSegs(rest) == [];
    }
    if !TightSteps(steps) {
      var i :| 0 <= i < |steps| && !(steps[i].before == "" && steps[i].after == "");
      assert i > 0 ==> rest[i - 1] == steps[i];
    }
  }

  lemma LoosePath(p: Path)
    ensures |PathText(p)| >= |Join(Segs(p))| && (!TightPath(p) ==> |PathText(p)| > |Join(Segs(p))|)
  {
    if p.rest == [] {
      assert Segs(p) == [p.first];
    } else {
      LooseSteps(p.rest);
      assert Segs(p)[1..] == StepSegs(p.rest);
    }
  }

  lemma LoosePrefix(p: Prefix)
    requires p.Prefix?
    ensures |KeptPrefix(p)| >= |Join(PrefixSegs(p))| && (!TightPrefix(p) ==> |KeptPrefix(p)| > |Join(PrefixSegs(p))|)
  {
    LoosePath(p.path);
  }

  ghost predicate Longer(code: seq<string>, right: seq<string>, tight: bool) {
    Total(code) >= Total(right) && (!tight ==> Total(code) > Total(right))
  }

  lemma LongerSums(a: nat, wa: nat, b: nat, wb: nat, n: nat, tightPrefix: bool, tightItems: bool, x: seq<string>, y: seq<string>)
    requires Total(x) == a + wa && Total(y) == b + wb
    requires a >= b && wa >= wb && (!tightItems ==> a > b) && (n > 0 && !tightPrefix ==> wa > wb)
    ensures Longer(x, y, n == 0 || (tightPrefix && tightItems))
  {
  }

  /** Both sides hold the same number of paths, none of them empty. */
  lemma Sides(items: Items)
    requires ValidItems(items)
    ensures |CodeItems(items)| == |ItemPaths(items)| == |JoinAll(ItemPaths(items))|
    ensures NoneEmpty(CodeItems(items)) && NoneEmpty(JoinAll(ItemPaths(items)))
  {
    SameItemCount(items);
    CodeItemsNotEmpty(items);
    ItemPathsReal(items);
    JoinAllNotEmpty(ItemPaths(items));
  }

  lemma PrefixTexts(prefix: Prefix)
    requires ValidPrefix(prefix) && prefix.Prefix?
    ensures KeptPrefix(prefix) != "" && Join(PrefixSegs(prefix)) != ""
    ensures |KeptPrefix(prefix)| >= |Join(PrefixSegs(prefix))| && (!TightPrefix(prefix) ==> |KeptPrefix(prefix)| > |Join(PrefixSegs(prefix))|)
  {
    KeptNotEmpty(prefix);
    SegsReal(prefix.path);
    JoinReal(PrefixSegs(prefix));
    LoosePrefix(prefix);
  }

  lemma Weights(kept: string, right: string, code: seq<string>, paths: seq<string>) returns (wa: nat, wb: nat)
    requires kept != "" && right != "" && |kept| >= |right| && NoneEmpty(code) && NoneEmpty(paths) && |code| == |paths|
    ensures Total(AttachAll(kept, code)) == Total(code) + wa && Total(AttachAll(right, paths)) == Total(paths) + wb
    ensures wa >= wb && (|paths| > 0 && |kept| > |right| ==> wa > wb)
  {
    AttachTotal(kept, code);
    AttachTotal(right, paths);
    wa, wb := Times(|code|, |kept| + 2), Times(|paths|, |right| + 2);
    TimesMore(|code|, |kept| + 2, |right| + 2);
  }

  lemma LongerUnder(prefix: Prefix, items: Items)
    requires ValidPrefix(prefix) && ValidItems(items) && Longer(CodeItems(items), JoinAll(ItemPaths(items)), TightItems(items))
    ensures Longer(AttachAll(KeptPrefix(prefix), CodeItems(items)), AttachAll(Join(PrefixSegs(prefix)), JoinAll(ItemPaths(items))),
                   ItemPaths(items) == [] || (TightPrefix(prefix) && TightItems(items)))
  {
    var code, right := CodeItems(items), JoinAll(ItemPaths(items));
    if prefix.NoPrefix? {
      AttachNothing(code);
      AttachNothing(right);
    } else {
      Sides(items);
      PrefixTexts(prefix);
      var wa, wb := Weights(KeptPrefix(prefix), Join(PrefixSegs(prefix)), code, right);
      LongerSums(Total(code), wa, Total(right), wb, |right|, TightPrefix(prefix), TightItems(items),
                 AttachAll(KeptPrefix(prefix), code), AttachAll(Join(PrefixSegs(prefix)), right));
    }
  }

  lemma {:induction false} LooseIsLonger(t: Tree)
    requires Valid(t)
    ensures Longer(CodePaths(t), JoinAll(FullPaths(t)), Tight(t))
    decreases t
  {
    match t {
      case Leaf(path, _) =>
        LoosePath(path);
        assert [Segs(path)][1..] == [] && JoinAll([Segs(path)]) == [Join(Segs(path))];
        TotalOne(PathText(path));
        TotalOne(Join(Segs(path)));
      case Group(prefix, items) =>
        LooseItemsAreLonger(items);
        LongerUnder(prefix, items);
        ItemPathsReal(items);
        if prefix.Prefix? { SegsReal(prefix.path); }
        AttachUnder(PrefixSegs(prefix), ItemPaths(items));
    }
  }

  lemma {:induction false} LooseItemsAreLonger(items: Items)
    requires ValidItems(items)
    ensures Longer(CodeItems(items), JoinAll(ItemPaths(items)), TightItems(items))
    decreases items
  {
    match items {
      case End =>
      case More(Blank(_), rest) => LooseItemsAreLonger(rest);
      case More(Entry(_, tree, _), rest) =>
        LooseIsLonger(tree);
        LooseItemsAreLonger(rest);
        JoinAllConcat(FullPaths(tree), ItemPaths(rest));
        TotalConcat(CodePaths(tree), CodeItems(rest));
        TotalConcat(JoinAll(FullPaths(tree)), JoinAll(ItemPaths(rest)));
    }
  }

  // ---------------------------------------------------------------- exactly when it is right

  /** Printing any valid tree and expanding the text yields exactly the tree's full paths, in
      order, with the aliases dropped, if and only if there are no blanks around the `::` of a
      path, nor between the `::` and the brace of a group, wherever something is imported.
      Blanks around items, braces and aliases, before a group's `::`, and around the whole are
      all harmless. */
  lemma ExpandIsRightIff(t: Tree, before: string, after: string)
    requires Valid(t) && AllSpace(before) && AllSpace(after)
    ensures Expand(before + (Print(t, "") + after)) == JoinAll(FullPaths(t)) <==> Tight(t)
  {
    ExpandPrinted(t, before, after);
    if Tight(t) {
      TightIsRight(t);
    } else {
      LooseIsLonger(t);
    }
  }

  /** A group of one bare segment. */
  function GroupOfOne(prefix: Prefix, seg: string): Tree { Group(prefix, More(Entry("", Leaf(Path(seg, []), NoAlias), ""), End)) }

  lemma PrintOfOne(prefix: Prefix, seg: string)
    ensures Print(GroupOfOne(prefix, seg), "") == PrintPrefix(prefix) + ("{" + (seg + "}"))
  {
    var leaf := Leaf(Path(seg, []), NoAlias);
    assert "}" + "" == "}" && "" + "}" == "}" && seg + "" == seg && "" + (seg + "}") == seg + "}";
    assert PathText(leaf.path) == seg;
    assert Print(leaf, "" + "}") == seg + "}";
    assert PrintItem(Entry("", leaf, ""), "}") == seg + "}";
    assert PrintItems(More(Entry("", leaf, ""), End), "}") == seg + "}";
  }

  lemma CodeOfOne(prefix: Prefix, seg: string)
    ensures CodePaths(GroupOfOne(prefix, seg)) == [Attach(KeptPrefix(prefix), seg)]
  {
    var leaf := Leaf(Path(seg, []), NoAlias);
    assert seg + "" == seg && CodePaths(leaf) == [seg];
    assert CodeItems(End) == [] && [seg] + [] == [seg];
    assert CodeItems(More(Entry("", leaf, ""), End)) == [seg];
    assert [seg][1..] == [] && AttachAll(KeptPrefix(prefix), []) == [];
  }

  /** Whatever the path and however many blanks before the brace, a stray `::` is left behind. */
  lemma BlanksBeforeBrace(path: Path, pad: string, seg: string)
    requires ValidPath(path) && AllSpace(pad) && pad != "" && Segment(seg)
    ensures Expand(PathText(path) + ("::" + pad) + ("{" + (seg + "}"))) == [PathText(path) + "::" + "::" + seg]
  {
    var prefix := Prefix(path, "", pad);
    var t := GroupOfOne(prefix, seg);
    assert Valid(Leaf(Path(seg, []), NoAlias)) && Valid(t);
    PrintOfOne(prefix, seg);
    CodeOfOne(prefix, seg);
    assert "" + ("::" + pad) == "::" + pad && "" + "::" == "::";
    KeptNotEmpty(prefix);
    ExpandPrinted(t, "", "");
    assert "" + (Print(t, "") + "") == Print(t, "");
  }

  /** The smallest such input is `a:: {b}`. */
  lemma BlankBeforeBrace(s: string)
    requires s == "a" + ("::" + " ") + ("{" + ("b" + "}"))
    ensures Expand(s) == ["a" + "::" + "::" + "b"]
  {
    var path := Path("a", []);
    assert Segment("a") && Segment("b") && AllSpace(" ") && ValidSteps([]);
    assert PathText(path) == "a" + "" == "a";
    BlanksBeforeBrace(path, " ", "b");
  }
}
