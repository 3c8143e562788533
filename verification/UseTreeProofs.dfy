/** Printing a `use` tree and expanding the text gives back the tree's paths. */
module UseTreeProofs {
  import opened UseTree

  // ---------------------------------------------------------------- dropping aliases

  predicate NoSpaces(s: string) { forall i :: 0 <= i < |s| ==> !IsSpace(s[i]) }

  /** What follows a pad cannot be read as `as name`. */
  predicate NotAs(y: string) {
    (y == "" || !IsSpace(y[0])) && ("as" <= y ==> |y| == 2 || !IsSpace(y[2]))
  }

  lemma {:induction false} SpaceRunOf(pad: string, y: string)
    requires AllSpace(pad) && (y == "" || !IsSpace(y[0]))
    ensures SpaceRun(pad + y) == |pad|
    decreases |pad|
  {
    if pad == "" {
      assert pad + y == y;
    } else {
      assert (pad + y)[1..] == pad[1..] + y;
      SpaceRunOf(pad[1..], y);
    }
  }

  lemma {:induction false} IdentRunOf(x: string, y: string)
    requires (forall i :: 0 <= i < |x| ==> IdentChar(x[i])) && (y == "" || !IdentChar(y[0]))
    ensures IdentRun(x + y) == |x|
    decreases |x|
  {
    if x == "" {
      assert x + y == y;
    } else {
      assert (x + y)[1..] == x[1..] + y;
      IdentRunOf(x[1..], y);
    }
  }

  lemma MatchPad(pad: string, y: string)
    requires AllSpace(pad) && NotAs(y)
    ensures AliasMatch(pad + y) == 0
  {
    SpaceRunOf(pad, y);
    assert (pad + y)[|pad|..] == y;
    if "as" <= y { assert (pad + y)[|pad| + 2..] == y[2..]; }
  }

  lemma MatchForm(before: string, after: string, name: string, y: string)
    requires ValidAlias(As(before, after, name)) && (y == "" || !IdentChar(y[0]))
    ensures AliasMatch(before + ("as" + (after + (name + y)))) == |before| + 2 + |after| + |name|
  {
    var t3 := name + y;
    var t2 := after + t3;
    var t1 := "as" + t2;
    var s := before + t1;
    SpaceRunOf(before, t1);
    SpaceRunOf(after, t3);
    IdentRunOf(name, y);
    assert s[|before|..] == t1;
    assert s[|before| + 2..] == t2;
    assert s[|before| + 2 + |after|..] == t3;
  }

  lemma MatchAlias(a: Alias, y: string)
    requires a.As? && ValidAlias(a) && (y == "" || !IdentChar(y[0]))
    ensures AliasMatch(PrintAlias(a) + y) == |PrintAlias(a)|
  {
    MatchForm(a.before, a.after, a.name, y);
    assert PrintAlias(a) + y == a.before + ("as" + (a.after + (a.name + y)));
  }

  /** One unmatched character passes through. */
  lemma DropStep(m: string -> nat, s: string)
    requires s != "" && m(s) == 0
    ensures DropWith(m, s) == [s[0]] + DropWith(m, s[1..])
  {
  }

  /** Text at none of whose positions the pattern matches passes through. */
  lemma {:induction false} DropThrough(m: string -> nat, x: string, y: string)
    requires forall i :: 0 <= i < |x| ==> m(x[i..] + y) == 0
    ensures DropWith(m, x + y) == x + DropWith(m, y)
    decreases |x|
  {
    if x == "" {
      assert x + y == y;
    } else {
      assert x[0..] + y == x + y;
      DropStep(m, x + y);
      assert (x + y)[1..] == x[1..] + y;
      forall i | 0 <= i < |x[1..]| ensures m(x[1..][i..] + y) == 0 { assert x[1..][i..] == x[i + 1..]; }
      DropThrough(m, x[1..], y);
    }
  }

  /** Text without whitespace passes through. */
  lemma DropSolid(x: string, y: string)
    requires NoSpaces(x)
    ensures DropAliases(x + y) == x + DropAliases(y)
  {
    forall i | 0 <= i < |x| ensures AliasMatch(x[i..] + y) == 0 { assert SpaceRun(x[i..] + y) == 0; }
    DropThrough(AliasMatch, x, y);
  }

  /** Whitespace not followed by an alias passes through. */
  lemma DropPad(pad: string, y: string)
    requires AllSpace(pad) && NotAs(y)
    ensures DropAliases(pad + y) == pad + DropAliases(y)
  {
    forall i | 0 <= i < |pad| ensures AliasMatch(pad[i..] + y) == 0 { MatchPad(pad[i..], y); }
    DropThrough(AliasMatch, pad, y);
  }

  /** An alias disappears. */
  lemma DropAlias(a: Alias, y: string)
    requires ValidAlias(a) && (y == "" || !IdentChar(y[0]))
    ensures DropAliases(PrintAlias(a) + y) == DropAliases(y)
  {
    if a.NoAlias? {
      assert PrintAlias(a) + y == y;
    } else {
      MatchAlias(a, y);
      assert (PrintAlias(a) + y)[|PrintAlias(a)|..] == y;
    }
  }

  // ---------------------------------------------------------------- shapes of printed text

  predicate PathChar(c: char) { SegChar(c) || c == ':' || IsSpace(c) }

  lemma {:induction false} StepsChars(steps: seq<Step>)
    requires ValidSteps(steps)
    ensures forall i :: 0 <= i < |StepsText(steps)| ==> PathChar(StepsText(steps)[i])
    ensures steps != [] ==> StepsText(steps) != "" && SegChar(StepsText(steps)[|StepsText(steps)| - 1]) && !SegChar(StepsText(steps)[0])
  {
    if steps != [] {
      var st, rest := steps[0], StepsText(steps[1..]);
      assert ValidStep(st);
      StepsChars(steps[1..]);
      OneStepText(st.before, st.after, st.seg, rest);
    }
  }

  lemma OneStepText(before: string, after: string, seg: string, rest: string)
    requires AllSpace(before) && AllSpace(after) && Segment(seg)
    requires (forall i :: 0 <= i < |rest| ==> PathChar(rest[i])) && (rest != "" ==> SegChar(rest[|rest| - 1]))
    ensures var s := before + ("::" + (after + (seg + rest)));
            && (forall i :: 0 <= i < |s| ==> PathChar(s[i])) && s != "" && SegChar(s[|s| - 1]) && !SegChar(s[0])
  {
    var s := before + ("::" + (after + (seg + rest)));
    assert s[0] == if before != "" then before[0] else ':';
    assert s[|s| - 1] == if rest != "" then rest[|rest| - 1] else seg[|seg| - 1];
  }

  lemma PathChars(p: Path)
    requires ValidPath(p)
    ensures PathText(p) != "" && SegChar(PathText(p)[0]) && SegChar(PathText(p)[|PathText(p)| - 1])
    ensures forall i :: 0 <= i < |PathText(p)| ==> PathChar(PathText(p)[i])
  {
    StepsChars(p.rest);
    var s := PathText(p);
    assert s[0] == p.first[0];
    assert s[|s| - 1] == if p.rest == [] then p.first[|p.first| - 1] else StepsText(p.rest)[|StepsText(p.rest)| - 1];
  }

  predicate Stops(y: string) { y == "" || !SegChar(y[0]) }

  /** A segment followed by anything that is not a segment character is not read as an alias. */
  lemma SegNotAs(seg: string, y: string)
    requires Segment(seg) && Stops(y)
    ensures NotAs(seg + y)
  {
    var s := seg + y;
    assert s[0] == seg[0] && seg <= s;
    assert |s| > |seg| ==> s[|seg|] == y[0];
    assert |seg| == 2 ==> s[..2] == seg;
    assert |seg| > 2 ==> s[2] == seg[2];
  }

  lemma StepsStop(steps: seq<Step>, y: string)
    requires ValidSteps(steps) && Stops(y)
    ensures Stops(StepsText(steps) + y)
  {
    StepsChars(steps);
    if steps == [] {
      assert StepsText(steps) + y == y;
    } else {
      assert (StepsText(steps) + y)[0] == StepsText(steps)[0];
    }
  }

  /** A path followed by anything that is not a segment character is not read as an alias. */
  lemma PathNotAs(p: Path, y: string)
    requires ValidPath(p) && Stops(y)
    ensures NotAs(PathText(p) + y)
  {
    StepsStop(p.rest, y);
    SegNotAs(p.first, StepsText(p.rest) + y);
    assert p.first + (StepsText(p.rest) + y) == PathText(p) + y;
  }

  lemma PrefixPlain(p: Prefix)
    requires ValidPrefix(p)
    ensures Plain(PrintPrefix(p))
  {
    if p.Prefix? { PathChars(p.path); }
  }

  lemma PathPlain(p: Path)
    requires ValidPath(p)
    ensures Plain(PathText(p))
  {
    PathChars(p);
  }

  // ---------------------------------------------------------------- aliases pass paths by

  lemma {:induction false} DropSteps(steps: seq<Step>, y: string)
    requires ValidSteps(steps) && Stops(y)
    ensures DropAliases(StepsText(steps) + y) == StepsText(steps) + DropAliases(y)
  {
    if steps == [] {
      assert StepsText(steps) + y == y;
    } else {
      var st, rest := steps[0], StepsText(steps[1..]);
      assert ValidStep(st);
      DropSteps(steps[1..], y);
      StepsStop(steps[1..], y);
      DropOneStep(st.before, st.after, st.seg, rest + y);
      StepThen(st.before, st.after, st.seg, rest, y);
      StepThen(st.before, st.after, st.seg, rest, DropAliases(y));
    }
  }

  lemma StepThen(before: string, after: string, seg: string, rest: string, y: string)
    ensures before + ("::" + (after + (seg + rest))) + y == before + ("::" + (after + (seg + (rest + y))))
  {
  }

  lemma DropOneStep(before: string, after: string, seg: string, y: string)
    requires AllSpace(before) && AllSpace(after) && Segment(seg) && Stops(y)
    ensures DropAliases(before + ("::" + (after + (seg + y)))) == before + ("::" + (after + (seg + DropAliases(y))))
  {
    DropPad(before, "::" + (after + (seg + y)));
    DropSolid("::", after + (seg + y));
    SegNotAs(seg, y);
    DropPad(after, seg + y);
    DropSolid(seg, y);
  }

  lemma Shift3(a: string, b: string, y: string)
    ensures a + (b + y) == (a + b) + y
  {
  }

  lemma DropPath(p: Path, y: string)
    requires ValidPath(p) && Stops(y)
    ensures DropAliases(PathText(p) + y) == PathText(p) + DropAliases(y)
  {
    DropSolid(p.first, StepsText(p.rest) + y);
    DropSteps(p.rest, y);
    Shift3(p.first, StepsText(p.rest), y);
    Shift3(p.first, StepsText(p.rest), DropAliases(y));
  }

  lemma DropColons(before: string, after: string, z: string)
    requires AllSpace(before) && AllSpace(after) && NotAs(z)
    ensures DropAliases(before + ("::" + (after + z))) == before + ("::" + (after + DropAliases(z)))
    ensures Stops(before + ("::" + (after + z)))
  {
    DropPad(after, z);
    DropSolid("::", after + z);
    DropPad(before, "::" + (after + z));
    PadStops2(before, "::" + (after + z));
  }

  lemma DropPrefix(p: Prefix, y: string)
    requires ValidPrefix(p)
    ensures DropAliases(PrintPrefix(p) + ("{" + y)) == PrintPrefix(p) + ("{" + DropAliases(y))
  {
    DropSolid("{", y);
    if p.Prefix? {
      DropColons(p.before, p.after, "{" + y);
      DropPath(p.path, p.before + ("::" + (p.after + ("{" + y))));
      PrefixThen(PathText(p.path), p.before, p.after, "{" + y);
      PrefixThen(PathText(p.path), p.before, p.after, "{" + DropAliases(y));
    }
  }

  lemma PadStops2(pad: string, y: string)
    requires AllSpace(pad) && Stops(y)
    ensures Stops(pad + y)
  {
    if pad == "" { assert pad + y == y; } else { assert (pad + y)[0] == pad[0]; }
  }

  lemma PrefixThen(path: string, before: string, after: string, z: string)
    ensures path + (before + ("::" + after)) + z == path + (before + ("::" + (after + z)))
  {
  }

  lemma AliasStops(a: Alias, y: string)
    requires ValidAlias(a) && Stops(y)
    ensures Stops(PrintAlias(a) + y)
  {
    if a.NoAlias? { assert PrintAlias(a) + y == y; } else { assert (PrintAlias(a) + y)[0] == a.before[0]; }
  }

  lemma PrintStart(t: Tree, y: string)
    requires Valid(t) && Stops(y)
    ensures NotAs(Print(t, y))
  {
    match t {
      case Leaf(path, alias) =>
        AliasStops(alias, y);
        PathNotAs(path, PrintAlias(alias) + y);
      case Group(prefix, items) =>
        var tail := "{" + PrintItems(items, "}" + y);
        if prefix.NoPrefix? {
          assert Print(t, y) == tail;
        } else {
          var z := prefix.before + ("::" + (prefix.after + tail));
          PadStops2(prefix.before, "::" + (prefix.after + tail));
          PathNotAs(prefix.path, z);
          PrefixThen(PathText(prefix.path), prefix.before, prefix.after, tail);
        }
    }
  }

  // ---------------------------------------------------------------- aliases are erased

  predicate ItemEnd(y: string) { y == "" || y[0] == ',' || y[0] == '}' }

  lemma PadStops(pad: string, y: string)
    requires AllSpace(pad) && ItemEnd(y)
    ensures Stops(pad + y)
  {
    assert !SegChar(',') && !SegChar('}');
    if pad == "" { assert pad + y == y; } else { assert (pad + y)[0] == pad[0]; }
  }

  /** Dropping aliases from printed text is erasing them from the tree. */
  lemma {:induction false} DropInTree(t: Tree, y: string)
    requires Valid(t) && Stops(y)
    ensures DropAliases(Print(t, y)) == Print(Erase(t), DropAliases(y))
    decreases t, 0
  {
    match t {
      case Leaf(path, alias) =>
        AliasStops(alias, y);
        DropPath(path, PrintAlias(alias) + y);
        DropAlias(alias, y);
        assert PrintAlias(NoAlias) + DropAliases(y) == DropAliases(y);
      case Group(prefix, items) =>
        DropPrefix(prefix, PrintItems(items, "}" + y));
        DropInItems(items, "}" + y);
        DropSolid("}", y);
    }
  }

  lemma {:induction false} DropInItems(items: Items, y: string)
    requires ValidItems(items) && ItemEnd(y)
    ensures DropAliases(PrintItems(items, y)) == PrintItems(EraseItems(items), DropAliases(y))
    decreases items, 0
  {
    match items {
      case End =>
      case More(item, End) => DropInItem(item, y);
      case More(item, rest) =>
        DropInItem(item, "," + PrintItems(rest, y));
        DropSolid(",", PrintItems(rest, y));
        DropInItems(rest, y);
    }
  }

  function EraseItem(item: Item): Item {
    match item
    case Blank(pad) => item
    case Entry(before, tree, after) => Entry(before, Erase(tree), after)
  }

  predicate ValidItem(item: Item) {
    match item
    case Blank(pad) => AllSpace(pad)
    case Entry(before, tree, after) => AllSpace(before) && Valid(tree) && AllSpace(after)
  }

  lemma {:induction false} DropInItem(item: Item, y: string)
    requires ValidItem(item) && ItemEnd(y)
    ensures DropAliases(PrintItem(item, y)) == PrintItem(EraseItem(item), DropAliases(y))
    decreases item, 0
  {
    match item {
      case Blank(pad) => DropPad(pad, y);
      case Entry(before, tree, after) =>
        PadStops(after, y);
        PrintStart(tree, after + y);
        DropPad(before, Print(tree, after + y));
        DropInTree(tree, after + y);
        DropPad(after, y);
    }
  }

  // ---------------------------------------------------------------- text followed by text

  lemma {:induction false} PrintThen(t: Tree, y: string)
    ensures Print(t, y) == Print(t, "") + y
    decreases t, 0
  {
    match t {
      case Leaf(path, alias) => Assoc3(PathText(path), PrintAlias(alias), "", y);
      case Group(prefix, items) =>
        ItemsThen(items, "}" + y);
        ItemsThen(items, "}" + "");
        var head, inner := PrintPrefix(prefix), PrintItems(items, "");
        assert head + ("{" + (inner + ("}" + y))) == head + ("{" + (inner + ("}" + ""))) + y;
    }
  }

  lemma Assoc3(a: string, b: string, c: string, d: string)
    ensures a + (b + (c + d)) == a + (b + c) + d
    ensures c == "" ==> c + d == d
  {
  }

  lemma {:induction false} ItemsThen(items: Items, y: string)
    ensures PrintItems(items, y) == PrintItems(items, "") + y
    decreases items, 0
  {
    match items {
      case End =>
      case More(item, End) => ItemThen(item, y);
      case More(item, rest) =>
        ItemsThen(rest, y);
        ItemThen(item, "," + PrintItems(rest, y));
        ItemThen(item, "," + PrintItems(rest, ""));
    }
  }

  lemma {:induction false} ItemThen(item: Item, y: string)
    ensures PrintItem(item, y) == PrintItem(item, "") + y
    decreases item, 0
  {
    match item {
      case Blank(pad) => assert pad + "" == pad;
      case Entry(before, tree, after) =>
        PrintThen(tree, after + y);
        PrintThen(tree, after + "");
    }
  }

  // ---------------------------------------------------------------- scanning printed text

  predicate Plain(x: string) { '{' !in x && '}' !in x && ',' !in x }

  lemma {:induction false} SplitPlain(x: string, y: string, d: int, buf: string)
    requires Plain(x)
    ensures SplitFrom(x + y, d, buf) == SplitFrom(y, d, buf + x)
    decreases |x|
  {
    if x == "" {
      assert x + y == y && buf + x == buf;
    } else {
      assert (x + y)[1..] == x[1..] + y && buf + x == buf + [x[0]] + x[1..];
      SplitPlain(x[1..], y, d, buf + [x[0]]);
    }
  }

  /** One brace or an inner comma goes to the buffer. */
  lemma SplitOne(c: char, y: string, d: int, buf: string)
    requires c == '{' || c == '}' || (c == ',' && d != 0)
    ensures SplitFrom([c] + y, d, buf) == SplitFrom(y, if c == '{' then d + 1 else if c == '}' then d - 1 else d, buf + [c])
  {
    assert ([c] + y)[1..] == y;
  }

  lemma AliasPlain(a: Alias)
    requires ValidAlias(a)
    ensures Plain(PrintAlias(a))
  {
  }

  lemma SplitLeaf(path: Path, alias: Alias, y: string, d: nat, buf: string)
    requires ValidPath(path) && ValidAlias(alias)
    ensures SplitFrom(PathText(path) + (PrintAlias(alias) + y), d, buf) == SplitFrom(y, d, buf + (PathText(path) + (PrintAlias(alias) + "")))
  {
    PathPlain(path);
    AliasPlain(alias);
    SplitPlain(PathText(path), PrintAlias(alias) + y, d, buf);
    SplitPlain(PrintAlias(alias), y, d, buf + PathText(path));
    assert buf + PathText(path) + PrintAlias(alias) == buf + (PathText(path) + (PrintAlias(alias) + ""));
  }

  lemma BufferedGroup(buf: string, head: string, inner: string)
    ensures buf + head + "{" + inner + "}" == buf + (head + ("{" + (inner + ("}" + ""))))
  {
  }

  /** A tree goes to the buffer whole: its commas are behind its braces. */
  lemma {:induction false} SplitTree(t: Tree, y: string, d: nat, buf: string)
    requires Valid(t)
    ensures SplitFrom(Print(t, y), d, buf) == SplitFrom(y, d, buf + Print(t, ""))
    decreases t, 0
  {
    match t {
      case Leaf(path, alias) => SplitLeaf(path, alias, y, d, buf);
      case Group(prefix, items) =>
        var head, inner := PrintPrefix(prefix), PrintItems(items, "");
        PrefixPlain(prefix);
        SplitPlain(head, "{" + PrintItems(items, "}" + y), d, buf);
        SplitOne('{', PrintItems(items, "}" + y), d, buf + head);
        SplitItems(items, "}" + y, d + 1, buf + head + "{");
        SplitOne('}', y, d + 1, buf + head + "{" + inner);
        ItemsThen(items, "}" + "");
        BufferedGroup(buf, head, inner);
    }
  }

  /** So do items below a brace. */
  lemma {:induction false} SplitItems(items: Items, y: string, d: nat, buf: string)
    requires ValidItems(items) && d > 0
    ensures SplitFrom(PrintItems(items, y), d, buf) == SplitFrom(y, d, buf + PrintItems(items, ""))
    decreases items, 0
  {
    match items {
      case End => assert buf + "" == buf;
      case More(item, End) => SplitItem(item, y, d, buf);
      case More(item, rest) =>
        var mine := PrintItem(item, "");
        SplitItem(item, "," + PrintItems(rest, y), d, buf);
        SplitOne(',', PrintItems(rest, y), d, buf + mine);
        SplitItems(rest, y, d, buf + mine + ",");
        MoreThen(item, rest, buf);
    }
  }

  lemma MoreThen(item: Item, rest: Items, buf: string)
    requires rest.More?
    ensures buf + PrintItem(item, "") + "," + PrintItems(rest, "") == buf + PrintItems(More(item, rest), "")
  {
    ItemThen(item, "," + PrintItems(rest, ""));
  }

  lemma BufferedEntry(buf: string, before: string, text: string, after: string)
    ensures buf + before + text + after == buf + (before + (text + (after + "")))
  {
  }

  lemma {:induction false} SplitItem(item: Item, y: string, d: nat, buf: string)
    requires ValidItem(item)
    ensures SplitFrom(PrintItem(item, y), d, buf) == SplitFrom(y, d, buf + PrintItem(item, ""))
    decreases item, 0
  {
    match item {
      case Blank(pad) =>
        SplitPlain(pad, y, d, buf);
        assert pad + "" == pad;
      case Entry(before, tree, after) =>
        SplitPlain(before, Print(tree, after + y), d, buf);
        SplitTree(tree, after + y, d, buf + before);
        SplitPlain(after, y, d, buf + before + Print(tree, ""));
        PrintThen(tree, after + "");
        BufferedEntry(buf, before, Print(tree, ""), after);
    }
  }
}
