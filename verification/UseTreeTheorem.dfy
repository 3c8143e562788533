/** The round trip: what expanding a printed `use` tree yields, for every layout, and exactly
    when that is the tree's paths. */
module UseTreeTheorem {
  import opened UseTree
  import opened UseTreeProofs

  // ---------------------------------------------------------------- pieces and braces

  function Pieces(items: Items): seq<string> {
    match items
    case End => []
    case More(item, End) => if PrintItem(item, "") == "" then [] else [PrintItem(item, "")]
    case More(item, rest) => [PrintItem(item, "")] + Pieces(rest)
  }

  /** At the top level the commas between items, and only they, split. */
  lemma {:induction false} SplitTop(items: Items)
    requires ValidItems(items)
    ensures SplitFrom(PrintItems(items, ""), 0, "") == Pieces(items)
    decreases items
  {
    match items {
      case End =>
      case More(item, End) =>
        SplitItem(item, "", 0, "");
        assert "" + PrintItem(item, "") == PrintItem(item, "");
      case More(item, rest) =>
        SplitItem(item, "," + PrintItems(rest, ""), 0, "");
        assert "" + PrintItem(item, "") == PrintItem(item, "");
        assert ("," + PrintItems(rest, ""))[1..] == PrintItems(rest, "");
        SplitTop(rest);
    }
  }

  function Shift(n: nat, i: int): int { if i < 0 then -1 else n + i }

  lemma {:induction false} ClosePlain(x: string, y: string, d: int)
    requires Plain(x)
    ensures CloseFrom(x + y, d) == Shift(|x|, CloseFrom(y, d))
    decreases |x|
  {
    if x == "" {
      assert x + y == y;
    } else {
      assert (x + y)[1..] == x[1..] + y;
      ClosePlain(x[1..], y, d);
    }
  }

  lemma CloseOne(c: char, y: string, d: int)
    requires c == ',' || c == '{' || (c == '}' && d != 1)
    ensures CloseFrom([c] + y, d) == Shift(1, CloseFrom(y, if c == '{' then d + 1 else if c == '}' then d - 1 else d))
  {
    assert ([c] + y)[1..] == y;
  }

  lemma {:induction false} CloseTree(t: Tree, y: string, d: nat)
    requires Valid(t) && d >= 1
    ensures CloseFrom(Print(t, y), d) == Shift(|Print(t, "")|, CloseFrom(y, d))
    decreases t, 0
  {
    match t {
      case Leaf(path, alias) =>
        PathPlain(path);
        AliasPlain(alias);
        ClosePlain(PathText(path), PrintAlias(alias) + y, d);
        ClosePlain(PrintAlias(alias), y, d);
      case Group(prefix, items) =>
        PrefixPlain(prefix);
        ClosePlain(PrintPrefix(prefix), "{" + PrintItems(items, "}" + y), d);
        CloseOne('{', PrintItems(items, "}" + y), d);
        CloseItems(items, "}" + y, d + 1);
        CloseOne('}', y, d + 1);
        ItemsThen(items, "}" + "");
    }
  }

  lemma {:induction false} CloseItems(items: Items, y: string, d: nat)
    requires ValidItems(items) && d >= 1
    ensures CloseFrom(PrintItems(items, y), d) == Shift(|PrintItems(items, "")|, CloseFrom(y, d))
    decreases items, 0
  {
    match items {
      case End =>
      case More(item, End) => CloseItem(item, y, d);
      case More(item, rest) =>
        CloseItem(item, "," + PrintItems(rest, y), d);
        CloseOne(',', PrintItems(rest, y), d);
        CloseItems(rest, y, d);
        ItemThen(item, "," + PrintItems(rest, ""));
    }
  }

  lemma {:induction false} CloseItem(item: Item, y: string, d: nat)
    requires ValidItem(item) && d >= 1
    ensures CloseFrom(PrintItem(item, y), d) == Shift(|PrintItem(item, "")|, CloseFrom(y, d))
    decreases item, 0
  {
    match item {
      case Blank(pad) =>
        ClosePlain(pad, y, d);
        assert |pad + ""| == |pad|;
      case Entry(before, tree, after) =>
        ClosePlain(before, Print(tree, after + y), d);
        CloseTree(tree, after + y, d);
        ClosePlain(after, y, d);
        PrintThen(tree, after + "");
    }
  }

  // ---------------------------------------------------------------- stripping

  predicate Solid(s: string) { s != "" && !IsSpace(s[0]) && !IsSpace(s[|s| - 1]) }

  lemma {:induction false} LStripPad(pad: string, s: string)
    requires AllSpace(pad)
    ensures LStrip(pad + s) == LStrip(s)
    decreases |pad|
  {
    if pad == "" {
      assert pad + s == s;
    } else {
      assert (pad + s)[1..] == pad[1..] + s;
      LStripPad(pad[1..], s);
    }
  }

  lemma {:induction false} RStripPad(s: string, pad: string)
    requires AllSpace(pad)
    ensures RStrip(s + pad) == RStrip(s)
    decreases |pad|
  {
    if pad == "" {
      assert s + pad == s;
    } else {
      assert (s + pad)[..|s + pad| - 1] == s + pad[..|pad| - 1];
      RStripPad(s, pad[..|pad| - 1]);
    }
  }

  lemma StripPads(before: string, s: string, after: string)
    requires AllSpace(before) && AllSpace(after) && Solid(s)
    ensures Strip(before + (s + after)) == s
  {
    LStripPad(before, s + after);
    assert (s + after)[0] == s[0];
    RStripPad(s, after);
  }

  lemma StripBlank(pad: string)
    requires AllSpace(pad)
    ensures Strip(pad) == ""
  {
    LStripPad(pad, "");
    assert pad + "" == pad;
  }

  lemma PrintSolid(t: Tree)
    requires Valid(t)
    ensures Solid(Print(t, ""))
  {
    match t {
      case Leaf(path, alias) =>
        PathChars(path);
        assert PrintAlias(alias) + "" == PrintAlias(alias);
        var s := Print(t, "");
        assert s[0] == PathText(path)[0];
        if alias.NoAlias? { assert s == PathText(path); }
        else { assert s[|s| - 1] == alias.name[|alias.name| - 1]; }
      case Group(prefix, items) =>
        ItemsThen(items, "}" + "");
        var s := Print(t, "");
        assert s[|s| - 1] == '}';
        if prefix.NoPrefix? { assert s[0] == '{'; } else { PathChars(prefix.path); assert s[0] == PathText(prefix.path)[0]; }
    }
  }

  lemma {:induction false} NoColonEnd(s: string)
    requires s == "" || s[|s| - 1] != ':'
    ensures RStripColons(s) == s && RStripColons(s + "::") == s
  {
    assert (s + ":")[..|s|] == s;
    assert RStripColons(s + ":") == s;
    assert (s + "::")[..|s| + 1] == s + ":";
  }

  lemma {:induction false} EndsInBlank(s: string, pad: string)
    requires AllSpace(pad) && pad != ""
    ensures RStripColons(s + pad) == s + pad
  {
    assert (s + pad)[|s + pad| - 1] == pad[|pad| - 1];
  }

  lemma PrefixText(path: string, before: string, after: string)
    ensures path + (before + ("::" + after)) == (path + (before + "::")) + after
    ensures path + (before + ("::" + "")) == (path + before) + "::"
  {
  }

  lemma LastOfPair(a: string, b: string)
    requires a != ""
    ensures (a + b)[|a + b| - 1] == if b == "" then a[|a| - 1] else b[|b| - 1]
  {
  }

  lemma ClosedPrefix(path: string, before: string)
    requires path != "" && SegChar(path[|path| - 1]) && AllSpace(before)
    ensures RStrip(RStripColons((path + before) + "::")) == path
  {
    LastOfPair(path, before);
    NoColonEnd(path + before);
    RStripPad(path, before);
  }

  lemma OpenPrefix(path: string, before: string, after: string)
    requires AllSpace(after) && after != ""
    ensures RStrip(RStripColons(path + (before + ("::" + after)))) == path + (before + "::")
  {
    var s := path + (before + "::");
    PrefixText(path, before, after);
    EndsInBlank(s, after);
    RStripPad(s, after);
    assert s[|s| - 1] == ':';
  }

  lemma PrefixStripped(p: Prefix)
    requires ValidPrefix(p)
    ensures RStrip(RStripColons(PrintPrefix(p))) == KeptPrefix(p)
  {
    if p.Prefix? {
      PathChars(p.path);
      if p.after == "" {
        PrefixText(PathText(p.path), p.before, "");
        ClosedPrefix(PathText(p.path), p.before);
      } else {
        OpenPrefix(PathText(p.path), p.before, p.after);
      }
    }
  }

  // ---------------------------------------------------------------- paths

  lemma {:induction false} AttachConcat(prefix: string, x: seq<string>, y: seq<string>)
    ensures AttachAll(prefix, x + y) == AttachAll(prefix, x) + AttachAll(prefix, y)
  {
    if x == [] {
      assert x + y == y;
    } else {
      assert (x + y)[1..] == x[1..] + y;
      AttachConcat(prefix, x[1..], y);
    }
  }

  lemma {:induction false} ErasePaths(t: Tree)
    ensures CodePaths(Erase(t)) == CodePaths(t)
    ensures Valid(t) ==> Valid(Erase(t))
    decreases t
  {
    if t.Group? { EraseItemPaths(t.items); }
  }

  lemma {:induction false} EraseItemPaths(items: Items)
    ensures CodeItems(EraseItems(items)) == CodeItems(items)
    ensures ValidItems(items) ==> ValidItems(EraseItems(items))
    decreases items
  {
    match items {
      case End =>
      case More(Blank(_), rest) => EraseItemPaths(rest);
      case More(Entry(_, tree, _), rest) => ErasePaths(tree); EraseItemPaths(rest);
    }
  }

  // ---------------------------------------------------------------- expansion

  predicate Bare(t: Tree) {
    match t
    case Leaf(_, alias) => alias.NoAlias?
    case Group(_, items) => BareItems(items)
  }

  predicate BareItems(items: Items) {
    match items
    case End => true
    case More(Blank(_), rest) => BareItems(rest)
    case More(Entry(_, tree, _), rest) => Bare(tree) && BareItems(rest)
  }

  lemma {:induction false} EraseBare(t: Tree)
    ensures Bare(Erase(t))
    ensures Bare(t) ==> Erase(t) == t
    decreases t
  {
    if t.Group? { EraseBareItems(t.items); }
  }

  lemma {:induction false} EraseBareItems(items: Items)
    ensures BareItems(EraseItems(items))
    ensures BareItems(items) ==> EraseItems(items) == items
    decreases items
  {
    match items {
      case End =>
      case More(Blank(_), rest) => EraseBareItems(rest);
      case More(Entry(_, tree, _), rest) => EraseBare(tree); EraseBareItems(rest);
    }
  }

  /** What is left of printed text before it is taken apart. */
  lemma Stripped(t: Tree, before: string, after: string)
    requires Valid(t) && AllSpace(before) && AllSpace(after)
    ensures DropAliases(Strip(before + (Print(t, "") + after))) == Print(Erase(t), "")
  {
    PrintSolid(t);
    StripPads(before, Print(t, ""), after);
    DropInTree(t, "");
  }

  lemma GroupText(prefix: Prefix, items: Items)
    ensures Print(Group(prefix, items), "") == PrintPrefix(prefix) + ("{" + (PrintItems(items, "") + "}"))
  {
    assert "}" + "" == "}";
    ItemsThen(items, "}");
  }

  lemma GroupCloses(items: Items)
    requires ValidItems(items)
    ensures CloseFrom("{" + (PrintItems(items, "") + "}"), 0) == |PrintItems(items, "")| + 1
  {
    ItemsThen(items, "}");
    CloseOne('{', PrintItems(items, "}"), 0);
    CloseItems(items, "}", 1);
    assert CloseFrom("}", 1) == 0;
  }

  lemma TextParts(head: string, inner: string)
    requires '{' !in head
    ensures var b := head + ("{" + (inner + "}"));
            && '{' in b && IndexOf(b, '{') == |head| && b[..|head|] == head
            && b[|head|..] == "{" + (inner + "}") && b[|head| + 1..|head| + 1 + |inner|] == inner
  {
    var b := head + ("{" + (inner + "}"));
    assert b[|head|] == '{' && b[..|head|] == head;
    FirstIndex(b, '{', |head|);
  }

  lemma {:induction false} FirstIndex(s: string, c: char, i: nat)
    requires i < |s| && s[i] == c && c !in s[..i]
    ensures IndexOf(s, c) == i
  {
    if i > 0 {
      assert s[0] in s[..i];
      assert s[1..][..i - 1] == s[..i][1..];
      FirstIndex(s[1..], c, i - 1);
    }
  }

  /** What one piece contributes, and what the pieces do. */
  function PieceOf(prefix: string, piece: string): seq<string> {
    if Strip(piece) == "" then [] else AttachAll(prefix, Expand(Strip(piece)))
  }

  lemma PiecesHead(prefix: string, piece: string, rest: seq<string>, bound: nat)
    requires |piece| < bound && forall i :: 0 <= i < |rest| ==> |rest[i]| < bound
    ensures ExpandPieces(prefix, [piece] + rest, bound) == PieceOf(prefix, piece) + ExpandPieces(prefix, rest, bound)
  {
    assert ([piece] + rest)[1..] == rest;
  }

  /** An item and the rest, on either side of the equation. */
  lemma PathsHead(prefix: string, item: Item, rest: Items, mine: seq<string>)
    requires mine == if item.Entry? then CodePaths(item.tree) else []
    ensures AttachAll(prefix, CodeItems(More(item, rest))) == AttachAll(prefix, mine) + AttachAll(prefix, CodeItems(rest))
  {
    assert CodeItems(More(item, rest)) == mine + CodeItems(rest);
    AttachConcat(prefix, mine, CodeItems(rest));
  }

  /** Expansion of the pieces of a group whose trees expand as they should. */
  lemma {:induction false} ExpandItems(prefix: string, items: Items, bound: nat)
    requires ValidItems(items) && BareItems(items)
    requires forall i :: 0 <= i < |Pieces(items)| ==> |Pieces(items)[i]| < bound
    ensures ExpandPieces(prefix, Pieces(items), bound) == AttachAll(prefix, CodeItems(items))
    decreases items, 1
  {
    match items {
      case End =>
      case More(item, rest) =>
        var text := PrintItem(item, "");
        var mine := ExpandItem(prefix, item);
        PathsHead(prefix, item, rest, mine);
        if rest != End {
          assert Pieces(items)[0] == text && Pieces(items)[1..] == Pieces(rest);
          ExpandItems(prefix, rest, bound);
          PiecesHead(prefix, text, Pieces(rest), bound);
        } else if text == "" {
          assert Strip("") == "";
        } else {
          assert Pieces(items)[0] == text && [text] == [text] + [];
          PiecesHead(prefix, text, [], bound);
        }
    }
  }

  lemma {:induction false} ExpandItem(prefix: string, item: Item) returns (mine: seq<string>)
    requires ValidItem(item) && (item.Entry? ==> Bare(item.tree))
    ensures mine == if item.Entry? then CodePaths(item.tree) else []
    ensures PieceOf(prefix, PrintItem(item, "")) == AttachAll(prefix, mine)
    decreases item, 1
  {
    match item {
      case Blank(pad) =>
        mine := [];
        assert pad + "" == pad;
        StripBlank(pad);
      case Entry(before, tree, after) =>
        mine := CodePaths(tree);
        assert after + "" == after;
        PrintThen(tree, after);
        PrintSolid(tree);
        StripPads(before, Print(tree, ""), after);
        ExpandBare(tree);
    }
  }

  lemma SolidStays(s: string)
    requires Solid(s)
    ensures Strip(s) == s
  {
  }

  lemma CleanLeaf(b: string, bound: nat)
    requires |b| <= bound && '{' !in b && Strip(b) == b && RStripColons(b) == b
    ensures ExpandClean(b, bound) == [b]
  {
  }

  lemma ExpandLeaf(body: string, path: Path)
    requires ValidPath(path) && DropAliases(Strip(body)) == PathText(path)
    ensures Expand(body) == [PathText(path)]
  {
    PathChars(path);
    PathPlain(path);
    SolidStays(PathText(path));
    NoColonEnd(PathText(path));
    CleanLeaf(PathText(path), |body|);
  }

  lemma GroupOpens(b: string, open: nat, inner: string, prefix: string)
    requires '{' in b && IndexOf(b, '{') == open
    requires CloseFrom(b[open..], 0) == |inner| + 1 && open + 1 + |inner| < |b|
    requires b[open + 1..open + 1 + |inner|] == inner && RStrip(RStripColons(b[..open])) == prefix
    ensures OpenGroup(b) == Opened(prefix, SplitFrom(inner, 0, ""))
  {
    assert OpenGroup(b) == OpenAt(b, open, |inner| + 1);
    OpensInner(b, open, inner, prefix);
  }

  lemma OpensInner(b: string, open: nat, inner: string, prefix: string)
    requires open + 1 + |inner| < |b| && b[open + 1..open + 1 + |inner|] == inner && RStrip(RStripColons(b[..open])) == prefix
    ensures OpenAt(b, open, |inner| + 1) == Opened(prefix, SplitFrom(inner, 0, ""))
  {
    assert open + (|inner| + 1) == open + 1 + |inner|;
  }

  lemma CleanParts(b: string, bound: nat, prefix: string, pieces: seq<string>)
    requires |b| <= bound && '{' in b && OpenGroup(b) == Opened(prefix, pieces)
    ensures ExpandClean(b, bound) == ExpandPieces(prefix, pieces, bound)
  {
  }

  lemma OpensText(head: string, inner: string, prefix: string)
    requires '{' !in head && RStrip(RStripColons(head)) == prefix && CloseFrom("{" + (inner + "}"), 0) == |inner| + 1
    ensures var b := head + ("{" + (inner + "}")); '{' in b && OpenGroup(b) == Opened(prefix, SplitFrom(inner, 0, ""))
  {
    TextParts(head, inner);
    GroupOpens(head + ("{" + (inner + "}")), |head|, inner, prefix);
  }

  lemma OpensAs(prefix: Prefix, items: Items)
    requires ValidPrefix(prefix) && ValidItems(items)
    ensures '{' in Print(Group(prefix, items), "")
    ensures OpenGroup(Print(Group(prefix, items), "")) == Opened(KeptPrefix(prefix), SplitFrom(PrintItems(items, ""), 0, ""))
  {
    PrefixPlain(prefix);
    PrefixStripped(prefix);
    GroupText(prefix, items);
    GroupCloses(items);
    OpensText(PrintPrefix(prefix), PrintItems(items, ""), KeptPrefix(prefix));
  }

  /** The printed group, taken apart by the code. */
  lemma GroupIsOpened(prefix: Prefix, items: Items)
    requires ValidPrefix(prefix) && ValidItems(items)
    ensures '{' in Print(Group(prefix, items), "") && OpenGroup(Print(Group(prefix, items), "")) == Opened(KeptPrefix(prefix), Pieces(items))
  {
    OpensAs(prefix, items);
    SplitTop(items);
  }

  lemma ExpandGroup(body: string, prefix: Prefix, items: Items)
    requires ValidPrefix(prefix) && ValidItems(items) && DropAliases(Strip(body)) == Print(Group(prefix, items), "")
    ensures forall i :: 0 <= i < |Pieces(items)| ==> |Pieces(items)[i]| < |body|
    ensures Expand(body) == ExpandPieces(KeptPrefix(prefix), Pieces(items), |body|)
  {
    GroupIsOpened(prefix, items);
    CleanParts(DropAliases(Strip(body)), |body|, KeptPrefix(prefix), Pieces(items));
  }

  /** Any body that comes down to the text of an alias-free tree expands to its code paths. */
  lemma {:induction false} ExpandText(body: string, t: Tree)
    requires Valid(t) && Bare(t) && DropAliases(Strip(body)) == Print(t, "")
    ensures Expand(body) == CodePaths(t)
    decreases t, 0
  {
    match t {
      case Leaf(path, alias) =>
        assert PrintAlias(NoAlias) + "" == "" && PathText(path) + "" == PathText(path);
        ExpandLeaf(body, path);
      case Group(prefix, items) =>
        ExpandGroup(body, prefix, items);
        ExpandItems(KeptPrefix(prefix), items, |body|);
    }
  }

  lemma {:induction false} ExpandBare(t: Tree)
    requires Valid(t) && Bare(t)
    ensures Expand(Print(t, "")) == CodePaths(t)
    decreases t, 1
  {
    var b := Print(t, "");
    EraseBare(t);
    Stripped(t, "", "");
    assert "" + (b + "") == b;
    ExpandText(b, t);
  }

  /** Print any valid tree, with aliases and with blanks wherever they may stand: this is what
      expanding the text yields, in order, with the aliases dropped. */
  lemma ExpandPrinted(t: Tree, before: string, after: string)
    requires Valid(t) && AllSpace(before) && AllSpace(after)
    ensures Expand(before + (Print(t, "") + after)) == CodePaths(t)
  {
    Stripped(t, before, after);
    EraseBare(t);
    ErasePaths(t);
    ExpandText(before + (Print(t, "") + after), Erase(t));
  }
}
