/**
 Expansion of nested `use crate::` bodies into full paths: the recursive text expander, and a
 printer for `use` trees with aliases and with blanks in every place where the language
 allows them.
 */
module UseTree {

  // ---------------------------------------------------------------- text operations

  /** ASCII whitespace as `str.strip` and `\s` see it. */
  predicate IsSpace(c: char) { 9 <= c as int <= 13 || 28 <= c as int <= 32 }

  predicate IdentStart(c: char) { 'a' <= c <= 'z' || 'A' <= c <= 'Z' || c == '_' }

  predicate IdentChar(c: char) { IdentStart(c) || '0' <= c <= '9' }

  function LStrip(s: string): (r: string)
    ensures |r| <= |s|
  {
    if s != "" && IsSpace(s[0]) then LStrip(s[1..]) else s
  }

  function RStrip(s: string): (r: string)
    ensures |r| <= |s|
  {
    if s != "" && IsSpace(s[|s| - 1]) then RStrip(s[..|s| - 1]) else s
  }

  function Strip(s: string): (r: string)
    ensures |r| <= |s|
  {
    RStrip(LStrip(s))
  }

  /** `rstrip(":")`. */
  function RStripColons(s: string): (r: string)
    ensures |r| <= |s|
  {
    if s != "" && s[|s| - 1] == ':' then RStripColons(s[..|s| - 1]) else s
  }

  function SpaceRun(s: string): (n: nat)
    ensures n <= |s|
  {
    if s != "" && IsSpace(s[0]) then 1 + SpaceRun(s[1..]) else 0
  }

  function IdentRun(s: string): (n: nat)
    ensures n <= |s|
  {
    if s != "" && IdentChar(s[0]) then 1 + IdentRun(s[1..]) else 0
  }

  /** Length of the match of `\s+as\s+[A-Za-z_][A-Za-z0-9_]*` at the start of `s`, or 0. The
      pattern never backtracks: neither `a` nor an identifier start is whitespace. */
  function AliasMatch(s: string): (n: nat)
    ensures n <= |s|
  {
    var i := SpaceRun(s);
    if i == 0 || !("as" <= s[i..]) then 0
    else
      var j := SpaceRun(s[i + 2..]);
      if j == 0 then 0
      else
        var rest := s[i + 2 + j..];
        if rest == "" || !IdentStart(rest[0]) then 0 else i + 2 + j + IdentRun(rest)
  }

  /** `re.sub(pattern, "", s)`, where `m` gives the length of the match at the start of a text:
      leftmost, non-overlapping. */
  function DropWith(m: string -> nat, s: string): (r: string)
    ensures |r| <= |s|
    decreases |s|
  {
    if s == "" then ""
    else if 0 < m(s) <= |s| then DropWith(m, s[m(s)..])
    else [s[0]] + DropWith(m, s[1..])
  }

  function DropAliases(s: string): (r: string)
    ensures |r| <= |s|
  {
    DropWith(AliasMatch, s)
  }

  function IndexOf(s: string, c: char): (i: nat)
    requires c in s
    ensures i < |s| && s[i] == c && c !in s[..i]
  {
    if s[0] == c then 0 else 1 + IndexOf(s[1..], c)
  }

  /** The loop of `split_top_commas` from a given depth and buffer. */
  function SplitFrom(s: string, depth: int, buf: string): (r: seq<string>)
    ensures forall i :: 0 <= i < |r| ==> |r[i]| <= |buf| + |s|
    decreases |s|
  {
    if s == "" then (if buf == "" then [] else [buf])
    else if s[0] == '{' then SplitFrom(s[1..], depth + 1, buf + [s[0]])
    else if s[0] == '}' then SplitFrom(s[1..], depth - 1, buf + [s[0]])
    else if s[0] == ',' && depth == 0 then [buf] + SplitFrom(s[1..], depth, "")
    else SplitFrom(s[1..], depth, buf + [s[0]])
  }

  /** Offset of the brace that brings `depth` to 0, or -1. */
  function CloseFrom(s: string, depth: int): (i: int)
    ensures -1 <= i < |s|
    decreases |s|
  {
    if s == "" then -1
    else
      var d := if s[0] == '{' then depth + 1 else if s[0] == '}' then depth - 1 else depth;
      if s[0] == '}' && d == 0 then 0
      else
        var i := CloseFrom(s[1..], d);
        if i < 0 then -1 else i + 1
  }

  function Attach(prefix: string, s: string): string {
    if prefix != "" && s != "" then prefix + "::" + s else if prefix != "" then prefix else s
  }

  function AttachAll(prefix: string, ss: seq<string>): seq<string> {
    if ss == [] then [] else [Attach(prefix, ss[0])] + AttachAll(prefix, ss[1..])
  }

  /** `expand_use_body`. Every piece is strictly shorter than the body it came from. */
  function Expand(body: string): seq<string>
    decreases |body|, 2, 0
  {
    ExpandClean(DropAliases(Strip(body)), |body|)
  }

  function ExpandClean(b: string, bound: nat): seq<string>
    requires |b| <= bound
    decreases bound, 1, 0
  {
    if '{' !in b then [RStripColons(Strip(b))]
    else
      var g := OpenGroup(b);
      if g.Unclosed? then [Strip(b)] else ExpandPieces(g.prefix, g.pieces, bound)
  }

  datatype Opened = Unclosed | Opened(prefix: string, pieces: seq<string>)

  /** The path before the first brace and the pieces inside it, if that brace is closed. */
  function OpenGroup(b: string): (g: Opened)
    requires '{' in b
    ensures g.Opened? ==> forall i :: 0 <= i < |g.pieces| ==> |g.pieces[i]| < |b|
  {
    OpenAt(b, IndexOf(b, '{'), CloseFrom(b[IndexOf(b, '{')..], 0))
  }

  /** The same, given where the brace opens and how far from there it closes. */
  function OpenAt(b: string, open: nat, close: int): (g: Opened)
    requires open < |b| && open + close < |b| && close != 0
    ensures g.Opened? ==> forall i :: 0 <= i < |g.pieces| ==> |g.pieces[i]| < |b|
  {
    if close < 0 then Unclosed else Opened(RStrip(RStripColons(b[..open])), SplitFrom(b[open + 1..open + close], 0, ""))
  }

  function ExpandPieces(prefix: string, pieces: seq<string>, bound: nat): seq<string>
    requires forall i :: 0 <= i < |pieces| ==> |pieces[i]| < bound
    decreases bound, 0, |pieces|
  {
    if pieces == [] then []
    else
      var p := Strip(pieces[0]);
      (if p == "" then [] else AttachAll(prefix, Expand(p))) + ExpandPieces(prefix, pieces[1..], bound)
  }

  // ---------------------------------------------------------------- use trees

  datatype Alias = NoAlias | As(before: string, after: string, name: string)

  /** Segments joined by `::`, with blanks around each of them. */
  datatype Step = Step(before: string, after: string, seg: string)
  datatype Path = Path(first: string, rest: seq<Step>)

  /** What stands before a group: nothing, or a path and one more `::`. */
  datatype Prefix = NoPrefix | Prefix(path: Path, before: string, after: string)

  datatype Tree =
    | Leaf(path: Path, alias: Alias)
    | Group(prefix: Prefix, items: Items)

  /** Comma-separated items; a blank one models a trailing comma or an empty group. */
  datatype Items = End | More(item: Item, rest: Items)

  datatype Item = Blank(pad: string) | Entry(before: string, tree: Tree, after: string)

  function Join(path: seq<string>): string {
    if path == [] then "" else if |path| == 1 then path[0] else path[0] + "::" + Join(path[1..])
  }

  function PrintAlias(a: Alias): string {
    match a
    case NoAlias => ""
    case As(before, after, name) => before + ("as" + (after + name))
  }

  function StepsText(steps: seq<Step>): string {
    if steps == [] then ""
    else steps[0].before + ("::" + (steps[0].after + (steps[0].seg + StepsText(steps[1..]))))
  }

  function PathText(p: Path): string { p.first + StepsText(p.rest) }

  function PrintPrefix(p: Prefix): string {
    match p
    case NoPrefix => ""
    case Prefix(path, before, after) => PathText(path) + (before + ("::" + after))
  }

  /** The text of a tree, followed by `y`. */
  function Print(t: Tree, y: string): string {
    match t
    case Leaf(path, alias) => PathText(path) + (PrintAlias(alias) + y)
    case Group(prefix, items) => PrintPrefix(prefix) + ("{" + PrintItems(items, "}" + y))
  }

  function PrintItems(items: Items, y: string): string {
    match items
    case End => y
    case More(item, End) => PrintItem(item, y)
    case More(item, rest) => PrintItem(item, "," + PrintItems(rest, y))
  }

  function PrintItem(item: Item, y: string): string {
    match item
    case Blank(pad) => pad + y
    case Entry(before, tree, after) => before + Print(tree, after + y)
  }

  function StepSegs(steps: seq<Step>): seq<string> { if steps == [] then [] else [steps[0].seg] + StepSegs(steps[1..]) }

  function Segs(p: Path): seq<string> { [p.first] + StepSegs(p.rest) }

  function PrefixSegs(p: Prefix): seq<string> { if p.NoPrefix? then [] else Segs(p.path) }

  /** The paths a tree imports, as segment lists, in order. */
  function FullPaths(t: Tree): seq<seq<string>> {
    match t
    case Leaf(path, _) => [Segs(path)]
    case Group(prefix, items) => Under(PrefixSegs(prefix), ItemPaths(items))
  }

  function ItemPaths(items: Items): seq<seq<string>> {
    match items
    case End => []
    case More(Blank(_), rest) => ItemPaths(rest)
    case More(Entry(_, tree, _), rest) => FullPaths(tree) + ItemPaths(rest)
  }

  function Under(prefix: seq<string>, paths: seq<seq<string>>): seq<seq<string>> {
    if paths == [] then [] else [prefix + paths[0]] + Under(prefix, paths[1..])
  }

  function JoinAll(paths: seq<seq<string>>): seq<string> {
    if paths == [] then [] else [Join(paths[0])] + JoinAll(paths[1..])
  }

  // ---------------------------------------------------------------- what the code makes of it

  /** What is left of a prefix after `rstrip(":").rstrip()`: blanks behind the last `::` shield
      it from the first strip. */
  function KeptPrefix(p: Prefix): string {
    match p
    case NoPrefix => ""
    case Prefix(path, before, after) => if after == "" then PathText(path) else PathText(path) + (before + "::")
  }

  /** The texts that the code gives for a tree: blanks inside paths stay in them. */
  function CodePaths(t: Tree): seq<string> {
    match t
    case Leaf(path, _) => [PathText(path)]
    case Group(prefix, items) => AttachAll(KeptPrefix(prefix), CodeItems(items))
  }

  function CodeItems(items: Items): seq<string> {
    match items
    case End => []
    case More(Blank(_), rest) => CodeItems(rest)
    case More(Entry(_, tree, _), rest) => CodePaths(tree) + CodeItems(rest)
  }

  /** No blanks where the code does not expect them: none around the `::` of a path, and none
      behind the `::` before a group, wherever that group imports anything at all. */
  predicate TightSteps(steps: seq<Step>) { forall i :: 0 <= i < |steps| ==> steps[i].before == "" && steps[i].after == "" }

  predicate TightPath(p: Path) { TightSteps(p.rest) }

  predicate TightPrefix(p: Prefix) { p.NoPrefix? || (TightPath(p.path) && p.after == "") }

  predicate Tight(t: Tree) {
    match t
    case Leaf(path, _) => TightPath(path)
    case Group(prefix, items) => ItemPaths(items) == [] || (TightPrefix(prefix) && TightItems(items))
  }

  predicate TightItems(items: Items) {
    match items
    case End => true
    case More(Blank(_), rest) => TightItems(rest)
    case More(Entry(_, tree, _), rest) => Tight(tree) && TightItems(rest)
  }

  // ---------------------------------------------------------------- well-formed trees

  predicate AllSpace(s: string) { forall i :: 0 <= i < |s| ==> IsSpace(s[i]) }

  /** A path segment: an identifier, `self`, `super` or `*`; not the keyword `as`. */
  predicate SegChar(c: char) { IdentChar(c) || c == '*' }

  predicate Segment(s: string) { s != "" && s != "as" && forall i :: 0 <= i < |s| ==> SegChar(s[i]) }

  predicate ValidAlias(a: Alias) {
    a.NoAlias? || (a.before != "" && AllSpace(a.before) && a.after != "" && AllSpace(a.after)
                   && a.name != "" && IdentStart(a.name[0]) && forall i :: 0 <= i < |a.name| ==> IdentChar(a.name[i]))
  }

  predicate ValidStep(step: Step) { AllSpace(step.before) && AllSpace(step.after) && Segment(step.seg) }

  predicate ValidSteps(steps: seq<Step>) { forall i :: 0 <= i < |steps| ==> ValidStep(steps[i]) }

  predicate ValidPath(p: Path) { Segment(p.first) && ValidSteps(p.rest) }

  predicate ValidPrefix(p: Prefix) { p.NoPrefix? || (ValidPath(p.path) && AllSpace(p.before) && AllSpace(p.after)) }

  predicate Valid(t: Tree) {
    match t
    case Leaf(path, alias) => ValidPath(path) && ValidAlias(alias)
    case Group(prefix, items) => ValidPrefix(prefix) && ValidItems(items)
  }

  predicate ValidItems(items: Items) {
    match items
    case End => true
    case More(Blank(pad), rest) => AllSpace(pad) && ValidItems(rest)
    case More(Entry(before, tree, after), rest) => AllSpace(before) && Valid(tree) && AllSpace(after) && ValidItems(rest)
  }

  /** The tree without its aliases. */
  function Erase(t: Tree): Tree {
    match t
    case Leaf(path, _) => Leaf(path, NoAlias)
    case Group(prefix, items) => Group(prefix, EraseItems(items))
  }

  function EraseItems(items: Items): Items {
    match items
    case End => End
    case More(Blank(pad), rest) => More(Blank(pad), EraseItems(rest))
    case More(Entry(before, tree, after), rest) => More(Entry(before, Erase(tree), after), EraseItems(rest))
  }
}
