/** What `blank_non_executing` does to a whole document, told segment by segment. */
module BlankingDocuments {
  import opened Blanking
  import opened BlankingTheorems

  datatype Kind = Script | Style

  function OpenTag(k: Kind): Bytes { if k.Script? then "<script" else "<style" }

  function CloseTag(k: Kind): Bytes { if k.Script? then "</script>" else "</style>" }

  /** A run of text in which nothing opens, a comment, or a raw-text element. */
  datatype Segment = Prose(text: Bytes) | Comment(body: Bytes) | Raw(kind: Kind, attrs: Bytes, body: Bytes)

  /** How the file ends: properly, or inside a comment, a tag or a body never closed. */
  datatype Ending = Done | CutComment(body: Bytes) | CutTag(kind: Kind, attrs: Bytes) | CutBody(kind: Kind, attrs: Bytes, body: Bytes)

  function Tag(k: Kind, attrs: Bytes): Bytes { OpenTag(k) + attrs + ">" }

  function Written(g: Segment): Bytes {
    match g
    case Prose(text) => text
    case Comment(body) => "<!--" + body + "-->"
    case Raw(k, attrs, body) => Tag(k, attrs) + body + CloseTag(k)
  }

  function Shown(g: Segment): Bytes {
    match g
    case Prose(text) => text
    case Comment(body) => Blanked("<!--" + body + "-->")
    case Raw(k, attrs, body) => Tag(k, attrs) + Blanked(body) + CloseTag(k)
  }

  function WrittenEnd(e: Ending): Bytes {
    match e
    case Done => ""
    case CutComment(body) => "<!--" + body
    case CutTag(k, attrs) => OpenTag(k) + attrs
    case CutBody(k, attrs, body) => Tag(k, attrs) + body
  }

  function ShownEnd(e: Ending): Bytes {
    match e
    case Done => ""
    case CutComment(body) => Blanked("<!--" + body)
    case CutTag(k, attrs) => Blanked(OpenTag(k) + attrs)
    case CutBody(k, attrs, body) => Tag(k, attrs) + Blanked(body)
  }

  /** Whole characters, at none of which a region opens when `y` comes behind: an opener that a
      name character follows, as in `<scriptish>`, is prose, and so is the beginning of one
      that goes on differently or not at all. */
  ghost predicate PlainBefore(t: Bytes, y: Bytes) {
    t == "" ||
    (!At(t + y, 0, "<!--") && CloserOf(t + y) == "" && CharWidth(t + y) <= |t| && PlainBefore(t[CharWidth(t + y)..], y))
  }

  predicate AttrsFit(attrs: Bytes) { '>' !in attrs && (attrs == "" || !('0' <= attrs[0] <= '9' || 'a' <= attrs[0] <= 'z' || 'A' <= attrs[0] <= 'Z' || attrs[0] == '-')) }

  /** `g` can stand before the text `y`. */
  ghost predicate Fits(g: Segment, y: Bytes) {
    match g
    case Prose(text) => PlainBefore(text, y)
    case Comment(body) => First(body + "-->", 0, |body|, "-->")
    case Raw(k, attrs, body) => AttrsFit(attrs) && First(body + CloseTag(k), 0, |body|, CloseTag(k))
  }

  ghost predicate FitsEnd(e: Ending) {
    match e
    case Done => true
    case CutComment(body) => NoneFrom(body, 0, "-->")
    case CutTag(k, attrs) => AttrsFit(attrs)
    case CutBody(k, attrs, body) => AttrsFit(attrs) && NoneFrom(body, 0, CloseTag(k))
  }

  function DocText(gs: seq<Segment>, e: Ending): Bytes {
    if gs == [] then WrittenEnd(e) else Written(gs[0]) + DocText(gs[1..], e)
  }

  function DocShown(gs: seq<Segment>, e: Ending): Bytes {
    if gs == [] then ShownEnd(e) else Shown(gs[0]) + DocShown(gs[1..], e)
  }

  ghost predicate Document(gs: seq<Segment>, e: Ending) {
    if gs == [] then FitsEnd(e) else Fits(gs[0], DocText(gs[1..], e)) && Document(gs[1..], e)
  }

  // ---------------------------------------------------------------- prose

  lemma {:induction false} ProsePrefix(t: Bytes, y: Bytes)
    requires PlainBefore(t, y)
    ensures BlankFrom(t + y) == t + BlankFrom(y)
    decreases |t|
  {
    if t == "" {
      assert t + y == y;
    } else {
      var w := CharWidth(t + y);
      PlainStep(t + y);
      ProsePrefix(t[w..], y);
      Resplit(t, w, y, BlankFrom(y));
    }
  }

  lemma Resplit(t: Bytes, w: nat, y: Bytes, z: Bytes)
    requires w <= |t|
    ensures (t + y)[w..] == t[w..] + y && (t + y)[..w] == t[..w] && t[..w] + (t[w..] + z) == t + z
  {
  }

  /** ASCII text without `<` is prose before anything. */
  lemma {:induction false} NoLtPlain(t: Bytes, y: Bytes)
    requires forall i :: 0 <= i < |t| ==> t[i] < '\U{80}' && t[i] != '<'
    ensures PlainBefore(t, y)
  {
    if t != "" {
      NoRegion(t + y);
      NoLtPlain(t[1..], y);
    }
  }

  lemma CloseTagPlain(k: Kind, y: Bytes)
    ensures PlainBefore(CloseTag(k), y)
  {
    var t := CloseTag(k);
    assert t[1] == '/' && (t + y)[1] == '/' && (t + y)[0] == '<';
    SlashBeginsNoRegion(t + y);
    NoLtPlain(t[1..], y);
  }

  // ---------------------------------------------------------------- comments

  /** First occurrences do not move when text is put around. */
  lemma FirstInside(a: Bytes, b: Bytes, y: Bytes, at: nat, p: Bytes)
    requires First(b, 0, at, p)
    ensures First(a + b + y, |a|, |a| + at, p)
  {
    var s := a + b + y;
    forall k | 0 <= k <= at
      ensures At(b, k, p) <==> At(s, |a| + k, p)
    {
      assert b[k..k + |p|] == s[|a| + k..|a| + k + |p|];
    }
    forall k | |a| <= k < |a| + at
      ensures !At(s, k, p)
    {
      assert At(b, k - |a|, p) <==> At(s, |a| + (k - |a|), p);
    }
  }

  lemma NoneInside(a: Bytes, b: Bytes, p: Bytes)
    requires NoneFrom(b, 0, p)
    ensures NoneFrom(a + b, |a|, p)
  {
    forall k | |a| <= k
      ensures !At(a + b, k, p)
    {
      AtTail(a + b, |a|, k, p);
      assert (a + b)[|a|..] == b;
    }
  }

  lemma CommentPrefix(body: Bytes, y: Bytes)
    requires First(body + "-->", 0, |body|, "-->")
    ensures BlankFrom("<!--" + body + "-->" + y) == Blanked("<!--" + body + "-->") + BlankFrom(y)
  {
    var c := "<!--" + body + "-->";
    var s := c + y;
    assert s == "<!--" + (body + "-->") + y;
    FirstInside("<!--", body + "-->", y, |body|, "-->");
    FirstIsFind(s, 4, 4 + |body|, "-->");
    assert s[0..4] == "<!--";
    assert CutOf(s) == Cut(0, |c|);
    assert s[..|c|] == c && s[|c|..] == y;
    RegionStep(s);
  }

  lemma CutCommentShown(body: Bytes)
    requires NoneFrom(body, 0, "-->")
    ensures BlankFrom("<!--" + body) == Blanked("<!--" + body)
  {
    var s := "<!--" + body;
    NoneInside("<!--", body, "-->");
    NoneIsFind(s, 4, "-->");
    assert s[0..4] == "<!--";
    assert CutOf(s) == Cut(0, |s|);
    RegionStep(s);
    assert s[..|s|] == s && s[|s|..] == "";
  }

  // ---------------------------------------------------------------- raw-text elements

  lemma TagCloser(k: Kind, attrs: Bytes, y: Bytes)
    requires AttrsFit(attrs) && (y == "" || attrs != "" || y[0] == '>')
    ensures CloserOf(OpenTag(k) + attrs + y) == CloseTag(k)
  {
    var open := OpenTag(k);
    var s := open + attrs + y;
    assert s[0..|open|] == open;
    assert |s| > |open| ==> s[|open|] == if attrs != "" then attrs[0] else y[0];
    OneTag(s);
  }

  lemma GtOfTag(k: Kind, attrs: Bytes, y: Bytes)
    requires '>' !in attrs
    ensures First(Tag(k, attrs) + y, 0, |Tag(k, attrs)| - 1, ">")
  {
    var t := OpenTag(k) + attrs;
    var s := Tag(k, attrs) + y;
    assert s[|t|..|t| + 1] == ">";
    forall i | 0 <= i < |t|
      ensures !At(s, i, ">")
    {
      assert s[i] == t[i] && s[i..i + 1] == [t[i]];
    }
  }

  lemma BodyEnds(k: Kind, tag: Bytes, body: Bytes, y: Bytes)
    requires First(body + y, 0, |body|, CloseTag(k)) || (y == "" && NoneFrom(body, 0, CloseTag(k)))
    ensures var s := tag + body + y;
            First(s, |tag|, |tag| + |body|, CloseTag(k)) || (|tag| + |body| == |s| && NoneFrom(s, |tag|, CloseTag(k)))
  {
    var s := tag + body + y;
    if First(body + y, 0, |body|, CloseTag(k)) {
      FirstInside(tag, body + y, "", |body|, CloseTag(k));
      assert tag + (body + y) + "" == s;
    } else {
      NoneInside(tag, body, CloseTag(k));
      assert s == tag + body;
    }
  }

  lemma IsElement(k: Kind, attrs: Bytes, body: Bytes, y: Bytes)
    requires AttrsFit(attrs)
    requires First(body + y, 0, |body|, CloseTag(k)) || (y == "" && NoneFrom(body, 0, CloseTag(k)))
    ensures var tag := Tag(k, attrs); Element(tag + body + y, |tag| - 1, |tag| + |body|)
  {
    ElementCloser(k, attrs, body, y);
    ElementGt(k, attrs, body, y);
    BodyEnds(k, Tag(k, attrs), body, y);
  }

  lemma ElementCloser(k: Kind, attrs: Bytes, body: Bytes, y: Bytes)
    requires AttrsFit(attrs)
    ensures CloserOf(Tag(k, attrs) + body + y) == CloseTag(k) && CloseTag(k) != ""
  {
    TagCloser(k, attrs, ">" + body + y);
    LastThree(OpenTag(k) + attrs, ">", body, y);
  }

  lemma LastThree(a: Bytes, b: Bytes, c: Bytes, d: Bytes)
    ensures a + b + c + d == a + (b + c + d)
  {
  }

  lemma ElementGt(k: Kind, attrs: Bytes, body: Bytes, y: Bytes)
    requires AttrsFit(attrs)
    ensures First(Tag(k, attrs) + body + y, 0, |Tag(k, attrs)| - 1, ">")
  {
    GtOfTag(k, attrs, body + y);
    assert Tag(k, attrs) + body + y == Tag(k, attrs) + (body + y);
  }

  lemma RawElement(k: Kind, attrs: Bytes, body: Bytes, y: Bytes)
    requires AttrsFit(attrs)
    requires First(body + y, 0, |body|, CloseTag(k)) || (y == "" && NoneFrom(body, 0, CloseTag(k)))
    ensures BlankFrom(Tag(k, attrs) + body + y) == Tag(k, attrs) + Blanked(body) + BlankFrom(y)
  {
    IsElement(k, attrs, body, y);
    ElementParts(Tag(k, attrs), body, y);
  }

  lemma ElementParts(tag: Bytes, body: Bytes, y: Bytes)
    requires tag != "" && Element(tag + body + y, |tag| - 1, |tag| + |body|)
    ensures BlankFrom(tag + body + y) == tag + Blanked(body) + BlankFrom(y)
  {
    SplitThree(tag, body, y);
    ElementStep(tag + body + y, |tag| - 1, |tag| + |body|);
  }

  lemma RawPrefix(k: Kind, attrs: Bytes, body: Bytes, y: Bytes)
    requires AttrsFit(attrs) && First(body + CloseTag(k), 0, |body|, CloseTag(k))
    ensures BlankFrom(Tag(k, attrs) + body + CloseTag(k) + y) == Tag(k, attrs) + Blanked(body) + CloseTag(k) + BlankFrom(y)
  {
    var close := CloseTag(k);
    FirstInside("", body + close, y, |body|, close);
    assert "" + (body + close) + y == body + (close + y);
    RawElement(k, attrs, body, close + y);
    CloseTagPlain(k, y);
    ProsePrefix(close, y);
    Regroup(Tag(k, attrs), body, close, y);
    Regroup(Tag(k, attrs), Blanked(body), close, BlankFrom(y));
  }

  lemma Regroup(a: Bytes, b: Bytes, c: Bytes, d: Bytes)
    ensures a + b + c + d == a + b + (c + d)
  {
  }

  lemma NoGt(s: Bytes)
    requires '>' !in s
    ensures NoneFrom(s, 0, ">")
  {
    forall i | 0 <= i
      ensures !At(s, i, ">")
    {
      assert i < |s| ==> s[i..i + 1] == [s[i]];
    }
  }

  lemma CutTagShown(k: Kind, attrs: Bytes)
    requires AttrsFit(attrs)
    ensures BlankFrom(OpenTag(k) + attrs) == Blanked(OpenTag(k) + attrs)
  {
    var s := OpenTag(k) + attrs;
    assert s == OpenTag(k) + attrs + "";
    TagCloser(k, attrs, "");
    CutTagAtEnd(s);
  }

  lemma CutTagAtEnd(s: Bytes)
    requires CloserOf(s) != "" && '>' !in s
    ensures BlankFrom(s) == Blanked(s)
  {
    OneTag(s);
    NoGt(s);
    assert s[0..] == s;
    NoneIsFind(s, 0, ">");
    assert CutOf(s) == Cut(0, |s|);
    RegionStep(s);
    assert s[..|s|] == s && s[|s|..] == "";
  }

  // ---------------------------------------------------------------- whole documents

  lemma SegmentPrefix(g: Segment, y: Bytes)
    requires Fits(g, y)
    ensures BlankFrom(Written(g) + y) == Shown(g) + BlankFrom(y)
  {
    match g
    case Prose(text) => ProsePrefix(text, y);
    case Comment(body) => CommentPrefix(body, y);
    case Raw(k, attrs, body) => RawPrefix(k, attrs, body, y);
  }

  lemma EndShown(e: Ending)
    requires FitsEnd(e)
    ensures BlankFrom(WrittenEnd(e)) == ShownEnd(e)
  {
    match e
    case Done =>
    case CutComment(body) => CutCommentShown(body);
    case CutTag(k, attrs) => CutTagShown(k, attrs);
    case CutBody(k, attrs, body) =>
      RawElement(k, attrs, body, "");
      assert Tag(k, attrs) + body + "" == Tag(k, attrs) + body;
      assert Tag(k, attrs) + Blanked(body) + "" == Tag(k, attrs) + Blanked(body);
  }

  /** Prose and tags come through unchanged, comments and the bodies of raw-text elements are
      blanked, and so is everything from an unterminated comment or tag on. */
  lemma {:induction false} DocumentBlanked(gs: seq<Segment>, e: Ending)
    requires Document(gs, e)
    ensures BlankFrom(DocText(gs, e)) == DocShown(gs, e)
  {
    if gs == [] {
      EndShown(e);
    } else {
      SegmentPrefix(gs[0], DocText(gs[1..], e));
      DocumentBlanked(gs[1..], e);
    }
  }

  // ---------------------------------------------------------------- every text is a document

  /** What lies before a first occurrence, with it, has its first occurrence there too. */
  lemma FirstCut(x: Bytes, at: nat, p: Bytes)
    requires First(x, 0, at, p)
    ensures x[..at] + p + x[at + |p|..] == x && First(x[..at] + p, 0, at, p)
  {
    var y := x[..at] + p;
    assert x[at..at + |p|] == p;
    assert y == x[..at + |p|];
    assert At(y, at, p) by { assert y[at..at + |p|] == p; }
    forall k | 0 <= k < at
      ensures !At(y, k, p)
    {
      assert !At(x, k, p) && y[k..k + |p|] == x[k..k + |p|];
    }
  }

  lemma TagOf(s: Bytes) returns (k: Kind, rest: Bytes)
    requires CloserOf(s) != ""
    ensures CloserOf(s) == CloseTag(k) && s == OpenTag(k) + rest
    ensures rest != "" ==> !(AsciiAlnum(rest[0]) || rest[0] == '-')
  {
    k := if OpensTag(s, "<script") then Script else Style;
    rest := s[|OpenTag(k)|..];
    assert s == s[0..|OpenTag(k)|] + rest;
  }

  lemma AttrsOf(k: Kind, rest: Bytes, n: nat)
    requires n <= |rest| && '>' !in rest[..n] && (rest != "" ==> !(AsciiAlnum(rest[0]) || rest[0] == '-'))
    ensures AttrsFit(rest[..n])
  {
  }

  lemma NoGtBefore(s: Bytes, gt: nat)
    requires First(s, 0, gt, ">")
    ensures '>' !in s[..gt] && s[gt] == '>'
  {
    ByteAt(s, gt, ">", 0);
    forall i | 0 <= i < gt
      ensures s[i] != '>'
    {
      assert !At(s, i, ">") && s[i..i + 1] == [s[i]];
    }
  }

  lemma NoGtAtAll(s: Bytes)
    requires NoneFrom(s, 0, ">")
    ensures '>' !in s
  {
    forall i | 0 <= i < |s|
      ensures s[i] != '>'
    {
      assert !At(s, i, ">") && s[i..i + 1] == [s[i]];
    }
  }

  lemma CutAtGt(k: Kind, rest: Bytes, n: nat)
    requires n < |rest| && rest[n] == '>'
    ensures OpenTag(k) + rest == Tag(k, rest[..n]) + rest[n + 1..]
  {
    assert rest == rest[..n] + ">" + rest[n + 1..];
  }

  /** The tag ends at the first `>` behind its name. */
  lemma GtOf(s: Bytes, k: Kind, rest: Bytes) returns (n: nat)
    requires s == OpenTag(k) + rest && Find(s, ">") >= 0
    ensures n < |rest| && rest[n] == '>' && '>' !in rest[..n]
  {
    assert s[0..] == s;
    FindFrom(s, 0, ">");
    var gt := Find(s, ">");
    NoGtBefore(s, gt);
    assert At(s, 0, OpenTag(k)) by { assert s[0..|OpenTag(k)|] == OpenTag(k); }
    TagBeforeGt(s, OpenTag(k), gt);
    n := gt - |OpenTag(k)|;
    assert forall i :: 0 <= i < n ==> rest[i] == s[..gt][|OpenTag(k)| + i];
  }

  /** A tag at the front that ends, with its attributes and what lies behind it. */
  lemma TagParts(s: Bytes) returns (k: Kind, attrs: Bytes, behind: Bytes)
    requires CloserOf(s) != "" && Find(s, ">") >= 0
    ensures s == Tag(k, attrs) + behind && AttrsFit(attrs)
  {
    var rest;
    k, rest := TagOf(s);
    var n := GtOf(s, k, rest);
    AttrsOf(k, rest, n);
    CutAtGt(k, rest, n);
    attrs, behind := rest[..n], rest[n + 1..];
  }

  lemma CutTagParts(s: Bytes) returns (k: Kind, attrs: Bytes)
    requires CloserOf(s) != "" && Find(s, ">") < 0
    ensures s == WrittenEnd(CutTag(k, attrs)) && FitsEnd(CutTag(k, attrs))
  {
    k, attrs := TagOf(s);
    assert s[0..] == s;
    FindFrom(s, 0, ">");
    NoGtAtAll(s);
    assert forall i :: 0 <= i < |attrs| ==> attrs[i] == s[|OpenTag(k)| + i];
    assert attrs[..|attrs|] == attrs;
    AttrsOf(k, attrs, |attrs|);
  }

  /** The first segment of a text and what follows it, or how the text ends. */
  datatype Peeled = Begins(g: Segment, rest: Bytes) | Ends(e: Ending)

  ghost predicate PeelOk(s: Bytes, p: Peeled) {
    match p
    case Begins(g, rest) => s == Written(g) + rest && |rest| < |s| && Fits(g, rest)
    case Ends(e) => s == WrittenEnd(e) && FitsEnd(e)
  }

  lemma PeelComment(s: Bytes) returns (r: Peeled)
    requires At(s, 0, "<!--")
    ensures PeelOk(s, r)
  {
    var x := s[4..];
    assert s == "<!--" + x && x[0..] == x;
    FindFrom(x, 0, "-->");
    var p := Find(x, "-->");
    if p < 0 {
      r := Ends(CutComment(x));
    } else {
      FirstCut(x, p, "-->");
      r := Begins(Comment(x[..p]), x[p + 3..]);
      assert "<!--" + (x[..p] + "-->" + x[p + 3..]) == "<!--" + x[..p] + "-->" + x[p + 3..];
    }
  }

  lemma PeelBody(k: Kind, attrs: Bytes, x: Bytes) returns (r: Peeled)
    requires AttrsFit(attrs)
    ensures PeelOk(Tag(k, attrs) + x, r)
  {
    var close := CloseTag(k);
    assert x[0..] == x;
    FindFrom(x, 0, close);
    var p := Find(x, close);
    if p < 0 {
      r := Ends(CutBody(k, attrs, x));
    } else {
      FirstCut(x, p, close);
      r := Begins(Raw(k, attrs, x[..p]), x[p + |close|..]);
      Around(Tag(k, attrs), x[..p], close, x[p + |close|..]);
    }
  }

  lemma Around(a: Bytes, b: Bytes, c: Bytes, d: Bytes)
    ensures a + (b + c + d) == a + b + c + d
  {
  }

  lemma PeelTag(s: Bytes) returns (r: Peeled)
    requires CloserOf(s) != ""
    ensures PeelOk(s, r)
  {
    if Find(s, ">") < 0 {
      var k, attrs := CutTagParts(s);
      r := Ends(CutTag(k, attrs));
    } else {
      var k, attrs, x := TagParts(s);
      r := PeelBody(k, attrs, x);
    }
  }

  lemma PeelProse(s: Bytes) returns (r: Peeled)
    requires s != "" && !At(s, 0, "<!--") && CloserOf(s) == ""
    ensures PeelOk(s, r)
  {
    var w := CharWidth(s);
    assert s[..w] + s[w..] == s && s[..w][w..] == "";
    r := Begins(Prose(s[..w]), s[w..]);
  }

  lemma Peel(s: Bytes) returns (r: Peeled)
    requires s != ""
    ensures PeelOk(s, r)
  {
    if At(s, 0, "<!--") {
      r := PeelComment(s);
    } else if CloserOf(s) != "" {
      r := PeelTag(s);
    } else {
      r := PeelProse(s);
    }
  }

  lemma Followed(g: Segment, rest: seq<Segment>, e: Ending) returns (gs: seq<Segment>)
    requires Document(rest, e) && Fits(g, DocText(rest, e))
    ensures Document(gs, e) && DocText(gs, e) == Written(g) + DocText(rest, e)
  {
    gs := [g] + rest;
    assert gs[1..] == rest;
  }

  /** Every text, well-formed or not, is some document: the theorem above speaks of all texts. */
  lemma {:induction false} EveryTextIsADocument(s: Bytes) returns (gs: seq<Segment>, e: Ending)
    ensures Document(gs, e) && DocText(gs, e) == s
    decreases |s|
  {
    if s == "" {
      gs, e := [], Done;
    } else {
      var r := Peel(s);
      if r.Ends? {
        gs, e := [], r.e;
      } else {
        gs, e := EveryTextIsADocument(r.rest);
        gs := Followed(r.g, gs, e);
      }
    }
  }
}
