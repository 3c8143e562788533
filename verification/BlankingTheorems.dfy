/** What blanking keeps, what it changes, and that doing it twice changes nothing more. */
module BlankingTheorems {
  import opened Blanking

  // ---------------------------------------------------------------- delimited_spans

  /** `at` is where `p` occurs first from `i` on. */
  ghost predicate First(s: Bytes, i: nat, at: nat, p: Bytes) {
    i <= at && At(s, at, p) && forall k :: i <= k < at ==> !At(s, k, p)
  }

  /** Everything there is to know about the spans: in bounds, in order and disjoint; each
      begins with the opener and ends with the first closer after it. */
  ghost predicate WellPlaced(s: Bytes, i: nat, spans: seq<Span>, open: Bytes, close: Bytes) {
    && (forall j :: 0 <= j < |spans| ==> SpanOk(s, i, spans[j], open, close))
    && (forall j, k :: 0 <= j < k < |spans| ==> spans[j].1 <= spans[k].0)
  }

  ghost predicate SpanOk(s: Bytes, i: nat, sp: Span, open: Bytes, close: Bytes) {
    && i <= sp.0 && sp.0 + |open| + |close| <= sp.1 <= |s|
    && At(s, sp.0, open) && First(s, sp.0 + |open|, sp.1 - |close|, close)
  }

  /** No closer at or after `m`. */
  ghost predicate NoneFrom(s: Bytes, m: nat, p: Bytes) { forall k :: m <= k ==> !At(s, k, p) }

  lemma FindFrom(s: Bytes, i: nat, p: Bytes)
    requires i <= |s|
    ensures var r := Find(s[i..], p); if r < 0 then NoneFrom(s, i, p) else First(s, i, i + r, p)
  {
    forall k | i <= k
      ensures At(s, k, p) <==> At(s[i..], k - i, p)
    {
      AtTail(s, i, k, p);
    }
  }

  /** An opener that lies in no span has no closer after it: in particular there is none in a
      gap before a span, and one behind the last span is unterminated. */
  ghost predicate LooseOpeners(s: Bytes, i: nat, spans: seq<Span>, open: Bytes, close: Bytes) {
    forall k :: i <= k && At(s, k, open) && !InSpans(spans, k) ==> NoneFrom(s, k + |open|, close)
  }

  lemma NoCloser(s: Bytes, i: nat, at: nat, open: Bytes, close: Bytes)
    requires First(s, i, at, open) && NoneFrom(s, at + |open|, close)
    ensures LooseOpeners(s, i, [], open, close)
  {
  }

  lemma MakeSpan(s: Bytes, i: nat, a: nat, b: nat, open: Bytes, close: Bytes)
    requires First(s, i, a, open) && First(s, a + |open|, b, close)
    ensures SpanOk(s, i, (a, b + |close|), open, close)
  {
  }

  lemma NextSpanOk(s: Bytes, i: nat, open: Bytes, close: Bytes)
    requires i <= |s|
    ensures var next := NextSpan(s, i, open, close);
            if next.None? then LooseOpeners(s, i, [], open, close)
            else SpanOk(s, i, next.value, open, close) && First(s, i, next.value.0, open)
  {
    FindFrom(s, i, open);
    var p := Find(s[i..], open);
    if p >= 0 {
      var after := i + p + |open|;
      FindFrom(s, after, close);
      var q := Find(s[after..], close);
      if q < 0 {
        NoCloser(s, i, i + p, open, close);
      } else {
        MakeSpan(s, i, i + p, after + q, open, close);
      }
    }
  }

  lemma {:induction false} SpansTheorem(s: Bytes, i: nat, open: Bytes, close: Bytes)
    requires i <= |s| && |open| + |close| > 0
    ensures WellPlaced(s, i, Spans(s, i, open, close), open, close)
    ensures LooseOpeners(s, i, Spans(s, i, open, close), open, close)
    decreases |s| - i
  {
    NextSpanOk(s, i, open, close);
    var next := NextSpan(s, i, open, close);
    if next.Some? {
      var rest := Spans(s, next.value.1, open, close);
      SpansTheorem(s, next.value.1, open, close);
      WellPlacedCons(s, i, next.value, rest, open, close);
      LooseOpenersCons(s, i, next.value, rest, open, close);
    }
  }

  lemma WellPlacedCons(s: Bytes, i: nat, sp: Span, rest: seq<Span>, open: Bytes, close: Bytes)
    requires SpanOk(s, i, sp, open, close) && WellPlaced(s, sp.1, rest, open, close)
    ensures WellPlaced(s, i, [sp] + rest, open, close)
  {
    var all := [sp] + rest;
    forall j | 0 <= j < |all|
      ensures SpanOk(s, i, all[j], open, close) && (j > 0 ==> sp.1 <= all[j].0)
    {
      if j > 0 {
        assert SpanOk(s, sp.1, rest[j - 1], open, close);
      }
    }
  }

  lemma InSpansCons(sp: Span, rest: seq<Span>, k: int)
    ensures InSpans([sp] + rest, k) <==> sp.0 <= k < sp.1 || InSpans(rest, k)
  {
    var all := [sp] + rest;
    assert all[0] == sp && all[1..] == rest;
    if InSpans(rest, k) {
      var j :| 0 <= j < |rest| && rest[j].0 <= k < rest[j].1;
      assert all[j + 1] == rest[j];
    }
  }

  lemma LooseOpenersCons(s: Bytes, i: nat, sp: Span, rest: seq<Span>, open: Bytes, close: Bytes)
    requires LooseOpeners(s, sp.1, rest, open, close) && First(s, i, sp.0, open)
    ensures LooseOpeners(s, i, [sp] + rest, open, close)
  {
    forall k | i <= k && At(s, k, open) && !InSpans([sp] + rest, k)
      ensures NoneFrom(s, k + |open|, close)
    {
      InSpansCons(sp, rest, k);
    }
  }

  /** No opener starts in the gap before a span. */
  lemma NoOpenerInGaps(s: Bytes, open: Bytes, close: Bytes, j: nat, k: nat)
    requires |open| + |close| > 0
    requires var spans := Spans(s, 0, open, close);
             j < |spans| && (if j == 0 then 0 else spans[j - 1].1) <= k < spans[j].0
    ensures !At(s, k, open)
  {
    var spans := Spans(s, 0, open, close);
    SpansTheorem(s, 0, open, close);
    assert SpanOk(s, 0, spans[j], open, close);
    forall a | 0 <= a < |spans|
      ensures spans[a].0 <= spans[a].1
    {
      assert SpanOk(s, 0, spans[a], open, close);
    }
    BetweenSpans(spans, j, k);
  }

  /** What lies behind one span and before the next is in none. */
  lemma BetweenSpans(spans: seq<Span>, j: nat, k: nat)
    requires forall a, b :: 0 <= a < b < |spans| ==> spans[a].1 <= spans[b].0
    requires forall a :: 0 <= a < |spans| ==> spans[a].0 <= spans[a].1
    requires j < |spans| && (if j == 0 then 0 else spans[j - 1].1) <= k < spans[j].0
    ensures !InSpans(spans, k)
  {
    forall m | 0 <= m < |spans|
      ensures !(spans[m].0 <= k < spans[m].1)
    {
      if m > j {
        assert spans[j].1 <= spans[m].0;
      } else if m < j {
        assert m == j - 1 || spans[m].1 <= spans[j - 1].0;
      }
    }
  }

  // ---------------------------------------------------------------- blank_block_comments

  /** Length and newlines stay, bytes outside the comments stay, bytes inside become blank. */
  lemma CommentsShape(s: Bytes, k: nat)
    requires k < |s|
    ensures |BlankComments(s)| == |s| && (BlankComments(s)[k] == '\n' <==> s[k] == '\n')
    ensures !InSpans(Spans(s, 0, "/*", "*/"), k) ==> BlankComments(s)[k] == s[k]
    ensures InSpans(Spans(s, 0, "/*", "*/"), k) && s[k] != '\n' ==> BlankComments(s)[k] == ' '
  {
  }

  /** Two visible bytes in the blanked text were there before, outside every comment. */
  lemma VisiblePair(s: Bytes, spans: seq<Span>, k: int, p: Bytes)
    requires |p| == 2 && p[0] != ' ' && p[0] != '\n' && p[1] != ' ' && p[1] != '\n'
    ensures At(Masked(s, spans), k, p) ==> At(s, k, p) && !InSpans(spans, k)
  {
    var t := Masked(s, spans);
    if At(t, k, p) {
      assert t[k] == t[k..k + 2][0] == p[0] && t[k + 1] == t[k..k + 2][1] == p[1];
      assert s[k..k + 2] == p;
    }
  }

  lemma NoSpansMasked(s: Bytes)
    ensures Masked(s, []) == s
  {
  }

  /** Blanking leaves no terminated comment behind, so blanking again changes nothing; an
      unterminated opener is left as it was both times. */
  lemma CommentsIdempotent(s: Bytes)
    ensures Spans(BlankComments(s), 0, "/*", "*/") == []
    ensures BlankComments(BlankComments(s)) == BlankComments(s)
  {
    var t := BlankComments(s);
    NoCommentsLeft(s);
    SpansTheorem(t, 0, "/*", "*/");
    var again := Spans(t, 0, "/*", "*/");
    assert again != [] ==> SpanOk(t, 0, again[0], "/*", "*/");
    NoSpansMasked(t);
  }

  lemma NoCommentsLeft(s: Bytes)
    ensures forall k, m :: At(BlankComments(s), k, "/*") && k + 2 <= m ==> !At(BlankComments(s), m, "*/")
  {
    SpansTheorem(s, 0, "/*", "*/");
    var spans := Spans(s, 0, "/*", "*/");
    forall k, m | At(Masked(s, spans), k, "/*") && k + 2 <= m
      ensures !At(Masked(s, spans), m, "*/")
    {
      VisiblePair(s, spans, k, "/*");
      VisiblePair(s, spans, m, "*/");
    }
  }

  // ---------------------------------------------------------------- blank_non_executing

  /** A comment that begins at `i` covers `k`: it has not been closed before `k`. */
  ghost predicate CommentCovers(s: Bytes, i: nat, k: nat) {
    At(s, i, "<!--") && i <= k && forall m :: i + 4 <= m && m + 3 <= k ==> !At(s, m, "-->")
  }

  /** `k` is in the body of the raw-text element whose tag begins at `i`, or that tag never
      ends. */
  ghost predicate ElementCovers(s: Bytes, i: nat, k: nat)
    requires i <= |s|
  {
    var close := CloserOf(s[i..]);
    close != "" && i <= k && (NoneFrom(s, i, ">") || exists g :: i <= g < k && BodyFrom(s, i, g, k, close))
  }

  ghost predicate BodyFrom(s: Bytes, i: nat, g: nat, k: nat, close: Bytes) {
    At(s, g, ">") && (forall m :: i <= m < g ==> !At(s, m, ">")) && forall m :: g < m <= k ==> !At(s, m, close)
  }

  ghost predicate Covered(s: Bytes, i: nat, k: nat)
    requires i <= |s|
  {
    CommentCovers(s, i, k) || ElementCovers(s, i, k)
  }

  /** What `CutOf` blanks at the front is covered by the region that begins there. */
  lemma CutCovers(s: Bytes, k: nat)
    requires s != "" && CutOf(s).keep <= k < CutOf(s).end
    ensures Covered(s, 0, k)
  {
    assert s[0..] == s;
    if At(s, 0, "<!--") {
      FindFrom(s, 4, "-->");
    } else if CloserOf(s) != "" {
      FindFrom(s, 0, ">");
      var g := Find(s, ">");
      if g >= 0 {
        FindFrom(s, g + 1, CloserOf(s));
        assert BodyFrom(s, 0, g, k, CloserOf(s));
      }
    }
  }

  lemma CoveredTail(s: Bytes, n: nat, i: nat, k: nat)
    requires n + i <= |s| && Covered(s[n..], i, k)
    ensures Covered(s, n + i, n + k)
  {
    assert s[n..][i..] == s[n + i..];
    forall m, p | n <= m
      ensures At(s, m, p) <==> At(s[n..], m - n, p)
    {
      AtTail(s, n, m, p);
    }
    if ElementCovers(s[n..], i, k) && !CommentCovers(s[n..], i, k) {
      if !NoneFrom(s[n..], i, ">") {
        var g :| i <= g < k && BodyFrom(s[n..], i, g, k, CloserOf(s[n..][i..]));
        assert BodyFrom(s, n + i, n + g, n + k, CloserOf(s[n + i..]));
      }
    }
  }

  /** Some opener at or before `k` begins a region that covers it. */
  ghost predicate Targeted(s: Bytes, k: nat) { exists i: nat :: i <= k && i <= |s| && Covered(s, i, k) }

  lemma TargetedTail(s: Bytes, n: nat, k: nat)
    requires n <= |s| && Targeted(s[n..], k)
    ensures Targeted(s, n + k)
  {
    var i: nat :| i <= k && i <= |s[n..]| && Covered(s[n..], i, k);
    CoveredTail(s, n, i, k);
  }

  /** Length and newlines stay; a byte that changes was visible, becomes a space, and lies in
      a region that begins at some opener at or before it. */
  ghost predicate ShapeOk(s: Bytes, t: Bytes) {
    |t| == |s| && forall k :: 0 <= k < |s| ==> ByteOk(s, t[k], k)
  }

  ghost predicate ByteOk(s: Bytes, b: char, k: nat)
    requires k < |s|
  {
    (b == '\n' <==> s[k] == '\n') && (b != s[k] ==> b == ' ' && Targeted(s, k))
  }

  lemma ByteTail(s: Bytes, n: nat, b: char, k: nat)
    requires n + k < |s| && ByteOk(s[n..], b, k)
    ensures ByteOk(s, b, n + k)
  {
    if b != s[n + k] {
      TargetedTail(s, n, k);
    }
  }

  lemma ShapeCons(s: Bytes, keep: nat, end: nat, rest: Bytes, t: Bytes)
    requires keep <= end <= |s| && t == s[..keep] + Blanked(s[keep..end]) + rest && ShapeOk(s[end..], rest)
    requires forall k :: keep <= k < end ==> Targeted(s, k)
    ensures ShapeOk(s, t)
  {
    forall k | 0 <= k < |s|
      ensures ByteOk(s, t[k], k)
    {
      PieceAt(s, keep, end, rest, k);
      if k >= end {
        ByteTail(s, end, t[k], k - end);
      }
    }
  }

  /** The result, piece by piece. */
  lemma PieceAt(s: Bytes, keep: nat, end: nat, rest: Bytes, k: nat)
    requires keep <= end <= |s| && |rest| == |s| - end && k < |s|
    ensures (s[..keep] + Blanked(s[keep..end]) + rest)[k] == if k < keep then s[k] else if k < end then BlankByte(s[k]) else rest[k - end]
  {
  }

  lemma {:induction false} BlankShape(s: Bytes)
    ensures ShapeOk(s, BlankFrom(s))
    decreases |s|
  {
    if s != "" {
      var c := CutOf(s);
      BlankShape(s[c.end..]);
      forall k | c.keep <= k < c.end
        ensures Targeted(s, k)
      {
        CutCovers(s, k);
      }
      ShapeCons(s, c.keep, c.end, BlankFrom(s[c.end..]), BlankFrom(s));
    }
  }

  // ---------------------------------------------------------------- idempotence

  predicate AllBlank(s: Bytes) { forall i :: 0 <= i < |s| ==> s[i] == ' ' || s[i] == '\n' }

  /** `f` copies a blank byte at the front. */
  ghost predicate CopiesBlank(f: Bytes -> Bytes) {
    forall s {:trigger f(s)} :: s != "" && (s[0] == ' ' || s[0] == '\n') ==> f(s) == [s[0]] + f(s[1..])
  }

  lemma {:induction false} CopiesAllBlank(f: Bytes -> Bytes, b: Bytes, y: Bytes)
    requires CopiesBlank(f) && AllBlank(b)
    ensures f(b + y) == b + f(y)
  {
    if b == "" {
      assert b + y == y;
    } else {
      assert (b + y)[1..] == b[1..] + y;
      CopiesAllBlank(f, b[1..], y);
      ConsAppend(b, f(y));
    }
  }

  lemma OneBlank(s: Bytes)
    requires s != "" && (s[0] == ' ' || s[0] == '\n')
    ensures BlankFrom(s) == [s[0]] + BlankFrom(s[1..])
  {
    NoRegion(s);
    PlainStep(s);
    assert s[..1] == [s[0]];
  }

  /** Blank bytes begin no region. */
  lemma BlankPrefix(b: Bytes, y: Bytes)
    requires AllBlank(b)
    ensures BlankFrom(b + y) == b + BlankFrom(y)
  {
    var f := s => BlankFrom(s);
    forall s {:trigger f(s)} | s != "" && (s[0] == ' ' || s[0] == '\n')
      ensures f(s) == [s[0]] + f(s[1..])
    {
      OneBlank(s);
    }
    CopiesAllBlank(f, b, y);
  }

  function CharWidth(s: Bytes): (w: nat)
    requires s != ""
    ensures 0 < w <= |s|
  {
    if Width(s[0]) <= |s| then Width(s[0]) else |s|
  }

  /** No region begins here: one character is copied. */
  lemma PlainStep(s: Bytes)
    requires s != "" && !At(s, 0, "<!--") && CloserOf(s) == ""
    ensures BlankFrom(s) == s[..CharWidth(s)] + BlankFrom(s[CharWidth(s)..])
  {
    var w := CharWidth(s);
    assert CutOf(s) == Cut(w, w) && Blanked(s[w..w]) == "" && s[..w] + "" == s[..w];
  }

  lemma ConsAppend(b: Bytes, y: Bytes)
    requires b != ""
    ensures [b[0]] + (b[1..] + y) == b + y
  {
  }

  lemma NoRegion(s: Bytes)
    requires s != "" && s[0] != '<'
    ensures !At(s, 0, "<!--") && CloserOf(s) == ""
  {
    FirstByte(s, "<!--");
    FirstByte(s, "<script");
    FirstByte(s, "<style");
  }

  lemma FirstByte(s: Bytes, p: Bytes)
    requires p != ""
    ensures At(s, 0, p) ==> s[0] == p[0]
  {
    if At(s, 0, p) {
      assert s[0] == s[0..|p|][0];
    }
  }

  lemma ByteAt(s: Bytes, k: int, p: Bytes, j: nat)
    requires j < |p|
    ensures At(s, k, p) ==> s[k + j] == p[j]
  {
    if At(s, k, p) {
      assert s[k..k + |p|][j] == p[j];
    }
  }

  /** A region begins with `<`. */
  lemma TargetedByLt(s: Bytes, k: nat)
    requires Targeted(s, k) && k < |s|
    ensures exists i :: 0 <= i <= k && s[i] == '<' && Covered(s, i, k)
  {
    var i: nat :| i <= k && i <= |s| && Covered(s, i, k);
    if CommentCovers(s, i, k) {
      ByteAt(s, i, "<!--", 0);
    } else {
      FirstByte(s[i..], "<script");
      FirstByte(s[i..], "<style");
    }
    assert s[i] == '<' && Covered(s, i, k);
  }

  /** Visible bytes of the result were there before. */
  lemma VisibleAt(s: Bytes, t: Bytes, k: nat, p: Bytes)
    requires ShapeOk(s, t) && forall j :: 0 <= j < |p| ==> p[j] != ' '
    ensures At(t, k, p) ==> At(s, k, p)
  {
    if At(t, k, p) {
      forall j | 0 <= j < |p|
        ensures s[k + j] == p[j]
      {
        ByteAt(t, k, p, j);
        assert ByteOk(s, t[k + j], k + j);
      }
      assert s[k..k + |p|] == p;
    }
  }

  /** Up to the second `<`, nothing changes unless a region begins at the front. */
  lemma Untouched(s: Bytes, t: Bytes, k: nat)
    requires ShapeOk(s, t) && k < |s| && !At(s, 0, "<!--") && CloserOf(s) == "" && forall i :: 1 <= i <= k ==> s[i] != '<'
    ensures t[k] == s[k]
  {
    assert ByteOk(s, t[k], k);
    assert s[0..] == s;
    if Targeted(s, k) {
      TargetedByLt(s, k);
    }
  }

  lemma NoLtInside(s: Bytes, p: Bytes)
    requires At(s, 0, p) && forall j :: 1 <= j < |p| ==> p[j] != '<'
    ensures forall i :: 1 <= i < |p| ==> s[i] != '<'
  {
    forall i | 1 <= i < |p|
      ensures s[i] != '<'
    {
      ByteAt(s, 0, p, i);
    }
  }

  /** Without an opener at its front, the result has none there either. */
  lemma NoTagAppears(s: Bytes, t: Bytes, open: Bytes)
    requires ShapeOk(s, t) && (open == "<script" || open == "<style")
    requires s != "" && !At(s, 0, "<!--") && CloserOf(s) == ""
    ensures !OpensTag(t, open)
  {
    if At(t, 0, open) {
      VisibleAt(s, t, 0, open);
      NoLtInside(s, open);
      assert !OpensTag(s, open);
      Untouched(s, t, |open|);
    }
  }

  lemma PlainStaysPlain(s: Bytes, t: Bytes)
    requires ShapeOk(s, t) && s != "" && !At(s, 0, "<!--") && CloserOf(s) == ""
    ensures !At(t, 0, "<!--") && CloserOf(t) == ""
  {
    NoTagAppears(s, t, "<script");
    NoTagAppears(s, t, "<style");
    VisibleAt(s, t, 0, "<!--");
  }

  lemma SlashBeginsNoRegion(s: Bytes)
    requires |s| >= 2 && s[1] == '/'
    ensures !At(s, 0, "<!--") && CloserOf(s) == ""
  {
    ByteAt(s, 0, "<!--", 1);
    ByteAt(s, 0, "<script", 1);
    ByteAt(s, 0, "<style", 1);
  }

  lemma PrefixUntouched(s: Bytes, t: Bytes, n: nat)
    requires ShapeOk(s, t) && n <= |s| && !At(s, 0, "<!--") && CloserOf(s) == "" && forall i :: 1 <= i < n ==> s[i] != '<'
    ensures t[..n] == s[..n]
  {
    forall j | 0 <= j < n
      ensures t[j] == s[j]
    {
      Untouched(s, t, j);
    }
  }

  lemma AtPrefix(s: Bytes, t: Bytes, n: nat, p: Bytes)
    requires |p| <= n <= |s| && n <= |t| && s[..n] == t[..n]
    ensures At(s, 0, p) <==> At(t, 0, p)
  {
    assert s[0..|p|] == s[..n][..|p|] && t[0..|p|] == t[..n][..|p|];
  }

  /** A closing tag at the front is kept. */
  lemma CloserKept(s: Bytes, t: Bytes, close: Bytes)
    requires ShapeOk(s, t) && (close == "</script>" || close == "</style>") && At(s, 0, close)
    ensures At(t, 0, close)
  {
    ByteAt(s, 0, close, 1);
    SlashBeginsNoRegion(s);
    NoLtInside(s, close);
    PrefixUntouched(s, t, |close|);
    AtPrefix(s, t, |close|, close);
  }

  /** A raw-text element at the front of `s`: its tag ends at `gt`, its body at `end`. */
  ghost predicate Element(s: Bytes, gt: nat, end: nat) {
    && CloserOf(s) != "" && First(s, 0, gt, ">") && gt < end <= |s|
    && (First(s, gt + 1, end, CloserOf(s)) || (end == |s| && NoneFrom(s, gt + 1, CloserOf(s))))
  }

  lemma TagEnds(s: Bytes)
    requires s != "" && !At(s, 0, "<!--") && CloserOf(s) != "" && CutOf(s).keep > 0
    ensures Find(s, ">") >= 0
  {
  }

  lemma ElementHere(s: Bytes) returns (gt: nat, end: nat)
    requires CloserOf(s) != "" && Find(s, ">") >= 0
    ensures Element(s, gt, end)
  {
    assert s[0..] == s;
    FindFrom(s, 0, ">");
    gt := Find(s, ">");
    FindFrom(s, gt + 1, CloserOf(s));
    var p := Find(s[gt + 1..], CloserOf(s));
    end := if p < 0 then |s| else gt + 1 + p;
  }

  lemma FirstIsFind(s: Bytes, i: nat, at: nat, p: Bytes)
    requires i <= |s| && First(s, i, at, p)
    ensures Find(s[i..], p) == at - i
  {
    FindFrom(s, i, p);
  }

  lemma NoneIsFind(s: Bytes, i: nat, p: Bytes)
    requires i <= |s| && NoneFrom(s, i, p)
    ensures Find(s[i..], p) == -1
  {
    FindFrom(s, i, p);
  }

  lemma ElementCutIs(s: Bytes, gt: nat, end: nat)
    requires Element(s, gt, end)
    ensures CutOf(s) == Cut(gt + 1, end)
  {
    OneTag(s);
    assert s[0..] == s;
    FirstIsFind(s, 0, gt, ">");
    if First(s, gt + 1, end, CloserOf(s)) {
      FirstIsFind(s, gt + 1, end, CloserOf(s));
    } else {
      NoneIsFind(s, gt + 1, CloserOf(s));
    }
  }

  lemma ElementStep(s: Bytes, gt: nat, end: nat)
    requires Element(s, gt, end)
    ensures BlankFrom(s) == s[..gt + 1] + Blanked(s[gt + 1..end]) + BlankFrom(s[end..])
  {
    ElementCutIs(s, gt, end);
  }

  lemma TagBeforeGt(s: Bytes, open: Bytes, gt: nat)
    requires At(s, 0, open) && '>' !in open && At(s, gt, ">")
    ensures gt >= |open|
  {
    ByteAt(s, gt, ">", 0);
    forall j | 0 <= j < |open|
      ensures s[j] != '>'
    {
      ByteAt(s, 0, open, j);
    }
  }

  lemma OneTag(s: Bytes)
    requires At(s, 0, "<style") || At(s, 0, "<script")
    ensures !At(s, 0, "<!--") && !(At(s, 0, "<style") && At(s, 0, "<script"))
  {
    ByteAt(s, 0, "<style", 1);
    ByteAt(s, 0, "<style", 2);
    ByteAt(s, 0, "<script", 1);
    ByteAt(s, 0, "<script", 2);
    ByteAt(s, 0, "<!--", 1);
  }

  lemma SameCloser(s: Bytes, t: Bytes, n: nat)
    requires n <= |s| == |t| && s[..n] == t[..n] && CloserOf(s) != ""
    requires n > if CloserOf(s) == "</script>" then 7 else 6
    ensures !At(t, 0, "<!--") && CloserOf(t) == CloserOf(s)
  {
    OneTag(s);
    AtPrefix(s, t, n, "<script");
    AtPrefix(s, t, n, "<style");
    AtPrefix(s, t, n, "<!--");
    var k := if CloserOf(s) == "</script>" then 7 else 6;
    assert s[k] == s[..n][k] == t[..n][k] == t[k];
  }

  lemma SameGt(s: Bytes, t: Bytes, gt: nat)
    requires First(s, 0, gt, ">") && |t| == |s| && t[..gt + 1] == s[..gt + 1]
    ensures First(t, 0, gt, ">")
  {
    forall k | 0 <= k <= gt
      ensures At(t, k, ">") <==> At(s, k, ">")
    {
      assert t[k] == t[..gt + 1][k] == s[..gt + 1][k] == s[k];
      assert s[k..k + 1] == [s[k]] && t[k..k + 1] == [t[k]];
    }
  }

  /** The tag itself is kept, so it opens the same element again. */
  lemma SameTag(s: Bytes, t: Bytes, gt: nat)
    requires CloserOf(s) != "" && First(s, 0, gt, ">") && |t| == |s| && t[..gt + 1] == s[..gt + 1]
    ensures CloserOf(t) == CloserOf(s) && First(t, 0, gt, ">")
  {
    TagBeforeGt(s, if CloserOf(s) == "</script>" then "<script" else "<style", gt);
    SameCloser(s, t, gt + 1);
    SameGt(s, t, gt);
  }

  lemma BlankedTwice(s: Bytes)
    ensures Blanked(Blanked(s)) == Blanked(s) && AllBlank(Blanked(s))
  {
  }

  lemma SplitThree(a: Bytes, b: Bytes, c: Bytes)
    ensures var t := a + b + c; t[..|a|] == a && t[|a|..] == b + c && t[|a|..|a| + |b|] == b && t[|a| + |b|..] == c
  {
  }

  /** No closer begins inside blank bytes. */
  lemma CloserBehindBlank(t: Bytes, i: nat, end: nat, close: Bytes)
    requires i <= end <= |t| && AllBlank(t[i..end]) && (close == "</script>" || close == "</style>")
    requires end < |t| ==> At(t[end..], 0, close)
    ensures First(t, i, end, close) || (end == |t| && NoneFrom(t, i, close))
  {
    forall k | i <= k < end
      ensures !At(t, k, close)
    {
      assert t[k] == t[i..end][k - i];
      ByteAt(t, k, close, 0);
    }
    if end < |t| {
      AtTail(t, end, end, close);
    }
  }

  /** Blanking an element again: same tag, same body, same rest. */
  lemma ElementAgain(s: Bytes, t: Bytes, gt: nat, body: Bytes, y: Bytes)
    requires CloserOf(s) != "" && First(s, 0, gt, ">") && AllBlank(body)
    requires t == s[..gt + 1] + body + y && |t| == |s| && (y != "" ==> At(y, 0, CloserOf(s)))
    ensures Element(t, gt, gt + 1 + |body|)
  {
    SplitThree(s[..gt + 1], body, y);
    SameTag(s, t, gt);
    CloserBehindBlank(t, gt + 1, gt + 1 + |body|, CloserOf(s));
  }

  lemma ElementOf(t: Bytes, tag: Bytes, body: Bytes, y: Bytes)
    requires t == tag + body + y && tag != "" && Element(t, |tag| - 1, |tag| + |body|) && Blanked(body) == body
    ensures BlankFrom(t) == tag + body + BlankFrom(y)
  {
    ElementStep(t, |tag| - 1, |tag| + |body|);
    SplitThree(tag, body, y);
  }

  lemma AgainParts(s: Bytes, t: Bytes, gt: nat, body: Bytes, y: Bytes)
    requires CloserOf(s) != "" && First(s, 0, gt, ">") && AllBlank(body) && Blanked(body) == body
    requires gt + 1 + |body| + |y| == |s| && (y != "" ==> At(y, 0, CloserOf(s)))
    requires t == s[..gt + 1] + body + y
    ensures BlankFrom(t) == s[..gt + 1] + body + BlankFrom(y)
  {
    ElementAgain(s, t, gt, body, y);
    ElementOf(t, s[..gt + 1], body, y);
  }

  lemma RestKeepsCloser(s: Bytes, gt: nat, end: nat)
    requires Element(s, gt, end)
    ensures |BlankFrom(s[end..])| == |s| - end && (BlankFrom(s[end..]) != "" ==> At(BlankFrom(s[end..]), 0, CloserOf(s)))
  {
    BlankShape(s[end..]);
    if end < |s| {
      AtTail(s, end, end, CloserOf(s));
      CloserKept(s[end..], BlankFrom(s[end..]), CloserOf(s));
    }
  }

  lemma ElementTwice(s: Bytes, gt: nat, end: nat)
    requires Element(s, gt, end)
    ensures BlankFrom(BlankFrom(s)) == s[..gt + 1] + Blanked(s[gt + 1..end]) + BlankFrom(BlankFrom(s[end..]))
  {
    ElementStep(s, gt, end);
    RestKeepsCloser(s, gt, end);
    BlankedTwice(s[gt + 1..end]);
    AgainParts(s, BlankFrom(s), gt, Blanked(s[gt + 1..end]), BlankFrom(s[end..]));
  }

  /** A region that is blanked to its end, whatever it was. */
  lemma WholeRegionAgain(s: Bytes, end: nat)
    requires end <= |s|
    ensures BlankFrom(Blanked(s[..end]) + BlankFrom(s[end..])) == Blanked(s[..end]) + BlankFrom(BlankFrom(s[end..]))
  {
    BlankedTwice(s[..end]);
    BlankPrefix(Blanked(s[..end]), BlankFrom(s[end..]));
  }

  lemma RegionStep(s: Bytes)
    requires s != "" && CutOf(s).keep == 0
    ensures BlankFrom(s) == Blanked(s[..CutOf(s).end]) + BlankFrom(s[CutOf(s).end..])
  {
    assert s[0..CutOf(s).end] == s[..CutOf(s).end] && s[..0] == "";
  }

  lemma PlainAgain(s: Bytes)
    requires s != "" && !At(s, 0, "<!--") && CloserOf(s) == ""
    ensures var w := CharWidth(s); BlankFrom(BlankFrom(s)) == s[..w] + BlankFrom(BlankFrom(s[w..]))
  {
    var t, w := BlankFrom(s), CharWidth(s);
    PlainStep(s);
    BlankShape(s);
    PlainStaysPlain(s, t);
    PlainStep(t);
    assert t[..w] == s[..w] && t[w..] == BlankFrom(s[w..]);
  }

  /** Blanking a blanked text changes nothing, unterminated comments and tags included. */
  lemma {:induction false} BlankIdempotent(s: Bytes)
    ensures BlankFrom(BlankFrom(s)) == BlankFrom(s)
    decreases |s|
  {
    if s == "" {
    } else if CutOf(s).keep == 0 {
      var end := CutOf(s).end;
      RegionStep(s);
      WholeRegionAgain(s, end);
      BlankIdempotent(s[end..]);
    } else if CloserOf(s) != "" {
      TagEnds(s);
      var gt, end := ElementHere(s);
      ElementStep(s, gt, end);
      ElementTwice(s, gt, end);
      BlankIdempotent(s[end..]);
    } else {
      PlainAgain(s);
      PlainStep(s);
      BlankIdempotent(s[CharWidth(s)..]);
    }
  }
}
