/** Blanking whole regions keeps UTF-8 well-formed, so the final conversion cannot fail. */
module BlankingUtf8 {
  import opened Blanking
  import opened BlankingTheorems

  predicate Ascii(b: char) { b < '\U{80}' }

  predicate Continues(b: char) { '\U{80}' <= b < '\U{C0}' }

  /** Lead bytes of shortest-form characters up to U+10FFFF. */
  predicate Leads(b: char) { Ascii(b) || '\U{C2}' <= b <= '\U{F4}' }

  /** What may follow the lead byte: overlong forms, surrogates and values beyond U+10FFFF are
      told apart here. */
  predicate Follows(lead: char, b: char) {
    Continues(b) &&
    (lead == '\U{E0}' ==> b >= '\U{A0}') && (lead == '\U{ED}' ==> b < '\U{A0}') &&
    (lead == '\U{F0}' ==> b >= '\U{90}') && (lead == '\U{F4}' ==> b < '\U{90}')
  }

  /** One character of one to four bytes at the front. */
  predicate CharHere(s: Bytes) {
    s != "" && Leads(s[0]) && Width(s[0]) <= |s| &&
    (forall j :: 1 <= j < Width(s[0]) ==> Continues(s[j])) && (Width(s[0]) > 1 ==> Follows(s[0], s[1]))
  }

  /** Well-formed UTF-8 (Table 3-7 of the Unicode Standard; section 4 of RFC 3629). */
  predicate Utf8(s: Bytes) { s == "" || (CharHere(s) && Utf8(s[Width(s[0])..])) }

  lemma CharStays(a: Bytes, b: Bytes)
    requires CharHere(a)
    ensures CharHere(a + b) && (a + b)[0] == a[0] && (a + b)[Width(a[0])..] == a[Width(a[0])..] + b
  {
    assert forall j :: 0 <= j < Width(a[0]) ==> (a + b)[j] == a[j];
  }

  lemma {:induction false} Utf8Concat(a: Bytes, b: Bytes)
    requires Utf8(a) && Utf8(b)
    ensures Utf8(a + b)
    decreases |a|
  {
    if a == "" {
      assert a + b == b;
    } else {
      CharStays(a, b);
      Utf8Concat(a[Width(a[0])..], b);
    }
  }

  /** A text may be cut before any byte that is not a continuation. */
  lemma {:induction false} Utf8Cut(s: Bytes, k: nat)
    requires Utf8(s) && k <= |s| && (k == |s| || !Continues(s[k]))
    ensures Utf8(s[..k]) && Utf8(s[k..])
    decreases |s|
  {
    if k == 0 {
      assert s[0..] == s;
    } else {
      var w := Width(s[0]);
      assert k >= w;
      Utf8Cut(s[w..], k - w);
      assert s[w..][..k - w] == s[..k][w..] && s[w..][k - w..] == s[k..];
    }
  }

  /** And behind any ASCII byte. */
  lemma Utf8CutBehind(s: Bytes, k: nat)
    requires Utf8(s) && 0 < k <= |s| && Ascii(s[k - 1])
    ensures Utf8(s[..k]) && Utf8(s[k..])
  {
    Utf8Cut(s, k - 1);
    assert s[k - 1..][1..] == s[k..];
    assert s[..k] == s[..k - 1] + [s[k - 1]];
    assert [s[k - 1]][1..] == "";
    Utf8Concat(s[..k - 1], [s[k - 1]]);
  }

  lemma {:induction false} AsciiUtf8(s: Bytes)
    requires forall i :: 0 <= i < |s| ==> Ascii(s[i])
    ensures Utf8(s)
  {
    if s != "" {
      AsciiUtf8(s[1..]);
    }
  }

  // ---------------------------------------------------------------- blank_non_executing

  /** Where a region is kept, blanked and left, characters are whole. */
  ghost predicate CutsWhole(s: Bytes, c: Cut) { c.keep <= c.end <= |s| && Utf8(s[..c.keep]) && Utf8(s[c.end..]) }

  lemma CommentEnd(s: Bytes, p: int)
    requires Utf8(s) && |s| >= 4 && p >= 0 && At(s[4..], p, "-->")
    ensures 4 + p + 3 <= |s| && Utf8(s[4 + p + 3..])
  {
    ByteAt(s[4..], p, "-->", 2);
    Utf8CutBehind(s, 4 + p + 3);
  }

  lemma CommentCuts(s: Bytes)
    requires Utf8(s) && At(s, 0, "<!--")
    ensures s != "" && CutsWhole(s, CutOf(s))
  {
    var p := Find(s[4..], "-->");
    if p >= 0 {
      CommentEnd(s, p);
    }
    assert s[..0] == "" && s[|s|..] == "";
  }

  lemma ElementCuts(s: Bytes, gt: nat, end: nat)
    requires Utf8(s) && Element(s, gt, end)
    ensures CutsWhole(s, Cut(gt + 1, end))
  {
    ByteAt(s, gt, ">", 0);
    Utf8CutBehind(s, gt + 1);
    if end < |s| {
      ByteAt(s, end, CloserOf(s), 0);
    }
    Utf8Cut(s, end);
  }

  lemma TagCuts(s: Bytes)
    requires s != "" && Utf8(s) && !At(s, 0, "<!--") && CloserOf(s) != ""
    ensures CutsWhole(s, CutOf(s))
  {
    if Find(s, ">") >= 0 {
      var gt, end := ElementHere(s);
      ElementCuts(s, gt, end);
      ElementCutIs(s, gt, end);
    } else {
      assert CutOf(s) == Cut(0, |s|) && s[..0] == "" && s[|s|..] == "";
    }
  }

  lemma PlainCuts(s: Bytes)
    requires s != "" && Utf8(s) && !At(s, 0, "<!--") && CloserOf(s) == ""
    ensures CutsWhole(s, CutOf(s))
  {
    WholeChar(s);
    assert CutOf(s) == Cut(Width(s[0]), Width(s[0]));
  }

  lemma CutsBetweenChars(s: Bytes)
    requires s != "" && Utf8(s)
    ensures CutsWhole(s, CutOf(s))
  {
    if At(s, 0, "<!--") {
      CommentCuts(s);
    } else if CloserOf(s) != "" {
      TagCuts(s);
    } else {
      PlainCuts(s);
    }
  }

  lemma WholeChar(s: Bytes)
    requires s != "" && Utf8(s)
    ensures Width(s[0]) <= |s| && Utf8(s[..Width(s[0])]) && Utf8(s[Width(s[0])..])
  {
    var a := s[..Width(s[0])];
    assert a[Width(a[0])..] == "";
  }

  lemma ThreeParts(a: Bytes, b: Bytes, d: Bytes)
    requires Utf8(a) && (forall i :: 0 <= i < |b| ==> Ascii(b[i])) && Utf8(d)
    ensures Utf8(a + b + d)
  {
    AsciiUtf8(b);
    Utf8Concat(a, b);
    Utf8Concat(a + b, d);
  }

  lemma {:induction false} BlankKeepsUtf8(s: Bytes)
    requires Utf8(s)
    ensures Utf8(BlankFrom(s))
    decreases |s|
  {
    if s != "" {
      var c := CutOf(s);
      CutsBetweenChars(s);
      BlankKeepsUtf8(s[c.end..]);
      ThreeParts(s[..c.keep], Blanked(s[c.keep..c.end]), BlankFrom(s[c.end..]));
    }
  }

  // ---------------------------------------------------------------- blank_block_comments

  /** Every span begins with an ASCII byte and ends with one. */
  ghost predicate AsciiEdges(s: Bytes, spans: seq<Span>) {
    forall j :: 0 <= j < |spans| ==> spans[j].0 < spans[j].1 <= |s| && Ascii(s[spans[j].0]) && Ascii(s[spans[j].1 - 1])
  }

  /** A character is inside a span as a whole or not at all. */
  lemma SpansHoldWholeChars(s: Bytes, spans: seq<Span>, i: nat, k: nat)
    requires AsciiEdges(s, spans) && i < |s| && CharHere(s[i..]) && i <= k < i + Width(s[i])
    ensures InSpans(spans, k) <==> InSpans(spans, i)
  {
    assert forall j :: i < j < i + Width(s[i]) ==> Continues(s[j]) by {
      forall j | i < j < i + Width(s[i])
        ensures Continues(s[j])
      {
        assert s[i..][j - i] == s[j];
      }
    }
    forall j | 0 <= j < |spans|
      ensures spans[j].0 <= k < spans[j].1 <==> spans[j].0 <= i < spans[j].1
    {
      var (a, b) := spans[j];
      assert Ascii(s[a]) && Ascii(s[b - 1]);
    }
  }

  lemma {:induction false} MaskedUtf8(s: Bytes, spans: seq<Span>, i: nat)
    requires AsciiEdges(s, spans) && i <= |s| && Utf8(s[i..])
    ensures Utf8(Masked(s, spans)[i..])
    decreases |s| - i
  {
    if i < |s| {
      var w := Width(s[i]);
      assert s[i..][0] == s[i] && s[i..][w..] == s[i + w..];
      MaskedUtf8(s, spans, i + w);
      WholeOrNot(s, spans, i);
      MaskedChar(s, Masked(s, spans), spans, i);
      SplitAt(Masked(s, spans), i, w);
      Utf8Concat(Masked(s, spans)[i..i + w], Masked(s, spans)[i + w..]);
    }
  }

  lemma SplitAt(t: Bytes, i: nat, w: nat)
    requires i + w <= |t|
    ensures t[i..i + w] + t[i + w..] == t[i..]
  {
  }

  lemma WholeOrNot(s: Bytes, spans: seq<Span>, i: nat)
    requires AsciiEdges(s, spans) && i < |s| && CharHere(s[i..])
    ensures forall k :: i <= k < i + Width(s[i]) ==> (InSpans(spans, k) <==> InSpans(spans, i))
  {
    forall k | i <= k < i + Width(s[i])
      ensures InSpans(spans, k) <==> InSpans(spans, i)
    {
      SpansHoldWholeChars(s, spans, i, k);
    }
  }

  lemma MaskedChar(s: Bytes, t: Bytes, spans: seq<Span>, i: nat)
    requires t == Masked(s, spans) && i < |s| && CharHere(s[i..])
    requires forall k :: i <= k < i + Width(s[i]) ==> (InSpans(spans, k) <==> InSpans(spans, i))
    ensures Utf8(t[i..i + Width(s[i])])
  {
    var w := Width(s[i]);
    var a := t[i..i + w];
    if InSpans(spans, i) {
      AsciiUtf8(a);
    } else {
      assert a[0] == s[i];
      forall j | 1 <= j < w
        ensures Continues(a[j])
      {
        assert a[j] == s[i + j] == s[i..][j];
      }
      assert w > 1 ==> a[1] == s[i + 1] == s[i..][1];
      assert a[w..] == "";
    }
  }

  lemma SpanEdges(s: Bytes, sp: Span)
    requires SpanOk(s, 0, sp, "/*", "*/")
    ensures sp.0 < sp.1 <= |s| && Ascii(s[sp.0]) && Ascii(s[sp.1 - 1])
  {
    ByteAt(s, sp.0, "/*", 0);
    ByteAt(s, sp.1 - 2, "*/", 1);
  }

  lemma CommentEdges(s: Bytes, spans: seq<Span>)
    requires WellPlaced(s, 0, spans, "/*", "*/")
    ensures AsciiEdges(s, spans)
  {
    forall j | 0 <= j < |spans|
      ensures spans[j].0 < spans[j].1 <= |s| && Ascii(s[spans[j].0]) && Ascii(s[spans[j].1 - 1])
    {
      SpanEdges(s, spans[j]);
    }
  }

  lemma CommentsKeepUtf8(s: Bytes)
    requires Utf8(s)
    ensures Utf8(BlankComments(s))
  {
    SpansTheorem(s, 0, "/*", "*/");
    CommentEdges(s, Spans(s, 0, "/*", "*/"));
    assert s[0..] == s && BlankComments(s)[0..] == BlankComments(s);
    MaskedUtf8(s, Spans(s, 0, "/*", "*/"), 0);
  }
}
