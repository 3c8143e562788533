/** The blanking loops, working in place on a byte buffer. */
module BlankingCode {
  import opened Blanking
  import opened BlankingTheorems

  method FindBytes(s: Bytes, p: Bytes) returns (r: int)
    ensures r == Find(s, p)
  {
    for k := 0 to |s| + 1
      invariant forall j :: 0 <= j < k ==> !At(s, j, p)
    {
      if At(s, k, p) {
        return k;
      }
    }
    return -1;
  }

  method FindSpan(s: Bytes, i: nat, open: Bytes, close: Bytes) returns (next: Option<Span>)
    requires i <= |s|
    ensures next == NextSpan(s, i, open, close)
  {
    var p := FindBytes(s[i..], open);
    if p < 0 {
      return None;
    }
    var start := i + p;
    var after := start + |open|;
    var q := FindBytes(s[after..], close);
    if q < 0 {
      return None;
    }
    return Some((start, after + q + |close|));
  }

  method DelimitedSpans(s: Bytes, open: Bytes, close: Bytes) returns (out: seq<Span>)
    requires |open| + |close| > 0
    ensures out == Spans(s, 0, open, close)
  {
    out := [];
    var i := 0;
    while true
      invariant i <= |s| && out + Spans(s, i, open, close) == Spans(s, 0, open, close)
      decreases |s| - i
    {
      var next := FindSpan(s, i, open, close);
      if next.None? {
        break;
      }
      out := out + [next.value];
      i := next.value.1;
    }
  }

  /** The buffer holds `s` with exactly `from..to` blanked on top of what it held before. */
  method BlankRange(out: array<char>, from: nat, to: nat)
    requires from <= to <= out.Length
    modifies out
    ensures out[..] == old(out[..])[..from] + Blanked(old(out[..])[from..to]) + old(out[..])[to..]
  {
    for k := from to to
      invariant forall j :: 0 <= j < out.Length ==> out[j] == if from <= j < k then BlankByte(old(out[j])) else old(out[j])
    {
      out[k] := BlankByte(out[k]);
    }
    RangeBlanked(old(out[..]), out[..], from, to);
  }

  lemma RangeBlanked(s: Bytes, t: Bytes, from: nat, to: nat)
    requires from <= to <= |s| == |t|
    requires forall j :: 0 <= j < |s| ==> t[j] == if from <= j < to then BlankByte(s[j]) else s[j]
    ensures t == s[..from] + Blanked(s[from..to]) + s[to..]
  {
  }

  method Buffer(s: Bytes) returns (out: array<char>)
    ensures fresh(out) && out[..] == s
  {
    out := new char[|s|](i requires 0 <= i < |s| => s[i]);
  }

  lemma InSpansSnoc(spans: seq<Span>, sp: Span, k: int)
    ensures InSpans(spans + [sp], k) <==> InSpans(spans, k) || sp.0 <= k < sp.1
  {
    var all := spans + [sp];
    assert all[|spans|] == sp;
    if InSpans(spans, k) {
      var j :| 0 <= j < |spans| && spans[j].0 <= k < spans[j].1;
      assert all[j] == spans[j];
    }
  }

  /** Blanking one more span. */
  lemma MaskedSnoc(s: Bytes, spans: seq<Span>, sp: Span)
    requires sp.0 <= sp.1 <= |s|
    ensures var m := Masked(s, spans);
            Masked(s, spans + [sp]) == m[..sp.0] + Blanked(m[sp.0..sp.1]) + m[sp.1..]
  {
    var m := Masked(s, spans);
    var r := m[..sp.0] + Blanked(m[sp.0..sp.1]) + m[sp.1..];
    forall k | 0 <= k < |s|
      ensures Masked(s, spans + [sp])[k] == r[k]
    {
      InSpansSnoc(spans, sp, k);
    }
  }

  ghost predicate InBounds(n: nat, spans: seq<Span>) { forall j :: 0 <= j < |spans| ==> spans[j].0 <= spans[j].1 <= n }

  lemma SpansInBounds(s: Bytes, spans: seq<Span>, open: Bytes, close: Bytes)
    requires WellPlaced(s, 0, spans, open, close)
    ensures InBounds(|s|, spans)
  {
    forall j | 0 <= j < |spans|
      ensures spans[j].0 <= spans[j].1 <= |s|
    {
      assert SpanOk(s, 0, spans[j], open, close);
    }
  }

  method BlankEach(out: array<char>, spans: seq<Span>)
    requires InBounds(out.Length, spans)
    modifies out
    ensures out[..] == Masked(old(out[..]), spans)
  {
    ghost var s := out[..];
    NoSpansMasked(s);
    for j := 0 to |spans|
      invariant out[..] == Masked(s, spans[..j])
    {
      MaskedSnoc(s, spans[..j], spans[j]);
      assert spans[..j] + [spans[j]] == spans[..j + 1];
      BlankRange(out, spans[j].0, spans[j].1);
    }
    assert spans[..|spans|] == spans;
  }

  method BlankBlockComments(s: Bytes) returns (r: Bytes)
    ensures r == BlankComments(s)
  {
    var out := Buffer(s);
    var spans := DelimitedSpans(s, "/*", "*/");
    SpansTheorem(s, 0, "/*", "*/");
    SpansInBounds(s, spans, "/*", "*/");
    BlankEach(out, spans);
    r := out[..];
  }

  /** The buffer while the scan stands at `i`: done up to there, untouched behind, where `tail` is
      still to come of the `whole` result. */
  ghost predicate PartDone(s: Bytes, i: nat, out: seq<char>, tail: Bytes, whole: Bytes) {
    i <= |s| && |out| == |s| && out[i..] == s[i..] && out[..i] + tail == whole
  }

  ghost predicate Halfway(s: Bytes, i: nat, out: seq<char>) { i <= |s| && PartDone(s, i, out, BlankFrom(s[i..]), BlankFrom(s)) }

  lemma AdvanceParts(s: Bytes, i: nat, out: seq<char>, keep: nat, end: nat, next: seq<char>)
    requires i <= keep <= end <= |s| == |out| && out[i..] == s[i..]
    requires next == out[..keep] + Blanked(out[keep..end]) + out[end..]
    ensures |next| == |s| && next[end..] == s[end..] && s[i..][end - i..] == s[end..]
    ensures next[..end] == out[..i] + s[i..][..keep - i] + Blanked(s[i..][keep - i..end - i])
  {
    assert out[..keep] == out[..i] + out[i..][..keep - i] && out[keep..end] == out[i..][keep - i..end - i];
    assert out[end..] == out[i..][end - i..];
  }

  /** One blanked stretch brings the scan to its end. */
  lemma AdvancePart(s: Bytes, i: nat, out: seq<char>, keep: nat, end: nat, next: seq<char>, tail: Bytes, tail': Bytes, whole: Bytes)
    requires PartDone(s, i, out, tail, whole) && i <= keep <= end <= |s|
    requires tail == s[i..][..keep - i] + Blanked(s[i..][keep - i..end - i]) + tail'
    requires next == out[..keep] + Blanked(out[keep..end]) + out[end..]
    ensures PartDone(s, end, next, tail', whole)
  {
    AdvanceParts(s, i, out, keep, end, next);
    Glue(out[..i], s[i..][..keep - i], Blanked(s[i..][keep - i..end - i]), tail', tail, whole);
  }

  lemma Advance(s: Bytes, i: nat, out: seq<char>, keep: nat, end: nat, next: seq<char>)
    requires Halfway(s, i, out) && i <= keep <= end <= |s| && i < |s|
    requires CutOf(s[i..]) == Cut(keep - i, end - i)
    requires next == out[..keep] + Blanked(out[keep..end]) + out[end..]
    ensures Halfway(s, end, next)
  {
    SliceTwice(s, i, end);
    BlankFromCut(s[i..], keep - i, end - i, BlankFrom(s[end..]));
    AdvancePart(s, i, out, keep, end, next, BlankFrom(s[i..]), BlankFrom(s[end..]), BlankFrom(s));
  }

  lemma SliceTwice(s: Bytes, i: nat, end: nat)
    requires i <= end <= |s|
    ensures s[i..][end - i..] == s[end..]
  {
  }

  lemma BlankFromCut(s: Bytes, keep: nat, end: nat, tail: Bytes)
    requires s != "" && CutOf(s) == Cut(keep, end) && tail == BlankFrom(s[end..])
    ensures BlankFrom(s) == s[..keep] + Blanked(s[keep..end]) + tail
  {
  }

  lemma Glue(done: Bytes, a: Bytes, b: Bytes, tail: Bytes, rest: Bytes, whole: Bytes)
    requires done + rest == whole && rest == a + b + tail
    ensures done + a + b + tail == whole
  {
    AdvanceAlgebra(done, a, b, tail);
  }

  lemma AdvanceAlgebra(a: Bytes, b: Bytes, c: Bytes, d: Bytes)
    ensures a + (b + c + d) == (a + b + c) + d
  {
  }

  /** Which stretch is kept and which is blanked at `i`, as the loop body finds it. */
  method Measure(s: Bytes, i: nat) returns (keep: nat, end: nat)
    requires i < |s|
    ensures i <= keep <= end <= |s| && i < end && CutOf(s[i..]) == Cut(keep - i, end - i)
  {
    var rest := s[i..];
    if At(rest, 0, "<!--") {
      var p := FindBytes(rest[4..], "-->");
      return i, if p < 0 then |s| else i + 4 + p + 3;
    }
    var close := CloserOf(rest);
    if close != "" {
      var gt := FindBytes(rest, ">");
      if gt < 0 {
        return i, |s|;
      }
      assert s[i + gt + 1..] == rest[gt + 1..];
      var p := FindBytes(s[i + gt + 1..], close);
      return i + gt + 1, if p < 0 then |s| else i + gt + 1 + p;
    }
    keep := i + CharWidth(rest);
    end := keep;
  }

  method BlankNonExecuting(content: Bytes) returns (r: Bytes)
    ensures r == BlankFrom(content)
  {
    var out := Buffer(content);
    assert content[0..] == content;
    var i := 0;
    while i < |content|
      invariant Halfway(content, i, out[..])
      decreases |content| - i
    {
      var keep, end := Measure(content, i);
      ghost var before := out[..];
      BlankRange(out, keep, end);
      Advance(content, i, before, keep, end, out[..]);
      i := end;
    }
    assert out[..] == out[..i] + BlankFrom("");
    assert content[i..] == "";
    r := out[..];
  }
}
