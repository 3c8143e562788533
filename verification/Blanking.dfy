/**
 Blanking of the regions of a template that neither askama nor the browser executes, and of
 CSS block comments. A text is its sequence of UTF-8 bytes, one `char` per byte; nothing
 below needs the values to stay under 256.
 */
module Blanking {

  type Bytes = string

  /** `p` occurs in `s` at `k`. */
  predicate At(s: Bytes, k: int, p: Bytes) { 0 <= k && k + |p| <= |s| && s[k..k + |p|] == p }

  lemma AtTail(s: Bytes, n: nat, k: int, p: Bytes)
    requires n <= |s| && n <= k
    ensures At(s, k, p) <==> At(s[n..], k - n, p)
  {
    if k + |p| <= |s| {
      assert s[k..k + |p|] == s[n..][k - n..k - n + |p|];
    }
  }

  /** `p` occurs at `r` and nowhere before. */
  ghost predicate IsFirst(s: Bytes, r: int, p: Bytes) { At(s, r, p) && forall k :: 0 <= k < r ==> !At(s, k, p) }

  lemma {:induction false} FirstExists(s: Bytes, k: nat, p: Bytes)
    requires At(s, k, p)
    ensures exists r :: IsFirst(s, r, p)
    decreases k
  {
    if j: nat :| j < k && At(s, j, p) {
      FirstExists(s, j, p);
    } else {
      assert IsFirst(s, k, p);
    }
  }

  /** `str::find`: the first occurrence, or -1. */
  ghost function Find(s: Bytes, p: Bytes): (r: int)
    ensures -1 <= r && (r >= 0 ==> At(s, r, p)) && forall k :: 0 <= k && (k < r || r < 0) ==> !At(s, k, p)
  {
    if exists k: nat :: At(s, k, p) then (var k: nat :| At(s, k, p); FirstExists(s, k, p); var r :| IsFirst(s, r, p); r) else -1
  }

  function BlankByte(b: char): char { if b == '\n' then b else ' ' }

  /** Every byte a space, except newlines. */
  function Blanked(s: Bytes): (r: Bytes)
    ensures |r| == |s| && forall i :: 0 <= i < |s| ==> r[i] == BlankByte(s[i])
  {
    if s == "" then "" else [BlankByte(s[0])] + Blanked(s[1..])
  }

  // ---------------------------------------------------------------- delimited_spans

  type Span = (nat, nat)

  datatype Option<+T> = None | Some(value: T)

  /** The first span from byte `i` on: an opener and the first closer behind it. */
  ghost function NextSpan(s: Bytes, i: nat, open: Bytes, close: Bytes): (r: Option<Span>)
    requires i <= |s|
    ensures r.Some? ==> i <= r.value.0 && r.value.0 + |open| + |close| <= r.value.1 <= |s|
  {
    var p := Find(s[i..], open);
    if p < 0 then None
    else
      var after := i + p + |open|;
      var q := Find(s[after..], close);
      if q < 0 then None else Some((i + p, after + q + |close|))
  }

  /** All spans from byte `i` on. */
  ghost function Spans(s: Bytes, i: nat, open: Bytes, close: Bytes): seq<Span>
    requires i <= |s| && |open| + |close| > 0
    decreases |s| - i
  {
    var next := NextSpan(s, i, open, close);
    if next.None? then [] else [next.value] + Spans(s, next.value.1, open, close)
  }

  ghost predicate InSpans(spans: seq<Span>, k: int) { exists j :: 0 <= j < |spans| && spans[j].0 <= k < spans[j].1 }

  /** The text with the bytes inside the spans blanked. */
  ghost function Masked(s: Bytes, spans: seq<Span>): Bytes {
    seq(|s|, i requires 0 <= i < |s| => if InSpans(spans, i) then BlankByte(s[i]) else s[i])
  }

  ghost function BlankComments(s: Bytes): Bytes { Masked(s, Spans(s, 0, "/*", "*/")) }

  // ---------------------------------------------------------------- blank_non_executing

  /** The byte length of the character that starts with `b` (`char::len_utf8`). */
  function Width(b: char): (w: nat)
    ensures 1 <= w <= 4
  {
    if b < '\U{80}' then 1 else if b < '\U{E0}' then 2 else if b < '\U{F0}' then 3 else 4
  }

  predicate AsciiAlnum(b: char) { '0' <= b <= '9' || 'a' <= b <= 'z' || 'A' <= b <= 'Z' }

  /** `s` begins with the tag `open`, ended by a tag-name boundary. */
  predicate OpensTag(s: Bytes, open: Bytes) {
    At(s, 0, open) && !(|s| > |open| && (AsciiAlnum(s[|open|]) || s[|open|] == '-'))
  }

  /** The closing tag of the raw-text element that begins here; "" when none does. */
  function CloserOf(s: Bytes): (r: Bytes)
    ensures r != "" ==> r == "</script>" || r == "</style>"
  {
    if OpensTag(s, "<script") then "</script>" else if OpensTag(s, "<style") then "</style>" else ""
  }

  /** How a position is treated: `keep` bytes are copied, the bytes up to `end` are blanked,
      and scanning goes on at `end`. */
  datatype Cut = Cut(keep: nat, end: nat)

  ghost function CutOf(s: Bytes): (c: Cut)
    requires s != ""
    ensures c.keep <= c.end <= |s| && c.end > 0
  {
    if At(s, 0, "<!--") then
      var p := Find(s[4..], "-->");
      Cut(0, if p < 0 then |s| else 4 + p + 3)
    else if CloserOf(s) != "" then
      var gt := Find(s, ">");
      if gt < 0 then Cut(0, |s|)
      else
        var p := Find(s[gt + 1..], CloserOf(s));
        Cut(gt + 1, if p < 0 then |s| else gt + 1 + p)
    else
      var w := if Width(s[0]) <= |s| then Width(s[0]) else |s|;
      Cut(w, w)
  }

  ghost function BlankFrom(s: Bytes): Bytes {
    if s == "" then ""
    else var c := CutOf(s); s[..c.keep] + Blanked(s[c.keep..c.end]) + BlankFrom(s[c.end..])
  }
}
