/** The loops of the `use` expander, each proved against its specification function. */
module UseTreeCode {
  import opened UseTree
  import opened UseTreeTheorem

  method SplitTopCommas(s: string) returns (out: seq<string>)
    ensures out == SplitFrom(s, 0, "")
    ensures forall i :: 0 <= i < |out| ==> |out[i]| <= |s|
  {
    var buf, depth := "", 0;
    out := [];
    for i := 0 to |s|
      invariant out + SplitFrom(s[i..], depth, buf) == SplitFrom(s, 0, "")
    {
      var c := s[i];
      assert s[i..][0] == c && s[i..][1..] == s[i + 1..];
      if c == '{' {
        depth := depth + 1;
        buf := buf + [c];
      } else if c == '}' {
        depth := depth - 1;
        buf := buf + [c];
      } else if c == ',' && depth == 0 {
        assert out + ([buf] + SplitFrom(s[i + 1..], depth, "")) == (out + [buf]) + SplitFrom(s[i + 1..], depth, "");
        out := out + [buf];
        buf := "";
      } else {
        buf := buf + [c];
      }
    }
    if buf != "" {
      out := out + [buf];
    }
  }

  /** The brace matching the one at `ob`, or -1. */
  method MatchingBrace(b: string, ob: nat) returns (cb: int)
    requires ob < |b| && b[ob] == '{'
    ensures cb == Shift(ob, CloseFrom(b[ob..], 0))
  {
    var depth := 0;
    cb := -1;
    for i := ob to |b|
      invariant CloseFrom(b[ob..], 0) == Shift(i - ob, CloseFrom(b[i..], depth))
      invariant cb == -1
    {
      assert b[i..][0] == b[i] && b[i..][1..] == b[i + 1..];
      if b[i] == '{' {
        depth := depth + 1;
      } else if b[i] == '}' {
        depth := depth - 1;
        if depth == 0 {
          cb := i;
          break;
        }
      }
    }
  }

  /** The recursive expander; `Expand` is what `ExpandPrinted` is about. */
  method ExpandUseBody(body: string) returns (out: seq<string>)
    ensures out == Expand(body)
    decreases |body|, 2
  {
    out := ExpandBraces(DropAliases(Strip(body)), |body|);
  }

  /** Find the first brace, its partner, and what lies between them. */
  method OpenFirstGroup(b: string) returns (g: Opened)
    requires '{' in b
    ensures g == OpenGroup(b)
  {
    var ob := IndexOf(b, '{');
    var prefix := RStrip(RStripColons(b[..ob]));
    var cb := MatchingBrace(b, ob);
    if cb < 0 {
      return Unclosed;
    }
    var pieces := SplitTopCommas(b[ob + 1..cb]);
    return Opened(prefix, pieces);
  }

  method ExpandBraces(b: string, bound: nat) returns (out: seq<string>)
    requires |b| <= bound
    ensures out == ExpandClean(b, bound)
    decreases bound, 1
  {
    if '{' !in b {
      return [RStripColons(Strip(b))];
    }
    var g := OpenFirstGroup(b);
    if g.Unclosed? {
      return [Strip(b)];
    }
    out := ExpandEach(g.prefix, g.pieces, bound, s => Expand(s));
    GatherIsPieces(g.prefix, g.pieces, bound, s => Expand(s));
    CleanParts(b, bound, g.prefix, g.pieces);
  }

  /** What one piece of a group contributes, for a given expansion. */
  ghost function Piece(e: string -> seq<string>, prefix: string, piece: string): seq<string> {
    if Strip(piece) == "" then [] else AttachAll(prefix, e(Strip(piece)))
  }

  /** What the pieces contribute together. */
  ghost function Gather(e: string -> seq<string>, prefix: string, pieces: seq<string>): seq<string> {
    if pieces == [] then [] else Piece(e, prefix, pieces[0]) + Gather(e, prefix, pieces[1..])
  }

  lemma GatherStep(e: string -> seq<string>, prefix: string, pieces: seq<string>, i: nat, out: seq<string>)
    requires i < |pieces|
    ensures out + Gather(e, prefix, pieces[i..]) == (out + Piece(e, prefix, pieces[i])) + Gather(e, prefix, pieces[i + 1..])
  {
    assert pieces[i..][0] == pieces[i] && pieces[i..][1..] == pieces[i + 1..];
    Reassociate(out, Piece(e, prefix, pieces[i]), Gather(e, prefix, pieces[i + 1..]));
  }

  lemma Reassociate(a: seq<string>, b: seq<string>, c: seq<string>)
    ensures a + (b + c) == (a + b) + c
  {
  }

  ghost predicate Expands(e: string -> seq<string>, bound: nat) { forall p {:trigger e(p)} :: |p| < bound ==> e(p) == Expand(p) }

  lemma PiecesStep(prefix: string, pieces: seq<string>, bound: nat, e: string -> seq<string>)
    requires Expands(e, bound) && pieces != [] && forall i :: 0 <= i < |pieces| ==> |pieces[i]| < bound
    ensures ExpandPieces(prefix, pieces, bound) == Piece(e, prefix, pieces[0]) + ExpandPieces(prefix, pieces[1..], bound)
  {
  }

  lemma {:induction false} GatherIsPieces(prefix: string, pieces: seq<string>, bound: nat, e: string -> seq<string>)
    requires Expands(e, bound) && forall i :: 0 <= i < |pieces| ==> |pieces[i]| < bound
    ensures Gather(e, prefix, pieces) == ExpandPieces(prefix, pieces, bound)
  {
    if pieces != [] {
      PiecesStep(prefix, pieces, bound, e);
      GatherIsPieces(prefix, pieces[1..], bound, e);
    }
  }

  /** The loop over the pieces of a group. */
  method ExpandEach(prefix: string, pieces: seq<string>, bound: nat, ghost e: string -> seq<string>) returns (out: seq<string>)
    requires Expands(e, bound) && forall i :: 0 <= i < |pieces| ==> |pieces[i]| < bound
    ensures out == Gather(e, prefix, pieces)
    decreases bound, 0, 1
  {
    out := [];
    assert pieces[0..] == pieces;
    for i := 0 to |pieces|
      invariant out + Gather(e, prefix, pieces[i..]) == Gather(e, prefix, pieces)
    {
      GatherStep(e, prefix, pieces, i, out);
      out := ExpandPiece(out, prefix, pieces[i], bound, e);
    }
    assert pieces[|pieces|..] == [];
  }

  method ExpandPiece(out: seq<string>, prefix: string, piece: string, bound: nat, ghost e: string -> seq<string>) returns (more: seq<string>)
    requires Expands(e, bound) && |piece| < bound
    ensures more == out + Piece(e, prefix, piece)
    decreases bound, 0, 0
  {
    var p := Strip(piece);
    if p == "" {
      return out;
    }
    var ss := ExpandUseBody(p);
    assert ss == e(p);
    more := AppendAttached(out, prefix, ss);
  }

  method AppendAttached(out: seq<string>, prefix: string, ss: seq<string>) returns (out': seq<string>)
    ensures out' == out + AttachAll(prefix, ss)
  {
    out' := out;
    for i := 0 to |ss|
      invariant out' + AttachAll(prefix, ss[i..]) == out + AttachAll(prefix, ss)
    {
      assert ss[i..][0] == ss[i] && ss[i..][1..] == ss[i + 1..];
      out' := out' + [Attach(prefix, ss[i])];
    }
  }
}
