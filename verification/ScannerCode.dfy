/** The scanning loops, each proved against the automaton of `Scanner`. */
module ScannerCode {
  import opened Scanner

  datatype Quote = NoQuote | Open(q: char)

  function ModeOf(quote: Quote): Mode { if quote.NoQuote? then Code else InQuote(quote.q) }

  /** What is left to read; a skip over an escape can step past the end. */
  function Rest(s: Text, i: nat): Text { if i <= |s| then s[i..] else "" }

  function Piece(s: Text, start: nat, i: nat): Text
    requires start <= |s| && start <= i
  {
    if i <= |s| then s[start..i] else s[start..]
  }

  lemma Longer(s: Text, start: nat, i: nat)
    requires start <= i < |s|
    ensures s[start..i] + [s[i]] == s[start..i + 1]
  {
  }

  lemma Shorter(s: Text, i: nat)
    requires i < |s|
    ensures s[i..] != "" && s[i..][0] == s[i] && s[i..][1..] == s[i + 1..]
  {
  }

  /** Two steps of the automaton over an escape are one jump of the loops. */
  lemma SkipEscape(l: Lang, s: Text, i: nat, start: nat, q: char, d: int)
    requires start <= i < |s| && s[i] == '\\'
    ensures Split(l, s[i..], St(InQuote(q), d), s[start..i]) == Split(l, Rest(s, i + 2), St(InQuote(q), d), Piece(s, start, i + 2))
  {
    var st, a := St(InQuote(q), d), s[start..i];
    Shorter(s, i);
    Longer(s, start, i);
    assert Split(l, s[i..], st, a) == Split(l, s[i + 1..], St(Escaped(q), d), a + ['\\']);
    if i + 1 < |s| {
      Shorter(s, i + 1);
      Longer(s, start, i + 1);
    } else {
      assert s[i + 1..] == "" && s[start..i + 1] == s[start..];
    }
  }

  lemma ReadOne(l: Lang, s: Text, i: nat, start: nat, st: St)
    requires start <= i < |s| && !Cuts(l, st, s[i])
    ensures Split(l, s[i..], st, s[start..i]) == Split(l, s[i + 1..], Step(l, st, s[i]), s[start..i + 1])
  {
    Shorter(s, i);
    Longer(s, start, i);
  }

  lemma CutOne(l: Lang, s: Text, i: nat, start: nat)
    requires start <= i < |s| && Cuts(l, Start, s[i])
    ensures Split(l, s[i..], Start, s[start..i]) == [s[start..i]] + Split(l, s[i + 1..], Start, s[i + 1..i + 1])
  {
    Shorter(s, i);
    assert s[i + 1..i + 1] == "";
  }

  /** A loop at `i`, with the pieces `raw` behind it and one begun at `start`, is in step with
      the automaton. */
  ghost predicate InStep(l: Lang, s: Text, raw: seq<Text>, i: nat, start: nat, st: St) {
    start <= |s| && start <= i && raw + Split(l, Rest(s, i), st, Piece(s, start, i)) == Split(l, s, Start, "")
  }

  lemma StepSkip(l: Lang, s: Text, raw: seq<Text>, i: nat, start: nat, q: char, d: int)
    requires i < |s| && s[i] == '\\' && InStep(l, s, raw, i, start, St(InQuote(q), d))
    ensures InStep(l, s, raw, i + 2, start, St(InQuote(q), d))
  {
    SkipEscape(l, s, i, start, q, d);
  }

  lemma StepRead(l: Lang, s: Text, raw: seq<Text>, i: nat, start: nat, st: St)
    requires i < |s| && !Cuts(l, st, s[i]) && InStep(l, s, raw, i, start, st)
    ensures InStep(l, s, raw, i + 1, start, Step(l, st, s[i]))
  {
    ReadOne(l, s, i, start, st);
  }

  lemma StepCut(l: Lang, s: Text, raw: seq<Text>, i: nat, start: nat)
    requires i < |s| && Cuts(l, Start, s[i]) && InStep(l, s, raw, i, start, Start)
    ensures start <= i && InStep(l, s, raw + [s[start..i]], i + 1, i + 1, Start)
  {
    CutOne(l, s, i, start);
    Regroup(raw, s[start..i], Split(l, s[i + 1..], Start, s[i + 1..i + 1]));
  }

  lemma Regroup(raw: seq<Text>, p: Text, rest: seq<Text>)
    ensures raw + ([p] + rest) == (raw + [p]) + rest
  {
  }

  /** At the end only the piece in hand is left. */
  lemma StepEnd(l: Lang, s: Text, raw: seq<Text>, i: nat, start: nat, st: St)
    requires i >= |s| && InStep(l, s, raw, i, start, st)
    ensures raw + [s[start..]] == Split(l, s, Start, "")
  {
    assert Piece(s, start, i) == s[start..] && Rest(s, i) == "";
  }

  /** The effect of one character on quote and depth, in an argument list. */
  method ReadArgChar(b: char, quote: Quote, depth: int) returns (quote': Quote, depth': int)
    requires quote.Open? ==> b != '\\'
    ensures St(ModeOf(quote'), depth') == Step(ArgLang, St(ModeOf(quote), depth), b)
  {
    quote', depth' := quote, depth;
    if quote.Open? {
      if b == quote.q {
        quote' := NoQuote;
      }
    } else if b == '"' || b == '\'' || b == '`' {
      quote' := Open(b);
    } else if b == '(' || b == '[' || b == '{' {
      depth' := depth + 1;
    } else if b == ')' || b == ']' || b == '}' {
      depth' := depth - 1;
    }
  }

  /** The same in a producer expression, where a surplus closer is ignored. */
  method ReadPipeChar(b: char, quote: Quote, depth: nat) returns (quote': Quote, depth': nat)
    requires quote.Open? ==> b != '\\'
    ensures St(ModeOf(quote'), depth') == Step(PipeLang, St(ModeOf(quote), depth), b)
  {
    quote', depth' := quote, depth;
    if quote.Open? {
      if b == quote.q {
        quote' := NoQuote;
      }
    } else if b == '"' || b == '\'' {
      quote' := Open(b);
    } else if b == '(' || b == '[' {
      depth' := depth + 1;
    } else if b == ')' || b == ']' {
      depth' := if depth == 0 then 0 else depth - 1;
    }
  }

  method SplitCallArgs(s: Text) returns (out: seq<Text>)
    ensures out == CallArgs(s)
  {
    out := [];
    ghost var raw: seq<Text> := [];
    var start, depth, i, quote := 0, 0, 0, NoQuote;
    while i < |s|
      invariant i <= |s| + 1 && InStep(ArgLang, s, raw, i, start, St(ModeOf(quote), depth))
      invariant out == TrimAll(raw)
      decreases |s| + 1 - i
    {
      if quote.Open? && s[i] == '\\' {
        StepSkip(ArgLang, s, raw, i, start, quote.q, depth);
        i := i + 2;
        continue;
      }
      if quote.NoQuote? && s[i] == ',' && depth == 0 {
        StepCut(ArgLang, s, raw, i, start);
        TrimAllSnoc(raw, s[start..i]);
        raw, out := raw + [s[start..i]], out + [Trim(s[start..i])];
        start := i + 1;
      } else {
        StepRead(ArgLang, s, raw, i, start, St(ModeOf(quote), depth));
        quote, depth := ReadArgChar(s[i], quote, depth);
      }
      i := i + 1;
    }
    StepEnd(ArgLang, s, raw, i, start, St(ModeOf(quote), depth));
    TrimAllSnoc(raw, s[start..]);
    out := out + [Trim(s[start..])];
  }

  lemma TrimAllSnoc(ps: seq<Text>, p: Text)
    ensures TrimAll(ps + [p]) == TrimAll(ps) + [Trim(p)]
  {
  }

  predicate IsOperator(b: char) { b == '~' || b == '+' || b == '-' || b == '*' || b == '/' || b == '%' }

  /** `l` reads characters as `pipe_left_operand` does. */
  ghost predicate IsPipe(l: Lang) {
    (forall st, b {:trigger Step(l, st, b)} :: Step(l, st, b) == Step(PipeLang, st, b)) &&
    forall st, b {:trigger Cuts(l, st, b)} :: Cuts(l, st, b) <==> st == Start && IsOperator(b)
  }

  /** Where the last piece starts; `raw` are the pieces before it. */
  method LastStart(s: Text, ghost l: Lang) returns (start: nat, ghost raw: seq<Text>)
    requires IsPipe(l)
    ensures start <= |s| && raw + [s[start..]] == Split(l, s, Start, "")
  {
    raw, start := [], 0;
    var i, quote := 0, NoQuote;
    var depth: nat := 0;
    while i < |s|
      invariant i <= |s| + 1 && InStep(l, s, raw, i, start, St(ModeOf(quote), depth))
      decreases |s| + 1 - i
    {
      if quote.Open? && s[i] == '\\' {
        StepSkip(l, s, raw, i, start, quote.q, depth);
        i := i + 2;
        continue;
      }
      if quote.NoQuote? && IsOperator(s[i]) && depth == 0 {
        StepCut(l, s, raw, i, start);
        raw := raw + [s[start..i]];
        start := i + 1;
      } else {
        StepRead(l, s, raw, i, start, St(ModeOf(quote), depth));
        quote, depth := ReadPipeChar(s[i], quote, depth);
      }
      i := i + 1;
    }
    StepEnd(l, s, raw, i, start, St(ModeOf(quote), depth));
  }

  method PipeLeftOperand(s: Text) returns (r: Text)
    ensures r == LeftOperand(s)
  {
    assert IsPipe(PipeLang);
    var start, _ := LastStart(s, PipeLang);
    r := Trim(s[start..]);
  }

  lemma RunSnoc(l: Lang, s: Text, i: nat)
    requires i < |s|
    ensures Run(l, s[..i + 1], Start) == Step(l, Run(l, s[..i], Start), s[i])
  {
    assert s[..i + 1] == s[..i] + [s[i]];
    RunAppend(l, s[..i], [s[i]], Start);
  }

  ghost predicate DeepUpTo(s: Text, n: int) { forall k :: 0 < k <= n && k <= |s| ==> Run(CallLang, s[..k], Start).depth > 0 }

  /** `depth` is unsigned in the source; the call starts at an opening parenthesis, so the loop
      returns before it could pass below zero. */
  method CallClosesAtEnd(expr: Text, open: nat) returns (r: bool)
    requires open < |expr| && expr[open] == '('
    ensures r <==> WholeCall(expr[open..])
  {
    ghost var s := expr[open..];
    var depth, i, quote := 0, open, NoQuote;
    while i < |expr|
      invariant open <= i <= |expr| + 1
      invariant i <= |expr| ==> Run(CallLang, s[..i - open], Start) == St(ModeOf(quote), depth)
      invariant DeepUpTo(s, i - open)
      invariant depth >= 0 && (i > open ==> depth > 0) && (i == open ==> quote.NoQuote?)
      decreases |expr| + 1 - i
    {
      var b := expr[i];
      RunSnoc(CallLang, s, i - open);
      if quote.Open? {
        if b == '\\' {
          if i + 1 < |expr| {
            RunSnoc(CallLang, s, i + 1 - open);
          }
          i := i + 2;
          continue;
        }
        if b == quote.q {
          quote := NoQuote;
        }
      } else if b == '"' || b == '\'' {
        quote := Open(b);
      } else if b == '(' {
        depth := depth + 1;
      } else if b == ')' {
        depth := depth - 1;
        if depth == 0 {
          assert i + 1 == |expr| ==> s[..i + 1 - open] == s;
          return i + 1 == |expr|;
        }
      }
      i := i + 1;
    }
    assert s[..|s|] == s;
    return false;
  }

  method IsAllowlistedSafeProducer(expr: Text) returns (ok: bool)
    ensures ok <==> Verdict(expr)
  {
    var e := PipeLeftOperand(expr);
    if JsonName(e) || e == "i18n_js" {
      return true;
    }
    if StartsWith(e, "t.s(") {
      assert e[3] == e[..4][3] == '(';
      var closes := CallClosesAtEnd(e, 3);
      return FirstArgIsLiteral(e, 3) && closes;
    }
    if StartsWith(e, "t.fmt") {
      var open := FirstParen(e);
      if open == |e| {
        return false;
      }
      var closes := CallClosesAtEnd(e, open);
      return EndsWith(e[..open], "_html") && closes;
    }
    return e == "body_html";
  }
}
