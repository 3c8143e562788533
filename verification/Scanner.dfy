/**
 The quote- and bracket-aware scanners of the UI gates, as one automaton over characters.

 The three scanning loops of `build_support/ui_gates.rs` differ only in which characters
 quote, open, close and separate, and in whether a surplus closer is ignored. The automaton
 here reads one character at a time; the loops jump over an escaped character in one go and
 are proved to compute the same thing in `ScannerCode`.
 */
module Scanner {

  /** A text is its sequence of Unicode characters. The loops compare bytes only with ASCII
      values, which in UTF-8 occur nowhere inside a longer character, so byte and character
      positions pick out the same places. */
  type Text = string

  /** What a scanning loop treats specially. With `saturating`, a closer at depth zero is
      ignored; without it the depth goes negative. */
  datatype Lang = Lang(quotes: set<char>, opens: set<char>, closes: set<char>, seps: set<char>, saturating: bool) {
    predicate Valid() { quotes !! opens && quotes !! closes && opens !! closes && '\\' !in quotes }
  }

  /** `split_call_args`, `pipe_left_operand`, `call_closes_at_end`, and `str::split('_')`. */
  const ArgLang := Lang({'"', '\'', '`'}, {'(', '[', '{'}, {')', ']', '}'}, {','}, false)
  const PipeLang := Lang({'"', '\''}, {'(', '['}, {')', ']'}, {'~', '+', '-', '*', '/', '%'}, true)
  const CallLang := Lang({'"', '\''}, {'('}, {')'}, {}, true)
  const WordLang := Lang({}, {}, {}, {'_'}, false)

  datatype Mode = Code | InQuote(q: char) | Escaped(q: char)
  datatype St = St(mode: Mode, depth: int)

  const Start := St(Code, 0)

  function Step(l: Lang, st: St, c: char): St {
    match st.mode
    case Escaped(q) => St(InQuote(q), st.depth)
    case InQuote(q) => if c == '\\' then St(Escaped(q), st.depth) else if c == q then St(Code, st.depth) else st
    case Code =>
      if c in l.quotes then St(InQuote(c), st.depth)
      else if c in l.opens then St(Code, st.depth + 1)
      else if c in l.closes then St(Code, if l.saturating && st.depth == 0 then 0 else st.depth - 1)
      else st
  }

  function Run(l: Lang, s: Text, st: St): St {
    if s == "" then st else Run(l, s[1..], Step(l, st, s[0]))
  }

  /** `c`, read in `st`, separates two pieces. */
  predicate Cuts(l: Lang, st: St, c: char) {
    st == Start && c in l.seps && c !in l.quotes + l.opens + l.closes
  }

  /** The pieces of a text, untrimmed; `buf` is what the current piece holds so far. */
  function Split(l: Lang, s: Text, st: St, buf: Text): (r: seq<Text>)
    ensures |r| > 0
  {
    if s == "" then [buf]
    else if Cuts(l, st, s[0]) then [buf] + Split(l, s[1..], st, "")
    else Split(l, s[1..], Step(l, st, s[0]), buf + [s[0]])
  }

  /** No character of `s`, read from `st`, separates. */
  ghost predicate Quiet(l: Lang, s: Text, st: St) {
    s == "" || (!Cuts(l, st, s[0]) && Quiet(l, s[1..], Step(l, st, s[0])))
  }

  // ---------------------------------------------------------------- trimming

  /** The Unicode `White_Space` property, which `str::trim` uses. */
  predicate IsSpace(c: char) {
    '\t' <= c <= '\r' || c == ' ' || c == '\U{0085}' || c == '\U{00A0}' || c == '\U{1680}' ||
    '\U{2000}' <= c <= '\U{200A}' || c == '\U{2028}' || c == '\U{2029}' || c == '\U{202F}' || c == '\U{205F}' || c == '\U{3000}'
  }

  function TrimStart(s: Text): Text { if s != "" && IsSpace(s[0]) then TrimStart(s[1..]) else s }

  function TrimEnd(s: Text): Text { if s != "" && IsSpace(s[|s| - 1]) then TrimEnd(s[..|s| - 1]) else s }

  function Trim(s: Text): Text { TrimEnd(TrimStart(s)) }

  function TrimAll(ps: seq<Text>): (r: seq<Text>)
    ensures |r| == |ps| && forall i :: 0 <= i < |ps| ==> r[i] == Trim(ps[i])
  {
    if ps == [] then [] else [Trim(ps[0])] + TrimAll(ps[1..])
  }

  // ---------------------------------------------------------------- the results

  /** `split_call_args`. */
  function CallArgs(s: Text): seq<Text> { TrimAll(Split(ArgLang, s, Start, "")) }

  /** `pipe_left_operand`: what follows the last separating operator. */
  function LeftOperand(s: Text): Text {
    var pieces := Split(PipeLang, s, Start, "");
    Trim(pieces[|pieces| - 1])
  }

  /** `s` is one parenthesised group and nothing more: the depth comes back to zero at its end
      and at no earlier point. */
  ghost predicate WholeCall(s: Text) {
    s != "" && s[0] == '(' && Run(CallLang, s, Start).depth == 0 &&
    forall n :: 0 < n < |s| ==> Run(CallLang, s[..n], Start).depth > 0
  }

  predicate StartsWith(s: Text, p: Text) { |p| <= |s| && s[..|p|] == p }

  predicate EndsWith(s: Text, p: Text) { |p| <= |s| && s[|s| - |p|..] == p }

  predicate FirstArgIsLiteral(s: Text, open: nat)
    requires open < |s|
  {
    StartsWith(TrimStart(s[open + 1..]), "\"")
  }

  predicate WordChar(c: char) { '0' <= c <= '9' || 'a' <= c <= 'z' || 'A' <= c <= 'Z' || c == '_' }

  predicate JsonName(s: Text) {
    s != "" && (forall i :: 0 <= i < |s| ==> WordChar(s[i])) && "json" in Split(WordLang, s, Start, "")
  }

  /** The first `(`, or the length. */
  function FirstParen(s: Text): (r: nat)
    ensures r <= |s| && forall i :: 0 <= i < r ==> s[i] != '('
    ensures r < |s| ==> s[r] == '('
  {
    if s == "" then 0 else if s[0] == '(' then 0 else 1 + FirstParen(s[1..])
  }

  /** The allowlist on one operand. */
  ghost predicate Accepts(s: Text) {
    if JsonName(s) || s == "i18n_js" then true
    else if StartsWith(s, "t.s(") then FirstArgIsLiteral(s, 3) && WholeCall(s[3..])
    else if StartsWith(s, "t.fmt") then
      var open := FirstParen(s);
      open < |s| && EndsWith(s[..open], "_html") && WholeCall(s[open..])
    else s == "body_html"
  }

  /** `is_allowlisted_safe_producer`. */
  ghost predicate Verdict(s: Text) { Accepts(LeftOperand(s)) }

  // ---------------------------------------------------------------- printed expressions

  datatype QuotedChar = Lit(c: char) | Esc(c: char)

  /** Source expressions as far as the scanners see them. Closers need not match openers: the
      loops count them only. */
  datatype Tok = Plain(c: char) | Quoted(q: char, body: seq<QuotedChar>) | Group(open: char, inner: seq<Tok>, close: char)

  function BodyText(b: seq<QuotedChar>): Text {
    if b == [] then "" else (if b[0].Lit? then [b[0].c] else ['\\', b[0].c]) + BodyText(b[1..])
  }

  function TokText(t: Tok): Text {
    match t
    case Plain(c) => [c]
    case Quoted(q, body) => [q] + BodyText(body) + [q]
    case Group(open, inner, close) => [open] + ToksText(inner) + [close]
  }

  function ToksText(ts: seq<Tok>): Text {
    if ts == [] then "" else TokText(ts[0]) + ToksText(ts[1..])
  }

  predicate BodyFits(q: char, b: seq<QuotedChar>) {
    forall i :: 0 <= i < |b| ==> b[i].Lit? ==> b[i].c != q && b[i].c != '\\'
  }

  /** `t` can stand in an expression of `l`; separators may occur bare only inside a group. */
  predicate TokFits(l: Lang, t: Tok, top: bool) {
    match t
    case Plain(c) => c !in l.quotes + l.opens + l.closes && (top ==> c !in l.seps)
    case Quoted(q, body) => q in l.quotes && BodyFits(q, body)
    case Group(open, inner, close) => open in l.opens && close in l.closes && ToksFit(l, inner, false)
  }

  predicate ToksFit(l: Lang, ts: seq<Tok>, top: bool) {
    ts == [] || (TokFits(l, ts[0], top) && ToksFit(l, ts[1..], top))
  }

  // ---------------------------------------------------------------- the automaton on them

  lemma {:induction false} RunAppend(l: Lang, a: Text, b: Text, st: St)
    ensures Run(l, a + b, st) == Run(l, b, Run(l, a, st))
    ensures Quiet(l, a + b, st) <==> Quiet(l, a, st) && Quiet(l, b, Run(l, a, st))
  {
    if a == "" {
      assert a + b == b;
    } else {
      assert (a + b)[1..] == a[1..] + b;
      RunAppend(l, a[1..], b, Step(l, st, a[0]));
    }
  }

  /** A quiet stretch only fills the current piece. */
  lemma {:induction false} SplitQuiet(l: Lang, a: Text, y: Text, st: St, buf: Text)
    requires Quiet(l, a, st)
    ensures Split(l, a + y, st, buf) == Split(l, y, Run(l, a, st), buf + a)
  {
    if a == "" {
      assert a + y == y && buf + a == buf;
    } else {
      assert (a + y)[1..] == a[1..] + y;
      SplitQuiet(l, a[1..], y, Step(l, st, a[0]), buf + [a[0]]);
      assert buf + [a[0]] + a[1..] == buf + a;
    }
  }

  /** `s` is passed over from code at depth `d`: no cut, back in code at the same depth. */
  ghost predicate Passes(l: Lang, s: Text, d: nat) {
    Quiet(l, s, St(Code, d)) && Run(l, s, St(Code, d)) == St(Code, d)
  }

  lemma {:induction false} BodyPasses(l: Lang, q: char, b: seq<QuotedChar>, d: nat)
    requires BodyFits(q, b)
    ensures Quiet(l, BodyText(b), St(InQuote(q), d)) && Run(l, BodyText(b), St(InQuote(q), d)) == St(InQuote(q), d)
  {
    if b != [] {
      BodyPasses(l, q, b[1..], d);
      if b[0].Lit? {
        RunAppend(l, [b[0].c], BodyText(b[1..]), St(InQuote(q), d));
      } else {
        RunAppend(l, ['\\'], [b[0].c], St(InQuote(q), d));
        assert ['\\'] + [b[0].c] == ['\\', b[0].c];
        RunAppend(l, ['\\', b[0].c], BodyText(b[1..]), St(InQuote(q), d));
      }
    }
  }

  /** An opening and a closing character around something that leads back to where it began. */
  lemma Enclosed(l: Lang, open: char, s: Text, close: char, d: nat, inside: St)
    requires Step(l, St(Code, d), open) == inside && !Cuts(l, St(Code, d), open)
    requires Quiet(l, s, inside) && Run(l, s, inside) == inside
    requires Step(l, inside, close) == St(Code, d) && !Cuts(l, inside, close)
    ensures Passes(l, [open] + s + [close], d)
  {
    RunAppend(l, [open], s, St(Code, d));
    RunAppend(l, [open] + s, [close], St(Code, d));
  }

  lemma {:induction false} TokPasses(l: Lang, t: Tok, d: nat)
    requires l.Valid() && TokFits(l, t, d == 0)
    ensures Passes(l, TokText(t), d)
    decreases t
  {
    match t
    case Plain(c) => assert [c][1..] == "";
    case Quoted(q, body) =>
      BodyPasses(l, q, body, d);
      Enclosed(l, q, BodyText(body), q, d, St(InQuote(q), d));
    case Group(open, inner, close) =>
      ToksPass(l, inner, d + 1);
      Enclosed(l, open, ToksText(inner), close, d, St(Code, d + 1));
  }

  lemma {:induction false} ToksPass(l: Lang, ts: seq<Tok>, d: nat)
    requires l.Valid() && ToksFit(l, ts, d == 0)
    ensures Passes(l, ToksText(ts), d)
    decreases ts
  {
    if ts != [] {
      TokPasses(l, ts[0], d);
      ToksPass(l, ts[1..], d);
      RunAppend(l, TokText(ts[0]), ToksText(ts[1..]), St(Code, d));
    }
  }
}
