/** What the scanners compute, on every text and on every printed expression. */
module ScannerTheorems {
  import opened Scanner

  // ---------------------------------------------------------------- split_call_args

  function Join(ps: seq<Text>, sep: char): Text
    requires ps != []
  {
    if |ps| == 1 then ps[0] else ps[0] + [sep] + Join(ps[1..], sep)
  }

  /** On any text whatever, balanced or not, the untrimmed pieces rejoin to the text. */
  lemma {:induction false} PiecesRejoin(l: Lang, s: Text, st: St, buf: Text, sep: char)
    requires l.seps == {sep}
    ensures Join(Split(l, s, st, buf), sep) == buf + s
  {
    if s == "" {
      assert buf + s == buf;
    } else if Cuts(l, st, s[0]) {
      var rest := Split(l, s[1..], st, "");
      PiecesRejoin(l, s[1..], st, "", sep);
      assert ([buf] + rest)[1..] == rest;
      assert buf + [sep] + ("" + s[1..]) == buf + s;
    } else {
      PiecesRejoin(l, s[1..], Step(l, st, s[0]), buf + [s[0]], sep);
      assert buf + [s[0]] + s[1..] == buf + s;
    }
  }

  lemma ArgumentsRejoin(s: Text)
    ensures var raw := Split(ArgLang, s, Start, "");
            Join(raw, ',') == s && |CallArgs(s)| == |raw| && forall i :: 0 <= i < |raw| ==> CallArgs(s)[i] == Trim(raw[i])
  {
    PiecesRejoin(ArgLang, s, Start, "", ',');
    assert "" + s == s;
  }

  /** Texts that the scanner passes over come back from their join. */
  lemma {:induction false} SplitJoined(l: Lang, ps: seq<Text>, sep: char)
    requires ps != [] && Cuts(l, Start, sep) && forall i :: 0 <= i < |ps| ==> Passes(l, ps[i], 0)
    ensures Split(l, Join(ps, sep), Start, "") == ps
  {
    assert Passes(l, ps[0], 0);
    if |ps| == 1 {
      SplitQuiet(l, ps[0], "", Start, "");
      assert ps[0] + "" == ps[0] && "" + ps[0] == ps[0];
    } else {
      var rest := Join(ps[1..], sep);
      SplitJoined(l, ps[1..], sep);
      SplitQuiet(l, ps[0], [sep] + rest, Start, "");
      assert ps[0] + ([sep] + rest) == ps[0] + [sep] + rest && "" + ps[0] == ps[0];
      assert ([sep] + rest)[0] == sep && ([sep] + rest)[1..] == rest;
      assert ps == [ps[0]] + ps[1..];
    }
  }

  /** One written argument: an expression with blanks around it. */
  datatype Arg = Arg(before: Text, expr: seq<Tok>, after: Text) {
    predicate Fits() {
      Blank(before) && Blank(after) && ToksFit(ArgLang, expr, true) && Trim(ToksText(expr)) == ToksText(expr)
    }
    function Written(): Text { before + ToksText(expr) + after }
  }

  predicate Blank(s: Text) { forall i :: 0 <= i < |s| ==> IsSpace(s[i]) }

  function WrittenArgs(args: seq<Arg>): (r: seq<Text>)
    ensures |r| == |args| && forall i :: 0 <= i < |args| ==> r[i] == args[i].Written()
  {
    if args == [] then [] else [args[0].Written()] + WrittenArgs(args[1..])
  }

  /** Blanks mean nothing to a language without blank delimiters. */
  lemma {:induction false} BlankPasses(l: Lang, s: Text)
    requires Blank(s) && forall c :: c in l.quotes + l.opens + l.closes + l.seps ==> !IsSpace(c)
    ensures Passes(l, s, 0)
  {
    if s != "" {
      BlankPasses(l, s[1..]);
    }
  }

  lemma WrittenPasses(a: Arg)
    requires a.Fits()
    ensures Passes(ArgLang, a.Written(), 0)
  {
    BlankPasses(ArgLang, a.before);
    BlankPasses(ArgLang, a.after);
    ToksPass(ArgLang, a.expr, 0);
    RunAppend(ArgLang, a.before, ToksText(a.expr), Start);
    RunAppend(ArgLang, a.before + ToksText(a.expr), a.after, Start);
  }

  /** For every non-empty list of argument expressions, blanks around them included,
      `split_call_args` on the comma-joined text gives back exactly the expressions. */
  lemma ArgumentsRoundTrip(args: seq<Arg>)
    requires args != [] && forall i :: 0 <= i < |args| ==> args[i].Fits()
    ensures |CallArgs(Join(WrittenArgs(args), ','))| == |args|
    ensures forall i :: 0 <= i < |args| ==> CallArgs(Join(WrittenArgs(args), ','))[i] == ToksText(args[i].expr)
  {
    var texts := WrittenArgs(args);
    forall i | 0 <= i < |texts|
      ensures Passes(ArgLang, texts[i], 0)
    {
      WrittenPasses(args[i]);
    }
    SplitJoined(ArgLang, texts, ',');
    forall i | 0 <= i < |args|
      ensures Trim(texts[i]) == ToksText(args[i].expr)
    {
      TrimPadded(args[i].before, ToksText(args[i].expr), args[i].after);
    }
  }

  // ---------------------------------------------------------------- trimming

  lemma {:induction false} TrimStartDrops(a: Text, s: Text)
    requires Blank(a)
    ensures TrimStart(a + s) == TrimStart(s)
  {
    if a == "" {
      assert a + s == s;
    } else {
      assert (a + s)[1..] == a[1..] + s;
      TrimStartDrops(a[1..], s);
    }
  }

  lemma {:induction false} TrimEndDrops(s: Text, a: Text)
    requires Blank(a)
    ensures TrimEnd(s + a) == TrimEnd(s)
  {
    if a == "" {
      assert s + a == s;
    } else {
      assert (s + a)[..|s + a| - 1] == s + a[..|a| - 1];
      TrimEndDrops(s, a[..|a| - 1]);
    }
  }

  lemma {:induction false} TrimStartIs(s: Text)
    ensures |TrimStart(s)| <= |s| && TrimStart(s) == s[|s| - |TrimStart(s)|..] && Blank(s[..|s| - |TrimStart(s)|])
    ensures TrimStart(s) != "" ==> !IsSpace(TrimStart(s)[0])
  {
    if s != "" && IsSpace(s[0]) {
      TrimStartIs(s[1..]);
      BlankFirst(s, |s| - |TrimStart(s)|);
    } else {
      assert s[0..] == s;
    }
  }

  lemma BlankFirst(s: Text, n: nat)
    requires 0 < n <= |s| && IsSpace(s[0]) && Blank(s[1..][..n - 1])
    ensures s[n..] == s[1..][n - 1..] && Blank(s[..n])
  {
    assert s[..n] == [s[0]] + s[1..][..n - 1];
  }

  lemma {:induction false} TrimEndIs(s: Text)
    ensures |TrimEnd(s)| <= |s| && TrimEnd(s) == s[..|TrimEnd(s)|]
    ensures TrimEnd(s) != "" ==> !IsSpace(TrimEnd(s)[|TrimEnd(s)| - 1])
  {
    if s != "" && IsSpace(s[|s| - 1]) {
      TrimEndIs(s[..|s| - 1]);
      assert s[..|s| - 1][..|TrimEnd(s)|] == s[..|TrimEnd(s)|];
    } else {
      assert s[..|s|] == s;
    }
  }

  /** What trimming leaves is a stretch of the text with nothing but blanks before it. */
  lemma TrimIs(s: Text) returns (a: Text, b: Text)
    ensures s == a + Trim(s) + b && Blank(a)
    ensures Trim(s) != "" ==> !IsSpace(Trim(s)[0]) && !IsSpace(Trim(s)[|Trim(s)| - 1])
  {
    TrimStartIs(s);
    var t := TrimStart(s);
    TrimEndIs(t);
    a := s[..|s| - |t|];
    b := t[|TrimEnd(t)|..];
  }

  lemma TrimIdempotent(s: Text)
    ensures Trim(Trim(s)) == Trim(s)
  {
    var _, _ := TrimIs(s);
  }

  lemma TrimPadded(a: Text, s: Text, b: Text)
    requires Blank(a) && Blank(b) && Trim(s) == s
    ensures Trim(a + s + b) == s
  {
    var _, _ := TrimIs(s);
    assert a + s + b == a + (s + b);
    TrimStartDrops(a, s + b);
    TrimEndDrops(s, b);
    if s == "" {
      assert s + b == b && b + "" == b;
      TrimStartDrops(b, "");
    }
  }

  // ---------------------------------------------------------------- pipe_left_operand

  /** Operands joined by binary operators. */
  datatype Expr = Expr(first: seq<Tok>, rest: seq<(char, seq<Tok>)>) {
    predicate Fits() {
      ToksFit(PipeLang, first, true) && forall i :: 0 <= i < |rest| ==> rest[i].0 in PipeLang.seps && ToksFit(PipeLang, rest[i].1, true)
    }
    function Last(): seq<Tok> { if rest == [] then first else rest[|rest| - 1].1 }
    function Tail(): Expr
      requires rest != []
    {
      Expr(rest[0].1, rest[1..])
    }
  }

  function ExprText(e: Expr): Text
    decreases |e.rest|
  {
    if e.rest == [] then ToksText(e.first) else ToksText(e.first) + [e.rest[0].0] + ExprText(e.Tail())
  }

  lemma {:induction false} LastPiece(e: Expr)
    requires e.Fits()
    ensures var ps := Split(PipeLang, ExprText(e), Start, ""); ps[|ps| - 1] == ToksText(e.Last())
    decreases |e.rest|
  {
    var a := ToksText(e.first);
    ToksPass(PipeLang, e.first, 0);
    if e.rest == [] {
      SplitQuiet(PipeLang, a, "", Start, "");
      assert a + "" == a && "" + a == a;
    } else {
      var y := [e.rest[0].0] + ExprText(e.Tail());
      LastPiece(e.Tail());
      SplitQuiet(PipeLang, a, y, Start, "");
      assert a + y == ExprText(e) && y[1..] == ExprText(e.Tail());
      assert Cuts(PipeLang, Start, y[0]);
    }
  }

  /** The scanner's operand is the last one of the expression, trimmed. */
  lemma LeftOperandIsLast(e: Expr)
    requires e.Fits()
    ensures LeftOperand(ExprText(e)) == Trim(ToksText(e.Last()))
  {
    LastPiece(e);
  }

  /** The allowlist verdict on an expression is the verdict on its last operand alone, however
      harmless the operands before it are. */
  lemma VerdictOnLastOperand(e: Expr)
    requires e.Fits()
    ensures Verdict(ExprText(e)) <==> Verdict(ToksText(e.Last()))
    ensures Verdict(ExprText(e)) <==> Accepts(Trim(ToksText(e.Last())))
  {
    LeftOperandIsLast(e);
    var alone := Expr(e.Last(), []);
    assert alone.Last() == e.Last();
    LeftOperandIsLast(alone);
  }

  lemma {:induction false} LastIsQuiet(l: Lang, s: Text, st: St, buf: Text)
    requires Quiet(l, buf, Start) && Run(l, buf, Start) == st
    ensures var ps := Split(l, s, st, buf); Quiet(l, ps[|ps| - 1], Start)
  {
    if s == "" {
    } else if Cuts(l, st, s[0]) {
      LastIsQuiet(l, s[1..], st, "");
    } else {
      RunAppend(l, buf, [s[0]], Start);
      LastIsQuiet(l, s[1..], Step(l, st, s[0]), buf + [s[0]]);
    }
  }

  lemma QuietTrimmed(p: Text)
    requires Quiet(PipeLang, p, Start)
    ensures Quiet(PipeLang, Trim(p), Start)
  {
    var a, b := TrimIs(p);
    BlankPasses(PipeLang, a);
    RunAppend(PipeLang, a, Trim(p), Start);
    RunAppend(PipeLang, a + Trim(p), b, Start);
  }

  /** On any text at all, the extracted operand holds no further split point. */
  lemma LeftOperandIdempotent(s: Text)
    ensures LeftOperand(LeftOperand(s)) == LeftOperand(s)
    ensures Verdict(LeftOperand(s)) <==> Verdict(s)
  {
    var ps := Split(PipeLang, s, Start, "");
    var p := ps[|ps| - 1];
    LastIsQuiet(PipeLang, s, Start, "");
    QuietTrimmed(p);
    SplitQuiet(PipeLang, Trim(p), "", Start, "");
    assert Trim(p) + "" == Trim(p) && "" + Trim(p) == Trim(p);
    TrimIdempotent(p);
  }

  // ---------------------------------------------------------------- call_closes_at_end

  /** The depth stays at least `d` throughout. */
  ghost predicate Above(l: Lang, s: Text, st: St, d: int) {
    st.depth >= d && (s == "" || Above(l, s[1..], Step(l, st, s[0]), d))
  }

  lemma {:induction false} AboveAppend(l: Lang, a: Text, b: Text, st: St, d: int)
    ensures Above(l, a + b, st, d) <==> Above(l, a, st, d) && Above(l, b, Run(l, a, st), d)
  {
    if a == "" {
      assert a + b == b;
    } else {
      assert (a + b)[1..] == a[1..] + b;
      AboveAppend(l, a[1..], b, Step(l, st, a[0]), d);
    }
  }

  lemma {:induction false} AbovePrefix(l: Lang, s: Text, st: St, d: int, n: nat)
    requires Above(l, s, st, d) && n <= |s|
    ensures Run(l, s[..n], st).depth >= d
  {
    assert s == s[..n] + s[n..];
    AboveAppend(l, s[..n], s[n..], st, d);
  }

  lemma {:induction false} BodyAbove(l: Lang, q: char, b: seq<QuotedChar>, d: nat)
    requires BodyFits(q, b)
    ensures Above(l, BodyText(b), St(InQuote(q), d), d)
  {
    if b != [] {
      var st := St(InQuote(q), d);
      BodyAbove(l, q, b[1..], d);
      if b[0].Lit? {
        AboveAppend(l, [b[0].c], BodyText(b[1..]), st, d);
      } else {
        RunAppend(l, ['\\'], [b[0].c], st);
        AboveAppend(l, ['\\'], [b[0].c], st, d);
        assert ['\\'] + [b[0].c] == ['\\', b[0].c];
        AboveAppend(l, ['\\', b[0].c], BodyText(b[1..]), st, d);
      }
    }
  }

  lemma EnclosedAbove(l: Lang, open: char, s: Text, close: char, d: nat, inside: St)
    requires Step(l, St(Code, d), open) == inside && Above(l, s, inside, d)
    requires Run(l, s, inside) == inside && Step(l, inside, close) == St(Code, d)
    ensures Above(l, [open] + s + [close], St(Code, d), d)
  {
    RunAppend(l, [open], s, St(Code, d));
    AboveAppend(l, [open], s, St(Code, d), d);
    AboveAppend(l, [open] + s, [close], St(Code, d), d);
  }

  lemma {:induction false} AboveLower(l: Lang, s: Text, st: St, d: int, lower: int)
    requires Above(l, s, st, d) && lower <= d
    ensures Above(l, s, st, lower)
  {
    if s != "" {
      AboveLower(l, s[1..], Step(l, st, s[0]), d, lower);
    }
  }

  lemma {:induction false} TokAbove(l: Lang, t: Tok, d: nat)
    requires l.Valid() && d > 0 && TokFits(l, t, false)
    ensures Above(l, TokText(t), St(Code, d), d)
    decreases t
  {
    match t
    case Plain(c) => assert [c][1..] == "";
    case Quoted(q, body) =>
      BodyAbove(l, q, body, d);
      BodyPasses(l, q, body, d);
      EnclosedAbove(l, q, BodyText(body), q, d, St(InQuote(q), d));
    case Group(open, inner, close) =>
      ToksAbove(l, inner, d + 1);
      ToksPass(l, inner, d + 1);
      AboveLower(l, ToksText(inner), St(Code, d + 1), d + 1, d);
      EnclosedAbove(l, open, ToksText(inner), close, d, St(Code, d + 1));
  }

  lemma {:induction false} ToksAbove(l: Lang, ts: seq<Tok>, d: nat)
    requires l.Valid() && d > 0 && ToksFit(l, ts, false)
    ensures Above(l, ToksText(ts), St(Code, d), d)
    decreases ts
  {
    if ts != [] {
      TokAbove(l, ts[0], d);
      TokPasses(l, ts[0], d);
      ToksAbove(l, ts[1..], d);
      AboveAppend(l, TokText(ts[0]), ToksText(ts[1..]), St(Code, d), d);
    }
  }

  /** Inside the parentheses of a call the depth never comes back to zero. */
  lemma DeepInside(args: seq<Tok>, n: nat)
    requires ToksFit(CallLang, args, false) && 0 < n <= |ToksText(args)| + 1
    ensures Run(CallLang, ("(" + ToksText(args) + ")")[..n], Start).depth > 0
  {
    var text := ToksText(args);
    assert ("(" + text + ")")[..n] == "(" + text[..n - 1];
    ToksAbove(CallLang, args, 1);
    AbovePrefix(CallLang, text, St(Code, 1), 1, n - 1);
    RunAppend(CallLang, "(", text[..n - 1], Start);
  }

  lemma ClosesToZero(args: seq<Tok>)
    requires ToksFit(CallLang, args, false)
    ensures Run(CallLang, "(" + ToksText(args) + ")", Start) == Start
  {
    ToksPass(CallLang, args, 1);
    RunAppend(CallLang, "(", ToksText(args), Start);
    RunAppend(CallLang, "(" + ToksText(args), ")", Start);
  }

  /** For every argument text with balanced parentheses outside its quotes: the call is taken
      as whole exactly when nothing follows its closing parenthesis. */
  lemma WholeCallIff(args: seq<Tok>, tail: Text)
    requires ToksFit(CallLang, args, false)
    ensures WholeCall("(" + ToksText(args) + ")" + tail) <==> tail == ""
  {
    var call := "(" + ToksText(args) + ")";
    ClosesToZero(args);
    if tail == "" {
      assert call + tail == call;
      forall n | 0 < n < |call|
        ensures Run(CallLang, call[..n], Start).depth > 0
      {
        DeepInside(args, n);
      }
    } else {
      assert (call + tail)[..|call|] == call;
    }
  }

  /** On any text: what is taken as a whole call ends with the parenthesis that closes its
      first one. */
  lemma WholeCallEndsWithItsParen(s: Text)
    requires WholeCall(s)
    ensures |s| >= 2 && s[|s| - 1] == ')' && Run(CallLang, s[..|s| - 1], Start) == St(Code, 1)
  {
    var front := s[..|s| - 1];
    assert s == front + [s[|s| - 1]];
    RunAppend(CallLang, front, [s[|s| - 1]], Start);
    assert Run(CallLang, front, Start) == if |s| == 1 then Start else Run(CallLang, s[..|s| - 1], Start);
  }

  lemma NotAWord(s: Text, i: nat)
    requires i < |s| && !WordChar(s[i])
    ensures !JsonName(s)
  {
  }

  /** `t.s(..)`: accepted exactly when its first argument is a literal and nothing follows. */
  lemma TranslationVerdict(args: seq<Tok>, tail: Text)
    requires ToksFit(CallLang, args, false)
    ensures Accepts("t.s(" + ToksText(args) + ")" + tail) <==>
            tail == "" && StartsWith(TrimStart(ToksText(args) + ")" + tail), "\"")
  {
    var s := "t.s(" + ToksText(args) + ")" + tail;
    NotAWord(s, 1);
    assert s[3..] == "(" + ToksText(args) + ")" + tail;
    assert s[4..] == ToksText(args) + ")" + tail;
    assert s[..4] == "t.s(";
    assert s[1] != '1';
    WholeCallIff(args, tail);
  }

  lemma FirstParenAfter(a: Text, b: Text)
    requires '(' !in a
    ensures FirstParen(a + "(" + b) == |a|
  {
    var s := a + "(" + b;
    assert s[|a|] == '(';
  }

  lemma CallParts(a: Text, b: Text, c: Text)
    ensures a + "(" + b + ")" + c == a + ("(" + b + ")" + c) == a + "(" + (b + ")" + c)
  {
  }

  lemma CallAt(head: Text, call: Text)
    requires StartsWith(head, "t.fmt")
    ensures var s := head + call; s[1] == '.' && s[2] == 'f' && s[..5] == "t.fmt" && s[..|head|] == head && s[|head|..] == call
  {
    assert head[1] == head[..5][1] && head[2] == head[..5][2];
    assert (head + call)[..5] == head[..5];
  }

  /** Which rule applies to a name that begins like a formatter. */
  lemma FormatRule(head: Text, call: Text, rest: Text)
    requires StartsWith(head, "t.fmt") && '(' !in head && call == "(" + rest
    ensures Accepts(head + call) <==> EndsWith(head, "_html") && WholeCall(call)
  {
    var s := head + call;
    CallAt(head, call);
    NotAWord(s, 1);
    assert s == head + "(" + rest;
    FirstParenAfter(head, rest);
    assert !StartsWith(s, "t.s(") by {
      assert s[..4][2] == 'f';
    }
    assert s != "i18n_js" && s != "body_html";
  }

  /** `t.fmt..(..)`: accepted exactly when the name ends in `_html` and nothing follows. */
  lemma FormatVerdict(name: Text, args: seq<Tok>, tail: Text)
    requires '(' !in name && ToksFit(CallLang, args, false)
    ensures Accepts("t.fmt" + name + "(" + ToksText(args) + ")" + tail) <==> EndsWith("t.fmt" + name, "_html") && tail == ""
  {
    var head := "t.fmt" + name;
    var call := "(" + ToksText(args) + ")" + tail;
    CallParts(head, ToksText(args), tail);
    assert call == "(" + (ToksText(args) + ")" + tail);
    FormatRule(head, call, ToksText(args) + ")" + tail);
    WholeCallIff(args, tail);
  }

  // ---------------------------------------------------------------- the verdict on every text

  predicate Alphanumeric(c: char) { '0' <= c <= '9' || 'a' <= c <= 'z' || 'A' <= c <= 'Z' }

  predicate IsWord(w: Text) { forall i :: 0 <= i < |w| ==> Alphanumeric(w[i]) }

  /** `s` is a list of alphanumeric words joined by underscores, some of them perhaps empty, and one
      of them is `json`. */
  ghost predicate HasJsonWord(s: Text) {
    exists words: seq<Text> :: words != [] && (forall i :: 0 <= i < |words| ==> IsWord(words[i])) && "json" in words && Join(words, '_') == s
  }

  lemma {:induction false} WordPasses(w: Text)
    requires IsWord(w)
    ensures Passes(WordLang, w, 0)
  {
    if w != "" {
      WordPasses(w[1..]);
    }
  }

  lemma {:induction false} PiecesAreWords(s: Text, buf: Text)
    requires IsWord(buf) && forall i :: 0 <= i < |s| ==> WordChar(s[i])
    ensures forall i :: 0 <= i < |Split(WordLang, s, Start, buf)| ==> IsWord(Split(WordLang, s, Start, buf)[i])
  {
    if s == "" {
    } else if s[0] == '_' {
      PiecesAreWords(s[1..], "");
    } else {
      PiecesAreWords(s[1..], buf + [s[0]]);
    }
  }

  lemma {:induction false} JoinedWords(words: seq<Text>)
    requires words != [] && forall i :: 0 <= i < |words| ==> IsWord(words[i])
    ensures forall i :: 0 <= i < |Join(words, '_')| ==> WordChar(Join(words, '_')[i])
    ensures "json" in words ==> Join(words, '_') != ""
  {
    assert IsWord(words[0]);
    if |words| > 1 {
      JoinedWords(words[1..]);
    }
  }

  /** The marker rule: exactly the names with a `json` segment. */
  lemma JsonNameIff(s: Text)
    ensures JsonName(s) <==> HasJsonWord(s)
  {
    if JsonName(s) {
      var words := Split(WordLang, s, Start, "");
      PiecesAreWords(s, "");
      PiecesRejoin(WordLang, s, Start, "", '_');
      assert "" + s == s;
    }
    if words: seq<Text> :| words != [] && (forall i :: 0 <= i < |words| ==> IsWord(words[i])) && "json" in words && Join(words, '_') == s {
      JoinedWords(words);
      forall i | 0 <= i < |words|
        ensures Passes(WordLang, words[i], 0)
      {
        WordPasses(words[i]);
      }
      SplitJoined(WordLang, words, '_');
    }
  }

  /** What is neither a translation nor a formatter call: a text that is its own last operand is
      accepted if and only if it is one of the two excepted names or a name with a `json` segment.
      Every other name is refused, and every text with another character in it. */
  lemma NameVerdict(s: Text)
    requires LeftOperand(s) == s && !(|s| >= 4 && s[..4] == "t.s(") && !(|s| >= 5 && s[..5] == "t.fmt")
    ensures Verdict(s) <==> s == "i18n_js" || s == "body_html" || HasJsonWord(s)
  {
    JsonNameIff(s);
  }

  lemma NotNamedJson(s: Text)
    requires |s| >= 4 && s[1] == '.'
    ensures !JsonName(s) && s != "i18n_js" && s != "body_html"
  {
    NotAWord(s, 1);
    assert "i18n_js"[1] == '1' && "body_html"[1] == 'o';
  }

  lemma {:induction false} FirstNonBlank(s: Text)
    ensures StartsWith(TrimStart(s), "\"") <==> exists k :: 0 <= k < |s| && s[k] == '"' && Blank(s[..k])
  {
    if s != "" && IsSpace(s[0]) {
      FirstNonBlank(s[1..]);
      if k :| 0 <= k < |s[1..]| && s[1..][k] == '"' && Blank(s[1..][..k]) {
        assert s[k + 1] == '"' && s[..k + 1] == [s[0]] + s[1..][..k];
      }
      if k :| 0 <= k < |s| && s[k] == '"' && Blank(s[..k]) {
        assert k > 0 && s[1..][k - 1] == '"' && s[1..][..k - 1] == s[..k][1..];
      }
    } else if s != "" && s[0] == '"' {
      assert s[..0] == "";
    } else if k :| 0 <= k < |s| && s[k] == '"' && Blank(s[..k]) {
      assert k > 0 && s[..k][0] == s[0];
    }
  }

  /** Any text that begins with `t.s(`, balanced or not: accepted if and only if the first thing in
      the parentheses is a double quote and the call closes at the very end. */
  lemma AnyTranslationVerdict(s: Text)
    requires LeftOperand(s) == s && |s| >= 4 && s[..4] == "t.s("
    ensures Verdict(s) <==> WholeCall(s[3..]) && exists k :: 0 <= k < |s[4..]| && s[4..][k] == '"' && Blank(s[4..][..k])
  {
    assert s[1] == s[..4][1] && s[..4][1] == '.';
    NotNamedJson(s);
    FirstNonBlank(s[4..]);
  }

  /** Any text that begins with `t.fmt`: accepted if and only if there is a parenthesis, what stands
      before the first one ends in `_html`, and the call closes at the very end. */
  lemma AnyFormatVerdict(s: Text)
    requires LeftOperand(s) == s && |s| >= 5 && s[..5] == "t.fmt"
    ensures Verdict(s) <==> exists open :: 5 <= open < |s| && s[open] == '(' && '(' !in s[..open] && s[open - 5..open] == "_html" && WholeCall(s[open..])
  {
    assert s[1] == s[..5][1] && s[..5][1] == '.' && s[2] == s[..5][2] && s[..5][2] == 'f';
    NotNamedJson(s);
    assert s[..4][2] == 'f';
    var open := FirstParen(s);
    forall i | 0 <= i < |s| && s[i] == '(' && '(' !in s[..i]
      ensures i == open
    {
      assert forall j :: 0 <= j < i ==> s[j] == s[..i][j] && s[j] != '(';
    }
    if open < |s| {
      assert '(' !in s[..open];
      assert EndsWith(s[..open], "_html") <==> 5 <= open && s[open - 5..open] == "_html" by {
        if 5 <= open { assert s[..open][open - 5..] == s[open - 5..open]; }
      }
    }
  }

  /** Nothing of this delimits in `pipe_left_operand`. */
  predicate FlatChar(c: char) { c != '"' && c != '\'' && c != '(' && c != ')' && c != '[' && c != ']' }

  predicate IsBinary(c: char) { c == '~' || c == '+' || c == '-' || c == '*' || c == '/' || c == '%' }

  predicate Flat(s: Text) { forall i :: 0 <= i < |s| ==> FlatChar(s[i]) }

  lemma {:induction false} FlatPasses(s: Text, buf: Text)
    requires Flat(s) && forall i :: 0 <= i < |s| ==> !IsBinary(s[i])
    ensures Split(PipeLang, s, Start, buf) == [buf + s]
  {
    if s == "" {
      assert buf + s == buf;
    } else {
      FlatPasses(s[1..], buf + [s[0]]);
      assert buf + [s[0]] + s[1..] == buf + s;
    }
  }

  lemma {:induction false} FlatLast(left: Text, op: char, right: Text, buf: Text)
    requires Flat(left) && Flat(right) && IsBinary(op) && forall i :: 0 <= i < |right| ==> !IsBinary(right[i])
    ensures var ps := Split(PipeLang, left + [op] + right, Start, buf); ps[|ps| - 1] == right
  {
    var s := left + [op] + right;
    if left == "" {
      assert s[0] == op && s[1..] == right;
      FlatPasses(right, "");
      assert "" + right == right;
    } else {
      assert s[0] == left[0] && s[1..] == left[1..] + [op] + right;
      FlatLast(left[1..], op, right, if IsBinary(left[0]) then "" else buf + [left[0]]);
    }
  }

  /** In plain terms, for text without quotes and brackets: of what the six operators join, the last
      operand counts and nothing before it. */
  lemma LastOfOperands(left: Text, op: char, right: Text)
    requires Flat(left) && Flat(right) && IsBinary(op) && forall i :: 0 <= i < |right| ==> !IsBinary(right[i])
    ensures LeftOperand(left + [op] + right) == Trim(right)
  {
    FlatLast(left, op, right, "");
  }

  /** The characters that delimit, written out. */
  lemma Delimiters(c: char)
    ensures c in ArgLang.quotes <==> c == '"' || c == '\'' || c == '`'
    ensures c in ArgLang.opens <==> c == '(' || c == '[' || c == '{'
    ensures c in ArgLang.closes <==> c == ')' || c == ']' || c == '}'
    ensures c in ArgLang.seps <==> c == ','
    ensures c in PipeLang.quotes <==> c == '"' || c == '\''
    ensures c in PipeLang.opens <==> c == '(' || c == '['
    ensures c in PipeLang.closes <==> c == ')' || c == ']'
    ensures c in PipeLang.seps <==> IsBinary(c)
    ensures c in CallLang.quotes <==> c == '"' || c == '\''
    ensures c in CallLang.opens <==> c == '('
    ensures c in CallLang.closes <==> c == ')'
  {
  }
}
