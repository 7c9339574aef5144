/** A printer for expression trees, and its round trip through lexer, parser and evaluator. */
module ExprPrinter {
  import opened Wrappers
  import opened Sequences
  import opened ExprNumbers
  import opened ExprLexer
  import opened ExprParser
  import opened ExprEvaluator

  // ---- Which trees can be written down ----------------------------------

  ghost predicate IsName(u: Library, s: string) {
    && s != "" && u.IsIdentStart(s[0])
    && (forall i :: 0 <= i < |s| ==> u.Is(IdentPart, s[i]))
    && s != "true" && s != "false"
  }

  ghost predicate Printable(u: Library, e: Expr)
    decreases e, 1
  {
    match e
    case NumberLit(v, _) => IsNumberText(v)
    case VarRef(path) => IsName(u, path)
    case FuncCall(name, args) => IsName(u, name) && AllPrintable(u, args)
    case _ => true
  }

  ghost predicate AllPrintable(u: Library, args: seq<Expr>)
    decreases args, 0
  {
    args != [] ==> Printable(u, args[0]) && AllPrintable(u, args[1..])
  }

  /** Trees that can be written down and nest within the limit. */
  ghost predicate Writable(u: Library, e: Expr) {
    Printable(u, e) && Numeric(u, e) && Height(e) <= MAX_DEPTH
  }

  // ---- The printer ------------------------------------------------------

  /** The quote for each string, whether backslashes that could be taken as they are get a backslash all the same, and
      the white space behind every token. */
  datatype Look = Look(quote: string -> char, eager: bool, gap: string)

  ghost predicate Fits(u: Library, l: Look) {
    && (forall v: string :: l.quote(v) == '"' || l.quote(v) == '\'')
    && forall k :: 0 <= k < |l.gap| ==> u.Is(Space, l.gap[k])
  }

  /** Quotes are escaped; so is a backslash, at least before a quote, before another one and at the end. */
  function EscapeHead(q: char, eager: bool, v: string): string
    requires v != ""
  {
    if v[0] == q || (v[0] == '\\' && (eager || |v| == 1 || v[1] == q || v[1] == '\\')) then ['\\', v[0]] else [v[0]]
  }

  function Escape(q: char, eager: bool, v: string): string {
    if v == "" then "" else EscapeHead(q, eager, v) + Escape(q, eager, v[1..])
  }

  function Quote(l: Look, v: string): string {
    var q := l.quote(v);
    [q] + (Escape(q, l.eager, v) + [q])
  }

  function Print(l: Look, e: Expr): string
    decreases e, 1
  {
    match e
    case StringLit(v) => Quote(l, v) + l.gap
    case NumberLit(v, _) => v + l.gap
    case BoolLit(b) => (if b then "true" else "false") + l.gap
    case VarRef(path) => path + l.gap
    case FuncCall(name, args) => (name + l.gap) + ("(" + (l.gap + PrintArgs(l, args)))
  }

  function PrintArgs(l: Look, args: seq<Expr>): string
    decreases args, 2
  {
    if args == [] then ")" + l.gap else Print(l, args[0]) + PrintMore(l, args[1..])
  }

  function PrintMore(l: Look, args: seq<Expr>): string
    decreases args, 0
  {
    if args == [] then ")" + l.gap else "," + (l.gap + (Print(l, args[0]) + PrintMore(l, args[1..])))
  }

  /** The whole text between `${fn:` and its brace. */
  function Source(l: Look, e: Expr): string {
    l.gap + Print(l, e)
  }

  // ---- Reading back what was printed ------------------------------------

  /** What may follow a name or a number: nothing, white space, or one of the characters the printer puts there. */
  ghost predicate Stops(u: Library, s: string, j: nat) {
    j <= |s| && (j < |s| ==> s[j] == ',' || s[j] == ')' || s[j] == '(' || u.Is(Space, s[j]))
  }

  lemma {:induction false} RunEnds(u: Library, k: Class, s: string, i: nat, j: nat)
    requires i <= j <= |s|
    requires forall n :: i <= n < j ==> u.Is(k, s[n])
    requires j < |s| ==> !u.Is(k, s[j])
    ensures Run(u, k, s, i) == j
    decreases j - i
  {
    if i < j {
      RunEnds(u, k, s, i + 1, j);
    }
  }

  lemma {:induction false} StringReads(s: string, i: nat, q: char, eager: bool, v: string)
    requires q != '\\' && At(s, i, Escape(q, eager, v) + [q])
    ensures StringAt(q, s, i) == Ok((v, i + |Escape(q, eager, v)| + 1))
    decreases |v|
  {
    hide At;
    hide StringAt;
    var p := Escape(q, eager, v) + [q];
    AtSlice(s, i, p);
    if v == "" {
      assert p == [q];
      AtIndex(s, i, p, 0);
      QuoteCloses(s, i, q);
    } else {
      var c, rest := EscapeHead(q, eager, v), Escape(q, eager, v[1..]) + [q];
      assert p == c + rest;
      AtSplit(s, i, c, rest);
      AtIndex(s, i, c, 0);
      AtIndex(s, i, c, |c| - 1);
      AtIndex(s, i + |c|, rest, 0);
      StringReads(s, i + |c|, q, eager, v[1..]);
      EscapeStarts(q, eager, v);
      StringStep(s, i, q, v[0], |c|);
      assert [v[0]] + v[1..] == v;
    }
  }

  lemma QuoteCloses(s: string, i: nat, q: char)
    requires i < |s| && s[i] == q && q != '\\'
    ensures StringAt(q, s, i) == Ok(("", i + 1))
  {
  }

  /** What follows a backslash that is not escaped is neither a quote nor a backslash. */
  lemma EscapeStarts(q: char, eager: bool, v: string)
    requires v != ""
    ensures |EscapeHead(q, eager, v)| == 1 ==> v[0] != q
    ensures |EscapeHead(q, eager, v)| == 1 && v[0] == '\\' ==>
              |v| > 1 && Escape(q, eager, v[1..]) != "" && Escape(q, eager, v[1..])[0] == v[1] != q && v[1] != '\\'
  {
  }

  lemma StringStep(s: string, i: nat, q: char, c: char, n: nat)
    requires i + n <= |s| && q != '\\'
    requires (n == 1 && s[i] == c != q && (c == '\\' ==> i + 1 < |s| && s[i + 1] != q && s[i + 1] != '\\')) ||
             (n == 2 && s[i] == '\\' && s[i + 1] == c && (c == q || c == '\\'))
    ensures StringAt(q, s, i) == Carry([c], StringAt(q, s, i + n))
  {
    hide Carry;
  }

  /** One token at a position that is not white space. */
  lemma Step(u: Library, s: string, i: nat, tok: Token, j: nat)
    requires u.Valid() && i < |s| && !u.Is(Space, s[i])
    requires TokenAt(u, s, i) == Ok((tok, j))
    ensures TokensAt(u, s, i) == Prepend([tok], TokensAt(u, s, j))
  {
  }

  /** White space between tokens is skipped. */
  lemma {:induction false} GapSkips(u: Library, l: Look, s: string, i: nat, j: nat)
    requires u.Valid() && i <= j <= |s| && forall k :: i <= k < j ==> u.Is(Space, s[k])
    ensures TokensAt(u, s, i) == TokensAt(u, s, j)
    decreases j - i
  {
    if i < j {
      SpaceStep(u, s, i);
      GapSkips(u, l, s, i + 1, j);
    }
  }

  lemma SpaceStep(u: Library, s: string, i: nat)
    requires u.Valid() && i < |s| && u.Is(Space, s[i])
    ensures TokensAt(u, s, i) == TokensAt(u, s, i + 1)
  {
  }

  lemma GapAt(u: Library, l: Look, s: string, i: nat)
    requires u.Valid() && Fits(u, l) && At(s, i, l.gap)
    ensures i + |l.gap| <= |s| && TokensAt(u, s, i) == TokensAt(u, s, i + |l.gap|)
    ensures l.gap != "" ==> u.Is(Space, s[i])
  {
    hide TokensAt;
    AtSlice(s, i, l.gap);
    forall k | i <= k < i + |l.gap| ensures u.Is(Space, s[k]) {
      AtIndex(s, i, l.gap, k - i);
    }
    GapSkips(u, l, s, i, i + |l.gap|);
  }

  /** Behind a name or number there is white space, or what stops there anyway. */
  lemma GapStops(u: Library, l: Look, s: string, i: nat)
    requires u.Valid() && Fits(u, l) && At(s, i, l.gap) && Stops(u, s, i + |l.gap|)
    ensures Stops(u, s, i)
  {
    hide TokensAt;
    GapAt(u, l, s, i);
  }

  lemma StringStepAll(u: Library, l: Look, s: string, i: nat, v: string)
    requires u.Valid() && Fits(u, l) && At(s, i, Quote(l, v))
    ensures var j := i + |Quote(l, v)|;
            j <= |s| && TokensAt(u, s, i) == Prepend([Str(v)], TokensAt(u, s, j))
  {
    hide At;
    hide TokensAt;
    hide Escape;
    hide StringAt;
    var q := l.quote(v);
    var p := Escape(q, l.eager, v) + [q];
    AtSplit(s, i, [q], p);
    AtIndex(s, i, [q], 0);
    AtIndex(s, i + 1, p, 0);
    AtSlice(s, i + 1, p);
    StringReads(s, i + 1, q, l.eager, v);
    Step(u, s, i, Str(v), i + 1 + |p|);
  }

  lemma NameStep(u: Library, s: string, i: nat, name: string)
    requires u.Valid() && At(s, i, name) && Stops(u, s, i + |name|)
    requires IsName(u, name) || name == "true" || name == "false"
    ensures TokensAt(u, s, i) == Prepend([Word(name)], TokensAt(u, s, i + |name|))
  {
    var j := i + |name|;
    AtIndex(s, i, name, 0);
    forall n | i <= n < j ensures u.Is(IdentPart, s[n]) {
      AtIndex(s, i, name, n - i);
    }
    RunEnds(u, IdentPart, s, i, j);
    Step(u, s, i, Word(name), j);
  }

  lemma DigitsRun(u: Library, s: string, i: nat, p: string)
    requires At(s, i, p) && AllDigits(p)
    requires i + |p| < |s| ==> !IsDigit(s[i + |p|])
    ensures Run(u, Digit, s, i) == i + |p|
  {
    forall n | i <= n < i + |p| ensures u.Is(Digit, s[n]) {
      AtIndex(s, i, p, n - i);
    }
    RunEnds(u, Digit, s, i, i + |p|);
  }

  /** The digits and the optional fraction that NumberAt looks for, from `i` to `j`. */
  ghost predicate ReadsUnsigned(u: Library, s: string, i: nat, j: nat)
    requires i <= |s|
  {
    var dot := Run(u, Digit, s, i);
    i < dot && if dot < |s| && s[dot] == '.' then dot + 1 < Run(u, Digit, s, dot + 1) == j else dot == j
  }

  lemma FractionReads(u: Library, s: string, i: nat, whole: string, fraction: string)
    requires u.Valid()
    requires At(s, i, whole + ("." + fraction)) && AllDigits(whole) && AllDigits(fraction)
    requires Stops(u, s, i + |whole| + 1 + |fraction|)
    ensures ReadsUnsigned(u, s, i, i + |whole| + 1 + |fraction|)
  {
    hide At;
    var dot := i + |whole|;
    AtSplit(s, i, whole, "." + fraction);
    AtSplit(s, dot, ".", fraction);
    AtIndex(s, dot, ".", 0);
    DigitsRun(u, s, i, whole);
    DigitsRun(u, s, dot + 1, fraction);
  }

  lemma UnsignedReads(u: Library, s: string, i: nat, t: string)
    requires u.Valid()
    requires At(s, i, t) && Stops(u, s, i + |t|)
    requires AllDigits(t) || exists k: nat :: IsFraction(t, k)
    ensures t != "" && IsDigit(t[0]) && ReadsUnsigned(u, s, i, i + |t|)
  {
    if AllDigits(t) {
      DigitsRun(u, s, i, t);
    } else {
      var k: nat :| IsFraction(t, k);
      assert t == t[..k] + ("." + t[k + 1..]);
      FractionReads(u, s, i, t[..k], t[k + 1..]);
      assert t[..k][0] == t[0];
    }
  }

  lemma NumberReads(u: Library, s: string, i: nat, p: string)
    requires u.Valid()
    requires At(s, i, p) && Stops(u, s, i + |p|) && IsNumberText(p)
    ensures p != "" && (p[0] == '-' || IsDigit(p[0]))
    ensures NumberAt(u, s, i) == Ok(i + |p|)
  {
    hide Run;
    hide At;
    var t := Unsigned(p);
    if p != "" && p[0] == '-' {
      assert p == "-" + t;
      AtSplit(s, i, "-", t);
      AtIndex(s, i, "-", 0);
      UnsignedReads(u, s, i + 1, t);
    } else {
      UnsignedReads(u, s, i, t);
      AtIndex(s, i, p, 0);
    }
  }

  lemma NumberStep(u: Library, s: string, i: nat, p: string)
    requires u.Valid() && At(s, i, p) && Stops(u, s, i + |p|) && IsNumberText(p)
    ensures TokensAt(u, s, i) == Prepend([Num(p)], TokensAt(u, s, i + |p|))
  {
    hide Run;
    hide IsNumberText;
    NumberReads(u, s, i, p);
    AtIndex(s, i, p, 0);
    Step(u, s, i, Num(p), i + |p|);
  }

  /** A token and the white space behind it. */
  lemma TokenAndGap(u: Library, l: Look, s: string, i: nat, text: string, tok: Token)
    requires u.Valid() && Fits(u, l) && At(s, i, text + l.gap)
    requires TokensAt(u, s, i) == Prepend([tok], TokensAt(u, s, i + |text|))
    ensures var j := i + |text + l.gap|;
            j <= |s| && TokensAt(u, s, i) == Prepend([tok], TokensAt(u, s, j))
  {
    hide At;
    hide TokensAt;
    AtSplit(s, i, text, l.gap);
    GapAt(u, l, s, i + |text|);
  }

  lemma {:induction false} ExprLexes(u: Library, l: Look, s: string, i: nat, e: Expr)
    requires u.Valid() && Fits(u, l) && Printable(u, e)
    requires At(s, i, Print(l, e)) && Stops(u, s, i + |Print(l, e)|)
    ensures TokensAt(u, s, i) == Prepend(Flatten(e), TokensAt(u, s, i + |Print(l, e)|))
    decreases e, 1
  {
    hide At;
    hide TokensAt;
    hide Stops;
    hide Fits;
    hide Quote;
    hide IsNumberText;
    if e.FuncCall? {
      CallLexes(u, l, s, i, e.name, e.args);
    } else {
      var text := match e
                  case StringLit(v) => Quote(l, v)
                  case NumberLit(v, _) => v
                  case BoolLit(b) => if b then "true" else "false"
                  case VarRef(path) => path
                  case FuncCall(_, _) => "";
      AtSplit(s, i, text, l.gap);
      GapStops(u, l, s, i + |text|);
      match e {
        case StringLit(v) => StringStepAll(u, l, s, i, v);
        case NumberLit(v, _) => NumberStep(u, s, i, v);
        case BoolLit(b) => NameStep(u, s, i, text);
        case VarRef(path) => NameStep(u, s, i, path);
        case FuncCall(_, _) =>
      }
      TokenAndGap(u, l, s, i, text, Flatten(e)[0]);
    }
  }

  /** The name, the parenthesis and the white space behind each. */
  lemma CallBegins(u: Library, l: Look, s: string, i: nat, name: string, rest: string)
    requires u.Valid() && Fits(u, l) && IsName(u, name)
    requires At(s, i, (name + l.gap) + ("(" + (l.gap + rest)))
    ensures var n := i + |name + l.gap| + 1 + |l.gap|;
            && n <= |s| && At(s, n, rest)
            && TokensAt(u, s, i) == Prepend([Ident(name)], Prepend([LParen], TokensAt(u, s, n)))
  {
    hide At;
    hide TokensAt;
    hide Fits;
    var n := i + |name + l.gap|;
    AtSplit(s, i, name + l.gap, "(" + (l.gap + rest));
    AtSplit(s, i, name, l.gap);
    AtSplit(s, n, "(", l.gap + rest);
    AtSplit(s, n + 1, l.gap, rest);
    AtIndex(s, n, "(", 0);
    GapStops(u, l, s, i + |name|);
    NameStep(u, s, i, name);
    TokenAndGap(u, l, s, i, name, Ident(name));
    Step(u, s, n, LParen, n + 1);
    GapAt(u, l, s, n + 1);
  }

  lemma {:induction false} CallLexes(u: Library, l: Look, s: string, i: nat, name: string, args: seq<Expr>)
    requires u.Valid() && Fits(u, l) && IsName(u, name) && AllPrintable(u, args)
    requires At(s, i, Print(l, FuncCall(name, args)))
    ensures TokensAt(u, s, i) ==
            Prepend(Flatten(FuncCall(name, args)), TokensAt(u, s, i + |Print(l, FuncCall(name, args))|))
    decreases args, 3
  {
    hide At;
    hide TokensAt;
    hide Fits;
    hide PrintArgs;
    hide FlattenArgs;
    var n := i + |name + l.gap| + 1 + |l.gap|;
    CallBegins(u, l, s, i, name, PrintArgs(l, args));
    ArgsLex(u, l, s, n, args);
    var rest := TokensAt(u, s, n + |PrintArgs(l, args)|);
    PrependPrepend([LParen], FlattenArgs(args), rest);
    PrependPrepend([Ident(name)], [LParen] + FlattenArgs(args), rest);
    assert [Ident(name)] + ([LParen] + FlattenArgs(args)) == Flatten(FuncCall(name, args));
  }

  /** A parenthesis that closes or a comma, and the white space behind it. */
  lemma MarkStep(u: Library, l: Look, s: string, i: nat, mark: string, tok: Token)
    requires u.Valid() && Fits(u, l) && At(s, i, mark + l.gap)
    requires (mark == ")" && tok == RParen) || (mark == "," && tok == Comma)
    ensures var j := i + |mark + l.gap|;
            i < |s| && j <= |s| && s[i] == mark[0] && TokensAt(u, s, i) == Prepend([tok], TokensAt(u, s, j))
  {
    hide At;
    hide TokensAt;
    hide Fits;
    AtSplit(s, i, mark, l.gap);
    AtIndex(s, i, mark, 0);
    Step(u, s, i, tok, i + 1);
    GapAt(u, l, s, i + 1);
  }

  lemma MoreStops(u: Library, l: Look, s: string, i: nat, args: seq<Expr>)
    requires At(s, i, PrintMore(l, args))
    ensures Stops(u, s, i)
  {
    AtIndex(s, i, PrintMore(l, args), 0);
  }

  lemma {:induction false} ArgsLex(u: Library, l: Look, s: string, i: nat, args: seq<Expr>)
    requires u.Valid() && Fits(u, l) && AllPrintable(u, args) && At(s, i, PrintArgs(l, args))
    ensures i + |PrintArgs(l, args)| <= |s|
    ensures TokensAt(u, s, i) == Prepend(FlattenArgs(args), TokensAt(u, s, i + |PrintArgs(l, args)|))
    decreases args, 2
  {
    hide At;
    hide TokensAt;
    hide Fits;
    hide Stops;
    AtSlice(s, i, PrintArgs(l, args));
    if args == [] {
      MarkStep(u, l, s, i, ")", RParen);
    } else {
      var a, m := Print(l, args[0]), PrintMore(l, args[1..]);
      AtSplit(s, i, a, m);
      MoreStops(u, l, s, i + |a|, args[1..]);
      ExprLexes(u, l, s, i, args[0]);
      MoreLex(u, l, s, i + |a|, args[1..]);
      PrependPrepend(Flatten(args[0]), FlattenMore(args[1..]), TokensAt(u, s, i + |PrintArgs(l, args)|));
    }
  }

  lemma MoreUnfolds(l: Look, args: seq<Expr>)
    requires args != []
    ensures PrintMore(l, args) == ("," + l.gap) + (Print(l, args[0]) + PrintMore(l, args[1..]))
  {
    var a, m := Print(l, args[0]), PrintMore(l, args[1..]);
    assert "," + (l.gap + (a + m)) == ("," + l.gap) + (a + m);
  }

  lemma {:induction false} MoreLex(u: Library, l: Look, s: string, i: nat, args: seq<Expr>)
    requires u.Valid() && Fits(u, l) && AllPrintable(u, args) && At(s, i, PrintMore(l, args))
    ensures i + |PrintMore(l, args)| <= |s|
    ensures TokensAt(u, s, i) == Prepend(FlattenMore(args), TokensAt(u, s, i + |PrintMore(l, args)|))
    decreases args, 0
  {
    hide At;
    hide TokensAt;
    hide Fits;
    hide Stops;
    AtSlice(s, i, PrintMore(l, args));
    if args == [] {
      MarkStep(u, l, s, i, ")", RParen);
    } else {
      var a, m := Print(l, args[0]), PrintMore(l, args[1..]);
      var n := i + |"," + l.gap|;
      MoreUnfolds(l, args);
      hide PrintMore;
      hide Print;
      AtSplit(s, i, "," + l.gap, a + m);
      AtSplit(s, n, a, m);
      MarkStep(u, l, s, i, ",", Comma);
      MoreStops(u, l, s, n + |a|, args[1..]);
      ExprLexes(u, l, s, n, args[0]);
      MoreLex(u, l, s, n + |a|, args[1..]);
      var rest := TokensAt(u, s, i + |PrintMore(l, args)|);
      PrependPrepend(Flatten(args[0]), FlattenMore(args[1..]), rest);
      PrependPrepend([Comma], Flatten(args[0]) + FlattenMore(args[1..]), rest);
    }
  }

  /** Printed text tokenizes to exactly the flattening of the tree. */
  lemma PrintLexes(u: Library, l: Look, e: Expr)
    requires u.Valid() && Fits(u, l) && Printable(u, e)
    ensures Tokens(u, Source(l, e)) == Ok(Flatten(e))
  {
    hide TokensAt;
    hide Print;
    hide At;
    var s := Source(l, e);
    AtWhole(s);
    AtSplit(s, 0, l.gap, Print(l, e));
    GapAt(u, l, s, 0);
    ExprLexes(u, l, s, |l.gap|, e);
    NothingLeft(u, s);
    assert Flatten(e) + [] == Flatten(e);
  }

  lemma NothingLeft(u: Library, s: string)
    ensures TokensAt(u, s, |s|) == Ok([])
  {
  }

  /** Printer, lexer and parser undo each other up to the nesting limit, and report it beyond. */
  lemma PrintParses(u: Library, l: Look, e: Expr)
    requires u.Valid() && Fits(u, l) && Printable(u, e) && Numeric(u, e)
    ensures Tokens(u, Source(l, e)).Ok?
    ensures Parse(u, Tokens(u, Source(l, e)).value) == if Height(e) <= MAX_DEPTH then Ok(e) else Err(TooDeep)
  {
    hide Source;
    PrintLexes(u, l, e);
    ParseIffFlatten(u, Flatten(e), e);
    ParseTooDeep(u, e);
  }

  /** Evaluating the printed text of a tree gives the plain meaning of the tree. */
  lemma PrintEvaluates(u: Library, l: Look, env: Env, e: Expr)
    requires u.Valid() && Fits(u, l) && Writable(u, e)
    ensures Denotation(u, env, Source(l, e)) ==
            match Meaning(env, e) case Ok(v) => Ok(v) case Err(x) => Err(Evaluation(x))
  {
    hide Source;
    PrintParses(u, l, e);
  }

  // ---- What printed text evaluates to -----------------------------------

  /** Literals evaluate to themselves: a string to its text, a number to its spelling and kind, a boolean to its truth.
      A number has to be in the range of int64 or float64. */
  lemma LiteralsDenoteThemselves(u: Library, l: Look, env: Env, text: string, number: string, b: bool)
    requires u.Valid() && u.ParsesDecimals() && Fits(u, l) && IsNumberText(number)
    ensures Denotation(u, env, l.gap + (Quote(l, text) + l.gap)) == Ok(StringVal(text))
    ensures Denotation(u, env, l.gap + ((if b then "true" else "false") + l.gap)) == Ok(BoolVal(b))
    ensures InRange(number) ==> Denotation(u, env, l.gap + (number + l.gap)) == Ok(NumberVal(number, '.' !in number))
  {
    hide Denotation;
    hide Quote;
    hide IsNumberText;
    PrintEvaluates(u, l, env, StringLit(text));
    PrintEvaluates(u, l, env, BoolLit(b));
    if InRange(number) {
      NumbersAreExact(u, number);
      PrintEvaluates(u, l, env, NumberLit(number, '.' !in number));
    }
  }

  /** A path evaluates to what it resolves to; one that does not resolve is its own text, or the error if it has a dot
      in it. */
  lemma PathsResolve(u: Library, l: Look, env: Env, path: string)
    requires u.Valid() && Fits(u, l) && IsName(u, path)
    ensures var text := l.gap + (path + l.gap);
            && (env.resolve(path).Some? ==> Denotation(u, env, text) == Ok(env.resolve(path).value))
            && (env.resolve(path).None? && '.' !in path ==> Denotation(u, env, text) == Ok(StringVal(path)))
            && (env.resolve(path).None? && '.' in path ==>
                  Denotation(u, env, text) == Err(Evaluation(UnresolvedVariable(path))))
  {
    hide Denotation;
    PrintEvaluates(u, l, env, VarRef(path));
  }

  lemma {:induction false} ArgIsWritable(u: Library, args: seq<Expr>, k: nat)
    requires AllPrintable(u, args) && AllNumeric(u, args) && k < |args|
    ensures Printable(u, args[k]) && Numeric(u, args[k]) && Height(args[k]) <= MaxHeight(args)
    decreases k
  {
    if k > 0 {
      ArgIsWritable(u, args[1..], k - 1);
    }
  }

  lemma {:induction false} MeaningOfAll(env: Env, args: seq<Expr>, vs: seq<Value>)
    requires |vs| <= |args| && forall i :: 0 <= i < |vs| ==> Meaning(env, args[i]) == Ok(vs[i])
    ensures |vs| == |args| ==> MeaningAll(env, args) == Ok(vs)
    ensures |vs| < |args| && Meaning(env, args[|vs|]).Err? ==>
              MeaningAll(env, args) == Err(Meaning(env, args[|vs|]).error)
    decreases args
  {
    if vs != [] {
      forall i | 0 <= i < |vs[1..]| ensures Meaning(env, args[1..][i]) == Ok(vs[1..][i]) {
        assert Meaning(env, args[i + 1]) == Ok(vs[i + 1]);
      }
      MeaningOfAll(env, args[1..], vs[1..]);
      assert [vs[0]] + vs[1..] == vs;
    }
  }

  /** Its arguments' printed texts evaluate to `vs`, as far as that list goes. */
  ghost predicate EvaluateTo(u: Library, l: Look, env: Env, args: seq<Expr>, vs: seq<Value>) {
    |vs| <= |args| && forall i :: 0 <= i < |vs| ==> Denotation(u, env, Source(l, args[i])) == Ok(vs[i])
  }

  lemma MeaningsBehind(u: Library, l: Look, env: Env, name: string, args: seq<Expr>, vs: seq<Value>)
    requires u.Valid() && Fits(u, l) && Writable(u, FuncCall(name, args)) && EvaluateTo(u, l, env, args, vs)
    ensures forall i :: 0 <= i < |vs| ==> Meaning(env, args[i]) == Ok(vs[i])
    ensures |vs| < |args| ==>
              Denotation(u, env, Source(l, args[|vs|])) ==
              match Meaning(env, args[|vs|]) case Ok(v) => Ok(v) case Err(x) => Err(Evaluation(x))
  {
    hide Denotation;
    forall i | 0 <= i < |vs| ensures Meaning(env, args[i]) == Ok(vs[i]) {
      ArgIsWritable(u, args, i);
      PrintEvaluates(u, l, env, args[i]);
      assert Denotation(u, env, Source(l, args[i])) == Ok(vs[i]);
    }
    if |vs| < |args| {
      ArgIsWritable(u, args, |vs|);
      PrintEvaluates(u, l, env, args[|vs|]);
    }
  }

  /** A call is the registered function applied to exactly the values of its arguments, in their order. */
  lemma CallsApply(u: Library, l: Look, env: Env, name: string, args: seq<Expr>, vs: seq<Value>)
    requires u.Valid() && Fits(u, l) && Writable(u, FuncCall(name, args)) && name in env.registry
    requires EvaluateTo(u, l, env, args, vs) && |vs| == |args|
    ensures Denotation(u, env, Source(l, FuncCall(name, args))) ==
            match env.registry[name](vs)
            case Ok(v) => Ok(v)
            case Err(message) => Err(Evaluation(FunctionFailed(message)))
  {
    hide Denotation;
    hide MeaningAll;
    PrintEvaluates(u, l, env, FuncCall(name, args));
    MeaningsBehind(u, l, env, name, args, vs);
    MeaningOfAll(env, args, vs);
  }

  /** An unknown function is an error before any argument is looked at; otherwise the first argument that fails is. */
  lemma CallsFail(u: Library, l: Look, env: Env, name: string, args: seq<Expr>, vs: seq<Value>, why: ExprError)
    requires u.Valid() && Fits(u, l) && Writable(u, FuncCall(name, args))
    requires EvaluateTo(u, l, env, args, vs) && |vs| < |args| && Denotation(u, env, Source(l, args[|vs|])) == Err(why)
    ensures Denotation(u, env, Source(l, FuncCall(name, args))) ==
            Err(if name in env.registry then why else Evaluation(UnknownFunction(name)))
  {
    hide Denotation;
    hide MeaningAll;
    PrintEvaluates(u, l, env, FuncCall(name, args));
    MeaningsBehind(u, l, env, name, args, vs);
    MeaningOfAll(env, args, vs);
  }

  lemma UnknownCallsFail(u: Library, l: Look, env: Env, name: string, args: seq<Expr>)
    requires u.Valid() && Fits(u, l) && Writable(u, FuncCall(name, args)) && name !in env.registry
    ensures Denotation(u, env, Source(l, FuncCall(name, args))) == Err(Evaluation(UnknownFunction(name)))
  {
    hide Denotation;
    PrintEvaluates(u, l, env, FuncCall(name, args));
  }
}
