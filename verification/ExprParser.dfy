/** The recursive-descent parser of `${fn:...}` expressions (core/expression/parser.go, core/expression/ast.go). */
module ExprParser {
  import opened Wrappers
  import opened Sequences
  import opened ExprNumbers
  import opened ExprLexer

  const MAX_DEPTH := 256

  /** A NumberLit keeps its spelling: float64 is not part of this model. */
  datatype Expr =
    | FuncCall(name: string, args: seq<Expr>)
    | StringLit(text: string)
    | NumberLit(spelling: string, isInt: bool)
    | BoolLit(truth: bool)
    | VarRef(path: string)

  datatype ParseError =
    | EmptyExpression
    | TooDeep
    | UnexpectedEnd
    | UnexpectedToken(tok: Token)
    | BadNumber(spelling: string)
    | ExpectedClose(name: string)
    | ExpectedCommaOrClose(name: string, tok: Token)
    | TrailingToken(tok: Token)

  type Parsed<T> = Result<T, ParseError>

  // ---- Numbers ----------------------------------------------------------

  function ParseNumber(u: Library, s: string): (r: Parsed<Expr>)
    ensures r.Ok? ==> r.value == NumberLit(s, '.' !in s)
    ensures r.Err? ==> r.error == BadNumber(s)
  {
    if '.' in s then
      if u.parsesFloat(s) then Ok(NumberLit(s, false)) else Err(BadNumber(s))
    else if IsInteger(s) && FitsInt64(s) then Ok(NumberLit(s, true))
    else Err(BadNumber(s))
  }

  predicate InRange(s: string) {
    if '.' in s then FitsFloat64(s) else FitsInt64(s)
  }

  /** What the lexer can read is accepted exactly when it is in range. Without a point only integers are
      accepted, and nothing with two points. */
  lemma NumbersAreExact(u: Library, s: string)
    requires u.ParsesDecimals()
    ensures IsNumberText(s) ==> (ParseNumber(u, s).Ok? <==> InRange(s))
    ensures '.' !in s ==> (ParseNumber(u, s).Ok? <==> IsInteger(s) && InRange(s))
    ensures HasTwoPoints(s) ==> ParseNumber(u, s) == Err(BadNumber(s))
  {
    hide FitsInt64;
    hide FitsFloat64;
    if IsNumberText(s) {
      if AllDigits(Unsigned(s)) {
        DigitsHaveNoPoint(s);
      } else {
        var k: nat :| IsFraction(Unsigned(s), k);
        FractionHasPoint(s, k);
      }
    }
    if HasTwoPoints(s) {
      assert !u.parsesFloat(s);
    }
  }

  // ---- Specification: parsing `ts` from position `i` ---------------------

  /** One expression, met at nesting level `depth`, and the position after it. */
  function ExprAt(u: Library, ts: seq<Token>, i: nat, depth: nat): (r: Parsed<(Expr, nat)>)
    requires i <= |ts|
    ensures r.Ok? ==> i < r.value.1 <= |ts|
    decreases |ts| - i, 2
  {
    if depth + 1 > MAX_DEPTH then Err(TooDeep)
    else if i == |ts| then Err(UnexpectedEnd)
    else
      match ts[i]
      case Str(v) => Ok((StringLit(v), i + 1))
      case Num(v) =>
        var e :- ParseNumber(u, v);
        Ok((e, i + 1))
      case Bool(b) => Ok((BoolLit(b), i + 1))
      case Ident(name) =>
        if i + 1 < |ts| && ts[i + 1].LParen? then CallAt(u, name, ts, i + 2, depth + 1)
        else Ok((VarRef(name), i + 1))
      case _ => Err(UnexpectedToken(ts[i]))
  }

  /** A call whose '(' was consumed. */
  function CallAt(u: Library, name: string, ts: seq<Token>, i: nat, depth: nat): (r: Parsed<(Expr, nat)>)
    requires i <= |ts|
    ensures r.Ok? ==> i < r.value.1 <= |ts|
    decreases |ts| - i, 3
  {
    if i < |ts| && ts[i].RParen? then Ok((FuncCall(name, []), i + 1))
    else
      var (first, j) :- ExprAt(u, ts, i, depth);
      var (more, k) :- MoreAt(u, name, ts, j, depth);
      Ok((FuncCall(name, [first] + more), k))
  }

  /** The rest of an argument list, through its ')'. */
  function MoreAt(u: Library, name: string, ts: seq<Token>, i: nat, depth: nat): (r: Parsed<(seq<Expr>, nat)>)
    requires i <= |ts|
    ensures r.Ok? ==> i < r.value.1 <= |ts|
    decreases |ts| - i, 1
  {
    if i == |ts| then Err(ExpectedClose(name))
    else if ts[i].RParen? then Ok(([], i + 1))
    else if !ts[i].Comma? then Err(ExpectedCommaOrClose(name, ts[i]))
    else
      var (arg, j) :- ExprAt(u, ts, i + 1, depth);
      Carry([arg], MoreAt(u, name, ts, j, depth))
  }

  function Parse(u: Library, ts: seq<Token>): Parsed<Expr> {
    if ts == [] then Err(EmptyExpression)
    else
      var (e, j) :- ExprAt(u, ts, 0, 0);
      if j < |ts| then Err(TrailingToken(ts[j])) else Ok(e)
  }

  // ---- The grammar, read off the tree -----------------------------------

  function Flatten(e: Expr): seq<Token>
    decreases e, 1
  {
    match e
    case StringLit(v) => [Str(v)]
    case NumberLit(v, _) => [Num(v)]
    case BoolLit(b) => [Bool(b)]
    case VarRef(path) => [Ident(path)]
    case FuncCall(name, args) =>
      [Ident(name), LParen] + FlattenArgs(args)
  }

  function FlattenArgs(args: seq<Expr>): seq<Token>
    decreases args, 2
  {
    if args == [] then [RParen] else Flatten(args[0]) + FlattenMore(args[1..])
  }

  function FlattenMore(args: seq<Expr>): seq<Token>
    decreases args, 0
  {
    if args == [] then [RParen] else [Comma] + (Flatten(args[0]) + FlattenMore(args[1..]))
  }

  function Height(e: Expr): nat
    decreases e, 1
  {
    match e
    case FuncCall(_, args) => 1 + MaxHeight(args)
    case _ => 1
  }

  function MaxHeight(args: seq<Expr>): nat
    decreases args, 0
  {
    if args == [] then 0
    else
      var h, t := Height(args[0]), MaxHeight(args[1..]);
      if h > t then h else t
  }

  /** Every number in the tree is one the number parser accepts, with the flag it sets. */
  predicate Numeric(u: Library, e: Expr)
    decreases e, 1
  {
    match e
    case NumberLit(v, isInt) => ParseNumber(u, v) == Ok(e)
    case FuncCall(_, args) => AllNumeric(u, args)
    case _ => true
  }

  predicate AllNumeric(u: Library, args: seq<Expr>)
    decreases args, 0
  {
    args != [] ==> Numeric(u, args[0]) && AllNumeric(u, args[1..])
  }

  // ---- Soundness: whatever is accepted is the flattening of its tree ----

  lemma {:induction false} ExprSound(u: Library, ts: seq<Token>, i: nat, depth: nat)
    requires i <= |ts| && ExprAt(u, ts, i, depth).Ok?
    ensures var (e, j) := ExprAt(u, ts, i, depth).value;
            ts[i..j] == Flatten(e) && depth + Height(e) <= MAX_DEPTH && Numeric(u, e)
    decreases |ts| - i, 2
  {
    if ts[i].Ident? && i + 1 < |ts| && ts[i + 1].LParen? {
      CallSound(u, ts[i].name, ts, i + 2, depth + 1);
      var (e, j) := ExprAt(u, ts, i, depth).value;
      assert ts[i..j] == [ts[i], ts[i + 1]] + ts[i + 2..j];
    }
  }

  lemma {:induction false} CallSound(u: Library, name: string, ts: seq<Token>, i: nat, depth: nat)
    requires i <= |ts| && depth <= MAX_DEPTH && CallAt(u, name, ts, i, depth).Ok?
    ensures var (e, j) := CallAt(u, name, ts, i, depth).value;
            && e.FuncCall?
            && [Ident(name), LParen] + ts[i..j] == Flatten(e)
            && depth - 1 + Height(e) <= MAX_DEPTH && Numeric(u, e)
    decreases |ts| - i, 3
  {
    hide ExprAt;
    hide MoreAt;
    if !(i < |ts| && ts[i].RParen?) {
      var (first, j) := ExprAt(u, ts, i, depth).value;
      var (more, k) := MoreAt(u, name, ts, j, depth).value;
      ExprSound(u, ts, i, depth);
      MoreSound(u, name, ts, j, depth);
      assert ts[i..k] == ts[i..j] + ts[j..k];
      assert ([first] + more)[1..] == more;
    }
  }

  lemma {:induction false} MoreSound(u: Library, name: string, ts: seq<Token>, i: nat, depth: nat)
    requires i <= |ts| && depth <= MAX_DEPTH && MoreAt(u, name, ts, i, depth).Ok?
    ensures var (args, j) := MoreAt(u, name, ts, i, depth).value;
            ts[i..j] == FlattenMore(args) && depth + MaxHeight(args) <= MAX_DEPTH && AllNumeric(u, args)
    decreases |ts| - i, 1
  {
    hide ExprAt;
    hide Flatten;
    hide Height;
    hide Numeric;
    if ts[i].Comma? {
      var (arg, j) := ExprAt(u, ts, i + 1, depth).value;
      var (more, k) := MoreAt(u, name, ts, j, depth).value;
      ExprSound(u, ts, i + 1, depth);
      MoreSound(u, name, ts, j, depth);
      assert ts[i..k] == [Comma] + (ts[i + 1..j] + ts[j..k]);
      assert ([arg] + more)[1..] == more;
    }
  }

  // ---- Completeness, with the exact effect of the nesting limit ---------

  lemma {:induction false} ExprComplete(u: Library, ts: seq<Token>, i: nat, depth: nat, e: Expr)
    requires At(ts, i, Flatten(e)) && Numeric(u, e)
    requires e.VarRef? && i + 1 < |ts| ==> !ts[i + 1].LParen?
    ensures ExprAt(u, ts, i, depth) ==
            if depth + Height(e) <= MAX_DEPTH then Ok((e, i + |Flatten(e)|)) else Err(TooDeep)
    decreases e, 1
  {
    hide At;
    AtIndex(ts, i, Flatten(e), 0);
    if e.FuncCall? && depth < MAX_DEPTH {
      AtIndex(ts, i, Flatten(e), 1);
      AtSplit(ts, i, [Ident(e.name), LParen], FlattenArgs(e.args));
      CallComplete(u, e.name, ts, i + 2, depth + 1, e.args);
    }
  }

  lemma {:induction false} CallComplete(u: Library, name: string, ts: seq<Token>, i: nat, depth: nat, args: seq<Expr>)
    requires At(ts, i, FlattenArgs(args)) && AllNumeric(u, args)
    ensures CallAt(u, name, ts, i, depth) ==
            if args == [] || depth + MaxHeight(args) <= MAX_DEPTH
            then Ok((FuncCall(name, args), i + |FlattenArgs(args)|)) else Err(TooDeep)
    decreases args, 2
  {
    hide At;
    hide ExprAt;
    hide MoreAt;
    AtIndex(ts, i, FlattenArgs(args), 0);
    if args != [] {
      var a, m := Flatten(args[0]), FlattenMore(args[1..]);
      AtSplit(ts, i, a, m);
      AtIndex(ts, i, a, 0);
      AtIndex(ts, i + |a|, m, 0);
      ExprComplete(u, ts, i, depth, args[0]);
      MoreComplete(u, name, ts, i + |a|, depth, args[1..]);
      assert [args[0]] + args[1..] == args;
    }
  }

  lemma {:induction false} MoreComplete(u: Library, name: string, ts: seq<Token>, i: nat, depth: nat, args: seq<Expr>)
    requires At(ts, i, FlattenMore(args)) && AllNumeric(u, args)
    ensures MoreAt(u, name, ts, i, depth) ==
            if args == [] || depth + MaxHeight(args) <= MAX_DEPTH then Ok((args, i + |FlattenMore(args)|))
            else Err(TooDeep)
    decreases args, 0
  {
    hide At;
    hide ExprAt;
    AtIndex(ts, i, FlattenMore(args), 0);
    if args != [] {
      var a, m := Flatten(args[0]), FlattenMore(args[1..]);
      AtSplit(ts, i, [Comma], a + m);
      AtSplit(ts, i + 1, a, m);
      AtIndex(ts, i + 1 + |a|, m, 0);
      ExprComplete(u, ts, i + 1, depth, args[0]);
      MoreComplete(u, name, ts, i + 1 + |a|, depth, args[1..]);
      assert [args[0]] + args[1..] == args;
    }
  }

  /** The parser accepts exactly the flattenings of trees of height at most 256, and returns the tree. */
  lemma ParseIffFlatten(u: Library, ts: seq<Token>, e: Expr)
    ensures Parse(u, ts) == Ok(e) <==> ts == Flatten(e) && Height(e) <= MAX_DEPTH && Numeric(u, e)
  {
    if Parse(u, ts) == Ok(e) {
      ExprSound(u, ts, 0, 0);
      assert ts[0..|ts|] == ts;
    }
    if ts == Flatten(e) && Numeric(u, e) {
      AtWhole(ts);
      ExprComplete(u, ts, 0, 0, e);
    }
  }

  /** Above height 256 the answer is the nesting error and no other. */
  lemma ParseTooDeep(u: Library, e: Expr)
    requires Numeric(u, e)
    ensures Parse(u, Flatten(e)) == Err(TooDeep) <==> Height(e) > MAX_DEPTH
  {
    AtWhole(Flatten(e));
    ExprComplete(u, Flatten(e), 0, 0, e);
  }

  // ---- The parser object ------------------------------------------------

  class Parser {
    const u: Library
    const tokens: seq<Token>
    var pos: nat
    var depth: nat

    constructor (u: Library, tokens: seq<Token>)
      ensures this.u == u && this.tokens == tokens && pos == 0 && depth == 0
    {
      this.u, this.tokens := u, tokens;
      pos, depth := 0, 0;
    }

    method ParseExpr() returns (r: Parsed<Expr>)
      requires pos <= |tokens|
      modifies this
      ensures pos <= |tokens| && depth == old(depth)
      ensures match ExprAt(u, tokens, old(pos), old(depth))
              case Ok((e, j)) => r == Ok(e) && pos == j
              case Err(e) => r == Err(e)
      decreases |tokens| - pos, 2
    {
      depth := depth + 1;
      if depth > MAX_DEPTH {
        r := Err(TooDeep);
      } else if pos == |tokens| {
        r := Err(UnexpectedEnd);
      } else {
        var tok := tokens[pos];
        match tok
        case Str(v) =>
          pos := pos + 1;
          r := Ok(StringLit(v));
        case Num(v) =>
          pos := pos + 1;
          r := ParseNumber(u, v);
        case Bool(b) =>
          pos := pos + 1;
          r := Ok(BoolLit(b));
        case Ident(_) =>
          r := ParseIdentOrCall();
        case _ =>
          r := Err(UnexpectedToken(tok));
      }
      depth := depth - 1;
    }

    method ParseIdentOrCall() returns (r: Parsed<Expr>)
      requires pos < |tokens| && tokens[pos].Ident? && 0 < depth <= MAX_DEPTH
      modifies this
      ensures pos <= |tokens| && depth == old(depth)
      ensures match ExprAt(u, tokens, old(pos), old(depth) - 1)
              case Ok((e, j)) => r == Ok(e) && pos == j
              case Err(e) => r == Err(e)
      decreases |tokens| - pos, 1
    {
      var ident := tokens[pos];
      pos := pos + 1;
      if pos < |tokens| && tokens[pos].LParen? {
        r := ParseFuncCall(ident.name);
      } else {
        r := Ok(VarRef(ident.name));
      }
    }

    method ParseFuncCall(name: string) returns (r: Parsed<Expr>)
      requires pos < |tokens| && tokens[pos].LParen?
      modifies this
      ensures pos <= |tokens| && depth == old(depth)
      ensures match CallAt(u, name, tokens, old(pos) + 1, old(depth))
              case Ok((e, j)) => r == Ok(e) && pos == j
              case Err(e) => r == Err(e)
      decreases |tokens| - pos, 0
    {
      hide ExprAt;
      pos := pos + 1;
      if pos < |tokens| && tokens[pos].RParen? {
        pos := pos + 1;
        return Ok(FuncCall(name, []));
      }
      var arg :- ParseExpr();
      var args := [arg];
      ghost var tail := MoreAt(u, name, tokens, pos, depth);
      ghost var rest := [];
      assert tail.Ok? ==> [] + tail.value.0 == tail.value.0;
      while true
        invariant old(pos) < pos <= |tokens| && depth == old(depth)
        invariant args == [arg] + rest
        invariant tail.Ok? ==> Carry(rest, MoreAt(u, name, tokens, pos, depth)) == tail
        invariant tail.Err? ==> MoreAt(u, name, tokens, pos, depth) == tail
        decreases |tokens| - pos
      {
        if pos == |tokens| {
          return Err(ExpectedClose(name));
        }
        var tok := tokens[pos];
        if tok.RParen? {
          pos := pos + 1;
          assert rest + [] == rest;
          return Ok(FuncCall(name, args));
        }
        if !tok.Comma? {
          return Err(ExpectedCommaOrClose(name, tok));
        }
        pos := pos + 1;
        var next :- ParseExpr();
        ghost var more := MoreAt(u, name, tokens, pos, depth);
        assert more.Ok? ==> rest + ([next] + more.value.0) == (rest + [next]) + more.value.0;
        assert [arg] + (rest + [next]) == ([arg] + rest) + [next];
        args, rest := args + [next], rest + [next];
      }
    }
  }

  /** The exported entry point. */
  method ParseTokens(u: Library, tokens: seq<Token>) returns (r: Parsed<Expr>)
    ensures r == Parse(u, tokens)
  {
    if |tokens| == 0 {
      return Err(EmptyExpression);
    }
    var p := new Parser(u, tokens);
    var e :- p.ParseExpr();
    if p.pos < |p.tokens| {
      return Err(TrailingToken(p.tokens[p.pos]));
    }
    return Ok(e);
  }
}
