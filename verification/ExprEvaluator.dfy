/** The depth-limited evaluator of `${fn:...}` expressions (core/expression/evaluator.go).

    First the plain meaning of a tree, then what the evaluator computes from a given depth, that the two agree on
    whatever the parser returns, and then the evaluator object. */
module ExprEvaluator {
  import opened Wrappers
  import opened ExprLexer
  import opened ExprParser

  /** Dynamic values. Numbers keep their spelling, as in the tree. */
  datatype Value =
    | StringVal(text: string)
    | NumberVal(spelling: string, isInt: bool)
    | BoolVal(truth: bool)
    | MapVal(entries: map<string, Value>)
    | ListVal(items: seq<Value>)
    | NilVal

  type Func = seq<Value> -> Result<Value, string>

  /** The function registry and the variable resolver, both arbitrary. */
  datatype Env = Env(registry: map<string, Func>, resolve: string -> Option<Value>)

  datatype EvalError =
    | DepthExceeded
    | UnresolvedVariable(path: string)
    | UnknownFunction(name: string)
    | FunctionFailed(message: string)

  datatype ExprError = Lexical(lex: LexError) | Syntax(parse: ParseError) | Evaluation(eval: EvalError)

  type Evaluated<T> = Result<T, EvalError>

  function Variable(env: Env, path: string): Evaluated<Value> {
    match env.resolve(path)
    case Some(v) => Ok(v)
    case None => if '.' in path then Err(UnresolvedVariable(path)) else Ok(StringVal(path))
  }

  function Apply(env: Env, name: string, args: seq<Value>): Evaluated<Value>
    requires name in env.registry
  {
    match env.registry[name](args)
    case Ok(v) => Ok(v)
    case Err(message) => Err(FunctionFailed(message))
  }

  // ---- The plain meaning: left to right, no depth anywhere --------------

  function Meaning(env: Env, e: Expr): Evaluated<Value>
    decreases e, 1
  {
    match e
    case StringLit(v) => Ok(StringVal(v))
    case NumberLit(v, isInt) => Ok(NumberVal(v, isInt))
    case BoolLit(b) => Ok(BoolVal(b))
    case VarRef(path) => Variable(env, path)
    case FuncCall(name, args) =>
      if name !in env.registry then Err(UnknownFunction(name))
      else
        var vs :- MeaningAll(env, args);
        Apply(env, name, vs)
  }

  function MeaningAll(env: Env, args: seq<Expr>): Evaluated<seq<Value>>
    decreases args, 0
  {
    if args == [] then Ok([])
    else
      var v :- Meaning(env, args[0]);
      var vs :- MeaningAll(env, args[1..]);
      Ok([v] + vs)
  }

  // ---- What Eval computes when entered at a given depth -----------------

  function EvalAt(env: Env, e: Expr, depth: nat): Evaluated<Value>
    decreases e, 1
  {
    if depth + 1 > MAX_DEPTH then Err(DepthExceeded)
    else
      match e
      case StringLit(v) => Ok(StringVal(v))
      case NumberLit(v, isInt) => Ok(NumberVal(v, isInt))
      case BoolLit(b) => Ok(BoolVal(b))
      case VarRef(path) => Variable(env, path)
      case FuncCall(name, args) =>
        if name !in env.registry then Err(UnknownFunction(name))
        else
          var vs :- EvalAllAt(env, args, depth + 1);
          Apply(env, name, vs)
  }

  function EvalAllAt(env: Env, args: seq<Expr>, depth: nat): Evaluated<seq<Value>>
    decreases args, 0
  {
    if args == [] then Ok([])
    else
      var v :- EvalAt(env, args[0], depth);
      Cons(v, EvalAllAt(env, args[1..], depth))
  }

  function Cons(v: Value, r: Evaluated<seq<Value>>): Evaluated<seq<Value>> {
    if r.Ok? then Ok([v] + r.value) else r
  }

  /** Within the limit the depth counter changes nothing: same value, same first error. */
  lemma {:induction false} EvalIsMeaning(env: Env, e: Expr, depth: nat)
    requires depth + Height(e) <= MAX_DEPTH
    ensures EvalAt(env, e, depth) == Meaning(env, e)
    decreases e, 1
  {
    if e.FuncCall? {
      EvalAllIsMeaning(env, e.args, depth + 1);
    }
  }

  lemma {:induction false} EvalAllIsMeaning(env: Env, args: seq<Expr>, depth: nat)
    requires depth + MaxHeight(args) <= MAX_DEPTH
    ensures EvalAllAt(env, args, depth) == MeaningAll(env, args)
    decreases args, 0
  {
    if args != [] {
      EvalIsMeaning(env, args[0], depth);
      EvalAllIsMeaning(env, args[1..], depth);
    }
  }

  /** The plain meaning never mentions the limit. */
  lemma {:induction false} MeaningHasNoDepth(env: Env, e: Expr)
    ensures Meaning(env, e) != Err(DepthExceeded)
    decreases e, 1
  {
    if e.FuncCall? {
      MeaningAllHasNoDepth(env, e.args);
    }
  }

  lemma {:induction false} MeaningAllHasNoDepth(env: Env, args: seq<Expr>)
    ensures MeaningAll(env, args) != Err(DepthExceeded)
    decreases args, 0
  {
    if args != [] {
      MeaningHasNoDepth(env, args[0]);
      MeaningAllHasNoDepth(env, args[1..]);
    }
  }

  /** The two limits line up: no tree the parser returns can reach the evaluator's. */
  lemma ParsedNeverExceedsDepth(u: Library, env: Env, ts: seq<Token>)
    requires Parse(u, ts).Ok?
    ensures EvalAt(env, Parse(u, ts).value, 0) == Meaning(env, Parse(u, ts).value)
    ensures EvalAt(env, Parse(u, ts).value, 0) != Err(DepthExceeded)
  {
    var e := Parse(u, ts).value;
    ParseIffFlatten(u, ts, e);
    EvalIsMeaning(env, e, 0);
    MeaningHasNoDepth(env, e);
  }

  // ---- The evaluator object ---------------------------------------------

  class Evaluator {
    const env: Env
    var depth: nat

    constructor (env: Env)
      ensures this.env == env && depth == 0
    {
      this.env := env;
      depth := 0;
    }

    method Eval(e: Expr) returns (r: Evaluated<Value>)
      modifies this
      ensures depth == old(depth)
      ensures r == EvalAt(env, e, old(depth))
      decreases e
    {
      depth := depth + 1;
      if depth > MAX_DEPTH {
        depth := depth - 1;
        return Err(DepthExceeded);
      }
      match e {
        case StringLit(v) => r := Ok(StringVal(v));
        case NumberLit(v, isInt) => r := Ok(NumberVal(v, isInt));
        case BoolLit(b) => r := Ok(BoolVal(b));
        case VarRef(path) => r := Variable(env, path);
        case FuncCall(name, args) => r := EvalCall(e, name, args);
      }
      depth := depth - 1;
    }

    /** The FuncCall case of Eval. */
    method EvalCall(ghost e: Expr, name: string, exprs: seq<Expr>) returns (r: Evaluated<Value>)
      requires e == FuncCall(name, exprs)
      modifies this
      ensures depth == old(depth)
      ensures r == if name !in env.registry then Err(UnknownFunction(name))
                   else match EvalAllAt(env, exprs, old(depth))
                        case Ok(vs) => Apply(env, name, vs)
                        case Err(error) => Err(error)
      decreases e, 0
    {
      if name !in env.registry {
        return Err(UnknownFunction(name));
      }
      var args := [];
      ghost var whole := EvalAllAt(env, exprs, depth);
      assert exprs[0..] == exprs;
      assert whole.Ok? ==> [] + whole.value == whole.value;
      for i := 0 to |exprs|
        invariant depth == old(depth)
        invariant var rest := EvalAllAt(env, exprs[i..], depth);
                  whole == if rest.Ok? then Ok(args + rest.value) else rest
      {
        var v :- Eval(exprs[i]);
        assert exprs[i..][1..] == exprs[i + 1..];
        ghost var rest := EvalAllAt(env, exprs[i + 1..], depth);
        assert rest.Ok? ==> args + ([v] + rest.value) == (args + [v]) + rest.value;
        args := args + [v];
      }
      assert args + [] == args;
      r := Apply(env, name, args);
    }
  }

  /** Lexing, parsing and the plain meaning, composed. */
  function Denotation(u: Library, env: Env, input: string): Result<Value, ExprError> {
    match Tokens(u, input)
    case Err(e) => Err(Lexical(e))
    case Ok(ts) =>
      match Parse(u, ts)
      case Err(e) => Err(Syntax(e))
      case Ok(e) =>
        match Meaning(env, e)
        case Err(x) => Err(Evaluation(x))
        case Ok(v) => Ok(v)
  }

  /** EvalString equals the composition that has no evaluation depth in it. */
  method EvalString(u: Library, env: Env, input: string) returns (r: Result<Value, ExprError>)
    ensures r == Denotation(u, env, input)
  {
    var lexer := new Lexer(u, input);
    var lexed := lexer.Tokenize();
    if lexed.Err? {
      return Err(Lexical(lexed.error));
    }
    var parsed := ParseTokens(u, lexed.value);
    if parsed.Err? {
      return Err(Syntax(parsed.error));
    }
    ParsedNeverExceedsDepth(u, env, lexed.value);
    var evaluator := new Evaluator(env);
    var result := evaluator.Eval(parsed.value);
    if result.Err? {
      return Err(Evaluation(result.error));
    }
    return Ok(result.value);
  }
}
