/** Template interpolation (core/fixture/fixture.go).

    Functions of the store's contents come first: references, the brace finder, and interpolation of texts and of trees.
    Then comes the store object, whose methods compute them. */
module Fixture {
  import opened Wrappers
  import opened ExprLexer
  import opened ExprParser
  import opened ExprEvaluator

  /** What a Store holds, with the process environment and the `%v` formatter as parameters. */
  datatype Context = Context(
    u: Library,
    fixtures: map<string, Value>,
    captures: map<string, Value>,
    osEnv: map<string, string>,
    registry: Option<map<string, Func>>,
    show: Value -> string)

  datatype ExprFailure = NoRegistry | Failed(error: ExprError)
  datatype InterpError = Unresolved(ref: string) | BadExpression(text: string, why: ExprFailure)

  type Interp = Result<string, InterpError>

  // ---- References -------------------------------------------------------

  /** strings.Index of one character, from position `i`. */
  function IndexFrom(s: string, c: char, i: nat): (r: Option<nat>)
    requires i <= |s|
    ensures r.Some? ==> i <= r.value < |s| && s[r.value] == c
    ensures r.Some? ==> forall k :: i <= k < r.value ==> s[k] != c
    ensures r.None? ==> forall k :: i <= k < |s| ==> s[k] != c
    decreases |s| - i
  {
    if i == |s| then None else if s[i] == c then Some(i) else IndexFrom(s, c, i + 1)
  }

  /** strings.Split(s, "."). */
  function SplitDots(s: string): seq<string>
    decreases |s|
  {
    match IndexFrom(s, '.', 0)
    case None => [s]
    case Some(k) => [s[..k]] + SplitDots(s[k + 1..])
  }

  function Navigate(v: Value, parts: seq<string>): Option<Value>
    decreases parts
  {
    if parts == [] then Some(v)
    else if v.MapVal? && parts[0] in v.entries then Navigate(v.entries[parts[0]], parts[1..])
    else None
  }

  function ResolveRef(ctx: Context, ref: string): Option<Value> {
    match IndexFrom(ref, '.', 0)
    case None => None
    case Some(k) =>
      var prefix, rest := ref[..k], ref[k + 1..];
      if prefix == "fixture" then Navigate(MapVal(ctx.fixtures), SplitDots(rest))
      else if prefix == "capture" then Navigate(MapVal(ctx.captures), SplitDots(rest))
      else if prefix == "env" && rest in ctx.osEnv then Some(StringVal(ctx.osEnv[rest]))
      else None
  }

  // ---- The brace finder -------------------------------------------------

  /** Where the scan of a `${fn:` body ends, from position `j` in the given state. */
  function EndFrom(s: string, j: nat, depth: int, inSingle: bool, inDouble: bool): (r: Option<nat>)
    requires j <= |s|
    ensures r.Some? ==> j <= r.value < |s| && s[r.value] == '}'
    decreases |s| - j
  {
    if j == |s| then None
    else if (inSingle || inDouble) && s[j] == '\\' && j + 1 < |s| then EndFrom(s, j + 2, depth, inSingle, inDouble)
    else if s[j] == '\'' && !inDouble then EndFrom(s, j + 1, depth, !inSingle, inDouble)
    else if s[j] == '"' && !inSingle then EndFrom(s, j + 1, depth, inSingle, !inDouble)
    else if inSingle || inDouble then EndFrom(s, j + 1, depth, inSingle, inDouble)
    else if s[j] == '(' then EndFrom(s, j + 1, depth + 1, inSingle, inDouble)
    else if s[j] == ')' then EndFrom(s, j + 1, depth - 1, inSingle, inDouble)
    else if s[j] == '}' && depth == 0 then Some(j)
    else EndFrom(s, j + 1, depth, inSingle, inDouble)
  }

  method FindExpressionEnd(input: string, start: nat) returns (end: int)
    requires start <= |input|
    ensures match EndFrom(input, start, 0, false, false)
            case None => end == -1
            case Some(j) => end == j
  {
    var depth := 0;
    var inSingle, inDouble := false, false;
    var j := start;
    while j < |input|
      invariant start <= j <= |input| && !(inSingle && inDouble)
      invariant EndFrom(input, start, 0, false, false) == EndFrom(input, j, depth, inSingle, inDouble)
      decreases |input| - j
    {
      var ch := input[j];
      if (inSingle || inDouble) && ch == '\\' && j + 1 < |input| {
        j := j + 2;
        continue;
      }
      if ch == '\'' && !inDouble {
        inSingle := !inSingle;
        j := j + 1;
        continue;
      }
      if ch == '"' && !inSingle {
        inDouble := !inDouble;
        j := j + 1;
        continue;
      }
      if inSingle || inDouble {
        j := j + 1;
        continue;
      }
      if ch == '(' {
        depth := depth + 1;
      } else if ch == ')' {
        depth := depth - 1;
      } else if ch == '}' && depth == 0 {
        return j;
      }
      j := j + 1;
    }
    return -1;
  }

  // ---- Specification of Interpolate -------------------------------------

  function EnvOf(ctx: Context, registry: map<string, Func>): Env {
    Env(registry, path => ResolveRef(ctx, path))
  }

  function RefValue(ctx: Context, ref: string): Interp {
    match ResolveRef(ctx, ref)
    case None => Err(Unresolved(ref))
    case Some(v) => Ok(ctx.show(v))
  }

  function FnValue(ctx: Context, text: string): Interp {
    match ctx.registry
    case None => Err(BadExpression(text, NoRegistry))
    case Some(registry) =>
      match Denotation(ctx.u, EnvOf(ctx, registry), text)
      case Err(e) => Err(BadExpression(text, Failed(e)))
      case Ok(v) => Ok(ctx.show(v))
  }

  predicate IsFnAt(s: string, i: nat) {
    i + 4 < |s| && s[i + 2] == 'f' && s[i + 3] == 'n' && s[i + 4] == ':'
  }

  function InterpolateAt(ctx: Context, s: string, i: nat): Interp
    requires i <= |s|
    decreases |s| - i
  {
    if i == |s| then Ok("")
    else if i + 1 < |s| && s[i] == '\\' && s[i + 1] == '$' then Prepend("$", InterpolateAt(ctx, s, i + 2))
    else if i + 1 < |s| && s[i] == '$' && s[i + 1] == '{' then
      match if IsFnAt(s, i) then EndFrom(s, i + 2, 0, false, false) else IndexFrom(s, '}', i)
      case None => Prepend([s[i]], InterpolateAt(ctx, s, i + 1))
      case Some(end) =>
        var v :- if IsFnAt(s, i) then FnValue(ctx, s[i + 5..end]) else RefValue(ctx, s[i + 2..end]);
        Prepend(v, InterpolateAt(ctx, s, end + 1))
    else Prepend([s[i]], InterpolateAt(ctx, s, i + 1))
  }

  function Interpolation(ctx: Context, s: string): Interp {
    InterpolateAt(ctx, s, 0)
  }

  // ---- Trees of values --------------------------------------------------

  /** Every string in the tree can be interpolated. */
  ghost predicate AllRender(ctx: Context, v: Value) {
    match v
    case StringVal(t) => Interpolation(ctx, t).Ok?
    case MapVal(m) => forall k :: k in m ==> AllRender(ctx, m[k])
    case ListVal(xs) => forall i :: 0 <= i < |xs| ==> AllRender(ctx, xs[i])
    case _ => true
  }

  /** `w` has the shape of `v`, with every string interpolated and everything else as it was. */
  ghost predicate RendersTo(ctx: Context, v: Value, w: Value)
    decreases v
  {
    match v
    case StringVal(t) => w.StringVal? && Interpolation(ctx, t) == Ok(w.text)
    case MapVal(m) =>
      w.MapVal? && w.entries.Keys == m.Keys && forall k :: k in m ==> RendersTo(ctx, m[k], w.entries[k])
    case ListVal(xs) =>
      w.ListVal? && |w.items| == |xs| && forall i :: 0 <= i < |xs| ==> RendersTo(ctx, xs[i], w.items[i])
    case _ => w == v
  }

  /** An error the traversal can report: the first of a list, and of any entry of a map, for a map has no order. */
  ghost predicate MayFail(ctx: Context, v: Value, e: InterpError)
    decreases v
  {
    match v
    case StringVal(t) => Interpolation(ctx, t) == Err(e)
    case MapVal(m) => exists k :: k in m && MayFail(ctx, m[k], e)
    case ListVal(xs) =>
      exists i :: 0 <= i < |xs| && MayFail(ctx, xs[i], e) && forall j :: 0 <= j < i ==> AllRender(ctx, xs[j])
    case _ => false
  }

  /** Whatever the order of map entries, there is at most one rendering, and it rules out every error. */
  lemma {:induction false} RenderingIsUnique(ctx: Context, v: Value, w: Value, w': Value)
    requires RendersTo(ctx, v, w) && RendersTo(ctx, v, w')
    ensures w == w' && AllRender(ctx, v)
    decreases v
  {
    match v
    case MapVal(m) =>
      forall k | k in m ensures w.entries[k] == w'.entries[k] && AllRender(ctx, m[k]) {
        RenderingIsUnique(ctx, m[k], w.entries[k], w'.entries[k]);
      }
      assert w.entries == w'.entries;
    case ListVal(xs) =>
      forall i | 0 <= i < |xs| ensures w.items[i] == w'.items[i] && AllRender(ctx, xs[i]) {
        RenderingIsUnique(ctx, xs[i], w.items[i], w'.items[i]);
      }
      assert w.items == w'.items;
    case _ =>
  }

  /** An error can be reported only if some string does not interpolate. */
  lemma {:induction false} FailureHasCause(ctx: Context, v: Value, e: InterpError)
    requires MayFail(ctx, v, e)
    ensures !AllRender(ctx, v)
    decreases v
  {
    match v
    case MapVal(m) =>
      var k :| k in m && MayFail(ctx, m[k], e);
      FailureHasCause(ctx, m[k], e);
    case ListVal(xs) =>
      var i :| 0 <= i < |xs| && MayFail(ctx, xs[i], e);
      FailureHasCause(ctx, xs[i], e);
    case _ =>
  }

  // ---- The store object -------------------------------------------------

  class Store {
    const u: Library
    const osEnv: map<string, string>
    const show: Value -> string
    var fixtures: map<string, Value>
    var captures: map<string, Value>
    var exprRegistry: Option<map<string, Func>>

    constructor (u: Library, osEnv: map<string, string>, show: Value -> string, fixtures: map<string, Value>)
      ensures Ctx() == Context(u, fixtures, map[], osEnv, None, show)
    {
      this.u, this.osEnv, this.show := u, osEnv, show;
      this.fixtures, captures, exprRegistry := fixtures, map[], None;
    }

    function Ctx(): Context
      reads this
    {
      Context(u, fixtures, captures, osEnv, exprRegistry, show)
    }

    method SetCapture(key: string, value: Value)
      modifies this`captures
      ensures Ctx() == old(Ctx()).(captures := old(captures)[key := value])
    {
      captures := captures[key := value];
    }

    method SetExpressionRegistry(registry: map<string, Func>)
      modifies this`exprRegistry
      ensures Ctx() == old(Ctx()).(registry := Some(registry))
    {
      exprRegistry := Some(registry);
    }

    method Resolve(ref: string) returns (r: Option<Value>)
      ensures r == ResolveRef(Ctx(), ref)
    {
      var dot := IndexFrom(ref, '.', 0);
      if dot.None? {
        return None;
      }
      var prefix, rest := ref[..dot.value], ref[dot.value + 1..];
      if prefix == "fixture" {
        r := NavigatePath(fixtures, rest);
      } else if prefix == "capture" {
        r := NavigatePath(captures, rest);
      } else if prefix == "env" && rest in osEnv {
        r := Some(StringVal(osEnv[rest]));
      } else {
        r := None;
      }
    }

    method NavigatePath(data: map<string, Value>, path: string) returns (r: Option<Value>)
      ensures r == Navigate(MapVal(data), SplitDots(path))
    {
      var parts := SplitDots(path);
      var current := MapVal(data);
      assert parts[0..] == parts;
      for i := 0 to |parts|
        invariant Navigate(MapVal(data), parts) == Navigate(current, parts[i..])
      {
        assert parts[i..][1..] == parts[i + 1..];
        if !current.MapVal? || parts[i] !in current.entries {
          return None;
        }
        current := current.entries[parts[i]];
      }
      return Some(current);
    }

    method EvalExpression(text: string) returns (r: Interp)
      ensures r == FnValue(Ctx(), text)
    {
      if exprRegistry.None? {
        return Err(BadExpression(text, NoRegistry));
      }
      var v := EvalString(u, EnvOf(Ctx(), exprRegistry.value), text);
      return match v case Err(e) => Err(BadExpression(text, Failed(e))) case Ok(x) => Ok(show(x));
    }

    /** Replaces every reference, or reports the leftmost one that fails. */
    method Interpolate(input: string) returns (r: Interp)
      ensures r == Interpolation(Ctx(), input)
    {
      var result := "";
      var i := 0;
      PrependPrepend("", "", InterpolateAt(Ctx(), input, 0));
      while i < |input|
        invariant i <= |input|
        invariant Interpolation(Ctx(), input) == Prepend(result, InterpolateAt(Ctx(), input, i))
        decreases |input| - i
      {
        var next, text :- Piece(input, i);
        PrependPrepend(result, text, InterpolateAt(Ctx(), input, next));
        result, i := result + text, next;
      }
      assert result + "" == result;
      return Ok(result);
    }

    /** The strings of a map and of everything in it; `keys` is visited in any order. */
    method InterpolateMap(input: map<string, Value>) returns (r: Result<map<string, Value>, InterpError>)
      ensures r.Ok? ==> RendersTo(Ctx(), MapVal(input), MapVal(r.value))
      ensures r.Err? ==> MayFail(Ctx(), MapVal(input), r.error)
      decreases MapVal(input), 0
    {
      var result: map<string, Value> := map[];
      var keys := input.Keys;
      while keys != {}
        invariant keys <= input.Keys && result.Keys == input.Keys - keys
        invariant forall k :: k in result ==> RendersTo(Ctx(), input[k], result[k])
        decreases |keys|
      {
        var k :| k in keys;
        var resolved :- InterpolateValue(input[k]);
        result := result[k := resolved];
        keys := keys - {k};
      }
      return Ok(result);
    }

    method InterpolateValue(v: Value) returns (r: Result<Value, InterpError>)
      ensures r.Ok? ==> RendersTo(Ctx(), v, r.value)
      ensures r.Err? ==> MayFail(Ctx(), v, r.error)
      decreases v, 1
    {
      match v
      case StringVal(t) =>
        var text :- Interpolate(t);
        return Ok(StringVal(text));
      case MapVal(m) =>
        var entries :- InterpolateMap(m);
        return Ok(MapVal(entries));
      case ListVal(xs) =>
        var result: seq<Value> := [];
        for i := 0 to |xs|
          invariant |result| == i
          invariant forall j :: 0 <= j < i ==> RendersTo(Ctx(), xs[j], result[j])
          invariant forall j :: 0 <= j < i ==> AllRender(Ctx(), xs[j])
        {
          var resolved :- InterpolateValue(xs[i]);
          RenderingIsUnique(Ctx(), xs[i], resolved, resolved);
          result := result + [resolved];
        }
        return Ok(ListVal(result));
      case _ => return Ok(v);
    }

    /** One turn of the loop in Interpolate: the text it writes and where it goes on. */
    method Piece(input: string, i: nat) returns (next: Result<nat, InterpError>, text: string)
      requires i < |input|
      ensures next.Ok? ==> i < next.value <= |input|
      ensures InterpolateAt(Ctx(), input, i) ==
              if next.Ok? then Prepend(text, InterpolateAt(Ctx(), input, next.value)) else Err(next.error)
    {
      if i + 1 < |input| && input[i] == '\\' && input[i + 1] == '$' {
        return Ok(i + 2), "$";
      }
      if i + 1 < |input| && input[i] == '$' && input[i + 1] == '{' {
        if i + 4 < |input| && input[i + 2..i + 5] == "fn:" {
          assert input[i + 2..i + 5][0] == input[i + 2];
          assert input[i + 2..i + 5][1] == input[i + 3];
          assert input[i + 2..i + 5][2] == input[i + 4];
          var end := FindExpressionEnd(input, i + 2);
          if end == -1 {
            return Ok(i + 1), [input[i]];
          }
          var ref := input[i + 2..end];
          assert ref[3..] == input[i + 5..end];
          var value := EvalExpression(ref[3..]);
          if value.Err? {
            return Err(value.error), "";
          }
          return Ok(end + 1), value.value;
        }
        var end := IndexFrom(input, '}', i);
        if end.None? {
          return Ok(i + 1), [input[i]];
        }
        var ref := input[i + 2..end.value];
        var val := Resolve(ref);
        if val.None? {
          return Err(Unresolved(ref)), "";
        }
        return Ok(end.value + 1), show(val.value);
      }
      return Ok(i + 1), [input[i]];
    }
  }
}
