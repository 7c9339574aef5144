/** Interpolation of rendered templates is the concatenation of their parts (core/fixture/fixture.go). */
module Template {
  import opened Wrappers
  import opened Sequences
  import opened ExprLexer
  import opened ExprParser
  import opened ExprEvaluator
  import opened ExprPrinter
  import opened Fixture
  import opened BraceAgreement

  datatype Part = Lit(text: string) | Ref(name: string) | Fn(expr: string)

  /** Every `$` written `\$`. */
  function EscapeDollars(t: string): string {
    if t == "" then "" else EscapeDollar(t[0]) + EscapeDollars(t[1..])
  }

  function EscapeDollar(c: char): string {
    if c == '$' then "\\$" else [c]
  }

  function Render(p: Part): string {
    match p
    case Lit(t) => EscapeDollars(t)
    case Ref(name) => "${" + (name + "}")
    case Fn(e) => "${" + ("fn:" + (e + "}"))
  }

  function RenderAll(ps: seq<Part>): string {
    if ps == [] then "" else Render(ps[0]) + RenderAll(ps[1..])
  }

  function PartValue(ctx: Context, p: Part): Interp {
    match p
    case Lit(t) => Ok(t)
    case Ref(name) => RefValue(ctx, name)
    case Fn(e) => FnValue(ctx, e)
  }

  function Then(v: Interp, r: Interp): Interp {
    if v.Ok? then Prepend(v.value, r) else v
  }

  /** The values of the parts in a row, or the error of the leftmost part that has none. */
  function TemplateValue(ctx: Context, ps: seq<Part>): Interp {
    if ps == [] then Ok("") else Then(PartValue(ctx, ps[0]), TemplateValue(ctx, ps[1..]))
  }

  predicate WellFormed(u: Library, p: Part) {
    match p
    case Lit(_) => true
    case Ref(name) => '}' !in name && !("fn:" <= name)
    case Fn(e) => Accepted(u, e)
  }

  predicate AllWellFormed(u: Library, ps: seq<Part>) {
    ps != [] ==> WellFormed(u, ps[0]) && AllWellFormed(u, ps[1..])
  }

  /** The next character written is the `$` of a reference. */
  predicate StartsWithRef(ps: seq<Part>) {
    ps != [] && (!ps[0].Lit? || (ps[0].text == "" && StartsWithRef(ps[1..])))
  }

  predicate EndsInBackslash(t: string) {
    t != "" && t[|t| - 1] == '\\'
  }

  /** No literal ends in a backslash directly before a reference. */
  predicate Clean(ps: seq<Part>) {
    ps != [] ==>
      && (ps[0].Lit? && EndsInBackslash(ps[0].text) ==> !StartsWithRef(ps[1..]))
      && Clean(ps[1..])
  }

  // ---- One part ---------------------------------------------------------

  /** The first character of a literal is written out, unless it is a backslash with a `$` behind it. */
  lemma LiteralStep(ctx: Context, s: string, i: nat, t: string)
    requires t != "" && At(s, i, EscapeDollars(t))
    requires t == "\\" && i + 1 < |s| ==> s[i + 1] != '$'
    ensures var n := i + |EscapeDollar(t[0])|;
            && n <= |s| && At(s, n, EscapeDollars(t[1..]))
            && InterpolateAt(ctx, s, i) == Prepend([t[0]], InterpolateAt(ctx, s, n))
  {
    hide At;
    hide Prepend;
    var head := EscapeDollar(t[0]);
    AtSplit(s, i, head, EscapeDollars(t[1..]));
    AtIndex(s, i, head, 0);
    AtSlice(s, i, head);
    if t[0] == '$' {
      AtIndex(s, i, head, 1);
    } else if |t| > 1 {
      AtIndex(s, i + 1, EscapeDollars(t[1..]), 0);
    }
  }

  lemma {:induction false} LiteralReads(ctx: Context, s: string, i: nat, t: string)
    requires At(s, i, EscapeDollars(t))
    requires var j := i + |EscapeDollars(t)|; EndsInBackslash(t) && j < |s| ==> s[j] != '$'
    ensures var j := i + |EscapeDollars(t)|;
            j <= |s| && InterpolateAt(ctx, s, i) == Prepend(t, InterpolateAt(ctx, s, j))
    decreases t
  {
    hide At;
    hide InterpolateAt;
    hide Prepend;
    var j := i + |EscapeDollars(t)|;
    AtSlice(s, i, EscapeDollars(t));
    if t == "" {
      PrependPrepend("", "", InterpolateAt(ctx, s, i));
    } else {
      LiteralStep(ctx, s, i, t);
      LiteralReads(ctx, s, i + |EscapeDollar(t[0])|, t[1..]);
      PrependPrepend([t[0]], t[1..], InterpolateAt(ctx, s, j));
      assert [t[0]] + t[1..] == t;
    }
  }

  lemma {:induction false} IndexFromFinds(s: string, c: char, i: nat, j: nat)
    requires i <= j < |s| && s[j] == c && forall k :: i <= k < j ==> s[k] != c
    ensures IndexFrom(s, c, i) == Some(j)
    decreases j - i
  {
    if i < j {
      IndexFromFinds(s, c, i + 1, j);
    }
  }

  lemma NotFn(s: string, i: nat, name: string)
    requires At(s, i + 2, name) && i + 2 + |name| < |s| && s[i + 2 + |name|] == '}'
    requires !("fn:" <= name)
    ensures !IsFnAt(s, i)
  {
    hide At;
    if |name| >= 3 {
      AtIndex(s, i + 2, name, 0);
      AtIndex(s, i + 2, name, 1);
      AtIndex(s, i + 2, name, 2);
    } else {
      forall k: nat | k < |name| ensures s[i + 2 + k] == name[k] {
        AtIndex(s, i + 2, name, k);
      }
    }
  }

  /** The branch of Interpolate for a plain reference that ends at `end`. */
  lemma RefBranch(ctx: Context, s: string, i: nat, end: nat)
    requires i + 2 <= end < |s| && s[i] == '$' && s[i + 1] == '{'
    requires !IsFnAt(s, i) && IndexFrom(s, '}', i) == Some(end)
    ensures InterpolateAt(ctx, s, i) == Then(RefValue(ctx, s[i + 2..end]), InterpolateAt(ctx, s, end + 1))
  {
    hide RefValue;
    hide Prepend;
  }

  /** The branch of Interpolate for a function expression that ends at `end`. */
  lemma FnBranch(ctx: Context, s: string, i: nat, end: nat)
    requires i + 5 <= end < |s| && s[i] == '$' && s[i + 1] == '{'
    requires IsFnAt(s, i) && EndFrom(s, i + 2, 0, false, false) == Some(end)
    ensures InterpolateAt(ctx, s, i) == Then(FnValue(ctx, s[i + 5..end]), InterpolateAt(ctx, s, end + 1))
  {
    hide FnValue;
    hide Prepend;
  }

  /** The pieces of a rendered reference. */
  lemma RefSplits(s: string, i: nat, name: string)
    requires At(s, i, Render(Ref(name)))
    ensures |Render(Ref(name))| == |name| + 3
    ensures At(s, i, "${") && At(s, i + 2, name) && At(s, i + 2 + |name|, "}")
  {
    hide At;
    AtSplit(s, i, "${", name + "}");
    AtSplit(s, i + 2, name, "}");
  }

  lemma RefPieces(s: string, i: nat, name: string)
    requires At(s, i, Render(Ref(name)))
    ensures |Render(Ref(name))| == |name| + 3 && i + 3 + |name| <= |s|
    ensures s[i] == '$' && s[i + 1] == '{' && s[i + 2 + |name|] == '}'
    ensures At(s, i + 2, name) && s[i + 2..i + 2 + |name|] == name
  {
    hide At;
    hide Render;
    RefSplits(s, i, name);
    AtIndex(s, i, "${", 0);
    AtIndex(s, i, "${", 1);
    AtIndex(s, i + 2 + |name|, "}", 0);
    AtSlice(s, i + 2, name);
  }

  lemma RefReads(ctx: Context, s: string, i: nat, name: string)
    requires At(s, i, Render(Ref(name))) && WellFormed(ctx.u, Ref(name))
    ensures i + |Render(Ref(name))| <= |s|
    ensures InterpolateAt(ctx, s, i) ==
            Then(RefValue(ctx, name), InterpolateAt(ctx, s, i + |Render(Ref(name))|))
  {
    hide At;
    hide Render;
    hide RefValue;
    hide InterpolateAt;
    hide IsFnAt;
    hide Then;
    RefPieces(s, i, name);
    NotFn(s, i, name);
    RefBranch(ctx, s, i, i + 2 + |name|);
  }

  /** The pieces of a rendered function expression. */
  lemma FnSplits(s: string, i: nat, e: string)
    requires At(s, i, Render(Fn(e)))
    ensures |Render(Fn(e))| == |e| + 6
    ensures At(s, i, "${") && At(s, i + 2, "fn:" + (e + "}"))
  {
    hide At;
    AtSplit(s, i, "${", "fn:" + (e + "}"));
  }

  lemma FnBodySplits(s: string, i: nat, e: string)
    requires At(s, i, "fn:" + (e + "}"))
    ensures At(s, i, "fn:") && At(s, i + 3, e) && At(s, i + 3 + |e|, "}")
  {
    hide At;
    AtSplit(s, i, "fn:", e + "}");
    AtSplit(s, i + 3, e, "}");
  }

  lemma FnPieces(s: string, i: nat, e: string)
    requires At(s, i, Render(Fn(e)))
    ensures |Render(Fn(e))| == |e| + 6 && i + 6 + |e| <= |s|
    ensures s[i] == '$' && s[i + 1] == '{' && IsFnAt(s, i) && s[i + 5..i + 5 + |e|] == e
    ensures At(s, i + 2, "fn:" + (e + "}"))
  {
    hide At;
    hide Render;
    FnSplits(s, i, e);
    FnBodySplits(s, i + 2, e);
    AtIndex(s, i, "${", 0);
    AtIndex(s, i, "${", 1);
    AtIndex(s, i + 2, "fn:", 0);
    AtIndex(s, i + 2, "fn:", 1);
    AtIndex(s, i + 2, "fn:", 2);
    AtSlice(s, i + 5, e);
    AtIndex(s, i + 5 + |e|, "}", 0);
  }

  /** The finder stops at the brace of a rendered function expression. */
  lemma FnEnds(u: Library, s: string, i: nat, e: string)
    requires u.Valid() && At(s, i, Render(Fn(e))) && Accepted(u, e) && i + 2 <= |s|
    ensures EndFrom(s, i + 2, 0, false, false) == Some(i + 5 + |e|)
  {
    hide At;
    hide Render;
    hide EndFrom;
    hide Accepted;
    hide IsFnAt;
    FnPieces(s, i, e);
    FinderStopsAfterExpression(u, s, i + 2, e);
  }

  lemma FnReads(ctx: Context, s: string, i: nat, e: string)
    requires ctx.u.Valid() && At(s, i, Render(Fn(e))) && WellFormed(ctx.u, Fn(e))
    ensures i + |Render(Fn(e))| <= |s|
    ensures InterpolateAt(ctx, s, i) ==
            Then(FnValue(ctx, e), InterpolateAt(ctx, s, i + |Render(Fn(e))|))
  {
    hide At;
    hide Accepted;
    hide Render;
    hide FnValue;
    hide EndFrom;
    hide InterpolateAt;
    hide IsFnAt;
    hide Then;
    FnPieces(s, i, e);
    FnEnds(ctx.u, s, i, e);
    FnBranch(ctx, s, i, i + 5 + |e|);
  }

  /** A part is read as its value, unless it ends in a backslash and a `$` follows. */
  lemma PartReads(ctx: Context, s: string, i: nat, p: Part)
    requires ctx.u.Valid() && At(s, i, Render(p)) && WellFormed(ctx.u, p)
    requires p.Lit? && EndsInBackslash(p.text) && i + |Render(p)| < |s| ==> s[i + |Render(p)|] != '$'
    ensures i + |Render(p)| <= |s|
    ensures InterpolateAt(ctx, s, i) ==
            Then(PartValue(ctx, p), InterpolateAt(ctx, s, i + |Render(p)|))
  {
    hide At;
    hide InterpolateAt;
    hide RefValue;
    hide FnValue;
    match p
    case Lit(t) => LiteralReads(ctx, s, i, t);
    case Ref(name) => RefReads(ctx, s, i, name);
    case Fn(e) => FnReads(ctx, s, i, e);
  }

  lemma RenderAllStarts(ps: seq<Part>)
    ensures RenderAll(ps) != "" && RenderAll(ps)[0] == '$' <==> StartsWithRef(ps)
  {
    if ps != [] && ps[0] == Lit("") {
      assert RenderAll(ps) == RenderAll(ps[1..]);
    }
  }

  // ---- Whole templates --------------------------------------------------

  /** What follows a part begins with `$` exactly when a reference comes next. */
  lemma {:induction false} NextPart(s: string, i: nat, ps: seq<Part>)
    requires ps != [] && At(s, i, RenderAll(ps)) && i + |RenderAll(ps)| == |s|
    ensures var j := i + |Render(ps[0])|;
            && At(s, i, Render(ps[0])) && At(s, j, RenderAll(ps[1..])) && j + |RenderAll(ps[1..])| == |s|
            && (j < |s| && s[j] == '$' <==> StartsWithRef(ps[1..]))
  {
    hide At;
    hide Render;
    hide StartsWithRef;
    var rest := RenderAll(ps[1..]);
    AtSplit(s, i, Render(ps[0]), rest);
    RenderAllStarts(ps[1..]);
    if rest != "" {
      AtIndex(s, i + |Render(ps[0])|, rest, 0);
    }
  }

  lemma {:induction false} PartsRead(ctx: Context, s: string, i: nat, ps: seq<Part>)
    requires ctx.u.Valid() && AllWellFormed(ctx.u, ps) && Clean(ps)
    requires At(s, i, RenderAll(ps)) && i + |RenderAll(ps)| == |s|
    ensures InterpolateAt(ctx, s, i) == TemplateValue(ctx, ps)
    decreases ps
  {
    hide At;
    hide InterpolateAt;
    hide Render;
    hide PartValue;
    hide Then;
    hide WellFormed;
    hide RenderAll;
    hide StartsWithRef;
    if ps == [] {
      NoPartsRead(ctx, s, i);
    } else {
      NextPart(s, i, ps);
      PartReads(ctx, s, i, ps[0]);
      PartsRead(ctx, s, i + |Render(ps[0])|, ps[1..]);
    }
  }

  lemma NoPartsRead(ctx: Context, s: string, i: nat)
    requires i + |RenderAll([])| == |s|
    ensures InterpolateAt(ctx, s, i) == TemplateValue(ctx, [])
  {
  }

  /** A clean template interpolates to its parts' values in a row, or to its leftmost error. */
  lemma {:induction false} InterpolationIsCompositional(ctx: Context, ps: seq<Part>)
    requires ctx.u.Valid() && AllWellFormed(ctx.u, ps) && Clean(ps)
    ensures Interpolation(ctx, RenderAll(ps)) == TemplateValue(ctx, ps)
  {
    AtWhole(RenderAll(ps));
    PartsRead(ctx, RenderAll(ps), 0, ps);
  }

  /** With literals only, interpolation gives the text back. */
  lemma LiteralsAreIdentity(ctx: Context, t: string)
    requires ctx.u.Valid()
    ensures Interpolation(ctx, EscapeDollars(t)) == Ok(t)
  {
    var ps := [Lit(t)];
    assert RenderAll(ps) == EscapeDollars(t);
    InterpolationIsCompositional(ctx, ps);
    assert t + "" == t;
  }

  /** Without a closing brace nothing is replaced, and without an escaped `$` nothing is dropped: a `${` that is never
      closed stays as it is. */
  lemma {:induction false} UnclosedStays(ctx: Context, s: string, i: nat)
    requires i <= |s| && '}' !in s && forall k :: i <= k && k + 1 < |s| ==> !EscapedDollarAt(s, k)
    ensures InterpolateAt(ctx, s, i) == Ok(s[i..])
    decreases |s| - i
  {
    hide InterpolateAt;
    hide EscapedDollarAt;
    if i == |s| {
      NothingStays(ctx, s);
      assert s[i..] == "";
    } else {
      assert i + 1 < |s| ==> !EscapedDollarAt(s, i);
      PlainStep(ctx, s, i);
      UnclosedStays(ctx, s, i + 1);
      assert s[i..] == [s[i]] + s[i + 1..];
    }
  }

  lemma NothingStays(ctx: Context, s: string)
    ensures InterpolateAt(ctx, s, |s|) == Ok("")
  {
  }

  predicate EscapedDollarAt(s: string, k: nat)
    requires k + 1 < |s|
  {
    s[k] == '\\' && s[k + 1] == '$'
  }

  lemma PlainStep(ctx: Context, s: string, i: nat)
    requires i < |s| && '}' !in s && (i + 1 < |s| ==> !EscapedDollarAt(s, i))
    ensures InterpolateAt(ctx, s, i) == Prepend([s[i]], InterpolateAt(ctx, s, i + 1))
  {
    hide Prepend;
    hide FnValue;
    hide RefValue;
    if i + 2 <= |s| {
      assert EndFrom(s, i + 2, 0, false, false).None?;
    }
    assert IndexFrom(s, '}', i).None?;
  }

  lemma PrependCancels(v: string, a: Interp, w: string)
    ensures Prepend(v, a) == Ok(v + w) <==> a == Ok(w)
  {
    if a.Ok? && v + a.value == v + w {
      assert (v + a.value)[|v|..] == a.value;
      assert (v + w)[|v|..] == w;
    }
  }

  /** `\$` never yields a text that begins with the backslash. */
  lemma EscapedDollarReads(ctx: Context, s: string, i: nat, w: string)
    requires i + 1 < |s| && s[i] == '\\' && s[i + 1] == '$'
    ensures InterpolateAt(ctx, s, i) != Ok("\\" + w)
  {
    var r := InterpolateAt(ctx, s, i + 2);
    assert InterpolateAt(ctx, s, i) == Prepend("$", r);
    assert ("\\" + w)[0] == '\\';
    if r.Ok? {
      assert ("$" + r.value)[0] == '$';
    }
  }

  /** A backslash that closes a literal before a reference escapes the reference's `$`. */
  lemma {:induction false} BackslashSwallows(ctx: Context, s: string, i: nat, t: string, w: string)
    requires At(s, i, EscapeDollars(t)) && EndsInBackslash(t)
    requires i + |EscapeDollars(t)| < |s| && s[i + |EscapeDollars(t)|] == '$'
    ensures InterpolateAt(ctx, s, i) != Ok(t + w)
    decreases t
  {
    hide At;
    hide InterpolateAt;
    hide Prepend;
    if |t| == 1 {
      AtIndex(s, i, EscapeDollars(t), 0);
      EscapedDollarReads(ctx, s, i, w);
      assert t == "\\";
    } else {
      LiteralStep(ctx, s, i, t);
      BackslashSwallows(ctx, s, i + |EscapeDollar(t[0])|, t[1..], w);
      PrependCancels([t[0]], InterpolateAt(ctx, s, i + |EscapeDollar(t[0])|), t[1..] + w);
      assert [t[0]] + (t[1..] + w) == t + w;
    }
  }

  /** A template with a value has a part with a value in front of a template with a value. */
  lemma ValueSplits(ctx: Context, ps: seq<Part>)
    requires ps != [] && TemplateValue(ctx, ps).Ok?
    ensures PartValue(ctx, ps[0]).Ok? && TemplateValue(ctx, ps[1..]).Ok?
    ensures TemplateValue(ctx, ps) == Ok(PartValue(ctx, ps[0]).value + TemplateValue(ctx, ps[1..]).value)
  {
    hide PartValue;
  }

  /** A part that reads as its value in front of a remainder that does not read as its own spoils the whole. */
  lemma ThenDiffers(v: Interp, r: Interp, w: string)
    requires v.Ok? && r != Ok(w)
    ensures Then(v, r) != Ok(v.value + w)
  {
    PrependCancels(v.value, r, w);
  }

  lemma {:induction false} UncleanDiffers(ctx: Context, s: string, i: nat, ps: seq<Part>)
    requires ctx.u.Valid() && AllWellFormed(ctx.u, ps) && !Clean(ps)
    requires At(s, i, RenderAll(ps)) && i + |RenderAll(ps)| == |s|
    requires TemplateValue(ctx, ps).Ok?
    ensures InterpolateAt(ctx, s, i) != TemplateValue(ctx, ps)
    decreases ps
  {
    hide At;
    hide InterpolateAt;
    hide WellFormed;
    hide RenderAll;
    hide TemplateValue;
    hide StartsWithRef;
    hide EndsInBackslash;
    hide Then;
    var j := i + |Render(ps[0])|;
    ValueSplits(ctx, ps);
    var v, w := PartValue(ctx, ps[0]), TemplateValue(ctx, ps[1..]).value;
    NextPart(s, i, ps);
    if ps[0].Lit? && EndsInBackslash(ps[0].text) && StartsWithRef(ps[1..]) {
      BackslashSwallows(ctx, s, i, ps[0].text, w);
    } else {
      hide Render;
      hide PartValue;
      UncleanDiffers(ctx, s, j, ps[1..]);
      PartReads(ctx, s, i, ps[0]);
      ThenDiffers(v, InterpolateAt(ctx, s, j), w);
    }
  }

  /** For templates whose parts all have values, cleanliness is exactly what interpolation needs. */
  lemma {:induction false} CompositionalIffClean(ctx: Context, ps: seq<Part>)
    requires ctx.u.Valid() && AllWellFormed(ctx.u, ps) && TemplateValue(ctx, ps).Ok?
    ensures Interpolation(ctx, RenderAll(ps)) == TemplateValue(ctx, ps) <==> Clean(ps)
  {
    AtWhole(RenderAll(ps));
    if Clean(ps) {
      InterpolationIsCompositional(ctx, ps);
    } else {
      UncleanDiffers(ctx, RenderAll(ps), 0, ps);
    }
  }

  // ---- What references stand for ----------------------------------------

  /** A template that is one reference interpolates to what the reference resolves to. */
  lemma OneReference(ctx: Context, prefix: string, rest: string)
    requires ctx.u.Valid() && '.' !in prefix && '}' !in prefix && '}' !in rest
    requires !("fn:" <= prefix + "." + rest)
    ensures Interpolation(ctx, "${" + (prefix + "." + rest + "}")) == RefValue(ctx, prefix + "." + rest)
  {
    hide RefValue;
    var ref := prefix + "." + rest;
    var ps := [Ref(ref)];
    InterpolationIsCompositional(ctx, ps);
    assert RenderAll(ps) == Render(Ref(ref));
    assert RefValue(ctx, ref).Ok? ==> RefValue(ctx, ref).value + "" == RefValue(ctx, ref).value;
  }

  /** The prefix of a reference is what stands before its first dot. */
  lemma PrefixSplits(prefix: string, rest: string)
    requires '.' !in prefix
    ensures var ref := prefix + "." + rest;
            && IndexFrom(ref, '.', 0) == Some(|prefix|)
            && ref[..|prefix|] == prefix && ref[|prefix| + 1..] == rest
  {
    IndexFromFinds(prefix + "." + rest, '.', 0, |prefix|);
  }

  /** A key that can stand between the dots of a reference. */
  predicate IsKey(key: string) {
    '.' !in key && '}' !in key
  }

  function JoinDots(keys: seq<string>): string
    requires keys != []
  {
    if |keys| == 1 then keys[0] else keys[0] + "." + JoinDots(keys[1..])
  }

  lemma SplitsOnce(key: string, rest: string)
    requires '.' !in key
    ensures SplitDots(key) == [key] && SplitDots(key + "." + rest) == [key] + SplitDots(rest)
  {
    PrefixSplits(key, rest);
  }

  lemma {:induction false} SplitUndoesJoin(keys: seq<string>)
    requires keys != [] && forall k :: k in keys ==> IsKey(k)
    ensures SplitDots(JoinDots(keys)) == keys && '}' !in JoinDots(keys)
    decreases keys
  {
    hide SplitDots;
    assert IsKey(keys[0]);
    if |keys| == 1 {
      SplitsOnce(keys[0], "");
      assert keys == [keys[0]];
    } else {
      SplitUndoesJoin(keys[1..]);
      SplitsOnce(keys[0], JoinDots(keys[1..]));
      assert keys == [keys[0]] + keys[1..];
    }
  }

  /** `v` under these keys, the first outermost, with anything else beside it at every level. */
  function Nested(keys: seq<string>, besides: seq<map<string, Value>>, v: Value): Value
    requires |keys| == |besides|
  {
    if keys == [] then v else MapVal(besides[0][keys[0] := Nested(keys[1..], besides[1..], v)])
  }

  lemma {:induction false} NestedNavigates(keys: seq<string>, besides: seq<map<string, Value>>, v: Value,
                                           more: seq<string>)
    requires |keys| == |besides|
    ensures Navigate(Nested(keys, besides, v), keys + more) == Navigate(v, more)
    decreases keys
  {
    if keys == [] {
      assert keys + more == more;
    } else {
      assert (keys + more)[1..] == keys[1..] + more;
      NestedNavigates(keys[1..], besides[1..], v, more);
    }
  }

  /** What a reference gives that finds `v`, or nothing. */
  function Shown(ctx: Context, ref: string, v: Option<Value>): Interp {
    if v.Some? then Ok(ctx.show(v.value)) else Err(Unresolved(ref))
  }

  /** The fixtures' own value, or the error with the reference in it, whatever the captures hold. */
  lemma FixtureReads(ctx: Context, key: string)
    requires ctx.u.Valid() && IsKey(key)
    ensures Interpolation(ctx, "${" + ("fixture." + key + "}")) ==
            if key in ctx.fixtures then Ok(ctx.show(ctx.fixtures[key])) else Err(Unresolved("fixture." + key))
  {
    hide Interpolation;
    assert "fixture" + "." + key == "fixture." + key && ("fixture." + key)[1] != "fn:"[1];
    OneReference(ctx, "fixture", key);
    PrefixSplits("fixture", key);
    SplitUndoesJoin([key]);
    assert Navigate(MapVal(ctx.fixtures), [key]) == if key in ctx.fixtures then Some(ctx.fixtures[key]) else None;
  }

  /** The environment's text under the whole name, dots included. */
  lemma EnvReads(ctx: Context, name: string)
    requires ctx.u.Valid() && '}' !in name
    ensures Interpolation(ctx, "${" + ("env." + name + "}")) ==
            if name in ctx.osEnv then Ok(ctx.show(StringVal(ctx.osEnv[name]))) else Err(Unresolved("env." + name))
  {
    hide Interpolation;
    assert "env" + "." + name == "env." + name && ("env." + name)[0] != "fn:"[0];
    OneReference(ctx, "env", name);
    PrefixSplits("env", name);
  }

  /** Without a dot, or before another prefix than the three, nothing resolves. */
  lemma NothingElseReads(ctx: Context, prefix: string, rest: string)
    requires ctx.u.Valid() && '.' !in prefix && '}' !in prefix && '}' !in rest
    requires prefix != "fixture" && prefix != "capture" && prefix != "env"
    ensures !("fn:" <= prefix + "." + rest) ==>
              Interpolation(ctx, "${" + (prefix + "." + rest + "}")) == Err(Unresolved(prefix + "." + rest))
    ensures !("fn:" <= prefix) ==> Interpolation(ctx, "${" + (prefix + "}")) == Err(Unresolved(prefix))
  {
    hide Interpolation;
    if !("fn:" <= prefix + "." + rest) {
      OneReference(ctx, prefix, rest);
      PrefixSplits(prefix, rest);
    }
    if !("fn:" <= prefix) {
      InterpolationIsCompositional(ctx, [Ref(prefix)]);
      assert RenderAll([Ref(prefix)]) == Render(Ref(prefix));
    }
  }

  /** The store in which a value lies under these keys, in the fixtures or in the captures. */
  ghost predicate Holds(ctx: Context, prefix: string, root: Value) {
    || (prefix == "fixture" && root == MapVal(ctx.fixtures))
    || (prefix == "capture" && root == MapVal(ctx.captures))
  }

  lemma PathNavigates(ctx: Context, prefix: string, root: Value, keys: seq<string>)
    requires Holds(ctx, prefix, root) && keys != [] && forall k :: k in keys ==> IsKey(k)
    ensures ResolveRef(ctx, prefix + "." + JoinDots(keys)) == Navigate(root, keys)
  {
    hide Navigate;
    SplitUndoesJoin(keys);
    PrefixSplits(prefix, JoinDots(keys));
  }

  lemma PathResolves(ctx: Context, prefix: string, root: Value, keys: seq<string>)
    requires ctx.u.Valid() && Holds(ctx, prefix, root) && keys != [] && forall k :: k in keys ==> IsKey(k)
    ensures var ref := prefix + "." + JoinDots(keys);
            Interpolation(ctx, "${" + (ref + "}")) == Shown(ctx, ref, Navigate(root, keys))
  {
    hide Interpolation;
    hide Navigate;
    SplitUndoesJoin(keys);
    PathNavigates(ctx, prefix, root, keys);
    assert (prefix + "." + JoinDots(keys))[1] == prefix[1] && prefix[1] != "fn:"[1];
    OneReference(ctx, prefix, JoinDots(keys));
  }

  /** Keys joined by dots give the value that is nested under them, in that order, at any depth. */
  lemma NestedReads(ctx: Context, prefix: string, keys: seq<string>, besides: seq<map<string, Value>>, v: Value)
    requires ctx.u.Valid() && keys != [] && |keys| == |besides| && forall k :: k in keys ==> IsKey(k)
    requires Holds(ctx, prefix, Nested(keys, besides, v))
    ensures Interpolation(ctx, "${" + (prefix + "." + JoinDots(keys) + "}")) == Ok(ctx.show(v))
  {
    hide Interpolation;
    PathResolves(ctx, prefix, Nested(keys, besides, v), keys);
    NestedNavigates(keys, besides, v, []);
    assert keys + [] == keys;
  }

  /** And nothing when the value found on the way is not a map, or lacks the next key. */
  lemma DeadEndReads(ctx: Context, prefix: string, keys: seq<string>, besides: seq<map<string, Value>>, v: Value,
                     next: string, more: seq<string>)
    requires ctx.u.Valid() && |keys| == |besides| && forall k :: k in keys + ([next] + more) ==> IsKey(k)
    requires Holds(ctx, prefix, Nested(keys, besides, v)) && !(v.MapVal? && next in v.entries)
    ensures var ref := prefix + "." + JoinDots(keys + ([next] + more));
            Interpolation(ctx, "${" + (ref + "}")) == Err(Unresolved(ref))
  {
    hide Interpolation;
    hide JoinDots;
    PathResolves(ctx, prefix, Nested(keys, besides, v), keys + ([next] + more));
    NestedNavigates(keys, besides, v, [next] + more);
    assert ([next] + more)[0] == next;
  }

  /** A captured value is what `${capture.key}` reads, for every key without dots and braces. */
  lemma CaptureReads(ctx: Context, key: string, value: Value)
    requires ctx.u.Valid() && IsKey(key)
    ensures Interpolation(ctx.(captures := ctx.captures[key := value]), "${" + ("capture." + key + "}")) ==
            Ok(ctx.show(value))
  {
    var after := ctx.(captures := ctx.captures[key := value]);
    assert Nested([key], [ctx.captures], value) == MapVal(after.captures);
    NestedReads(after, "capture", [key], [ctx.captures], value);
    assert "capture" + "." + JoinDots([key]) == "capture." + key;
  }

  // ---- Function expressions over the store ------------------------------

  /** A template that is one function expression interpolates to its value, or to the error with its text in it. */
  lemma OneExpression(ctx: Context, e: string)
    requires ctx.u.Valid() && Accepted(ctx.u, e)
    ensures Interpolation(ctx, "${" + ("fn:" + (e + "}"))) == FnValue(ctx, e)
  {
    hide FnValue;
    hide Accepted;
    var ps := [Fn(e)];
    InterpolationIsCompositional(ctx, ps);
    assert RenderAll(ps) == Render(Fn(e));
    assert FnValue(ctx, e).Ok? ==> FnValue(ctx, e).value + "" == FnValue(ctx, e).value;
  }

  lemma PrintedIsAccepted(u: Library, l: Look, e: Expr)
    requires u.Valid() && Fits(u, l) && Writable(u, e)
    ensures Accepted(u, Source(l, e))
  {
    PrintParses(u, l, e);
  }

  /** The text of a call with one path for its argument. */
  function CallText(name: string, path: string): string {
    name + ("(" + (path + ")"))
  }

  lemma NothingAround(t: string)
    ensures t + "" == t && "" + t == t
  {
  }

  lemma OneArgumentPrints(l: Look, path: string)
    requires l.gap == ""
    ensures Print(l, VarRef(path)) == path
    ensures PrintArgs(l, [VarRef(path)]) == path + ")"
  {
    NothingAround(path);
    NothingAround(")");
    var args := [VarRef(path)];
    assert args[1..] == [];
    assert PrintArgs(l, args) == Print(l, args[0]) + PrintMore(l, []);
  }

  lemma CallSource(l: Look, name: string, path: string)
    requires l.gap == ""
    ensures Source(l, VarRef(path)) == path
    ensures Source(l, FuncCall(name, [VarRef(path)])) == CallText(name, path)
  {
    hide PrintArgs;
    OneArgumentPrints(l, path);
    NothingAround(path);
    NothingAround(name);
    NothingAround(path + ")");
    NothingAround(CallText(name, path));
  }

  lemma OneExpr(u: Library, e: Expr)
    ensures AllPrintable(u, [e]) <==> Printable(u, e)
    ensures AllNumeric(u, [e]) <==> Numeric(u, e)
    ensures MaxHeight([e]) == Height(e)
  {
    hide IsName;
    var one := [e];
    assert one[0] == e && one[1..] == [];
    assert AllPrintable(u, one) <==> Printable(u, one[0]) && AllPrintable(u, one[1..]);
    assert AllNumeric(u, one) <==> Numeric(u, one[0]) && AllNumeric(u, one[1..]);
    assert MaxHeight(one[1..]) == 0;
  }

  lemma CallIsWritable(u: Library, name: string, path: string)
    requires IsName(u, name) && IsName(u, path)
    ensures Writable(u, FuncCall(name, [VarRef(path)]))
  {
    hide IsName;
    OneExpr(u, VarRef(path));
  }

  lemma OneArgument(u: Library, env: Env, name: string, path: string, v: Value)
    requires u.Valid() && IsName(u, name) && IsName(u, path)
    requires name in env.registry && env.resolve(path) == Some(v)
    ensures Accepted(u, CallText(name, path))
    ensures Denotation(u, env, CallText(name, path)) ==
            match env.registry[name]([v])
            case Ok(w) => Ok(w)
            case Err(message) => Err(Evaluation(FunctionFailed(message)))
  {
    hide Denotation;
    hide Accepted;
    hide IsName;
    hide Source;
    hide CallText;
    hide Writable;
    var l := Look(_ => '"', false, "");
    var args := [VarRef(path)];
    CallSource(l, name, path);
    CallIsWritable(u, name, path);
    PrintedIsAccepted(u, l, FuncCall(name, args));
    OnePathResolves(u, l, env, path, v);
    CallsApply(u, l, env, name, args, [v]);
  }

  lemma OnePathResolves(u: Library, l: Look, env: Env, path: string, v: Value)
    requires u.Valid() && Fits(u, l) && l.gap == "" && IsName(u, path) && env.resolve(path) == Some(v)
    ensures Denotation(u, env, path) == Ok(v)
  {
    hide Denotation;
    PathsResolve(u, l, env, path);
    assert "" + (path + "") == path;
  }

  /** `${fn:name(path)}` is the registered function applied to the very value the path leads to in the store. */
  lemma ExpressionSeesStore(ctx: Context, registry: map<string, Func>, name: string,
                            prefix: string, keys: seq<string>, besides: seq<map<string, Value>>, v: Value)
    requires ctx.u.Valid() && ctx.registry == Some(registry) && name in registry
    requires keys != [] && |keys| == |besides| && forall k :: k in keys ==> IsKey(k)
    requires Holds(ctx, prefix, Nested(keys, besides, v))
    requires IsName(ctx.u, name) && IsName(ctx.u, prefix + "." + JoinDots(keys))
    ensures var e := CallText(name, prefix + "." + JoinDots(keys));
            Interpolation(ctx, "${" + ("fn:" + (e + "}"))) ==
            match registry[name]([v])
            case Ok(w) => Ok(ctx.show(w))
            case Err(message) => Err(BadExpression(e, Failed(Evaluation(FunctionFailed(message)))))
  {
    hide Interpolation;
    hide Denotation;
    hide Accepted;
    hide ResolveRef;
    hide IsName;
    hide CallText;
    var path := prefix + "." + JoinDots(keys);
    PathNavigates(ctx, prefix, Nested(keys, besides, v), keys);
    NestedNavigates(keys, besides, v, []);
    assert keys + [] == keys;
    OneArgument(ctx.u, EnvOf(ctx, registry), name, path, v);
    OneExpression(ctx, CallText(name, path));
  }

  /** Before a registry is set, every function expression is the same error. */
  lemma NoRegistryNoExpression(ctx: Context, e: string)
    requires ctx.u.Valid() && ctx.registry == None && Accepted(ctx.u, e)
    ensures Interpolation(ctx, "${" + ("fn:" + (e + "}"))) == Err(BadExpression(e, NoRegistry))
  {
    hide Interpolation;
    hide Accepted;
    OneExpression(ctx, e);
  }
}
