/** The brace finder of core/fixture/fixture.go agrees with the lexer and parser of core/expression. */
module BraceAgreement {
  import opened Wrappers
  import opened Sequences
  import opened ExprNumbers
  import opened ExprLexer
  import opened ExprParser
  import opened Fixture

  /** `e` stands in `s` at position `b`, character by character. */
  ghost predicate Embeds(s: string, b: nat, e: string) {
    b + |e| <= |s| && forall k :: 0 <= k < |e| ==> s[b + k] == e[k]
  }

  /** Open parentheses minus closed ones. */
  function Balance(ts: seq<Token>): int {
    if ts == [] then 0
    else (match ts[0] case LParen => 1 case RParen => -1 case _ => 0) + Balance(ts[1..])
  }

  lemma {:induction false} BalanceAppend(a: seq<Token>, b: seq<Token>)
    ensures Balance(a + b) == Balance(a) + Balance(b)
  {
    if a == [] {
      assert a + b == b;
    } else {
      BalanceAppend(a[1..], b);
      assert (a + b)[1..] == a[1..] + b;
    }
  }

  lemma {:induction false} FlattenBalanced(e: Expr)
    ensures Balance(Flatten(e)) == 0
    decreases e, 1
  {
    if e.FuncCall? {
      BalanceAppend([Ident(e.name), LParen], FlattenArgs(e.args));
      if e.args != [] {
        BalanceAppend(Flatten(e.args[0]), FlattenMore(e.args[1..]));
        FlattenBalanced(e.args[0]);
        FlattenMoreBalanced(e.args[1..]);
      }
    }
  }

  lemma {:induction false} FlattenMoreBalanced(args: seq<Expr>)
    ensures Balance(FlattenMore(args)) == -1
    decreases args, 0
  {
    if args != [] {
      BalanceAppend([Comma], Flatten(args[0]) + FlattenMore(args[1..]));
      BalanceAppend(Flatten(args[0]), FlattenMore(args[1..]));
      FlattenBalanced(args[0]);
      FlattenMoreBalanced(args[1..]);
    }
  }

  /** Characters that leave the finder's state alone outside strings. */
  predicate Quiet(c: char) {
    c != '\'' && c != '"' && c != '(' && c != ')' && c != '}'
  }

  lemma {:induction false} FinderSkipsQuiet(s: string, i: nat, j: nat, depth: int)
    requires i <= j <= |s| && forall n :: i <= n < j ==> Quiet(s[n])
    ensures EndFrom(s, i, depth, false, false) == EndFrom(s, j, depth, false, false)
    decreases j - i
  {
    if i < j {
      FinderSkipsQuiet(s, i + 1, j, depth);
    }
  }

  /** Both scanners leave a string literal at the same place, whatever it contains. */
  lemma {:induction false} FinderSkipsString(s: string, b: nat, e: string, quote: char, i: nat, depth: int)
    requires Embeds(s, b, e) && i <= |e| && (quote == '"' || quote == '\'')
    requires StringAt(quote, e, i).Ok?
    ensures EndFrom(s, b + i, depth, quote == '\'', quote == '"') ==
            EndFrom(s, b + StringAt(quote, e, i).value.1, depth, false, false)
    decreases |e| - i
  {
    assert s[b + i] == e[i];
    if e[i] == '\\' {
      assert i + 1 < |e|;
      assert s[b + i + 1] == e[i + 1];
      FinderSkipsString(s, b, e, quote, i + 2, depth);
    } else if e[i] != quote {
      FinderSkipsString(s, b, e, quote, i + 1, depth);
    }
  }

  lemma NumberIsQuiet(u: Library, e: string, i: nat)
    requires i < |e| && NumberAt(u, e, i).Ok?
    ensures forall n :: i <= n < NumberAt(u, e, i).value ==> Quiet(e[n])
  {
    var start := if e[i] == '-' then i + 1 else i;
    var dot := Run(u, Digit, e, start);
    RunMembers(u, Digit, e, start);
    if dot < |e| && e[dot] == '.' {
      RunMembers(u, Digit, e, dot + 1);
    }
  }

  /** Words and white space are quiet. */
  lemma RunIsQuiet(u: Library, k: Class, e: string, i: nat)
    requires u.Valid() && i <= |e|
    ensures forall n :: i <= n < Run(u, k, e, i) ==> Quiet(e[n])
  {
    RunMembers(u, k, e, i);
    hide Run;
    forall n | i <= n < Run(u, k, e, i) ensures Quiet(e[n]) {
      assert u.Is(k, e[n]);
    }
  }

  lemma FinderSkipsEmbedded(s: string, b: nat, e: string, i: nat, j: nat, depth: int)
    requires Embeds(s, b, e) && i <= j <= |e| && forall n :: i <= n < j ==> Quiet(e[n])
    ensures EndFrom(s, b + i, depth, false, false) == EndFrom(s, b + j, depth, false, false)
  {
    hide EndFrom;
    forall n | b + i <= n < b + j ensures Quiet(s[n]) {
      assert s[b + (n - b)] == e[n - b];
    }
    FinderSkipsQuiet(s, b + i, b + j, depth);
  }

  /** One token, whatever it is. */
  lemma FinderSkipsToken(u: Library, s: string, b: nat, e: string, i: nat, depth: int)
    requires u.Valid() && Embeds(s, b, e) && i < |e| && TokenAt(u, e, i).Ok?
    ensures var (tok, j) := TokenAt(u, e, i).value;
            EndFrom(s, b + i, depth, false, false) == EndFrom(s, b + j, depth + Balance([tok]), false, false)
  {
    hide Run;
    hide NumberAt;
    hide StringAt;
    hide Quiet;
    var (tok, j) := TokenAt(u, e, i).value;
    assert s[b + i] == e[i];
    assert Balance([tok]) == (match tok case LParen => 1 case RParen => -1 case _ => 0);
    if e[i] == '"' || e[i] == '\'' {
      FinderSkipsString(s, b, e, e[i], i + 1, depth);
    } else if e[i] != '(' && e[i] != ')' && e[i] != ',' {
      hide EndFrom;
      if e[i] == '-' || IsDigit(e[i]) {
        NumberIsQuiet(u, e, i);
      } else {
        RunIsQuiet(u, IdentPart, e, i);
      }
      FinderSkipsEmbedded(s, b, e, i, j, depth);
    }
  }

  /** Over any text that tokenizes, the finder never stops and ends at the depth of its parentheses. */
  lemma {:induction false} FinderSkipsTokens(u: Library, s: string, b: nat, e: string, i: nat, depth: int)
    requires u.Valid() && Embeds(s, b, e) && i <= |e| && TokensAt(u, e, i).Ok?
    ensures EndFrom(s, b + i, depth, false, false) ==
            EndFrom(s, b + |e|, depth + Balance(TokensAt(u, e, i).value), false, false)
    decreases |e| - i
  {
    hide TokenAt;
    hide EndFrom;
    hide Embeds;
    hide Run;
    var start := Run(u, Space, e, i);
    RunIsQuiet(u, Space, e, i);
    hide Quiet;
    FinderSkipsEmbedded(s, b, e, i, start, depth);
    if start < |e| {
      var (tok, j) := TokenAt(u, e, start).value;
      FinderSkipsToken(u, s, b, e, start, depth);
      FinderSkipsTokens(u, s, b, e, j, depth + Balance([tok]));
      BalanceAppend([tok], TokensAt(u, e, j).value);
    }
  }

  /** A text that the lexer and the parser accept. */
  predicate Accepted(u: Library, e: string) {
    Tokens(u, e).Ok? && Parse(u, Tokens(u, e).value).Ok?
  }

  /** On `fn:` e `}` followed by anything, the finder stops exactly at the brace after e. */
  lemma FinderStopsAfterExpression(u: Library, s: string, start: nat, e: string)
    requires u.Valid() && Accepted(u, e)
    requires At(s, start, "fn:" + (e + "}"))
    ensures EndFrom(s, start, 0, false, false) == Some(start + 3 + |e|)
  {
    hide At;
    hide TokensAt;
    hide Parse;
    var ts, b := Tokens(u, e).value, start + 3;
    ParseIffFlatten(u, ts, Parse(u, ts).value);
    FlattenBalanced(Parse(u, ts).value);
    AtSplit(s, start, "fn:", e + "}");
    AtSplit(s, b, e, "}");
    AtIndex(s, start, "fn:", 0);
    AtIndex(s, start, "fn:", 1);
    AtIndex(s, start, "fn:", 2);
    AtIndex(s, b + |e|, "}", 0);
    forall k | 0 <= k < |e| ensures s[b + k] == e[k] {
      AtIndex(s, b, e, k);
    }
    FinderSkipsQuiet(s, start, b, 0);
    FinderSkipsTokens(u, s, b, e, 0, 0);
  }
}
