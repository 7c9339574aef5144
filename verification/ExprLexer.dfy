/** The lexer of `${fn:...}` expressions (core/expression/lexer.go, core/expression/token.go).

    Functions of the input and a position come first, then what numbers it produces, and then the lexer object, whose
    methods compute those functions. */
module ExprLexer {
  import opened Wrappers
  import opened ExprNumbers

  /** The character classes the lexer runs over. */
  datatype Class = Space | Digit | IdentPart

  /** What the expression language asks of Go's unicode and strconv packages: three categories, of which only the
      ASCII part is fixed, and the texts with a point that ParseFloat accepts, fixed on what the lexer can read
      and on texts with two points. */
  datatype Library = Library(spaces: set<char>, letters: set<char>, digits: set<char>, parsesFloat: string -> bool) {
    ghost predicate ParsesDecimals() {
      && (forall s, k: nat :: IsFraction(Unsigned(s), k) ==> (parsesFloat(s) <==> FitsFloat64(s)))
      && (forall s :: HasTwoPoints(s) ==> !parsesFloat(s))
    }

    ghost predicate Valid() {
      && spaces !! letters !! digits
      && (forall c: char :: c as int < 128 ==> (c in spaces <==> c == ' ' || 9 <= c as int <= 13))
      && (forall c: char :: c as int < 128 ==> (c in letters <==> 'a' <= c <= 'z' || 'A' <= c <= 'Z'))
      && (forall c: char :: c as int < 128 ==> (c in digits <==> '0' <= c <= '9'))
    }

    predicate Is(k: Class, c: char) {
      match k
      case Space => c in spaces
      case Digit => IsDigit(c)
      case IdentPart => c in letters || c in digits || c == '_' || c == '.'
    }

    predicate IsIdentStart(c: char) {
      c in letters || c == '_'
    }
  }

  datatype Token =
    | Ident(name: string)
    | LParen
    | RParen
    | Comma
    | Str(text: string)
    | Num(spelling: string)
    | Bool(truth: bool)

  /** Every lexical error reports a position, as the messages do. */
  datatype LexError = UnexpectedCharacter(at: nat) | UnterminatedString(at: nat) | InvalidNumber(at: nat)

  type Lexed<T> = Result<T, LexError>

  // ---- Specification: reading `s` from position `i` ----------------------

  /** Where the longest run of class `k` starting at `i` ends. */
  function Run(u: Library, k: Class, s: string, i: nat): (j: nat)
    requires i <= |s|
    ensures i <= j <= |s|
    decreases |s| - i
  {
    if i < |s| && u.Is(k, s[i]) then Run(u, k, s, i + 1) else i
  }

  /** The value of a string literal whose opening quote was consumed, and the position after it. */
  function StringAt(quote: char, s: string, i: nat): (r: Lexed<(string, nat)>)
    requires i <= |s|
    ensures r.Ok? ==> i < r.value.1 <= |s|
    decreases |s| - i
  {
    if i == |s| then Err(UnterminatedString(|s|))
    else if s[i] == '\\' && i + 1 < |s| && (s[i + 1] == quote || s[i + 1] == '\\') then
      Carry([s[i + 1]], StringAt(quote, s, i + 2))
    else if s[i] == quote then Ok(("", i + 1))
    else Carry([s[i]], StringAt(quote, s, i + 1))
  }

  /** Where the number starting at `i` ends. */
  function NumberAt(u: Library, s: string, i: nat): (r: Lexed<nat>)
    requires i < |s|
    ensures r.Ok? ==> i < r.value <= |s|
  {
    var start := if s[i] == '-' then i + 1 else i;
    var dot := Run(u, Digit, s, start);
    if dot == start then Err(InvalidNumber(i))
    else if dot < |s| && s[dot] == '.' then
      var end := Run(u, Digit, s, dot + 1);
      if end == dot + 1 then Err(InvalidNumber(i)) else Ok(end)
    else Ok(dot)
  }

  function Word(name: string): Token {
    if name == "true" then Bool(true) else if name == "false" then Bool(false) else Ident(name)
  }

  function TokenAt(u: Library, s: string, i: nat): (r: Lexed<(Token, nat)>)
    requires i < |s|
    ensures r.Ok? ==> i < r.value.1 <= |s|
  {
    if s[i] == '(' then Ok((LParen, i + 1))
    else if s[i] == ')' then Ok((RParen, i + 1))
    else if s[i] == ',' then Ok((Comma, i + 1))
    else if s[i] == '"' || s[i] == '\'' then
      var (v, j) :- StringAt(s[i], s, i + 1);
      Ok((Str(v), j))
    else if s[i] == '-' || IsDigit(s[i]) then
      var j :- NumberAt(u, s, i);
      Ok((Num(s[i..j]), j))
    else if u.IsIdentStart(s[i]) then
      var j := Run(u, IdentPart, s, i);
      Ok((Word(s[i..j]), j))
    else Err(UnexpectedCharacter(i))
  }

  /** All the tokens from `i` on. */
  function TokensAt(u: Library, s: string, i: nat): Lexed<seq<Token>>
    requires i <= |s|
    decreases |s| - i
  {
    var start := Run(u, Space, s, i);
    if start == |s| then Ok([])
    else
      var (tok, j) :- TokenAt(u, s, start);
      Prepend([tok], TokensAt(u, s, j))
  }

  function Tokens(u: Library, s: string): Lexed<seq<Token>> {
    TokensAt(u, s, 0)
  }

  // ---- Properties -------------------------------------------------------

  lemma {:induction false} RunMembers(u: Library, k: Class, s: string, i: nat)
    requires i <= |s|
    ensures forall n :: i <= n < Run(u, k, s, i) ==> u.Is(k, s[n])
    decreases |s| - i
  {
    if i < |s| && u.Is(k, s[i]) {
      RunMembers(u, k, s, i + 1);
    }
  }

  lemma RunIsDigits(u: Library, s: string, i: nat)
    requires i <= |s| && i < Run(u, Digit, s, i)
    ensures AllDigits(s[i..Run(u, Digit, s, i)])
  {
    RunMembers(u, Digit, s, i);
    hide Run;
    forall k | 0 <= k < Run(u, Digit, s, i) - i ensures IsDigit(s[i..Run(u, Digit, s, i)][k]) {
      assert u.Is(Digit, s[i + k]);
    }
  }

  lemma PointSlice(s: string, start: nat, dot: nat, end: nat)
    requires start <= dot < end <= |s| && s[dot] == '.' && AllDigits(s[start..dot]) && AllDigits(s[dot + 1..end])
    ensures IsFraction(s[start..end], dot - start)
  {
    hide AllDigits;
    var t, k := s[start..end], dot - start;
    assert t[..k] == s[start..dot];
    assert t[k + 1..] == s[dot + 1..end];
  }

  lemma NumberAtReadsNumber(u: Library, s: string, i: nat)
    requires i < |s| && NumberAt(u, s, i).Ok?
    ensures IsNumberText(s[i..NumberAt(u, s, i).value])
  {
    hide Run;
    hide IsNumberText;
    hide AllDigits;
    var start := if s[i] == '-' then i + 1 else i;
    var dot, end := Run(u, Digit, s, start), NumberAt(u, s, i).value;
    RunIsDigits(u, s, start);
    FirstIsDigit(s, start, dot);
    if end != dot {
      RunIsDigits(u, s, dot + 1);
      PointSlice(s, start, dot, end);
    }
    SignedNumber(s, i, start, dot, end);
  }

  lemma FirstIsDigit(s: string, start: nat, dot: nat)
    requires start <= dot <= |s| && AllDigits(s[start..dot])
    ensures start < dot && IsDigit(s[start])
  {
    assert s[start..dot][0] == s[start];
  }

  /** A sign, if there is one, in front of digits or a fraction. */
  lemma SignedNumber(s: string, i: nat, start: nat, dot: nat, end: nat)
    requires i <= start < dot <= end <= |s| && IsDigit(s[start]) && start == if s[i] == '-' then i + 1 else i
    requires if end == dot then AllDigits(s[start..end]) else IsFraction(s[start..end], dot - start)
    ensures IsNumberText(s[i..end])
  {
    hide AllDigits;
    hide IsFraction;
    assert Unsigned(s[i..end]) == s[start..end];
  }

  /** Every number the lexer produces is one it can read, so its acceptance is fixed. */
  lemma {:induction false} LexedNumbers(u: Library, s: string, i: nat)
    requires i <= |s| && TokensAt(u, s, i).Ok?
    ensures forall k :: 0 <= k < |TokensAt(u, s, i).value| && TokensAt(u, s, i).value[k].Num? ==>
              IsNumberText(TokensAt(u, s, i).value[k].spelling)
    decreases |s| - i
  {
    hide IsNumberText;
    var start := Run(u, Space, s, i);
    if start < |s| {
      var (tok, j) := TokenAt(u, s, start).value;
      LexedNumbers(u, s, j);
      if tok.Num? {
        NumberAtReadsNumber(u, s, start);
      }
      assert TokensAt(u, s, i).value == [tok] + TokensAt(u, s, j).value;
    }
  }

  // ---- The lexer object -------------------------------------------------

  class Lexer {
    const u: Library
    const input: string
    var pos: nat

    constructor (u: Library, input: string)
      ensures this.u == u && this.input == input && pos == 0
    {
      this.u := u;
      this.input := input;
      pos := 0;
    }

    /** The whole token list, or the first lexical error. */
    method Tokenize() returns (r: Lexed<seq<Token>>)
      requires pos <= |input|
      modifies this
      ensures r == TokensAt(u, input, old(pos))
      ensures r.Ok? ==> pos == |input|
    {
      hide TokenAt;
      var tokens := [];
      ghost var all := TokensAt(u, input, pos);
      assert all.Ok? ==> [] + all.value == all.value;
      while true
        invariant pos <= |input|
        invariant all == Prepend(tokens, TokensAt(u, input, pos))
        decreases |input| - pos
      {
        SkipClass(Space);
        if pos >= |input| {
          assert tokens + [] == tokens;
          return Ok(tokens);
        }
        var tok :- ReadToken();
        PrependPrepend(tokens, [tok], TokensAt(u, input, pos));
        tokens := tokens + [tok];
      }
    }

    /** One turn of the switch in Tokenize. */
    method ReadToken() returns (r: Lexed<Token>)
      requires pos < |input|
      modifies this
      ensures old(pos) <= pos <= |input|
      ensures match TokenAt(u, input, old(pos))
              case Ok((tok, j)) => r == Ok(tok) && pos == j
              case Err(e) => r == Err(e)
    {
      var ch := input[pos];
      if ch == '(' {
        pos := pos + 1;
        return Ok(LParen);
      } else if ch == ')' {
        pos := pos + 1;
        return Ok(RParen);
      } else if ch == ',' {
        pos := pos + 1;
        return Ok(Comma);
      } else if ch == '"' || ch == '\'' {
        r := ReadString(ch);
      } else if ch == '-' || IsDigit(ch) {
        r := ReadNumber();
      } else if u.IsIdentStart(ch) {
        var tok := ReadIdent();
        return Ok(tok);
      } else {
        return Err(UnexpectedCharacter(pos));
      }
    }

    method SkipClass(k: Class)
      requires pos <= |input|
      modifies this
      ensures pos <= |input|
      ensures pos == Run(u, k, input, old(pos))
    {
      while pos < |input| && u.Is(k, input[pos])
        invariant old(pos) <= pos <= |input|
        invariant Run(u, k, input, old(pos)) == Run(u, k, input, pos)
      {
        pos := pos + 1;
      }
    }

    method ReadString(quote: char) returns (r: Lexed<Token>)
      requires pos < |input|
      modifies this
      ensures old(pos) <= pos <= |input|
      ensures match StringAt(quote, input, old(pos) + 1)
              case Ok((v, j)) => r == Ok(Str(v)) && pos == j
              case Err(e) => r == Err(e)
    {
      pos := pos + 1;
      var b := "";
      CarryCarry("", "", StringAt(quote, input, pos));
      while pos < |input|
        invariant old(pos) <= pos <= |input|
        invariant StringAt(quote, input, old(pos) + 1) == Carry(b, StringAt(quote, input, pos))
        decreases |input| - pos
      {
        var ch := input[pos];
        if ch == '\\' && pos + 1 < |input| {
          var next := input[pos + 1];
          if next == quote || next == '\\' {
            CarryCarry(b, [next], StringAt(quote, input, pos + 2));
            b := b + [next];
            pos := pos + 2;
            continue;
          }
        }
        if ch == quote {
          pos := pos + 1;
          assert b + "" == b;
          return Ok(Str(b));
        }
        CarryCarry(b, [ch], StringAt(quote, input, pos + 1));
        b := b + [ch];
        pos := pos + 1;
      }
      return Err(UnterminatedString(pos));
    }

    method ReadNumber() returns (r: Lexed<Token>)
      requires pos < |input|
      modifies this
      ensures old(pos) <= pos <= |input|
      ensures match NumberAt(u, input, old(pos))
              case Ok(j) => pos == j && r == Ok(Num(input[old(pos)..j]))
              case Err(e) => r == Err(e)
    {
      var start := pos;
      if pos < |input| && input[pos] == '-' {
        pos := pos + 1;
      }
      if pos >= |input| || !IsDigit(input[pos]) {
        return Err(InvalidNumber(start));
      }
      SkipClass(Digit);
      if pos < |input| && input[pos] == '.' {
        pos := pos + 1;
        if pos >= |input| || !IsDigit(input[pos]) {
          return Err(InvalidNumber(start));
        }
        SkipClass(Digit);
      }
      return Ok(Num(input[start..pos]));
    }

    method ReadIdent() returns (tok: Token)
      requires pos < |input|
      modifies this
      ensures old(pos) <= pos <= |input|
      ensures var j := Run(u, IdentPart, input, old(pos));
              tok == Word(input[old(pos)..j]) && pos == j
    {
      var start := pos;
      SkipClass(IdentPart);
      tok := Word(input[start..pos]);
    }
  }
}
