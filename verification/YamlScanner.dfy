/** The YAML scanner (core/yaml/scanner.go).

    Functions of the input and a position come first, and then the scanner object, whose methods compute them.
    Positions count characters; lines and columns are only kept as far as the scanner acts on them: whether it
    stands at the start of a line. */
module YamlScanner {
  import opened Wrappers

  datatype Kind =
    | MappingKey
    | SequenceEntry
    | Scalar
    | FlowSequenceStart
    | FlowSequenceEnd
    | FlowMappingStart
    | FlowMappingEnd
    | FlowComma
    | LiteralBlock
    | FoldedBlock
    | Eof

  datatype Token = Token(kind: Kind, value: string, indent: nat)

  const EOF := Token(Eof, "", 0)

  datatype ScanError = UnterminatedQuote | UnterminatedEscape

  type Scanned<T> = Result<T, ScanError>

  // ---- Characters -------------------------------------------------------

  predicate IsInline(c: char) {
    c == ' ' || c == '\t'
  }

  predicate IsNewline(c: char) {
    c == '\n' || c == '\r'
  }

  /** Column 1: the first position, or just behind a line feed. */
  predicate AtLineStart(s: string, i: nat)
    requires i <= |s|
  {
    i == 0 || s[i - 1] == '\n'
  }

  function SkipInline(s: string, i: nat): (j: nat)
    requires i <= |s|
    ensures i <= j <= |s|
    decreases |s| - i
  {
    if i < |s| && IsInline(s[i]) then SkipInline(s, i + 1) else i
  }

  function SkipSpaces(s: string, i: nat): (j: nat)
    requires i <= |s|
    ensures i <= j <= |s|
    decreases |s| - i
  {
    if i < |s| && s[i] == ' ' then SkipSpaces(s, i + 1) else i
  }

  function SkipToEol(s: string, i: nat): (j: nat)
    requires i <= |s|
    ensures i <= j <= |s|
    ensures i < |s| && s[i] != '\n' ==> i < j
    decreases |s| - i
  {
    if i < |s| && s[i] != '\n' then SkipToEol(s, i + 1) else i
  }

  /** Blank lines and comment lines; white space before anything else is left in place. */
  function SkipBlank(s: string, i: nat): (j: nat)
    requires i <= |s|
    ensures i <= j <= |s|
    ensures j < |s| ==> !IsNewline(s[j]) && s[j] != '#'
    decreases |s| - i
  {
    if i == |s| then i
    else if IsNewline(s[i]) then SkipBlank(s, i + 1)
    else if IsInline(s[i]) then
      var k := SkipInline(s, i);
      if k == |s| || IsNewline(s[k]) then SkipBlank(s, k)
      else if s[k] == '#' then SkipBlank(s, SkipToEol(s, k))
      else i
    else if s[i] == '#' then SkipBlank(s, SkipToEol(s, i))
    else i
  }

  /** White space, line ends and comments between flow tokens. */
  function SkipFlowBlank(s: string, i: nat): (j: nat)
    requires i <= |s|
    ensures i <= j <= |s|
    ensures j < |s| ==> !IsInline(s[j]) && !IsNewline(s[j]) && s[j] != '#'
    decreases |s| - i
  {
    if i == |s| then i
    else if IsInline(s[i]) || IsNewline(s[i]) then SkipFlowBlank(s, i + 1)
    else if s[i] == '#' then SkipFlowBlank(s, SkipToEol(s, i))
    else i
  }

  function TrimRight(t: string): string {
    if t != "" && IsInline(t[|t| - 1]) then TrimRight(t[..|t| - 1]) else t
  }

  /** The character behind a colon lets it end a key, in block and in flow context. */
  predicate ColonEnds(s: string, i: nat)
  {
    i + 1 >= |s| || s[i + 1] == ' ' || IsNewline(s[i + 1]) || s[i + 1] == '\t'
  }

  predicate FlowColonEnds(s: string, i: nat)
  {
    ColonEnds(s, i) || s[i + 1] == ',' || s[i + 1] == '}' || s[i + 1] == ']'
  }

  // ---- Quoted strings ---------------------------------------------------

  function Unescape(c: char): string {
    match c
    case 'n' => "\n"
    case 't' => "\t"
    case '\\' => "\\"
    case '"' => "\""
    case '/' => "/"
    case 'r' => "\r"
    case _ => ['\\', c]
  }

  /** The text of a quoted string whose opening quote was consumed, and the position behind it. */
  function QuotedAt(s: string, i: nat, quote: char): (r: Scanned<(string, nat)>)
    requires i <= |s|
    ensures r.Ok? ==> i < r.value.1 <= |s|
    decreases |s| - i
  {
    if i == |s| then Err(UnterminatedQuote)
    else if s[i] == quote then Ok(("", i + 1))
    else if quote == '"' && s[i] == '\\' then
      if i + 1 == |s| then Err(UnterminatedEscape) else Carry(Unescape(s[i + 1]), QuotedAt(s, i + 2, quote))
    else Carry([s[i]], QuotedAt(s, i + 1, quote))
  }

  // ---- Block scalars ----------------------------------------------------

  function Spaces(n: nat): (r: string)
    ensures |r| == n && forall i :: 0 <= i < n ==> r[i] == ' '
  {
    seq(n, i => ' ')
  }

  function LineEnd(s: string, i: nat): (j: nat)
    requires i <= |s|
    ensures i <= j <= |s|
    ensures i < |s| && !IsNewline(s[i]) ==> i < j
    decreases |s| - i
  {
    if i < |s| && !IsNewline(s[i]) then LineEnd(s, i + 1) else i
  }

  /** The lines of a block scalar; None when its first text is not indented more than the parent. */
  datatype BlockLines = BlockLines(lines: Option<seq<string>>, next: nat)

  function AddLine(line: string, b: BlockLines): BlockLines {
    if b.lines.Some? then BlockLines(Some([line] + b.lines.value), b.next) else b
  }

  function BlockLinesAt(s: string, i: nat, parent: nat, block: Option<nat>): (b: BlockLines)
    requires i <= |s|
    ensures i <= b.next <= |s|
    decreases |s| - i
  {
    if i == |s| then BlockLines(Some([]), i)
    else
      var j := SkipSpaces(s, i);
      if j == |s| then AddLine("", BlockLinesAt(s, j, parent, block))
      else if IsNewline(s[j]) then AddLine("", BlockLinesAt(s, j + 1, parent, block))
      else if block.None? && j - i <= parent then BlockLines(None, i)
      else
        var indent := if block.None? then j - i else block.value;
        if j - i < indent then BlockLines(Some([]), i)
        else
          var e := LineEnd(s, j);
          AddLine(Spaces(j - i - indent) + s[j..e], BlockLinesAt(s, if e < |s| then e + 1 else e, parent, Some(indent)))
  }

  function DropEmptyEnd(lines: seq<string>): seq<string> {
    if lines != [] && lines[|lines| - 1] == "" then DropEmptyEnd(lines[..|lines| - 1]) else lines
  }

  function JoinLines(lines: seq<string>): string {
    if lines == [] then "" else if |lines| == 1 then lines[0] else lines[0] + "\n" + JoinLines(lines[1..])
  }

  function Folded(lines: seq<string>): string {
    if lines == [] then ""
    else
      var n := |lines| - 1;
      Folded(lines[..n]) +
      (if lines[n] == "" then "\n\n" else (if n > 0 && lines[n - 1] != "" then " " else "") + lines[n])
  }

  function BlockText(lines: Option<seq<string>>, literal: bool): string {
    match lines
    case None => ""
    case Some(ls) => if literal then JoinLines(DropEmptyEnd(ls)) + "\n" else Folded(DropEmptyEnd(ls)) + "\n"
  }

  // ---- Plain text -------------------------------------------------------

  /** The colon that ends a plain key on this line, if there is one outside quotes. */
  function ColonAt(s: string, p: nat, inQuote: Option<char>): (r: Option<nat>)
    ensures r.Some? ==> p <= r.value < |s|
    decreases if p <= |s| then |s| - p else 0
  {
    if p >= |s| || IsNewline(s[p]) then None
    else if inQuote.Some? then
      if s[p] == inQuote.value then ColonAt(s, p + 1, None)
      else if s[p] == '\\' && inQuote.value == '"' then ColonAt(s, p + 2, inQuote)
      else ColonAt(s, p + 1, inQuote)
    else if s[p] == '"' || s[p] == '\'' then ColonAt(s, p + 1, Some(s[p]))
    else if s[p] == ':' && ColonEnds(s, p) then Some(p)
    else ColonAt(s, p + 1, None)
  }

  /** Where the text of a plain scalar that began at `start` ends, and where scanning goes on. */
  function PlainEnd(s: string, start: nat, i: nat): (r: (nat, nat))
    requires start <= i <= |s|
    ensures i <= r.0 <= r.1 <= |s|
    ensures i == start < |s| && !IsNewline(s[i]) ==> i < r.1
    decreases |s| - i
  {
    if i == |s| || IsNewline(s[i]) then (i, i)
    else if s[i] == '#' && i > start && s[i - 1] == ' ' then (i, SkipToEol(s, i))
    else PlainEnd(s, start, i + 1)
  }

  function BlockLineAt(s: string, i: nat, indent: nat): (r: (Token, nat))
    requires i < |s| && !IsNewline(s[i])
    ensures i < r.1 <= |s| && r.0.kind != Eof
  {
    match ColonAt(s, i, None)
    case Some(colon) => (Token(MappingKey, TrimRight(s[i..colon]), indent), SkipInline(s, colon + 1))
    case None =>
      var (end, next) := PlainEnd(s, i, i);
      (Token(Scalar, TrimRight(s[i..end]), indent), next)
  }

  predicate EndsFlowPlain(c: char) {
    c == ',' || c == ']' || c == '}' || c == '[' || c == '{' || IsNewline(c)
  }

  function FlowPlainAt(s: string, start: nat, i: nat): (r: (Token, nat))
    requires start <= i <= |s|
    ensures i <= r.1 <= |s| && r.0.kind != Eof
    ensures i == start < |s| && !EndsFlowPlain(s[i]) ==> i < r.1
    decreases |s| - i
  {
    if i == |s| || EndsFlowPlain(s[i]) then (Token(Scalar, TrimRight(s[start..i]), 0), i)
    else if s[i] == ':' && FlowColonEnds(s, i) then
      (Token(MappingKey, TrimRight(s[start..i]), 0), SkipInline(s, i + 1))
    else if s[i] == '#' && i > start && s[i - 1] == ' ' then
      (Token(Scalar, TrimRight(s[start..i]), 0), SkipToEol(s, i))
    else FlowPlainAt(s, start, i + 1)
  }

  // ---- Tokens -----------------------------------------------------------

  /** A quoted scalar, or a key when a colon follows. */
  function QuotedToken(s: string, i: nat, indent: nat, flow: bool): (r: Scanned<(Token, nat)>)
    requires i < |s|
    ensures r.Ok? ==> i < r.value.1 <= |s| && r.value.0.kind != Eof
  {
    var (v, m) :- QuotedAt(s, i + 1, s[i]);
    var k := SkipInline(s, m);
    if k < |s| && s[k] == ':' && (if flow then FlowColonEnds(s, k) else ColonEnds(s, k)) then
      Ok((Token(MappingKey, v, indent), SkipInline(s, k + 1)))
    else Ok((Token(Scalar, v, indent), k))
  }

  /** Where the text of a block scalar begins, behind its indicator. */
  function BlockStart(s: string, i: nat): (j: nat)
    requires i <= |s|
    ensures i <= j <= |s|
  {
    var m := SkipInline(s, i);
    var e := if m < |s| && s[m] == '#' then SkipToEol(s, m) else m;
    if e < |s| && IsNewline(s[e]) then e + 1 else e
  }

  /** The token that starts exactly at `i`. */
  function ContentAt(s: string, i: nat, indent: nat): (r: Scanned<(Token, nat)>)
    requires i < |s| && !IsNewline(s[i])
    ensures r.Ok? ==> i < r.value.1 <= |s| && r.value.0.kind != Eof
  {
    if s[i] == '[' then Ok((Token(FlowSequenceStart, "", indent), i + 1))
    else if s[i] == '{' then Ok((Token(FlowMappingStart, "", indent), i + 1))
    else if s[i] == '-' && i + 1 < |s| && s[i + 1] == ' ' then Ok((Token(SequenceEntry, "", indent), i + 2))
    else if s[i] == '|' || s[i] == '>' then
      var b := BlockLinesAt(s, BlockStart(s, i + 1), indent, None);
      Ok((Token(if s[i] == '|' then LiteralBlock else FoldedBlock, BlockText(b.lines, s[i] == '|'), indent), b.next))
    else if s[i] == '"' || s[i] == '\'' then QuotedToken(s, i, indent, false)
    else Ok(BlockLineAt(s, i, indent))
  }

  function BlockTokenAt(s: string, i: nat): (r: Scanned<(Token, nat)>)
    requires i <= |s|
    ensures r.Ok? ==> i <= r.value.1 <= |s| && (r.value.0.kind != Eof ==> i < r.value.1)
    decreases |s| - i
  {
    var j := SkipBlank(s, i);
    if j == |s| then Ok((EOF, j))
    else if AtLineStart(s, j) then
      var k := SkipSpaces(s, j);
      if k == |s| then Ok((EOF, k))
      else if s[k] == '#' then BlockTokenAt(s, SkipToEol(s, k))
      else if IsNewline(s[k]) then BlockTokenAt(s, k + 1)
      else ContentAt(s, k, k - j)
    else ContentAt(s, j, 0)
  }

  function FlowTokenAt(s: string, i: nat): (r: Scanned<(Token, nat)>)
    requires i <= |s|
    ensures r.Ok? ==> i <= r.value.1 <= |s| && (r.value.0.kind != Eof ==> i < r.value.1)
  {
    var j := SkipFlowBlank(s, i);
    if j == |s| then Ok((EOF, j))
    else
      match s[j]
      case ']' => Ok((Token(FlowSequenceEnd, "", 0), j + 1))
      case '}' => Ok((Token(FlowMappingEnd, "", 0), j + 1))
      case ',' => Ok((Token(FlowComma, "", 0), j + 1))
      case '[' => Ok((Token(FlowSequenceStart, "", 0), j + 1))
      case '{' => Ok((Token(FlowMappingStart, "", 0), j + 1))
      case _ => if s[j] == '"' || s[j] == '\'' then QuotedToken(s, j, 0, true) else Ok(FlowPlainAt(s, j, j))
  }

  function TokenAt(s: string, i: nat, depth: nat): (r: Scanned<(Token, nat)>)
    requires i <= |s|
    ensures r.Ok? ==> i <= r.value.1 <= |s| && (r.value.0.kind != Eof ==> i < r.value.1)
  {
    if depth > 0 then FlowTokenAt(s, i) else BlockTokenAt(s, i)
  }

  /** The flow depth after a token. Closing brackets are tokens only at a positive depth. */
  function DepthAfter(depth: nat, kind: Kind): nat {
    match kind
    case FlowSequenceStart => depth + 1
    case FlowMappingStart => depth + 1
    case FlowSequenceEnd => if depth > 0 then depth - 1 else 0
    case FlowMappingEnd => if depth > 0 then depth - 1 else 0
    case _ => depth
  }

  /** All tokens from `i` on, up to and with the first Eof. */
  function ScanFrom(s: string, i: nat, depth: nat): (r: Scanned<seq<Token>>)
    requires i <= |s|
    decreases |s| - i
  {
    var (tok, next) :- TokenAt(s, i, depth);
    if tok.kind.Eof? then Ok([tok])
    else Prepend([tok], ScanFrom(s, next, DepthAfter(depth, tok.kind)))
  }

  // ---- The scanner object -----------------------------------------------

  class Scanner {
    const input: string
    var pos: nat
    var flowDepth: int

    constructor (input: string)
      ensures this.input == input && pos == 0 && flowDepth == 0
    {
      this.input := input;
      pos, flowDepth := 0, 0;
    }

    /** Terminates on every input, because every token but Eof consumes some of it. */
    method ScanAll() returns (r: Scanned<seq<Token>>)
      requires pos <= |input| && flowDepth >= 0
      modifies this
      ensures flowDepth >= 0
      ensures r == ScanFrom(input, old(pos), old(flowDepth))
    {
      hide TokenAt;
      var tokens := [];
      ghost var all := ScanFrom(input, pos, flowDepth);
      PrependPrepend([], [], all);
      while true
        invariant pos <= |input| && flowDepth >= 0
        invariant all == Prepend(tokens, ScanFrom(input, pos, flowDepth))
        decreases |input| - pos
      {
        var tok :- NextToken();
        if tok.kind.Eof? {
          return Ok(tokens + [tok]);
        }
        PrependPrepend(tokens, [tok], ScanFrom(input, pos, flowDepth));
        tokens := tokens + [tok];
      }
    }

    method NextToken() returns (r: Scanned<Token>)
      requires pos <= |input| && flowDepth >= 0
      modifies this
      ensures pos <= |input| && flowDepth >= 0
      ensures match TokenAt(input, old(pos), old(flowDepth))
              case Ok((tok, next)) => r == Ok(tok) && pos == next && flowDepth == DepthAfter(old(flowDepth), tok.kind)
              case Err(e) => r == Err(e)
    {
      if flowDepth > 0 {
        r := NextFlowToken();
      } else {
        r := NextBlockToken();
      }
    }

    method SkipInlineWhitespace()
      requires pos <= |input|
      modifies this`pos
      ensures pos <= |input| && pos == SkipInline(input, old(pos))
    {
      while pos < |input| && IsInline(input[pos])
        invariant old(pos) <= pos <= |input| && SkipInline(input, old(pos)) == SkipInline(input, pos)
      {
        pos := pos + 1;
      }
    }

    method SkipToEndOfLine()
      requires pos <= |input|
      modifies this`pos
      ensures pos <= |input| && pos == SkipToEol(input, old(pos))
    {
      while pos < |input| && input[pos] != '\n'
        invariant old(pos) <= pos <= |input| && SkipToEol(input, old(pos)) == SkipToEol(input, pos)
      {
        pos := pos + 1;
      }
    }

    method SkipLeadingSpaces()
      requires pos <= |input|
      modifies this`pos
      ensures pos <= |input| && pos == SkipSpaces(input, old(pos))
    {
      while pos < |input| && input[pos] == ' '
        invariant old(pos) <= pos <= |input| && SkipSpaces(input, old(pos)) == SkipSpaces(input, pos)
      {
        pos := pos + 1;
      }
    }

    method SkipBlankLines()
      requires pos <= |input|
      modifies this`pos
      ensures pos <= |input| && pos == SkipBlank(input, old(pos))
    {
      while pos < |input|
        invariant old(pos) <= pos <= |input| && SkipBlank(input, old(pos)) == SkipBlank(input, pos)
        decreases |input| - pos
      {
        var ch := input[pos];
        if IsNewline(ch) {
          pos := pos + 1;
          continue;
        }
        if IsInline(ch) {
          var saved := pos;
          SkipInlineWhitespace();
          if pos == |input| || IsNewline(input[pos]) || input[pos] == '#' {
            if pos < |input| && input[pos] == '#' {
              SkipToEndOfLine();
            }
            continue;
          }
          pos := saved;
          return;
        }
        if ch == '#' {
          SkipToEndOfLine();
          continue;
        }
        return;
      }
    }

    method ReadQuotedString(quote: char) returns (r: Scanned<string>)
      requires pos < |input|
      modifies this`pos
      ensures pos <= |input|
      ensures match QuotedAt(input, old(pos) + 1, quote)
              case Ok((v, next)) => r == Ok(v) && pos == next
              case Err(e) => r == Err(e)
    {
      hide Unescape;
      pos := pos + 1;
      var buf := "";
      ghost var whole := QuotedAt(input, pos, quote);
      CarryCarry("", "", whole);
      while pos < |input|
        invariant old(pos) < pos <= |input|
        invariant whole == Carry(buf, QuotedAt(input, pos, quote))
        decreases |input| - pos
      {
        var ch := input[pos];
        if ch == quote {
          pos := pos + 1;
          assert buf + "" == buf;
          return Ok(buf);
        }
        if quote == '"' && ch == '\\' {
          pos := pos + 1;
          if pos == |input| {
            return Err(UnterminatedEscape);
          }
          var esc := input[pos];
          pos := pos + 1;
          CarryCarry(buf, Unescape(esc), QuotedAt(input, pos, quote));
          buf := buf + Unescape(esc);
          continue;
        }
        CarryCarry(buf, [ch], QuotedAt(input, pos + 1, quote));
        buf := buf + [ch];
        pos := pos + 1;
      }
      return Err(UnterminatedQuote);
    }

    method ReadQuotedToken(indent: nat, flow: bool) returns (r: Scanned<Token>)
      requires pos < |input|
      modifies this`pos
      ensures pos <= |input|
      ensures match QuotedToken(input, old(pos), indent, flow)
              case Ok((tok, next)) => r == Ok(tok) && pos == next
              case Err(e) => r == Err(e)
    {
      hide QuotedAt;
      var val :- ReadQuotedString(input[pos]);
      SkipInlineWhitespace();
      if pos < |input| && input[pos] == ':' && (if flow then FlowColonEnds(input, pos) else ColonEnds(input, pos)) {
        pos := pos + 1;
        SkipInlineWhitespace();
        return Ok(Token(MappingKey, val, indent));
      }
      return Ok(Token(Scalar, val, indent));
    }

    method NextBlockToken() returns (r: Scanned<Token>)
      requires pos <= |input| && flowDepth == 0
      modifies this
      ensures pos <= |input|
      ensures match BlockTokenAt(input, old(pos))
              case Ok((tok, next)) => r == Ok(tok) && pos == next && flowDepth == DepthAfter(0, tok.kind)
              case Err(e) => r == Err(e) && flowDepth == 0
      decreases |input| - pos
    {
      hide ContentAt;
      hide SkipBlank;
      SkipBlankLines();
      if pos == |input| {
        return Ok(EOF);
      }
      var indent := 0;
      if AtLineStart(input, pos) {
        var start := pos;
        SkipLeadingSpaces();
        indent := pos - start;
        if pos == |input| {
          return Ok(EOF);
        }
        if input[pos] == '#' {
          SkipToEndOfLine();
          r := NextBlockToken();
          return;
        }
        if IsNewline(input[pos]) {
          pos := pos + 1;
          r := NextBlockToken();
          return;
        }
      }
      r := ReadContent(indent);
    }

    /** The second half of nextBlockToken. */
    method ReadContent(indent: nat) returns (r: Scanned<Token>)
      requires pos < |input| && !IsNewline(input[pos]) && flowDepth == 0
      modifies this
      ensures pos <= |input|
      ensures match ContentAt(input, old(pos), indent)
              case Ok((tok, next)) => r == Ok(tok) && pos == next && flowDepth == DepthAfter(0, tok.kind)
              case Err(e) => r == Err(e) && flowDepth == 0
    {
      hide QuotedToken;
      hide BlockLineAt;
      hide BlockText;
      hide BlockLinesAt;
      var ch := input[pos];
      if ch == '[' {
        pos := pos + 1;
        flowDepth := flowDepth + 1;
        return Ok(Token(FlowSequenceStart, "", indent));
      }
      if ch == '{' {
        pos := pos + 1;
        flowDepth := flowDepth + 1;
        return Ok(Token(FlowMappingStart, "", indent));
      }
      if ch == '-' && pos + 1 < |input| && input[pos + 1] == ' ' {
        pos := pos + 2;
        return Ok(Token(SequenceEntry, "", indent));
      }
      if ch == '|' || ch == '>' {
        var kind := if ch == '>' then FoldedBlock else LiteralBlock;
        pos := pos + 1;
        SkipInlineWhitespace();
        if pos < |input| && input[pos] == '#' {
          SkipToEndOfLine();
        }
        if pos < |input| && IsNewline(input[pos]) {
          pos := pos + 1;
        }
        var text := ReadBlockScalar(indent, ch == '|');
        return Ok(Token(kind, text, indent));
      }
      if ch == '"' || ch == '\'' {
        QuotedKeepsDepth(input, pos, indent, false);
        r := ReadQuotedToken(indent, false);
        return;
      }
      LineKeepsDepth(input, pos, indent);
      var tok := ReadBlockLine(indent);
      return Ok(tok);
    }

    method ReadBlockScalar(parentIndent: nat, literal: bool) returns (text: string)
      requires pos <= |input|
      modifies this`pos
      ensures pos <= |input|
      ensures var b := BlockLinesAt(input, old(pos), parentIndent, None);
              text == BlockText(b.lines, literal) && pos == b.next
    {
      hide BlockText;
      hide BlockLinesAt;
      hide AddLines;
      hide AddLine;
      hide Spaces;
      var blockIndent: Option<nat> := None;
      var lines: seq<string> := [];
      ghost var whole := BlockLinesAt(input, pos, parentIndent, None);
      AddLinesStep([], "", whole);
      while pos < |input|
        invariant pos <= |input|
        invariant whole == AddLines(lines, BlockLinesAt(input, pos, parentIndent, blockIndent))
        decreases |input| - pos
      {
        var savedPos := pos;
        NextBlockLine(input, pos, parentIndent, blockIndent);
        SkipLeadingSpaces();
        var lineIndent := pos - savedPos;
        if pos == |input| || IsNewline(input[pos]) {
          if pos < |input| {
            pos := pos + 1;
          }
          AddLinesStep(lines, "", BlockLinesAt(input, pos, parentIndent, blockIndent));
          lines := lines + [""];
          continue;
        }
        if blockIndent.None? {
          if lineIndent <= parentIndent {
            pos := savedPos;
            AddLinesEnd(lines, pos);
            EmptyBlock(literal);
            return "";
          }
        }
        var indent := if blockIndent.None? then lineIndent else blockIndent.value;
        if lineIndent < indent {
          pos := savedPos;
          AddLinesEnd(lines, pos);
          text := FinishBlock(lines, literal);
          return;
        }
        blockIndent := Some(indent);
        var start := pos;
        SkipToLineEnd();
        var line := Spaces(lineIndent - indent) + input[start..pos];
        if pos < |input| {
          pos := pos + 1;
        }
        AddLinesStep(lines, line, BlockLinesAt(input, pos, parentIndent, blockIndent));
        lines := lines + [line];
      }
      NoBlockLine(input, parentIndent, blockIndent);
      AddLinesEnd(lines, pos);
      text := FinishBlock(lines, literal);
    }

    method SkipToLineEnd()
      requires pos <= |input|
      modifies this`pos
      ensures pos <= |input| && pos == LineEnd(input, old(pos))
    {
      while pos < |input| && !IsNewline(input[pos])
        invariant old(pos) <= pos <= |input| && LineEnd(input, old(pos)) == LineEnd(input, pos)
      {
        pos := pos + 1;
      }
    }

    method ReadBlockLine(indent: nat) returns (tok: Token)
      requires pos < |input| && !IsNewline(input[pos])
      modifies this`pos
      ensures pos <= |input|
      ensures (tok, pos) == BlockLineAt(input, old(pos), indent)
    {
      var colon := FindColon(input, pos);
      if colon.Some? {
        var key := TrimRight(input[pos..colon.value]);
        pos := colon.value + 1;
        SkipInlineWhitespace();
        return Token(MappingKey, key, indent);
      }
      var start := pos;
      while pos < |input|
        invariant start <= pos <= |input| && PlainEnd(input, start, start) == PlainEnd(input, start, pos)
        decreases |input| - pos
      {
        var ch := input[pos];
        if IsNewline(ch) {
          break;
        }
        if ch == '#' && pos > start && input[pos - 1] == ' ' {
          var val := TrimRight(input[start..pos]);
          SkipToEndOfLine();
          return Token(Scalar, val, indent);
        }
        pos := pos + 1;
      }
      return Token(Scalar, TrimRight(input[start..pos]), indent);
    }

    method NextFlowToken() returns (r: Scanned<Token>)
      requires pos <= |input| && flowDepth > 0
      modifies this
      ensures pos <= |input|
      ensures match FlowTokenAt(input, old(pos))
              case Ok((tok, next)) => r == Ok(tok) && pos == next && flowDepth == DepthAfter(old(flowDepth), tok.kind)
              case Err(e) => r == Err(e) && flowDepth == old(flowDepth)
    {
      hide QuotedToken;
      hide FlowPlainAt;
      SkipFlowBlanks();
      if pos == |input| {
        return Ok(EOF);
      }
      var ch := input[pos];
      if ch == ']' {
        pos, flowDepth := pos + 1, flowDepth - 1;
        return Ok(Token(FlowSequenceEnd, "", 0));
      } else if ch == '}' {
        pos, flowDepth := pos + 1, flowDepth - 1;
        return Ok(Token(FlowMappingEnd, "", 0));
      } else if ch == ',' {
        pos := pos + 1;
        return Ok(Token(FlowComma, "", 0));
      } else if ch == '[' {
        pos, flowDepth := pos + 1, flowDepth + 1;
        return Ok(Token(FlowSequenceStart, "", 0));
      } else if ch == '{' {
        pos, flowDepth := pos + 1, flowDepth + 1;
        return Ok(Token(FlowMappingStart, "", 0));
      }
      if ch == '"' || ch == '\'' {
        QuotedKeepsDepth(input, pos, 0, true);
        r := ReadQuotedToken(0, true);
        return;
      }
      PlainKeepsDepth(input, pos, pos);
      var tok := ReadFlowPlain();
      return Ok(tok);
    }

    method SkipFlowBlanks()
      requires pos <= |input|
      modifies this`pos
      ensures pos <= |input| && pos == SkipFlowBlank(input, old(pos))
    {
      while pos < |input|
        invariant old(pos) <= pos <= |input| && SkipFlowBlank(input, old(pos)) == SkipFlowBlank(input, pos)
        decreases |input| - pos
      {
        var ch := input[pos];
        if IsInline(ch) || IsNewline(ch) {
          pos := pos + 1;
          continue;
        }
        if ch == '#' {
          SkipToEndOfLine();
          continue;
        }
        return;
      }
    }

    method ReadFlowPlain() returns (tok: Token)
      requires pos <= |input|
      modifies this`pos
      ensures pos <= |input|
      ensures (tok, pos) == FlowPlainAt(input, old(pos), old(pos))
    {
      var start := pos;
      while pos < |input|
        invariant start <= pos <= |input| && FlowPlainAt(input, start, start) == FlowPlainAt(input, start, pos)
        decreases |input| - pos
      {
        var ch := input[pos];
        if EndsFlowPlain(ch) {
          break;
        }
        if ch == ':' && FlowColonEnds(input, pos) {
          var val := TrimRight(input[start..pos]);
          pos := pos + 1;
          SkipInlineWhitespace();
          return Token(MappingKey, val, 0);
        }
        if ch == '#' && pos > start && input[pos - 1] == ' ' {
          var val := TrimRight(input[start..pos]);
          SkipToEndOfLine();
          return Token(Scalar, val, 0);
        }
        pos := pos + 1;
      }
      return Token(Scalar, TrimRight(input[start..pos]), 0);
    }
  }

  /** The look-ahead of readBlockLine. */
  method FindColon(s: string, start: nat) returns (r: Option<nat>)
    ensures r == ColonAt(s, start, None)
  {
    var scanPos := start;
    var inQuote: Option<char> := None;
    while scanPos < |s|
      invariant ColonAt(s, start, None) == ColonAt(s, scanPos, inQuote)
      decreases |s| - scanPos
    {
      var c := s[scanPos];
      if IsNewline(c) {
        return None;
      }
      if inQuote.Some? {
        if c == inQuote.value {
          inQuote := None;
        } else if c == '\\' && inQuote.value == '"' {
          scanPos := scanPos + 1;
        }
        scanPos := scanPos + 1;
        continue;
      }
      if c == '"' || c == '\'' {
        inQuote := Some(c);
        scanPos := scanPos + 1;
        continue;
      }
      if c == ':' && ColonEnds(s, scanPos) {
        return Some(scanPos);
      }
      scanPos := scanPos + 1;
    }
    return None;
  }

  method FinishBlock(found: seq<string>, literal: bool) returns (text: string)
    ensures text == BlockText(Some(found), literal)
  {
    var lines := found;
    while |lines| > 0 && lines[|lines| - 1] == ""
      invariant DropEmptyEnd(lines) == DropEmptyEnd(found)
    {
      lines := lines[..|lines| - 1];
    }
    if literal {
      return JoinLines(lines) + "\n";
    }
    text := "";
    for i := 0 to |lines|
      invariant text == Folded(lines[..i])
    {
      assert lines[..i + 1][..i] == lines[..i];
      if lines[i] == "" {
        text := text + "\n\n";
      } else {
        text := text + ((if i > 0 && lines[i - 1] != "" then " " else "") + lines[i]);
      }
    }
    assert lines[..|lines|] == lines;
    text := text + "\n";
  }

  function AddLines(front: seq<string>, b: BlockLines): BlockLines {
    if b.lines.Some? then BlockLines(Some(front + b.lines.value), b.next) else b
  }

  lemma AddLinesStep(front: seq<string>, line: string, b: BlockLines)
    ensures AddLines(front, AddLine(line, b)) == AddLines(front + [line], b)
    ensures AddLines([], b) == b
  {
    if b.lines.Some? {
      assert front + ([line] + b.lines.value) == (front + [line]) + b.lines.value;
      assert [] + b.lines.value == b.lines.value;
    }
  }

  lemma AddLinesEnd(front: seq<string>, next: nat)
    ensures AddLines(front, BlockLines(Some([]), next)) == BlockLines(Some(front), next)
    ensures AddLines(front, BlockLines(None, next)) == BlockLines(None, next)
  {
    assert front + [] == front;
  }

  /** What the block holds from position `i` on, by the form of its first line. */
  lemma NextBlockLine(s: string, i: nat, parent: nat, block: Option<nat>)
    requires i < |s|
    ensures var j := SkipSpaces(s, i);
            var indent := if block.None? then j - i else block.value;
            BlockLinesAt(s, i, parent, block) ==
            if j == |s| || IsNewline(s[j]) then
              AddLine("", BlockLinesAt(s, if j < |s| then j + 1 else j, parent, block))
            else if block.None? && j - i <= parent then BlockLines(None, i)
            else if j - i < indent then BlockLines(Some([]), i)
            else
              var e := LineEnd(s, j);
              AddLine(Spaces(j - i - indent) + s[j..e],
                      BlockLinesAt(s, if e < |s| then e + 1 else e, parent, Some(indent)))
  {
    hide AddLine;
    hide Spaces;
    hide SkipSpaces;
    hide LineEnd;
  }

  lemma NoBlockLine(s: string, parent: nat, block: Option<nat>)
    ensures BlockLinesAt(s, |s|, parent, block) == BlockLines(Some([]), |s|)
  {
  }

  lemma EmptyBlock(literal: bool)
    ensures BlockText(None, literal) == ""
  {
  }

  /** Quoted and plain tokens are no brackets. */
  lemma QuotedKeepsDepth(s: string, i: nat, indent: nat, flow: bool)
    requires i < |s|
    ensures QuotedToken(s, i, indent, flow).Ok? ==>
              forall depth: nat :: DepthAfter(depth, QuotedToken(s, i, indent, flow).value.0.kind) == depth
  {
  }

  lemma LineKeepsDepth(s: string, i: nat, indent: nat)
    requires i < |s| && !IsNewline(s[i])
    ensures forall depth: nat :: DepthAfter(depth, BlockLineAt(s, i, indent).0.kind) == depth
  {
  }

  lemma {:induction false} PlainKeepsDepth(s: string, start: nat, i: nat)
    requires start <= i <= |s|
    ensures forall depth: nat :: DepthAfter(depth, FlowPlainAt(s, start, i).0.kind) == depth
    decreases |s| - i
  {
    if i < |s| && !EndsFlowPlain(s[i]) {
      PlainKeepsDepth(s, start, i + 1);
    }
  }
}
