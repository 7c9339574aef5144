/** The YAML parser over scanned tokens (core/yaml/parser.go).

    Functions of the tokens and a position come first, and then the parser object, whose methods compute them.
    Line and column of nodes are not kept. */
module YamlParser {
  import opened Wrappers
  import opened YamlScanner

  datatype Node =
    | ScalarNode(value: string)
    | SequenceNode(children: seq<Node>)
    | MappingNode(pairs: seq<Pair>)

  datatype Pair = Pair(key: string, value: Node)

  datatype ParseError =
    | Unexpected(kind: Kind)
    | UnexpectedInSequence(kind: Kind)
    | UnexpectedInFlowMapping(kind: Kind)
    | UnexpectedInFlowValue(kind: Kind)
    | UnterminatedFlowSequence
    | UnterminatedFlowMapping

  type Parsed<T> = Result<T, ParseError>

  const EMPTY := ScalarNode("")

  // ---- Specification: parsing `ts` from position `i` ---------------------

  /** Behind the last token there is an Eof. */
  function Peek(ts: seq<Token>, i: nat): Token {
    if i < |ts| then ts[i] else EOF
  }

  /** The items of a flow sequence and the position behind its bracket. Commas are skipped wherever they are. */
  function FlowItemsAt(ts: seq<Token>, i: nat): (r: Parsed<(seq<Node>, nat)>)
    requires i <= |ts|
    ensures r.Ok? ==> i < r.value.1 <= |ts|
    decreases |ts| - i, 1
  {
    var kind := Peek(ts, i).kind;
    if kind.FlowSequenceEnd? then Ok(([], i + 1))
    else if kind.Eof? then Err(UnterminatedFlowSequence)
    else if kind.FlowComma? then FlowItemsAt(ts, i + 1)
    else
      var (child, j) :- FlowValueAt(ts, i);
      Carry([child], FlowItemsAt(ts, j))
  }

  function FlowPairsAt(ts: seq<Token>, i: nat): (r: Parsed<(seq<Pair>, nat)>)
    requires i <= |ts|
    ensures r.Ok? ==> i < r.value.1 <= |ts|
    decreases |ts| - i, 1
  {
    var tok := Peek(ts, i);
    match tok.kind
    case FlowMappingEnd => Ok(([], i + 1))
    case Eof => Err(UnterminatedFlowMapping)
    case FlowComma => FlowPairsAt(ts, i + 1)
    case MappingKey =>
      if Peek(ts, i + 1).kind.FlowMappingEnd? || Peek(ts, i + 1).kind.FlowComma? then
        Carry([Pair(tok.value, EMPTY)], FlowPairsAt(ts, i + 1))
      else
        var (val, j) :- FlowValueAt(ts, i + 1);
        Carry([Pair(tok.value, val)], FlowPairsAt(ts, j))
    case Scalar => Carry([Pair(tok.value, EMPTY)], FlowPairsAt(ts, i + 1))
    case _ => Err(UnexpectedInFlowMapping(tok.kind))
  }

  function FlowValueAt(ts: seq<Token>, i: nat): (r: Parsed<(Node, nat)>)
    requires i <= |ts|
    ensures r.Ok? ==> i < r.value.1 <= |ts|
    decreases |ts| - i, 0
  {
    var tok := Peek(ts, i);
    match tok.kind
    case FlowSequenceStart =>
      var (children, j) :- FlowItemsAt(ts, i + 1);
      Ok((SequenceNode(children), j))
    case FlowMappingStart =>
      var (pairs, j) :- FlowPairsAt(ts, i + 1);
      Ok((MappingNode(pairs), j))
    case MappingKey => Ok((ScalarNode(tok.value), i + 1))
    case Scalar => Ok((ScalarNode(tok.value), i + 1))
    case _ => Err(UnexpectedInFlowValue(tok.kind))
  }

  /** The indentation of a mapping when it meets a key that is indented `indent`, after `n` pairs: None ends it.
      After one pair that stood inline behind a dash, the second key sets the real indentation. */
  function AdmitKey(minIndent: int, mapIndent: nat, n: nat, indent: nat): Option<nat> {
    if indent < mapIndent then None
    else if indent == mapIndent then Some(mapIndent)
    else if n == 1 && mapIndent <= minIndent then Some(indent)
    else None
  }

  /** The pairs of a block mapping that has `n` pairs already. */
  function PairsAt(ts: seq<Token>, i: nat, minIndent: int, mapIndent: nat, n: nat): (r: Parsed<(seq<Pair>, nat)>)
    requires i <= |ts|
    ensures r.Ok? ==> i <= r.value.1 <= |ts|
    decreases |ts| - i, 2
  {
    var tok := Peek(ts, i);
    if !tok.kind.MappingKey? then Ok(([], i))
    else
      match AdmitKey(minIndent, mapIndent, n, tok.indent)
      case None => Ok(([], i))
      case Some(indent) =>
        var (val, j) :- MappingValueAt(ts, i + 1, indent);
        Carry([Pair(tok.value, val)], PairsAt(ts, j, minIndent, indent, n + 1))
  }

  function BlockMappingAt(ts: seq<Token>, i: nat, minIndent: int): (r: Parsed<(Node, nat)>)
    requires i <= |ts|
    ensures r.Ok? ==> i <= r.value.1 <= |ts|
    decreases |ts| - i, 3
  {
    var (pairs, j) :- PairsAt(ts, i, minIndent, Peek(ts, i).indent, 0);
    Ok((MappingNode(pairs), j))
  }

  function MappingValueAt(ts: seq<Token>, i: nat, keyIndent: nat): (r: Parsed<(Node, nat)>)
    requires i <= |ts|
    ensures r.Ok? ==> i <= r.value.1 <= |ts|
    decreases |ts| - i, 4
  {
    var tok := Peek(ts, i);
    match tok.kind
    case Scalar => Ok((ScalarNode(tok.value), i + 1))
    case LiteralBlock => Ok((ScalarNode(tok.value), i + 1))
    case FoldedBlock => Ok((ScalarNode(tok.value), i + 1))
    case FlowSequenceStart => FlowValueAt(ts, i)
    case FlowMappingStart => FlowValueAt(ts, i)
    case MappingKey => if tok.indent > keyIndent then BlockMappingAt(ts, i, keyIndent) else Ok((EMPTY, i))
    case SequenceEntry => if tok.indent > keyIndent then BlockSequenceAt(ts, i) else Ok((EMPTY, i))
    case _ => Ok((EMPTY, i))
  }

  /** The entries of a block sequence at this indentation. */
  function EntriesAt(ts: seq<Token>, i: nat, seqIndent: nat): (r: Parsed<(seq<Node>, nat)>)
    requires i <= |ts|
    ensures r.Ok? ==> i <= r.value.1 <= |ts|
    decreases |ts| - i, 2
  {
    var tok := Peek(ts, i);
    if !tok.kind.SequenceEntry? || tok.indent != seqIndent then Ok(([], i))
    else
      var (child, j) :- EntryAt(ts, i + 1, seqIndent);
      Carry([child], EntriesAt(ts, j, seqIndent))
  }

  /** What stands behind a dash. */
  function EntryAt(ts: seq<Token>, i: nat, seqIndent: nat): (r: Parsed<(Node, nat)>)
    requires i <= |ts|
    ensures r.Ok? ==> i <= r.value.1 <= |ts|
    decreases |ts| - i, 4
  {
    var tok := Peek(ts, i);
    match tok.kind
    case MappingKey => BlockMappingAt(ts, i, seqIndent)
    case SequenceEntry => BlockSequenceAt(ts, i)
    case FlowSequenceStart => FlowValueAt(ts, i)
    case FlowMappingStart => FlowValueAt(ts, i)
    case Scalar => Ok((ScalarNode(tok.value), i + 1))
    case LiteralBlock => Ok((ScalarNode(tok.value), i + 1))
    case FoldedBlock => Ok((ScalarNode(tok.value), i + 1))
    case Eof => Ok((EMPTY, i))
    case _ => Err(UnexpectedInSequence(tok.kind))
  }

  function BlockSequenceAt(ts: seq<Token>, i: nat): (r: Parsed<(Node, nat)>)
    requires i <= |ts|
    ensures r.Ok? ==> i <= r.value.1 <= |ts|
    decreases |ts| - i, 3
  {
    var (children, j) :- EntriesAt(ts, i, Peek(ts, i).indent);
    Ok((SequenceNode(children), j))
  }

  /** The first node. Tokens behind it are not looked at. */
  function DocumentOf(ts: seq<Token>): Parsed<Node> {
    var tok := Peek(ts, 0);
    var r :- match tok.kind
             case Eof => Ok((EMPTY, 0))
             case FlowSequenceStart => FlowValueAt(ts, 0)
             case FlowMappingStart => FlowValueAt(ts, 0)
             case MappingKey => BlockMappingAt(ts, 0, -1)
             case SequenceEntry => BlockSequenceAt(ts, 0)
             case Scalar => Ok((ScalarNode(tok.value), 1))
             case LiteralBlock => Ok((ScalarNode(tok.value), 1))
             case FoldedBlock => Ok((ScalarNode(tok.value), 1))
             case _ => Err(Unexpected(tok.kind));
    Ok(r.0)
  }

  datatype YamlError = Scan(scan: ScanError) | Syntax(parse: ParseError)

  /** The whole of Parse. */
  function Load(input: string): Result<Node, YamlError> {
    match ScanFrom(input, 0, 0)
    case Err(e) => Err(Scan(e))
    case Ok(ts) =>
      match DocumentOf(ts)
      case Err(e) => Err(Syntax(e))
      case Ok(n) => Ok(n)
  }

  // ---- The parser object ------------------------------------------------

  class Parser {
    const tokens: seq<Token>
    var pos: nat

    constructor (tokens: seq<Token>)
      ensures this.tokens == tokens && pos == 0
    {
      this.tokens := tokens;
      pos := 0;
    }

    function Current(): Token
      reads this
    {
      Peek(tokens, pos)
    }

    method Next() returns (tok: Token)
      requires pos <= |tokens|
      modifies this
      ensures tok == Peek(tokens, old(pos))
      ensures pos == if old(pos) < |tokens| then old(pos) + 1 else old(pos)
    {
      tok := Current();
      if pos < |tokens| {
        pos := pos + 1;
      }
    }

    method ParseDocument() returns (r: Parsed<Node>)
      requires pos == 0
      modifies this
      ensures r == DocumentOf(tokens)
    {
      hide FlowValueAt;
      hide BlockMappingAt;
      hide BlockSequenceAt;
      var tok := Current();
      match tok.kind {
        case Eof => return Ok(EMPTY);
        case FlowSequenceStart => r := ParseFlowSequence();
        case FlowMappingStart => r := ParseFlowMapping();
        case MappingKey => r := ParseBlockMapping(-1);
        case SequenceEntry => r := ParseBlockSequence();
        case Scalar => pos := pos + 1; return Ok(ScalarNode(tok.value));
        case LiteralBlock => pos := pos + 1; return Ok(ScalarNode(tok.value));
        case FoldedBlock => pos := pos + 1; return Ok(ScalarNode(tok.value));
        case _ => return Err(Unexpected(tok.kind));
      }
    }

    method ParseBlockMapping(minIndent: int) returns (r: Parsed<Node>)
      requires pos <= |tokens|
      modifies this
      ensures pos <= |tokens|
      ensures match BlockMappingAt(tokens, old(pos), minIndent)
              case Ok((n, j)) => r == Ok(n) && pos == j
              case Err(e) => r == Err(e)
      decreases |tokens| - pos, 3
    {
      hide MappingValueAt;
      var pairs := [];
      var mapIndent: nat := Current().indent;
      var firstKey := true;
      ghost var whole := PairsAt(tokens, pos, minIndent, mapIndent, 0);
      CarryCarry([], [], whole);
      while true
        invariant old(pos) <= pos <= |tokens|
        invariant firstKey <==> |pairs| == 0
        invariant whole == Carry(pairs, PairsAt(tokens, pos, minIndent, mapIndent, |pairs|))
        decreases |tokens| - pos
      {
        var tok := Current();
        if !tok.kind.MappingKey? || tok.indent < mapIndent {
          break;
        }
        if tok.indent > mapIndent {
          if firstKey {
            break;
          }
          if |pairs| == 1 && mapIndent <= minIndent {
            mapIndent := tok.indent;
          } else {
            break;
          }
        }
        firstKey := false;
        pos := pos + 1;
        var val :- ParseMappingValue(mapIndent);
        CarryCarry(pairs, [Pair(tok.value, val)], PairsAt(tokens, pos, minIndent, mapIndent, |pairs| + 1));
        pairs := pairs + [Pair(tok.value, val)];
      }
      assert pairs + [] == pairs;
      return Ok(MappingNode(pairs));
    }

    method ParseMappingValue(keyIndent: nat) returns (r: Parsed<Node>)
      requires pos <= |tokens|
      modifies this
      ensures pos <= |tokens|
      ensures match MappingValueAt(tokens, old(pos), keyIndent)
              case Ok((n, j)) => r == Ok(n) && pos == j
              case Err(e) => r == Err(e)
      decreases |tokens| - pos, 4
    {
      hide FlowValueAt;
      hide BlockMappingAt;
      hide BlockSequenceAt;
      var tok := Current();
      match tok.kind {
        case Scalar => pos := pos + 1; return Ok(ScalarNode(tok.value));
        case LiteralBlock => pos := pos + 1; return Ok(ScalarNode(tok.value));
        case FoldedBlock => pos := pos + 1; return Ok(ScalarNode(tok.value));
        case FlowSequenceStart => r := ParseFlowSequence();
        case FlowMappingStart => r := ParseFlowMapping();
        case MappingKey =>
          if tok.indent > keyIndent {
            r := ParseBlockMapping(keyIndent);
          } else {
            return Ok(EMPTY);
          }
        case SequenceEntry =>
          if tok.indent > keyIndent {
            r := ParseBlockSequence();
          } else {
            return Ok(EMPTY);
          }
        case _ => return Ok(EMPTY);
      }
    }

    method ParseBlockSequence() returns (r: Parsed<Node>)
      requires pos <= |tokens|
      modifies this
      ensures pos <= |tokens|
      ensures match BlockSequenceAt(tokens, old(pos))
              case Ok((n, j)) => r == Ok(n) && pos == j
              case Err(e) => r == Err(e)
      decreases |tokens| - pos, 3
    {
      hide EntryAt;
      var children := [];
      var seqIndent := Current().indent;
      ghost var whole := EntriesAt(tokens, pos, seqIndent);
      CarryCarry([], [], whole);
      while true
        invariant old(pos) <= pos <= |tokens|
        invariant whole == Carry(children, EntriesAt(tokens, pos, seqIndent))
        decreases |tokens| - pos
      {
        var tok := Current();
        if !tok.kind.SequenceEntry? || tok.indent != seqIndent {
          break;
        }
        pos := pos + 1;
        var child :- ParseEntry(seqIndent);
        CarryCarry(children, [child], EntriesAt(tokens, pos, seqIndent));
        children := children + [child];
      }
      assert children + [] == children;
      return Ok(SequenceNode(children));
    }

    method ParseEntry(seqIndent: nat) returns (r: Parsed<Node>)
      requires pos <= |tokens|
      modifies this
      ensures pos <= |tokens|
      ensures match EntryAt(tokens, old(pos), seqIndent)
              case Ok((n, j)) => r == Ok(n) && pos == j
              case Err(e) => r == Err(e)
      decreases |tokens| - pos, 4
    {
      hide FlowValueAt;
      hide BlockMappingAt;
      hide BlockSequenceAt;
      var tok := Current();
      match tok.kind {
        case MappingKey => r := ParseBlockMapping(seqIndent);
        case SequenceEntry => r := ParseBlockSequence();
        case FlowSequenceStart => r := ParseFlowSequence();
        case FlowMappingStart => r := ParseFlowMapping();
        case Scalar => pos := pos + 1; return Ok(ScalarNode(tok.value));
        case LiteralBlock => pos := pos + 1; return Ok(ScalarNode(tok.value));
        case FoldedBlock => pos := pos + 1; return Ok(ScalarNode(tok.value));
        case Eof => return Ok(EMPTY);
        case _ => return Err(UnexpectedInSequence(tok.kind));
      }
    }

    method ParseFlowSequence() returns (r: Parsed<Node>)
      requires pos < |tokens| && tokens[pos].kind.FlowSequenceStart?
      modifies this
      ensures pos <= |tokens|
      ensures match FlowValueAt(tokens, old(pos))
              case Ok((n, j)) => r == Ok(n) && pos == j
              case Err(e) => r == Err(e)
      decreases |tokens| - pos, 0
    {
      pos := pos + 1;
      var children := [];
      ghost var whole := FlowItemsAt(tokens, pos);
      CarryCarry([], [], whole);
      while true
        invariant old(pos) < pos <= |tokens|
        invariant whole == Carry(children, FlowItemsAt(tokens, pos))
        decreases |tokens| - pos
      {
        var tok := Current();
        if tok.kind.FlowSequenceEnd? {
          pos := pos + 1;
          assert children + [] == children;
          return Ok(SequenceNode(children));
        }
        if tok.kind.Eof? {
          return Err(UnterminatedFlowSequence);
        }
        if tok.kind.FlowComma? {
          pos := pos + 1;
          continue;
        }
        var child :- ParseFlowValue();
        CarryCarry(children, [child], FlowItemsAt(tokens, pos));
        children := children + [child];
      }
    }

    method ParseFlowMapping() returns (r: Parsed<Node>)
      requires pos < |tokens| && tokens[pos].kind.FlowMappingStart?
      modifies this
      ensures pos <= |tokens|
      ensures match FlowValueAt(tokens, old(pos))
              case Ok((n, j)) => r == Ok(n) && pos == j
              case Err(e) => r == Err(e)
      decreases |tokens| - pos, 0
    {
      pos := pos + 1;
      var pairs := [];
      ghost var whole := FlowPairsAt(tokens, pos);
      CarryCarry([], [], whole);
      while true
        invariant old(pos) < pos <= |tokens|
        invariant whole == Carry(pairs, FlowPairsAt(tokens, pos))
        decreases |tokens| - pos
      {
        var tok := Current();
        if tok.kind.FlowMappingEnd? {
          pos := pos + 1;
          assert pairs + [] == pairs;
          return Ok(MappingNode(pairs));
        }
        if tok.kind.Eof? {
          return Err(UnterminatedFlowMapping);
        }
        if tok.kind.FlowComma? {
          pos := pos + 1;
          continue;
        }
        if !tok.kind.MappingKey? && !tok.kind.Scalar? {
          return Err(UnexpectedInFlowMapping(tok.kind));
        }
        pos := pos + 1;
        var val := EMPTY;
        if tok.kind.MappingKey? && !Current().kind.FlowMappingEnd? && !Current().kind.FlowComma? {
          val :- ParseFlowValue();
        }
        CarryCarry(pairs, [Pair(tok.value, val)], FlowPairsAt(tokens, pos));
        pairs := pairs + [Pair(tok.value, val)];
      }
    }

    method ParseFlowValue() returns (r: Parsed<Node>)
      requires pos <= |tokens|
      modifies this
      ensures pos <= |tokens|
      ensures match FlowValueAt(tokens, old(pos))
              case Ok((n, j)) => r == Ok(n) && pos == j
              case Err(e) => r == Err(e)
      decreases |tokens| - pos, 1
    {
      var tok := Current();
      match tok.kind {
        case FlowSequenceStart => r := ParseFlowSequence();
        case FlowMappingStart => r := ParseFlowMapping();
        case MappingKey => pos := pos + 1; return Ok(ScalarNode(tok.value));
        case Scalar => pos := pos + 1; return Ok(ScalarNode(tok.value));
        case _ => return Err(UnexpectedInFlowValue(tok.kind));
      }
    }
  }

  method Parse(input: string) returns (r: Result<Node, YamlError>)
    ensures r == Load(input)
  {
    var scanner := new Scanner(input);
    var tokens := scanner.ScanAll();
    if tokens.Err? {
      return Err(Scan(tokens.error));
    }
    var parser := new Parser(tokens.value);
    var node := parser.ParseDocument();
    return match node case Err(e) => Err(Syntax(e)) case Ok(n) => Ok(n);
  }
}
