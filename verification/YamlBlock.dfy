/** Which trees come back from their block form (core/yaml/scanner.go, core/yaml/parser.go). */
module YamlBlock {
  import opened Wrappers
  import opened Sequences
  import opened YamlScanner
  import opened YamlParser
  import opened YamlText
  import opened YamlFlow
  import opened YamlLayout

  // ---- Which trees survive ----------------------------------------------

  /** Safe in front of a key (`key`) or not: no mapping of one pair that is the last item of its sequence has a key for
      the next token. */
  predicate Safe(l: Layout, n: Node, key: bool)
    decreases n, 1
  {
    if OnOneLine(l, n) then true
    else
      match n
      case ScalarNode(_) => true
      case SequenceNode(cs) => SafeItems(l, cs, key)
      case MappingNode(ps) => SafePairs(l, ps, key)
  }

  predicate SafePairs(l: Layout, ps: seq<Pair>, key: bool)
    decreases ps, 0
  {
    ps != [] ==> Safe(l, ps[0].value, |ps| > 1 || key) && SafePairs(l, ps[1..], key)
  }

  predicate SafeItems(l: Layout, cs: seq<Node>, key: bool)
    decreases cs, 0
  {
    cs != [] ==> SafeItem(l, cs[0], |cs| == 1 && key) && SafeItems(l, cs[1..], key)
  }

  predicate SafeItem(l: Layout, n: Node, key: bool)
    decreases n, 2
  {
    Safe(l, n, key) && (n.MappingNode? && !OnOneLine(l, n) && |n.pairs| == 1 ==> !key)
  }

  // ---- Parsing ----------------------------------------------------------

  /** What may follow lines of indentation `ind`: the end, or a key or dash further out. */
  predicate Outside(t: Token, ind: nat) {
    t.kind.Eof? || ((t.kind.MappingKey? || t.kind.SequenceEntry?) && t.indent < ind)
  }

  /** The answer is this and nothing else, or some other answer or error. */
  predicate Answers<T(==)>(r: Parsed<(T, nat)>, good: bool, x: T, next: nat) {
    if good then r == Ok((x, next)) else r.Ok? ==> r.value.0 != x
  }

  predicate IsKeyAt(ts: seq<Token>, i: nat) {
    Peek(ts, i).kind.MappingKey?
  }

  lemma {:induction false} TokensNotEmpty(l: Layout, n: Node, ind: nat)
    requires !OnOneLine(l, n)
    ensures var ts := LinesTokens(l, n, ind);
            && ts != [] && ts[0].indent == ind
            && (if n.MappingNode? then ts[0].kind.MappingKey? else ts[0].kind.SequenceEntry?)
  {
  }

  /** The tokens of a key, of its value and of the other pairs. */
  lemma PairsSplit(l: Layout, ts: seq<Token>, i: nat, ps: seq<Pair>, ind: nat, first: nat)
    requires ps != [] && (first == ind || first == 0) && At(ts, i, PairsTokens(l, ps, ind, first))
    ensures var v := ValueTokens(l, ps[0].value, ind, first == ind && LeftOut(l.block, ps[0].value));
            var rest := PairsTokens(l, ps[1..], ind, ind);
            && |PairsTokens(l, ps, ind, first)| == 1 + |v| + |rest|
            && i < |ts| && ts[i] == Token(MappingKey, ps[0].key, first)
            && At(ts, i + 1, v) && At(ts, i + 1 + |v|, rest)
            && i + 1 + |v| + |rest| <= |ts|
  {
    hide At;
    hide ValueTokens;
    hide LeftOut;
    var v := ValueTokens(l, ps[0].value, ind, first == ind && LeftOut(l.block, ps[0].value));
    var key := [Token(MappingKey, ps[0].key, first)];
    var rest := PairsTokens(l, ps[1..], ind, ind);
    AtSplit(ts, i, key, v + rest);
    AtSplit(ts, i + 1, v, rest);
    AtIndex(ts, i, key, 0);
    AtSlice(ts, i + 1 + |v|, rest);
  }

  /** What follows a value: the next pair of its mapping, or what follows the mapping. */
  lemma AfterValue(l: Layout, ts: seq<Token>, i: nat, ps: seq<Pair>, ind: nat)
    requires At(ts, i, PairsTokens(l, ps, ind, ind)) && Outside(Peek(ts, i + |PairsTokens(l, ps, ind, ind)|), ind)
    ensures Outside(Peek(ts, i), ind + 1)
    ensures IsKeyAt(ts, i) <==> ps != [] || IsKeyAt(ts, i + |PairsTokens(l, ps, ind, ind)|)
    ensures ps != [] ==> Peek(ts, i).indent == ind
  {
    hide At;
    hide ValueTokens;
    if ps != [] {
      AtIndex(ts, i, PairsTokens(l, ps, ind, ind), 0);
    }
  }

  /** The loop over pairs at a key it admits with the indentation `ind`. */
  lemma PairTaken(ts: seq<Token>, i: nat, minIndent: int, mapIndent: nat, n: nat, ind: nat, key: string)
    requires i < |ts| && ts[i].kind.MappingKey? && ts[i].value == key
    requires AdmitKey(minIndent, mapIndent, n, ts[i].indent) == Some(ind)
    ensures MappingValueAt(ts, i + 1, ind).Err? ==> PairsAt(ts, i, minIndent, mapIndent, n).Err?
    ensures MappingValueAt(ts, i + 1, ind).Ok? ==>
              var (v, j) := MappingValueAt(ts, i + 1, ind).value;
              PairsAt(ts, i, minIndent, mapIndent, n) == Carry([Pair(key, v)], PairsAt(ts, j, minIndent, ind, n + 1))
  {
    hide MappingValueAt;
    hide Carry;
  }

  /** A first pair in front of others is the right answer exactly if both are. */
  lemma PairsAnswer(r: Parsed<(seq<Pair>, nat)>, v: Parsed<(Node, nat)>, others: Parsed<(seq<Pair>, nat)>,
                    ps: seq<Pair>, goodValue: bool, goodRest: bool, j: nat, next: nat)
    requires ps != [] && Answers(v, goodValue, ps[0].value, j)
    requires v.Err? ==> r.Err?
    requires v.Ok? ==> r == Carry([Pair(ps[0].key, v.value.0)], others)
    requires goodValue ==> Answers(others, goodRest, ps[1..], next)
    ensures Answers(r, goodValue && goodRest, ps, next)
  {
    assert ps == [ps[0]] + ps[1..];
    if v.Ok? && others.Ok? {
      assert r.value.0[0] == Pair(ps[0].key, v.value.0) && r.value.0[1..] == others.value.0;
    }
  }

  /** What the loop over pairs finds behind its first value, wherever that ends. */
  function OthersAt(ts: seq<Token>, v: Parsed<(Node, nat)>, minIndent: int, ind: nat, n: nat): Parsed<(seq<Pair>, nat)>
    requires v.Ok? ==> v.value.1 <= |ts|
  {
    if v.Ok? then PairsAt(ts, v.value.1, minIndent, ind, n) else Ok(([], 0))
  }

  lemma NoMorePairs(ts: seq<Token>, i: nat, minIndent: int, ind: nat, n: nat)
    requires i <= |ts| && Outside(Peek(ts, i), ind)
    ensures PairsAt(ts, i, minIndent, ind, n) == Ok(([], i))
  {
  }

  lemma {:induction false} PairsParseBlock(l: Layout, ts: seq<Token>, i: nat, ps: seq<Pair>, ind: nat,
                                           minIndent: int, n: nat)
    requires At(ts, i, PairsTokens(l, ps, ind, ind)) && Outside(Peek(ts, i + |PairsTokens(l, ps, ind, ind)|), ind)
    ensures var end := i + |PairsTokens(l, ps, ind, ind)|;
            && i <= |ts| && end <= |ts|
            && Answers(PairsAt(ts, i, minIndent, ind, n), SafePairs(l, ps, IsKeyAt(ts, end)), ps, end)
    decreases ps, 0
  {
    hide At;
    hide MappingValueAt;
    hide PairsAt;
    hide ValueTokens;
    hide Outside;
    hide Safe;
    hide Answers;
    hide IsKeyAt;
    AtSlice(ts, i, PairsTokens(l, ps, ind, ind));
    if ps == [] {
      NoMorePairs(ts, i, minIndent, ind, n);
      NoPairsAnswer(ts, i, minIndent, ind, n, true);
    } else {
      var end := i + |PairsTokens(l, ps, ind, ind)|;
      var key := IsKeyAt(ts, end);
      PairsSplit(l, ts, i, ps, ind, ind);
      var out := LeftOut(l.block, ps[0].value);
      var next := i + 1 + |ValueTokens(l, ps[0].value, ind, out)|;
      AfterValue(l, ts, next, ps[1..], ind);
      ValueParsesBlock(l, ts, i + 1, ps[0].value, ind, ind, out);
      PairsParseBlock(l, ts, next, ps[1..], ind, minIndent, n + 1);
      PairTaken(ts, i, minIndent, ind, n, ind, ps[0].key);
      var v := MappingValueAt(ts, i + 1, ind);
      ValueEnds(v, Safe(l, ps[0].value, |ps| > 1 || key), ps[0].value, next);
      PairsAnswer(PairsAt(ts, i, minIndent, ind, n), v, OthersAt(ts, v, minIndent, ind, n + 1), ps,
                  Safe(l, ps[0].value, |ps| > 1 || key), SafePairs(l, ps[1..], key), next, end);
    }
  }

  lemma ValueEnds(v: Parsed<(Node, nat)>, good: bool, n: Node, next: nat)
    requires Answers(v, good, n, next)
    ensures good ==> v == Ok((n, next))
  {
  }

  /** Behind the last pair the loop stops, or it takes one more pair than there are. */
  lemma NoPairsAnswer(ts: seq<Token>, i: nat, minIndent: int, ind: nat, n: nat, stops: bool)
    requires i <= |ts|
    requires if stops then PairsAt(ts, i, minIndent, ind, n) == Ok(([], i))
             else PairsAt(ts, i, minIndent, ind, n).Ok? ==> PairsAt(ts, i, minIndent, ind, n).value.0 != []
    ensures Answers(PairsAt(ts, i, minIndent, ind, n), stops, [], i)
  {
    hide PairsAt;
  }

  lemma {:induction false} ValueParsesBlock(l: Layout, ts: seq<Token>, i: nat, n: Node, ind: nat, keyIndent: nat,
                                            out: bool)
    requires At(ts, i, ValueTokens(l, n, ind, out)) && Outside(Peek(ts, i + |ValueTokens(l, n, ind, out)|), ind + 1)
    requires if out then keyIndent == ind && LeftOut(l.block, n) else keyIndent < ind + 2
    ensures var end := i + |ValueTokens(l, n, ind, out)|;
            && i <= |ts| && end <= |ts|
            && Answers(MappingValueAt(ts, i, keyIndent), Safe(l, n, IsKeyAt(ts, end)), n, end)
    decreases n, 2
  {
    hide At;
    hide PairsAt;
    hide EntriesAt;
    hide FlowValueAt;
    hide Tokens;
    hide OnOneLine;
    hide IsKeyAt;
    hide SafePairs;
    hide SafeItems;
    AtSlice(ts, i, ValueTokens(l, n, ind, out));
    if out {
      NothingParses(l, ts, i, n, ind);
    } else if OnOneLine(l, n) {
      LineParses(l, ts, i, n);
    } else {
      hide LinesTokens;
      TokensNotEmpty(l, n, ind + 2);
      AtIndex(ts, i, LinesTokens(l, n, ind + 2), 0);
      LinesParse(l, ts, i, n, ind + 2, keyIndent);
    }
  }

  /** A key with nothing behind it has the empty scalar for its value. */
  lemma NothingParses(l: Layout, ts: seq<Token>, i: nat, n: Node, ind: nat)
    requires i <= |ts| && LeftOut(l.block, n) && Outside(Peek(ts, i), ind + 1)
    ensures MappingValueAt(ts, i, ind) == Ok((n, i)) && Safe(l, n, true) && Safe(l, n, false)
  {
  }

  /** A scalar or a flow collection behind a key or a dash, or at the beginning. */
  lemma LineParses(l: Layout, ts: seq<Token>, i: nat, n: Node)
    requires At(ts, i, Tokens(l.flow, n)) && OnOneLine(l, n)
    ensures var tok, end := Peek(ts, i), i + |Tokens(l.flow, n)|;
            && i < |ts| && end <= |ts|
            && (tok.kind.Scalar? || tok.kind.FlowSequenceStart? || tok.kind.FlowMappingStart?)
            && (tok.kind.Scalar? ==> n == ScalarNode(tok.value) && end == i + 1)
            && (!tok.kind.Scalar? ==> FlowValueAt(ts, i) == Ok((n, end)))
    ensures Safe(l, n, true) && Safe(l, n, false)
  {
    hide At;
    hide FlowValueAt;
    TokensStart(l.flow, n);
    AtSlice(ts, i, Tokens(l.flow, n));
    AtIndex(ts, i, Tokens(l.flow, n), 0);
    ValueParses(l.flow, ts, i, n);
    hide OnOneLine;
  }

  /** The lines of a collection, parsed as the first token says. */
  lemma {:induction false} LinesParse(l: Layout, ts: seq<Token>, i: nat, n: Node, ind: nat, minIndent: int)
    requires !OnOneLine(l, n) && At(ts, i, LinesTokens(l, n, ind))
    requires Outside(Peek(ts, i + |LinesTokens(l, n, ind)|), ind)
    ensures var end := i + |LinesTokens(l, n, ind)|;
            && i < |ts| && end <= |ts| && Peek(ts, i).indent == ind
            && (if n.MappingNode?
                then IsKeyAt(ts, i) && Answers(BlockMappingAt(ts, i, minIndent), Safe(l, n, IsKeyAt(ts, end)), n, end)
                else Peek(ts, i).kind.SequenceEntry? &&
                     Answers(BlockSequenceAt(ts, i), Safe(l, n, IsKeyAt(ts, end)), n, end))
    decreases n, 1
  {
    hide At;
    hide PairsAt;
    hide EntriesAt;
    hide SafePairs;
    hide SafeItems;
    hide PairsTokens;
    hide ItemsTokens;
    TokensNotEmpty(l, n, ind);
    AtIndex(ts, i, LinesTokens(l, n, ind), 0);
    AtSlice(ts, i, LinesTokens(l, n, ind));
    match n
    case SequenceNode(cs) => ItemsParseBlock(l, ts, i, cs, ind);
    case MappingNode(ps) => PairsParseBlock(l, ts, i, ps, ind, minIndent, 0);
  }

  /** The tokens of an item and of those behind it. */
  lemma ItemsSplit(l: Layout, ts: seq<Token>, i: nat, cs: seq<Node>, ind: nat)
    requires cs != [] && At(ts, i, ItemsTokens(l, cs, ind))
    ensures var t, rest := EntryTokens(l, cs[0], ind), ItemsTokens(l, cs[1..], ind);
            && |ItemsTokens(l, cs, ind)| == 1 + |t| + |rest|
            && i < |ts| && ts[i] == Token(SequenceEntry, "", ind)
            && At(ts, i + 1, t) && At(ts, i + 1 + |t|, rest)
            && i + 1 + |t| + |rest| <= |ts|
  {
    hide At;
    hide EntryTokens;
    var dash, t, rest := [Token(SequenceEntry, "", ind)], EntryTokens(l, cs[0], ind), ItemsTokens(l, cs[1..], ind);
    AtSplit(ts, i, dash, t + rest);
    AtSplit(ts, i + 1, t, rest);
    AtIndex(ts, i, dash, 0);
    AtSlice(ts, i + 1 + |t|, rest);
  }

  lemma AfterItem(l: Layout, ts: seq<Token>, i: nat, cs: seq<Node>, ind: nat)
    requires At(ts, i, ItemsTokens(l, cs, ind)) && Outside(Peek(ts, i + |ItemsTokens(l, cs, ind)|), ind)
    ensures Outside(Peek(ts, i), ind + 1)
    ensures IsKeyAt(ts, i) <==> cs == [] && IsKeyAt(ts, i + |ItemsTokens(l, cs, ind)|)
  {
    hide At;
    hide EntryTokens;
    if cs != [] {
      AtIndex(ts, i, ItemsTokens(l, cs, ind), 0);
    }
  }

  lemma NoMoreItems(ts: seq<Token>, i: nat, ind: nat)
    requires i <= |ts| && Outside(Peek(ts, i), ind)
    ensures Answers(EntriesAt(ts, i, ind), true, [], i)
  {
  }

  /** The loop over items at a dash. */
  lemma ItemTaken(ts: seq<Token>, i: nat, ind: nat)
    requires i < |ts| && ts[i].kind.SequenceEntry? && ts[i].indent == ind
    ensures EntryAt(ts, i + 1, ind).Err? ==> EntriesAt(ts, i, ind).Err?
    ensures EntryAt(ts, i + 1, ind).Ok? ==>
              var (c, j) := EntryAt(ts, i + 1, ind).value;
              EntriesAt(ts, i, ind) == Carry([c], EntriesAt(ts, j, ind))
  {
    hide EntryAt;
    hide Carry;
  }

  lemma ItemsAnswer(r: Parsed<(seq<Node>, nat)>, v: Parsed<(Node, nat)>, others: Parsed<(seq<Node>, nat)>,
                    cs: seq<Node>, goodItem: bool, goodRest: bool, j: nat, next: nat)
    requires cs != [] && Answers(v, goodItem, cs[0], j)
    requires v.Err? ==> r.Err?
    requires v.Ok? ==> r == Carry([v.value.0], others)
    requires goodItem ==> Answers(others, goodRest, cs[1..], next)
    ensures Answers(r, goodItem && goodRest, cs, next)
  {
    assert cs == [cs[0]] + cs[1..];
    if v.Ok? && others.Ok? {
      assert r.value.0[0] == v.value.0 && r.value.0[1..] == others.value.0;
    }
  }

  function MoreItemsAt(ts: seq<Token>, v: Parsed<(Node, nat)>, ind: nat): Parsed<(seq<Node>, nat)>
    requires v.Ok? ==> v.value.1 <= |ts|
  {
    if v.Ok? then EntriesAt(ts, v.value.1, ind) else Ok(([], 0))
  }

  lemma {:induction false} ItemsParseBlock(l: Layout, ts: seq<Token>, i: nat, cs: seq<Node>, ind: nat)
    requires At(ts, i, ItemsTokens(l, cs, ind)) && Outside(Peek(ts, i + |ItemsTokens(l, cs, ind)|), ind)
    ensures var end := i + |ItemsTokens(l, cs, ind)|;
            && i <= |ts| && end <= |ts|
            && Answers(EntriesAt(ts, i, ind), SafeItems(l, cs, IsKeyAt(ts, end)), cs, end)
    decreases cs, 0
  {
    hide At;
    hide EntryAt;
    hide EntriesAt;
    hide EntryTokens;
    hide Outside;
    hide SafeItem;
    hide Answers;
    hide IsKeyAt;
    AtSlice(ts, i, ItemsTokens(l, cs, ind));
    if cs == [] {
      NoMoreItems(ts, i, ind);
    } else {
      var end := i + |ItemsTokens(l, cs, ind)|;
      var key := IsKeyAt(ts, end);
      ItemsSplit(l, ts, i, cs, ind);
      var next := i + 1 + |EntryTokens(l, cs[0], ind)|;
      AfterItem(l, ts, next, cs[1..], ind);
      ItemParsesBlock(l, ts, i + 1, cs[0], ind);
      ItemsParseBlock(l, ts, next, cs[1..], ind);
      ItemTaken(ts, i, ind);
      var v := EntryAt(ts, i + 1, ind);
      ValueEnds(v, SafeItem(l, cs[0], |cs| == 1 && key), cs[0], next);
      ItemsAnswer(EntriesAt(ts, i, ind), v, MoreItemsAt(ts, v, ind), cs,
                  SafeItem(l, cs[0], |cs| == 1 && key), SafeItems(l, cs[1..], key), next, end);
    }
  }

  lemma {:induction false} ItemParsesBlock(l: Layout, ts: seq<Token>, i: nat, n: Node, ind: nat)
    requires At(ts, i, EntryTokens(l, n, ind)) && Outside(Peek(ts, i + |EntryTokens(l, n, ind)|), ind + 1)
    ensures var end := i + |EntryTokens(l, n, ind)|;
            && i <= |ts| && end <= |ts|
            && Answers(EntryAt(ts, i, ind), SafeItem(l, n, IsKeyAt(ts, end)), n, end)
    decreases n, 3
  {
    hide At;
    hide PairsAt;
    hide EntriesAt;
    hide FlowValueAt;
    hide Tokens;
    hide SafePairs;
    hide SafeItems;
    hide LinesTokens;
    hide PairsTokens;
    AtSlice(ts, i, EntryTokens(l, n, ind));
    if OnOneLine(l, n) {
      LineParses(l, ts, i, n);
    } else if n.MappingNode? {
      InlinePairsParse(l, ts, i, n.pairs, ind);
    } else {
      LinesParse(l, ts, i, n, ind + 2, -1);
    }
  }

  /** Behind its first pair the loop takes the indentation of the second key for that of the mapping. */
  lemma IndentAdjusts(ts: seq<Token>, i: nat, ind: nat, key: nat)
    requires i <= |ts| && IsKeyAt(ts, i) && Peek(ts, i).indent == key > 0
    ensures PairsAt(ts, i, ind, 0, 1) == PairsAt(ts, i, ind, key, 1)
  {
    hide MappingValueAt;
    hide Carry;
  }

  /** A key of any indentation is taken into a mapping that has one pair behind a dash. */
  lemma KeySwallowed(ts: seq<Token>, i: nat, ind: nat)
    requires i <= |ts|
    ensures IsKeyAt(ts, i) && PairsAt(ts, i, ind, 0, 1).Ok? ==> PairsAt(ts, i, ind, 0, 1).value.0 != []
    ensures !IsKeyAt(ts, i) ==> PairsAt(ts, i, ind, 0, 1) == Ok(([], i))
  {
    hide MappingValueAt;
  }

  lemma {:induction false} InlinePairsParse(l: Layout, ts: seq<Token>, i: nat, ps: seq<Pair>, ind: nat)
    requires ps != [] && At(ts, i, PairsTokens(l, ps, ind + 2, 0))
    requires Outside(Peek(ts, i + |PairsTokens(l, ps, ind + 2, 0)|), ind + 1)
    ensures var end := i + |PairsTokens(l, ps, ind + 2, 0)|;
            && i < |ts| && end <= |ts| && ts[i].kind.MappingKey? && ts[i].indent == 0
            && Answers(PairsAt(ts, i, ind, 0, 0),
                       SafePairs(l, ps, IsKeyAt(ts, end)) && (|ps| == 1 ==> !IsKeyAt(ts, end)), ps, end)
    decreases ps, 1
  {
    hide At;
    hide MappingValueAt;
    hide PairsAt;
    hide ValueTokens;
    hide Safe;
    hide Answers;
    hide IsKeyAt;
    var end := i + |PairsTokens(l, ps, ind + 2, 0)|;
    var key := IsKeyAt(ts, end);
    PairsSplit(l, ts, i, ps, ind + 2, 0);
    var next := i + 1 + |ValueTokens(l, ps[0].value, ind + 2, false)|;
    AfterValue(l, ts, next, ps[1..], ind + 2);
    ValueParsesBlock(l, ts, i + 1, ps[0].value, ind + 2, 0, false);
    PairTaken(ts, i, ind, 0, 0, 0, ps[0].key);
    if |ps| > 1 {
      IndentAdjusts(ts, next, ind, ind + 2);
      PairsParseBlock(l, ts, next, ps[1..], ind + 2, ind, 1);
    } else {
      KeySwallowed(ts, next, ind);
      NoPairsAnswer(ts, next, ind, 0, 1, !key);
    }
    var v := MappingValueAt(ts, i + 1, 0);
    ValueEnds(v, Safe(l, ps[0].value, |ps| > 1 || key), ps[0].value, next);
    PairsAnswer(PairsAt(ts, i, ind, 0, 0), v, OthersAt(ts, v, ind, 0, 1), ps,
                Safe(l, ps[0].value, |ps| > 1 || key), SafePairs(l, ps[1..], key) && (|ps| == 1 ==> !key), next, end);
  }

  // ---- The round trip ---------------------------------------------------

  /** The tokens of a document parse to its tree exactly if it is safe. */
  lemma BlockDocumentParses(l: Layout, n: Node)
    ensures DocumentOf(DocumentTokens(l, n) + [EOF]) == Ok(n) <==> Safe(l, n, false)
  {
    hide At;
    hide PairsAt;
    hide EntriesAt;
    hide FlowValueAt;
    hide Tokens;
    hide LinesTokens;
    hide OnOneLine;
    hide Safe;
    var tokens := DocumentTokens(l, n);
    var ts := tokens + [EOF];
    AtMiddle([], tokens, [EOF]);
    assert [] + tokens + [EOF] == ts;
    if OnOneLine(l, n) {
      LineParses(l, ts, 0, n);
    } else {
      LinesParse(l, ts, 0, n, 0, -1);
    }
  }

  /** Every tree, with keys and scalars in any form that can hold them, block or flow collections, blanks around its
      colons and brackets, and blank lines and comments between and behind its lines, comes back from its print exactly
      if no mapping of one pair that is the last item of a block sequence has a key behind it. */
  lemma BlockRoundTripIffSafe(l: Layout, n: Node)
    requires Proper(l)
    ensures Load(Document(l, n)) == Ok(n) <==> Safe(l, n, false)
  {
    hide ScanFrom;
    hide DocumentOf;
    hide Document;
    hide Safe;
    BlockDocumentScans(l, n);
    BlockDocumentParses(l, n);
  }

  /** No item of a sequence is a mapping of one pair. */
  predicate NoLonePairs(n: Node)
    decreases n, 1
  {
    match n
    case ScalarNode(_) => true
    case SequenceNode(cs) => NoLoneItems(cs)
    case MappingNode(ps) => NoLoneValues(ps)
  }

  predicate NoLoneValues(ps: seq<Pair>)
    decreases ps, 0
  {
    ps != [] ==> NoLonePairs(ps[0].value) && NoLoneValues(ps[1..])
  }

  predicate NoLoneItems(cs: seq<Node>)
    decreases cs, 0
  {
    cs != [] ==> (cs[0].MappingNode? ==> |cs[0].pairs| != 1) && NoLonePairs(cs[0]) && NoLoneItems(cs[1..])
  }

  lemma {:induction false} NoLonePairsSafe(l: Layout, n: Node, key: bool)
    requires NoLonePairs(n)
    ensures Safe(l, n, key)
    decreases n, 1
  {
    match n
    case ScalarNode(_) =>
    case SequenceNode(cs) => NoLoneItemsSafe(l, cs, key);
    case MappingNode(ps) => NoLoneValuesSafe(l, ps, key);
  }

  lemma {:induction false} NoLoneValuesSafe(l: Layout, ps: seq<Pair>, key: bool)
    requires NoLoneValues(ps)
    ensures SafePairs(l, ps, key)
    decreases ps, 0
  {
    if ps != [] {
      NoLonePairsSafe(l, ps[0].value, |ps| > 1 || key);
      NoLoneValuesSafe(l, ps[1..], key);
    }
  }

  lemma {:induction false} NoLoneItemsSafe(l: Layout, cs: seq<Node>, key: bool)
    requires NoLoneItems(cs)
    ensures SafeItems(l, cs, key)
    decreases cs, 0
  {
    if cs != [] {
      NoLonePairsSafe(l, cs[0], |cs| == 1 && key);
      NoLoneItemsSafe(l, cs[1..], key);
    }
  }

  /** Without such items every tree comes back, in every layout. */
  lemma BlockRoundTrip(l: Layout, n: Node)
    requires Proper(l) && NoLonePairs(n)
    ensures Load(Document(l, n)) == Ok(n)
  {
    NoLonePairsSafe(l, n, false);
    hide Safe;
    hide Load;
    hide Document;
    BlockRoundTripIffSafe(l, n);
  }

  /** `outer` with the list `[{a: v}]` in front of `key: w`, and what is read instead. */
  function ListThenKey(outer: string, a: string, v: string, key: string, w: string): Node {
    MappingNode([Pair(outer, SequenceNode([MappingNode([Pair(a, ScalarNode(v))])])), Pair(key, ScalarNode(w))])
  }

  function KeyInItem(outer: string, a: string, v: string, key: string, w: string): Node {
    MappingNode([Pair(outer, SequenceNode([MappingNode([Pair(a, ScalarNode(v)), Pair(key, ScalarNode(w))])]))])
  }

  lemma ListThenKeyTokens(l: Layout, outer: string, a: string, v: string, key: string, w: string)
    requires !l.block.bare && forall n :: !l.inFlow(n)
    ensures DocumentTokens(l, ListThenKey(outer, a, v, key, w)) ==
            [Token(MappingKey, outer, 0), Token(SequenceEntry, "", 2), Token(MappingKey, a, 0), Token(Scalar, v, 0),
             Token(MappingKey, key, 0), Token(Scalar, w, 0)]
  {
    OnePairTokens(l, a, v, 4, 0);
    OnePairTokens(l, key, w, 0, 0);
    var item := MappingNode([Pair(a, ScalarNode(v))]);
    var list := SequenceNode([item]);
    assert list.children[1..] == [] && !OnOneLine(l, item) && !OnOneLine(l, list);
    assert EntryTokens(l, item, 2) == [Token(MappingKey, a, 0), Token(Scalar, v, 0)];
    assert ItemsTokens(l, list.children, 2) ==
           [Token(SequenceEntry, "", 2)] + (EntryTokens(l, item, 2) + ItemsTokens(l, [], 2));
    assert ValueTokens(l, list, 0, false) == ItemsTokens(l, list.children, 2);
    var ps := ListThenKey(outer, a, v, key, w).pairs;
    assert ps[1..] == [Pair(key, ScalarNode(w))];
    assert PairsTokens(l, ps, 0, 0) ==
           [Token(MappingKey, outer, 0)] + (ValueTokens(l, list, 0, false) + PairsTokens(l, ps[1..], 0, 0));
  }

  lemma OnePairTokens(l: Layout, k: string, v: string, ind: nat, first: nat)
    requires !l.block.bare && (first == ind || first == 0)
    ensures PairsTokens(l, [Pair(k, ScalarNode(v))], ind, first) == [Token(MappingKey, k, first), Token(Scalar, v, 0)]
  {
    var ps := [Pair(k, ScalarNode(v))];
    assert ps[1..] == [];
    assert PairsTokens(l, ps, ind, first) ==
           [Token(MappingKey, k, first)] + (ValueTokens(l, ScalarNode(v), ind, false) + PairsTokens(l, [], ind, ind));
  }

  /** A pair with a scalar in front of something that is no key. */
  lemma LastPair(ts: seq<Token>, i: nat, minIndent: int, mapIndent: nat, n: nat, k: string, v: string)
    requires i + 1 < |ts| && ts[i].kind.MappingKey? && ts[i].value == k && ts[i].indent == mapIndent
    requires ts[i + 1].kind.Scalar? && ts[i + 1].value == v && !IsKeyAt(ts, i + 2)
    ensures PairsAt(ts, i, minIndent, mapIndent, n) == Ok(([Pair(k, ScalarNode(v))], i + 2))
  {
    PairTaken(ts, i, minIndent, mapIndent, n, mapIndent, k);
    assert MappingValueAt(ts, i + 1, mapIndent) == Ok((ScalarNode(v), i + 2));
    assert PairsAt(ts, i + 2, minIndent, mapIndent, n + 1) == Ok(([], i + 2));
    assert [Pair(k, ScalarNode(v))] + [] == [Pair(k, ScalarNode(v))];
  }

  /** `outer:` LF `  - a: v` LF `key: w`, whatever the texts: the second key goes into the item of the list. */
  lemma NextKeyIsSwallowed(l: Layout, outer: string, a: string, v: string, key: string, w: string)
    requires Proper(l) && !l.block.bare && forall n :: !l.inFlow(n)
    ensures Load(Document(l, ListThenKey(outer, a, v, key, w))) == Ok(KeyInItem(outer, a, v, key, w))
  {
    hide ScanFrom;
    hide Document;
    hide DocumentTokens;
    hide Proper;
    var n := ListThenKey(outer, a, v, key, w);
    ListThenKeyTokens(l, outer, a, v, key, w);
    BlockDocumentScans(l, n);
    var ts := DocumentTokens(l, n) + [EOF];
    SwallowingTokens(ts, outer, a, v, key, w);
  }

  lemma SwallowingTokens(ts: seq<Token>, outer: string, a: string, v: string, key: string, w: string)
    requires ts == [Token(MappingKey, outer, 0), Token(SequenceEntry, "", 2), Token(MappingKey, a, 0),
                    Token(Scalar, v, 0), Token(MappingKey, key, 0), Token(Scalar, w, 0), EOF]
    ensures DocumentOf(ts) == Ok(KeyInItem(outer, a, v, key, w))
  {
    hide PairsAt;
    hide EntriesAt;
    var pairs := [Pair(a, ScalarNode(v)), Pair(key, ScalarNode(w))];
    LastPair(ts, 4, 2, 0, 1, key, w);
    PairTaken(ts, 2, 2, 0, 0, 0, a);
    assert [Pair(a, ScalarNode(v))] + [Pair(key, ScalarNode(w))] == pairs;
    assert PairsAt(ts, 2, 2, 0, 0) == Ok((pairs, 6));
    var item := MappingNode(pairs);
    assert EntryAt(ts, 2, 2) == Ok((item, 6));
    ItemTaken(ts, 1, 2);
    NoMoreItems(ts, 6, 2);
    assert [item] + [] == [item];
    assert BlockSequenceAt(ts, 1) == Ok((SequenceNode([item]), 6));
    PairTaken(ts, 0, -1, 0, 0, 0, outer);
    NoMorePairs(ts, 6, -1, 0, 1);
    assert [Pair(outer, SequenceNode([item]))] + [] == [Pair(outer, SequenceNode([item]))];
  }

  /** `- a:` LF `  b: v`, an item whose first key has nothing behind it. */
  function EmptyFirstValue(l: Layout, a: string, b: string, v: string): string {
    Front(l, 0) + ("- " + (KeyText(l.block, a) + (TailText(l) + PairLines(l, [Pair(b, ScalarNode(v))], 2))))
  }

  function EmptyFirstTokens(a: string, b: string, v: string): seq<Token> {
    [Token(SequenceEntry, "", 0)] +
      ([Token(MappingKey, a, 0)] + ([Token(MappingKey, b, 2), Token(Scalar, v, 0)] + [EOF]))
  }

  lemma EmptyFirstScans(l: Layout, a: string, b: string, v: string)
    requires Proper(l) && !l.block.bare
    ensures ScanFrom(EmptyFirstValue(l, a, b, v), 0, 0) == Ok(EmptyFirstTokens(a, b, v))
  {
    hide At;
    hide ScanFrom;
    hide Front;
    hide TailText;
    hide KeyText;
    hide PairLines;
    hide Proper;
    hide SkipInline;
    var s, ps := EmptyFirstValue(l, a, b, v), [Pair(b, ScalarNode(v))];
    var c := |Front(l, 0)| + 2;
    var m := c + |KeyText(l.block, a)|;
    var lines := PairLines(l, ps, 2);
    AtWhole(s);
    AtSplit(s, 0, Front(l, 0), "- " + (KeyText(l.block, a) + (TailText(l) + lines)));
    AtSplit(s, c - 2, "- ", KeyText(l.block, a) + (TailText(l) + lines));
    AtSplit(s, c, KeyText(l.block, a), TailText(l) + lines);
    AtSplit(s, m, TailText(l), lines);
    DashScans(l, s, 0, 0);
    TailBehindKey(l, s, m);
    InlineKeyScans(l, s, c, a);
    TailSkips(l, s, m);
    PairsScanBlock(l, s, m + |TailText(l)|, ps, 2);
    OnePairTokens(l, b, v, 2, 2);
    EndScans(s);
  }

  lemma TailBehindKey(l: Layout, s: string, m: nat)
    requires Proper(l) && At(s, m, TailText(l))
    ensures m < |s| && (IsInline(s[m]) || IsNewline(s[m]))
    ensures SkipInline(s, m) == m + |l.block.tail.blanks| <= |s|
  {
    hide At;
    hide FillerText;
    TailParts(s, m, l.block.tail);
    BlanksSkip(s, m, m + |l.block.tail.blanks|);
  }

  /** The other keys of the item become its value. */
  lemma EmptyFirstValueSwallows(l: Layout, a: string, b: string, v: string)
    requires Proper(l) && !l.block.bare
    ensures Load(EmptyFirstValue(l, a, b, v)) ==
            Ok(SequenceNode([MappingNode([Pair(a, MappingNode([Pair(b, ScalarNode(v))]))])]))
  {
    hide ScanFrom;
    hide EmptyFirstValue;
    hide PairsAt;
    hide EntriesAt;
    EmptyFirstScans(l, a, b, v);
    var ts := EmptyFirstTokens(a, b, v);
    var inner, outer := [Pair(b, ScalarNode(v))], [Pair(a, MappingNode([Pair(b, ScalarNode(v))]))];
    LastPair(ts, 2, 0, 2, 0, b, v);
    assert MappingValueAt(ts, 2, 0) == Ok((MappingNode(inner), 4));
    PairTaken(ts, 1, 0, 0, 0, 0, a);
    NoMorePairs(ts, 4, 0, 0, 1);
    assert outer + [] == outer;
    assert EntryAt(ts, 1, 0) == Ok((MappingNode(outer), 4));
    ItemTaken(ts, 0, 0);
    NoMoreItems(ts, 4, 0);
    assert [MappingNode(outer)] + [] == [MappingNode(outer)];
  }
}
