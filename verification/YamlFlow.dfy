/** Flow collections come back from their print (core/yaml/scanner.go, core/yaml/parser.go). */
module YamlFlow {
  import opened Wrappers
  import opened Sequences
  import opened YamlScanner
  import opened YamlText
  import opened YamlParser

  // ---- Printing ---------------------------------------------------------

  /** What stands behind a bracket that opens and behind a comma. */
  function Separator(st: Style): string {
    GapText(st.gap) + st.space
  }

  function Print(st: Style, n: Node): string
    decreases n, 2
  {
    match n
    case ScalarNode(v) => ScalarText(st, v)
    case SequenceNode(cs) => "[" + (Separator(st) + PrintItems(st, cs))
    case MappingNode(ps) => "{" + (Separator(st) + PrintPairs(st, ps))
  }

  /** A comma may stand behind the last item. */
  function LastComma(st: Style): string {
    if st.comma then "," + Separator(st) else ""
  }

  predicate LeftOut(st: Style, n: Node) {
    st.bare && n == ScalarNode("")
  }

  function PairValue(st: Style, n: Node): string
    decreases n, 3
  {
    if LeftOut(st, n) then "" else Print(st, n)
  }

  function PrintItems(st: Style, cs: seq<Node>): string
    decreases cs, 1
  {
    if cs == [] then "]" else Print(st, cs[0]) + (st.pad + PrintMoreItems(st, cs[1..]))
  }

  function PrintMoreItems(st: Style, cs: seq<Node>): string
    decreases cs, 0
  {
    if cs == [] then LastComma(st) + "]"
    else "," + (Separator(st) + (Print(st, cs[0]) + (st.pad + PrintMoreItems(st, cs[1..]))))
  }

  function PrintPairs(st: Style, ps: seq<Pair>): string
    decreases ps, 2
  {
    if ps == [] then "}" else PrintPair(st, ps)
  }

  /** The first pair and what follows it. */
  function PrintPair(st: Style, ps: seq<Pair>): string
    requires ps != []
    decreases ps, 1
  {
    KeyText(st, ps[0].key) + (st.space + (PairValue(st, ps[0].value) + (st.pad + PrintMorePairs(st, ps[1..]))))
  }

  function PrintMorePairs(st: Style, ps: seq<Pair>): string
    decreases ps, 2
  {
    if ps == [] then LastComma(st) + "}" else "," + (Separator(st) + PrintPair(st, ps))
  }

  // ---- The tokens in between --------------------------------------------

  function Bracket(kind: Kind): seq<Token> {
    [Token(kind, "", 0)]
  }

  function CommaTokens(st: Style): seq<Token> {
    if st.comma then Bracket(FlowComma) else []
  }

  function Tokens(st: Style, n: Node): (ts: seq<Token>)
    ensures ts != []
    decreases n, 2
  {
    match n
    case ScalarNode(v) => [Token(Scalar, v, 0)]
    case SequenceNode(cs) => Bracket(FlowSequenceStart) + ItemTokens(st, cs)
    case MappingNode(ps) => Bracket(FlowMappingStart) + PairTokens(st, ps)
  }

  function ItemTokens(st: Style, cs: seq<Node>): (ts: seq<Token>)
    ensures ts != []
    decreases cs, 1
  {
    if cs == [] then Bracket(FlowSequenceEnd) else Tokens(st, cs[0]) + MoreItemTokens(st, cs[1..])
  }

  function MoreItemTokens(st: Style, cs: seq<Node>): (ts: seq<Token>)
    ensures ts != []
    decreases cs, 0
  {
    if cs == [] then CommaTokens(st) + Bracket(FlowSequenceEnd)
    else Bracket(FlowComma) + (Tokens(st, cs[0]) + MoreItemTokens(st, cs[1..]))
  }

  function PairValueTokens(st: Style, n: Node): seq<Token>
    decreases n, 3
  {
    if LeftOut(st, n) then [] else Tokens(st, n)
  }

  function FirstPairTokens(st: Style, ps: seq<Pair>): (ts: seq<Token>)
    requires ps != []
    ensures ts != []
    decreases ps, 0
  {
    [Token(MappingKey, ps[0].key, 0)] + (PairValueTokens(st, ps[0].value) + MorePairTokens(st, ps[1..]))
  }

  function PairTokens(st: Style, ps: seq<Pair>): (ts: seq<Token>)
    ensures ts != []
    decreases ps, 2
  {
    if ps == [] then Bracket(FlowMappingEnd) else FirstPairTokens(st, ps)
  }

  function MorePairTokens(st: Style, ps: seq<Pair>): (ts: seq<Token>)
    ensures ts != []
    decreases ps, 1
  {
    if ps == [] then CommaTokens(st) + Bracket(FlowMappingEnd) else Bracket(FlowComma) + FirstPairTokens(st, ps)
  }

  // ---- Scanning one token -----------------------------------------------

  /** One token of a flow collection. */
  lemma Step(s: string, i: nat, d: nat, tok: Token, next: nat)
    requires d > 0 && i <= |s| && FlowTokenAt(s, i) == Ok((tok, next)) && !tok.kind.Eof?
    ensures next <= |s| && ScanFrom(s, i, d) == Prepend([tok], ScanFrom(s, next, DepthAfter(d, tok.kind)))
  {
  }

  predicate IsBracket(c: char) {
    c == '[' || c == ']' || c == '{' || c == '}' || c == ','
  }

  function KindOf(c: char): Kind {
    match c
    case '[' => FlowSequenceStart
    case ']' => FlowSequenceEnd
    case '{' => FlowMappingStart
    case '}' => FlowMappingEnd
    case _ => FlowComma
  }

  lemma BracketStep(s: string, i: nat, d: nat)
    requires d > 0 && i < |s| && IsBracket(s[i])
    ensures ScanFrom(s, i, d) == Prepend(Bracket(KindOf(s[i])), ScanFrom(s, i + 1, DepthAfter(d, KindOf(s[i]))))
  {
    Step(s, i, d, Token(KindOf(s[i]), "", 0), i + 1);
  }

  // ---- Blanks and comments between flow tokens --------------------------

  lemma SameFlowBlank(s: string, i: nat, j: nat, d: nat)
    requires d > 0 && i <= |s| && j <= |s| && SkipFlowBlank(s, i) == SkipFlowBlank(s, j)
    ensures ScanFrom(s, i, d) == ScanFrom(s, j, d)
  {
    assert FlowTokenAt(s, i) == FlowTokenAt(s, j);
    hide FlowTokenAt;
  }

  lemma {:induction false} FlowBlanksSkip(s: string, i: nat, j: nat)
    requires i <= j <= |s| && forall k :: i <= k < j ==> IsInline(s[k])
    ensures SkipFlowBlank(s, i) == SkipFlowBlank(s, j)
    decreases j - i
  {
    if i < j {
      FlowBlanksSkip(s, i + 1, j);
    }
  }

  lemma FlowFillerSkips(s: string, i: nat, f: Filler)
    requires At(s, i, FillerText(f)) && IsFiller(f)
    ensures i + |FillerText(f)| <= |s| && SkipFlowBlank(s, i) == SkipFlowBlank(s, i + |FillerText(f)|)
  {
    hide At;
    hide FillerText;
    FillerParts(s, i, f);
    var c, e := i + |f.blanks|, i + |FillerText(f)| - 1;
    FlowBlanksSkip(s, i, c);
    CommentOrBreakSkips(s, c, e);
  }

  lemma CommentOrBreakSkips(s: string, c: nat, e: nat)
    requires c <= e < |s| && s[e] == '\n'
    requires c == e || (s[c] == '\r' && c + 1 == e) || (s[c] == '#' && SkipToEol(s, c) == e)
    ensures SkipFlowBlank(s, c) == SkipFlowBlank(s, e + 1)
  {
    hide SkipToEol;
    assert SkipFlowBlank(s, e) == SkipFlowBlank(s, e + 1);
  }

  lemma {:induction false} FlowGapSkips(s: string, i: nat, gap: seq<Filler>)
    requires At(s, i, GapText(gap)) && AllFillers(gap)
    ensures i + |GapText(gap)| <= |s| && SkipFlowBlank(s, i) == SkipFlowBlank(s, i + |GapText(gap)|)
    decreases gap
  {
    hide At;
    hide FillerText;
    hide SkipFlowBlank;
    hide IsFiller;
    AtBound(s, i, GapText(gap));
    if gap != [] {
      AtSplit(s, i, FillerText(gap[0]), GapText(gap[1..]));
      FlowFillerSkips(s, i, gap[0]);
      FlowGapSkips(s, i + |FillerText(gap[0])|, gap[1..]);
    }
  }

  lemma SeparatorSkips(st: Style, s: string, i: nat, d: nat)
    requires Fits(st, true) && d > 0 && At(s, i, Separator(st))
    ensures i + |Separator(st)| <= |s| && ScanFrom(s, i, d) == ScanFrom(s, i + |Separator(st)|, d)
  {
    hide At;
    hide GapText;
    hide SkipFlowBlank;
    hide ScanFrom;
    AtBound(s, i, Separator(st));
    AtSplit(s, i, GapText(st.gap), st.space);
    FlowGapSkips(s, i, st.gap);
    var j := i + |GapText(st.gap)|;
    forall k | j <= k < j + |st.space| ensures IsInline(s[k]) {
      AtIndex(s, j, st.space, k - j);
    }
    FlowBlanksSkip(s, j, j + |st.space|);
    SameFlowBlank(s, i, j + |st.space|, d);
  }

  lemma BlanksBetween(s: string, i: nat, j: nat, d: nat)
    requires d > 0 && BlanksTo(s, i, j)
    ensures ScanFrom(s, i, d) == ScanFrom(s, j, d)
  {
    hide ScanFrom;
    hide SkipFlowBlank;
    FlowBlanksSkip(s, i, j);
    SameFlowBlank(s, i, j, d);
  }

  /** A comma or a bracket that opens, and what separates it from the next token. */
  lemma BracketAndSeparator(st: Style, s: string, i: nat, d: nat)
    requires Fits(st, true) && d > 0 && i < |s| && (s[i] == ',' || s[i] == '[' || s[i] == '{')
    requires At(s, i + 1, Separator(st))
    ensures i + 1 + |Separator(st)| <= |s|
    ensures ScanFrom(s, i, d) ==
            Prepend(Bracket(KindOf(s[i])), ScanFrom(s, i + 1 + |Separator(st)|, DepthAfter(d, KindOf(s[i]))))
  {
    hide ScanFrom;
    hide Separator;
    BracketStep(s, i, d);
    SeparatorSkips(st, s, i + 1, DepthAfter(d, KindOf(s[i])));
  }

  lemma ScalarStep(st: Style, s: string, i: nat, j: nat, d: nat, v: string)
    requires Fits(st, true) && d > 0
    requires At(s, i, ScalarText(st, v)) && BlanksTo(s, i + |ScalarText(st, v)|, j) && IsBracket(s[j])
    ensures ScanFrom(s, i, d) == Prepend([Token(Scalar, v, 0)], ScanFrom(s, j, d))
  {
    FlowScalarReads(s, i, v, st.text(v), j);
    hide Shown;
    hide FlowTokenAt;
    Step(s, i, d, Token(Scalar, v, 0), j);
  }

  /** A key, its colon and the blanks behind it. */
  lemma KeyStep(st: Style, s: string, i: nat, d: nat, k: string, blanks: string)
    requires Fits(st, true) && d > 0 && AllBlank(blanks) && blanks != "" && At(s, i, KeyText(st, k) + blanks)
    requires var j := i + |KeyText(st, k)| + |blanks|; j < |s| && !IsInline(s[j])
    ensures ScanFrom(s, i, d) == Prepend([Token(MappingKey, k, 0)], ScanFrom(s, i + |KeyText(st, k)| + |blanks|, d))
  {
    hide At;
    hide Shown;
    hide FlowTokenAt;
    hide ScanFrom;
    var t := Shown(k, st.key(k));
    var j, m := i + |t| + |st.pad|, i + |KeyText(st, k)|;
    AtSplit(s, i, KeyText(st, k), blanks);
    AtSplit(s, i, t, st.pad + ":");
    AtSplit(s, i + |t|, st.pad, ":");
    AtIndex(s, j, ":", 0);
    AtIndex(s, m, blanks, 0);
    BlanksAt(s, i + |t|, st.pad);
    BlanksAt(s, m, blanks);
    FlowKeyReads(s, i, k, st.key(k), j);
    Step(s, i, d, Token(MappingKey, k, 0), m + |blanks|);
  }

  // ---- Scanning what was printed ----------------------------------------

  lemma PrintStarts(st: Style, n: Node)
    requires Fits(st, true)
    ensures Print(st, n) != "" && StartsToken(Print(st, n)[0])
  {
    if n.ScalarNode? {
      ShownStarts(n.value, st.text(n.value), InFlow);
    }
  }

  lemma MoreItemsStart(st: Style, cs: seq<Node>)
    ensures PrintMoreItems(st, cs) != "" && IsBracket(PrintMoreItems(st, cs)[0])
  {
  }

  lemma MorePairsStart(st: Style, ps: seq<Pair>)
    ensures PrintMorePairs(st, ps) != "" && IsBracket(PrintMorePairs(st, ps)[0])
  {
  }

  /** A value and the blanks behind it, up to `j`. */
  lemma {:induction false} ValueScans(st: Style, s: string, i: nat, j: nat, d: nat, n: Node)
    requires Fits(st, true) && d > 0
    requires At(s, i, Print(st, n)) && BlanksTo(s, i + |Print(st, n)|, j) && IsBracket(s[j])
    ensures i <= |s| && ScanFrom(s, i, d) == Prepend(Tokens(st, n), ScanFrom(s, j, d))
    decreases n, 2
  {
    hide At;
    hide ScanFrom;
    hide Fits;
    if n.ScalarNode? {
      AtBound(s, i, Print(st, n));
      ScalarStep(st, s, i, j, d, n.value);
    } else {
      CollectionScans(st, s, i, d, n);
      BlanksBetween(s, i + |Print(st, n)|, j, d);
    }
  }

  lemma {:induction false} CollectionScans(st: Style, s: string, i: nat, d: nat, n: Node)
    requires Fits(st, true) && d > 0 && !n.ScalarNode? && At(s, i, Print(st, n))
    ensures i + |Print(st, n)| <= |s|
    ensures ScanFrom(s, i, d) == Prepend(Tokens(st, n), ScanFrom(s, i + |Print(st, n)|, d))
    decreases n, 1
  {
    hide At;
    hide ScanFrom;
    hide Fits;
    hide Separator;
    var open := if n.SequenceNode? then "[" else "{";
    var inner := if n.SequenceNode? then PrintItems(st, n.children) else PrintPairs(st, n.pairs);
    AtBound(s, i, Print(st, n));
    AtSplit(s, i, open, Separator(st) + inner);
    AtSplit(s, i + 1, Separator(st), inner);
    AtIndex(s, i, open, 0);
    BracketAndSeparator(st, s, i, d);
    var end := ScanFrom(s, i + |Print(st, n)|, d);
    InnerScans(st, s, i + 1 + |Separator(st)|, d + 1, n);
    PrependPrepend(Bracket(KindOf(s[i])), InnerTokens(st, n), end);
  }

  function InnerTokens(st: Style, n: Node): seq<Token> {
    match n
    case ScalarNode(_) => []
    case SequenceNode(cs) => ItemTokens(st, cs)
    case MappingNode(ps) => PairTokens(st, ps)
  }

  /** What stands between the brackets of a collection, and the bracket that closes. */
  lemma {:induction false} InnerScans(st: Style, s: string, i: nat, d: nat, n: Node)
    requires Fits(st, true) && d > 0 && !n.ScalarNode?
    requires At(s, i, if n.SequenceNode? then PrintItems(st, n.children) else PrintPairs(st, n.pairs))
    ensures var j := i + if n.SequenceNode? then |PrintItems(st, n.children)| else |PrintPairs(st, n.pairs)|;
            j <= |s| && ScanFrom(s, i, d) == Prepend(InnerTokens(st, n), ScanFrom(s, j, d - 1))
    decreases n, 0
  {
    hide At;
    hide ScanFrom;
    match n
    case SequenceNode(cs) => ItemsScan(st, s, i, d, cs);
    case MappingNode(ps) => PairsScan(st, s, i, d, ps);
  }

  /** One item, the blanks behind it and what follows. */
  lemma {:induction false} ItemScans(st: Style, s: string, i: nat, d: nat, cs: seq<Node>)
    requires Fits(st, true) && d > 0 && cs != []
    requires At(s, i, Print(st, cs[0]) + (st.pad + PrintMoreItems(st, cs[1..])))
    ensures var end := i + |Print(st, cs[0])| + |st.pad| + |PrintMoreItems(st, cs[1..])|;
            && end <= |s|
            && ScanFrom(s, i, d) == Prepend(Tokens(st, cs[0]) + MoreItemTokens(st, cs[1..]), ScanFrom(s, end, d - 1))
    decreases cs, 0
  {
    hide At;
    hide ScanFrom;
    hide Fits;
    hide Print;
    hide PrintMoreItems;
    hide Tokens;
    hide MoreItemTokens;
    hide Prepend;
    hide StartsToken;
    hide BlanksTo;
    hide IsBracket;
    var a, m := Print(st, cs[0]), PrintMoreItems(st, cs[1..]);
    AtBound(s, i, a + (st.pad + m));
    var end := i + |a| + |st.pad| + |m|;
    AtSplit(s, i, a, st.pad + m);
    AtSplit(s, i + |a|, st.pad, m);
    MoreItemsStart(st, cs[1..]);
    AtIndex(s, i + |a| + |st.pad|, m, 0);
    PadEnds(st, s, i + |a|);
    ValueScans(st, s, i, i + |a| + |st.pad|, d, cs[0]);
    MoreItemsScan(st, s, i + |a| + |st.pad|, d, cs[1..]);
    PrependPrepend(Tokens(st, cs[0]), MoreItemTokens(st, cs[1..]), ScanFrom(s, end, d - 1));
  }

  /** The blanks behind a value end at the bracket or comma. */
  lemma PadEnds(st: Style, s: string, i: nat)
    requires Fits(st, true) && At(s, i, st.pad) && i + |st.pad| < |s| && IsBracket(s[i + |st.pad|])
    ensures BlanksTo(s, i, i + |st.pad|)
  {
    BlanksAt(s, i, st.pad);
  }

  lemma {:induction false} ItemsScan(st: Style, s: string, i: nat, d: nat, cs: seq<Node>)
    requires Fits(st, true) && d > 0 && At(s, i, PrintItems(st, cs))
    ensures i + |PrintItems(st, cs)| <= |s|
    ensures ScanFrom(s, i, d) == Prepend(ItemTokens(st, cs), ScanFrom(s, i + |PrintItems(st, cs)|, d - 1))
    decreases cs, 1
  {
    hide At;
    hide ScanFrom;
    hide Fits;
    if cs == [] {
      AtIndex(s, i, "]", 0);
      BracketStep(s, i, d);
    } else {
      ItemScans(st, s, i, d, cs);
    }
  }

  lemma {:induction false} MoreItemsScan(st: Style, s: string, i: nat, d: nat, cs: seq<Node>)
    requires Fits(st, true) && d > 0 && At(s, i, PrintMoreItems(st, cs))
    ensures i + |PrintMoreItems(st, cs)| <= |s|
    ensures ScanFrom(s, i, d) == Prepend(MoreItemTokens(st, cs), ScanFrom(s, i + |PrintMoreItems(st, cs)|, d - 1))
    decreases cs, 1
  {
    hide At;
    hide ScanFrom;
    hide Fits;
    hide Separator;
    AtBound(s, i, PrintMoreItems(st, cs));
    AtIndex(s, i, PrintMoreItems(st, cs), 0);
    if cs == [] {
      LastCommaScans(st, s, i, d, ']');
    } else {
      var rest := Print(st, cs[0]) + (st.pad + PrintMoreItems(st, cs[1..]));
      AtSplit(s, i, ",", Separator(st) + rest);
      AtSplit(s, i + 1, Separator(st), rest);
      BracketAndSeparator(st, s, i, d);
      ItemScans(st, s, i + 1 + |Separator(st)|, d, cs);
      PrependPrepend(Bracket(FlowComma), Tokens(st, cs[0]) + MoreItemTokens(st, cs[1..]),
                     ScanFrom(s, i + |PrintMoreItems(st, cs)|, d - 1));
    }
  }

  /** The key and the value of a pair with the blanks around them, up to what follows. */
  lemma {:induction false} KeyAndValueScan(st: Style, s: string, i: nat, d: nat, p: Pair)
    requires Fits(st, true) && d > 0
    requires At(s, i, KeyText(st, p.key) + (st.space + (PairValue(st, p.value) + st.pad)))
    requires var e := i + |KeyText(st, p.key)| + |st.space| + |PairValue(st, p.value)| + |st.pad|;
             e < |s| && IsBracket(s[e])
    ensures var e := i + |KeyText(st, p.key)| + |st.space| + |PairValue(st, p.value)| + |st.pad|;
            ScanFrom(s, i, d) ==
            Prepend([Token(MappingKey, p.key, 0)], Prepend(PairValueTokens(st, p.value), ScanFrom(s, e, d)))
    decreases p, 0
  {
    hide At;
    hide ScanFrom;
    hide KeyText;
    hide Print;
    hide Tokens;
    var k, a := KeyText(st, p.key), PairValue(st, p.value);
    var j := i + |k| + |st.space|;
    AtSplit(s, i, k, st.space + (a + st.pad));
    AtSplit(s, i + |k|, st.space, a + st.pad);
    AtSplit(s, j, a, st.pad);
    AtSplit(s, i, k, st.space);
    if LeftOut(st, p.value) {
      AtSplit(s, i + |k|, st.space, st.pad);
      AtSplit(s, i, k, st.space + st.pad);
      KeyStep(st, s, i, d, p.key, st.space + st.pad);
      PrependPrepend([], [], ScanFrom(s, j + |st.pad|, d));
    } else {
      PrintStarts(st, p.value);
      AtIndex(s, j, a, 0);
      KeyStep(st, s, i, d, p.key, st.space);
      PadEnds(st, s, j + |a|);
      ValueScans(st, s, j, j + |a| + |st.pad|, d, p.value);
    }
  }

  /** One pair, with what follows it. */
  lemma {:induction false} PairScans(st: Style, s: string, i: nat, d: nat, ps: seq<Pair>)
    requires Fits(st, true) && d > 0 && ps != [] && At(s, i, PrintPair(st, ps))
    ensures i + |PrintPair(st, ps)| <= |s|
    ensures ScanFrom(s, i, d) == Prepend(FirstPairTokens(st, ps), ScanFrom(s, i + |PrintPair(st, ps)|, d - 1))
    decreases ps, 0
  {
    hide At;
    hide ScanFrom;
    hide Fits;
    hide KeyText;
    hide PairValue;
    hide PairValueTokens;
    hide PrintMorePairs;
    hide MorePairTokens;
    hide Prepend;
    hide IsBracket;
    hide IsInline;
    var k, a, m := KeyText(st, ps[0].key), PairValue(st, ps[0].value), PrintMorePairs(st, ps[1..]);
    var front := k + (st.space + (a + st.pad));
    AtBound(s, i, PrintPair(st, ps));
    PairRegroups(k, st.space, a, st.pad, m);
    AtSplit(s, i, front, m);
    MorePairsStart(st, ps[1..]);
    AtIndex(s, i + |front|, m, 0);
    KeyAndValueScan(st, s, i, d, ps[0]);
    MorePairsScan(st, s, i + |front|, d, ps[1..]);
    var end := ScanFrom(s, i + |PrintPair(st, ps)|, d - 1);
    PrependPrepend(PairValueTokens(st, ps[0].value), MorePairTokens(st, ps[1..]), end);
    var key := [Token(MappingKey, ps[0].key, 0)];
    PrependPrepend(key, PairValueTokens(st, ps[0].value) + MorePairTokens(st, ps[1..]), end);
  }

  lemma PairRegroups(k: string, space: string, a: string, pad: string, m: string)
    ensures k + (space + (a + (pad + m))) == (k + (space + (a + pad))) + m
  {
  }

  /** The comma that may stand behind the last item, and the bracket that closes. */
  lemma LastCommaScans(st: Style, s: string, i: nat, d: nat, close: char)
    requires Fits(st, true) && d > 0 && (close == ']' || close == '}') && At(s, i, LastComma(st) + [close])
    ensures var j := i + |LastComma(st)| + 1;
            && j <= |s|
            && ScanFrom(s, i, d) == Prepend(CommaTokens(st) + Bracket(KindOf(close)), ScanFrom(s, j, d - 1))
  {
    hide At;
    hide ScanFrom;
    hide Separator;
    hide Fits;
    var m := i + |LastComma(st)|;
    AtSplit(s, i, LastComma(st), [close]);
    AtIndex(s, m, [close], 0);
    BracketStep(s, m, d);
    if st.comma {
      AtSplit(s, i, ",", Separator(st));
      AtIndex(s, i, ",", 0);
      BracketAndSeparator(st, s, i, d);
      PrependPrepend(Bracket(FlowComma), Bracket(KindOf(close)), ScanFrom(s, m + 1, d - 1));
    } else {
      assert [] + Bracket(KindOf(close)) == Bracket(KindOf(close));
    }
  }

  lemma {:induction false} PairsScan(st: Style, s: string, i: nat, d: nat, ps: seq<Pair>)
    requires Fits(st, true) && d > 0 && At(s, i, PrintPairs(st, ps))
    ensures i + |PrintPairs(st, ps)| <= |s|
    ensures ScanFrom(s, i, d) == Prepend(PairTokens(st, ps), ScanFrom(s, i + |PrintPairs(st, ps)|, d - 1))
    decreases ps, 1
  {
    hide At;
    hide ScanFrom;
    hide Fits;
    hide PrintPair;
    if ps == [] {
      AtIndex(s, i, "}", 0);
      BracketStep(s, i, d);
    } else {
      PairScans(st, s, i, d, ps);
    }
  }

  lemma {:induction false} MorePairsScan(st: Style, s: string, i: nat, d: nat, ps: seq<Pair>)
    requires Fits(st, true) && d > 0 && At(s, i, PrintMorePairs(st, ps))
    ensures i + |PrintMorePairs(st, ps)| <= |s|
    ensures ScanFrom(s, i, d) == Prepend(MorePairTokens(st, ps), ScanFrom(s, i + |PrintMorePairs(st, ps)|, d - 1))
    decreases ps, 1
  {
    hide At;
    hide ScanFrom;
    hide Fits;
    hide PrintPair;
    hide Separator;
    AtBound(s, i, PrintMorePairs(st, ps));
    AtIndex(s, i, PrintMorePairs(st, ps), 0);
    if ps == [] {
      LastCommaScans(st, s, i, d, '}');
    } else {
      AtSplit(s, i, ",", Separator(st) + PrintPair(st, ps));
      AtSplit(s, i + 1, Separator(st), PrintPair(st, ps));
      BracketAndSeparator(st, s, i, d);
      PairScans(st, s, i + 1 + |Separator(st)|, d, ps);
      PrependPrepend(Bracket(FlowComma), FirstPairTokens(st, ps), ScanFrom(s, i + |PrintMorePairs(st, ps)|, d - 1));
    }
  }

  // ---- Parsing the tokens -----------------------------------------------

  lemma TokensStart(st: Style, n: Node)
    ensures var kind := Tokens(st, n)[0].kind; kind.Scalar? || kind.FlowSequenceStart? || kind.FlowMappingStart?
  {
  }

  lemma {:induction false} ValueParses(st: Style, ts: seq<Token>, i: nat, n: Node)
    requires At(ts, i, Tokens(st, n))
    ensures i + |Tokens(st, n)| <= |ts| && FlowValueAt(ts, i) == Ok((n, i + |Tokens(st, n)|))
    decreases n, 2
  {
    hide At;
    AtIndex(ts, i, Tokens(st, n), 0);
    match n
    case ScalarNode(v) =>
    case SequenceNode(cs) =>
      AtSplit(ts, i, Bracket(FlowSequenceStart), ItemTokens(st, cs));
      ItemsParse(st, ts, i + 1, cs);
    case MappingNode(ps) =>
      AtSplit(ts, i, Bracket(FlowMappingStart), PairTokens(st, ps));
      PairsParse(st, ts, i + 1, ps);
  }

  /** The loop over items at a value. */
  lemma FlowItemTaken(ts: seq<Token>, i: nat, n: Node, j: nat)
    requires i < |ts| && (ts[i].kind.Scalar? || ts[i].kind.FlowSequenceStart? || ts[i].kind.FlowMappingStart?)
    requires j <= |ts| && FlowValueAt(ts, i) == Ok((n, j))
    ensures FlowItemsAt(ts, i) == Carry([n], FlowItemsAt(ts, j))
  {
    hide FlowValueAt;
    hide Carry;
  }

  lemma CommaSkips(ts: seq<Token>, i: nat)
    requires i < |ts| && ts[i].kind.FlowComma?
    ensures FlowItemsAt(ts, i) == FlowItemsAt(ts, i + 1) && FlowPairsAt(ts, i) == FlowPairsAt(ts, i + 1)
  {
    hide FlowValueAt;
  }

  lemma CollectionEnds(ts: seq<Token>, i: nat)
    requires i < |ts|
    ensures ts[i].kind.FlowSequenceEnd? ==> FlowItemsAt(ts, i) == Ok(([], i + 1))
    ensures ts[i].kind.FlowMappingEnd? ==> FlowPairsAt(ts, i) == Ok(([], i + 1))
  {
  }

  /** One item, with what follows it. */
  lemma {:induction false} ItemParses(st: Style, ts: seq<Token>, i: nat, cs: seq<Node>)
    requires cs != [] && At(ts, i, Tokens(st, cs[0]) + MoreItemTokens(st, cs[1..]))
    ensures var end := i + |Tokens(st, cs[0]) + MoreItemTokens(st, cs[1..])|;
            i <= |ts| && end <= |ts| && FlowItemsAt(ts, i) == Ok((cs, end))
    decreases cs, 0
  {
    hide At;
    hide Tokens;
    hide MoreItemTokens;
    hide FlowItemsAt;
    var a, m := Tokens(st, cs[0]), MoreItemTokens(st, cs[1..]);
    AtBound(ts, i, a + m);
    AtSplit(ts, i, a, m);
    AtIndex(ts, i, a, 0);
    TokensStart(st, cs[0]);
    ValueParses(st, ts, i, cs[0]);
    MoreItemsParse(st, ts, i + |a|, cs[1..]);
    FlowItemTaken(ts, i, cs[0], i + |a|);
    assert [cs[0]] + cs[1..] == cs;
  }

  lemma {:induction false} ItemsParse(st: Style, ts: seq<Token>, i: nat, cs: seq<Node>)
    requires At(ts, i, ItemTokens(st, cs))
    ensures i + |ItemTokens(st, cs)| <= |ts| && FlowItemsAt(ts, i) == Ok((cs, i + |ItemTokens(st, cs)|))
    decreases cs, 1
  {
    hide At;
    hide FlowItemsAt;
    AtBound(ts, i, ItemTokens(st, cs));
    if cs == [] {
      AtIndex(ts, i, ItemTokens(st, cs), 0);
      CollectionEnds(ts, i);
    } else {
      ItemParses(st, ts, i, cs);
    }
  }

  /** The comma behind the last item is skipped. */
  lemma LastCommaParses(st: Style, ts: seq<Token>, i: nat, end: Kind)
    requires (end.FlowSequenceEnd? || end.FlowMappingEnd?) && At(ts, i, CommaTokens(st) + Bracket(end))
    ensures i + |CommaTokens(st)| + 1 <= |ts|
    ensures end.FlowSequenceEnd? ==> FlowItemsAt(ts, i) == Ok(([], i + |CommaTokens(st)| + 1))
    ensures end.FlowMappingEnd? ==> FlowPairsAt(ts, i) == Ok(([], i + |CommaTokens(st)| + 1))
  {
    hide At;
    hide FlowItemsAt;
    hide FlowPairsAt;
    var m := i + |CommaTokens(st)|;
    AtSplit(ts, i, CommaTokens(st), Bracket(end));
    AtIndex(ts, m, Bracket(end), 0);
    CollectionEnds(ts, m);
    if st.comma {
      AtIndex(ts, i, CommaTokens(st), 0);
      CommaSkips(ts, i);
    }
  }

  lemma {:induction false} MoreItemsParse(st: Style, ts: seq<Token>, i: nat, cs: seq<Node>)
    requires At(ts, i, MoreItemTokens(st, cs))
    ensures i + |MoreItemTokens(st, cs)| <= |ts| && FlowItemsAt(ts, i) == Ok((cs, i + |MoreItemTokens(st, cs)|))
    decreases cs, 1
  {
    hide At;
    hide FlowItemsAt;
    AtBound(ts, i, MoreItemTokens(st, cs));
    if cs == [] {
      LastCommaParses(st, ts, i, FlowSequenceEnd);
    } else {
      AtIndex(ts, i, MoreItemTokens(st, cs), 0);
      AtSplit(ts, i, Bracket(FlowComma), Tokens(st, cs[0]) + MoreItemTokens(st, cs[1..]));
      CommaSkips(ts, i);
      ItemParses(st, ts, i + 1, cs);
    }
  }

  /** The loop over pairs at a key: a value, or nothing in front of a comma or the brace that closes. */
  lemma FlowPairTaken(ts: seq<Token>, i: nat, n: Node, j: nat)
    requires i + 1 < |ts| && ts[i].kind.MappingKey? && j <= |ts|
    requires if ts[i + 1].kind.FlowComma? || ts[i + 1].kind.FlowMappingEnd? then n == ScalarNode("") && j == i + 1
             else FlowValueAt(ts, i + 1) == Ok((n, j))
    ensures FlowPairsAt(ts, i) == Carry([Pair(ts[i].value, n)], FlowPairsAt(ts, j))
  {
    hide FlowValueAt;
    hide Carry;
  }

  lemma MorePairTokensStart(st: Style, ps: seq<Pair>)
    ensures MorePairTokens(st, ps)[0].kind.FlowComma? || MorePairTokens(st, ps)[0].kind.FlowMappingEnd?
  {
  }

  /** One pair, with what follows it. */
  lemma {:induction false} PairParses(st: Style, ts: seq<Token>, i: nat, ps: seq<Pair>)
    requires ps != [] && At(ts, i, FirstPairTokens(st, ps))
    ensures i + |FirstPairTokens(st, ps)| <= |ts| && FlowPairsAt(ts, i) == Ok((ps, i + |FirstPairTokens(st, ps)|))
    decreases ps, 0
  {
    hide At;
    hide Tokens;
    hide MorePairTokens;
    hide FlowPairsAt;
    var key, a, m := [Token(MappingKey, ps[0].key, 0)], PairValueTokens(st, ps[0].value), MorePairTokens(st, ps[1..]);
    AtBound(ts, i, FirstPairTokens(st, ps));
    AtSplit(ts, i, key, a + m);
    AtSplit(ts, i + 1, a, m);
    AtIndex(ts, i, key, 0);
    MorePairTokensStart(st, ps[1..]);
    AtIndex(ts, i + 1 + |a|, m, 0);
    if !LeftOut(st, ps[0].value) {
      AtIndex(ts, i + 1, a, 0);
      TokensStart(st, ps[0].value);
      ValueParses(st, ts, i + 1, ps[0].value);
    }
    MorePairsParse(st, ts, i + 1 + |a|, ps[1..]);
    FlowPairTaken(ts, i, ps[0].value, i + 1 + |a|);
    assert [ps[0]] + ps[1..] == ps && Pair(ps[0].key, ps[0].value) == ps[0];
  }

  lemma {:induction false} PairsParse(st: Style, ts: seq<Token>, i: nat, ps: seq<Pair>)
    requires At(ts, i, PairTokens(st, ps))
    ensures i + |PairTokens(st, ps)| <= |ts| && FlowPairsAt(ts, i) == Ok((ps, i + |PairTokens(st, ps)|))
    decreases ps, 1
  {
    hide At;
    hide FirstPairTokens;
    hide FlowPairsAt;
    AtBound(ts, i, PairTokens(st, ps));
    if ps == [] {
      AtIndex(ts, i, PairTokens(st, ps), 0);
      CollectionEnds(ts, i);
    } else {
      PairParses(st, ts, i, ps);
    }
  }

  lemma {:induction false} MorePairsParse(st: Style, ts: seq<Token>, i: nat, ps: seq<Pair>)
    requires At(ts, i, MorePairTokens(st, ps))
    ensures i + |MorePairTokens(st, ps)| <= |ts| && FlowPairsAt(ts, i) == Ok((ps, i + |MorePairTokens(st, ps)|))
    decreases ps, 1
  {
    hide At;
    hide FirstPairTokens;
    hide FlowPairsAt;
    AtBound(ts, i, MorePairTokens(st, ps));
    if ps == [] {
      LastCommaParses(st, ts, i, FlowMappingEnd);
    } else {
      AtIndex(ts, i, MorePairTokens(st, ps), 0);
      AtSplit(ts, i, Bracket(FlowComma), FirstPairTokens(st, ps));
      CommaSkips(ts, i);
      PairParses(st, ts, i + 1, ps);
    }
  }

  // ---- The round trip ---------------------------------------------------

  lemma EndScans(s: string)
    ensures ScanFrom(s, |s|, 0) == Ok([EOF])
  {
  }

  /** Without leading spaces there is no indentation, at the start of a line or inside it. */
  lemma InlineToken(s: string, i: nat)
    requires i < |s| && StartsToken(s[i])
    ensures BlockTokenAt(s, i) == ContentAt(s, i, 0)
  {
    hide ContentAt;
    assert SkipBlank(s, i) == i;
    assert SkipSpaces(s, i) == i;
  }

  /** One token of block context. */
  lemma BlockStep(s: string, i: nat, tok: Token, next: nat)
    requires i <= |s| && BlockTokenAt(s, i) == Ok((tok, next)) && !tok.kind.Eof?
    ensures next <= |s| && ScanFrom(s, i, 0) == Prepend([tok], ScanFrom(s, next, DepthAfter(0, tok.kind)))
  {
  }

  lemma BracketContent(s: string, i: nat)
    requires i < |s| && (s[i] == '[' || s[i] == '{')
    ensures ContentAt(s, i, 0) == Ok((Token(KindOf(s[i]), "", 0), i + 1)) && StartsToken(s[i])
  {
  }

  /** A flow collection in block context. */
  lemma FlowScans(st: Style, s: string, i: nat, n: Node)
    requires Fits(st, true) && !n.ScalarNode? && At(s, i, Print(st, n))
    ensures var j := i + |Print(st, n)|;
            i < |s| && j <= |s| && ScanFrom(s, i, 0) == Prepend(Tokens(st, n), ScanFrom(s, j, 0))
  {
    hide At;
    hide ScanFrom;
    hide ContentAt;
    hide BlockTokenAt;
    hide PrintItems;
    hide PrintPairs;
    hide Separator;
    hide Fits;
    var open := if n.SequenceNode? then "[" else "{";
    var inner := if n.SequenceNode? then PrintItems(st, n.children) else PrintPairs(st, n.pairs);
    AtBound(s, i, Print(st, n));
    AtSplit(s, i, open, Separator(st) + inner);
    AtSplit(s, i + 1, Separator(st), inner);
    AtIndex(s, i, open, 0);
    BracketContent(s, i);
    InlineToken(s, i);
    BlockStep(s, i, Token(KindOf(s[i]), "", 0), i + 1);
    SeparatorSkips(st, s, i + 1, 1);
    InnerScans(st, s, i + 1 + |Separator(st)|, 1, n);
    PrependPrepend(Bracket(KindOf(s[i])), InnerTokens(st, n), ScanFrom(s, i + |Print(st, n)|, 0));
  }

  /** Every collection comes back from its print in flow form: keys and scalars in any form that can hold them, empty
      values left out or not, a comma behind the last item or not, blanks before and behind the colons and before the
      commas and brackets that close, blanks, blank lines and comments behind the commas and brackets that open. */
  lemma FlowRoundTrip(st: Style, n: Node)
    requires Fits(st, true) && !n.ScalarNode?
    ensures Load(Print(st, n)) == Ok(n)
  {
    hide Print;
    hide ScanFrom;
    hide FlowValueAt;
    hide Fits;
    var s := Print(st, n);
    AtWhole(s);
    FlowScans(st, s, 0, n);
    EndScans(s);
    var ts := Tokens(st, n) + [EOF];
    AtMiddle([], Tokens(st, n), [EOF]);
    assert [] + Tokens(st, n) + [EOF] == ts;
    TokensStart(st, n);
    ValueParses(st, ts, 0, n);
    assert ts[0] == Tokens(st, n)[0];
    hide Tokens;
  }

  /** `[k: v]`, one pair in a flow sequence. */
  function PairInSequence(st: Style, k: string, v: string): string {
    "[" + (Separator(st) + (KeyText(st, k) + (st.space + (ScalarText(st, v) + (st.pad + "]")))))
  }

  function PairInSequenceTokens(k: string, v: string): seq<Token> {
    Bracket(FlowSequenceStart) +
      ([Token(MappingKey, k, 0)] + ([Token(Scalar, v, 0)] + (Bracket(FlowSequenceEnd) + [EOF])))
  }

  /** The scalar, the blanks behind it and the bracket at the end of the input. */
  lemma LastScalarScans(st: Style, s: string, i: nat, v: string)
    requires Fits(st, true) && At(s, i, ScalarText(st, v) + (st.pad + "]"))
    requires i + |ScalarText(st, v) + (st.pad + "]")| == |s|
    ensures i < |s| && !IsInline(s[i])
    ensures ScanFrom(s, i, 1) == Ok([Token(Scalar, v, 0)] + (Bracket(FlowSequenceEnd) + [EOF]))
  {
    hide At;
    hide ScanFrom;
    hide ScalarText;
    var a := ScalarText(st, v);
    var e := i + |a| + |st.pad|;
    AtSplit(s, i, a, st.pad + "]");
    AtSplit(s, i + |a|, st.pad, "]");
    AtIndex(s, e, "]", 0);
    PrintStarts(st, ScalarNode(v));
    AtIndex(s, i, a, 0);
    PadEnds(st, s, i + |a|);
    ScalarStep(st, s, i, e, 1, v);
    BracketStep(s, e, 1);
    EndScans(s);
  }

  lemma PairInSequenceScans(st: Style, k: string, v: string)
    requires Fits(st, true)
    ensures ScanFrom(PairInSequence(st, k, v), 0, 0) == Ok(PairInSequenceTokens(k, v))
  {
    hide At;
    hide ScanFrom;
    hide Separator;
    hide KeyText;
    hide ScalarText;
    hide ContentAt;
    hide BlockTokenAt;
    hide Fits;
    var s, last, key := PairInSequence(st, k, v), ScalarText(st, v) + (st.pad + "]"), KeyText(st, k);
    var n := 1 + |Separator(st)|;
    AtWhole(s);
    AtSplit(s, 0, "[", Separator(st) + (key + (st.space + last)));
    AtSplit(s, 1, Separator(st), key + (st.space + last));
    AtSplit(s, n, key, st.space + last);
    AtSplit(s, n + |key|, st.space, last);
    AtSplit(s, n, key, st.space);
    AtIndex(s, 0, "[", 0);
    BracketContent(s, 0);
    InlineToken(s, 0);
    BlockStep(s, 0, Token(FlowSequenceStart, "", 0), 1);
    SeparatorSkips(st, s, 1, 1);
    SpaceIsBlank(st);
    LastScalarScans(st, s, n + |key| + |st.space|, v);
    KeyStep(st, s, n, 1, k, st.space);
  }

  lemma SpaceIsBlank(st: Style)
    requires Fits(st, true)
    ensures AllBlank(st.space) && st.space != ""
  {
  }

  /** A pair in a flow sequence is not read as a mapping of one pair, but as two items. */
  lemma PairInSequenceSplits(st: Style, k: string, v: string)
    requires Fits(st, true)
    ensures Load(PairInSequence(st, k, v)) == Ok(SequenceNode([ScalarNode(k), ScalarNode(v)]))
  {
    hide ScanFrom;
    hide PairInSequence;
    hide FlowItemsAt;
    PairInSequenceScans(st, k, v);
    var ts := PairInSequenceTokens(k, v);
    CollectionEnds(ts, 3);
    FlowItemTaken(ts, 2, ScalarNode(v), 3);
    FlowKeyTaken(ts, 1);
    assert [ScalarNode(k)] + ([ScalarNode(v)] + []) == [ScalarNode(k), ScalarNode(v)];
  }

  lemma FlowKeyTaken(ts: seq<Token>, i: nat)
    requires i < |ts| && ts[i].kind.MappingKey?
    ensures FlowItemsAt(ts, i) == Carry([ScalarNode(ts[i].value)], FlowItemsAt(ts, i + 1))
  {
    hide Carry;
  }
}
