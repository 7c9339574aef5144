/** Printing of trees in block form, and the tokens that the print scans to (core/yaml/scanner.go).

    A layout fixes the forms of the texts, the blanks and comments around them, and which collections are written in
    flow form. First the printer, then the tokens in between, then what the scanner makes of the print, line by line. */
module YamlLayout {
  import opened Wrappers
  import opened Sequences
  import opened YamlScanner
  import opened YamlParser
  import opened YamlText
  import opened YamlFlow

  // ---- Printing ---------------------------------------------------------

  /** How a document is laid out: the styles of its block and flow parts, and which collections are written in flow
      form. In block form an empty value can be left out when its key stands on a line of its own. */
  datatype Layout = Layout(block: Style, flow: Style, inFlow: Node -> bool)

  ghost predicate Proper(l: Layout) {
    Fits(l.block, false) && Fits(l.flow, true)
  }

  /** Scalars and flow collections stand on the line of their key or dash. An empty collection has no other form. */
  predicate OnOneLine(l: Layout, n: Node) {
    match n
    case ScalarNode(_) => true
    case SequenceNode(cs) => cs == [] || l.inFlow(n)
    case MappingNode(ps) => ps == [] || l.inFlow(n)
  }

  function LineText(l: Layout, n: Node): string {
    if n.ScalarNode? then ScalarText(l.block, n.value) else Print(l.flow, n)
  }

  /** The rest of a line behind a key, a value or a dash. */
  function TailText(l: Layout): string {
    FillerText(l.block.tail)
  }

  /** What stands before the first token of a line. */
  function Front(l: Layout, ind: nat): string {
    GapText(l.block.gap) + Spaces(ind)
  }

  /** The lines of a collection, indented by `ind`. */
  function Lines(l: Layout, n: Node, ind: nat): string
    decreases n, 1
  {
    match n
    case ScalarNode(_) => ""
    case SequenceNode(cs) => ItemLines(l, cs, ind)
    case MappingNode(ps) => PairLines(l, ps, ind)
  }

  function PairLines(l: Layout, ps: seq<Pair>, ind: nat): string
    decreases ps, 0
  {
    if ps == [] then ""
    else Front(l, ind) + (KeyText(l.block, ps[0].key) +
           (ValueText(l, ps[0].value, ind, LeftOut(l.block, ps[0].value)) + PairLines(l, ps[1..], ind)))
  }

  /** What follows the colon of a key. */
  function ValueText(l: Layout, n: Node, ind: nat, out: bool): string
    decreases n, 2
  {
    if out then TailText(l)
    else if OnOneLine(l, n) then l.block.space + (LineText(l, n) + TailText(l))
    else TailText(l) + Lines(l, n, ind + 2)
  }

  function ItemLines(l: Layout, cs: seq<Node>, ind: nat): string
    decreases cs, 0
  {
    if cs == [] then ""
    else Front(l, ind) + ("- " + (ItemText(l, cs[0], ind) + ItemLines(l, cs[1..], ind)))
  }

  /** What follows a dash. The first pair of a mapping stands on its line. */
  function ItemText(l: Layout, n: Node, ind: nat): string
    decreases n, 3
  {
    if OnOneLine(l, n) then LineText(l, n) + TailText(l)
    else if n.MappingNode? then
      var ps := n.pairs;
      KeyText(l.block, ps[0].key) + (ValueText(l, ps[0].value, ind + 2, false) + PairLines(l, ps[1..], ind + 2))
    else TailText(l) + Lines(l, n, ind + 2)
  }

  function Document(l: Layout, n: Node): string {
    if OnOneLine(l, n) then GapText(l.block.gap) + (LineText(l, n) + TailText(l)) else Lines(l, n, 0)
  }

  // ---- The tokens in between --------------------------------------------

  function LinesTokens(l: Layout, n: Node, ind: nat): seq<Token>
    decreases n, 1
  {
    match n
    case ScalarNode(_) => []
    case SequenceNode(cs) => ItemsTokens(l, cs, ind)
    case MappingNode(ps) => PairsTokens(l, ps, ind, ind)
  }

  /** The first key may stand behind a dash, where the scanner gives it the indentation 0. */
  function PairsTokens(l: Layout, ps: seq<Pair>, ind: nat, first: nat): seq<Token>
    requires first == ind || first == 0
    decreases ps, 0
  {
    if ps == [] then []
    else [Token(MappingKey, ps[0].key, first)] +
         (ValueTokens(l, ps[0].value, ind, first == ind && LeftOut(l.block, ps[0].value)) +
          PairsTokens(l, ps[1..], ind, ind))
  }

  function ValueTokens(l: Layout, n: Node, ind: nat, out: bool): seq<Token>
    decreases n, 2
  {
    if out then [] else if OnOneLine(l, n) then Tokens(l.flow, n) else LinesTokens(l, n, ind + 2)
  }

  function ItemsTokens(l: Layout, cs: seq<Node>, ind: nat): seq<Token>
    decreases cs, 0
  {
    if cs == [] then []
    else [Token(SequenceEntry, "", ind)] + (EntryTokens(l, cs[0], ind) + ItemsTokens(l, cs[1..], ind))
  }

  function EntryTokens(l: Layout, n: Node, ind: nat): seq<Token>
    decreases n, 3
  {
    if OnOneLine(l, n) then Tokens(l.flow, n)
    else if n.MappingNode? then PairsTokens(l, n.pairs, ind + 2, 0)
    else LinesTokens(l, n, ind + 2)
  }

  function DocumentTokens(l: Layout, n: Node): seq<Token> {
    if OnOneLine(l, n) then Tokens(l.flow, n) else LinesTokens(l, n, 0)
  }

  // ---- Scanning: what lies between tokens -------------------------------

  lemma SameBlank(s: string, i: nat, j: nat)
    requires i <= |s| && j <= |s| && SkipBlank(s, i) == SkipBlank(s, j)
    ensures ScanFrom(s, i, 0) == ScanFrom(s, j, 0)
  {
    hide ContentAt;
    assert BlockTokenAt(s, i) == BlockTokenAt(s, j);
    hide BlockTokenAt;
  }

  lemma BlanksBlank(s: string, i: nat, c: nat)
    requires BlanksTo(s, i, c) && (IsNewline(s[c]) || s[c] == '#')
    ensures SkipBlank(s, i) == SkipBlank(s, c)
  {
    BlanksSkip(s, i, c);
    hide SkipInline;
    hide SkipToEol;
  }

  lemma CommentOrBreakBlank(s: string, c: nat, e: nat)
    requires c <= e < |s| && s[e] == '\n'
    requires c == e || (s[c] == '\r' && c + 1 == e) || (s[c] == '#' && SkipToEol(s, c) == e)
    ensures SkipBlank(s, c) == SkipBlank(s, e + 1)
  {
    hide SkipToEol;
    assert SkipBlank(s, e) == SkipBlank(s, e + 1);
  }

  lemma FillerBlank(s: string, i: nat, f: Filler)
    requires At(s, i, FillerText(f)) && IsFiller(f)
    ensures var c, e := i + |f.blanks|, i + |FillerText(f)| - 1;
            && c <= e < |s| && s[e] == '\n' && AtLineStart(s, e + 1)
            && SkipBlank(s, i) == SkipBlank(s, e + 1) && SkipBlank(s, c) == SkipBlank(s, e + 1)
  {
    hide At;
    hide FillerText;
    hide SkipBlank;
    hide SkipToEol;
    FillerParts(s, i, f);
    var c, e := i + |f.blanks|, i + |FillerText(f)| - 1;
    CommentOrBreakBlank(s, c, e);
    BlanksBlank(s, i, c);
  }

  /** The rest of a line is skipped, from its blanks or from what follows them on. */
  lemma FillerSkips(s: string, i: nat, f: Filler)
    requires At(s, i, FillerText(f)) && IsFiller(f)
    ensures var c, e := i + |f.blanks|, i + |FillerText(f)| - 1;
            && c <= e < |s| && s[e] == '\n' && AtLineStart(s, e + 1)
            && ScanFrom(s, i, 0) == ScanFrom(s, e + 1, 0)
            && ScanFrom(s, c, 0) == ScanFrom(s, e + 1, 0)
  {
    hide At;
    hide FillerText;
    hide ScanFrom;
    hide SkipBlank;
    hide IsFiller;
    FillerBlank(s, i, f);
    var c, e := i + |f.blanks|, i + |FillerText(f)| - 1;
    SameBlank(s, i, e + 1);
    SameBlank(s, c, e + 1);
  }

  lemma LineFeedSkips(s: string, i: nat)
    requires i < |s| && s[i] == '\n'
    ensures ScanFrom(s, i, 0) == ScanFrom(s, i + 1, 0)
  {
    hide ScanFrom;
    SameBlank(s, i, i + 1);
  }

  lemma {:induction false} GapSkips(s: string, i: nat, gap: seq<Filler>)
    requires i <= |s| && AtLineStart(s, i) && At(s, i, GapText(gap)) && AllFillers(gap)
    ensures var j := i + |GapText(gap)|;
            j <= |s| && AtLineStart(s, j) && ScanFrom(s, i, 0) == ScanFrom(s, j, 0)
    decreases gap
  {
    hide At;
    hide FillerText;
    hide ScanFrom;
    hide IsFiller;
    if gap != [] {
      AtSplit(s, i, FillerText(gap[0]), GapText(gap[1..]));
      FillerSkips(s, i, gap[0]);
      GapSkips(s, i + |FillerText(gap[0])|, gap[1..]);
    }
  }

  lemma {:induction false} SpacesSkip(s: string, i: nat, j: nat)
    requires i <= j < |s| && (forall k :: i <= k < j ==> s[k] == ' ') && s[j] != ' '
    ensures SkipSpaces(s, i) == j
    decreases j - i
  {
    if i < j {
      SpacesSkip(s, i + 1, j);
    }
  }

  /** At the start of a line the leading spaces are the indentation of the token behind them. */
  lemma LineToken(s: string, i: nat, ind: nat)
    requires At(s, i, Spaces(ind)) && i + ind < |s| && AtLineStart(s, i) && StartsToken(s[i + ind])
    ensures i <= |s| && BlockTokenAt(s, i) == ContentAt(s, i + ind, ind)
  {
    forall k | i <= k < i + ind ensures s[k] == ' ' {
      AtIndex(s, i, Spaces(ind), k - i);
    }
    SpacesSkip(s, i, i + ind);
    BlanksSkip(s, i, i + ind);
    hide ContentAt;
    assert SkipBlank(s, i) == i;
  }

  // ---- Scanning: keys, dashes and what stands on one line ----------------

  /** The filler and the indentation of a line whose first token starts behind them. */
  lemma LineStarts(l: Layout, s: string, i: nat, ind: nat)
    requires Proper(l) && i <= |s| && AtLineStart(s, i) && At(s, i, Front(l, ind))
    requires var c := i + |Front(l, ind)|; c < |s| && StartsToken(s[c])
    ensures var g, c := i + |GapText(l.block.gap)|, i + |Front(l, ind)|;
            && g <= |s| && ScanFrom(s, i, 0) == ScanFrom(s, g, 0) && BlockTokenAt(s, g) == ContentAt(s, c, ind)
  {
    hide At;
    hide GapText;
    hide ScanFrom;
    hide BlockTokenAt;
    hide ContentAt;
    hide Spaces;
    AtSplit(s, i, GapText(l.block.gap), Spaces(ind));
    GapSkips(s, i, l.block.gap);
    LineToken(s, i + |GapText(l.block.gap)|, ind);
  }

  lemma LineTextStarts(l: Layout, n: Node)
    requires Proper(l)
    ensures LineText(l, n) != "" && StartsToken(LineText(l, n)[0])
  {
    hide Shown;
    if n.ScalarNode? {
      ShownStarts(n.value, l.block.text(n.value), BlockScalar);
    } else {
      PrintStarts(l.flow, n);
    }
  }

  lemma KeyTextStarts(l: Layout, k: string)
    requires Proper(l)
    ensures KeyText(l.block, k) != "" && StartsToken(KeyText(l.block, k)[0])
  {
    hide Shown;
    ShownStarts(k, l.block.key(k), BlockKey);
  }

  /** Where a key leaves the scanner: behind the blanks in front of what follows on its line. */
  function AfterColon(l: Layout, n: Node, out: bool): nat {
    if out || !OnOneLine(l, n) then |l.block.tail.blanks| else |l.block.space|
  }

  /** What follows a colon begins with blanks and goes on with something else, or begins with the line feed. */
  lemma ValueBegins(l: Layout, s: string, c: nat, n: Node, ind: nat, out: bool)
    requires Proper(l) && At(s, c, ValueText(l, n, ind, out))
    ensures c < |s| && (IsInline(s[c]) || IsNewline(s[c]))
    ensures c + AfterColon(l, n, out) <= |s| && SkipInline(s, c) == c + AfterColon(l, n, out)
  {
    hide At;
    hide LineText;
    hide Lines;
    hide FillerText;
    if out || !OnOneLine(l, n) {
      if !out {
        AtSplit(s, c, TailText(l), Lines(l, n, ind + 2));
      }
      TailParts(s, c, l.block.tail);
      BlanksSkip(s, c, c + |l.block.tail.blanks|);
    } else {
      LineTextStarts(l, n);
      AtSplit(s, c, l.block.space, LineText(l, n) + TailText(l));
      AtIndex(s, c + |l.block.space|, LineText(l, n) + TailText(l), 0);
      AtIndex(s, c, l.block.space, 0);
      BlanksAt(s, c, l.block.space);
    }
  }

  /** A key at `i`, with its value behind the colon. */
  lemma KeyContent(l: Layout, s: string, i: nat, k: string, ind: nat)
    requires Proper(l) && At(s, i, KeyText(l.block, k))
    requires var c := i + |KeyText(l.block, k)|; c < |s| && (IsInline(s[c]) || IsNewline(s[c]))
    ensures i < |s| && StartsToken(s[i])
    ensures ContentAt(s, i, ind) == Ok((Token(MappingKey, k, ind), SkipInline(s, i + |KeyText(l.block, k)|)))
  {
    hide At;
    hide Shown;
    hide ContentAt;
    var t := Shown(k, l.block.key(k));
    var j := i + |t| + |l.block.pad|;
    AtSplit(s, i, t, l.block.pad + ":");
    AtSplit(s, i + |t|, l.block.pad, ":");
    AtIndex(s, j, ":", 0);
    BlanksAt(s, i + |t|, l.block.pad);
    ShownStarts(k, l.block.key(k), BlockKey);
    AtIndex(s, i, t, 0);
    BlockKeyReads(s, i, k, l.block.key(k), j, ind);
  }

  lemma ScalarScans(l: Layout, s: string, i: nat, v: string)
    requires Proper(l) && At(s, i, ScalarText(l.block, v)) && At(s, i + |ScalarText(l.block, v)|, TailText(l))
    ensures var j := i + |ScalarText(l.block, v)| + |TailText(l)|;
            && j <= |s| && AtLineStart(s, j)
            && ScanFrom(s, i, 0) == Prepend([Token(Scalar, v, 0)], ScanFrom(s, j, 0))
  {
    hide At;
    hide Shown;
    hide ScanFrom;
    hide ContentAt;
    hide BlockTokenAt;
    hide FillerText;
    var m := i + |ScalarText(l.block, v)|;
    var j, e := m + |l.block.tail.blanks|, m + |TailText(l)| - 1;
    ShownStarts(v, l.block.text(v), BlockScalar);
    AtIndex(s, i, ScalarText(l.block, v), 0);
    TailParts(s, m, l.block.tail);
    TailIsFiller(l.block.tail);
    FillerSkips(s, m, l.block.tail);
    LineFeedSkips(s, e);
    BlockScalarReads(s, i, v, l.block.text(v), j, e, 0);
    InlineToken(s, i);
    BlockStep(s, i, Token(Scalar, v, 0), if l.block.text(v).Plain? && s[j] == '#' then e else j);
  }

  lemma TailIsFiller(f: Filler)
    requires IsTail(f)
    ensures IsFiller(f)
  {
  }

  lemma TailSkips(l: Layout, s: string, i: nat)
    requires Proper(l) && At(s, i, TailText(l))
    ensures var j := i + |TailText(l)|;
            && i <= |s| && j <= |s| && AtLineStart(s, j)
            && ScanFrom(s, i, 0) == ScanFrom(s, j, 0)
            && ScanFrom(s, i + |l.block.tail.blanks|, 0) == ScanFrom(s, j, 0)
  {
    hide At;
    hide FillerText;
    hide ScanFrom;
    TailIsFiller(l.block.tail);
    FillerSkips(s, i, l.block.tail);
  }

  /** What stands on one line, and the end of that line. */
  lemma OneLineScans(l: Layout, s: string, i: nat, n: Node)
    requires Proper(l) && At(s, i, LineText(l, n) + TailText(l))
    ensures var j := i + |LineText(l, n)| + |TailText(l)|;
            && j <= |s| && AtLineStart(s, j)
            && ScanFrom(s, i, 0) == Prepend(Tokens(l.flow, n), ScanFrom(s, j, 0))
  {
    hide At;
    hide ScalarText;
    hide Print;
    hide ScanFrom;
    hide FillerText;
    AtSplit(s, i, LineText(l, n), TailText(l));
    if n.ScalarNode? {
      ScalarScans(l, s, i, n.value);
    } else {
      FlowScans(l.flow, s, i, n);
      TailSkips(l, s, i + |LineText(l, n)|);
    }
  }

  lemma DashContent(s: string, i: nat, ind: nat)
    requires i + 1 < |s| && s[i] == '-' && s[i + 1] == ' '
    ensures ContentAt(s, i, ind) == Ok((Token(SequenceEntry, "", ind), i + 2)) && StartsToken(s[i])
  {
  }

  /** The dash of a block sequence. */
  lemma DashScans(l: Layout, s: string, i: nat, ind: nat)
    requires Proper(l) && i <= |s| && AtLineStart(s, i)
    requires At(s, i, Front(l, ind)) && At(s, i + |Front(l, ind)|, "- ")
    ensures var c := i + |Front(l, ind)| + 2;
            c <= |s| && ScanFrom(s, i, 0) == Prepend([Token(SequenceEntry, "", ind)], ScanFrom(s, c, 0))
  {
    hide At;
    hide Front;
    hide ContentAt;
    hide BlockTokenAt;
    hide ScanFrom;
    var c := i + |Front(l, ind)|;
    AtIndex(s, c, "- ", 0);
    AtIndex(s, c, "- ", 1);
    DashContent(s, c, ind);
    LineStarts(l, s, i, ind);
    BlockStep(s, i + |GapText(l.block.gap)|, Token(SequenceEntry, "", ind), c + 2);
  }

  /** A key on a line of its own. */
  lemma KeyLineScans(l: Layout, s: string, i: nat, ind: nat, k: string)
    requires Proper(l) && i <= |s| && AtLineStart(s, i) && At(s, i, Front(l, ind))
    requires At(s, i + |Front(l, ind)|, KeyText(l.block, k))
    requires var c := i + |Front(l, ind)| + |KeyText(l.block, k)|; c < |s| && (IsInline(s[c]) || IsNewline(s[c]))
    ensures var c := i + |Front(l, ind)| + |KeyText(l.block, k)|;
            ScanFrom(s, i, 0) == Prepend([Token(MappingKey, k, ind)], ScanFrom(s, SkipInline(s, c), 0))
  {
    hide At;
    hide Front;
    hide KeyText;
    hide ContentAt;
    hide BlockTokenAt;
    hide ScanFrom;
    var m := i + |Front(l, ind)|;
    KeyContent(l, s, m, k, ind);
    LineStarts(l, s, i, ind);
    BlockStep(s, i + |GapText(l.block.gap)|, Token(MappingKey, k, ind), SkipInline(s, m + |KeyText(l.block, k)|));
  }

  /** A key behind a dash. */
  lemma InlineKeyScans(l: Layout, s: string, i: nat, k: string)
    requires Proper(l) && At(s, i, KeyText(l.block, k))
    requires var c := i + |KeyText(l.block, k)|; c < |s| && (IsInline(s[c]) || IsNewline(s[c]))
    ensures var c := i + |KeyText(l.block, k)|;
            ScanFrom(s, i, 0) == Prepend([Token(MappingKey, k, 0)], ScanFrom(s, SkipInline(s, c), 0))
  {
    hide At;
    hide KeyText;
    hide ContentAt;
    hide BlockTokenAt;
    hide ScanFrom;
    KeyContent(l, s, i, k, 0);
    InlineToken(s, i);
    BlockStep(s, i, Token(MappingKey, k, 0), SkipInline(s, i + |KeyText(l.block, k)|));
  }

  // ---- Scanning: collections --------------------------------------------

  /** The value behind a colon at `c`, from the place where the key leaves the scanner. */
  lemma {:induction false} ValueScansBlock(l: Layout, s: string, c: nat, n: Node, ind: nat, out: bool)
    requires Proper(l) && At(s, c, ValueText(l, n, ind, out))
    ensures var j := c + |ValueText(l, n, ind, out)|;
            && c < |s| && (IsInline(s[c]) || IsNewline(s[c])) && j <= |s| && AtLineStart(s, j)
            && ScanFrom(s, SkipInline(s, c), 0) == Prepend(ValueTokens(l, n, ind, out), ScanFrom(s, j, 0))
    decreases n, 2
  {
    hide At;
    hide ScanFrom;
    hide LineText;
    hide OnOneLine;
    hide TailText;
    hide Lines;
    hide LinesTokens;
    hide Tokens;
    hide Proper;
    hide SkipInline;
    ValueBegins(l, s, c, n, ind, out);
    if out {
      TailSkips(l, s, c);
      PrependPrepend([], [], ScanFrom(s, c + |TailText(l)|, 0));
    } else if OnOneLine(l, n) {
      AtSplit(s, c, l.block.space, LineText(l, n) + TailText(l));
      OneLineScans(l, s, c + |l.block.space|, n);
    } else {
      AtSplit(s, c, TailText(l), Lines(l, n, ind + 2));
      TailSkips(l, s, c);
      LinesScan(l, s, c + |TailText(l)|, n, ind + 2);
    }
  }

  lemma {:induction false} LinesScan(l: Layout, s: string, i: nat, n: Node, ind: nat)
    requires Proper(l) && i <= |s| && AtLineStart(s, i) && At(s, i, Lines(l, n, ind))
    ensures var j := i + |Lines(l, n, ind)|;
            && j <= |s| && AtLineStart(s, j)
            && ScanFrom(s, i, 0) == Prepend(LinesTokens(l, n, ind), ScanFrom(s, j, 0))
    decreases n, 1
  {
    hide At;
    hide ScanFrom;
    hide PairLines;
    hide ItemLines;
    hide PairsTokens;
    hide ItemsTokens;
    hide Proper;
    match n
    case ScalarNode(_) => PrependPrepend([], [], ScanFrom(s, i, 0));
    case SequenceNode(cs) => ItemsScanBlock(l, s, i, cs, ind);
    case MappingNode(ps) => PairsScanBlock(l, s, i, ps, ind);
  }

  lemma {:induction false} PairsScanBlock(l: Layout, s: string, i: nat, ps: seq<Pair>, ind: nat)
    requires Proper(l) && i <= |s| && AtLineStart(s, i) && At(s, i, PairLines(l, ps, ind))
    ensures var j := i + |PairLines(l, ps, ind)|;
            && j <= |s| && AtLineStart(s, j)
            && ScanFrom(s, i, 0) == Prepend(PairsTokens(l, ps, ind, ind), ScanFrom(s, j, 0))
    decreases ps, 0
  {
    hide At;
    hide ScanFrom;
    hide Front;
    hide KeyText;
    hide ValueText;
    hide ValueTokens;
    hide Proper;
    hide LeftOut;
    if ps == [] {
      PrependPrepend([], [], ScanFrom(s, i, 0));
    } else {
      var out := LeftOut(l.block, ps[0].value);
      var front, k := Front(l, ind), KeyText(l.block, ps[0].key);
      var v, rest := ValueText(l, ps[0].value, ind, out), PairLines(l, ps[1..], ind);
      var c := i + |front| + |k|;
      AtSplit(s, i, front, k + (v + rest));
      AtSplit(s, i + |front|, k, v + rest);
      AtSplit(s, c, v, rest);
      ValueScansBlock(l, s, c, ps[0].value, ind, out);
      KeyLineScans(l, s, i, ind, ps[0].key);
      PairsScanBlock(l, s, c + |v|, ps[1..], ind);
      JoinTokens(ps[0].key, ind, ValueTokens(l, ps[0].value, ind, out), PairsTokens(l, ps[1..], ind, ind),
                 ScanFrom(s, c + |v| + |rest|, 0));
    }
  }

  lemma JoinTokens(k: string, first: nat, v: seq<Token>, rest: seq<Token>, end: Scanned<seq<Token>>)
    ensures Prepend([Token(MappingKey, k, first)], Prepend(v, Prepend(rest, end))) ==
            Prepend([Token(MappingKey, k, first)] + (v + rest), end)
  {
    PrependPrepend(v, rest, end);
    PrependPrepend([Token(MappingKey, k, first)], v + rest, end);
  }

  lemma {:induction false} ItemsScanBlock(l: Layout, s: string, i: nat, cs: seq<Node>, ind: nat)
    requires Proper(l) && i <= |s| && AtLineStart(s, i) && At(s, i, ItemLines(l, cs, ind))
    ensures var j := i + |ItemLines(l, cs, ind)|;
            && j <= |s| && AtLineStart(s, j)
            && ScanFrom(s, i, 0) == Prepend(ItemsTokens(l, cs, ind), ScanFrom(s, j, 0))
    decreases cs, 0
  {
    hide At;
    hide ScanFrom;
    hide Front;
    hide ItemText;
    hide EntryTokens;
    hide Proper;
    if cs == [] {
      PrependPrepend([], [], ScanFrom(s, i, 0));
    } else {
      var front, t, rest := Front(l, ind), ItemText(l, cs[0], ind), ItemLines(l, cs[1..], ind);
      var c := i + |front| + 2;
      AtSplit(s, i, front, "- " + (t + rest));
      AtSplit(s, i + |front|, "- ", t + rest);
      AtSplit(s, c, t, rest);
      DashScans(l, s, i, ind);
      ItemScansBlock(l, s, c, cs[0], ind);
      ItemsScanBlock(l, s, c + |t|, cs[1..], ind);
      var end := ScanFrom(s, c + |t| + |rest|, 0);
      PrependPrepend(EntryTokens(l, cs[0], ind), ItemsTokens(l, cs[1..], ind), end);
      PrependPrepend([Token(SequenceEntry, "", ind)],
                     EntryTokens(l, cs[0], ind) + ItemsTokens(l, cs[1..], ind), end);
    }
  }

  lemma {:induction false} ItemScansBlock(l: Layout, s: string, c: nat, n: Node, ind: nat)
    requires Proper(l) && At(s, c, ItemText(l, n, ind))
    ensures var j := c + |ItemText(l, n, ind)|;
            && c <= |s| && j <= |s| && AtLineStart(s, j)
            && ScanFrom(s, c, 0) == Prepend(EntryTokens(l, n, ind), ScanFrom(s, j, 0))
    decreases n, 3
  {
    hide At;
    hide ScanFrom;
    hide LineText;
    hide TailText;
    hide Proper;
    hide KeyText;
    hide ValueText;
    AtSlice(s, c, ItemText(l, n, ind));
    if OnOneLine(l, n) {
      OneLineScans(l, s, c, n);
    } else if n.MappingNode? {
      InlinePairsScan(l, s, c, n.pairs, ind);
    } else {
      AtSplit(s, c, TailText(l), Lines(l, n, ind + 2));
      TailSkips(l, s, c);
      LinesScan(l, s, c + |TailText(l)|, n, ind + 2);
    }
  }

  /** The mapping behind a dash. */
  lemma {:induction false} InlinePairsScan(l: Layout, s: string, i: nat, ps: seq<Pair>, ind: nat)
    requires Proper(l) && ps != []
    requires At(s, i, KeyText(l.block, ps[0].key) +
                      (ValueText(l, ps[0].value, ind + 2, false) + PairLines(l, ps[1..], ind + 2)))
    ensures var j := i + |KeyText(l.block, ps[0].key)| + |ValueText(l, ps[0].value, ind + 2, false)| +
                     |PairLines(l, ps[1..], ind + 2)|;
            && i <= |s| && j <= |s| && AtLineStart(s, j)
            && ScanFrom(s, i, 0) == Prepend(PairsTokens(l, ps, ind + 2, 0), ScanFrom(s, j, 0))
    decreases ps, 1
  {
    hide At;
    hide ScanFrom;
    hide KeyText;
    hide ValueText;
    hide ValueTokens;
    hide Proper;
    var k, v := KeyText(l.block, ps[0].key), ValueText(l, ps[0].value, ind + 2, false);
    var rest := PairLines(l, ps[1..], ind + 2);
    var c := i + |k|;
    AtSplit(s, i, k, v + rest);
    AtSplit(s, c, v, rest);
    ValueScansBlock(l, s, c, ps[0].value, ind + 2, false);
    InlineKeyScans(l, s, i, ps[0].key);
    PairsScanBlock(l, s, c + |v|, ps[1..], ind + 2);
    JoinTokens(ps[0].key, 0, ValueTokens(l, ps[0].value, ind + 2, false), PairsTokens(l, ps[1..], ind + 2, ind + 2),
               ScanFrom(s, c + |v| + |rest|, 0));
  }

  /** The whole of a document's print scans to its tokens. */
  lemma BlockDocumentScans(l: Layout, n: Node)
    requires Proper(l)
    ensures ScanFrom(Document(l, n), 0, 0) == Ok(DocumentTokens(l, n) + [EOF])
  {
    hide At;
    hide ScanFrom;
    hide GapText;
    hide TailText;
    hide LineText;
    hide Lines;
    hide LinesTokens;
    var s := Document(l, n);
    AtWhole(s);
    if OnOneLine(l, n) {
      AtSplit(s, 0, GapText(l.block.gap), LineText(l, n) + TailText(l));
      GapSkips(s, 0, l.block.gap);
      OneLineScans(l, s, |GapText(l.block.gap)|, n);
    } else {
      LinesScan(l, s, 0, n, 0);
    }
    EndScans(s);
  }
}
