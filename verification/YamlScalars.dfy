/** Literal and folded blocks read back as they were written (core/yaml/scanner.go).

    First the lines of a block, then folding, and then documents in which a block stands in front of other pairs. */
module YamlScalars {
  import opened Wrappers
  import opened Sequences
  import opened YamlScanner
  import opened YamlParser
  import opened YamlText
  import opened YamlFlow
  import opened YamlLayout
  import opened YamlBlock

  // ---- The lines of a block ---------------------------------------------

  predicate IsLine(line: string) {
    forall k :: 0 <= k < |line| ==> !IsNewline(line[k])
  }

  /** The lines of a block: the first begins with its text, which fixes the indentation; others may be empty or
      begin with spaces of their own. */
  predicate AreLines(lines: seq<string>) {
    lines != [] && lines[0] != "" && lines[0][0] != ' ' && forall n :: 0 <= n < |lines| ==> IsLine(lines[n])
  }

  predicate AllSpaces(line: string) {
    forall k :: 0 <= k < |line| ==> line[k] == ' '
  }

  function Indented(lines: seq<string>, ind: nat): string {
    if lines == [] then ""
    else (if lines[0] == "" then "" else Spaces(ind) + lines[0]) + ("\n" + Indented(lines[1..], ind))
  }

  /** A line of nothing but spaces comes back empty. */
  function Blanked(line: string): string {
    if AllSpaces(line) then "" else line
  }

  function AllBlanked(lines: seq<string>): seq<string> {
    if lines == [] then [] else [Blanked(lines[0])] + AllBlanked(lines[1..])
  }

  lemma {:induction false} LineEndIs(s: string, i: nat, j: nat)
    requires i <= j < |s| && (forall k :: i <= k < j ==> !IsNewline(s[k])) && IsNewline(s[j])
    ensures LineEnd(s, i) == j
    decreases j - i
  {
    if i < j {
      LineEndIs(s, i + 1, j);
    }
  }

  lemma {:induction false} SpacesEnd(s: string, i: nat, j: nat)
    requires i <= j < |s| && (forall k :: i <= k < j ==> s[k] == ' ') && s[j] != ' '
    ensures SkipSpaces(s, i) == j
    decreases j - i
  {
    if i < j {
      SpacesEnd(s, i + 1, j);
    }
  }

  /** The number of leading spaces. */
  function Lead(line: string): (n: nat)
    ensures n <= |line| && (forall k :: 0 <= k < n ==> line[k] == ' ') && (n < |line| ==> line[n] != ' ')
  {
    if line == "" || line[0] != ' ' then 0 else 1 + Lead(line[1..])
  }

  /** Where the text of a printed line begins and ends. */
  lemma LineShape(s: string, i: nat, line: string, ind: nat)
    requires IsLine(line) && At(s, i, Spaces(ind) + (line + "\n"))
    ensures var j, e := i + ind + Lead(line), i + ind + |line|;
            && e < |s| && s[e] == '\n' && s[i + ind..e] == line && SkipSpaces(s, i) == j
            && (j < e ==> !IsNewline(s[j]) && LineEnd(s, j) == e)
  {
    hide At;
    hide Lead;
    var j, e := i + ind + Lead(line), i + ind + |line|;
    AtSplit(s, i, Spaces(ind), line + "\n");
    AtSplit(s, i + ind, line, "\n");
    AtIndex(s, e, "\n", 0);
    AtSlice(s, i + ind, line);
    forall k | i <= k < e ensures s[k] == if k < i + ind then ' ' else line[k - i - ind] {
      if k < i + ind {
        AtIndex(s, i, Spaces(ind), k - i);
      }
    }
    SpacesEnd(s, i, j);
    if j < e {
      LineEndIs(s, j, e);
    }
  }

  lemma LeadOfSpaces(line: string)
    ensures AllSpaces(line) <==> Lead(line) == |line|
  {
    hide Lead;
  }

  /** What one line of a block adds, when the indentation is known or is fixed by this line. */
  lemma LineReads(s: string, i: nat, line: string, ind: nat, parent: nat, block: Option<nat>)
    requires line != "" && IsLine(line) && At(s, i, Spaces(ind) + (line + "\n"))
    requires parent < ind && (block == Some(ind) || (block == None && line[0] != ' '))
    ensures var next := i + ind + |line| + 1;
            && next <= |s|
            && BlockLinesAt(s, i, parent, block) ==
               AddLine(Blanked(line), BlockLinesAt(s, next, parent, if AllSpaces(line) then block else Some(ind)))
  {
    hide At;
    hide AddLine;
    hide SkipSpaces;
    hide LineEnd;
    hide AllSpaces;
    var j, e := i + ind + Lead(line), i + ind + |line|;
    LineShape(s, i, line, ind);
    LeadOfSpaces(line);
    NextBlockLine(s, i, parent, block);
    if j < e {
      LeadPlusRest(s, i + ind, j, e, line);
    }
    hide Lead;
    hide Spaces;
  }

  lemma SpacesAre(t: string)
    requires AllSpaces(t)
    ensures Spaces(|t|) == t
  {
    hide Spaces;
  }

  lemma LeadPlusRest(s: string, m: nat, j: nat, e: nat, line: string)
    requires m <= j <= e <= |s| && s[m..e] == line && j - m == Lead(line)
    ensures Spaces(j - m) + s[j..e] == line
  {
    var k := j - m;
    assert AllSpaces(line[..k]);
    SpacesAre(line[..k]);
    hide Lead;
    hide Spaces;
    hide AllSpaces;
    assert line == line[..k] + line[k..];
    assert line[k..] == s[j..e];
  }

  lemma EmptyLineReads(s: string, i: nat, parent: nat, block: Option<nat>)
    requires i < |s| && s[i] == '\n'
    ensures BlockLinesAt(s, i, parent, block) == AddLine("", BlockLinesAt(s, i + 1, parent, block))
  {
  }

  /** A carriage return ends a line as well, so that the line feed behind it adds an empty line to the block. */
  lemma CarriageReturnAddsLine(s: string, i: nat, line: string, ind: nat, parent: nat, block: Option<nat>)
    requires line != "" && line[0] != ' ' && IsLine(line) && At(s, i, Spaces(ind) + (line + "\r\n"))
    requires parent < ind && (block == Some(ind) || block == None)
    ensures var next := i + ind + |line| + 2;
            && next <= |s|
            && BlockLinesAt(s, i, parent, block) ==
               AddLine(line, AddLine("", BlockLinesAt(s, next, parent, Some(ind))))
  {
    hide At;
    hide AddLine;
    hide SkipSpaces;
    hide LineEnd;
    hide BlockLinesAt;
    var j, e := i + ind, i + ind + |line|;
    AtSplit(s, i, Spaces(ind), line + "\r\n");
    AtSplit(s, j, line, "\r\n");
    AtIndex(s, e, "\r\n", 0);
    AtIndex(s, e, "\r\n", 1);
    AtSlice(s, j, line);
    forall k | i <= k < e ensures s[k] == if k < j then ' ' else line[k - j] {
      if k < j {
        AtIndex(s, i, Spaces(ind), k - i);
      }
    }
    SpacesEnd(s, i, j);
    LineEndIs(s, j, e);
    TextLineReads(s, i, j, e, ind, parent, block);
    EmptyLineReads(s, e + 1, parent, Some(ind));
  }

  /** A line with text, from its first character to its end. */
  lemma TextLineReads(s: string, i: nat, j: nat, e: nat, ind: nat, parent: nat, block: Option<nat>)
    requires i <= j < e < |s| && SkipSpaces(s, i) == j == i + ind && !IsNewline(s[j]) && LineEnd(s, j) == e
    requires parent < ind && (block == Some(ind) || block == None)
    ensures BlockLinesAt(s, i, parent, block) == AddLine(s[j..e], BlockLinesAt(s, e + 1, parent, Some(ind)))
  {
    hide AddLine;
    assert Spaces(0) + s[j..e] == s[j..e];
  }

  /** The lines of a block end at the end of the input or before a line that is indented less. */
  ghost predicate EndsLines(s: string, i: nat, ind: nat) {
    i == |s| || (i < |s| && SkipSpaces(s, i) < |s| && !IsNewline(s[SkipSpaces(s, i)]) && SkipSpaces(s, i) - i < ind)
  }

  lemma NoMoreLines(s: string, i: nat, parent: nat, ind: nat)
    requires EndsLines(s, i, ind)
    ensures BlockLinesAt(s, i, parent, Some(ind)) == BlockLines(Some([]), i)
  {
  }

  /** Printed lines read back as the lines, those of nothing but spaces as empty, up to a line indented less. */
  lemma {:induction false} LinesRead(s: string, i: nat, lines: seq<string>, ind: nat, parent: nat, block: Option<nat>)
    requires At(s, i, Indented(lines, ind)) && EndsLines(s, i + |Indented(lines, ind)|, ind) && parent < ind
    requires forall n :: 0 <= n < |lines| ==> IsLine(lines[n])
    requires block == Some(ind) || (block == None && AreLines(lines))
    ensures i <= |s| && BlockLinesAt(s, i, parent, block) ==
                        BlockLines(Some(AllBlanked(lines)), i + |Indented(lines, ind)|)
    decreases lines
  {
    hide At;
    hide BlockLinesAt;
    hide Spaces;
    hide EndsLines;
    AtSlice(s, i, Indented(lines, ind));
    if lines == [] {
      NoMoreLines(s, i, parent, ind);
    } else {
      var line, rest := lines[0], Indented(lines[1..], ind);
      if line == "" {
        AtSplit(s, i, "", "\n" + rest);
        AtSplit(s, i, "\n", rest);
        AtIndex(s, i, "\n", 0);
        EmptyLineReads(s, i, parent, block);
        LinesRead(s, i + 1, lines[1..], ind, parent, block);
      } else {
        var text := Spaces(ind) + line;
        assert text + ("\n" + rest) == (Spaces(ind) + (line + "\n")) + rest;
        AtSplit(s, i, Spaces(ind) + (line + "\n"), rest);
        LineReads(s, i, line, ind, parent, block);
        LinesRead(s, i + ind + |line| + 1, lines[1..], ind, parent, Some(ind));
      }
    }
  }

  lemma {:induction false} NothingBlanked(lines: seq<string>)
    requires forall n :: 0 <= n < |lines| ==> lines[n] == "" || !AllSpaces(lines[n])
    ensures AllBlanked(lines) == lines
    decreases lines
  {
    if lines != [] {
      NothingBlanked(lines[1..]);
    }
  }

  lemma DropNothing(lines: seq<string>)
    requires lines != [] && lines[|lines| - 1] != ""
    ensures DropEmptyEnd(lines) == lines
  {
  }

  lemma {:induction false} DropAll(lines: seq<string>, blank: nat)
    requires lines != [] && lines[|lines| - 1] != ""
    ensures DropEmptyEnd(lines + seq(blank, i => "")) == lines
    decreases blank
  {
    if blank == 0 {
      assert lines + seq(blank, i => "") == lines;
      DropNothing(lines);
    } else {
      var all := lines + seq(blank, i => "");
      assert all[..|all| - 1] == lines + seq(blank - 1, i => "");
      DropAll(lines, blank - 1);
    }
  }

  // ---- Folding ----------------------------------------------------------

  /** Lines with text, one after the other. */
  predicate IsParagraph(p: seq<string>) {
    p != [] && forall n :: 0 <= n < |p| ==> p[n] != ""
  }

  predicate AreParagraphs(ps: seq<seq<string>>) {
    ps != [] && forall n :: 0 <= n < |ps| ==> IsParagraph(ps[n])
  }

  /** The lines of paragraphs with an empty line between each two. */
  function ParagraphLines(ps: seq<seq<string>>): seq<string> {
    if ps == [] then []
    else if |ps| == 1 then ps[0]
    else ParagraphLines(ps[..|ps| - 1]) + [""] + ps[|ps| - 1]
  }

  function Words(p: seq<string>): string {
    if p == [] then "" else if |p| == 1 then p[0] else Words(p[..|p| - 1]) + " " + p[|p| - 1]
  }

  function ParagraphText(ps: seq<seq<string>>): string {
    if ps == [] then ""
    else if |ps| == 1 then Words(ps[0])
    else ParagraphText(ps[..|ps| - 1]) + "\n\n" + Words(ps[|ps| - 1])
  }

  lemma FoldedAppend(a: seq<string>, line: string)
    ensures Folded(a + [line]) ==
            Folded(a) + (if line == "" then "\n\n" else (if a != [] && a[|a| - 1] != "" then " " else "") + line)
  {
    assert (a + [line])[..|a|] == a;
  }

  lemma {:induction false} FoldedParagraph(a: seq<string>, p: seq<string>)
    requires IsParagraph(p) && (a == [] || a[|a| - 1] == "")
    ensures Folded(a + p) == Folded(a) + Words(p)
    decreases p
  {
    hide Folded;
    var n := |p| - 1;
    if n == 0 {
      FoldedAppend(a, p[0]);
      assert a + p == a + [p[0]];
      assert "" + p[0] == p[0];
    } else {
      FoldedParagraph(a, p[..n]);
      assert a + p == (a + p[..n]) + [p[n]];
      FoldedAppend(a + p[..n], p[n]);
      assert (Folded(a) + Words(p[..n])) + (" " + p[n]) == Folded(a) + (Words(p[..n]) + " " + p[n]);
    }
  }

  /** Folding joins the lines of a paragraph by single spaces and separates paragraphs by an empty line. */
  lemma {:induction false} FoldedParagraphs(ps: seq<seq<string>>)
    requires AreParagraphs(ps)
    ensures Folded(ParagraphLines(ps)) == ParagraphText(ps)
    ensures var lines := ParagraphLines(ps); lines != [] && lines[|lines| - 1] != ""
    decreases ps
  {
    hide Folded;
    hide IsParagraph;
    var n := |ps| - 1;
    assert IsParagraph(ps[n]);
    LastHasText(ps[n]);
    if n == 0 {
      FoldedParagraph([], ps[0]);
      FoldedNothing();
      assert [] + ps[0] == ps[0] && "" + Words(ps[0]) == Words(ps[0]);
    } else {
      FoldedParagraphs(ps[..n]);
      FoldedAppend(ParagraphLines(ps[..n]), "");
      FoldedParagraph(ParagraphLines(ps[..n]) + [""], ps[n]);
    }
  }

  lemma FoldedNothing()
    ensures Folded([]) == ""
  {
  }

  lemma LastHasText(p: seq<string>)
    requires IsParagraph(p)
    ensures p != [] && p[|p| - 1] != ""
  {
  }

  // ---- Blocks in documents ----------------------------------------------

  /** The lines, each with its line feed. */
  function Unlines(lines: seq<string>): string {
    if lines == [] then "" else lines[0] + "\n" + Unlines(lines[1..])
  }

  lemma {:induction false} JoinIsUnlines(lines: seq<string>)
    requires lines != []
    ensures JoinLines(lines) + "\n" == Unlines(lines)
    decreases lines
  {
    if |lines| > 1 {
      JoinIsUnlines(lines[1..]);
      assert (lines[0] + "\n") + (JoinLines(lines[1..]) + "\n") == (lines[0] + "\n" + JoinLines(lines[1..])) + "\n";
    } else {
      assert lines[0] + "\n" + "" == lines[0] + "\n";
    }
  }

  /** The text of a block in a mapping: its lines as they are, or paragraphs to be folded. */
  datatype Block = Literal(lines: seq<string>) | Folding(paragraphs: seq<seq<string>>)

  function LinesOf(b: Block): seq<string> {
    match b
    case Literal(lines) => lines
    case Folding(ps) => ParagraphLines(ps)
  }

  function ValueOf(b: Block): string {
    match b
    case Literal(lines) => Unlines(lines)
    case Folding(ps) => ParagraphText(ps) + "\n"
  }

  /** A block that the scanner can give back: its first line fixes the indentation, its last has text, and no line is
      nothing but spaces. */
  predicate IsBlock(b: Block) {
    && (b.Folding? ==> AreParagraphs(b.paragraphs))
    && var lines := LinesOf(b);
       && AreLines(lines) && lines[|lines| - 1] != ""
       && forall n :: 0 <= n < |lines| ==> lines[n] == "" || !AllSpaces(lines[n])
  }

  /** A key with a block for its value, and `blank` empty lines behind it. */
  function BlockPair(l: Layout, key: string, b: Block, ind: nat, blank: nat): string {
    KeyText(l.block, key) + (l.block.space + ((if b.Literal? then "|" else ">") + ("\n" +
      Indented(LinesOf(b) + seq(blank, i => ""), ind))))
  }

  lemma {:induction false} BlankedAppend(lines: seq<string>, blank: nat)
    requires forall n :: 0 <= n < |lines| ==> lines[n] == "" || !AllSpaces(lines[n])
    ensures AllBlanked(lines + seq(blank, i => "")) == lines + seq(blank, i => "")
  {
    NothingBlanked(lines + seq(blank, i => ""));
  }

  lemma BlockTextIs(b: Block, blank: nat)
    requires IsBlock(b)
    ensures BlockText(Some(LinesOf(b) + seq(blank, i => "")), b.Literal?) == ValueOf(b)
  {
    hide Folded;
    hide JoinLines;
    DropAll(LinesOf(b), blank);
    if b.Folding? {
      FoldedParagraphs(b.paragraphs);
    } else {
      JoinIsUnlines(b.lines);
    }
  }

  lemma {:induction false} IndentedEnds(lines: seq<string>, ind: nat)
    requires lines != []
    ensures var t := Indented(lines, ind); t != "" && t[|t| - 1] == '\n'
    decreases lines
  {
    if |lines| > 1 {
      IndentedEnds(lines[1..], ind);
    }
  }

  lemma MarkContent(s: string, c: nat)
    requires c + 1 < |s| && (s[c] == '|' || s[c] == '>') && s[c + 1] == '\n'
    ensures StartsToken(s[c])
    ensures var b := BlockLinesAt(s, c + 2, 0, None);
            ContentAt(s, c, 0) ==
            Ok((Token(if s[c] == '|' then LiteralBlock else FoldedBlock, BlockText(b.lines, s[c] == '|'), 0), b.next))
  {
    hide BlockLinesAt;
    hide BlockText;
    assert BlockStart(s, c + 1) == c + 2;
  }

  lemma BlockLinesAre(b: Block, blank: nat)
    requires IsBlock(b)
    ensures var all := LinesOf(b) + seq(blank, i => "");
            AreLines(all) && AllBlanked(all) == all && BlockText(Some(all), b.Literal?) == ValueOf(b)
  {
    hide BlockText;
    hide ParagraphLines;
    var all := LinesOf(b) + seq(blank, i => "");
    assert all[0] == LinesOf(b)[0];
    BlankedAppend(LinesOf(b), blank);
    BlockTextIs(b, blank);
  }

  /** The indicator of a block and its lines are one token. */
  lemma BlockToken(s: string, c: nat, b: Block, ind: nat, blank: nat)
    requires IsBlock(b) && ind > 0
    requires var lines := Indented(LinesOf(b) + seq(blank, i => ""), ind);
             && At(s, c, (if b.Literal? then "|" else ">") + ("\n" + lines))
             && EndsLines(s, c + 2 + |lines|, ind)
    ensures var lines := Indented(LinesOf(b) + seq(blank, i => ""), ind);
            && c < |s| && StartsToken(s[c])
            && ContentAt(s, c, 0) ==
               Ok((Token(if b.Literal? then LiteralBlock else FoldedBlock, ValueOf(b), 0), c + 2 + |lines|))
  {
    hide At;
    hide IsBlock;
    hide BlockLinesAt;
    hide BlockText;
    hide EndsLines;
    hide Indented;
    hide ContentAt;
    hide LinesOf;
    hide ValueOf;
    hide AllBlanked;
    var all := LinesOf(b) + seq(blank, i => "");
    var mark := if b.Literal? then "|" else ">";
    AtSplit(s, c, mark, "\n" + Indented(all, ind));
    AtSplit(s, c + 1, "\n", Indented(all, ind));
    AtIndex(s, c, mark, 0);
    AtIndex(s, c + 1, "\n", 0);
    MarkContent(s, c);
    BlockLinesAre(b, blank);
    LinesRead(s, c + 2, all, ind, 0, None);
  }

  /** The lines of the next pairs are indented less than a block in front of them. */
  lemma PairsEndLines(l: Layout, s: string, i: nat, ps: seq<Pair>, ind: nat)
    requires Proper(l) && l.block.gap == [] && ind > 0
    requires At(s, i, PairLines(l, ps, 0)) && i + |PairLines(l, ps, 0)| == |s|
    ensures EndsLines(s, i, ind)
  {
    hide At;
    hide KeyText;
    hide ValueText;
    hide Proper;
    if ps != [] {
      var k := KeyText(l.block, ps[0].key);
      assert Front(l, 0) == "";
      assert PairLines(l, ps, 0) ==
             k + (ValueText(l, ps[0].value, 0, LeftOut(l.block, ps[0].value)) + PairLines(l, ps[1..], 0));
      KeyTextStarts(l, ps[0].key);
      AtIndex(s, i, PairLines(l, ps, 0), 0);
      assert SkipSpaces(s, i) == i;
    }
  }

  /** A mapping whose first value is a block: the block ends before the next key, loses the empty lines behind it, and
      the other pairs are read as in any document. */
  lemma BlockScalarLoads(l: Layout, key: string, b: Block, ind: nat, blank: nat, ps: seq<Pair>)
    requires Proper(l) && l.block.gap == [] && IsBlock(b) && ind > 0 && SafePairs(l, ps, false)
    ensures Load(BlockPair(l, key, b, ind, blank) + PairLines(l, ps, 0)) ==
            Ok(MappingNode([Pair(key, ScalarNode(ValueOf(b)))] + ps))
  {
    hide ScanFrom;
    hide DocumentOf;
    hide IsBlock;
    hide SafePairs;
    hide BlockPair;
    BlockPairScans(l, key, b, ind, blank, ps);
    BlockPairParses(l, key, BlockTokenOf(b), ps);
  }

  function BlockTokenOf(b: Block): Token {
    Token(if b.Literal? then LiteralBlock else FoldedBlock, ValueOf(b), 0)
  }

  lemma SpaceIsBlank(l: Layout)
    requires Proper(l)
    ensures AllBlank(l.block.space) && l.block.space != ""
  {
  }

  /** The key and the block up to the next line of the mapping. */
  lemma BlockPairStarts(l: Layout, s: string, key: string, b: Block, ind: nat, blank: nat)
    requires Proper(l) && IsBlock(b) && ind > 0 && At(s, 0, BlockPair(l, key, b, ind, blank))
    requires EndsLines(s, |BlockPair(l, key, b, ind, blank)|, ind)
    ensures var e := |BlockPair(l, key, b, ind, blank)|;
            && e <= |s| && AtLineStart(s, e)
            && ScanFrom(s, 0, 0) ==
               Prepend([Token(MappingKey, key, 0)], Prepend([BlockTokenOf(b)], ScanFrom(s, e, 0)))
  {
    hide At;
    hide ScanFrom;
    hide KeyText;
    hide ContentAt;
    hide BlockTokenAt;
    hide Indented;
    hide IsBlock;
    hide ValueOf;
    hide EndsLines;
    hide Proper;
    SpaceIsBlank(l);
    var k, lines := KeyText(l.block, key), Indented(LinesOf(b) + seq(blank, i => ""), ind);
    var mark := if b.Literal? then "|" else ">";
    var c := |k| + |l.block.space|;
    AtSplit(s, 0, k, l.block.space + (mark + ("\n" + lines)));
    AtSplit(s, |k|, l.block.space, mark + ("\n" + lines));
    AtIndex(s, |k|, l.block.space, 0);
    BlockToken(s, c, b, ind, blank);
    BlanksAt(s, |k|, l.block.space);
    InlineKeyScans(l, s, 0, key);
    InlineToken(s, c);
    BlockStep(s, c, BlockTokenOf(b), c + 2 + |lines|);
    BlockEndsLine(s, c, b, lines, ind, blank);
  }

  lemma BlockPairScans(l: Layout, key: string, b: Block, ind: nat, blank: nat, ps: seq<Pair>)
    requires Proper(l) && l.block.gap == [] && IsBlock(b) && ind > 0
    ensures ScanFrom(BlockPair(l, key, b, ind, blank) + PairLines(l, ps, 0), 0, 0) ==
            Ok([Token(MappingKey, key, 0)] + ([BlockTokenOf(b)] + (PairsTokens(l, ps, 0, 0) + [EOF])))
  {
    hide At;
    hide ScanFrom;
    hide BlockPair;
    hide PairLines;
    hide PairsTokens;
    hide IsBlock;
    hide EndsLines;
    hide Proper;
    var front, rest := BlockPair(l, key, b, ind, blank), PairLines(l, ps, 0);
    var s := front + rest;
    AtWhole(s);
    AtSplit(s, 0, front, rest);
    PairsEndLines(l, s, |front|, ps, ind);
    BlockPairStarts(l, s, key, b, ind, blank);
    PairsScanBlock(l, s, |front|, ps, 0);
    EndScans(s);
    assert ScanFrom(s, |front|, 0) == Ok(PairsTokens(l, ps, 0, 0) + [EOF]);
  }

  lemma BlockEndsLine(s: string, c: nat, b: Block, lines: string, ind: nat, blank: nat)
    requires IsBlock(b) && lines == Indented(LinesOf(b) + seq(blank, i => ""), ind)
    requires At(s, c, (if b.Literal? then "|" else ">") + ("\n" + lines))
    ensures c + 2 + |lines| <= |s| && AtLineStart(s, c + 2 + |lines|)
  {
    hide Indented;
    IndentedEnds(LinesOf(b) + seq(blank, i => ""), ind);
    var mark := if b.Literal? then "|" else ">";
    AtIndex(s, c, mark + ("\n" + lines), 1 + |lines|);
  }

  lemma BlockPairParses(l: Layout, key: string, tok: Token, ps: seq<Pair>)
    requires (tok.kind.LiteralBlock? || tok.kind.FoldedBlock?) && SafePairs(l, ps, false)
    ensures DocumentOf([Token(MappingKey, key, 0)] + ([tok] + (PairsTokens(l, ps, 0, 0) + [EOF]))) ==
            Ok(MappingNode([Pair(key, ScalarNode(tok.value))] + ps))
  {
    hide At;
    hide PairsAt;
    hide PairsTokens;
    hide SafePairs;
    var front, tokens := [Token(MappingKey, key, 0), tok], PairsTokens(l, ps, 0, 0);
    var ts := [Token(MappingKey, key, 0)] + ([tok] + (tokens + [EOF]));
    AtMiddle(front, tokens, [EOF]);
    assert front + tokens + [EOF] == ts;
    PairsParseBlock(l, ts, 2, ps, 0, -1, 1);
    PairTaken(ts, 0, -1, 0, 0, 0, key);
    assert MappingValueAt(ts, 1, 0) == Ok((ScalarNode(tok.value), 2));
  }
}
