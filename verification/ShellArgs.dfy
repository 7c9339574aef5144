/** Splitting a command line into words (connector/cli/options.go, parseShellArgs).

    First the function that the loop computes and the loop itself, then a writer of command lines in all forms of
    quoting, and then what is read of what it writes. */
module ShellArgs {
  import opened Wrappers
  import opened Sequences
  import opened Quoting

  /** What the loop returns from position `i` on; None is the unterminated quote. */
  function ParseFrom(s: string, i: nat, current: string, args: seq<string>, inSingle: bool, inDouble: bool)
    : Option<seq<string>>
    requires i <= |s|
    decreases |s| - i
  {
    if i == |s| then
      if inSingle || inDouble then None else Some(Flush(args, current))
    else if s[i] == '\\' && inDouble && i + 1 < |s| then
      ParseFrom(s, i + 2, current + [s[i + 1]], args, inSingle, inDouble)
    else if s[i] == '\'' && !inDouble then ParseFrom(s, i + 1, current, args, !inSingle, inDouble)
    else if s[i] == '"' && !inSingle then ParseFrom(s, i + 1, current, args, inSingle, !inDouble)
    else if (s[i] == ' ' || s[i] == '\t') && !inSingle && !inDouble then
      ParseFrom(s, i + 1, "", Flush(args, current), inSingle, inDouble)
    else ParseFrom(s, i + 1, current + [s[i]], args, inSingle, inDouble)
  }

  /** A word is kept only if it is not empty. */
  function Flush(args: seq<string>, current: string): seq<string> {
    if current == "" then args else args + [current]
  }

  method ParseShellArgs(command: string) returns (r: Option<seq<string>>)
    ensures r == ParseFrom(command, 0, "", [], false, false)
  {
    var args: seq<string> := [];
    var current := "";
    var inSingle, inDouble := false, false;
    var i := 0;
    while i < |command|
      invariant i <= |command| && !(inSingle && inDouble)
      invariant ParseFrom(command, 0, "", [], false, false) ==
                ParseFrom(command, i, current, args, inSingle, inDouble)
      decreases |command| - i
    {
      var ch := command[i];
      if ch == '\\' && inDouble && i + 1 < |command| {
        i := i + 1;
        current := current + [command[i]];
      } else if ch == '\'' && !inDouble {
        inSingle := !inSingle;
      } else if ch == '"' && !inSingle {
        inDouble := !inDouble;
      } else if (ch == ' ' || ch == '\t') && !inSingle && !inDouble {
        if |current| > 0 {
          args := args + [current];
          current := "";
        }
      } else {
        current := current + [ch];
      }
      i := i + 1;
    }
    if inSingle || inDouble {
      return None;
    }
    if |current| > 0 {
      args := args + [current];
    }
    return Some(args);
  }

  // ---- Writing words ----------------------------------------------------

  /** A stretch of a word: as it is, between single quotes, or between double quotes with a backslash before each quote
      and backslash, or before every character. */
  datatype Piece = Bare(text: string) | Single(text: string) | Double(text: string) | Backslashed(text: string)

  /** A word, written in pieces without a break, and the blanks behind it. */
  datatype Word = Word(pieces: seq<Piece>, gap: string)

  predicate IsBlank(c: char) {
    c == ' ' || c == '\t'
  }

  predicate Writable(p: Piece) {
    match p
    case Bare(t) => forall k :: 0 <= k < |t| ==> !IsBlank(t[k]) && t[k] != '\'' && t[k] != '"'
    case Single(t) => '\'' !in t
    case _ => true
  }

  predicate AllWritable(ps: seq<Piece>) {
    forall k :: 0 <= k < |ps| ==> Writable(ps[k])
  }

  predicate AllBlank(gap: string) {
    forall k :: 0 <= k < |gap| ==> IsBlank(gap[k])
  }

  /** Every word but the last has blanks behind it. */
  predicate Separated(ws: seq<Word>) {
    ws != [] ==>
      AllWritable(ws[0].pieces) && AllBlank(ws[0].gap) && (|ws| > 1 ==> ws[0].gap != "") && Separated(ws[1..])
  }

  function Write(p: Piece): string {
    match p
    case Bare(t) => t
    case Single(t) => "'" + (t + "'")
    case Double(t) => Quote(t)
    case Backslashed(t) => "\"" + (EscapeEvery(t) + "\"")
  }

  function EscapeEvery(t: string): string {
    if t == "" then "" else ['\\', t[0]] + EscapeEvery(t[1..])
  }

  function WriteWord(ps: seq<Piece>): string {
    if ps == [] then "" else Write(ps[0]) + WriteWord(ps[1..])
  }

  function WriteAll(ws: seq<Word>): string {
    if ws == [] then "" else WriteWord(ws[0].pieces) + (ws[0].gap + WriteAll(ws[1..]))
  }

  function TextOf(ps: seq<Piece>): string {
    if ps == [] then "" else ps[0].text + TextOf(ps[1..])
  }

  function TextsOf(ws: seq<Word>): seq<string> {
    if ws == [] then [] else [TextOf(ws[0].pieces)] + TextsOf(ws[1..])
  }

  function NonEmpty(ts: seq<string>): seq<string> {
    if ts == [] then [] else (if ts[0] == "" then [] else [ts[0]]) + NonEmpty(ts[1..])
  }

  // ---- Reading them back ------------------------------------------------

  lemma {:induction false} EscapedReads(s: string, i: nat, w: string, current: string, args: seq<string>)
    requires At(s, i, Escape(w) + "\"")
    ensures i + |Escape(w)| + 1 <= |s|
    ensures ParseFrom(s, i, current, args, false, true) ==
            ParseFrom(s, i + |Escape(w)| + 1, current + w, args, false, false)
    decreases w
  {
    hide At;
    AtIndex(s, i, Escape(w) + "\"", 0);
    if w == "" {
      assert current + w == current;
    } else {
      var head, rest := EscapeOne(w[0]), Escape(w[1..]) + "\"";
      assert Escape(w) + "\"" == head + rest;
      AtSplit(s, i, head, rest);
      AtIndex(s, i, head, |head| - 1);
      AtIndex(s, i + |head|, rest, 0);
      EscapedReads(s, i + |head|, w[1..], current + [w[0]], args);
      assert (current + [w[0]]) + w[1..] == current + w;
    }
  }

  lemma DoubleReads(s: string, i: nat, w: string, current: string, args: seq<string>)
    requires At(s, i, Quote(w))
    ensures i + |Quote(w)| <= |s|
    ensures ParseFrom(s, i, current, args, false, false) ==
            ParseFrom(s, i + |Quote(w)|, current + w, args, false, false)
  {
    hide At;
    AtSplit(s, i, "\"", Escape(w) + "\"");
    AtIndex(s, i, "\"", 0);
    EscapedReads(s, i + 1, w, current, args);
  }

  /** Between double quotes a backslash makes any character stand for itself. */
  lemma {:induction false} BackslashedReads(s: string, i: nat, t: string, current: string, args: seq<string>)
    requires At(s, i, EscapeEvery(t) + "\"")
    ensures i + |EscapeEvery(t)| + 1 <= |s|
    ensures ParseFrom(s, i, current, args, false, true) ==
            ParseFrom(s, i + |EscapeEvery(t)| + 1, current + t, args, false, false)
    decreases t
  {
    hide At;
    AtIndex(s, i, EscapeEvery(t) + "\"", 0);
    if t == "" {
      assert current + t == current;
    } else {
      var head, rest := ['\\', t[0]], EscapeEvery(t[1..]) + "\"";
      assert EscapeEvery(t) + "\"" == head + rest;
      AtSplit(s, i, head, rest);
      AtIndex(s, i, head, 1);
      BackslashedReads(s, i + 2, t[1..], current + [t[0]], args);
      assert (current + [t[0]]) + t[1..] == current + t;
    }
  }

  /** Characters that mean nothing where they stand are taken as they are, between single quotes all but that quote. */
  lemma {:induction false} PlainReads(s: string, i: nat, t: string, current: string, args: seq<string>, inSingle: bool)
    requires At(s, i, t)
    requires if inSingle then '\'' !in t else Writable(Bare(t))
    ensures i + |t| <= |s|
    ensures ParseFrom(s, i, current, args, inSingle, false) ==
            ParseFrom(s, i + |t|, current + t, args, inSingle, false)
    decreases t
  {
    hide At;
    AtSlice(s, i, t);
    if t == "" {
      assert current + t == current;
    } else {
      assert t == [t[0]] + t[1..];
      AtSplit(s, i, [t[0]], t[1..]);
      AtIndex(s, i, t, 0);
      PlainReads(s, i + 1, t[1..], current + [t[0]], args, inSingle);
      assert (current + [t[0]]) + t[1..] == current + t;
    }
  }

  lemma SingleReads(s: string, i: nat, t: string, current: string, args: seq<string>)
    requires At(s, i, "'" + (t + "'")) && '\'' !in t
    ensures i + |t| + 2 <= |s|
    ensures ParseFrom(s, i, current, args, false, false) ==
            ParseFrom(s, i + |t| + 2, current + t, args, false, false)
  {
    hide At;
    AtSplit(s, i, "'", t + "'");
    AtSplit(s, i + 1, t, "'");
    AtIndex(s, i, "'", 0);
    AtIndex(s, i + 1 + |t|, "'", 0);
    PlainReads(s, i + 1, t, current, args, true);
  }

  lemma BackslashedWordReads(s: string, i: nat, t: string, current: string, args: seq<string>)
    requires At(s, i, "\"" + (EscapeEvery(t) + "\""))
    ensures i + |EscapeEvery(t)| + 2 <= |s|
    ensures ParseFrom(s, i, current, args, false, false) ==
            ParseFrom(s, i + |EscapeEvery(t)| + 2, current + t, args, false, false)
  {
    hide At;
    AtSplit(s, i, "\"", EscapeEvery(t) + "\"");
    AtIndex(s, i, "\"", 0);
    BackslashedReads(s, i + 1, t, current, args);
  }

  lemma PieceReads(s: string, i: nat, p: Piece, current: string, args: seq<string>)
    requires At(s, i, Write(p)) && Writable(p)
    ensures i + |Write(p)| <= |s|
    ensures ParseFrom(s, i, current, args, false, false) ==
            ParseFrom(s, i + |Write(p)|, current + p.text, args, false, false)
  {
    hide At;
    hide ParseFrom;
    hide Quote;
    hide EscapeEvery;
    match p
    case Bare(t) => PlainReads(s, i, t, current, args, false);
    case Single(t) => SingleReads(s, i, t, current, args);
    case Double(t) => DoubleReads(s, i, t, current, args);
    case Backslashed(t) => BackslashedWordReads(s, i, t, current, args);
  }

  lemma {:induction false} WordReads(s: string, i: nat, ps: seq<Piece>, current: string, args: seq<string>)
    requires At(s, i, WriteWord(ps)) && AllWritable(ps)
    ensures i + |WriteWord(ps)| <= |s|
    ensures ParseFrom(s, i, current, args, false, false) ==
            ParseFrom(s, i + |WriteWord(ps)|, current + TextOf(ps), args, false, false)
    decreases ps
  {
    hide At;
    hide Write;
    hide Writable;
    hide ParseFrom;
    AtSlice(s, i, WriteWord(ps));
    if ps == [] {
      assert current + TextOf(ps) == current;
    } else {
      AtSplit(s, i, Write(ps[0]), WriteWord(ps[1..]));
      PieceReads(s, i, ps[0], current, args);
      WordReads(s, i + |Write(ps[0])|, ps[1..], current + ps[0].text, args);
      assert (current + ps[0].text) + TextOf(ps[1..]) == current + TextOf(ps);
    }
  }

  /** A blank outside quotes ends the word. */
  lemma BlankReads(s: string, i: nat, current: string, args: seq<string>)
    requires i < |s| && IsBlank(s[i])
    ensures ParseFrom(s, i, current, args, false, false) == ParseFrom(s, i + 1, "", Flush(args, current), false, false)
  {
    hide Flush;
  }

  lemma {:induction false} GapReads(s: string, i: nat, gap: string, args: seq<string>)
    requires At(s, i, gap) && AllBlank(gap)
    ensures i + |gap| <= |s|
    ensures ParseFrom(s, i, "", args, false, false) == ParseFrom(s, i + |gap|, "", args, false, false)
    decreases gap
  {
    hide At;
    hide ParseFrom;
    AtSlice(s, i, gap);
    if gap != "" {
      assert gap == [gap[0]] + gap[1..];
      AtSplit(s, i, [gap[0]], gap[1..]);
      AtIndex(s, i, gap, 0);
      BlankReads(s, i, "", args);
      GapReads(s, i + 1, gap[1..], args);
    }
  }

  lemma EndReads(s: string, current: string, args: seq<string>)
    ensures ParseFrom(s, |s|, current, args, false, false) == Some(Flush(args, current))
  {
  }

  lemma FlushKeeps(args: seq<string>, ts: seq<string>)
    requires ts != []
    ensures Flush(args, ts[0]) + NonEmpty(ts[1..]) == args + NonEmpty(ts)
  {
    var rest := NonEmpty(ts[1..]);
    if ts[0] == "" {
      assert NonEmpty(ts) == [] + rest == rest;
    } else {
      assert (args + [ts[0]]) + rest == args + ([ts[0]] + rest);
    }
  }

  /** What stands behind the words: nothing, or a quote that is opened and not closed again. */
  ghost predicate Open(rest: string, open: bool) {
    if !open then rest == ""
    else exists t: string :: rest == "\"" + Escape(t) || (rest == "'" + t && '\'' !in t)
  }

  lemma {:induction false} EscapedRunsOut(s: string, i: nat, t: string, current: string, args: seq<string>)
    requires At(s, i, Escape(t)) && i + |Escape(t)| == |s|
    ensures ParseFrom(s, i, current, args, false, true) == None
    decreases t
  {
    hide At;
    if t != "" {
      AtSplit(s, i, EscapeOne(t[0]), Escape(t[1..]));
      AtIndex(s, i, EscapeOne(t[0]), 0);
      AtIndex(s, i, EscapeOne(t[0]), |EscapeOne(t[0])| - 1);
      EscapedRunsOut(s, i + |EscapeOne(t[0])|, t[1..], current + [t[0]], args);
    }
  }

  lemma OpenReads(s: string, i: nat, rest: string, current: string, args: seq<string>)
    requires At(s, i, rest) && i + |rest| == |s| && Open(rest, true)
    ensures ParseFrom(s, i, current, args, false, false) == None
  {
    hide At;
    var t: string :| rest == "\"" + Escape(t) || (rest == "'" + t && '\'' !in t);
    if rest == "\"" + Escape(t) {
      AtSplit(s, i, "\"", Escape(t));
      AtIndex(s, i, "\"", 0);
      EscapedRunsOut(s, i + 1, t, current, args);
    } else {
      AtSplit(s, i, "'", t);
      AtIndex(s, i, "'", 0);
      PlainReads(s, i + 1, t, current, args, true);
    }
  }

  lemma {:induction false} WordsRead(s: string, i: nat, ws: seq<Word>, rest: string, open: bool, args: seq<string>)
    requires Separated(ws) && Open(rest, open) && At(s, i, WriteAll(ws) + rest) && i + |WriteAll(ws) + rest| == |s|
    ensures ParseFrom(s, i, "", args, false, false) == if open then None else Some(args + NonEmpty(TextsOf(ws)))
    decreases ws
  {
    hide At;
    hide Open;
    hide ParseFrom;
    hide WriteWord;
    hide TextsOf;
    hide TextOf;
    hide NonEmpty;
    hide Flush;
    if ws == [] {
      NothingLeft(s, i, rest, open, args);
    } else {
      var word, gap, more := WriteWord(ws[0].pieces), ws[0].gap, WriteAll(ws[1..]) + rest;
      assert WriteAll(ws) + rest == word + (gap + more);
      AtSplit(s, i, word, gap + more);
      AtSplit(s, i + |word|, gap, more);
      WordReads(s, i, ws[0].pieces, "", args);
      assert "" + TextOf(ws[0].pieces) == TextOf(ws[0].pieces);
      var text := TextOf(ws[0].pieces);
      TextsStep(ws, args);
      if gap == "" {
        assert ws[1..] == [] && more == rest && gap + more == rest;
        LastWord(s, i + |word|, rest, open, text, args);
        NoTexts(Flush(args, text));
      } else {
        assert gap == [gap[0]] + gap[1..];
        AtSplit(s, i + |word|, [gap[0]], gap[1..]);
        AtIndex(s, i + |word|, gap, 0);
        BlankReads(s, i + |word|, text, args);
        GapReads(s, i + |word| + 1, gap[1..], Flush(args, text));
        WordsRead(s, i + |word| + |gap|, ws[1..], rest, open, Flush(args, text));
      }
    }
  }

  lemma TextsStep(ws: seq<Word>, args: seq<string>)
    requires ws != []
    ensures Flush(args, TextOf(ws[0].pieces)) + NonEmpty(TextsOf(ws[1..])) == args + NonEmpty(TextsOf(ws))
  {
    FlushKeeps(args, TextsOf(ws));
  }

  lemma NoTexts(args: seq<string>)
    ensures args + NonEmpty(TextsOf([])) == args
  {
  }

  lemma LastWord(s: string, i: nat, rest: string, open: bool, current: string, args: seq<string>)
    requires Open(rest, open) && At(s, i, rest) && i + |rest| == |s|
    ensures ParseFrom(s, i, current, args, false, false) == if open then None else Some(Flush(args, current))
  {
    if open {
      OpenReads(s, i, rest, current, args);
    } else {
      EndReads(s, current, args);
    }
  }

  lemma NothingLeft(s: string, i: nat, rest: string, open: bool, args: seq<string>)
    requires Open(rest, open) && At(s, i, WriteAll([]) + rest) && i + |rest| == |s|
    ensures ParseFrom(s, i, "", args, false, false) == if open then None else Some(args + NonEmpty(TextsOf([])))
  {
    assert WriteAll([]) + rest == rest;
    LastWord(s, i, rest, open, "", args);
    assert NonEmpty(TextsOf([])) == [] && args + [] == args;
  }

  lemma {:induction false} NonEmptyIsAll(ts: seq<string>)
    ensures |NonEmpty(ts)| <= |ts|
    ensures NonEmpty(ts) == ts <==> "" !in ts
    decreases ts
  {
    if ts != [] {
      NonEmptyIsAll(ts[1..]);
      if ts[0] != "" {
        assert ts == [ts[0]] + ts[1..];
        assert NonEmpty(ts)[1..] == NonEmpty(ts[1..]);
      }
    }
  }

  /** Words written in any mixture of plain, single-quoted and double-quoted pieces, with any blanks between them,
      come back in their order, but for the empty ones, which the splitter drops. */
  lemma WordsRoundTrip(ws: seq<Word>)
    requires Separated(ws)
    ensures ParseFrom(WriteAll(ws), 0, "", [], false, false) == Some(NonEmpty(TextsOf(ws)))
    ensures ParseFrom(WriteAll(ws), 0, "", [], false, false) == Some(TextsOf(ws)) <==> "" !in TextsOf(ws)
  {
    hide ParseFrom;
    hide WriteAll;
    hide Separated;
    assert WriteAll(ws) + "" == WriteAll(ws);
    AtWhole(WriteAll(ws));
    WordsRead(WriteAll(ws), 0, ws, "", false, []);
    assert [] + NonEmpty(TextsOf(ws)) == NonEmpty(TextsOf(ws));
    NonEmptyIsAll(TextsOf(ws));
  }

  /** A quote that is opened behind any such words and never closed is the error. */
  lemma OpenQuoteFails(ws: seq<Word>, rest: string)
    requires Separated(ws) && Open(rest, true)
    ensures ParseFrom(WriteAll(ws) + rest, 0, "", [], false, false) == None
  {
    hide ParseFrom;
    hide WriteAll;
    hide Separated;
    AtWhole(WriteAll(ws) + rest);
    WordsRead(WriteAll(ws) + rest, 0, ws, rest, true, []);
  }
}
