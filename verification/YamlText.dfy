/** Keys and scalars written plain, in single quotes, in double quotes or with escape sequences read back, in block and
    in flow context (core/yaml/scanner.go).

    First the forms and what they can hold, then blanks and comments, quoted texts, plain texts, and all of them. */
module YamlText {
  import opened Wrappers
  import opened Sequences
  import opened Quoting
  import opened YamlScanner

  /** Escaped is a text in double quotes with a backslash before every character that has an escape sequence. */
  datatype Form = Plain | SingleQuoted | DoubleQuoted | Escaped

  function Shown(v: string, form: Form): string {
    match form
    case Plain => v
    case SingleQuoted => "'" + (v + "'")
    case DoubleQuoted => Quote(v)
    case Escaped => "\"" + (EscapeAll(v) + "\"")
  }

  function EscapeFully(c: char): string {
    match c
    case '\n' => "\\n"
    case '\t' => "\\t"
    case '\r' => "\\r"
    case '/' => "\\/"
    case '"' => "\\\""
    case '\\' => "\\\\"
    case _ => [c]
  }

  function EscapeAll(v: string): string {
    if v == "" then "" else EscapeFully(v[0]) + EscapeAll(v[1..])
  }

  /** A blank line or a comment; its line feed may have a carriage return in front. */
  datatype Filler = Filler(blanks: string, comment: Option<string>, cr: bool)

  /** How documents are written: the form of each key and scalar, the blanks before and behind a colon, the blank lines
      and comments that stand before every line of block context and behind every separator of flow context, what stands
      behind the value at the end of a line, whether empty values are left out where that is possible, and whether flow
      collections end in a comma. */
  datatype Style = Style(
    key: string -> Form,
    text: string -> Form,
    pad: string,
    space: string,
    gap: seq<Filler>,
    tail: Filler,
    bare: bool,
    comma: bool)

  function KeyText(st: Style, k: string): string {
    Shown(k, st.key(k)) + (st.pad + ":")
  }

  function ScalarText(st: Style, v: string): string {
    Shown(v, st.text(v))
  }

  function FillerText(f: Filler): string {
    f.blanks + (CommentText(f) + LineBreak(f))
  }

  function CommentText(f: Filler): string {
    if f.comment.Some? then "#" + f.comment.value else ""
  }

  function LineBreak(f: Filler): string {
    if f.cr then "\r\n" else "\n"
  }

  function GapText(gap: seq<Filler>): string {
    if gap == [] then "" else FillerText(gap[0]) + GapText(gap[1..])
  }

  // ---- What can be written plain ----------------------------------------

  predicate IsQuote(c: char) {
    c == '"' || c == '\''
  }

  /** Neither white space nor the start of a comment. */
  predicate StartsToken(c: char) {
    !IsInline(c) && !IsNewline(c) && c != '#'
  }

  /** One line without white space around it, in which no colon ends a key. */
  predicate IsQuiet(t: string) {
    && t != "" && StartsToken(t[0]) && !IsInline(t[|t| - 1])
    && forall k :: 0 <= k < |t| ==> IsQuietAt(t, k)
  }

  predicate IsQuietAt(t: string, k: nat)
    requires k < |t|
  {
    !IsNewline(t[k]) && (t[k] == ':' ==> k + 1 < |t| && !IsInline(t[k + 1]))
  }

  /** No `#` begins a comment. */
  predicate NoComment(t: string) {
    forall k :: 0 < k < |t| && t[k] == '#' ==> t[k - 1] != ' '
  }

  /** A plain text of flow context: it holds no bracket, brace or comma and does not begin with a quote. */
  predicate IsFlowPlain(t: string) {
    IsQuiet(t) && NoComment(t) && !IsQuote(t[0]) && forall k :: 0 <= k < |t| ==> !EndsFlowPlain(t[k])
  }

  /** A plain key of block context: it holds no quote and does not begin with an indicator. */
  predicate IsBlockPlain(t: string) {
    && IsQuiet(t) && (forall k :: 0 <= k < |t| ==> !IsQuote(t[k]))
    && t[0] != '[' && t[0] != '{' && t[0] != '|' && t[0] != '>' && t != "-" && !("- " <= t)
  }

  datatype Place = InFlow | BlockKey | BlockScalar

  /** The form can hold the text. A key of block context may even hold ` #`. */
  predicate Legible(v: string, form: Form, place: Place) {
    match form
    case Plain => if place.InFlow? then IsFlowPlain(v) else IsBlockPlain(v) && (place.BlockKey? || NoComment(v))
    case SingleQuoted => '\'' !in v
    case _ => true
  }

  predicate AllBlank(t: string) {
    forall k :: 0 <= k < |t| ==> IsInline(t[k])
  }

  predicate IsFiller(f: Filler) {
    AllBlank(f.blanks) && (f.comment.Some? ==> '\n' !in f.comment.value)
  }

  predicate AllFillers(gap: seq<Filler>) {
    forall k :: 0 <= k < |gap| ==> IsFiller(gap[k])
  }

  /** Blanks, and behind a space a comment in which the scanner of plain scalars finds no colon. */
  predicate IsTail(f: Filler) {
    && AllBlank(f.blanks)
    && (f.comment.Some? ==>
          && f.blanks != "" && f.blanks[|f.blanks| - 1] == ' '
          && forall c :: c in f.comment.value ==> IsMute(c))
  }

  /** Every text is written in a form that can hold it, between proper blanks and comments. */
  ghost predicate Fits(st: Style, flow: bool) {
    && (forall v: string :: Legible(v, st.key(v), if flow then InFlow else BlockKey))
    && (forall v: string :: Legible(v, st.text(v), if flow then InFlow else BlockScalar))
    && AllBlank(st.pad) && AllBlank(st.space) && st.space != ""
    && AllFillers(st.gap) && IsTail(st.tail)
  }

  lemma ShownStarts(v: string, form: Form, place: Place)
    requires Legible(v, form, place)
    ensures Shown(v, form) != "" && StartsToken(Shown(v, form)[0])
  {
  }

  // ---- Blanks -----------------------------------------------------------

  /** Blanks from `i` to `j`, and something else at `j`. */
  ghost predicate BlanksTo(s: string, i: nat, j: nat) {
    i <= j < |s| && (forall k :: i <= k < j ==> IsInline(s[k])) && !IsInline(s[j])
  }

  lemma {:induction false} BlanksSkip(s: string, i: nat, j: nat)
    requires BlanksTo(s, i, j)
    ensures SkipInline(s, i) == j
    decreases j - i
  {
    if i < j {
      BlanksSkip(s, i + 1, j);
    }
  }

  lemma BlanksAt(s: string, i: nat, t: string)
    requires At(s, i, t) && AllBlank(t) && i + |t| < |s| && !IsInline(s[i + |t|])
    ensures BlanksTo(s, i, i + |t|) && SkipInline(s, i) == i + |t|
  {
    forall k | i <= k < i + |t| ensures IsInline(s[k]) {
      AtIndex(s, i, t, k - i);
    }
    BlanksSkip(s, i, i + |t|);
  }

  /** Characters that mean nothing to the search for a colon. */
  predicate IsMute(c: char) {
    !IsNewline(c) && !IsQuote(c) && c != ':'
  }

  /** The rest of a line behind a value that ends at `i`: blanks up to `j`, and the line feed at `e`, with a comment in
      between or not. */
  ghost predicate TailTo(s: string, i: nat, j: nat, e: nat) {
    && BlanksTo(s, i, j) && j <= e < |s| && s[e] == '\n'
    && (if s[j] == '#' then
          && i < j && s[j - 1] == ' ' && SkipToEol(s, j) == e
          && (forall k :: j <= k < e - 1 ==> IsMute(s[k])) && (IsMute(s[e - 1]) || s[e - 1] == '\r')
        else j == e || (s[j] == '\r' && j + 1 == e))
  }

  lemma {:induction false} CommentSkips(s: string, i: nat, j: nat)
    requires i <= j < |s| && (forall k :: i <= k < j ==> s[k] != '\n') && s[j] == '\n'
    ensures SkipToEol(s, i) == j
    decreases j - i
  {
    if i < j {
      CommentSkips(s, i + 1, j);
    }
  }

  /** The parts of a filler: blanks up to `c`, a comment from `c` on if there is one, and the line feed at `e`. */
  lemma FillerParts(s: string, i: nat, f: Filler)
    requires At(s, i, FillerText(f)) && IsFiller(f)
    ensures var c, e := i + |f.blanks|, i + |FillerText(f)| - 1;
            && c <= e < |s| && s[e] == '\n' && BlanksTo(s, i, c)
            && e == c + |CommentText(f)| + (if f.cr then 1 else 0)
            && At(s, c, CommentText(f)) && (f.cr ==> s[e - 1] == '\r')
            && (f.comment.Some? ==> s[c] == '#' && SkipToEol(s, c) == e)
  {
    hide At;
    var comment := CommentText(f);
    var c, m := i + |f.blanks|, i + |f.blanks| + |comment|;
    var e := m + |LineBreak(f)| - 1;
    AtSplit(s, i, f.blanks, comment + LineBreak(f));
    AtSplit(s, c, comment, LineBreak(f));
    AtIndex(s, m, LineBreak(f), 0);
    AtIndex(s, m, LineBreak(f), |LineBreak(f)| - 1);
    if f.comment.Some? {
      forall k | c <= k < e ensures s[k] != '\n' && (k < m ==> s[k] == comment[k - c]) {
        if k < m {
          AtIndex(s, c, comment, k - c);
        }
      }
      CommentSkips(s, c, e);
    }
    BlanksAt(s, i, f.blanks);
  }

  lemma FillerBegins(s: string, i: nat, f: Filler)
    requires At(s, i, FillerText(f))
    ensures At(s, i, f.blanks)
  {
    hide At;
    AtSplit(s, i, f.blanks, CommentText(f) + LineBreak(f));
  }

  /** A tail is the rest of a line behind a value. */
  lemma TailParts(s: string, i: nat, f: Filler)
    requires At(s, i, FillerText(f)) && IsTail(f)
    ensures TailTo(s, i, i + |f.blanks|, i + |FillerText(f)| - 1)
  {
    hide At;
    hide FillerText;
    FillerParts(s, i, f);
    var c, e := i + |f.blanks|, i + |FillerText(f)| - 1;
    if f.comment.Some? {
      forall k | c <= k < c + |CommentText(f)| ensures IsMute(s[k]) {
        AtIndex(s, c, CommentText(f), k - c);
      }
      FillerBegins(s, i, f);
      AtIndex(s, i, f.blanks, |f.blanks| - 1);
    }
  }

  /** Trimming takes off the blanks behind a text and nothing else. */
  lemma {:induction false} TrimmedText(s: string, i: nat, t: string, j: nat)
    requires At(s, i, t) && t != "" && !IsInline(t[|t| - 1])
    requires i + |t| <= j <= |s| && forall k :: i + |t| <= k < j ==> IsInline(s[k])
    ensures TrimRight(s[i..j]) == t
    decreases j
  {
    if j == i + |t| {
      AtSlice(s, i, t);
    } else {
      TrimmedText(s, i, t, j - 1);
      assert s[i..j][..j - i - 1] == s[i..j - 1];
    }
  }

  // ---- Quoted texts -----------------------------------------------------

  lemma QuotedStep(s: string, i: nat, c: char)
    requires At(s, i, EscapeOne(c)) && i + |EscapeOne(c)| <= |s|
    ensures QuotedAt(s, i, '"') == Carry([c], QuotedAt(s, i + |EscapeOne(c)|, '"'))
  {
    AtIndex(s, i, EscapeOne(c), 0);
    AtIndex(s, i, EscapeOne(c), |EscapeOne(c)| - 1);
    hide At;
    hide Carry;
  }

  lemma QuoteCloses(s: string, i: nat, quote: char)
    requires At(s, i, [quote])
    ensures i < |s| && QuotedAt(s, i, quote) == Ok(("", i + 1))
  {
    AtIndex(s, i, [quote], 0);
  }

  lemma {:induction false} DoubleReads(s: string, i: nat, v: string)
    requires At(s, i, Escape(v) + "\"")
    ensures i < |s| && QuotedAt(s, i, '"') == Ok((v, i + |Escape(v)| + 1))
    decreases v
  {
    hide At;
    hide QuotedAt;
    hide EscapeOne;
    if v == "" {
      assert Escape(v) + "\"" == "\"";
      QuoteCloses(s, i, '"');
    } else {
      var head, rest := EscapeOne(v[0]), Escape(v[1..]) + "\"";
      assert Escape(v) + "\"" == head + rest;
      AtSplit(s, i, head, rest);
      DoubleReads(s, i + |head|, v[1..]);
      QuotedStep(s, i, v[0]);
      assert [v[0]] + v[1..] == v;
    }
  }

  lemma EscapedStep(s: string, i: nat, c: char)
    requires At(s, i, EscapeFully(c)) && i + |EscapeFully(c)| <= |s|
    ensures QuotedAt(s, i, '"') == Carry([c], QuotedAt(s, i + |EscapeFully(c)|, '"'))
  {
    AtIndex(s, i, EscapeFully(c), 0);
    AtIndex(s, i, EscapeFully(c), |EscapeFully(c)| - 1);
    hide At;
    hide Carry;
  }

  /** The six escape sequences stand for their characters. */
  lemma {:induction false} EscapedReads(s: string, i: nat, v: string)
    requires At(s, i, EscapeAll(v) + "\"")
    ensures i < |s| && QuotedAt(s, i, '"') == Ok((v, i + |EscapeAll(v)| + 1))
    decreases v
  {
    hide At;
    hide QuotedAt;
    hide EscapeFully;
    if v == "" {
      assert EscapeAll(v) + "\"" == "\"";
      QuoteCloses(s, i, '"');
    } else {
      var head, rest := EscapeFully(v[0]), EscapeAll(v[1..]) + "\"";
      assert EscapeAll(v) + "\"" == head + rest;
      AtSplit(s, i, head, rest);
      EscapedReads(s, i + |head|, v[1..]);
      EscapedStep(s, i, v[0]);
      assert [v[0]] + v[1..] == v;
    }
  }

  /** Before any other character the backslash stays. */
  lemma OtherEscapesStay(s: string, i: nat, c: char)
    requires At(s, i, ['\\', c]) && c !in ['n', 't', 'r', '/', '"', '\\']
    ensures i + 2 <= |s| && QuotedAt(s, i, '"') == Carry(['\\', c], QuotedAt(s, i + 2, '"'))
  {
    AtIndex(s, i, ['\\', c], 0);
    AtIndex(s, i, ['\\', c], 1);
    hide At;
    hide Carry;
  }

  lemma SingleStep(s: string, i: nat)
    requires i < |s| && s[i] != '\''
    ensures QuotedAt(s, i, '\'') == Carry([s[i]], QuotedAt(s, i + 1, '\''))
  {
    hide Carry;
  }

  /** Between single quotes every other character, backslashes included, is taken as it is. */
  lemma {:induction false} SingleReads(s: string, i: nat, v: string)
    requires At(s, i, v + "'") && '\'' !in v
    ensures i < |s| && QuotedAt(s, i, '\'') == Ok((v, i + |v| + 1))
    decreases v
  {
    hide At;
    hide QuotedAt;
    AtIndex(s, i, v + "'", 0);
    if v == "" {
      assert v + "'" == "'";
      QuoteCloses(s, i, '\'');
    } else {
      assert v + "'" == [v[0]] + (v[1..] + "'");
      AtSplit(s, i, [v[0]], v[1..] + "'");
      SingleReads(s, i + 1, v[1..]);
      SingleStep(s, i);
      assert [v[0]] + v[1..] == v;
    }
  }

  lemma QuotedReads(s: string, i: nat, v: string, form: Form)
    requires At(s, i, Shown(v, form)) && !form.Plain? && Legible(v, form, InFlow)
    ensures i < |s| && IsQuote(s[i]) && QuotedAt(s, i + 1, s[i]) == Ok((v, i + |Shown(v, form)|))
  {
    hide At;
    hide QuotedAt;
    hide Escape;
    hide EscapeAll;
    hide IsFlowPlain;
    hide IsBlockPlain;
    if form.DoubleQuoted? {
      AtSplit(s, i, "\"", Escape(v) + "\"");
      AtIndex(s, i, "\"", 0);
      DoubleReads(s, i + 1, v);
    } else if form.Escaped? {
      AtSplit(s, i, "\"", EscapeAll(v) + "\"");
      AtIndex(s, i, "\"", 0);
      EscapedReads(s, i + 1, v);
    } else {
      AtSplit(s, i, "'", v + "'");
      AtIndex(s, i, "'", 0);
      SingleReads(s, i + 1, v);
    }
  }

  /** A quoted text is a scalar unless a colon follows. */
  lemma QuotedScalar(s: string, i: nat, v: string, form: Form, j: nat, indent: nat, flow: bool)
    requires At(s, i, Shown(v, form)) && !form.Plain? && Legible(v, form, InFlow)
    requires BlanksTo(s, i + |Shown(v, form)|, j) && s[j] != ':'
    ensures i < |s| && IsQuote(s[i])
    ensures QuotedToken(s, i, indent, flow) == Ok((Token(Scalar, v, indent), j))
  {
    hide At;
    hide Shown;
    QuotedReads(s, i, v, form);
    BlanksSkip(s, i + |Shown(v, form)|, j);
  }

  /** A quoted text with a colon and white space behind it is a key. */
  lemma QuotedKey(s: string, i: nat, v: string, form: Form, j: nat, indent: nat, flow: bool)
    requires At(s, i, Shown(v, form)) && !form.Plain? && Legible(v, form, InFlow)
    requires BlanksTo(s, i + |Shown(v, form)|, j) && s[j] == ':'
    requires j + 1 < |s| && (IsInline(s[j + 1]) || IsNewline(s[j + 1]))
    ensures i < |s| && IsQuote(s[i])
    ensures QuotedToken(s, i, indent, flow) == Ok((Token(MappingKey, v, indent), SkipInline(s, j + 1)))
  {
    hide At;
    hide Shown;
    QuotedReads(s, i, v, form);
    BlanksSkip(s, i + |Shown(v, form)|, j);
  }

  // ---- Plain texts ------------------------------------------------------

  /** A quiet text where it stands. */
  lemma QuietIn(s: string, i: nat, t: string)
    requires At(s, i, t) && IsQuiet(t)
    ensures i + |t| <= |s| && StartsToken(s[i])
    ensures forall k :: i <= k < i + |t| ==> s[k] == t[k - i]
    ensures forall k :: i <= k < i + |t| ==>
              && !IsNewline(s[k])
              && (s[k] == ':' ==> k + 1 < i + |t| && !IsInline(s[k + 1]) && !IsNewline(s[k + 1]))
  {
    AtSlice(s, i, t);
    forall k | i <= k < i + |t| ensures s[k] == t[k - i] {
      AtIndex(s, i, t, k - i);
    }
    forall k | i <= k < i + |t|
      ensures !IsNewline(s[k])
      ensures s[k] == ':' ==> k + 1 < i + |t| && !IsInline(s[k + 1]) && !IsNewline(s[k + 1])
    {
      var n := k - i;
      assert IsQuietAt(t, n) && (n + 1 < |t| ==> IsQuietAt(t, n + 1));
      assert s[k] == t[n] && (n + 1 < |t| ==> s[k + 1] == t[n + 1]);
    }
  }

  /** In a text without a comment, and in blanks behind it, no `#` begins one. */
  lemma NoCommentIn(s: string, i: nat, t: string, j: nat)
    requires At(s, i, t) && t != "" && NoComment(t)
    requires i + |t| <= j <= |s| && forall k :: i + |t| <= k < j ==> IsInline(s[k])
    ensures forall k :: i < k < j && s[k] == '#' ==> s[k - 1] != ' '
  {
    forall k | i < k < j && s[k] == '#' ensures s[k - 1] != ' ' {
      AtIndex(s, i, t, k - i);
      AtIndex(s, i, t, k - i - 1);
    }
  }

  lemma {:induction false} FlowPlainRuns(s: string, start: nat, i: nat, j: nat)
    requires start <= i <= j <= |s|
    requires forall k :: i <= k < j ==> !EndsFlowPlain(s[k]) && (s[k] == ':' ==> k + 1 < |s| && !FlowColonEnds(s, k))
    requires forall k :: start < k < j && s[k] == '#' ==> s[k - 1] != ' '
    ensures FlowPlainAt(s, start, i) == FlowPlainAt(s, start, j)
    decreases j - i
  {
    if i < j {
      hide EndsFlowPlain;
      hide FlowColonEnds;
      FlowPlainRuns(s, start, i + 1, j);
    }
  }

  /** In flow context a plain text is read whole, with the blanks behind it, up to a bracket, a comma or its colon. */
  lemma FlowPlainReads(s: string, i: nat, t: string, j: nat)
    requires At(s, i, t) && IsFlowPlain(t) && BlanksTo(s, i + |t|, j)
    ensures i + |t| <= |s| && FlowPlainAt(s, i, i) == FlowPlainAt(s, i, j) && TrimRight(s[i..j]) == t && s[i] == t[0]
  {
    hide At;
    hide FlowPlainAt;
    QuietIn(s, i, t);
    forall k | i <= k < j
      ensures !EndsFlowPlain(s[k]) && (s[k] == ':' ==> k + 1 < |s| && !FlowColonEnds(s, k))
    {
      if k < i + |t| {
        var n := k - i;
        assert IsQuietAt(t, n) && s[k] == t[n];
        assert n + 1 < |t| ==> s[k + 1] == t[n + 1] && !EndsFlowPlain(t[n + 1]);
      }
    }
    NoCommentIn(s, i, t, j);
    FlowPlainRuns(s, i, i, j);
    TrimmedText(s, i, t, j);
  }

  lemma {:induction false} ColonRuns(s: string, i: nat, j: nat)
    requires i <= j <= |s|
    requires forall k :: i <= k < j ==>
               !IsNewline(s[k]) && !IsQuote(s[k]) && (s[k] == ':' ==> k + 1 < |s| && !ColonEnds(s, k))
    ensures ColonAt(s, i, None) == ColonAt(s, j, None)
    decreases j - i
  {
    if i < j {
      hide ColonEnds;
      hide IsNewline;
      ColonRuns(s, i + 1, j);
    }
  }

  lemma {:induction false} PlainRuns(s: string, start: nat, i: nat, j: nat)
    requires start <= i <= j <= |s| && forall k :: i <= k < j ==> !IsNewline(s[k])
    requires forall k :: start < k < j && s[k] == '#' ==> s[k - 1] != ' '
    ensures PlainEnd(s, start, i) == PlainEnd(s, start, j)
    decreases j - i
  {
    if i < j {
      hide IsNewline;
      PlainRuns(s, start, i + 1, j);
    }
  }

  /** No colon ends a key on the rest of a line. */
  lemma NoColonInTail(s: string, i: nat, j: nat, e: nat)
    requires TailTo(s, i, j, e)
    ensures ColonAt(s, i, None) == None
  {
    var m := if s[j] == '#' then (if s[e - 1] == '\r' then e - 1 else e) else j;
    forall k | i <= k < m ensures IsMute(s[k]) {
    }
    ColonRuns(s, i, m);
  }

  /** In block context a plain text is a scalar when only blanks and a comment are left on its line. */
  lemma BlockPlainScalar(s: string, i: nat, t: string, j: nat, e: nat, indent: nat)
    requires At(s, i, t) && IsBlockPlain(t) && NoComment(t) && TailTo(s, i + |t|, j, e)
    ensures i < |s| && !IsNewline(s[i])
    ensures BlockLineAt(s, i, indent) == (Token(Scalar, t, indent), if s[j] == '#' then e else j)
  {
    hide At;
    QuietIn(s, i, t);
    ColonRuns(s, i, i + |t|);
    NoColonInTail(s, i + |t|, j, e);
    NoCommentIn(s, i, t, j);
    PlainRuns(s, i, i, j);
    TrimmedText(s, i, t, j);
  }

  /** With a colon and white space behind it, it is a key. */
  lemma BlockPlainKey(s: string, i: nat, t: string, j: nat, indent: nat)
    requires At(s, i, t) && IsBlockPlain(t)
    requires BlanksTo(s, i + |t|, j) && s[j] == ':' && j + 1 < |s| && (IsInline(s[j + 1]) || IsNewline(s[j + 1]))
    ensures i < |s| && !IsNewline(s[i])
    ensures BlockLineAt(s, i, indent) == (Token(MappingKey, t, indent), SkipInline(s, j + 1))
  {
    hide At;
    QuietIn(s, i, t);
    ColonRuns(s, i, j);
    TrimmedText(s, i, t, j);
  }

  /** No other branch of the block scanner takes a plain text. */
  lemma PlainContent(s: string, i: nat, t: string, indent: nat)
    requires At(s, i, t) && IsBlockPlain(t)
    ensures i < |s| && !IsNewline(s[i]) && ContentAt(s, i, indent) == Ok(BlockLineAt(s, i, indent))
  {
    hide At;
    hide BlockLineAt;
    hide BlockLinesAt;
    hide QuotedToken;
    QuietIn(s, i, t);
  }

  // ---- All forms, in both contexts --------------------------------------

  lemma QuotedContent(s: string, i: nat, indent: nat)
    requires i < |s| && IsQuote(s[i])
    ensures ContentAt(s, i, indent) == QuotedToken(s, i, indent, false)
    ensures FlowTokenAt(s, i) == QuotedToken(s, i, 0, true)
  {
    hide QuotedToken;
  }

  lemma PlainFlowToken(s: string, i: nat)
    requires i < |s| && StartsToken(s[i]) && !IsQuote(s[i]) && !EndsFlowPlain(s[i])
    ensures FlowTokenAt(s, i) == Ok(FlowPlainAt(s, i, i))
  {
    hide FlowPlainAt;
    hide QuotedToken;
  }

  /** A scalar of block context. A quoted one leaves the comment behind it to be skipped. */
  lemma BlockScalarReads(s: string, i: nat, v: string, form: Form, j: nat, e: nat, indent: nat)
    requires At(s, i, Shown(v, form)) && Legible(v, form, BlockScalar) && TailTo(s, i + |Shown(v, form)|, j, e)
    ensures i < |s| && !IsNewline(s[i])
    ensures ContentAt(s, i, indent) == Ok((Token(Scalar, v, indent), if form.Plain? && s[j] == '#' then e else j))
  {
    hide At;
    hide ContentAt;
    hide QuotedToken;
    hide BlockLineAt;
    hide IsBlockPlain;
    if form.Plain? {
      PlainContent(s, i, v, indent);
      BlockPlainScalar(s, i, v, j, e, indent);
    } else {
      QuotedScalar(s, i, v, form, j, indent, false);
      QuotedContent(s, i, indent);
    }
  }

  lemma BlockKeyReads(s: string, i: nat, v: string, form: Form, j: nat, indent: nat)
    requires At(s, i, Shown(v, form)) && Legible(v, form, BlockKey)
    requires BlanksTo(s, i + |Shown(v, form)|, j) && s[j] == ':'
    requires j + 1 < |s| && (IsInline(s[j + 1]) || IsNewline(s[j + 1]))
    ensures i < |s| && !IsNewline(s[i])
    ensures ContentAt(s, i, indent) == Ok((Token(MappingKey, v, indent), SkipInline(s, j + 1)))
  {
    hide At;
    hide ContentAt;
    hide QuotedToken;
    hide BlockLineAt;
    hide IsBlockPlain;
    if form.Plain? {
      PlainContent(s, i, v, indent);
      BlockPlainKey(s, i, v, j, indent);
    } else {
      QuotedKey(s, i, v, form, j, indent, false);
      QuotedContent(s, i, indent);
    }
  }

  lemma FlowScalarReads(s: string, i: nat, v: string, form: Form, j: nat)
    requires At(s, i, Shown(v, form)) && Legible(v, form, InFlow)
    requires BlanksTo(s, i + |Shown(v, form)|, j) && EndsFlowPlain(s[j])
    ensures i < |s| && FlowTokenAt(s, i) == Ok((Token(Scalar, v, 0), j))
  {
    hide At;
    hide FlowTokenAt;
    hide QuotedToken;
    if form.Plain? {
      FlowPlainReads(s, i, v, j);
      PlainFlowToken(s, i);
    } else {
      QuotedScalar(s, i, v, form, j, 0, true);
      QuotedContent(s, i, 0);
    }
  }

  lemma FlowKeyReads(s: string, i: nat, v: string, form: Form, j: nat)
    requires At(s, i, Shown(v, form)) && Legible(v, form, InFlow)
    requires BlanksTo(s, i + |Shown(v, form)|, j) && s[j] == ':' && j + 1 < |s| && IsInline(s[j + 1])
    ensures i < |s|
    ensures FlowTokenAt(s, i) == Ok((Token(MappingKey, v, 0), SkipInline(s, j + 1)))
  {
    hide At;
    hide FlowTokenAt;
    hide QuotedToken;
    if form.Plain? {
      FlowPlainReads(s, i, v, j);
      PlainFlowToken(s, i);
    } else {
      QuotedKey(s, i, v, form, j, 0, true);
      QuotedContent(s, i, 0);
    }
  }
}
