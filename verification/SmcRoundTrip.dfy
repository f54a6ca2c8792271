/**
 Printing a document and parsing it back.

 Strings are written quoted and escaped, one item per line. The parser gives the
 document back exactly when no string ends in a backslash.
 */
module SmcRoundTrip {
  import opened SmcTokens
  import opened SmcParser

  /** A run of sections and key/value pairs. */
  datatype Forest =
    | Done
    | Pair(key: string, value: string, rest: Forest)
    | Section(name: string, body: Forest, rest: Forest)

  // ----- escaping

  function EscapeChar(c: char): string {
    if c == '\n' then "\\n" else if c == '\t' then "\\t" else if c == '\r' then "\\r"
    else if c == '\\' then "\\\\" else if c == '"' then "\\\"" else [c]
  }

  function Escape(s: string): string {
    if s == "" then "" else EscapeChar(s[0]) + Escape(s[1..])
  }

  lemma UnescapeOne(c: char, t: string)
    ensures Unescape(EscapeChar(c) + t) == [c] + Unescape(t)
  {
    var e := EscapeChar(c);
    assert (e + t)[|e|..] == t;
    if |e| == 2 {
      assert (e + t)[1] == e[1];
    }
  }

  /** Resolving escapes gives back every string, whatever characters it holds. */
  lemma {:induction false} UnescapeUndoesEscape(s: string)
    ensures Unescape(Escape(s)) == s
  {
    if s != "" {
      UnescapeUndoesEscape(s[1..]);
      UnescapeOne(s[0], Escape(s[1..]));
      assert s == [s[0]] + s[1..];
    }
  }

  predicate EndsInBackslash(s: string) {
    s != "" && s[|s| - 1] == '\\'
  }

  /** Characters `lo..hi` can stand between quotes: no line ends, and every quote is escaped. */
  predicate Quotable(text: string, lo: nat, hi: nat)
    requires 0 < lo <= hi <= |text|
  {
    forall k :: lo <= k < hi ==> text[k] != '\n' && (text[k] == '"' ==> text[k - 1] == '\\')
  }

  lemma {:induction false} EscapedIsQuotable(s: string)
    ensures Quotable("\"" + Escape(s), 1, 1 + |Escape(s)|)
  {
    if s != "" {
      EscapedIsQuotable(s[1..]);
      var e := EscapeChar(s[0]);
      var t := Escape(s[1..]);
      var q := "\"" + (e + t);
      forall k | 1 <= k < |q| ensures q[k] != '\n' && (q[k] == '"' ==> q[k - 1] == '\\') {
        if k > |e| {
          assert q[k] == ("\"" + t)[k - |e|];
          if k > |e| + 1 { assert q[k - 1] == ("\"" + t)[k - |e| - 1]; }
        }
      }
    }
  }

  lemma {:induction false} EscapeKeepsTheEnd(s: string)
    ensures EndsInBackslash(Escape(s)) <==> EndsInBackslash(s)
    ensures s != "" ==> Escape(s) != ""
  {
    if s != "" {
      CharKeepsTheEnd(s[0]);
      hide EscapeChar;
      EscapeKeepsTheEnd(s[1..]);
      var e := EscapeChar(s[0]);
      var t := Escape(s[1..]);
      if s[1..] == "" {
        assert e + t == e;
      } else {
        assert s[1..][|s| - 2] == s[|s| - 1];
        assert (e + t)[|e + t| - 1] == t[|t| - 1];
      }
    }
  }

  lemma CharKeepsTheEnd(c: char)
    ensures var e := EscapeChar(c); e != "" && (EndsInBackslash(e) <==> c == '\\')
  {}

  lemma {:induction false} EscapeNeedsBackslash(s: string)
    ensures '\\' !in Escape(s) ==> Escape(s) == s
    ensures '\\' in Escape(s) ==> |Escape(s)| >= 2
  {
    if s != "" {
      EscapeNeedsBackslash(s[1..]);
      var e := EscapeChar(s[0]);
      var t := Escape(s[1..]);
      assert s == [s[0]] + s[1..];
      assert forall c :: c in e + t <==> c in e || c in t;
      assert e[0] in e;
    }
  }

  // ----- parsing what was printed

  ghost predicate Agreeable(ask: Listener) {
    forall trace :: ask(trace) == Continue
  }

  predicate Has(text: string, pos: nat, part: string) {
    pos + |part| <= |text| && text[pos..pos + |part|] == part
  }

  lemma HasSplit(text: string, pos: nat, a: string, b: string)
    requires Has(text, pos, a + b)
    ensures Has(text, pos, a) && Has(text, pos + |a|, b)
  {
    var w := text[pos..pos + |a + b|];
    assert w[..|a|] == a && w[|a|..] == b;
    assert text[pos..pos + |a|] == w[..|a|];
    assert text[pos + |a|..pos + |a| + |b|] == w[|a|..];
  }

  lemma Unroll(text: string, st: State, next: State, ask: Listener)
    requires st.pos < |text| && st.status.Running? && next == Step(text, st, ask)
    ensures next.status.Running? ==> Loop(text, st, ask) == Loop(text, next, ask)
  {
    hide Step;
  }

  lemma StepInside(text: string, st: State, ask: Listener)
    requires st.status.Running? && st.inQuote && st.ignoring && st.pos > 0
    requires st.pos + 1 < |text| && Quotable(text, st.pos, st.pos + 1)
    ensures Step(text, st, ask) ==
            st.(pos := st.pos + 1, col := st.col + 1,
                staged := st.staged.(first := st.staged.first.(
                  special := st.staged.first.special || text[st.pos] == '\\')))
  {
    hide AtNewline, InComment, AtBlank, OpenComment, AtSlash, AtOpenBrace, AtCloseBrace, AtQuote, AtPlain;
    assert Step(text, st, ask) == InQuote(text, st);
    hide Step;
  }

  /** Reading the inside of a quoted string: nothing happens but that backslashes are noticed. */
  lemma {:induction false} QuotedInside(text: string, st: State, n: nat, ask: Listener)
    requires st.status.Running? && st.inQuote && st.ignoring && st.pos > 0
    requires st.pos + n < |text| && Quotable(text, st.pos, st.pos + n)
    ensures Loop(text, st, ask) ==
            Loop(text, st.(pos := st.pos + n, col := st.col + n,
                           staged := st.staged.(first := st.staged.first.(
                             special := st.staged.first.special || '\\' in text[st.pos..st.pos + n]))), ask)
    decreases n
  {
    hide Loop, Step;
    if n > 0 {
      var tail := text[st.pos + 1..st.pos + n];
      assert text[st.pos..st.pos + n] == [text[st.pos]] + tail;
      StepInside(text, st, ask);
      var next := Step(text, st, ask);
      Unroll(text, st, next, ask);
      QuotedInside(text, next, n - 1, ask);
    } else {
      assert text[st.pos..st.pos + n] == "";
    }
  }

  /** The token staged for the escaped string between quotes at `pos`. */
  function QuotedToken(pos: nat, s: string): Token {
    Token(pos, pos + 1 + |Escape(s)|, true, '\\' in Escape(s))
  }

  function Quoted(s: string): string {
    "\"" + Escape(s) + "\""
  }

  lemma StepOpens(text: string, st: State, ask: Listener)
    requires st.status.Running? && !st.inQuote && !st.ignoring && st.staged.first == EMPTY
    requires st.pos < |text| && text[st.pos] == '"'
    ensures Step(text, st, ask) ==
            st.(pos := st.pos + 1, col := st.col + 1, inQuote := true, ignoring := true,
                staged := st.staged.(first := EMPTY.(ptr := st.pos)))
  {
    hide AtNewline, InComment, InQuote, AtBlank, OpenComment, AtSlash, AtOpenBrace, AtCloseBrace, AtPlain;
    assert Step(text, st, ask) == AtQuote(st);
    hide Step;
  }

  lemma StepCloses(text: string, st: State, ask: Listener)
    requires st.status.Running? && st.inQuote && st.ignoring
    requires st.staged.third == EMPTY && st.staged.first.ptr != NULL
    requires 0 < st.pos < |text| && text[st.pos] == '"' && text[st.pos - 1] != '\\'
    ensures Step(text, st, ask) ==
            st.(pos := st.pos + 1, col := st.col + 1, inQuote := false, ignoring := false,
                staged := Staging(EMPTY, st.staged.first.(end := st.pos, quoted := true), st.staged.second))
  {
    hide AtNewline, InComment, AtBlank, OpenComment, AtSlash, AtOpenBrace, AtCloseBrace, AtQuote, AtPlain;
    assert Step(text, st, ask) == InQuote(text, st);
    hide Step;
  }

  lemma OpenAndClose(text: string, st: State, n: nat, ask: Listener)
    requires st.status.Running? && !st.inQuote && !st.ignoring
    requires st.staged.first == EMPTY && st.staged.third == EMPTY
    requires st.pos + n + 1 < |text|
    requires text[st.pos] == '"' && text[st.pos + 1 + n] == '"' && text[st.pos + n] != '\\'
    requires Quotable(text, st.pos + 1, st.pos + 1 + n)
    ensures Loop(text, st, ask) ==
            Loop(text, st.(pos := st.pos + n + 2, col := st.col + n + 2,
                           staged := Staging(EMPTY, Token(st.pos, st.pos + 1 + n, true,
                                                          '\\' in text[st.pos + 1..st.pos + 1 + n]),
                                             st.staged.second)), ask)
  {
    hide Loop, Step;
    StepOpens(text, st, ask);
    var s1 := Step(text, st, ask);
    Unroll(text, st, s1, ask);
    QuotedInside(text, s1, n, ask);
    var special := '\\' in text[st.pos + 1..st.pos + 1 + n];
    var s2 := s1.(pos := s1.pos + n, col := s1.col + n,
                  staged := s1.staged.(first := s1.staged.first.(special := special)));
    StepCloses(text, s2, ask);
    Unroll(text, s2, Step(text, s2, ask), ask);
  }

  lemma QuotedShape(text: string, pos: nat, s: string)
    requires Has(text, pos, Quoted(s)) && !EndsInBackslash(s)
    ensures var close := pos + 1 + |Escape(s)|;
            && close < |text| && text[pos] == '"' && text[close] == '"' && text[close - 1] != '\\'
            && text[pos + 1..close] == Escape(s)
            && Quotable(text, pos + 1, close)
  {
    hide Escape;
    var e := Escape(s);
    EscapedIsQuotable(s);
    EscapeKeepsTheEnd(s);
    HasSplit(text, pos, "\"" + e, "\"");
    HasSplit(text, pos, "\"", e);
    var close := pos + 1 + |e|;
    assert text[pos] == text[pos..pos + 1][0];
    assert text[close] == text[close..close + 1][0];
    forall k | pos <= k < close ensures text[k] == ("\"" + e)[k - pos] {
      assert text[pos..close][k - pos] == ("\"" + e)[k - pos];
    }
    forall k | pos + 1 <= k < close ensures text[k] != '\n' && (text[k] == '"' ==> text[k - 1] == '\\') {
      assert text[k] == ("\"" + e)[k - pos] && text[k - 1] == ("\"" + e)[k - 1 - pos];
    }
    if e != "" { assert text[close - 1] == e[|e| - 1]; }
  }

  lemma QuotedTokenText(text: string, pos: nat, s: string)
    requires Has(text, pos, Quoted(s)) && !EndsInBackslash(s)
    ensures TokenText(text, QuotedToken(pos, s)) == Text(s)
  {
    hide Quoted, Has, Escape, Unescape, Quotable, EndsInBackslash;
    QuotedShape(text, pos, s);
    UnescapeUndoesEscape(s);
    EscapeNeedsBackslash(s);
  }

  /** A quoted, escaped string not ending in a backslash is staged as one token, which the
      listener gets back unescaped. */
  lemma QuotedString(text: string, st: State, s: string, ask: Listener)
    requires st.status.Running? && !st.inQuote && !st.ignoring
    requires st.staged.first == EMPTY && st.staged.third == EMPTY
    requires Has(text, st.pos, Quoted(s)) && !EndsInBackslash(s)
    ensures Loop(text, st, ask) ==
            Loop(text, st.(pos := st.pos + |Quoted(s)|, col := st.col + |Quoted(s)|,
                           staged := Staging(EMPTY, QuotedToken(st.pos, s), st.staged.second)), ask)
    ensures TokenText(text, QuotedToken(st.pos, s)) == Text(s)
  {
    hide Loop, Escape, Has, Quotable, TokenText;
    QuotedShape(text, st.pos, s);
    QuotedTokenText(text, st.pos, s);
    OpenAndClose(text, st, |Escape(s)|, ask);
  }

  // ----- lines

  /** Between lines: nothing staged, no mode on. */
  predicate Fresh(st: State) {
    && st.status.Running? && st.staged == NOTHING_STAGED && st.lineBegin == st.pos
    && !st.inQuote && !st.ignoring && !st.eolComment && !st.mlComment
  }

  /** The state `n` characters and `lines` lines further on, the listener having been told `told`. */
  function After(st: State, n: nat, lines: nat, level: nat, told: seq<Event>): State {
    st.(pos := st.pos + n, lineBegin := st.pos + n, line := st.line + lines, col := 1, level := level,
        staged := NOTHING_STAGED, trace := st.trace + told)
  }

  lemma StepBlank(text: string, st: State, ask: Listener)
    requires st.status.Running? && !st.ignoring && st.staged.first == EMPTY
    requires st.pos < |text| && IsBlank(text[st.pos]) && text[st.pos] != '\n'
    ensures Step(text, st, ask) == st.(pos := st.pos + 1, col := st.col + 1)
  {
    hide AtNewline, InComment, InQuote, OpenComment, AtSlash, AtOpenBrace, AtCloseBrace, AtPlain, AtQuote;
    assert Step(text, st, ask) == AtBlank(st);
    hide Step;
  }

  /** A blank inside a line. */
  predicate Spacing(c: char) { IsBlank(c) && c != '\n' }

  lemma {:induction false} BlanksParse(text: string, st: State, n: nat, ask: Listener)
    requires st.status.Running? && !st.ignoring && st.staged.first == EMPTY
    requires st.pos + n <= |text| && forall k :: st.pos <= k < st.pos + n ==> Spacing(text[k])
    ensures Loop(text, st, ask) == Loop(text, st.(pos := st.pos + n, col := st.col + n), ask)
    decreases n
  {
    hide Loop, Step;
    if n > 0 {
      StepBlank(text, st, ask);
      var next := Step(text, st, ask);
      Unroll(text, st, next, ask);
      BlanksParse(text, next, n - 1, ask);
    }
  }

  lemma StepNewline(text: string, st: State, ask: Listener)
    requires st.status.Running? && !st.inQuote && !st.ignoring && !st.eolComment && !st.mlComment
    requires st.staged.first == EMPTY && Agreeable(ask)
    requires st.pos < |text| && text[st.pos] == '\n'
    requires st.staged.third.ptr != NULL ==> st.level > 0
    ensures Step(text, st, ask) ==
            st.(pos := st.pos + 1, lineBegin := st.pos + 1, line := st.line + 1, col := 1,
                staged := if st.staged.third.ptr != NULL then NOTHING_STAGED else st.staged,
                trace := st.trace + [RawLine] +
                         if st.staged.third.ptr != NULL
                         then [PairOf(text, st.staged)]
                         else [])
  {
    hide InComment, InQuote, OpenComment, AtBlank, AtSlash, AtOpenBrace, AtCloseBrace, AtPlain, AtQuote, TokenText;
    assert Step(text, st, ask) == AtNewline(text, st, ask);
    hide Step;
    assert ask(st.trace + [RawLine]) == Continue;
    assert st.trace + [RawLine] + [] == st.trace + [RawLine];
    var kv := PairOf(text, st.staged);
    assert ask(st.trace + [RawLine] + [kv]) == Continue;
  }

  lemma StepOpenBrace(text: string, st: State, ask: Listener)
    requires st.status.Running? && !st.ignoring && Agreeable(ask)
    requires st.staged.first == EMPTY && st.staged.second.ptr != NULL && st.staged.third == EMPTY
    requires st.pos < |text| && text[st.pos] == '{'
    ensures Step(text, st, ask) ==
            st.(pos := st.pos + 1, col := st.col + 1, staged := NOTHING_STAGED, level := st.level + 1,
                trace := st.trace + [NewSection(TokenText(text, st.staged.second))])
  {
    hide AtNewline, InComment, InQuote, OpenComment, AtBlank, AtSlash, AtCloseBrace, AtPlain, AtQuote, TokenText;
    assert Step(text, st, ask) == AtOpenBrace(text, st, ask);
    hide Step;
    assert ask(st.trace + [NewSection(TokenText(text, st.staged.second))]) == Continue;
  }

  lemma StepCloseBrace(text: string, st: State, ask: Listener)
    requires Fresh(st) && Agreeable(ask) && st.level > 0
    requires st.pos < |text| && text[st.pos] == '}'
    ensures Step(text, st, ask) ==
            st.(pos := st.pos + 1, col := st.col + 1, level := st.level - 1, trace := st.trace + [LeavingSection])
  {
    hide AtNewline, InComment, InQuote, OpenComment, AtBlank, AtSlash, AtOpenBrace, AtPlain, AtQuote, TokenText;
    assert Step(text, st, ask) == AtCloseBrace(text, st, ask);
    hide Step;
    assert ask(st.trace + [LeavingSection]) == Continue;
  }

  function PairLine(key: string, value: string): string {
    Quoted(key) + " " + Quoted(value) + "\n"
  }

  lemma PairParses(text: string, st: State, key: string, value: string, ask: Listener)
    requires Fresh(st) && st.level > 0 && Agreeable(ask)
    requires Has(text, st.pos, PairLine(key, value)) && !EndsInBackslash(key) && !EndsInBackslash(value)
    ensures Loop(text, st, ask) ==
            Loop(text, After(st, |PairLine(key, value)|, 1, st.level,
                             [RawLine, KeyValue(Text(key), Text(value))]), ask)
  {
    hide Loop, Step, Quoted, TokenText, QuotedToken, Agreeable;
    var k := |Quoted(key)|;
    HasSplit(text, st.pos, Quoted(key) + " " + Quoted(value), "\n");
    HasSplit(text, st.pos, Quoted(key) + " ", Quoted(value));
    HasSplit(text, st.pos, Quoted(key), " ");
    QuotedString(text, st, key, ask);
    var t1 := QuotedToken(st.pos, key);
    var s1 := st.(pos := st.pos + k, col := st.col + k, staged := Staging(EMPTY, t1, EMPTY));
    assert text[s1.pos] == text[s1.pos..s1.pos + 1][0] == ' ';
    StepBlank(text, s1, ask);
    var s2 := s1.(pos := s1.pos + 1, col := s1.col + 1);
    Unroll(text, s1, s2, ask);
    QuotedString(text, s2, value, ask);
    var t2 := QuotedToken(s2.pos, value);
    var s3 := s2.(pos := s2.pos + |Quoted(value)|, col := s2.col + |Quoted(value)|, staged := Staging(EMPTY, t2, t1));
    assert text[s3.pos] == text[s3.pos..s3.pos + 1][0] == '\n';
    TokenAt(st.pos, key);
    TokenAt(s2.pos, value);
    ValueApart(text, t1, t2);
    StepNewline(text, s3, ask);
    var s4 := Step(text, s3, ask);
    Unroll(text, s3, s4, ask);
    assert st.trace + [RawLine] + [KeyValue(Text(key), Text(value))] ==
           st.trace + [RawLine, KeyValue(Text(key), Text(value))];
  }

  lemma TokenAt(pos: nat, s: string)
    ensures QuotedToken(pos, s).ptr == pos && QuotedToken(pos, s).end == pos + |Quoted(s)| - 1
  {}

  /** A value behind the end of its key is handed out whole. */
  lemma ValueApart(text: string, key: Token, value: Token)
    requires key.end == NULL || key.end < value.ptr
    ensures ValueText(text, key, value) == TokenText(text, value)
  {
    hide TokenText;
  }

  function HeaderLines(name: string): string {
    Quoted(name) + "\n" + "{\n"
  }

  lemma HeaderParses(text: string, st: State, name: string, ask: Listener)
    requires Fresh(st) && Agreeable(ask)
    requires Has(text, st.pos, HeaderLines(name)) && !EndsInBackslash(name)
    ensures Loop(text, st, ask) ==
            Loop(text, After(st, |HeaderLines(name)|, 2, st.level + 1,
                             [RawLine, NewSection(Text(name)), RawLine]), ask)
  {
    hide Loop, Step, Quoted, TokenText, QuotedToken, Agreeable;
    HasSplit(text, st.pos, Quoted(name) + "\n", "{\n");
    HasSplit(text, st.pos, Quoted(name), "\n");
    QuotedString(text, st, name, ask);
    var t := QuotedToken(st.pos, name);
    assert t.ptr != NULL by { TokenAt(st.pos, name); }
    var s1 := st.(pos := st.pos + |Quoted(name)|, col := st.col + |Quoted(name)|, staged := Staging(EMPTY, t, EMPTY));
    assert text[s1.pos] == text[s1.pos..s1.pos + 1][0] == '\n';
    StepNewline(text, s1, ask);
    var s2 := Step(text, s1, ask);
    Unroll(text, s1, s2, ask);
    assert text[s2.pos] == text[s2.pos..s2.pos + 2][0] == '{';
    StepOpenBrace(text, s2, ask);
    var s3 := Step(text, s2, ask);
    Unroll(text, s2, s3, ask);
    assert text[s3.pos] == text[s2.pos..s2.pos + 2][1] == '\n';
    StepNewline(text, s3, ask);
    var s4 := Step(text, s3, ask);
    Unroll(text, s3, s4, ask);
    assert s4.trace == st.trace + [RawLine, NewSection(Text(name)), RawLine];
  }

  lemma FooterParses(text: string, st: State, ask: Listener)
    requires Fresh(st) && st.level > 0 && Agreeable(ask)
    requires Has(text, st.pos, "}\n")
    ensures Loop(text, st, ask) == Loop(text, After(st, 2, 1, st.level - 1, [LeavingSection, RawLine]), ask)
  {
    hide Loop, Step, TokenText, Agreeable;
    assert text[st.pos] == text[st.pos..st.pos + 2][0] == '}';
    StepCloseBrace(text, st, ask);
    var s1 := Step(text, st, ask);
    Unroll(text, st, s1, ask);
    assert text[s1.pos] == text[st.pos..st.pos + 2][1] == '\n';
    StepNewline(text, s1, ask);
    var s2 := Step(text, s1, ask);
    Unroll(text, s1, s2, ask);
    assert s2.trace == st.trace + [LeavingSection, RawLine];
  }

  // ----- documents

  function Print(f: Forest): string {
    match f
    case Done => ""
    case Pair(key, value, rest) => PairLine(key, value) + Print(rest)
    case Section(name, body, rest) => HeaderLines(name) + (Print(body) + ("}\n" + Print(rest)))
  }

  /** Everything the listener is told about a printed document. */
  function Told(f: Forest): seq<Event> {
    match f
    case Done => []
    case Pair(key, value, rest) => [RawLine, KeyValue(Text(key), Text(value))] + Told(rest)
    case Section(name, body, rest) =>
      [RawLine, NewSection(Text(name)), RawLine] + (Told(body) + ([LeavingSection, RawLine] + Told(rest)))
  }

  function Lines(f: Forest): nat {
    match f
    case Done => 0
    case Pair(_, _, rest) => 1 + Lines(rest)
    case Section(_, body, rest) => 2 + Lines(body) + 1 + Lines(rest)
  }

  /** No string of the document ends in a backslash. */
  predicate Plain(f: Forest) {
    match f
    case Done => true
    case Pair(key, value, rest) => !EndsInBackslash(key) && !EndsInBackslash(value) && Plain(rest)
    case Section(name, body, rest) => !EndsInBackslash(name) && Plain(body) && Plain(rest)
  }

  /** A document at the top holds sections only. */
  predicate Sections(f: Forest) {
    match f
    case Done => true
    case Pair(_, _, _) => false
    case Section(_, _, rest) => Sections(rest)
  }

  lemma AfterTwice(st: State, n1: nat, l1: nat, level1: nat, t1: seq<Event>,
                   n2: nat, l2: nat, level2: nat, t2: seq<Event>)
    ensures After(After(st, n1, l1, level1, t1), n2, l2, level2, t2) == After(st, n1 + n2, l1 + l2, level2, t1 + t2)
  {
    assert st.trace + t1 + t2 == st.trace + (t1 + t2);
  }

  /** Parsing from `st` a printed document comes to the same as parsing from `Past(st, f)`. */
  function Past(st: State, f: Forest): State {
    if f.Done? then st else After(st, |Print(f)|, Lines(f), st.level, Told(f))
  }

  lemma PastAfter(st: State, n: nat, lines: nat, level: nat, told: seq<Event>, f: Forest)
    ensures Past(After(st, n, lines, level, told), f) ==
            After(st, n + |Print(f)|, lines + Lines(f), level, told + Told(f))
  {
    if f.Done? {
      assert told + [] == told;
      assert Print(f) == "" && Lines(f) == 0 && Told(f) == [];
    } else {
      hide After, Print, Lines, Told;
      AfterTwice(st, n, lines, level, told, |Print(f)|, Lines(f), level, Told(f));
      LevelAfter(st, n, lines, level, told);
    }
  }

  lemma LevelAfter(st: State, n: nat, lines: nat, level: nat, told: seq<Event>)
    ensures After(st, n, lines, level, told).level == level
  {
  }

  lemma {:induction false} ForestParses(text: string, st: State, f: Forest, ask: Listener)
    requires Fresh(st) && Agreeable(ask) && Plain(f) && (st.level > 0 || Sections(f))
    requires Has(text, st.pos, Print(f))
    ensures Loop(text, st, ask) == Loop(text, Past(st, f), ask)
    decreases f, 0
  {
    hide Loop, Has, Agreeable, PairLine, HeaderLines;
    match f
    case Done =>
    case Pair(key, value, rest) =>
      HasSplit(text, st.pos, PairLine(key, value), Print(rest));
      PairParses(text, st, key, value, ask);
      var told := [RawLine, KeyValue(Text(key), Text(value))];
      var s1 := After(st, |PairLine(key, value)|, 1, st.level, told);
      ForestParses(text, s1, rest, ask);
      PastAfter(st, |PairLine(key, value)|, 1, st.level, told, rest);
    case Section(name, body, rest) =>
      var head := HeaderLines(name);
      HasSplit(text, st.pos, head, Print(body) + ("}\n" + Print(rest)));
      HeaderParses(text, st, name, ask);
      var told := [RawLine, NewSection(Text(name)), RawLine];
      var s1 := After(st, |head|, 2, st.level + 1, told);
      HasSplit(text, s1.pos, Print(body), "}\n" + Print(rest));
      ForestParses(text, s1, body, ask);
      PastAfter(st, |head|, 2, st.level + 1, told, body);
      var s2 := After(st, |head| + |Print(body)|, 2 + Lines(body), st.level + 1, told + Told(body));
      TailParses(text, s2, rest, ask);
      SectionPast(st, name, body, rest);
  }

  /** From the closing brace of a section on. */
  lemma {:induction false} TailParses(text: string, st: State, rest: Forest, ask: Listener)
    requires Fresh(st) && Agreeable(ask) && st.level > 0 && Plain(rest) && (st.level > 1 || Sections(rest))
    requires Has(text, st.pos, "}\n" + Print(rest))
    ensures Loop(text, st, ask) ==
            Loop(text, Past(After(st, 2, 1, st.level - 1, [LeavingSection, RawLine]), rest), ask)
    decreases rest, 1
  {
    hide Loop, Has, Agreeable, Print, Past;
    HasSplit(text, st.pos, "}\n", Print(rest));
    FooterParses(text, st, ask);
    ForestParses(text, After(st, 2, 1, st.level - 1, [LeavingSection, RawLine]), rest, ask);
  }

  lemma SectionPast(st: State, name: string, body: Forest, rest: Forest)
    ensures var told := [RawLine, NewSection(Text(name)), RawLine] + Told(body);
            var s2 := After(st, |HeaderLines(name)| + |Print(body)|, 2 + Lines(body), st.level + 1, told);
            Past(After(s2, 2, 1, st.level, [LeavingSection, RawLine]), rest) == Past(st, Section(name, body, rest))
  {
    hide HeaderLines, Past, Print, Lines, Told, After;
    var n := |HeaderLines(name)| + |Print(body)|;
    var told := [RawLine, NewSection(Text(name)), RawLine] + Told(body);
    var left := [LeavingSection, RawLine];
    AfterTwice(st, n, 2 + Lines(body), st.level + 1, told, 2, 1, st.level, left);
    PastAfter(st, n + 2, 3 + Lines(body), st.level, told + left, rest);
    PastSection(st, name, body, rest);
  }

  lemma PastSection(st: State, name: string, body: Forest, rest: Forest)
    ensures var told := [RawLine, NewSection(Text(name)), RawLine] + Told(body);
            Past(st, Section(name, body, rest)) ==
            After(st, |HeaderLines(name)| + |Print(body)| + 2 + |Print(rest)|, 3 + Lines(body) + Lines(rest), st.level,
                  told + [LeavingSection, RawLine] + Told(rest))
  {
    hide HeaderLines, After, Print, Told, Lines;
    SectionSizes(name, body, rest);
    SectionTold(name, body, rest);
  }

  lemma SectionSizes(name: string, body: Forest, rest: Forest)
    ensures |Print(Section(name, body, rest))| == |HeaderLines(name)| + |Print(body)| + 2 + |Print(rest)|
    ensures Lines(Section(name, body, rest)) == 3 + Lines(body) + Lines(rest)
  {
    hide HeaderLines;
  }

  lemma SectionTold(name: string, body: Forest, rest: Forest)
    ensures Told(Section(name, body, rest)) ==
            [RawLine, NewSection(Text(name)), RawLine] + Told(body) + [LeavingSection, RawLine] + Told(rest)
  {
    Regrouped([RawLine, NewSection(Text(name)), RawLine], Told(body), [LeavingSection, RawLine], Told(rest));
  }

  lemma Regrouped(a: seq<Event>, b: seq<Event>, c: seq<Event>, d: seq<Event>)
    ensures a + (b + (c + d)) == a + b + c + d
  {}

  // ----- the round trip

  /** The structure a listener sees: everything but the raw lines. */
  function Structure(trace: seq<Event>): seq<Event> {
    if trace == [] then []
    else (if trace[0].RawLine? then [] else [trace[0]]) + Structure(trace[1..])
  }

  /** The document in preorder. */
  function Preorder(f: Forest): seq<Event> {
    match f
    case Done => []
    case Pair(key, value, rest) => [KeyValue(Text(key), Text(value))] + Preorder(rest)
    case Section(name, body, rest) =>
      [NewSection(Text(name))] + Preorder(body) + [LeavingSection] + Preorder(rest)
  }

  lemma {:induction false} StructureAppends(a: seq<Event>, b: seq<Event>)
    ensures Structure(a + b) == Structure(a) + Structure(b)
  {
    if a == [] {
      assert a + b == b;
    } else {
      StructureAppends(a[1..], b);
      assert (a + b)[1..] == a[1..] + b && (a + b)[0] == a[0];
      var first, x, y := if a[0].RawLine? then [] else [a[0]], Structure(a[1..]), Structure(b);
      assert first + (x + y) == (first + x) + y;
    }
  }

  /** What is left of the events around a pair and a section. */
  lemma StructureOfLines(key: string, value: string, name: string)
    ensures Structure([RawLine, KeyValue(Text(key), Text(value))]) == [KeyValue(Text(key), Text(value))]
    ensures Structure([RawLine, NewSection(Text(name)), RawLine]) == [NewSection(Text(name))]
    ensures Structure([LeavingSection, RawLine]) == [LeavingSection]
  {
    StructurePush([], RawLine);
    StructurePush([RawLine], KeyValue(Text(key), Text(value)));
    StructurePush([RawLine], NewSection(Text(name)));
    StructurePush([RawLine, NewSection(Text(name))], RawLine);
    StructurePush([], LeavingSection);
    StructurePush([LeavingSection], RawLine);
    assert [RawLine] + [KeyValue(Text(key), Text(value))] == [RawLine, KeyValue(Text(key), Text(value))];
    assert [RawLine] + [NewSection(Text(name))] + [RawLine] == [RawLine, NewSection(Text(name)), RawLine];
    assert [] + [RawLine] == [RawLine] && [] + [LeavingSection] == [LeavingSection];
    hide Structure;
  }

  lemma StructureNil()
    ensures Structure([]) == []
  {}

  lemma StructurePush(a: seq<Event>, e: Event)
    ensures Structure(a + [e]) == Structure(a) + (if e.RawLine? then [] else [e])
  {
    StructureAppends(a, [e]);
    assert [e][1..] == [];
    assert Structure([e]) == if e.RawLine? then [] else [e];
  }

  lemma {:induction false} StructureOfTold(f: Forest)
    ensures Structure(Told(f)) == Preorder(f)
  {
    hide Structure;
    match f
    case Done => StructureNil();
    case Pair(key, value, rest) =>
      StructureOfTold(rest);
      StructureOfLines(key, value, "");
      StructureAppends([RawLine, KeyValue(Text(key), Text(value))], Told(rest));
    case Section(name, body, rest) =>
      StructureOfTold(body);
      StructureOfTold(rest);
      StructureOfLines("", "", name);
      var head := [RawLine, NewSection(Text(name)), RawLine];
      var foot := [LeavingSection, RawLine];
      StructureAppends(head, Told(body) + (foot + Told(rest)));
      StructureAppends(Told(body), foot + Told(rest));
      StructureAppends(foot, Told(rest));
      Regrouped([NewSection(Text(name))], Preorder(body), [LeavingSection], Preorder(rest));
  }

  /** Printing a document whose strings do not end in a backslash and parsing it tells the
      listener the document in preorder, between one start and one unhalted end. */
  lemma RoundTrip(f: Forest, ask: Listener)
    requires Sections(f) && Plain(f) && Agreeable(ask)
    ensures var (err, trace) := Parse(Print(f), ask);
            && err == Okay
            && trace == [ParseStart] + Told(f) + [ParseEnd(false, false)]
            && Structure(trace) == [ParseStart] + Preorder(f) + [ParseEnd(false, false)]
  {
    hide Agreeable, Plain, Print;
    var text := Print(f);
    assert text[0..0 + |text|] == text;
    ForestParses(text, INITIAL, f, ask);
    var last := Past(INITIAL, f);
    assert last.pos == |text| && last.trace == [ParseStart] + Told(f) by {
      if f.Done? { PrintDone(f); assert [ParseStart] + [] == [ParseStart]; }
    }
    assert Loop(text, last, ask) == last;
    StructureOfTold(f);
    StructureAppends([ParseStart] + Told(f), [ParseEnd(false, false)]);
    StructureAppends([ParseStart], Told(f));
    assert [ParseStart][1..] == [] && [ParseEnd(false, false)][1..] == [];
  }

  lemma PrintDone(f: Forest)
    requires f.Done?
    ensures Print(f) == "" && Told(f) == []
  {}
}
