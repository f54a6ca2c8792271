/**
 Documents that the parser takes in one piece but not through its buffer, and what it makes of them:
 `Fate` is what the read loop returns with a reader that fills the buffer.
 */
module SmcLimits {
  import opened SmcTokens
  import opened SmcParser
  import opened SmcRoundTrip
  import opened SmcStream
  import opened SmcLoads
  import opened SmcReader

  function Newlines(n: nat): (s: string)
    ensures |s| == n && forall k :: 0 <= k < n ==> s[k] == '\n'
  {
    seq(n, _ => '\n')
  }

  function Blanks(n: nat): (s: string)
    ensures |s| == n && forall k :: 0 <= k < n ==> s[k] == ' '
  {
    seq(n, _ => ' ')
  }

  function RawLines(n: nat): seq<Event> {
    if n == 0 then [] else RawLines(n - 1) + [RawLine]
  }

  /** The state `n` empty lines further on. */
  function Below(st: State, n: nat): (r: State)
    ensures r.pos == st.pos + n && (n > 0 ==> r.lineBegin == r.pos && r.col == 1)
    ensures r == st.(pos := r.pos, lineBegin := r.lineBegin, line := r.line, col := r.col, trace := r.trace)
    ensures r.trace == st.trace + RawLines(n)
  {
    if n == 0 then st else
    var before := Below(st, n - 1);
    before.(pos := before.pos + 1, lineBegin := before.pos + 1, line := before.line + 1, col := 1,
            trace := before.trace + [RawLine])
  }

  lemma {:induction false} LinesParse(text: string, st: State, n: nat, ask: Listener)
    requires st.status.Running? && !st.inQuote && !st.ignoring && !st.eolComment && !st.mlComment
    requires st.staged.first == EMPTY && st.staged.third == EMPTY && Agreeable(ask)
    requires st.pos + n <= |text| && forall k :: st.pos <= k < st.pos + n ==> text[k] == '\n'
    ensures Loop(text, st, ask) == Loop(text, Below(st, n), ask)
  {
    hide Loop, Step, Agreeable;
    if n > 0 {
      LinesParse(text, st, n - 1, ask);
      var before := Below(st, n - 1);
      StepNewline(text, before, ask);
      assert before.trace + [RawLine] + [] == before.trace + [RawLine];
      Unroll(text, before, Below(st, n), ask);
    }
  }

  /** A name, empty lines, and an empty section under it. */
  function Spread(name: string, n: nat): string {
    Quoted(name) + Newlines(n) + "{\n}\n"
  }

  /** The state behind the name. */
  function Named(name: string): State {
    INITIAL.(pos := |Quoted(name)|, col := |Quoted(name)|, staged := Staging(EMPTY, QuotedToken(0, name), EMPTY))
  }

  lemma NameParses(text: string, name: string, ask: Listener)
    requires Has(text, 0, Quoted(name)) && !EndsInBackslash(name)
    ensures Loop(text, INITIAL, ask) == Loop(text, Named(name), ask)
  {
    hide Loop, Has, Quoted, TokenText, QuotedToken;
    QuotedString(text, INITIAL, name, ask);
  }

  /** With enough empty lines behind it, a name is still needed when the buffer is full, so there is
      no room to read on; that the line begin has moved up to there does not help. The program ends the
      parse there, with an error. In one piece the same document is parsed without one. */
  lemma EmptyLinesFill(name: string, n: nat, ask: Listener)
    requires !EndsInBackslash(name) && Agreeable(ask)
    requires |Quoted(name)| < CAPACITY - 1 <= |Quoted(name)| + n
    ensures var text, e := Spread(name, n), CAPACITY - 1;
            && e < |text| && Read(text, e, ask).lineBegin == e && !Kept(text, e, ask)
            && Fate(text, 0, 0, ask) ==
               Parsed(InvalidTokens, [ParseStart] + RawLines(e - |Quoted(name)|) + [ParseEnd(true, false)])
            && OnePiece(text, ask).error == Okay
  {
    FullOfLines(name, n, ask);
    SpreadParses(name, n, ask);
    hide Fate, Read, RawLines, Parse, Spread, Quoted;
    FateIs(Spread(name, n), 0, 0, ask);
    FateIs(Spread(name, n), 0, CAPACITY - 1, ask);
  }

  lemma FullOfLines(name: string, n: nat, ask: Listener)
    requires !EndsInBackslash(name) && Agreeable(ask)
    requires |Quoted(name)| < CAPACITY - 1 <= |Quoted(name)| + n
    ensures var text, e := Spread(name, n), CAPACITY - 1;
            && e < |text| && !Kept(text, e, ask)
            && var r := Read(text, e, ask);
               && r.lineBegin == e && Anchor(r) == 0 && r.status.Running?
               && Ended(r) ==
                  Parsed(InvalidTokens, [ParseStart] + RawLines(e - |Quoted(name)|) + [ParseEnd(true, false)])
  {
    hide Step, Agreeable, Quoted;
    var text, e, q := Spread(name, n), CAPACITY - 1, |Quoted(name)|;
    var load := text[..e];
    assert load[0..0 + q] == Quoted(name);
    assert forall k :: q <= k < e ==> load[k] == '\n';
    NameParses(load, name, ask);
    LinesParse(load, Named(name), e - q, ask);
    TokenAt(0, name);
  }

  lemma SpreadShape(name: string, n: nat)
    ensures var text, q := Spread(name, n), |Quoted(name)|;
            && Has(text, 0, Quoted(name)) && (forall k :: q <= k < q + n ==> text[k] == '\n')
            && |text| == q + n + 4 && text[q + n] == '{' && text[q + n + 1] == '\n' && Has(text, q + n + 2, "}\n")
  {
    hide Quoted;
    var text, q := Spread(name, n), |Quoted(name)|;
    assert text[0..0 + q] == Quoted(name);
    assert text[q + n + 2..q + n + 2 + 2] == "}\n";
  }

  lemma SpreadParses(name: string, n: nat, ask: Listener)
    requires !EndsInBackslash(name) && Agreeable(ask) && n > 0
    ensures OnePiece(Spread(name, n), ask).error == Okay
  {
    hide Loop, Step, Agreeable, TokenText, QuotedToken, Quoted, Spread, Has;
    var text := Spread(name, n);
    SpreadShape(name, n);
    TokenAt(0, name);
    NameParses(text, name, ask);
    LinesParse(text, Named(name), n, ask);
    var s1 := Below(Named(name), n);
    StepOpenBrace(text, s1, ask);
    var s2 := Step(text, s1, ask);
    Unroll(text, s1, s2, ask);
    StepNewline(text, s2, ask);
    var s3 := Step(text, s2, ask);
    Unroll(text, s2, s3, ask);
    FooterParses(text, s3, ask);
    LoopEnds(text, After(s3, 2, 1, s3.level - 1, [LeavingSection, RawLine]), ask);
  }

  lemma LoopEnds(text: string, st: State, ask: Listener)
    requires st.pos == |text|
    ensures Loop(text, st, ask) == st
  {}

  /** Blanks that fill the buffer once are taken for a line too long, although nothing follows them. */
  lemma BlanksFill(ask: Listener)
    ensures var text := Blanks(CAPACITY - 1);
            && LastFills(text, 0, 0, ask) && (forall e :: 0 <= e < |text| ==> Kept(text, e, ask))
            && Fate(text, 0, 0, ask) == Parsed(TokenOverflow, [ParseStart, ParseEnd(true, false)])
            && OnePiece(text, ask) == Parsed(Okay, [ParseStart, ParseEnd(false, false)])
  {
    var text := Blanks(CAPACITY - 1);
    forall e | 0 <= e <= |text| ensures Loop(text[..e], INITIAL, ask) == INITIAL.(pos := e, col := e) {
      BlanksParse(text[..e], INITIAL, e, ask);
      LoopEnds(text[..e], INITIAL.(pos := e, col := e), ask);
    }
    assert text[..|text|] == text;
    hide Loop, Fate;
    FateIs(text, 0, 0, ask);
  }

  /** A line longer than the buffer is refused as such where a load begins with it, as at the beginning of the
      text. Behind another line of the same load it is not: what is read next goes over characters that are
      still needed. */
  lemma LongLineIsOverwritten(n: nat, ask: Listener)
    requires Agreeable(ask) && n >= CAPACITY
    ensures Fate("\n" + Blanks(n), 0, 0, ask).Overwritten?
    ensures OnePiece("\n" + Blanks(n), ask) == Parsed(Okay, [ParseStart, RawLine, ParseEnd(false, false)])
    ensures Fate(Blanks(n), 0, 0, ask) == Parsed(TokenOverflow, [ParseStart, ParseEnd(true, false)])
  {
    var text := "\n" + Blanks(n);
    var first := CAPACITY - 1;
    LineThenBlanks(text, n, first, ask);
    LineThenBlanks(text, n, first + 1, ask);
    LineThenBlanks(text, n, |text|, ask);
    ReadAll(text, ask);
    BlanksBegin(n, ask);
    hide Fate, Read, Parse;
    FateIs(text, 0, 0, ask);
    FateIs(text, 1, first, ask);
  }

  lemma LineThenBlanks(text: string, n: nat, e: nat, ask: Listener)
    requires Agreeable(ask) && text == "\n" + Blanks(n) && 0 < e <= |text|
    ensures var r := Read(text, e, ask);
            && r.status.Running? && r.pos == e && r.lineBegin == 1 && Anchor(r) == 1
            && Ended(r) == Parsed(Okay, [ParseStart, RawLine, ParseEnd(false, false)])
  {
    var part := text[..e];
    assert part[0] == '\n' && forall k :: 1 <= k < e ==> part[k] == ' ';
    StepNewline(part, INITIAL, ask);
    var next := Step(part, INITIAL, ask);
    assert next.trace == [ParseStart, RawLine];
    Unroll(part, INITIAL, next, ask);
    BlanksParse(part, next, e - 1, ask);
    LoopEnds(part, next.(pos := e, col := next.col + (e - 1)), ask);
    hide Loop, Step;
  }

  lemma BlanksBegin(n: nat, ask: Listener)
    requires n >= CAPACITY
    ensures Fate(Blanks(n), 0, 0, ask) == Parsed(TokenOverflow, [ParseStart, ParseEnd(true, false)])
  {
    var text, e := Blanks(n), CAPACITY - 1;
    BlanksParse(text[..e], INITIAL, e, ask);
    LoopEnds(text[..e], INITIAL.(pos := e, col := e), ask);
    assert Loop(text[..0], INITIAL, ask) == INITIAL;
    hide Loop, Fate;
    FateIs(text, 0, 0, ask);
  }
}
