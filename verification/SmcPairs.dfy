/**
 Pairs as they may be written by hand: with other blanks, without quotes, and with the brace that
 closes their section behind them.
 */
module SmcPairs {
  import opened SmcTokens
  import opened SmcParser
  import opened SmcRoundTrip
  import opened SmcRoundTripExact

  predicate AllSpacing(s: string) {
    forall k :: 0 <= k < |s| ==> Spacing(s[k])
  }

  /** A character that has no meaning of its own. */
  predicate Unmarked(c: char) {
    !IsBlank(c) && c != ';' && c != '/' && c != '{' && c != '}' && c != '"'
  }

  predicate AllUnmarked(s: string) {
    forall k :: 0 <= k < |s| ==> Unmarked(s[k])
  }

  lemma HasAt(text: string, pos: nat, part: string, k: nat)
    requires Has(text, pos, part) && k < |part|
    ensures pos + k < |text| && text[pos + k] == part[k]
  {
    assert text[pos..pos + |part|][k] == text[pos + k];
  }

  lemma SpacingParses(text: string, st: State, blanks: string, ask: Listener)
    requires st.status.Running? && !st.ignoring && st.staged.first == EMPTY
    requires Has(text, st.pos, blanks) && AllSpacing(blanks)
    ensures Loop(text, st, ask) == Loop(text, st.(pos := st.pos + |blanks|, col := st.col + |blanks|), ask)
  {
    hide Loop, Has;
    forall k | st.pos <= k < st.pos + |blanks| ensures k < |text| && Spacing(text[k]) {
      HasAt(text, st.pos, blanks, k - st.pos);
    }
    HasEnds(text, st.pos, blanks);
    BlanksParse(text, st, |blanks|, ask);
  }

  lemma HasEnds(text: string, pos: nat, part: string)
    requires Has(text, pos, part)
    ensures pos + |part| <= |text|
  {}

  // ----- a brace behind a pair

  /** A closing brace ends a section after a pair exactly if the value of the pair is still being read. */
  lemma BraceAfterPair(text: string, st: State, ask: Listener)
    requires st.status.Running? && Sane(st) && !st.ignoring && st.level > 0 && Agreeable(ask)
    requires st.pos < |text| && text[st.pos] == '}' && st.staged.second.ptr != NULL
    ensures var r := Step(text, st, ask);
            if st.staged.third.ptr == NULL && st.staged.first.ptr != NULL
            then && r.status.Running? && r.staged == NOTHING_STAGED && r.level == st.level - 1
                 && r.trace == st.trace + [PairOf(text, Rotate(st.staged).1), LeavingSection]
            else r.status == Failed(InvalidSection3)
  {
    hide AtNewline, InComment, InQuote, OpenComment, AtBlank, AtSlash, AtOpenBrace, AtPlain, AtQuote, PairOf;
    assert Step(text, st, ask) == AtCloseBrace(text, st, ask);
    hide Step;
    var pair := PairOf(text, Rotate(st.staged).1);
    assert ask(st.trace + [pair]) == Continue && ask(st.trace + [pair] + [LeavingSection]) == Continue;
    assert st.trace + [pair] + [LeavingSection] == st.trace + [pair, LeavingSection];
  }

  lemma BraceOnFullStage(text: string, st: State, ask: Listener)
    requires st.status.Running? && !st.ignoring && st.staged.third.ptr != NULL
    requires st.pos < |text| && text[st.pos] == '}'
    ensures Loop(text, st, ask).status == Failed(InvalidSection3)
  {
    hide AtNewline, InComment, InQuote, OpenComment, AtBlank, AtSlash, AtOpenBrace, AtPlain, AtQuote, TokenText;
    assert Step(text, st, ask) == AtCloseBrace(text, st, ask);
    hide Step;
  }

  /** Behind any key, a quoted value and then the brace on the same line fail. */
  lemma ValueThenBraceFails(text: string, st: State, before: string, value: string, behind: string, ask: Listener)
    requires st.status.Running? && !st.inQuote && !st.ignoring
    requires st.staged.first == EMPTY && st.staged.second.ptr != NULL && st.staged.third == EMPTY
    requires AllSpacing(before) && AllSpacing(behind) && !EndsInBackslash(value)
    requires Has(text, st.pos, before + (Quoted(value) + (behind + "}")))
    ensures Loop(text, st, ask).status == Failed(InvalidSection3)
  {
    hide Loop, Quoted, TokenText, QuotedToken, Has, AllSpacing;
    HasSplit(text, st.pos, before, Quoted(value) + (behind + "}"));
    SpacingParses(text, st, before, ask);
    var s1 := st.(pos := st.pos + |before|, col := st.col + |before|);
    HasSplit(text, s1.pos, Quoted(value), behind + "}");
    QuotedString(text, s1, value, ask);
    var s2 := s1.(pos := s1.pos + |Quoted(value)|, col := s1.col + |Quoted(value)|,
                  staged := Staging(EMPTY, QuotedToken(s1.pos, value), st.staged.second));
    HasSplit(text, s2.pos, behind, "}");
    SpacingParses(text, s2, behind, ask);
    var s3 := s2.(pos := s2.pos + |behind|, col := s2.col + |behind|);
    HasAt(text, s3.pos, "}", 0);
    BraceOnFullStage(text, s3, ask);
  }

  /** A quoted pair cannot share its line with the brace that closes its section, though the brace is
      meant to be allowed there: whatever blanks there are, or none. */
  lemma PairThenBraceFails(text: string, st: State, key: string, before: string, value: string, behind: string,
                           ask: Listener)
    requires Fresh(st) && !EndsInBackslash(key) && !EndsInBackslash(value)
    requires AllSpacing(before) && AllSpacing(behind)
    requires Has(text, st.pos, Quoted(key) + (before + (Quoted(value) + (behind + "}"))))
    ensures Loop(text, st, ask).status == Failed(InvalidSection3)
  {
    hide Loop, Quoted, TokenText, QuotedToken, Has, AllSpacing;
    var k := |Quoted(key)|;
    HasSplit(text, st.pos, Quoted(key), before + (Quoted(value) + (behind + "}")));
    QuotedString(text, st, key, ask);
    var s1 := st.(pos := st.pos + k, col := st.col + k, staged := Staging(EMPTY, QuotedToken(st.pos, key), EMPTY));
    TokenAt(st.pos, key);
    ValueThenBraceFails(text, s1, before, value, behind, ask);
  }

  // ----- strings without quotes

  lemma StepPlain(text: string, st: State, ask: Listener)
    requires st.status.Running? && !st.ignoring && st.pos < |text| && Unmarked(text[st.pos])
    ensures Step(text, st, ask) ==
            st.(pos := st.pos + 1, col := st.col + 1,
                staged := if st.staged.first.ptr != NULL then st.staged
                          else st.staged.(first := st.staged.first.(ptr := st.pos)))
  {
    hide AtNewline, InComment, InQuote, OpenComment, AtBlank, AtSlash, AtOpenBrace, AtCloseBrace, AtQuote;
    assert Step(text, st, ask) == AtPlain(st);
    hide Step;
  }

  /** A run of plain characters is one string being read. */
  lemma {:induction false} PlainParses(text: string, st: State, s: string, ask: Listener)
    requires st.status.Running? && !st.ignoring && s != "" && Has(text, st.pos, s) && AllUnmarked(s)
    ensures Loop(text, st, ask) ==
            Loop(text, st.(pos := st.pos + |s|, col := st.col + |s|,
                           staged := if st.staged.first.ptr != NULL then st.staged
                                     else st.staged.(first := st.staged.first.(ptr := st.pos))), ask)
    decreases |s|
  {
    hide Loop, Step;
    HasAt(text, st.pos, s, 0);
    StepPlain(text, st, ask);
    var next := Step(text, st, ask);
    Unroll(text, st, next, ask);
    if |s| > 1 {
      assert s == s[..1] + s[1..];
      HasSplit(text, st.pos, s[..1], s[1..]);
      PlainParses(text, next, s[1..], ask);
    }
  }

  /** A quote that begins right behind an unquoted key, and is not closed before the line ends, is handed
      out as an empty value: the terminator of the key stands on its first character. */
  lemma UnclosedValueIsCut(text: string, st: State, key: string, n: nat, ask: Listener) returns (next: State)
    requires Fresh(st) && st.level > 0 && Agreeable(ask) && key != "" && AllUnmarked(key)
    requires var at := st.pos + |key|;
             && Has(text, st.pos, key + "\"") && at + 1 + n < |text| && text[at + 1 + n] == '\n'
             && Quotable(text, at + 1, at + 1 + n)
    ensures Loop(text, st, ask) == Loop(text, next, ask)
    ensures next.pos == st.pos + |key| + n + 2 && next.status.Running?
    ensures next.trace == st.trace + [RawLine, KeyValue(Text(key), Text(""))]
  {
    hide Loop, Step, TokenText, Quotable;
    HasSplit(text, st.pos, key, "\"");
    PlainParses(text, st, key, ask);
    var k := Token(st.pos, NULL, false, false);
    var s1 := st.(pos := st.pos + |key|, col := st.col + |key|, staged := Staging(k, EMPTY, EMPTY));
    HasAt(text, s1.pos, "\"", 0);
    StepQuoteBehind(text, s1, ask);
    var s2 := Step(text, s1, ask);
    Unroll(text, s1, s2, ask);
    QuotedInside(text, s2, n, ask);
    var v := s2.staged.first.(special := '\\' in text[s2.pos..s2.pos + n]);
    var s3 := s2.(pos := s2.pos + n, col := s2.col + n, staged := s2.staged.(first := v));
    StepNewlineInQuote(text, s3, ask);
    next := Step(text, s3, ask);
    Unroll(text, s3, next, ask);
    KeyIsText(text, st.pos, key);
    assert PairOf(text, Staging(EMPTY, v.(end := s3.pos), s2.staged.second)) == KeyValue(Text(key), Text(""));
    assert st.trace + [RawLine] + [KeyValue(Text(key), Text(""))] ==
           st.trace + [RawLine, KeyValue(Text(key), Text(""))];
  }

  lemma StepQuoteBehind(text: string, st: State, ask: Listener)
    requires st.status.Running? && !st.inQuote && !st.ignoring && st.pos < |text| && text[st.pos] == '"'
    requires st.staged.first.ptr != NULL && st.staged.second == EMPTY && st.staged.third == EMPTY
    ensures Step(text, st, ask) ==
            st.(pos := st.pos + 1, col := st.col + 1, inQuote := true, ignoring := true,
                staged := Staging(EMPTY.(ptr := st.pos), st.staged.first.(end := st.pos), EMPTY))
  {
    hide AtNewline, InComment, InQuote, AtBlank, OpenComment, AtSlash, AtOpenBrace, AtCloseBrace, AtPlain;
    assert Step(text, st, ask) == AtQuote(st);
    hide Step;
  }

  lemma KeyIsText(text: string, pos: nat, key: string)
    requires Has(text, pos, key)
    ensures TokenText(text, Token(pos, pos + |key|, false, false)) == Text(key)
  {}
}
