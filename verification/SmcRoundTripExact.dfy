/**
 The other half of the round trip: a string that ends in a backslash is never given back.

 Its closing quote follows a backslash, so the parser takes it for an escaped one and reads
 on: a key swallows the space before its value, a value or a section name the rest of its line.
 */
module SmcRoundTripExact {
  import opened SmcTokens
  import opened SmcParser
  import opened SmcRoundTrip

  /** Everything the listener is told once the parse at `st` has run to its end. */
  function Ending(text: string, st: State, ask: Listener): seq<Event> {
    Finish(Loop(text, st, ask)).1
  }

  /** An event about the string `t`, or the end. */
  predicate Mentions(e: Event, t: Text) {
    || (e.KeyValue? && e.key == t)
    || (e.NewSection? && e.name == t)
    || e.ParseEnd?
  }

  /** `t` is the oldest staged string, and not the one being read. */
  predicate Heads(g: Staging, t: Token) {
    && t.ptr != NULL
    && (g.third == t || (g.third == EMPTY && g.second == t))
  }

  /** What a step may do to a staging area headed by `t`: leave it headed by `t` and tell
      nothing structural, or tell something about `t` first. */
  predicate Faces(text: string, st: State, r: State, t: Token) {
    || (Structure(r.trace) == Structure(st.trace) && (!r.status.Failed? ==> Heads(r.staged, t)))
    || (|Structure(r.trace)| > |Structure(st.trace)|
        && Structure(st.trace) <= Structure(r.trace)
        && Mentions(Structure(r.trace)[|Structure(st.trace)|], TokenText(text, t)))
  }

  lemma DeliverPairFaces(text: string, st: State, s: State, t: Token, ask: Listener)
    requires s.staged.third == t && s.status.Running? && Structure(s.trace) == Structure(st.trace)
    ensures var r := DeliverPair(text, s, ask);
            && (!r.status.Running? ==> r.status.Failed?)
            && Faces(text, st, r, t)
            && (r.status.Running? ==> |Structure(r.trace)| > |Structure(st.trace)|)
  {
    hide Structure, TokenText;
    StructurePush(s.trace, PairOf(text, s.staged));
  }

  lemma CloseFirstHeads(st: State, t: Token, err: Error)
    requires st.status.Running? && Heads(st.staged, t)
    ensures var r := CloseFirst(st, err);
            && r.trace == st.trace && r.pos == st.pos && r.level == st.level
            && (r.status.Running? || r.status.Failed?)
            && (r.status.Running? ==> Heads(r.staged, t))
  {
    var g := st.staged.(first := st.staged.first.(end := st.pos));
    assert Rotate(g).0 && st.staged.first.ptr != NULL ==> Heads(Rotate(g).1, t);
    hide Rotate, Heads;
  }

  lemma NewlineFaces(text: string, st: State, t: Token, ask: Listener)
    requires st.pos < |text| && st.status.Running? && Heads(st.staged, t)
    ensures Faces(text, st, AtNewline(text, st, ask), t)
  {
    hide Structure, TokenText, CloseFirst, DeliverPair;
    CloseFirstHeads(st, t, InvalidTokens);
    var s1 := CloseFirst(st, InvalidTokens);
    if s1.status.Running? {
      StructurePush(s1.trace, RawLine);
      var s2 := s1.(eolComment := false, inQuote := false, ignoring := st.ignoring && st.mlComment);
      var s3 := Deliver(s2, RawLine, ask);
      assert Structure(s3.trace) == Structure(st.trace);
      if s3.status.Running? && s3.staged.third.ptr != NULL {
        DeliverPairFaces(text, st, s3, t, ask);
      }
    }
  }

  lemma OpenBraceFaces(text: string, st: State, t: Token, ask: Listener)
    requires st.pos < |text| && st.status.Running? && Heads(st.staged, t)
    ensures Faces(text, st, AtOpenBrace(text, st, ask), t)
  {
    hide Structure, TokenText;
    StructurePush(st.trace, NewSection(TokenText(text, t)));
  }

  lemma CloseBraceFaces(text: string, st: State, t: Token, ask: Listener)
    requires st.pos < |text| && st.status.Running? && Heads(st.staged, t)
    ensures Faces(text, st, AtCloseBrace(text, st, ask), t)
  {
    hide Structure, TokenText, DeliverPair;
    var (ok, g) := Rotate(st.staged);
    if ok && g.third.ptr != NULL {
      DeliverPairFaces(text, st, st.(staged := g), t, ask);
      var s1 := DeliverPair(text, st.(staged := g), ask);
      StructurePush(s1.trace, LeavingSection);
    }
  }

  lemma QuietFaces(text: string, st: State, t: Token)
    requires st.pos < |text| && st.status.Running? && Heads(st.staged, t)
    ensures Faces(text, st, InQuote(text, st), t)
    ensures Faces(text, st, InComment(text, st), t)
  {
    hide Structure, TokenText;
  }

  lemma PlainFaces(text: string, st: State, t: Token)
    requires st.pos < |text| && st.status.Running? && Heads(st.staged, t)
    ensures Faces(text, st, AtPlain(st), t)
    ensures Faces(text, st, AtBlank(st), t)
  {
    hide Structure, TokenText;
  }

  lemma StagingFaces(text: string, st: State, t: Token)
    requires st.pos < |text| && st.status.Running? && Heads(st.staged, t)
    ensures Faces(text, st, AtSlash(text, st), t)
    ensures Faces(text, st, AtQuote(st), t)
    ensures Faces(text, st, OpenComment(st, false), t)
  {
    hide Structure, TokenText, CloseFirst, OpenComment;
    CloseFirstHeads(st, t, InvalidTokens);
    CommentFaces(text, st, t, false);
    CommentFaces(text, st, t, true);
  }

  lemma CommentFaces(text: string, st: State, t: Token, multiline: bool)
    requires st.pos < |text| && st.status.Running? && Heads(st.staged, t)
    ensures Faces(text, st, OpenComment(st, multiline), t)
  {
    hide Structure, TokenText, CloseFirst;
    CloseFirstHeads(if multiline then st.(ignoring := true, mlComment := true)
                    else st.(ignoring := true, eolComment := true), t, InvalidTokens);
  }

  lemma StepFaces(text: string, st: State, t: Token, ask: Listener)
    requires st.pos < |text| && st.status.Running? && Heads(st.staged, t)
    ensures Faces(text, st, Step(text, st, ask), t)
  {
    hide AtNewline, AtOpenBrace, AtCloseBrace, InQuote, InComment, AtSlash, OpenComment, AtQuote, AtPlain, AtBlank,
         Faces;
    NewlineFaces(text, st, t, ask);
    OpenBraceFaces(text, st, t, ask);
    CloseBraceFaces(text, st, t, ask);
    QuietFaces(text, st, t);
    PlainFaces(text, st, t);
    StagingFaces(text, st, t);
  }

  // ----- what is told stays told

  lemma NewlineGrows(text: string, st: State, ask: Listener)
    ensures st.trace <= AtNewline(text, st, ask).trace
  {
    hide TokenText, Rotate;
  }

  lemma OpenBraceGrows(text: string, st: State, ask: Listener)
    ensures st.trace <= AtOpenBrace(text, st, ask).trace
  {
    hide TokenText, Rotate;
  }

  lemma CloseBraceGrows(text: string, st: State, ask: Listener)
    ensures st.trace <= AtCloseBrace(text, st, ask).trace
  {
    hide TokenText, Rotate, DeliverPair, LeaveSection;
    var s0 := st.(staged := Rotate(st.staged).1);
    PairGrows(text, s0, ask);
    var d := DeliverPair(text, s0, ask);
    if d.level > 0 { LeaveGrows(d, ask); }
    if st.level > 0 { LeaveGrows(st, ask); }
  }

  lemma PairGrows(text: string, st: State, ask: Listener)
    ensures st.trace <= DeliverPair(text, st, ask).trace && DeliverPair(text, st, ask).level == st.level
    ensures DeliverPair(text, st, ask).status.Running? ==> st.level > 0
  {
    hide TokenText;
  }

  lemma LeaveGrows(st: State, ask: Listener)
    requires st.level > 0
    ensures st.trace <= LeaveSection(st, ask).trace
  {}

  lemma StepGrows(text: string, st: State, ask: Listener)
    requires st.pos < |text| && st.status.Running?
    ensures st.trace <= Step(text, st, ask).trace
  {
    hide AtNewline, AtOpenBrace, AtCloseBrace, InQuote, InComment, AtSlash, OpenComment, AtQuote, AtPlain, AtBlank,
         Advances;
    NewlineGrows(text, st, ask);
    OpenBraceGrows(text, st, ask);
    CloseBraceGrows(text, st, ask);
    IgnoringIsSilent(text, st);
    CommentIsSilent(text, st, false);
    SlashIsSilent(text, st);
    StringIsSilent(text, st);
    BlankIsSilent(text, st);
  }

  lemma {:induction false} LoopGrows(text: string, st: State, ask: Listener)
    ensures st.trace <= Loop(text, st, ask).trace
    decreases |text| - st.pos
  {
    hide Step;
    if st.status.Running? && st.pos < |text| {
      StepAdvances(text, st, ask);
      StepGrows(text, st, ask);
      var next := Step(text, st, ask);
      if next.status.Running? { LoopGrows(text, next, ask); }
    }
  }

  lemma StructurePrefix(a: seq<Event>, b: seq<Event>)
    requires a <= b
    ensures Structure(a) <= Structure(b)
  {
    StructureAppends(a, b[|a|..]);
    assert a + b[|a|..] == b;
  }

  /** Once a string is staged, the next structural event is about it. */
  lemma {:induction false} NextMentions(text: string, st: State, t: Token, ask: Listener) returns (e: Event)
    requires Heads(st.staged, t) && st.status.Running?
    ensures Mentions(e, TokenText(text, t))
    ensures Structure(st.trace) + [e] <= Structure(Ending(text, st, ask))
    decreases |text| - st.pos
  {
    hide Step, TokenText, Structure;
    var n := |Structure(st.trace)|;
    var last := Loop(text, st, ask);
    var err := Finish(last).0;
    var end := Finish(last).1[|last.trace|];
    assert Ending(text, st, ask) == last.trace + [end] && end.ParseEnd?;
    if st.status.Running? && st.pos < |text| {
      StepAdvances(text, st, ask);
      StepFaces(text, st, t, ask);
      var next := Step(text, st, ask);
      if next.status.Running? && Structure(next.trace) == Structure(st.trace) {
        e := NextMentions(text, next, t, ask);
        return;
      }
      if next.status.Running? { LoopGrows(text, next, ask); }
      StructurePrefix(next.trace, last.trace);
      StructurePush(last.trace, end);
      e := Structure(last.trace + [end])[n];
    } else {
      StructurePush(last.trace, end);
      e := end;
    }
  }

  // ----- strings that end in a backslash

  lemma {:induction false} UnescapeEscapeThen(s: string, x: string)
    ensures Unescape(Escape(s) + x) == s + Unescape(x)
  {
    hide Unescape, EscapeChar;
    if s == "" {
      assert Escape(s) + x == x;
    } else {
      UnescapeEscapeThen(s[1..], x);
      UnescapeOne(s[0], Escape(s[1..]) + x);
      assert Escape(s) + x == EscapeChar(s[0]) + (Escape(s[1..]) + x);
      assert s == [s[0]] + s[1..];
    }
  }

  /** The closing quote of such a string counts as one more character of it. */
  lemma UnclosedInside(s: string)
    requires EndsInBackslash(s)
    ensures var q := Quoted(s);
            && |q| == |Escape(s)| + 2 && |Escape(s)| >= 2 && q[0] == '"' && q[1..] == Escape(s) + "\""
            && '\\' in Escape(s)
            && forall k :: 1 <= k < |q| ==> q[k] != '\n' && (q[k] == '"' ==> q[k - 1] == '\\')
  {
    var e := Escape(s);
    EscapedIsQuotable(s);
    EscapeKeepsTheEnd(s);
    EscapeNeedsBackslash(s);
    var q := Quoted(s);
    assert q == "\"" + e + "\"";
    hide Escape, Quoted;
    assert e[|e| - 1] == '\\' && q[|q| - 2] == e[|e| - 1];
    forall k | 1 <= k < |q| ensures q[k] != '\n' && (q[k] == '"' ==> q[k - 1] == '\\') {
      if k < |q| - 1 {
        assert q[k] == ("\"" + e)[k] && q[k - 1] == ("\"" + e)[k - 1];
      }
    }
  }

  lemma UnclosedShape(text: string, pos: nat, s: string)
    requires Has(text, pos, Quoted(s)) && EndsInBackslash(s)
    ensures var past := pos + |Quoted(s)|;
            && past <= |text| && text[pos] == '"' && text[past - 1] == '"'
            && text[pos + 1..past] == Escape(s) + "\""
            && Quotable(text, pos + 1, past)
            && '\\' in text[pos + 1..past] && |Escape(s)| >= 2
  {
    UnclosedInside(s);
    var q := Quoted(s);
    var e := Escape(s);
    hide Quoted, Escape, EndsInBackslash;
    var past := pos + |q|;
    forall k | pos <= k < past ensures text[k] == q[k - pos] {
      assert text[pos..past][k - pos] == q[k - pos];
    }
    assert text[pos..past][1..] == text[pos + 1..past];
    assert text[past - 1] == (e + "\"")[|e|];
    var k :| 0 <= k < |e| && e[k] == '\\';
    assert (e + "\"")[k] == '\\';
  }

  lemma StepNewlineInQuote(text: string, st: State, ask: Listener)
    requires st.status.Running? && st.inQuote && st.ignoring && !st.mlComment && Agreeable(ask)
    requires st.pos < |text| && text[st.pos] == '\n'
    requires st.staged.first.ptr != NULL && st.staged.third == EMPTY
    requires st.staged.second.ptr != NULL ==> st.level > 0
    ensures var r := Step(text, st, ask);
            var t := st.staged.first.(end := st.pos);
            && r.status.Running? && r.pos == st.pos + 1
            && if st.staged.second.ptr != NULL
               then r.trace == st.trace + [RawLine] +
                               [PairOf(text, Staging(EMPTY, t, st.staged.second))]
               else r.trace == st.trace + [RawLine] && r.staged == Staging(EMPTY, t, st.staged.second)
  {
    hide InComment, InQuote, OpenComment, AtBlank, AtSlash, AtOpenBrace, AtCloseBrace, AtPlain, AtQuote, TokenText;
    assert Step(text, st, ask) == AtNewline(text, st, ask);
    hide Step;
    assert ask(st.trace + [RawLine]) == Continue;
    var kv := PairOf(text, Staging(EMPTY, st.staged.first.(end := st.pos), st.staged.second));
    assert ask(st.trace + [RawLine] + [kv]) == Continue;
  }

  /** Such a string before a line end is given with its quotes, and so is not itself. */
  lemma UnclosedText(text: string, pos: nat, s: string)
    requires Has(text, pos, Quoted(s)) && EndsInBackslash(s)
    ensures TokenText(text, Token(pos, pos + |Quoted(s)|, false, true)) != Text(s)
  {
    hide Has, Escape, Quotable;
    UnclosedShape(text, pos, s);
    var raw := text[pos..pos + |Quoted(s)|];
    var inner := Escape(s) + "\"";
    assert raw == ['"'] + inner;
    UnescapeEscapeThen(s, "\"");
    assert raw[1..] == inner && Unescape(raw) == ['"'] + Unescape(inner);
    assert |Unescape("\"")| == 1;
  }

  /** Such a string before a line end: the parser reads up to the line end with it unclosed. */
  lemma UnclosedReads(text: string, st: State, s: string, ask: Listener)
    requires st.status.Running? && !st.inQuote && !st.ignoring && !st.mlComment
    requires st.staged.first == EMPTY && st.staged.third == EMPTY
    requires Has(text, st.pos, Quoted(s) + "\n") && EndsInBackslash(s)
    ensures var past := st.pos + |Quoted(s)|;
            var at := st.(pos := past, col := st.col + |Quoted(s)|, inQuote := true, ignoring := true,
                          staged := st.staged.(first := Token(st.pos, NULL, false, true)));
            && past < |text| && text[past] == '\n'
            && Loop(text, st, ask) == Loop(text, at, ask)
  {
    hide Loop, Step, Escape;
    HasSplit(text, st.pos, Quoted(s), "\n");
    UnclosedShape(text, st.pos, s);
    var n := |Quoted(s)| - 1;
    assert text[st.pos + n + 1] == text[st.pos + n + 1..st.pos + n + 2][0] == '\n';
    StepOpens(text, st, ask);
    var s1 := Step(text, st, ask);
    Unroll(text, st, s1, ask);
    QuotedInside(text, s1, n, ask);
  }

  /** The text does not go on from here as the document does. */
  predicate Lost(text: string, st: State, expected: seq<Event>, ask: Listener) {
    !(Structure(st.trace) + expected <= Structure(Ending(text, st, ask)))
  }

  lemma NextDiffers(text: string, st: State, told: seq<Event>, e: Event, other: Event, expected: seq<Event>,
                    ask: Listener)
    requires Structure(told) + [e] <= Structure(Ending(text, st, ask))
    requires e != other && |expected| > 0 && expected[0] == other
    ensures !(Structure(told) + expected <= Structure(Ending(text, st, ask)))
  {
    hide Structure, Ending;
    var n := |Structure(told)|;
    var all := Structure(Ending(text, st, ask));
    assert (Structure(told) + [e])[n] == e;
    assert (Structure(told) + expected)[n] == other;
  }

  lemma NameLost(text: string, st: State, name: string, expected: seq<Event>, ask: Listener)
    requires Fresh(st) && Agreeable(ask) && EndsInBackslash(name)
    requires Has(text, st.pos, Quoted(name) + "\n")
    requires |expected| > 0 && expected[0] == NewSection(Text(name))
    ensures Lost(text, st, expected, ask)
  {
    hide Loop, Step, Quoted, TokenText, Structure, Agreeable;
    UnclosedReads(text, st, name, ask);
    var past := st.pos + |Quoted(name)|;
    var at := st.(pos := past, col := st.col + |Quoted(name)|, inQuote := true, ignoring := true,
                  staged := st.staged.(first := Token(st.pos, NULL, false, true)));
    StepNewlineInQuote(text, at, ask);
    var s2 := Step(text, at, ask);
    Unroll(text, at, s2, ask);
    StructurePush(st.trace, RawLine);
    var t := Token(st.pos, past, false, true);
    var e := NextMentions(text, s2, t, ask);
    HasSplit(text, st.pos, Quoted(name), "\n");
    UnclosedText(text, st.pos, name);
    NextDiffers(text, s2, st.trace, e, NewSection(Text(name)), expected, ask);
  }

  /** The state at the end of a pair's line, the value still being read. */
  function PairUnclosed(st: State, key: string, value: string): State {
    var k, n := |Quoted(key)|, |Quoted(key)| + 1 + |Quoted(value)|;
    st.(pos := st.pos + n, col := st.col + n, inQuote := true, ignoring := true,
        staged := Staging(Token(st.pos + k + 1, NULL, false, true), QuotedToken(st.pos, key), EMPTY))
  }

  lemma PairReads(text: string, st: State, key: string, value: string, ask: Listener)
    requires Fresh(st) && !EndsInBackslash(key) && EndsInBackslash(value)
    requires Has(text, st.pos, PairLine(key, value))
    ensures Has(text, st.pos, Quoted(key)) && Has(text, st.pos + |Quoted(key)| + 1, Quoted(value) + "\n")
    ensures TokenText(text, QuotedToken(st.pos, key)) == Text(key)
    ensures Loop(text, st, ask) == Loop(text, PairUnclosed(st, key, value), ask)
  {
    hide Loop, Step, Quoted, TokenText, QuotedToken;
    var k := |Quoted(key)|;
    assert PairLine(key, value) == Quoted(key) + " " + (Quoted(value) + "\n");
    HasSplit(text, st.pos, Quoted(key) + " ", Quoted(value) + "\n");
    HasSplit(text, st.pos, Quoted(key), " ");
    QuotedString(text, st, key, ask);
    var s1 := st.(pos := st.pos + k, col := st.col + k, staged := Staging(EMPTY, QuotedToken(st.pos, key), EMPTY));
    assert text[s1.pos] == text[s1.pos..s1.pos + 1][0] == ' ';
    StepBlank(text, s1, ask);
    var s2 := s1.(pos := s1.pos + 1, col := s1.col + 1);
    Unroll(text, s1, s2, ask);
    HasSplit(text, s2.pos, Quoted(value), "\n");
    UnclosedReads(text, s2, value, ask);
  }

  lemma ValueLost(text: string, st: State, key: string, value: string, expected: seq<Event>, ask: Listener)
    requires Fresh(st) && st.level > 0 && Agreeable(ask) && !EndsInBackslash(key) && EndsInBackslash(value)
    requires Has(text, st.pos, PairLine(key, value))
    requires |expected| > 0 && expected[0] == KeyValue(Text(key), Text(value))
    ensures Lost(text, st, expected, ask)
  {
    hide Loop, Step, Quoted, TokenText, Structure, Agreeable, QuotedToken, PairLine;
    PairReads(text, st, key, value, ask);
    var at := PairUnclosed(st, key, value);
    var from := st.pos + |Quoted(key)| + 1;
    HasSplit(text, from, Quoted(value), "\n");
    assert text[at.pos] == text[at.pos..at.pos + 1][0] == '\n';
    TokenAt(st.pos, key);
    ValueApart(text, QuotedToken(st.pos, key), Token(from, at.pos, false, true));
    StepNewlineInQuote(text, at, ask);
    var next := Step(text, at, ask);
    Unroll(text, at, next, ask);
    UnclosedText(text, from, value);
    var e := KeyValue(Text(key), TokenText(text, Token(from, at.pos, false, true)));
    ToldStays(text, next, st.trace, e, ask);
    NextDiffers(text, next, st.trace, e, KeyValue(Text(key), Text(value)), expected, ask);
  }

  lemma ToldStays(text: string, st: State, told: seq<Event>, e: Event, ask: Listener)
    requires st.trace == told + [RawLine] + [e] && !e.RawLine?
    ensures Structure(told) + [e] <= Structure(Ending(text, st, ask))
  {
    hide Structure, Loop;
    LoopGrows(text, st, ask);
    StructurePush(told, RawLine);
    StructurePush(told + [RawLine], e);
    StructurePrefix(st.trace, Ending(text, st, ask));
  }

  lemma SwallowedShape(text: string, pos: nat, key: string)
    requires Has(text, pos, Quoted(key) + " ") && EndsInBackslash(key)
    ensures var end := pos + |Quoted(key)| + 1;
            && end <= |text| && Quotable(text, pos + 1, end)
            && text[pos + 1..end] == Escape(key) + "\" "
            && '\\' in text[pos + 1..end - 1] && pos + 2 < end
  {
    hide Escape, EndsInBackslash, Quoted, Has;
    HasSplit(text, pos, Quoted(key), " ");
    UnclosedShape(text, pos, key);
    var end := pos + |Quoted(key)| + 1;
    SpaceAt(text, end - 1);
    hide Quotable;
    assert text[pos + 1..end] == text[pos + 1..end - 1] + " ";
  }

  /** A key ending in a backslash is staged together with the quote and the space after it. */
  lemma SwallowedText(text: string, pos: nat, key: string)
    requires Has(text, pos, Quoted(key) + " ") && EndsInBackslash(key)
    ensures var end := pos + |Quoted(key)| + 1;
            && end <= |text| && Quotable(text, pos + 1, end)
            && TokenText(text, Token(pos, end, true, '\\' in text[pos + 1..end])) != Text(key)
  {
    SwallowedShape(text, pos, key);
    SwallowedUnescapes(key);
    var end := pos + |Quoted(key)| + 1;
    hide *;
    SpecialText(text, pos, end);
  }

  lemma SpecialText(text: string, pos: nat, end: nat)
    requires pos + 2 < end <= |text| && '\\' in text[pos + 1..end - 1]
    ensures TokenText(text, Token(pos, end, true, '\\' in text[pos + 1..end])) == Text(Unescape(text[pos + 1..end]))
  {
    hide Unescape;
    var k :| pos + 1 <= k < end - 1 && text[k] == '\\';
    assert text[pos + 1..end][k - pos - 1] == '\\';
  }

  lemma SwallowedUnescapes(key: string)
    ensures Unescape(Escape(key) + "\" ") != key
  {
    UnescapeEscapeThen(key, "\" ");
    assert |Unescape("\" ")| == 2 by { assert "\" "[1..] == " "; }
  }

  lemma SpaceAt(text: string, pos: nat)
    requires Has(text, pos, " ")
    ensures pos < |text| && text[pos] == ' '
  {
    assert text[pos] == text[pos..pos + 1][0];
  }

  lemma KeyLost(text: string, st: State, key: string, value: string, expected: seq<Event>, ask: Listener)
    requires Fresh(st) && EndsInBackslash(key)
    requires Has(text, st.pos, PairLine(key, value))
    requires |expected| > 0 && expected[0] == KeyValue(Text(key), Text(value))
    ensures Lost(text, st, expected, ask)
  {
    hide Loop, Step, Structure, Escape, TokenText, Quotable, Quoted, PairLine, EndsInBackslash;
    var q := Quoted(key);
    PairLineParts(key, value);
    HasSplit(text, st.pos, q + " ", "\"" + (Escape(value) + "\"\n"));
    HasSplit(text, st.pos, q, " ");
    var end := st.pos + |q| + 1;
    HasSplit(text, end, "\"", Escape(value) + "\"\n");
    SpaceAt(text, end - 1);
    assert text[end] == text[end..end + 1][0] == '"';
    SwallowedText(text, st.pos, key);
    QuotedStarts(text, st.pos, key);
    OpenAndClose(text, st, |q|, ask);
    var t := Token(st.pos, end, true, '\\' in text[st.pos + 1..end]);
    var s1 := st.(pos := end + 1, col := st.col + |q| + 2, staged := Staging(EMPTY, t, EMPTY));
    assert Loop(text, st, ask) == Loop(text, s1, ask);
    var e := NextMentions(text, s1, t, ask);
    NextDiffers(text, s1, st.trace, e, KeyValue(Text(key), Text(value)), expected, ask);
  }

  lemma QuotedStarts(text: string, pos: nat, s: string)
    requires Has(text, pos, Quoted(s))
    ensures pos < |text| && text[pos] == '"'
  {
    assert text[pos] == text[pos..pos + |Quoted(s)|][0];
  }

  lemma PairLineParts(key: string, value: string)
    ensures PairLine(key, value) == Quoted(key) + " " + ("\"" + (Escape(value) + "\"\n"))
  {
    hide Escape;
  }

  // ----- whole documents

  lemma {:induction false} ForestLost(text: string, st: State, f: Forest, ask: Listener)
    requires Fresh(st) && Agreeable(ask) && !Plain(f) && (st.level > 0 || Sections(f))
    requires Has(text, st.pos, Print(f))
    ensures Lost(text, st, Preorder(f), ask)
    decreases f, 2
  {
    hide Loop, Has, Agreeable, PairLine, HeaderLines, EndsInBackslash, Structure, Ending;
    match f
    case Done =>
    case Pair(key, value, rest) =>
      HasSplit(text, st.pos, PairLine(key, value), Print(rest));
      if EndsInBackslash(key) {
        KeyLost(text, st, key, value, Preorder(f), ask);
      } else if EndsInBackslash(value) {
        ValueLost(text, st, key, value, Preorder(f), ask);
      } else {
        PairParses(text, st, key, value, ask);
        var kv := KeyValue(Text(key), Text(value));
        var s1 := After(st, |PairLine(key, value)|, 1, st.level, [RawLine, kv]);
        ForestLost(text, s1, rest, ask);
        StructureOfHead(kv);
        ToldBy(st, s1, [RawLine, kv], [kv]);
        LostEarlier(text, st, s1, [kv], Preorder(rest), [], Preorder(f), ask);
      }
    case Section(name, body, rest) =>
      SectionLost(text, st, f, ask);
  }

  lemma ToldBy(st: State, s1: State, told: seq<Event>, heard: seq<Event>)
    requires s1.trace == st.trace + told && Structure(told) == heard
    ensures Structure(s1.trace) == Structure(st.trace) + heard
  {
    StructureAppends(st.trace, told);
  }

  lemma LostEarlier(text: string, st: State, s1: State, heard: seq<Event>, lost: seq<Event>, more: seq<Event>,
                    expected: seq<Event>, ask: Listener)
    requires Loop(text, st, ask) == Loop(text, s1, ask) && Lost(text, s1, lost, ask)
    requires Structure(s1.trace) == Structure(st.trace) + heard && expected == heard + lost + more
    ensures Lost(text, st, expected, ask)
  {
    assert Ending(text, st, ask) == Ending(text, s1, ask);
    hide Loop, Structure, Ending;
    NotPrefix(Structure(st.trace), heard, lost, more, Structure(Ending(text, st, ask)));
  }

  lemma NotPrefix(s: seq<Event>, heard: seq<Event>, lost: seq<Event>, more: seq<Event>, all: seq<Event>)
    requires !(s + heard + lost <= all)
    ensures !(s + (heard + lost + more) <= all)
  {
    if s + (heard + lost + more) <= all {
      PrefixCut(s, heard, lost, more, all);
    }
  }

  lemma PrefixCut(s: seq<Event>, heard: seq<Event>, lost: seq<Event>, more: seq<Event>, all: seq<Event>)
    requires s + (heard + lost + more) <= all
    ensures s + heard + lost <= all
  {
    var a := s + heard + lost;
    assert s + (heard + lost + more) == a + more;
    assert a == (a + more)[..|a|] == all[..|a|];
  }

  lemma HeaderEnds(text: string, st: State, name: string, body: Forest, rest: Forest, ask: Listener)
    requires Fresh(st) && Agreeable(ask) && !EndsInBackslash(name)
    requires Has(text, st.pos, Print(Section(name, body, rest)))
    ensures var s1 := After(st, |HeaderLines(name)|, 2, st.level + 1, [RawLine, NewSection(Text(name)), RawLine]);
            && Loop(text, st, ask) == Loop(text, s1, ask)
            && Fresh(s1) && Has(text, s1.pos, Print(body) + ("}\n" + Print(rest)))
            && Structure(s1.trace) == Structure(st.trace) + [NewSection(Text(name))]
  {
    hide Loop, Structure, Agreeable, HeaderLines, Has, EndsInBackslash;
    var head := HeaderLines(name);
    HasSplit(text, st.pos, head, Print(body) + ("}\n" + Print(rest)));
    HeaderParses(text, st, name, ask);
    var open := NewSection(Text(name));
    StructureOfHead(open);
    ToldBy(st, After(st, |head|, 2, st.level + 1, [RawLine, open, RawLine]), [RawLine, open, RawLine], [open]);
  }

  lemma BodyEnds(text: string, st: State, body: Forest, rest: Forest, ask: Listener)
    requires Fresh(st) && Agreeable(ask) && Plain(body) && st.level > 0
    requires Has(text, st.pos, Print(body) + ("}\n" + Print(rest)))
    ensures var s2 := Past(st, body);
            && Loop(text, st, ask) == Loop(text, s2, ask)
            && Fresh(s2) && s2.level == st.level && Has(text, s2.pos, "}\n" + Print(rest))
            && Structure(s2.trace) == Structure(st.trace) + Preorder(body)
  {
    hide Loop, Structure, Agreeable, Plain, Print;
    HasSplit(text, st.pos, Print(body), "}\n" + Print(rest));
    ForestParses(text, st, body, ask);
    StructurePast(st, body);
    PastFresh(st, body);
    hide Past, Has;
  }

  lemma SectionNameLost(text: string, st: State, f: Forest, ask: Listener)
    requires f.Section? && Fresh(st) && Agreeable(ask) && EndsInBackslash(f.name)
    requires Has(text, st.pos, Print(f))
    ensures Lost(text, st, Preorder(f), ask)
  {
    hide Loop, Has, Agreeable, EndsInBackslash, Ending, Lost, Quoted;
    HeaderSplit(f);
    hide Print;
    HasSplit(text, st.pos, Quoted(f.name) + "\n", "{\n" + (Print(f.body) + ("}\n" + Print(f.rest))));
    NameLost(text, st, f.name, Preorder(f), ask);
  }

  function Inside(f: Forest): seq<Event>
    requires f.Section?
  {
    Preorder(f.body) + ([LeavingSection] + Preorder(f.rest))
  }

  lemma SectionLostInside(text: string, st: State, s1: State, f: Forest, ask: Listener)
    requires f.Section? && Loop(text, st, ask) == Loop(text, s1, ask)
    requires Structure(s1.trace) == Structure(st.trace) + [NewSection(Text(f.name))]
    requires Lost(text, s1, Inside(f), ask)
    ensures Lost(text, st, Preorder(f), ask)
  {
    hide Loop, Structure, Lost;
    LostEarlier(text, st, s1, [NewSection(Text(f.name))], Inside(f), [], Preorder(f), ask);
  }

  lemma {:induction false} SectionLost(text: string, st: State, f: Forest, ask: Listener)
    requires f.Section? && Fresh(st) && Agreeable(ask) && !Plain(f) && (st.level > 0 || Sections(f))
    requires Has(text, st.pos, Print(f))
    ensures Lost(text, st, Preorder(f), ask)
    decreases f, 1
  {
    hide Loop, Has, Agreeable, EndsInBackslash, Structure, Lost, Print, HeaderLines, Preorder, Inside;
    if EndsInBackslash(f.name) {
      SectionNameLost(text, st, f, ask);
    } else {
      HeaderEnds(text, st, f.name, f.body, f.rest, ask);
      var s1 := After(st, |HeaderLines(f.name)|, 2, st.level + 1, [RawLine, NewSection(Text(f.name)), RawLine]);
      InsideLost(text, s1, f, ask);
      SectionLostInside(text, st, s1, f, ask);
    }
  }

  /** From behind the opening brace of a section on. */
  lemma {:induction false} InsideLost(text: string, st: State, f: Forest, ask: Listener)
    requires f.Section? && Fresh(st) && Agreeable(ask) && st.level > 0 && (st.level > 1 || Sections(f.rest))
    requires !Plain(f.body) || !Plain(f.rest)
    requires Has(text, st.pos, Print(f.body) + ("}\n" + Print(f.rest)))
    ensures Lost(text, st, Inside(f), ask)
    decreases f, 0
  {
    hide Loop, Has, Agreeable, Structure, Ending, Lost, Print, Preorder;
    var inside := Inside(f);
    if !Plain(f.body) {
      HasSplit(text, st.pos, Print(f.body), "}\n" + Print(f.rest));
      ForestLost(text, st, f.body, ask);
      assert Structure(st.trace) + [] == Structure(st.trace);
      LostEarlier(text, st, st, [], Preorder(f.body), [LeavingSection] + Preorder(f.rest), inside, ask);
    } else {
      BodyEnds(text, st, f.body, f.rest, ask);
      RestLost(text, Past(st, f.body), f.rest, ask);
      LostEarlier(text, st, Past(st, f.body), Preorder(f.body), [LeavingSection] + Preorder(f.rest), [], inside, ask);
    }
  }

  lemma {:induction false} RestLost(text: string, st: State, rest: Forest, ask: Listener)
    requires Fresh(st) && Agreeable(ask) && !Plain(rest) && st.level > 0 && (st.level > 1 || Sections(rest))
    requires Has(text, st.pos, "}\n" + Print(rest))
    ensures Lost(text, st, [LeavingSection] + Preorder(rest), ask)
    decreases rest, 3
  {
    hide Loop, Has, Agreeable, Structure, Ending, Lost, Print, Plain;
    HasSplit(text, st.pos, "}\n", Print(rest));
    FooterParses(text, st, ask);
    var s1 := After(st, 2, 1, st.level - 1, [LeavingSection, RawLine]);
    ForestLost(text, s1, rest, ask);
    StructureOfFoot();
    ToldBy(st, s1, [LeavingSection, RawLine], [LeavingSection]);
    LostEarlier(text, st, s1, [LeavingSection], Preorder(rest), [], [LeavingSection] + Preorder(rest), ask);
  }

  lemma StructureOfHead(e: Event)
    requires !e.RawLine?
    ensures Structure([RawLine, e, RawLine]) == [e]
    ensures Structure([RawLine, e]) == [e]
  {
    StructurePush([], RawLine);
    StructurePush([RawLine], e);
    StructurePush([RawLine, e], RawLine);
    assert [] + [RawLine] == [RawLine] && [RawLine] + [e] == [RawLine, e]
           && [RawLine, e] + [RawLine] == [RawLine, e, RawLine];
  }

  lemma StructureOfFoot()
    ensures Structure([LeavingSection, RawLine]) == [LeavingSection]
  {
    StructurePush([], LeavingSection);
    StructurePush([LeavingSection], RawLine);
    assert [] + [LeavingSection] == [LeavingSection] && [LeavingSection] + [RawLine] == [LeavingSection, RawLine];
  }

  lemma StructurePast(st: State, f: Forest)
    ensures Structure(Past(st, f).trace) == Structure(st.trace) + Preorder(f)
  {
    hide Print, Lines;
    StructureOfTold(f);
    StructureAppends(st.trace, Told(f));
  }

  lemma PastFresh(st: State, f: Forest)
    requires Fresh(st)
    ensures var r := Past(st, f); Fresh(r) && r.level == st.level && r.pos == st.pos + |Print(f)|
  {}

  lemma HeaderSplit(f: Forest)
    requires f.Section?
    ensures Print(f) == (Quoted(f.name) + "\n") + ("{\n" + (Print(f.body) + ("}\n" + Print(f.rest))))
  {}

  /** The round trip, for every document: it comes back exactly when none of its strings ends
      in a backslash. */
  lemma RoundTripExactly(f: Forest, ask: Listener)
    requires Sections(f) && Agreeable(ask)
    ensures Plain(f) <==>
            Structure(Parse(Print(f), ask).1) == [ParseStart] + Preorder(f) + [ParseEnd(false, false)]
  {
    hide Agreeable, Print, Structure, Loop;
    if Plain(f) {
      RoundTrip(f, ask);
    } else {
      var text := Print(f);
      assert text[0..0 + |text|] == text;
      ForestLost(text, INITIAL, f, ask);
      StructurePush([], ParseStart);
      assert [] + [ParseStart] == [ParseStart];
      StructureNil();
      assert [ParseStart] + Preorder(f) <= [ParseStart] + Preorder(f) + [ParseEnd(false, false)];
    }
  }
}
