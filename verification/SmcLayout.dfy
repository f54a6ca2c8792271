/**
 Documents as people write them: with comments, blank lines and blanks between their parts, with
 names, keys and values quoted or not, and with braces on any line.

 What the layout of a document says is given here by what it is made of, apart from the parser. The
 parser tells of such a document what it holds, whatever its layout.
 */
module SmcLayout {
  import opened SmcTokens
  import opened SmcParser
  import opened SmcRoundTrip
  import opened SmcPairs

  // ----- what documents are made of

  const SPACES: string := [' ', '\t', '\r', 11 as char, 12 as char]
  const MARKS: string := ";/{}\""

  /** What may stand between the parts of a document. */
  datatype Piece = Space(c: char) | NewLine | LineComment(mark: string, body: string) | BlockComment(body: string)

  /** A string, with quotes or without. */
  datatype Word = Quote(chars: string) | Bare(chars: string)

  datatype Doc =
    | End
    | Entry(key: Word, between: seq<Piece>, value: Word, behind: seq<Piece>, rest: Doc)
    | Block(name: Word, before: seq<Piece>, inside: seq<Piece>, body: Doc, behind: seq<Piece>, rest: Doc)

  function WritePiece(p: Piece): string {
    match p
    case Space(c) => [c]
    case NewLine => "\n"
    case LineComment(mark, body) => mark + (body + "\n")
    case BlockComment(body) => "/*" + (body + "*/")
  }

  function WriteGap(gap: seq<Piece>): string {
    if gap == [] then "" else WritePiece(gap[0]) + WriteGap(gap[1..])
  }

  function WriteWord(w: Word): string {
    match w
    case Quote(s) => Quoted(s)
    case Bare(s) => s
  }

  function Write(d: Doc): string {
    match d
    case End => ""
    case Entry(key, between, value, behind, rest) =>
      WriteWord(key) + (WriteGap(between) + (WriteWord(value) + (WriteGap(behind) + Write(rest))))
    case Block(name, before, inside, body, behind, rest) =>
      WriteWord(name) + (WriteGap(before) + ("{" + (WriteGap(inside) +
        (Write(body) + ("}" + (WriteGap(behind) + Write(rest)))))))
  }

  /** What the document holds. */
  function Content(d: Doc): Forest {
    match d
    case End => Done
    case Entry(key, _, value, _, rest) => Pair(key.chars, value.chars, Content(rest))
    case Block(name, _, _, body, _, rest) => Section(name.chars, Content(body), Content(rest))
  }

  // ----- which of them are right

  /** A comment over lines ends where its end first stands, the star of its beginning counted. */
  predicate OpenEnded(body: string) {
    forall k :: 0 <= k < |body| && body[k] == '/' ==> k > 0 && body[k - 1] != '*'
  }

  predicate Sound(p: Piece) {
    match p
    case Space(c) => c in SPACES
    case NewLine => true
    case LineComment(mark, body) => (mark == ";" || mark == "//") && '\n' !in body
    case BlockComment(body) => OpenEnded(body)
  }

  predicate AllSound(gap: seq<Piece>) {
    forall i :: 0 <= i < |gap| ==> Sound(gap[i])
  }

  predicate Plainly(c: char) {
    c !in SPACES && c != '\n' && c !in MARKS
  }

  /** The character at `k` goes on with a string without quotes; blanks do in a value whose key has quotes. */
  predicate GoesOn(s: string, k: nat, spaces: bool)
    requires k < |s|
  {
    || Plainly(s[k])
    || (s[k] == '/' && k + 1 < |s| && s[k + 1] != '/' && s[k + 1] != '*')
    || (spaces && s[k] in SPACES)
  }

  predicate Right(w: Word, spaces: bool) {
    match w
    case Quote(s) => !EndsInBackslash(s)
    case Bare(s) => s != "" && Plainly(s[0]) && forall k :: 0 < k < |s| ==> GoesOn(s, k, spaces)
  }

  predicate Breaks(gap: seq<Piece>) {
    '\n' in WriteGap(gap)
  }

  /** The strings of a pair are kept apart if neither has quotes, the pair from what follows by the end of its line, and
      a value without quotes from blanks, which would be part of it. */
  predicate GoodEntry(key: Word, between: seq<Piece>, value: Word, behind: seq<Piece>) {
    && Right(key, false) && Right(value, key.Quote?) && AllSound(between) && AllSound(behind)
    && (key.Bare? && value.Bare? ==> between != [])
    && Breaks(behind) && (value.Bare? ==> behind != [] && !behind[0].Space?)
  }

  /** The parts of a document are right; a name without quotes is kept apart from its brace. Pairs stand in sections
      only. */
  predicate Well(d: Doc, top: bool) {
    match d
    case End => true
    case Entry(key, between, value, behind, rest) =>
      !top && GoodEntry(key, between, value, behind) && Well(rest, top)
    case Block(name, before, inside, body, behind, rest) =>
      && Right(name, false) && AllSound(before) && AllSound(inside) && AllSound(behind)
      && (name.Bare? ==> before != [])
      && Well(body, false) && Well(rest, top)
  }

  // ----- where the parser stands

  /** No quote and no comment is being read. */
  predicate Open(st: State) {
    st.status.Running? && !st.inQuote && !st.ignoring && !st.eolComment && !st.mlComment
  }

  /** The staged strings, the one being read ended here. */
  function Shut(st: State): Staging {
    if st.staged.first.ptr == NULL then st.staged
    else Staging(EMPTY, st.staged.first.(end := st.pos), st.staged.second)
  }

  predicate Shuts(st: State) {
    if st.staged.first.ptr == NULL then st.staged.first == EMPTY else st.staged.third == EMPTY
  }

  /** Reading from `st` comes to reading from `next`, `n` characters on, with `told` told beside raw lines. */
  ghost predicate Comes(text: string, st: State, next: State, n: nat, told: seq<Event>, ask: Listener) {
    && Loop(text, st, ask) == Loop(text, next, ask) && Open(next) && next.pos == st.pos + n
    && Structure(next.trace) == Structure(st.trace) + told
  }

  lemma ComesTwice(text: string, st: State, mid: State, next: State, n: nat, m: nat, told: seq<Event>,
                   more: seq<Event>, ask: Listener)
    requires Comes(text, st, mid, n, told, ask) && Comes(text, mid, next, m, more, ask)
    ensures Comes(text, st, next, n + m, told + more, ask)
    ensures told == [] ==> Comes(text, st, next, n + m, more, ask)
    ensures more == [] ==> Comes(text, st, next, n + m, told, ask)
  {
    hide Loop, Structure;
    assert told == [] ==> told + more == more;
    assert more == [] ==> told + more == told;
    assert Structure(st.trace) + told + more == Structure(st.trace) + (told + more);
  }

  lemma ComesHere(text: string, st: State, ask: Listener)
    requires Open(st)
    ensures Comes(text, st, st, 0, [], ask)
  {
    hide Loop, Structure;
  }

  /** What is left to tell at the end of the line: the pair, if there are two strings. */
  function Due(text: string, st: State): seq<Event> {
    if Shut(st).third.ptr == NULL then [] else [PairOf(text, Shut(st))]
  }

  // ----- single characters

  lemma StepEndsLine(text: string, st: State, ask: Listener)
    requires st.status.Running? && !st.inQuote && Shuts(st) && Agreeable(ask)
    requires st.pos < |text| && text[st.pos] == '\n' && (Shut(st).third.ptr != NULL ==> st.level > 0)
    ensures Step(text, st, ask) ==
            st.(pos := st.pos + 1, lineBegin := st.pos + 1, line := st.line + 1, col := 1,
                eolComment := false, ignoring := st.ignoring && st.mlComment,
                staged := if Shut(st).third.ptr != NULL then NOTHING_STAGED else Shut(st),
                trace := st.trace + [RawLine] + Due(text, st))
  {
    hide InComment, InQuote, OpenComment, AtBlank, AtSlash, AtOpenBrace, AtCloseBrace, AtPlain, AtQuote, PairOf,
         CloseFirst;
    assert Step(text, st, ask) == AtNewline(text, st, ask);
    hide Step;
    FirstIsShut(st);
    assert ask(st.trace + [RawLine]) == Continue;
    assert st.trace + [RawLine] + [] == st.trace + [RawLine];
    assert ask(st.trace + [RawLine] + [PairOf(text, Shut(st))]) == Continue;
  }

  lemma FirstIsShut(st: State)
    requires st.status.Running? && Shuts(st)
    ensures CloseFirst(st, InvalidTokens) == st.(staged := Shut(st))
  {}

  lemma StepSpace(text: string, st: State, ask: Listener)
    requires st.status.Running? && !st.ignoring && Shuts(st)
             && (st.staged.first.ptr != NULL ==> st.staged.second == EMPTY)
    requires st.pos < |text| && text[st.pos] in SPACES
    ensures Step(text, st, ask) == st.(pos := st.pos + 1, col := st.col + 1, staged := Shut(st))
  {
    hide InComment, InQuote, OpenComment, AtNewline, AtSlash, AtOpenBrace, AtCloseBrace, AtPlain, AtQuote;
    assert Step(text, st, ask) == AtBlank(st);
    hide Step;
  }

  lemma StepOpensLine(text: string, st: State, ask: Listener)
    requires st.status.Running? && !st.ignoring && Shuts(st) && st.pos < |text|
    requires text[st.pos] == ';' || (text[st.pos] == '/' && st.pos + 1 < |text| && text[st.pos + 1] == '/')
    ensures Step(text, st, ask) ==
            st.(pos := st.pos + 1, col := st.col + 1, ignoring := true, eolComment := true, staged := Shut(st))
  {
    hide InComment, InQuote, AtBlank, AtNewline, AtOpenBrace, AtCloseBrace, AtPlain, AtQuote;
  }

  lemma StepOpensBlock(text: string, st: State, ask: Listener)
    requires st.status.Running? && !st.ignoring && Shuts(st)
    requires st.pos + 1 < |text| && text[st.pos] == '/' && text[st.pos + 1] == '*'
    ensures Step(text, st, ask) ==
            st.(pos := st.pos + 1, col := st.col + 1, ignoring := true, mlComment := true, staged := Shut(st))
  {
    hide InComment, InQuote, AtBlank, AtNewline, AtOpenBrace, AtCloseBrace, AtPlain, AtQuote;
  }

  /** Inside a comment a character says nothing, unless it ends the line or, with the next, the comment. */
  lemma StepIgnores(text: string, st: State, ask: Listener)
    requires st.status.Running? && st.ignoring && !st.inQuote && st.pos < |text| && text[st.pos] != '\n'
    requires st.mlComment && text[st.pos] == '*' ==> st.pos + 1 < |text| && text[st.pos + 1] != '/'
    ensures Step(text, st, ask) == st.(pos := st.pos + 1, col := st.col + 1)
  {
    hide AtSlash, InQuote, AtBlank, AtNewline, AtOpenBrace, AtCloseBrace, AtPlain, AtQuote, OpenComment;
  }

  lemma StepEndsBlock(text: string, st: State, ask: Listener)
    requires st.status.Running? && st.ignoring && !st.inQuote && st.mlComment
    requires st.pos + 1 < |text| && text[st.pos] == '*' && text[st.pos + 1] == '/'
    ensures Step(text, st, ask) == st.(pos := st.pos + 2, col := st.col + 2, ignoring := false, mlComment := false)
  {
    hide AtSlash, InQuote, AtBlank, AtNewline, AtOpenBrace, AtCloseBrace, AtPlain, AtQuote, OpenComment;
  }

  lemma StepBegins(text: string, st: State, ask: Listener)
    requires st.status.Running? && !st.ignoring && st.staged.first == EMPTY
    requires st.pos < |text| && Plainly(text[st.pos])
    ensures Step(text, st, ask) ==
            st.(pos := st.pos + 1, col := st.col + 1, staged := st.staged.(first := EMPTY.(ptr := st.pos)))
  {
    hide AtNewline, InComment, InQuote, OpenComment, AtBlank, AtSlash, AtOpenBrace, AtCloseBrace, AtQuote;
    assert Unmarked(text[st.pos]);
    assert Step(text, st, ask) == AtPlain(st);
    hide Step;
  }

  lemma StepGoesOn(text: string, st: State, s: string, k: nat, ask: Listener)
    requires st.status.Running? && !st.ignoring && st.staged.first.ptr != NULL
    requires k < |s| && Has(text, st.pos, s[k..])
    requires GoesOn(s, k, st.staged.second.ptr != NULL && st.staged.second.quoted)
    ensures Step(text, st, ask) == st.(pos := st.pos + 1, col := st.col + 1)
  {
    HasAt(text, st.pos, s[k..], 0);
    if k + 1 < |s| { HasAt(text, st.pos, s[k..], 1); }
    hide AtNewline, InComment, InQuote, OpenComment, AtOpenBrace, AtCloseBrace, AtQuote;
    if Plainly(text[st.pos]) { assert Unmarked(text[st.pos]); }
  }

  lemma StepLeaves(text: string, st: State, ask: Listener)
    requires Open(st) && st.staged == NOTHING_STAGED && Agreeable(ask) && st.level > 0
    requires st.pos < |text| && text[st.pos] == '}'
    ensures Step(text, st, ask) ==
            st.(pos := st.pos + 1, col := st.col + 1, level := st.level - 1, trace := st.trace + [LeavingSection])
  {
    hide AtNewline, InComment, InQuote, OpenComment, AtBlank, AtSlash, AtOpenBrace, AtPlain, AtQuote, TokenText;
    assert Step(text, st, ask) == AtCloseBrace(text, st, ask);
    hide Step;
    assert ask(st.trace + [LeavingSection]) == Continue;
  }

  // ----- comments

  lemma {:induction false} LineInside(text: string, st: State, body: string, ask: Listener)
    requires st.status.Running? && st.ignoring && !st.inQuote && !st.mlComment
    requires Has(text, st.pos, body) && '\n' !in body
    ensures Loop(text, st, ask) == Loop(text, st.(pos := st.pos + |body|, col := st.col + |body|), ask)
    decreases |body|
  {
    hide Loop, Step;
    if body != "" {
      HasAt(text, st.pos, body, 0);
      StepIgnores(text, st, ask);
      var next := Step(text, st, ask);
      Unroll(text, st, next, ask);
      assert body == body[..1] + body[1..];
      HasSplit(text, st.pos, body[..1], body[1..]);
      LineInside(text, next, body[1..], ask);
    }
  }

  /** A comment to the end of a line does what the line's end alone would do. */
  lemma LineCommentParses(text: string, st: State, mark: string, body: string, ask: Listener)
    requires Open(st) && Shuts(st) && Agreeable(ask) && Sound(LineComment(mark, body))
    requires Has(text, st.pos, WritePiece(LineComment(mark, body))) && (Shut(st).third.ptr != NULL ==> st.level > 0)
    ensures var n := |WritePiece(LineComment(mark, body))|;
            Loop(text, st, ask) ==
            Loop(text, st.(pos := st.pos + n, lineBegin := st.pos + n, line := st.line + 1, col := 1,
                           staged := if Shut(st).third.ptr != NULL then NOTHING_STAGED else Shut(st),
                           trace := st.trace + [RawLine] + Due(text, st)), ask)
  {
    hide Loop, Step, Has, Due, Agreeable;
    var s1 := st.(pos := st.pos + |mark|, col := st.col + |mark|, ignoring := true, eolComment := true,
                  staged := Shut(st));
    var s2 := s1.(pos := s1.pos + |body|, col := s1.col + |body|);
    CommentReads(text, st, mark, body, ask);
    StepEndsLine(text, s2, ask);
    Unroll(text, s2, Step(text, s2, ask), ask);
    DueAlike(text, st, s2);
  }

  /** Such a comment up to the end of its line. */
  lemma CommentReads(text: string, st: State, mark: string, body: string, ask: Listener)
    requires Open(st) && Shuts(st) && Sound(LineComment(mark, body))
    requires Has(text, st.pos, mark + (body + "\n"))
    ensures var n := |mark| + |body|;
            && st.pos + n < |text| && text[st.pos + n] == '\n'
            && Loop(text, st, ask) ==
               Loop(text, st.(pos := st.pos + n, col := st.col + n, ignoring := true, eolComment := true,
                              staged := Shut(st)), ask)
  {
    hide Loop, Has;
    HasSplit(text, st.pos, mark, body + "\n");
    HasSplit(text, st.pos + |mark|, body, "\n");
    MarkParses(text, st, mark, ask);
    var s1 := st.(pos := st.pos + |mark|, col := st.col + |mark|, ignoring := true, eolComment := true,
                  staged := Shut(st));
    LineInside(text, s1, body, ask);
    HasAt(text, st.pos + |mark| + |body|, "\n", 0);
  }

  lemma DueAlike(text: string, st: State, later: State)
    requires Shut(later) == Shut(st)
    ensures Due(text, later) == Due(text, st)
  {
    hide PairOf;
  }

  lemma MarkParses(text: string, st: State, mark: string, ask: Listener)
    requires Open(st) && Shuts(st) && (mark == ";" || mark == "//") && Has(text, st.pos, mark)
    ensures var n := |mark|;
            Loop(text, st, ask) ==
            Loop(text, st.(pos := st.pos + n, col := st.col + n, ignoring := true, eolComment := true,
                           staged := Shut(st)), ask)
  {
    hide Loop, Step, Has;
    HasAt(text, st.pos, mark, 0);
    if mark == "//" { HasAt(text, st.pos, mark, 1); }
    StepOpensLine(text, st, ask);
    var next := Step(text, st, ask);
    Unroll(text, st, next, ask);
    assert mark == mark[..1] + mark[1..];
    HasSplit(text, st.pos, mark[..1], mark[1..]);
    LineInside(text, next, mark[1..], ask);
  }

  /** From between lines, such a comment is a raw line and nothing else. */
  lemma LineCommentIsALine(text: string, st: State, mark: string, body: string, ask: Listener)
    requires Fresh(st) && Agreeable(ask) && (mark == ";" || mark == "//") && '\n' !in body
    requires Has(text, st.pos, mark + (body + "\n"))
    ensures var next := After(st, |mark| + |body| + 1, 1, st.level, [RawLine]);
            Loop(text, st, ask) == Loop(text, next, ask) && Fresh(next)
  {
    hide Loop, Structure, Has, Agreeable, PairOf;
    LineCommentParses(text, st, mark, body, ask);
    assert WritePiece(LineComment(mark, body)) == mark + (body + "\n");
    assert st.trace + [RawLine] + [] == st.trace + [RawLine];
  }

  /** How a comment over lines goes on: its lines are told of, and a pair before it at the first of them. */
  lemma {:induction false} BlockInside(text: string, st: State, body: string, k: nat, ask: Listener)
    returns (next: State)
    requires st.status.Running? && st.ignoring && st.mlComment && !st.inQuote && st.staged.first == EMPTY
    requires Agreeable(ask) && k <= |body| && OpenEnded(body) && Has(text, st.pos, body[k..] + "*/")
    requires st.staged.third.ptr != NULL ==> st.level > 0
    ensures Loop(text, st, ask) == Loop(text, next, ask)
    ensures next.status == Running && next.ignoring && next.mlComment && !next.inQuote && next.level == st.level
    ensures next.eolComment ==> st.eolComment
    ensures next.pos == st.pos + |body| - k
    ensures next.staged == if '\n' in body[k..] && st.staged.third.ptr != NULL then NOTHING_STAGED else st.staged
    ensures Structure(next.trace) == Structure(st.trace) + if '\n' in body[k..] then Due(text, st) else []
    decreases |body| - k
  {
    hide Loop, Step, Structure, PairOf, Has;
    if k == |body| {
      next := st;
    } else {
      var rest := body[k + 1..];
      assert body[k..] + "*/" == [body[k]] + (rest + "*/");
      HasSplit(text, st.pos, [body[k]], rest + "*/");
      HasAt(text, st.pos, [body[k]], 0);
      HasAt(text, st.pos + 1, rest + "*/", 0);
      assert body[k..] == [body[k]] + rest;
      var mid := Step(text, st, ask);
      if body[k] == '\n' {
        StepEndsLine(text, st, ask);
        StructurePush(st.trace, RawLine);
        if st.staged.third.ptr != NULL { StructurePush(st.trace + [RawLine], PairOf(text, st.staged)); }
        assert st.trace + [RawLine] + [] == st.trace + [RawLine];
      } else {
        assert rest != "" ==> (rest + "*/")[0] == body[k + 1];
        StepIgnores(text, st, ask);
      }
      Unroll(text, st, mid, ask);
      next := BlockInside(text, mid, body, k + 1, ask);
    }
  }

  /** Where a comment over lines begins: its two characters. */
  lemma BlockOpens(text: string, st: State, body: string, ask: Listener) returns (next: State)
    requires Open(st) && Shuts(st) && OpenEnded(body) && Has(text, st.pos, "/*" + (body + "*/"))
    ensures next == st.(pos := st.pos + 2, col := st.col + 2, ignoring := true, mlComment := true, staged := Shut(st))
    ensures Loop(text, st, ask) == Loop(text, next, ask) && Has(text, next.pos, body + "*/")
  {
    hide Loop, Step, Has, OpenEnded;
    HasSplit(text, st.pos, "/*", body + "*/");
    HasAt(text, st.pos, "/*", 0);
    HasAt(text, st.pos, "/*", 1);
    StepOpensBlock(text, st, ask);
    var mid := Step(text, st, ask);
    Unroll(text, st, mid, ask);
    HasAt(text, st.pos + 2, body + "*/", 0);
    FirstIsNoSlash(body);
    StepIgnores(text, mid, ask);
    next := Step(text, mid, ask);
    Unroll(text, mid, next, ask);
  }

  lemma BlockCloses(text: string, st: State, ask: Listener) returns (next: State)
    requires st.status.Running? && st.ignoring && !st.inQuote && st.mlComment && Has(text, st.pos, "*/")
    ensures next == st.(pos := st.pos + 2, col := st.col + 2, ignoring := false, mlComment := false)
    ensures Loop(text, st, ask) == Loop(text, next, ask)
  {
    hide Loop, Step, Has;
    HasAt(text, st.pos, "*/", 0);
    HasAt(text, st.pos, "*/", 1);
    StepEndsBlock(text, st, ask);
    next := Step(text, st, ask);
    Unroll(text, st, next, ask);
  }

  /** A comment over lines, wherever it stands. */
  lemma BlockCommentParses(text: string, st: State, body: string, ask: Listener) returns (next: State)
    requires Open(st) && Shuts(st) && Agreeable(ask) && OpenEnded(body)
    requires Has(text, st.pos, WritePiece(BlockComment(body))) && (Shut(st).third.ptr != NULL ==> st.level > 0)
    ensures Comes(text, st, next, |body| + 4, if '\n' in body then Due(text, st) else [], ask)
    ensures next.level == st.level
    ensures next.staged == if '\n' in body && Shut(st).third.ptr != NULL then NOTHING_STAGED else Shut(st)
  {
    hide Loop, Structure, Has, PairOf, OpenEnded, Agreeable;
    var s1 := BlockOpens(text, st, body, ask);
    assert body[0..] == body;
    var s2 := BlockInside(text, s1, body, 0, ask);
    HasSplit(text, s1.pos, body, "*/");
    next := BlockCloses(text, s2, ask);
    assert Shut(s1) == Shut(st);
  }

  lemma FirstIsNoSlash(body: string)
    requires OpenEnded(body)
    ensures (body + "*/")[0] != '/'
  {}

  /** A comment over lines that begins between lines leaves the parser open behind its end, at the same depth,
      with nothing told but raw lines. */
  lemma BlockCommentIsSilent(text: string, st: State, body: string, ask: Listener) returns (next: State)
    requires Fresh(st) && Agreeable(ask) && OpenEnded(body) && Has(text, st.pos, "/*" + (body + "*/"))
    ensures Loop(text, st, ask) == Loop(text, next, ask)
    ensures Open(next) && next.pos == st.pos + |body| + 4 && next.staged == NOTHING_STAGED && next.level == st.level
    ensures Structure(next.trace) == Structure(st.trace)
  {
    hide Loop, Structure, Has;
    next := BlockCommentParses(text, st, body, ask);
    assert Structure(st.trace) + [] == Structure(st.trace);
  }

  /** The star of the beginning counts: three characters are a whole comment. */
  lemma StarIsShared(text: string, st: State, ask: Listener)
    requires Open(st) && Shuts(st) && Has(text, st.pos, "/*/")
    ensures Loop(text, st, ask) == Loop(text, st.(pos := st.pos + 3, col := st.col + 3, staged := Shut(st)), ask)
  {
    hide Loop, Step, Has;
    HasAt(text, st.pos, "/*/", 0);
    HasAt(text, st.pos, "/*/", 1);
    HasAt(text, st.pos, "/*/", 2);
    StepOpensBlock(text, st, ask);
    var s1 := Step(text, st, ask);
    Unroll(text, st, s1, ask);
    StepEndsBlock(text, s1, ask);
    Unroll(text, s1, Step(text, s1, ask), ask);
  }

  // ----- what stands between the parts

  /** The piece can stand where the parser is. */
  predicate Takes(st: State, p: Piece) {
    && Open(st) && Shuts(st) && (Shut(st).third.ptr != NULL ==> st.level > 0)
    && (p.Space? && st.staged.first.ptr != NULL ==> st.staged.second == EMPTY)
  }

  lemma PieceParses(text: string, st: State, p: Piece, ask: Listener) returns (next: State)
    requires Takes(st, p) && Agreeable(ask) && Sound(p) && Has(text, st.pos, WritePiece(p))
    ensures var ends := '\n' in WritePiece(p);
            && Comes(text, st, next, |WritePiece(p)|, if ends then Due(text, st) else [], ask)
            && next.level == st.level
            && next.staged == if ends && Shut(st).third.ptr != NULL then NOTHING_STAGED else Shut(st)
  {
    hide Loop, Step, Structure, Has, PairOf;
    match p
    case Space(c) =>
      HasAt(text, st.pos, WritePiece(p), 0);
      StepSpace(text, st, ask);
      next := Step(text, st, ask);
      Unroll(text, st, next, ask);
    case NewLine =>
      HasAt(text, st.pos, WritePiece(p), 0);
      StepEndsLine(text, st, ask);
      next := Step(text, st, ask);
      Unroll(text, st, next, ask);
      LineTold(text, st);
    case LineComment(mark, body) =>
      LineCommentParses(text, st, mark, body, ask);
      var n := |WritePiece(p)|;
      next := st.(pos := st.pos + n, lineBegin := st.pos + n, line := st.line + 1, col := 1,
                  staged := if Shut(st).third.ptr != NULL then NOTHING_STAGED else Shut(st),
                  trace := st.trace + [RawLine] + Due(text, st));
      LineTold(text, st);
      assert (mark + (body + "\n"))[n - 1] == '\n';
    case BlockComment(body) =>
      next := BlockCommentParses(text, st, body, ask);
      BlockBreaks(body);
  }

  lemma LineTold(text: string, st: State)
    ensures Structure(st.trace + [RawLine] + Due(text, st)) == Structure(st.trace) + Due(text, st)
  {
    hide Structure, PairOf;
    StructurePush(st.trace, RawLine);
    if Shut(st).third.ptr != NULL {
      StructurePush(st.trace + [RawLine], PairOf(text, Shut(st)));
    } else {
      assert st.trace + [RawLine] + [] == st.trace + [RawLine];
    }
  }

  lemma BlockBreaks(body: string)
    ensures '\n' in WritePiece(BlockComment(body)) <==> '\n' in body
  {
    var s := "/*" + (body + "*/");
    assert s == ['/', '*'] + body + ['*', '/'];
  }

  /** Nothing between the parts is told of but raw lines; the first line's end tells of a pair before it. */
  lemma {:induction false} GapParses(text: string, st: State, gap: seq<Piece>, ask: Listener) returns (next: State)
    requires gap == [] || Takes(st, gap[0])
    requires Open(st) && AllSound(gap) && Agreeable(ask) && Has(text, st.pos, WriteGap(gap))
    ensures Comes(text, st, next, |WriteGap(gap)|, if Breaks(gap) then Due(text, st) else [], ask)
    ensures next.level == st.level
    ensures next.staged == if gap == [] then st.staged
                           else if Breaks(gap) && Shut(st).third.ptr != NULL then NOTHING_STAGED
                           else Shut(st)
    decreases |gap|
  {
    hide Loop, Structure, Has, PairOf, Sound, WritePiece;
    if gap == [] {
      next := st;
      ComesHere(text, st, ask);
    } else {
      var first, rest := WritePiece(gap[0]), WriteGap(gap[1..]);
      HasSplit(text, st.pos, first, rest);
      assert forall c :: c in WriteGap(gap) <==> c in first || c in rest;
      var mid := PieceParses(text, st, gap[0], ask);
      next := GapParses(text, mid, gap[1..], ask);
      var a, b := if '\n' in first then Due(text, st) else [], if Breaks(gap[1..]) then Due(text, mid) else [];
      ComesTwice(text, st, mid, next, |first|, |rest|, a, b, ask);
      assert a + b == if Breaks(gap) then Due(text, st) else [];
    }
  }

  // ----- strings

  /** The token of a string, once it is ended. */
  function WordToken(pos: nat, w: Word): Token {
    match w
    case Quote(s) => QuotedToken(pos, s)
    case Bare(s) => Token(pos, pos + |s|, false, false)
  }

  lemma WordTokenAt(pos: nat, w: Word)
    requires Right(w, true) || Right(w, false)
    ensures var t := WordToken(pos, w);
            t.ptr == pos && pos < t.end <= pos + |WriteWord(w)| && (t.quoted <==> w.Quote?)
  {}

  /** Reading on in a string without quotes. */
  lemma {:induction false} BareOn(text: string, st: State, s: string, k: nat, spaces: bool, ask: Listener)
    requires Open(st) && st.staged.first.ptr != NULL
    requires spaces ==> st.staged.second.ptr != NULL && st.staged.second.quoted
    requires k <= |s| && Has(text, st.pos, s[k..]) && forall i :: k <= i < |s| ==> GoesOn(s, i, spaces)
    ensures Loop(text, st, ask) == Loop(text, st.(pos := st.pos + |s| - k, col := st.col + |s| - k), ask)
    decreases |s| - k
  {
    hide Loop, Step, Has, GoesOn;
    if k < |s| {
      GoesOnMore(s, k, spaces, st.staged.second.ptr != NULL && st.staged.second.quoted);
      StepGoesOn(text, st, s, k, ask);
      HasAt(text, st.pos, s[k..], 0);
      var next := Step(text, st, ask);
      Unroll(text, st, next, ask);
      assert s[k..] == [s[k]] + s[k + 1..];
      HasSplit(text, st.pos, [s[k]], s[k + 1..]);
      BareOn(text, next, s, k + 1, spaces, ask);
    }
  }

  lemma GoesOnMore(s: string, k: nat, spaces: bool, more: bool)
    requires k < |s| && GoesOn(s, k, spaces) && (spaces ==> more)
    ensures GoesOn(s, k, more)
  {}

  /** A string, without quotes or with them, is read as one token. One with quotes may stand right behind one
      without. */
  lemma WordParses(text: string, st: State, w: Word, spaces: bool, ask: Listener) returns (next: State)
    requires Open(st) && Shuts(st) && Right(w, spaces) && Has(text, st.pos, WriteWord(w))
    requires st.staged.third == EMPTY && (st.staged.first.ptr != NULL ==> w.Quote? && st.staged.second == EMPTY)
    requires spaces ==> st.staged.second.ptr != NULL && st.staged.second.quoted
    ensures Comes(text, st, next, |WriteWord(w)|, [], ask)
    ensures next.level == st.level && Shuts(next) && (next.staged.first.ptr != NULL <==> w.Bare?)
    ensures Shut(next) == Staging(EMPTY, WordToken(st.pos, w), Shut(st).second)
    ensures w.Quote? ==> next.staged == Shut(next)
    ensures w.Bare? ==> next.staged.second == st.staged.second
  {
    hide Loop, Step, Has, Structure, Quoted, QuotedToken, GoesOn;
    assert Structure(st.trace) + [] == Structure(st.trace);
    match w
    case Quote(s) =>
      if st.staged.first.ptr == NULL {
        QuotedString(text, st, s, ask);
      } else {
        QuotedBehind(text, st, s, ask);
      }
      next := st.(pos := st.pos + |Quoted(s)|, col := st.col + |Quoted(s)|,
                  staged := Staging(EMPTY, QuotedToken(st.pos, s), Shut(st).second));
    case Bare(s) =>
      HasAt(text, st.pos, s, 0);
      StepBegins(text, st, ask);
      var mid := Step(text, st, ask);
      Unroll(text, st, mid, ask);
      assert s == s[..1] + s[1..];
      HasSplit(text, st.pos, s[..1], s[1..]);
      BareOn(text, mid, s, 1, spaces, ask);
      next := st.(pos := st.pos + |s|, col := st.col + |s|, staged := mid.staged);
  }

  lemma QuotedBehind(text: string, st: State, s: string, ask: Listener)
    requires Open(st) && st.staged.first.ptr != NULL && st.staged.second == EMPTY && st.staged.third == EMPTY
    requires Has(text, st.pos, Quoted(s)) && !EndsInBackslash(s)
    ensures Loop(text, st, ask) ==
            Loop(text, st.(pos := st.pos + |Quoted(s)|, col := st.col + |Quoted(s)|,
                           staged := Staging(EMPTY, QuotedToken(st.pos, s), Shut(st).second)), ask)
  {
    hide Loop, Step, Escape, Has, Quotable;
    QuotedShape(text, st.pos, s);
    var n := |Escape(s)|;
    StepQuoteBehind(text, st, ask);
    var s1 := Step(text, st, ask);
    Unroll(text, st, s1, ask);
    QuotedInside(text, s1, n, ask);
    var special := '\\' in text[st.pos + 1..st.pos + 1 + n];
    var s2 := s1.(pos := s1.pos + n, col := s1.col + n,
                  staged := s1.staged.(first := s1.staged.first.(special := special)));
    StepCloses(text, s2, ask);
    Unroll(text, s2, Step(text, s2, ask), ask);
  }

  /** The listener gets the string as it is meant. */
  lemma WordText(text: string, pos: nat, w: Word, spaces: bool)
    requires Right(w, spaces) && Has(text, pos, WriteWord(w))
    ensures TokenText(text, WordToken(pos, w)) == Text(w.chars)
  {
    hide Quoted, QuotedToken, GoesOn;
    match w
    case Quote(s) => QuotedTokenText(text, pos, s);
    case Bare(s) =>
  }

  // ----- pairs and sections

  /** A pair, with what stands between its strings and behind them. */
  function EntryText(key: Word, between: seq<Piece>, value: Word, behind: seq<Piece>): string {
    WriteWord(key) + (WriteGap(between) + (WriteWord(value) + WriteGap(behind)))
  }

  /** A key and what stands behind it: it is the one string that is staged. */
  lemma FirstParses(text: string, st: State, w: Word, gap: seq<Piece>, ask: Listener) returns (next: State)
    requires Open(st) && st.staged == NOTHING_STAGED && Agreeable(ask) && Right(w, false) && AllSound(gap)
    requires Has(text, st.pos, WriteWord(w) + WriteGap(gap))
    ensures Comes(text, st, next, |WriteWord(w)| + |WriteGap(gap)|, [], ask)
    ensures next.level == st.level && Shuts(next) && Shut(next) == Staging(EMPTY, WordToken(st.pos, w), EMPTY)
    ensures gap != [] || w.Quote? ==> next.staged == Shut(next)
    ensures TokenText(text, WordToken(st.pos, w)) == Text(w.chars)
  {
    hide Loop, Has, Structure, WordToken, Right, AllSound, TokenText, PairOf, WriteWord, Breaks, Agreeable, Sound;
    HasSplit(text, st.pos, WriteWord(w), WriteGap(gap));
    var mid := WordParses(text, st, w, false, ask);
    WordText(text, st.pos, w, false);
    WordTokenAt(st.pos, w);
    next := GapParses(text, mid, gap, ask);
    assert Due(text, mid) == [];
    ComesTwice(text, st, mid, next, |WriteWord(w)|, |WriteGap(gap)|, [], [], ask);
  }

  lemma GapHasLength(gap: seq<Piece>)
    requires AllSound(gap) && gap != []
    ensures WriteGap(gap) != ""
  {}

  /** The value is whole: it does not begin where its key is ended. */
  lemma ValueIsWhole(text: string, key: Word, from: nat, value: Word, at: nat)
    requires Right(key, false) && (Right(value, false) || Right(value, true)) && from + |WriteWord(key)| <= at
    requires key.Bare? && value.Bare? ==> from + |WriteWord(key)| < at
    ensures ValueText(text, WordToken(from, key), WordToken(at, value)) == TokenText(text, WordToken(at, value))
  {
    hide TokenText, GoesOn;
    WordTokenAt(from, key);
    WordTokenAt(at, value);
    if key.Quote? { TokenAt(from, key.chars); }
    hide QuotedToken, Quoted;
  }

  /** Both strings of a pair are staged, and due to be told of. */
  lemma StringsParse(text: string, st: State, key: Word, between: seq<Piece>, value: Word, ask: Listener)
    returns (next: State)
    requires Open(st) && st.staged == NOTHING_STAGED && Agreeable(ask)
    requires Right(key, false) && Right(value, key.Quote?) && AllSound(between)
    requires key.Bare? && value.Bare? ==> between != []
    requires Has(text, st.pos, (WriteWord(key) + WriteGap(between)) + WriteWord(value))
    ensures Comes(text, st, next, |WriteWord(key) + WriteGap(between) + WriteWord(value)|, [], ask)
    ensures next.level == st.level && Shuts(next) && (next.staged.first.ptr != NULL ==> value.Bare?)
    ensures Shut(next).third.ptr != NULL && Due(text, next) == [KeyValue(Text(key.chars), Text(value.chars))]
  {
    hide Loop, Has, Structure, WordToken, Right, AllSound, TokenText, ValueText;
    var front, v := WriteWord(key) + WriteGap(between), WriteWord(value);
    HasSplit(text, st.pos, front, v);
    RightMeans(key, false);
    RightMeans(value, key.Quote?);
    WordTokenAt(st.pos, key);
    var mid := FirstParses(text, st, key, between, ask);
    WordTokenAt(mid.pos, value);
    next := WordParses(text, mid, value, key.Quote?, ask);
    WordText(text, mid.pos, value, key.Quote?);
    if between != [] { GapHasLength(between); }
    ValueIsWhole(text, key, st.pos, value, mid.pos);
    ComesTwice(text, st, mid, next, |front|, |v|, [], [], ask);
  }

  lemma EntryParses(text: string, st: State, key: Word, between: seq<Piece>, value: Word, behind: seq<Piece>,
                    ask: Listener) returns (next: State)
    requires Open(st) && st.staged == NOTHING_STAGED && st.level > 0 && Agreeable(ask)
    requires GoodEntry(key, between, value, behind) && Has(text, st.pos, EntryText(key, between, value, behind))
    ensures Comes(text, st, next, |EntryText(key, between, value, behind)|,
                  [KeyValue(Text(key.chars), Text(value.chars))], ask)
    ensures next.level == st.level && next.staged == NOTHING_STAGED
  {
    hide Loop, Has, Structure, Right, AllSound, Breaks, Due, WriteWord, WriteGap;
    var strings := (WriteWord(key) + WriteGap(between)) + WriteWord(value);
    assert EntryText(key, between, value, behind) == strings + WriteGap(behind);
    HasSplit(text, st.pos, strings, WriteGap(behind));
    var mid := StringsParse(text, st, key, between, value, ask);
    NotEmptyBreaks(behind);
    next := GapParses(text, mid, behind, ask);
    ComesTwice(text, st, mid, next, |strings|, |WriteGap(behind)|, [], Due(text, mid), ask);
  }

  lemma NotEmptyBreaks(gap: seq<Piece>)
    requires Breaks(gap)
    ensures gap != []
  {}

  lemma RightMeans(w: Word, spaces: bool)
    requires Right(w, spaces)
    ensures Right(w, true) || Right(w, false)
  {}

  /** A section's name and its opening brace, with what stands before and behind that. */
  function HeadText(name: Word, before: seq<Piece>, inside: seq<Piece>): string {
    (WriteWord(name) + WriteGap(before)) + ("{" + WriteGap(inside))
  }

  lemma HeadParses(text: string, st: State, name: Word, before: seq<Piece>, inside: seq<Piece>, ask: Listener)
    returns (next: State)
    requires Open(st) && st.staged == NOTHING_STAGED && Agreeable(ask)
    requires Right(name, false) && AllSound(before) && AllSound(inside) && (name.Bare? ==> before != [])
    requires Has(text, st.pos, HeadText(name, before, inside))
    ensures Comes(text, st, next, |HeadText(name, before, inside)|, [NewSection(Text(name.chars))], ask)
    ensures next.level == st.level + 1 && next.staged == NOTHING_STAGED
  {
    hide Loop, Step, Has, Structure, WordToken, Right, AllSound, TokenText, PairOf, WriteWord, WriteGap, Breaks,
         Agreeable, Sound;
    var front := WriteWord(name) + WriteGap(before);
    HasSplit(text, st.pos, front, "{" + WriteGap(inside));
    HasSplit(text, st.pos + |front|, "{", WriteGap(inside));
    WordTokenAt(st.pos, name);
    var s1 := FirstParses(text, st, name, before, ask);
    HasAt(text, s1.pos, "{", 0);
    StepOpenBrace(text, s1, ask);
    var s2 := Step(text, s1, ask);
    Unroll(text, s1, s2, ask);
    var told := [NewSection(Text(name.chars))];
    StructurePush(s1.trace, told[0]);
    assert Comes(text, s1, s2, 1, told, ask);
    next := GapParses(text, s2, inside, ask);
    ComesTwice(text, st, s1, s2, |front|, 1, [], told, ask);
    ComesTwice(text, st, s2, next, |front| + 1, |WriteGap(inside)|, told, [], ask);
  }

  lemma FootParses(text: string, st: State, behind: seq<Piece>, ask: Listener) returns (next: State)
    requires Open(st) && st.staged == NOTHING_STAGED && Agreeable(ask) && st.level > 0 && AllSound(behind)
    requires Has(text, st.pos, "}" + WriteGap(behind))
    ensures Comes(text, st, next, 1 + |WriteGap(behind)|, [LeavingSection], ask)
    ensures next.level == st.level - 1 && next.staged == NOTHING_STAGED
  {
    hide Loop, Step, Has, Structure, AllSound;
    HasSplit(text, st.pos, "}", WriteGap(behind));
    HasAt(text, st.pos, "}", 0);
    StepLeaves(text, st, ask);
    var mid := Step(text, st, ask);
    Unroll(text, st, mid, ask);
    StructurePush(st.trace, LeavingSection);
    assert Comes(text, st, mid, 1, [LeavingSection], ask);
    next := GapParses(text, mid, behind, ask);
    ComesTwice(text, st, mid, next, 1, |WriteGap(behind)|, [LeavingSection], [], ask);
  }

  // ----- documents

  lemma WriteEntry(d: Doc)
    requires d.Entry?
    ensures Write(d) == EntryText(d.key, d.between, d.value, d.behind) + Write(d.rest)
  {
    hide Write, WriteGap, WriteWord;
    assert Write(d) == WriteWord(d.key)
           + (WriteGap(d.between) + (WriteWord(d.value) + (WriteGap(d.behind) + Write(d.rest))))
      by { WriteEntryIs(d); }
  }

  lemma WriteEntryIs(d: Doc)
    requires d.Entry?
    ensures Write(d) ==
            WriteWord(d.key) + (WriteGap(d.between) + (WriteWord(d.value) + (WriteGap(d.behind) + Write(d.rest))))
  {}

  lemma WriteBlock(d: Doc)
    requires d.Block?
    ensures Write(d) ==
            HeadText(d.name, d.before, d.inside) + (Write(d.body) + (("}" + WriteGap(d.behind)) + Write(d.rest)))
  {
    WriteBlockIs(d);
    hide Write, WriteGap, WriteWord;
    AnyGrouping("}", WriteGap(d.behind), Write(d.rest));
    var tail := Write(d.body) + (("}" + WriteGap(d.behind)) + Write(d.rest));
    AnyGrouping("{", WriteGap(d.inside), tail);
    AnyGrouping(WriteWord(d.name), WriteGap(d.before), ("{" + WriteGap(d.inside)) + tail);
    AnyGrouping(WriteWord(d.name) + WriteGap(d.before), "{" + WriteGap(d.inside), tail);
  }

  lemma AnyGrouping(a: string, b: string, c: string)
    ensures a + (b + c) == (a + b) + c
  {}

  lemma WriteBlockIs(d: Doc)
    requires d.Block?
    ensures Write(d) ==
            WriteWord(d.name) + (WriteGap(d.before) + ("{" + (WriteGap(d.inside) +
              (Write(d.body) + ("}" + (WriteGap(d.behind) + Write(d.rest)))))))
  {}

  lemma WellMeans(d: Doc, top: bool)
    requires Well(d, top)
    ensures d.Entry? ==> !top && GoodEntry(d.key, d.between, d.value, d.behind) && Well(d.rest, top)
    ensures d.Block? ==>
              && Right(d.name, false) && AllSound(d.before) && AllSound(d.inside) && AllSound(d.behind)
              && (d.name.Bare? ==> d.before != []) && Well(d.body, false) && Well(d.rest, top)
  {
    hide Right, AllSound, Breaks;
  }

  lemma ContentMeans(d: Doc)
    ensures Preorder(Content(d)) ==
            match d
            case End => []
            case Entry(key, _, value, _, rest) => [KeyValue(Text(key.chars), Text(value.chars))]
              + Preorder(Content(rest))
            case Block(name, _, _, body, _, rest) =>
              [NewSection(Text(name.chars))] + Preorder(Content(body)) + [LeavingSection] + Preorder(Content(rest))
  {}

  /** Reading a document tells of what it holds, in order, and leaves the parser open behind it. */
  lemma {:induction false} DocParses(text: string, st: State, d: Doc, ask: Listener) returns (next: State)
    requires Open(st) && st.staged == NOTHING_STAGED && Agreeable(ask) && Well(d, st.level == 0)
    requires Has(text, st.pos, Write(d))
    ensures Comes(text, st, next, |Write(d)|, Preorder(Content(d)), ask)
    ensures next.level == st.level && next.staged == NOTHING_STAGED
    decreases d, 1
  {
    hide Loop, Has, Structure, EntryText, Agreeable, Well, Content, Preorder, Right, AllSound, Breaks;
    WellMeans(d, st.level == 0);
    ContentMeans(d);
    match d
    case End =>
      next := st;
      ComesHere(text, st, ask);
    case Entry(key, between, value, behind, rest) =>
      hide GoodEntry;
      var line := EntryText(key, between, value, behind);
      WriteEntry(d);
      hide Write;
      HasSplit(text, st.pos, line, Write(rest));
      var mid := EntryParses(text, st, key, between, value, behind, ask);
      next := DocParses(text, mid, rest, ask);
      ComesTwice(text, st, mid, next, |line|, |Write(rest)|, [KeyValue(Text(key.chars), Text(value.chars))],
                 Preorder(Content(rest)), ask);
    case Block(_, _, _, _, _, _) => next := BlockParses(text, st, d, ask);
  }

  lemma {:induction false} BlockParses(text: string, st: State, d: Doc, ask: Listener) returns (next: State)
    requires Open(st) && st.staged == NOTHING_STAGED && Agreeable(ask) && Well(d, st.level == 0) && d.Block?
    requires Has(text, st.pos, Write(d))
    ensures Comes(text, st, next, |Write(d)|, Preorder(Content(d)), ask)
    ensures next.level == st.level && next.staged == NOTHING_STAGED
    decreases d, 0
  {
    hide Loop, Has, Structure, HeadText, Agreeable, Well, Content, Preorder, Write, WriteGap, Right, AllSound;
    WellMeans(d, st.level == 0);
    ContentMeans(d);
    WriteBlock(d);
    var head, body, foot, rest := HeadText(d.name, d.before, d.inside), Write(d.body), "}" + WriteGap(d.behind),
        Write(d.rest);
    HasSplit(text, st.pos, head, body + (foot + rest));
    HasSplit(text, st.pos + |head|, body, foot + rest);
    HasSplit(text, st.pos + |head| + |body|, foot, rest);
    var s1 := HeadParses(text, st, d.name, d.before, d.inside, ask);
    var s2 := DocParses(text, s1, d.body, ask);
    var s3 := FootParses(text, s2, d.behind, ask);
    next := DocParses(text, s3, d.rest, ask);
    var a, b, c := [NewSection(Text(d.name.chars))], Preorder(Content(d.body)), [LeavingSection];
    ComesTwice(text, st, s1, s2, |head|, |body|, a, b, ask);
    ComesTwice(text, st, s2, s3, |head| + |body|, |foot|, a + b, c, ask);
    ComesTwice(text, st, s3, next, |head| + |body| + |foot|, |rest|, a + b + c, Preorder(Content(d.rest)), ask);
  }

  /** A document parses without an error, and the listener is told what it holds, in preorder between one start and
      one unhalted end, however it is laid out: which comments and blanks it has, which strings have quotes,
      and where its braces are. */
  lemma LayoutRoundTrip(lead: seq<Piece>, d: Doc, ask: Listener)
    requires AllSound(lead) && Well(d, true) && Agreeable(ask)
    ensures var (err, trace) := Parse(WriteGap(lead) + Write(d), ask);
            err == Okay && Structure(trace) == [ParseStart] + Preorder(Content(d)) + [ParseEnd(false, false)]
  {
    hide Loop, Structure, AllSound, Write, Well, WriteGap, Agreeable, Preorder;
    var text := WriteGap(lead) + Write(d);
    assert text[0..0 + |text|] == text;
    HasSplit(text, 0, WriteGap(lead), Write(d));
    var mid := GapParses(text, INITIAL, lead, ask);
    var last := DocParses(text, mid, d, ask);
    ComesTwice(text, INITIAL, mid, last, |WriteGap(lead)|, |Write(d)|, [], Preorder(Content(d)), ask);
    assert Loop(text, INITIAL, ask) == last by { AtTheEnd(text, last, ask); }
    StructurePush(last.trace, ParseEnd(false, false));
    StartStructure();
    assert [] + Preorder(Content(d)) == Preorder(Content(d));
  }

  lemma AtTheEnd(text: string, st: State, ask: Listener)
    requires st.pos == |text|
    ensures Loop(text, st, ask) == st
  {}

  lemma StartStructure()
    ensures Structure(INITIAL.trace) == [ParseStart]
  {
    StructurePush([], ParseStart);
    assert [] + [ParseStart] == [ParseStart];
  }

  /** Two layouts of the same content are told the same. */
  lemma LayoutDoesNotMatter(lead: seq<Piece>, d: Doc, lead': seq<Piece>, d': Doc, ask: Listener)
    requires AllSound(lead) && Well(d, true) && AllSound(lead') && Well(d', true) && Agreeable(ask)
    requires Content(d) == Content(d')
    ensures Structure(Parse(WriteGap(lead) + Write(d), ask).1) == Structure(Parse(WriteGap(lead') + Write(d'), ask).1)
  {
    hide Structure, AllSound, Write, Well, WriteGap, Agreeable, Preorder, Parse;
    LayoutRoundTrip(lead, d, ask);
    LayoutRoundTrip(lead', d', ask);
  }

  // ----- what is wrong

  /** Which error a part in the wrong place is. */
  lemma StrayParts(text: string, st: State, ask: Listener)
    requires Open(st) && Shuts(st) && Agreeable(ask) && st.pos < |text|
    ensures text[st.pos] == '}' && st.staged == NOTHING_STAGED && st.level == 0 ==>
              Step(text, st, ask).status == Failed(InvalidSection4)
    ensures text[st.pos] == '{' && st.staged == NOTHING_STAGED ==> Step(text, st, ask).status == Failed(InvalidSection2)
    ensures text[st.pos] == '{' && Shut(st).third.ptr != NULL ==> Step(text, st, ask).status == Failed(InvalidSection1)
    ensures text[st.pos] == '\n' && Shut(st).third.ptr != NULL && st.level == 0 ==>
              Step(text, st, ask).status == Failed(InvalidProperty1)
  {
    hide InComment, InQuote, OpenComment, AtBlank, AtSlash, AtPlain, AtQuote, PairOf, TokenText;
    assert ask(st.trace + [RawLine]) == Continue;
  }

  /** A slash that begins no comment does not begin a string either: where nothing is being read, it is lost. */
  lemma LeadingSlashIsLost(text: string, st: State, ask: Listener)
    requires Open(st) && st.staged.first == EMPTY && st.pos + 1 < |text| && text[st.pos] == '/'
    requires text[st.pos + 1] != '/' && text[st.pos + 1] != '*'
    ensures Loop(text, st, ask) == Loop(text, st.(pos := st.pos + 1, col := st.col + 1), ask)
  {
    assert Step(text, st, ask) == st.(pos := st.pos + 1, col := st.col + 1) by { StepLosesSlash(text, st, ask); }
    hide Step, Loop;
    Unroll(text, st, Step(text, st, ask), ask);
  }

  lemma StepLosesSlash(text: string, st: State, ask: Listener)
    requires Open(st) && st.staged.first == EMPTY && st.pos + 1 < |text| && text[st.pos] == '/'
    requires text[st.pos + 1] != '/' && text[st.pos + 1] != '*'
    ensures Step(text, st, ask) == st.(pos := st.pos + 1, col := st.col + 1)
  {
    hide InComment, InQuote, OpenComment, AtBlank, AtNewline, AtOpenBrace, AtCloseBrace, AtPlain, AtQuote;
  }

  /** A blank behind a value without quotes is an error if its key has none either; a third string on a line
      always is, where it ends or, in quotes, where the one before it does. */
  lemma StrayStrings(text: string, st: State, ask: Listener)
    requires Open(st) && st.pos < |text| && st.staged.first.ptr != NULL
    ensures text[st.pos] in SPACES && st.staged.second.ptr != NULL && !st.staged.second.quoted ==>
              Step(text, st, ask).status == Failed(InvalidTokens)
    ensures text[st.pos] in "\n;\"" && st.staged.third.ptr != NULL ==>
              Step(text, st, ask).status == Failed(InvalidTokens)
    ensures text[st.pos] == '{' && st.staged.third.ptr != NULL ==> Step(text, st, ask).status == Failed(InvalidSection1)
    ensures text[st.pos] == '}' && st.staged.third.ptr != NULL ==> Step(text, st, ask).status == Failed(InvalidSection3)
  {
    hide InComment, InQuote, AtSlash, AtPlain, PairOf, TokenText, DeliverPair, LeaveSection, EnterSection;
  }

  /** What is open at the end: a section, or a string that is no pair yet. */
  lemma Unfinished(st: State)
    requires !st.status.Failed?
    ensures Finish(st).0 ==
            if st.level > 0 then InvalidSection5
            else if st.staged.first.ptr != NULL || st.staged.second.ptr != NULL then InvalidTokens
            else Okay
  {}
}
