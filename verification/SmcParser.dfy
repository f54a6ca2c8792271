/**
 The character machine of `ParseStream_SMC`, over a text held in one piece.

 `Step` handles the character at `pos`; positions in the state are indices into
 the text it is given, which is the whole input here and one buffer load in
 module SmcStream. A listener is any function from the events delivered so far
 (the newest one last) to its reply, so it may depend on the whole history.
 */
module SmcParser {
  import opened SmcTokens

  datatype Event =
    | ParseStart
    | RawLine
    | NewSection(name: Text)
    | KeyValue(key: Text, value: Text)
    | LeavingSection
    | ParseEnd(halted: bool, failed: bool)

  datatype Reply = Continue | Halt | HaltFail

  type Listener = seq<Event> -> Reply

  datatype Error =
    | Okay | Custom | InvalidTokens | InvalidProperty1 | TokenOverflow
    | InvalidSection1 | InvalidSection2 | InvalidSection3 | InvalidSection4 | InvalidSection5

  /** `Waiting`: the character at `pos` cannot be judged before the one after it has been read. */
  datatype Status = Running | Waiting | Failed(error: Error)

  datatype State = State(
    pos: nat, staged: Staging, level: nat,
    inQuote: bool, ignoring: bool, eolComment: bool, mlComment: bool,
    lineBegin: nat, line: nat, col: nat,
    trace: seq<Event>, status: Status)

  const INITIAL :=
    State(0, NOTHING_STAGED, 0, false, false, false, false, 0, 1, 0, [ParseStart], Running)

  predicate IsBlank(c: char) {
    c == '\n' || c == '\r' || c == '\t' || c == ' ' || c == 11 as char || c == 12 as char
  }

  function Fail(st: State, e: Error): State {
    st.(status := Failed(e))
  }

  function Advance(st: State, n: nat): State {
    if st.status.Running? then st.(pos := st.pos + n, col := st.col + n) else st
  }

  function Deliver(st: State, e: Event, ask: Listener): State {
    var trace := st.trace + [e];
    st.(trace := trace,
        status := match ask(trace)
                  case Continue => Running
                  case Halt => Failed(Okay)
                  case HaltFail => Failed(Custom))
  }

  /** Ends the string being read at `pos` and rotates it out, if there is one. */
  function CloseFirst(st: State, err: Error): State {
    if st.staged.first.ptr == NULL then st
    else
      var (ok, g) := Rotate(st.staged.(first := st.staged.first.(end := st.pos)));
      if ok then st.(staged := g) else Fail(st, err)
  }

  /** The pair that is told of the strings in the last two slots. */
  function PairOf(text: string, g: Staging): (e: Event)
    ensures e.KeyValue?
  {
    KeyValue(TokenText(text, g.third), ValueText(text, g.third, g.second))
  }

  function DeliverPair(text: string, st: State, ask: Listener): State {
    if st.level == 0 then Fail(st, InvalidProperty1)
    else Deliver(st, PairOf(text, st.staged), ask)
  }

  function AtNewline(text: string, st: State, ask: Listener): State {
    var s1 := CloseFirst(st, InvalidTokens);
    if !s1.status.Running? then s1 else
    var s2 := s1.(eolComment := false, inQuote := false, ignoring := st.ignoring && st.mlComment);
    var s3 := Deliver(s2, RawLine, ask);
    if !s3.status.Running? then s3 else
    var s4 := if s3.staged.third.ptr == NULL then s3 else
                var d := DeliverPair(text, s3, ask);
                if d.status.Running? then d.(staged := NOTHING_STAGED) else d;
    if !s4.status.Running? then s4 else
    Advance(s4.(col := 0, line := s4.line + 1, lineBegin := st.pos + 1), 1)
  }

  /** The quote ends, and its string is rotated out. */
  function QuoteCloses(st: State): State {
    var s1 := st.(inQuote := false, ignoring := false,
                  staged := st.staged.(first := st.staged.first.(end := st.pos, quoted := true)));
    var (ok, g) := Rotate(s1.staged);
    if ok then Advance(s1.(staged := g), 1) else Fail(s1, InvalidTokens)
  }

  /** A backslash in a quote; the last character read so far has to wait. */
  function Escapes(st: State, last: bool): State {
    var s1 := st.(staged := st.staged.(first := st.staged.first.(special := true)));
    if last then s1.(status := Waiting) else Advance(s1, 1)
  }

  function InQuote(text: string, st: State): State
    requires st.pos < |text|
  {
    var c := text[st.pos];
    if st.pos != 0 && c == '"' && text[st.pos - 1] != '\\' then QuoteCloses(st)
    else if c == '\\' then Escapes(st, st.pos == |text| - 1)
    else Advance(st, 1)
  }

  function InComment(text: string, st: State): State
    requires st.pos < |text|
  {
    if st.mlComment && text[st.pos] == '*' then
      if st.pos == |text| - 1 then st.(status := Waiting)
      else if text[st.pos + 1] == '/' then Advance(st.(mlComment := false, ignoring := false), 2)
      else Advance(st, 1)
    else Advance(st, 1)
  }

  function OpenComment(st: State, multiline: bool): State {
    Advance(
      CloseFirst(
        if multiline then st.(ignoring := true, mlComment := true) else st.(ignoring := true, eolComment := true),
        InvalidTokens), 1)
  }

  function AtSlash(text: string, st: State): State
    requires st.pos < |text|
  {
    if st.pos == |text| - 1 then st.(status := Waiting)
    else if text[st.pos + 1] == '/' then OpenComment(st, false)
    else if text[st.pos + 1] == '*' then OpenComment(st, true)
    else Advance(st, 1)
  }

  function EnterSection(text: string, st: State, ask: Listener): State {
    var s1 := Deliver(st, NewSection(TokenText(text, st.staged.second)), ask);
    if !s1.status.Running? then s1
    else Advance(s1.(staged := s1.staged.(second := EMPTY), level := s1.level + 1), 1)
  }

  function AtOpenBrace(text: string, st: State, ask: Listener): State {
    var (ok, g) := if st.staged.first.ptr == NULL then (true, st.staged) else Rotate(st.staged);
    if !ok || g.third.ptr != NULL then Fail(st, InvalidSection1)
    else if g.second.ptr == NULL then Fail(st, InvalidSection2)
    else EnterSection(text, st.(staged := g), ask)
  }

  function LeaveSection(st: State, ask: Listener): State
    requires st.level > 0
  {
    var s1 := Deliver(st.(staged := NOTHING_STAGED), LeavingSection, ask);
    if s1.status.Running? then Advance(s1.(level := s1.level - 1), 1) else s1
  }

  function AtCloseBrace(text: string, st: State, ask: Listener): State {
    var (ok, g) := Rotate(st.staged);
    if !ok then Fail(st, InvalidSection3)
    else if g.third.ptr != NULL then
      var s1 := DeliverPair(text, st.(staged := g), ask);
      if s1.status.Running? then LeaveSection(s1, ask) else s1
    else if g.second.ptr != NULL then Fail(st, InvalidSection3)
    else if st.level == 0 then Fail(st, InvalidSection4)
    else LeaveSection(st, ask)
  }

  function AtQuote(st: State): State {
    var s1 := CloseFirst(st, InvalidTokens);
    if !s1.status.Running? then s1 else
    Advance(s1.(staged := s1.staged.(first := s1.staged.first.(ptr := st.pos)), inQuote := true, ignoring := true), 1)
  }

  function AtPlain(st: State): State {
    Advance(if st.staged.first.ptr != NULL then st
            else st.(staged := st.staged.(first := st.staged.first.(ptr := st.pos))), 1)
  }

  function AtBlank(st: State): State {
    if st.staged.first.ptr == NULL then Advance(st, 1)
    else if st.staged.second.ptr == NULL then
      Advance(st.(staged := Rotate(st.staged.(first := st.staged.first.(end := st.pos))).1), 1)
    else if !st.staged.second.quoted then Fail(st, InvalidTokens)
    else Advance(st, 1)
  }

  /** Handles the character at `st.pos`. */
  function Step(text: string, st: State, ask: Listener): State
    requires st.pos < |text|
  {
    var c := text[st.pos];
    if c == '\n' then AtNewline(text, st, ask)
    else if st.ignoring then (if st.inQuote then InQuote(text, st) else InComment(text, st))
    else if IsBlank(c) then AtBlank(st)
    else if c == ';' then OpenComment(st, false)
    else if c == '/' then AtSlash(text, st)
    else if c == '{' then AtOpenBrace(text, st, ask)
    else if c == '}' then AtCloseBrace(text, st, ask)
    else if c == '"' then AtQuote(st)
    else AtPlain(st)
  }

  predicate Advances(st: State, r: State, limit: nat) {
    if r.status.Running? then st.pos < r.pos <= limit else r.pos == st.pos
  }

  lemma NewlineAdvances(text: string, st: State, ask: Listener)
    requires st.pos < |text| && st.status.Running?
    ensures Advances(st, AtNewline(text, st, ask), |text|)
  {}

  lemma CloseBraceAdvances(text: string, st: State, ask: Listener)
    requires st.pos < |text| && st.status.Running?
    ensures Advances(st, AtCloseBrace(text, st, ask), |text|)
  {
    hide DeliverPair, LeaveSection, Rotate;
    var s0 := st.(staged := Rotate(st.staged).1);
    var s1 := DeliverPair(text, s0, ask);
    PairStands(text, s0, ask);
    if s1.level > 0 { LeaveAdvances(s1, ask); }
    if st.level > 0 { LeaveAdvances(st, ask); }
  }

  lemma PairStands(text: string, st: State, ask: Listener)
    requires st.status.Running?
    ensures var r := DeliverPair(text, st, ask);
            r.pos == st.pos && r.level == st.level && (r.status.Running? ==> r.level > 0)
  {
    hide TokenText;
  }

  lemma LeaveAdvances(st: State, ask: Listener)
    requires st.level > 0
    ensures var r := LeaveSection(st, ask); r.pos == if r.status.Running? then st.pos + 1 else st.pos
  {}

  lemma OpenBraceAdvances(text: string, st: State, ask: Listener)
    requires st.pos < |text| && st.status.Running?
    ensures Advances(st, AtOpenBrace(text, st, ask), |text|)
  {}

  /** A step that tells the listener nothing. */
  predicate Silent(st: State, r: State, limit: nat) {
    Advances(st, r, limit) && r.trace == st.trace && r.level == st.level
  }

  lemma IgnoringIsSilent(text: string, st: State)
    requires st.pos < |text| && st.status.Running?
    ensures Silent(st, InQuote(text, st), |text|)
    ensures Silent(st, InComment(text, st), |text|)
  {}

  lemma CommentIsSilent(text: string, st: State, multiline: bool)
    requires st.pos < |text| && st.status.Running?
    ensures Silent(st, OpenComment(st, multiline), |text|)
  {}

  lemma SlashIsSilent(text: string, st: State)
    requires st.pos < |text| && st.status.Running?
    ensures Silent(st, AtSlash(text, st), |text|)
  {
    hide OpenComment;
    CommentIsSilent(text, st, true);
    CommentIsSilent(text, st, false);
  }

  lemma StringIsSilent(text: string, st: State)
    requires st.pos < |text| && st.status.Running?
    ensures Silent(st, AtQuote(st), |text|)
    ensures Silent(st, AtPlain(st), |text|)
  {}

  lemma BlankIsSilent(text: string, st: State)
    requires st.pos < |text| && st.status.Running?
    ensures Silent(st, AtBlank(st), |text|)
  {}

  lemma StepAdvances(text: string, st: State, ask: Listener)
    requires st.pos < |text| && st.status.Running?
    ensures Advances(st, Step(text, st, ask), |text|)
  {
    hide AtNewline, AtOpenBrace, AtCloseBrace, InQuote, InComment, AtSlash, OpenComment, AtQuote, AtPlain, AtBlank,
         Advances;
    NewlineAdvances(text, st, ask);
    OpenBraceAdvances(text, st, ask);
    CloseBraceAdvances(text, st, ask);
    IgnoringIsSilent(text, st);
    CommentIsSilent(text, st, false);
    SlashIsSilent(text, st);
    StringIsSilent(text, st);
    BlankIsSilent(text, st);
  }

  /** The character loop: runs until the text is used up or nothing more can be judged. */
  function Loop(text: string, st: State, ask: Listener): (r: State)
    ensures r.status.Running? ==> r.pos >= |text|
    decreases |text| - st.pos
  {
    if st.status.Running? && st.pos < |text| then
      StepAdvances(text, st, ask);
      var next := Step(text, st, ask);
      if next.status.Running? then Loop(text, next, ask) else next
    else st
  }

  /** After the last character: anything left open is an error. */
  function Finish(st: State): (Error, seq<Event>) {
    var err := if st.status.Failed? then st.status.error
               else if st.level > 0 then InvalidSection5
               else if st.staged.first.ptr != NULL || st.staged.second.ptr != NULL then InvalidTokens
               else Okay;
    var halted := st.status.Failed? || err != Okay;
    (err, st.trace + [ParseEnd(halted, err == Custom)])
  }

  /** The whole parse of a text: its result and everything the listener was told. */
  function Parse(text: string, ask: Listener): (Error, seq<Event>) {
    Finish(Loop(text, INITIAL, ask))
  }

  // ----- what every step keeps

  /** A staged token lies inside the text read so far. */
  predicate TokenSane(t: Token, pos: nat) {
    && (t.ptr == NULL ==> t == EMPTY)
    && (t.ptr != NULL ==> 0 <= t.ptr < pos)
    && (t.end != NULL ==> t.ptr < t.end <= pos)
  }

  /** Staged strings fill up from the first slot, oldest lowest; a quote is always being
      staged; comments never are. */
  predicate Sane(st: State) {
    && TokenSane(st.staged.first, st.pos)
    && TokenSane(st.staged.second, st.pos)
    && TokenSane(st.staged.third, st.pos)
    && st.staged.first.end == NULL
    && !st.staged.first.quoted
    && (st.staged.third.ptr != NULL ==> st.staged.third.ptr < st.staged.second.ptr)
    && (st.staged.second.ptr != NULL && st.staged.first.ptr != NULL ==> st.staged.second.ptr < st.staged.first.ptr)
    && (st.inQuote ==> st.ignoring && !st.mlComment && st.staged.first.ptr != NULL)
    && (st.mlComment ==> st.ignoring)
    && (st.ignoring && !st.inQuote ==> st.staged.first.ptr == NULL)
    && st.lineBegin <= st.pos
  }

  predicate Keeps(r: State) {
    !r.status.Failed? ==> Sane(r)
  }

  lemma CloseFirstKeepsSane(st: State, err: Error)
    requires st.status.Running? && Sane(st)
    ensures var r := CloseFirst(st, err);
            && r == st.(staged := r.staged, status := r.status)
            && !r.status.Waiting?
            && (r.status.Running? ==>
                  r.staged.first == EMPTY && Sane(r.(inQuote := false, ignoring := r.ignoring && r.mlComment)))
  {}

  lemma NewlineKeepsSane(text: string, st: State, ask: Listener)
    requires st.pos < |text| && st.status.Running? && Sane(st)
    ensures Keeps(AtNewline(text, st, ask))
  {
    hide CloseFirst, TokenText;
    CloseFirstKeepsSane(st, InvalidTokens);
  }

  lemma QuoteKeepsSane(text: string, st: State)
    requires st.pos < |text| && st.status.Running? && Sane(st) && st.inQuote
    ensures Keeps(InQuote(text, st))
  {}

  lemma CommentKeepsSane(text: string, st: State)
    requires st.pos < |text| && st.status.Running? && Sane(st) && st.ignoring && !st.inQuote
    ensures Keeps(InComment(text, st))
  {}

  lemma BracesKeepSane(text: string, st: State, ask: Listener)
    requires st.pos < |text| && st.status.Running? && Sane(st) && !st.ignoring
    ensures Keeps(AtOpenBrace(text, st, ask))
    ensures Keeps(AtCloseBrace(text, st, ask))
  {
    hide TokenText;
  }

  lemma OpenCommentKeepsSane(text: string, st: State, multiline: bool)
    requires st.pos < |text| && st.status.Running? && Sane(st) && !st.ignoring
    ensures Keeps(OpenComment(st, multiline))
  {}

  lemma SlashKeepsSane(text: string, st: State)
    requires st.pos < |text| && st.status.Running? && Sane(st) && !st.ignoring
    ensures Keeps(AtSlash(text, st))
  {
    hide OpenComment;
    OpenCommentKeepsSane(text, st, true);
    OpenCommentKeepsSane(text, st, false);
  }

  lemma StringsKeepSane(st: State)
    requires st.status.Running? && Sane(st) && !st.ignoring
    ensures Keeps(AtQuote(st))
    ensures Keeps(AtPlain(st))
    ensures Keeps(AtBlank(st))
  {}

  lemma StepKeepsSane(text: string, st: State, ask: Listener)
    requires st.pos < |text| && st.status.Running? && Sane(st)
    ensures Keeps(Step(text, st, ask))
  {
    hide AtNewline, AtOpenBrace, AtCloseBrace, InQuote, InComment, AtSlash, OpenComment, AtQuote, AtPlain, AtBlank,
         Keeps, Sane;
    NewlineKeepsSane(text, st, ask);
    if !st.ignoring {
      BracesKeepSane(text, st, ask);
      OpenCommentKeepsSane(text, st, false);
      SlashKeepsSane(text, st);
      StringsKeepSane(st);
    } else if st.inQuote {
      QuoteKeepsSane(text, st);
    } else {
      CommentKeepsSane(text, st);
    }
  }

  /** The depth a trace leaves a listener at, or -1 when it left a section it was not in
      or gave a pair outside every section. */
  function Depth(trace: seq<Event>): (d: int)
    ensures d >= -1
  {
    if trace == [] then 0 else
    var d := Depth(trace[..|trace| - 1]);
    match trace[|trace| - 1]
    case NewSection(_) => if d < 0 then -1 else d + 1
    case LeavingSection => if d < 1 then -1 else d - 1
    case KeyValue(_, _) => if d < 1 then -1 else d
    case _ => d
  }

  lemma DepthPush(trace: seq<Event>, e: Event)
    ensures var d := Depth(trace);
            Depth(trace + [e]) ==
            match e
            case NewSection(_) => if d < 0 then -1 else d + 1
            case LeavingSection => if d < 1 then -1 else d - 1
            case KeyValue(_, _) => if d < 1 then -1 else d
            case _ => d
  {
    assert (trace + [e])[..|trace|] == trace;
  }

  /** Started once, not ended, and properly nested. */
  predicate OpenTrace(trace: seq<Event>) {
    && |trace| > 0 && trace[0] == ParseStart
    && (forall k :: 0 < k < |trace| ==> !trace[k].ParseStart? && !trace[k].ParseEnd?)
    && Depth(trace) >= 0
  }

  /** While the parse runs, the level counter is the depth the listener has seen. */
  predicate Nested(st: State) {
    OpenTrace(st.trace) && (!st.status.Failed? ==> Depth(st.trace) == st.level)
  }

  lemma DeliverKeepsNested(st: State, e: Event, ask: Listener)
    requires st.status.Running? && Nested(st) && !e.ParseStart? && !e.ParseEnd?
    requires e.KeyValue? || e.LeavingSection? ==> st.level > 0
    ensures var r := Deliver(st, e, ask);
      OpenTrace(r.trace) && Depth(r.trace) ==
        if e.NewSection? then st.level + 1 else if e.LeavingSection? then st.level - 1 else st.level
  {
    DepthPush(st.trace, e);
  }

  lemma NewlineKeepsNested(text: string, st: State, ask: Listener)
    requires st.pos < |text| && st.status.Running? && Nested(st)
    ensures Nested(AtNewline(text, st, ask))
  {
    hide TokenText, OpenTrace, Depth;
    var s1 := CloseFirst(st, InvalidTokens);
    if s1.status.Running? {
      var s2 := s1.(eolComment := false, inQuote := false, ignoring := st.ignoring && st.mlComment);
      DeliverKeepsNested(s2, RawLine, ask);
      var s3 := Deliver(s2, RawLine, ask);
      if s3.status.Running? && s3.staged.third.ptr != NULL && s3.level > 0 {
        DeliverKeepsNested(s3, PairOf(text, s3.staged), ask);
      }
    }
  }

  lemma OpenBraceKeepsNested(text: string, st: State, ask: Listener)
    requires st.pos < |text| && st.status.Running? && Nested(st)
    ensures Nested(AtOpenBrace(text, st, ask))
  {
    hide TokenText, OpenTrace, Depth;
    var (ok, g) := if st.staged.first.ptr == NULL then (true, st.staged) else Rotate(st.staged);
    DeliverKeepsNested(st.(staged := g), NewSection(TokenText(text, g.second)), ask);
  }

  lemma CloseBraceKeepsNested(text: string, st: State, ask: Listener)
    requires st.pos < |text| && st.status.Running? && Nested(st)
    ensures Nested(AtCloseBrace(text, st, ask))
  {
    hide TokenText, OpenTrace, Depth;
    var (ok, g) := Rotate(st.staged);
    if st.level > 0 {
      DeliverKeepsNested(st.(staged := g), PairOf(text, g), ask);
      var s1 := if g.third.ptr != NULL then DeliverPair(text, st.(staged := g), ask) else st;
      if s1.status.Running? {
        DeliverKeepsNested(s1.(staged := NOTHING_STAGED), LeavingSection, ask);
      }
    }
  }

  lemma StepKeepsNested(text: string, st: State, ask: Listener)
    requires st.pos < |text| && st.status.Running? && Nested(st)
    ensures Nested(Step(text, st, ask))
  {
    hide AtNewline, AtOpenBrace, AtCloseBrace, InQuote, InComment, AtSlash, OpenComment, AtQuote, AtPlain, AtBlank,
         Depth, Advances, OpenTrace;
    NewlineKeepsNested(text, st, ask);
    OpenBraceKeepsNested(text, st, ask);
    CloseBraceKeepsNested(text, st, ask);
    IgnoringIsSilent(text, st);
    CommentIsSilent(text, st, false);
    SlashIsSilent(text, st);
    StringIsSilent(text, st);
    BlankIsSilent(text, st);
  }
}
