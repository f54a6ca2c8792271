/**
 What a listener can rely on whatever the text is: its replies are obeyed at once, each line is told of once,
 and the position it is told is where the parser is.
 */
module SmcListener {
  import opened SmcTokens
  import opened SmcParser

  // ----- its replies

  /** Everything told but the last was replied to with a request to go on, and the reply to the last decides. */
  ghost predicate Obeyed(st: State, ask: Listener) {
    && |st.trace| > 0
    && (forall k :: 2 <= k < |st.trace| ==> ask(st.trace[..k]) == Continue)
    && var reply := if |st.trace| == 1 then Continue else ask(st.trace);
       && (st.status == Failed(Okay) <==> reply == Halt)
       && (st.status == Failed(Custom) <==> reply == HaltFail)
  }

  lemma DeliverObeys(st: State, e: Event, ask: Listener)
    requires Obeyed(st, ask) && st.status.Running?
    ensures Obeyed(Deliver(st, e, ask), ask)
  {
    var trace := st.trace + [e];
    forall k | 2 <= k < |trace| ensures ask(trace[..k]) == Continue {
      if k < |st.trace| { assert trace[..k] == st.trace[..k]; } else { assert trace[..k] == st.trace; }
    }
  }

  /** Anything else that a step does leaves the listener as obeyed as it was. */
  lemma QuietObeys(st: State, r: State, ask: Listener)
    requires Obeyed(st, ask) && !st.status.Failed? && r.trace == st.trace
    requires r.status.Failed? ==> r.status.error != Okay && r.status.error != Custom
    ensures Obeyed(r, ask)
  {}

  /** Nothing is told, and the parse has not been halted. */
  predicate Quiet(st: State, r: State) {
    r.trace == st.trace && (r.status.Failed? ==> r.status.error != Okay && r.status.error != Custom)
  }

  lemma IgnoringIsQuiet(text: string, st: State)
    requires st.pos < |text| && st.status.Running?
    ensures Quiet(st, InQuote(text, st)) && Quiet(st, InComment(text, st))
  {}

  lemma CloseIsQuiet(st: State)
    requires st.status.Running?
    ensures Quiet(st, CloseFirst(st, InvalidTokens))
  {}

  lemma StringIsQuiet(st: State)
    requires st.status.Running?
    ensures Quiet(st, AtQuote(st)) && Quiet(st, AtPlain(st)) && Quiet(st, AtBlank(st))
  {
    CloseIsQuiet(st);
    hide CloseFirst;
  }

  lemma CommentIsQuiet(st: State, multiline: bool)
    requires st.status.Running?
    ensures Quiet(st, OpenComment(st, multiline))
  {}

  lemma SlashIsQuiet(text: string, st: State)
    requires st.pos < |text| && st.status.Running?
    ensures Quiet(st, AtSlash(text, st))
  {
    hide OpenComment;
    CommentIsQuiet(st, true);
    CommentIsQuiet(st, false);
  }

  lemma PairObeys(text: string, st: State, ask: Listener)
    requires Obeyed(st, ask) && st.status.Running?
    ensures Obeyed(DeliverPair(text, st, ask), ask) && !DeliverPair(text, st, ask).status.Waiting?
  {
    hide PairOf;
    if st.level == 0 {
      QuietObeys(st, Fail(st, InvalidProperty1), ask);
    } else {
      DeliverObeys(st, PairOf(text, st.staged), ask);
    }
  }

  lemma NewlineObeys(text: string, st: State, ask: Listener)
    requires Obeyed(st, ask) && st.status.Running? && st.pos < |text|
    ensures Obeyed(AtNewline(text, st, ask), ask)
  {
    CloseIsQuiet(st);
    var s1 := CloseFirst(st, InvalidTokens);
    QuietObeys(st, s1, ask);
    hide Obeyed, CloseFirst, Deliver, DeliverPair;
    var r := AtNewline(text, st, ask);
    if s1.status.Running? {
      var s2 := s1.(eolComment := false, inQuote := false, ignoring := st.ignoring && st.mlComment);
      QuietObeys(s1, s2, ask);
      DeliverObeys(s2, RawLine, ask);
      var s3 := Deliver(s2, RawLine, ask);
      if s3.status.Running? {
        if s3.staged.third.ptr != NULL { PairObeys(text, s3, ask); }
        var d := if s3.staged.third.ptr != NULL then DeliverPair(text, s3, ask) else s3;
        if d.status.Running? { QuietObeys(d, r, ask); }
      }
    }
  }

  lemma OpenBraceObeys(text: string, st: State, ask: Listener)
    requires Obeyed(st, ask) && st.status.Running?
    ensures Obeyed(AtOpenBrace(text, st, ask), ask)
  {
    hide TokenText, Obeyed, Deliver;
    var r := AtOpenBrace(text, st, ask);
    var (ok, g) := if st.staged.first.ptr == NULL then (true, st.staged) else Rotate(st.staged);
    if !ok || g.third.ptr != NULL || g.second.ptr == NULL {
      QuietObeys(st, r, ask);
    } else {
      var s0 := st.(staged := g);
      QuietObeys(st, s0, ask);
      DeliverObeys(s0, NewSection(TokenText(text, g.second)), ask);
      var s1 := Deliver(s0, NewSection(TokenText(text, g.second)), ask);
      if s1.status.Running? { QuietObeys(s1, r, ask); }
    }
  }

  lemma LeaveObeys(st: State, ask: Listener)
    requires Obeyed(st, ask) && st.status.Running? && st.level > 0
    ensures Obeyed(LeaveSection(st, ask), ask)
  {
    hide Obeyed, Deliver;
    var s0 := st.(staged := NOTHING_STAGED);
    QuietObeys(st, s0, ask);
    DeliverObeys(s0, LeavingSection, ask);
    var s1 := Deliver(s0, LeavingSection, ask);
    if s1.status.Running? { QuietObeys(s1, LeaveSection(st, ask), ask); }
  }

  lemma CloseBraceObeys(text: string, st: State, ask: Listener)
    requires Obeyed(st, ask) && st.status.Running?
    ensures Obeyed(AtCloseBrace(text, st, ask), ask)
  {
    hide Obeyed, DeliverPair, LeaveSection;
    var r := AtCloseBrace(text, st, ask);
    var (ok, g) := Rotate(st.staged);
    if ok && g.third.ptr != NULL {
      var s0 := st.(staged := g);
      QuietObeys(st, s0, ask);
      PairObeys(text, s0, ask);
      PairStands(text, s0, ask);
      var s1 := DeliverPair(text, s0, ask);
      if s1.status.Running? { LeaveObeys(s1, ask); }
    } else if !ok || g.second.ptr != NULL || st.level == 0 {
      QuietObeys(st, r, ask);
    } else {
      LeaveObeys(st, ask);
    }
  }

  lemma StepObeys(text: string, st: State, ask: Listener)
    requires Obeyed(st, ask) && st.status.Running? && st.pos < |text|
    ensures Obeyed(Step(text, st, ask), ask)
  {
    hide AtNewline, AtOpenBrace, AtCloseBrace, InQuote, InComment, AtSlash, OpenComment, AtQuote, AtPlain, AtBlank,
         Obeyed;
    NewlineObeys(text, st, ask);
    OpenBraceObeys(text, st, ask);
    CloseBraceObeys(text, st, ask);
    IgnoringIsQuiet(text, st);
    StringIsQuiet(st);
    CommentIsQuiet(st, false);
    SlashIsQuiet(text, st);
    var c, r := text[st.pos], Step(text, st, ask);
    if c != '\n' && (st.ignoring || (c != '{' && c != '}')) { QuietObeys(st, r, ask); }
    if c == '{' || c == '}' { if IsBlank(c) { assert false; } }
  }

  lemma {:induction false} LoopObeys(text: string, st: State, ask: Listener)
    requires Obeyed(st, ask)
    ensures Obeyed(Loop(text, st, ask), ask)
    decreases |text| - st.pos
  {
    hide Step, Obeyed;
    if st.status.Running? && st.pos < |text| {
      StepAdvances(text, st, ask);
      StepObeys(text, st, ask);
      var next := Step(text, st, ask);
      if next.status.Running? { LoopObeys(text, next, ask); }
    }
  }

  /** A listener that asks to stop is told nothing more but the end, and its reply is the result: success if it
      asked to halt, its own error if it asked to fail. Nobody else makes a parse end like that. What it replies
      to the start is not looked at. */
  lemma ListenerIsObeyed(text: string, ask: Listener)
    ensures var (err, trace) := Parse(text, ask);
            var told := trace[..|trace| - 1];
            var reply := if |told| == 1 then Continue else ask(told);
            && |told| > 0 && (forall k :: 2 <= k < |told| ==> ask(told[..k]) == Continue)
            && (err == Custom <==> reply == HaltFail)
            && (reply == Halt ==> err == Okay)
            && (trace[|told|] == ParseEnd(true, false) && err == Okay <==> reply == Halt)
  {
    LoopObeys(text, INITIAL, ask);
    var r := Loop(text, INITIAL, ask);
    hide Loop;
    LoopIsOver(text, ask);
    assert Finish(r).1[..|r.trace|] == r.trace;
  }

  lemma LoopIsOver(text: string, ask: Listener)
    ensures Parse(text, ask) == Finish(Loop(text, INITIAL, ask))
  {}

  // ----- lines and columns

  function Newlines(s: string): nat {
    multiset(s)['\n']
  }

  function RawLinesIn(trace: seq<Event>): nat {
    multiset(trace)[RawLine]
  }

  /** The parser has told of each line it has ended, and knows where it is. */
  ghost predicate Counted(text: string, st: State) {
    && st.pos <= |text| && st.lineBegin <= st.pos
    && RawLinesIn(st.trace) == Newlines(text[..st.pos]) && st.line == 1 + Newlines(text[..st.pos])
    && (forall k :: st.lineBegin <= k < st.pos ==> text[k] != '\n')
    && (st.lineBegin == 0 || text[st.lineBegin - 1] == '\n')
    && st.col == st.pos - st.lineBegin + (if st.lineBegin == 0 then 0 else 1)
  }

  /** Only characters inside a line have been passed. */
  predicate Passes(text: string, st: State, r: State) {
    && st.pos <= r.pos <= |text| && r.pos <= st.pos + 2
    && (r.pos > st.pos ==> text[st.pos] != '\n') && (r.pos > st.pos + 1 ==> text[st.pos + 1] != '\n')
    && r.line == st.line && r.lineBegin == st.lineBegin && r.col - st.col == r.pos - st.pos
    && RawLinesIn(r.trace) == RawLinesIn(st.trace)
  }

  lemma PassesCounted(text: string, st: State, r: State)
    requires Counted(text, st) && Passes(text, st, r)
    ensures Counted(text, r)
  {
    assert text[..r.pos] == text[..st.pos] + text[st.pos..r.pos];
    assert Newlines(text[..r.pos]) == Newlines(text[..st.pos]) + Newlines(text[st.pos..r.pos]);
    NoNewlines(text[st.pos..r.pos]);
    hide RawLinesIn;
  }

  lemma NoNewlines(s: string)
    requires forall k :: 0 <= k < |s| ==> s[k] != '\n'
    ensures Newlines(s) == 0
  {
    assert '\n' !in s;
  }

  lemma OneMoreTold(trace: seq<Event>, e: Event)
    ensures RawLinesIn(trace + [e]) == RawLinesIn(trace) + (if e.RawLine? then 1 else 0)
  {
    assert multiset(trace + [e]) == multiset(trace) + multiset{e};
  }

  lemma IgnoringPasses(text: string, st: State)
    requires st.pos < |text| && st.status.Running? && text[st.pos] != '\n'
    ensures Passes(text, st, InQuote(text, st)) && Passes(text, st, InComment(text, st))
  {
    hide RawLinesIn;
  }

  lemma CommentPasses(text: string, st: State, multiline: bool)
    requires st.pos < |text| && st.status.Running? && text[st.pos] != '\n'
    ensures Passes(text, st, OpenComment(st, multiline))
  {
    hide RawLinesIn;
  }

  lemma SlashPasses(text: string, st: State)
    requires st.pos < |text| && st.status.Running? && text[st.pos] != '\n'
    ensures Passes(text, st, AtSlash(text, st))
  {
    hide OpenComment, RawLinesIn;
    CommentPasses(text, st, true);
    CommentPasses(text, st, false);
  }

  lemma StringPasses(text: string, st: State)
    requires st.pos < |text| && st.status.Running? && text[st.pos] != '\n'
    ensures Passes(text, st, AtQuote(st)) && Passes(text, st, AtPlain(st)) && Passes(text, st, AtBlank(st))
  {
    hide RawLinesIn, CloseFirst, IsBlank;
    CloseStays(st);
  }

  lemma EnterPasses(text: string, st: State, ask: Listener)
    requires st.pos < |text| && st.status.Running? && text[st.pos] != '\n'
    ensures Passes(text, st, EnterSection(text, st, ask))
  {
    hide RawLinesIn, TokenText;
    OneMoreTold(st.trace, NewSection(TokenText(text, st.staged.second)));
  }

  lemma OpenBracePasses(text: string, st: State, ask: Listener)
    requires st.pos < |text| && st.status.Running? && text[st.pos] != '\n'
    ensures Passes(text, st, AtOpenBrace(text, st, ask))
  {
    hide RawLinesIn, EnterSection, Rotate;
    var (ok, g) := if st.staged.first.ptr == NULL then (true, st.staged) else Rotate(st.staged);
    EnterPasses(text, st.(staged := g), ask);
  }

  lemma LeavePasses(text: string, st: State, ask: Listener)
    requires st.pos < |text| && st.status.Running? && text[st.pos] != '\n' && st.level > 0
    ensures Passes(text, st, LeaveSection(st, ask))
  {
    hide RawLinesIn;
    OneMoreTold(st.trace, LeavingSection);
  }

  /** A pair is told of without a move. */
  predicate Stays(st: State, r: State) {
    && r.pos == st.pos && r.line == st.line && r.lineBegin == st.lineBegin && r.col == st.col
    && RawLinesIn(r.trace) == RawLinesIn(st.trace)
  }

  lemma PairStays(text: string, st: State, ask: Listener)
    requires st.status.Running?
    ensures Stays(st, DeliverPair(text, st, ask)) && !DeliverPair(text, st, ask).status.Waiting?
  {
    hide RawLinesIn, PairOf;
    OneMoreTold(st.trace, PairOf(text, st.staged));
  }

  lemma CloseBracePasses(text: string, st: State, ask: Listener)
    requires st.pos < |text| && st.status.Running? && text[st.pos] != '\n'
    ensures Passes(text, st, AtCloseBrace(text, st, ask))
  {
    hide RawLinesIn, DeliverPair, LeaveSection;
    var s0 := st.(staged := Rotate(st.staged).1);
    PairStays(text, s0, ask);
    PairStands(text, s0, ask);
    var s1 := DeliverPair(text, s0, ask);
    if s1.status.Running? { LeavePasses(text, s1, ask); }
    if st.level > 0 { LeavePasses(text, st, ask); }
  }

  lemma NewlineCounted(text: string, st: State, ask: Listener)
    requires st.pos < |text| && st.status.Running? && text[st.pos] == '\n' && Counted(text, st)
    ensures !AtNewline(text, st, ask).status.Failed? ==> Counted(text, AtNewline(text, st, ask))
  {
    hide RawLinesIn, DeliverPair, CloseFirst;
    CloseStays(st);
    var s1 := CloseFirst(st, InvalidTokens);
    OneMoreTold(s1.trace, RawLine);
    if s1.status.Running? {
      var s2 := s1.(eolComment := false, inQuote := false, ignoring := st.ignoring && st.mlComment);
      var s3 := Deliver(s2, RawLine, ask);
      if s3.status.Running? && s3.staged.third.ptr != NULL { PairStays(text, s3, ask); }
    }
    OneMoreLine(text, st.pos);
  }

  lemma OneMoreLine(text: string, pos: nat)
    requires pos < |text| && text[pos] == '\n'
    ensures Newlines(text[..pos + 1]) == Newlines(text[..pos]) + 1
  {
    assert text[..pos + 1] == text[..pos] + ['\n'];
    assert multiset(text[..pos + 1]) == multiset(text[..pos]) + multiset{'\n'};
  }

  lemma CloseStays(st: State)
    requires st.status.Running?
    ensures Stays(st, CloseFirst(st, InvalidTokens)) && !CloseFirst(st, InvalidTokens).status.Waiting?
  {
    hide RawLinesIn;
  }

  lemma StepCounted(text: string, st: State, ask: Listener)
    requires st.pos < |text| && st.status.Running? && Counted(text, st)
    ensures !Step(text, st, ask).status.Failed? ==> Counted(text, Step(text, st, ask))
  {
    hide AtNewline, AtOpenBrace, AtCloseBrace, InQuote, InComment, AtSlash, OpenComment, AtQuote, AtPlain, AtBlank,
         Counted, Passes;
    if text[st.pos] == '\n' {
      NewlineCounted(text, st, ask);
    } else {
      IgnoringPasses(text, st);
      CommentPasses(text, st, false);
      SlashPasses(text, st);
      StringPasses(text, st);
      OpenBracePasses(text, st, ask);
      CloseBracePasses(text, st, ask);
      PassesCounted(text, st, Step(text, st, ask));
    }
  }

  lemma {:induction false} LoopCounted(text: string, st: State, ask: Listener)
    requires Counted(text, st)
    ensures !Loop(text, st, ask).status.Failed? ==> Counted(text, Loop(text, st, ask))
    decreases |text| - st.pos
  {
    hide Step, Counted;
    if st.status.Running? && st.pos < |text| {
      StepAdvances(text, st, ask);
      StepCounted(text, st, ask);
      var next := Step(text, st, ask);
      if next.status.Running? { LoopCounted(text, next, ask); }
    }
  }

  /** In a parse that is not stopped, the listener is told of as many raw lines as line ends have been read, and line
      and column are those of the place reached. */
  lemma EveryLineIsTold(text: string, ask: Listener)
    ensures var r := Loop(text, INITIAL, ask); !r.status.Failed? ==> Counted(text, r)
  {
    hide Step, Loop;
    assert text[..0] == [];
    LoopCounted(text, INITIAL, ask);
  }
}
