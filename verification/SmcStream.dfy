/**
 `ParseStream_SMC` as it reads: a 4096-byte buffer refilled from a reader.

 After each load the characters still needed are moved to the front of the buffer and every
 cached pointer is moved with them. Here: the loads together act as one parse of the whole
 text, as long as what has to be kept always leaves room in the buffer.
 */
module SmcStream {
  import opened SmcTokens
  import opened SmcParser
  import opened SmcTrace

  function LiftedToken(t: Token, base: nat): Token {
    t.(ptr := if t.ptr != NULL then t.ptr + base else NULL,
       end := if t.end != NULL then t.end + base else NULL)
  }

  function LiftedStaging(g: Staging, base: nat): Staging {
    Staging(LiftedToken(g.first, base), LiftedToken(g.second, base), LiftedToken(g.third, base))
  }

  /** A state on the characters from `base` on, as a state on the whole text. */
  function Lifted(low: State, base: nat): State {
    low.(pos := low.pos + base, lineBegin := low.lineBegin + base, staged := LiftedStaging(low.staged, base))
  }

  function Resumed(st: State): State {
    if st.status.Waiting? then st.(status := Running) else st
  }

  // ----- a step sees only the characters around it

  lemma TextLifts(text: string, base: nat, t: Token, pos: nat)
    requires base + pos <= |text| && TokenSane(t, pos)
    ensures TokenText(text, LiftedToken(t, base)) == TokenText(text[base..], t)
  {
    hide Unescape;
    var start := if t.quoted then t.ptr + 1 else t.ptr;
    if t.ptr != NULL && t.end != NULL {
      assert text[base..][start..t.end] == text[base + start..base + t.end];
    }
  }

  lemma PairLifts(text: string, base: nat, st: State, ask: Listener)
    requires base + st.pos < |text| && TokenSane(st.staged.third, st.pos + 1) && TokenSane(st.staged.second, st.pos + 1)
    ensures DeliverPair(text, Lifted(st, base), ask) == Lifted(DeliverPair(text[base..], st, ask), base)
  {
    hide PairOf;
    PairOfLifts(text, base, st.staged, st.pos + 1);
  }

  lemma PairOfLifts(text: string, base: nat, g: Staging, pos: nat)
    requires base + pos <= |text| && TokenSane(g.third, pos) && TokenSane(g.second, pos)
    ensures PairOf(text, LiftedStaging(g, base)) == PairOf(text[base..], g)
  {
    hide TokenText, TokenSane, LiftedToken, StartOf;
    TextLifts(text, base, g.third, pos);
    TextLifts(text, base, g.second, pos);
    EndLifts(g.third, g.second, base, pos);
  }

  lemma EndLifts(key: Token, value: Token, base: nat, pos: nat)
    requires TokenSane(key, pos) && TokenSane(value, pos)
    ensures var k, v := LiftedToken(key, base), LiftedToken(value, base);
            k.end != NULL && k.end == StartOf(v) <==> key.end != NULL && key.end == StartOf(value)
  {}

  lemma StagedLifts(st: State, base: nat, g: Staging)
    ensures Lifted(st.(staged := g), base) == Lifted(st, base).(staged := LiftedStaging(g, base))
  {}

  lemma FailLifts(st: State, base: nat, err: Error)
    ensures Fail(Lifted(st, base), err) == Lifted(Fail(st, err), base)
  {}

  lemma AdvanceLifts(st: State, base: nat, n: nat)
    ensures Advance(Lifted(st, base), n) == Lifted(Advance(st, n), base)
  {}

  lemma CloseFirstLifts(st: State, base: nat, err: Error)
    requires TokenSane(st.staged.first, st.pos) && TokenSane(st.staged.second, st.pos)
             && TokenSane(st.staged.third, st.pos)
    ensures CloseFirst(Lifted(st, base), err) == Lifted(CloseFirst(st, err), base)
  {
    var g := st.staged.(first := st.staged.first.(end := st.pos));
    FirstEnds(st.staged, st.pos, base);
    StagedLifts(st, base, Rotate(g).1);
    FailLifts(st, base, err);
    assert Lifted(st, base).staged == LiftedStaging(st.staged, base) && Lifted(st, base).pos == st.pos + base;
    hide Rotate, TokenSane, Fail, Lifted, LiftedStaging;
  }

  lemma FirstEnds(staged: Staging, pos: nat, base: nat)
    requires TokenSane(staged.first, pos) && TokenSane(staged.second, pos) && TokenSane(staged.third, pos)
    ensures var g, h := staged.(first := staged.first.(end := pos)), LiftedStaging(staged, base);
            && (h.first.ptr == NULL <==> staged.first.ptr == NULL)
            && h.(first := h.first.(end := pos + base)) == LiftedStaging(g, base)
            && (staged.first.ptr != NULL ==>
                  Rotate(LiftedStaging(g, base)) == (Rotate(g).0, LiftedStaging(Rotate(g).1, base)))
  {}

  lemma CloseFirstStages(st: State, err: Error)
    requires Sane(st) && st.status.Running?
    ensures var r := CloseFirst(st, err);
            && r == st.(staged := r.staged, status := r.status)
            && TokenSane(r.staged.second, st.pos + 1) && TokenSane(r.staged.third, st.pos + 1)
  {}

  /** `AtNewline` once the string before it is closed. */
  function LineTold(st: State, s1: State, ask: Listener): State {
    Deliver(s1.(eolComment := false, inQuote := false, ignoring := st.ignoring && st.mlComment), RawLine, ask)
  }

  function LineEnds(st: State, s3: State, text: string, ask: Listener): State {
    var s4 := if s3.staged.third.ptr == NULL then s3 else
                var d := DeliverPair(text, s3, ask);
                if d.status.Running? then d.(staged := NOTHING_STAGED) else d;
    if !s4.status.Running? then s4 else
    Advance(s4.(col := 0, line := s4.line + 1, lineBegin := st.pos + 1), 1)
  }

  lemma NewlineIs(text: string, st: State, ask: Listener)
    ensures var s1 := CloseFirst(st, InvalidTokens);
            var s3 := LineTold(st, s1, ask);
            AtNewline(text, st, ask) == if !s1.status.Running? then s1 else if !s3.status.Running? then s3
              else LineEnds(st, s3, text, ask)
  {
    hide CloseFirst, Deliver, DeliverPair, Advance;
  }

  lemma LineToldLifts(st: State, s1: State, base: nat, ask: Listener)
    ensures LineTold(Lifted(st, base), Lifted(s1, base), ask) == Lifted(LineTold(st, s1, ask), base)
    ensures LineTold(st, s1, ask).staged == s1.staged && LineTold(st, s1, ask).pos == s1.pos
  {}

  lemma LineEndsLifts(text: string, base: nat, st: State, s3: State, ask: Listener)
    requires base + st.pos < |text| && s3.pos == st.pos && s3.status.Running?
    requires TokenSane(s3.staged.third, st.pos + 1) && TokenSane(s3.staged.second, st.pos + 1)
    ensures LineEnds(Lifted(st, base), Lifted(s3, base), text, ask) == Lifted(LineEnds(st, s3, text[base..], ask), base)
  {
    hide DeliverPair, TokenSane;
    PairLifts(text, base, s3, ask);
    NullLifts(s3.staged.third, base, st.pos + 1);
  }

  lemma NullLifts(t: Token, base: nat, pos: nat)
    requires TokenSane(t, pos)
    ensures LiftedToken(t, base).ptr == NULL <==> t.ptr == NULL
  {}

  lemma NewlineLifts(text: string, base: nat, st: State, ask: Listener)
    requires base + st.pos < |text| && Sane(st) && st.status.Running?
    ensures AtNewline(text, Lifted(st, base), ask) == Lifted(AtNewline(text[base..], st, ask), base)
  {
    CloseFirstLifts(st, base, InvalidTokens);
    CloseFirstStages(st, InvalidTokens);
    var s1 := CloseFirst(st, InvalidTokens);
    LineToldLifts(st, s1, base, ask);
    hide CloseFirst, AtNewline, LineTold, LineEnds, Sane, TokenSane;
    NewlineIs(text, Lifted(st, base), ask);
    NewlineIs(text[base..], st, ask);
    var s3 := LineTold(st, s1, ask);
    if s1.status.Running? && s3.status.Running? { LineEndsLifts(text, base, st, s3, ask); }
  }

  /** Slots that are taken stay taken, and tokens stay inside what has been read. */
  predicate SameSlots(g: Staging, base: nat, pos: nat) {
    && (g.first.ptr != NULL <==> LiftedStaging(g, base).first.ptr != NULL)
    && (g.second.ptr != NULL <==> LiftedStaging(g, base).second.ptr != NULL)
    && (g.third.ptr != NULL <==> LiftedStaging(g, base).third.ptr != NULL)
    && TokenSane(g.first, pos) && TokenSane(g.second, pos) && TokenSane(g.third, pos)
  }

  lemma RotateLifts(st: State, base: nat)
    requires Sane(st)
    ensures Rotate(LiftedStaging(st.staged, base)) ==
            (Rotate(st.staged).0, LiftedStaging(Rotate(st.staged).1, base))
    ensures SameSlots(Rotate(st.staged).1, base, st.pos + 1)
    ensures SameSlots(st.staged, base, st.pos + 1)
  {}

  lemma SectionLifts(text: string, base: nat, st: State, ask: Listener)
    requires base + st.pos < |text| && TokenSane(st.staged.second, st.pos + 1)
    ensures EnterSection(text, Lifted(st, base), ask) == Lifted(EnterSection(text[base..], st, ask), base)
  {
    TextLifts(text, base, st.staged.second, st.pos + 1);
    hide TokenText, TokenSane;
  }

  /** `AtOpenBrace` once it is settled which strings are staged. */
  function OpenWith(text: string, st: State, ok: bool, g: Staging, ask: Listener): State {
    if !ok || g.third.ptr != NULL then Fail(st, InvalidSection1)
    else if g.second.ptr == NULL then Fail(st, InvalidSection2)
    else EnterSection(text, st.(staged := g), ask)
  }

  lemma OpenWithLifts(text: string, base: nat, st: State, ok: bool, g: Staging, ask: Listener)
    requires base + st.pos < |text| && SameSlots(g, base, st.pos + 1)
    ensures OpenWith(text, Lifted(st, base), ok, LiftedStaging(g, base), ask) ==
              Lifted(OpenWith(text[base..], st, ok, g, ask), base)
  {
    SectionLifts(text, base, st.(staged := g), ask);
    StagedLifts(st, base, g);
    FailLifts(st, base, InvalidSection1);
    FailLifts(st, base, InvalidSection2);
    hide TokenSane, EnterSection, LiftedStaging, Lifted, Fail;
  }

  lemma OpenBraceLifts(text: string, base: nat, st: State, ask: Listener)
    requires base + st.pos < |text| && Sane(st) && st.status.Running?
    ensures AtOpenBrace(text, Lifted(st, base), ask) == Lifted(AtOpenBrace(text[base..], st, ask), base)
  {
    hide TokenSane, EnterSection, Sane, Rotate, OpenWith;
    RotateLifts(st, base);
    var (ok, g) := if st.staged.first.ptr == NULL then (true, st.staged) else Rotate(st.staged);
    OpenWithLifts(text, base, st, ok, g, ask);
    OpenIs(text[base..], st, ask);
    OpenIs(text, Lifted(st, base), ask);
    hide AtOpenBrace, LiftedToken;
  }

  lemma OpenIs(text: string, st: State, ask: Listener)
    ensures var (ok, g) := if st.staged.first.ptr == NULL then (true, st.staged) else Rotate(st.staged);
            AtOpenBrace(text, st, ask) == OpenWith(text, st, ok, g, ask)
  {
    hide EnterSection, Rotate;
  }

  lemma CloseAfterPairLifts(text: string, base: nat, st: State, g: Staging, ask: Listener)
    requires base + st.pos < |text| && st.status.Running?
    requires Rotate(st.staged) == (true, g) && g.third.ptr != NULL
    requires Rotate(LiftedStaging(st.staged, base)) == (true, LiftedStaging(g, base)) && SameSlots(g, base, st.pos + 1)
    ensures AtCloseBrace(text, Lifted(st, base), ask) == Lifted(AtCloseBrace(text[base..], st, ask), base)
  {
    var s0 := st.(staged := g);
    PairLifts(text, base, s0, ask);
    var d := DeliverPair(text[base..], s0, ask);
    LeaveLifts(d, base, ask);
    hide DeliverPair, TokenSane, Rotate, LeaveSection, LiftedStaging, LiftedToken;
    assert Lifted(st, base).(staged := LiftedStaging(g, base)) == Lifted(s0, base);
    assert AtCloseBrace(text[base..], st, ask) == if d.status.Running? then LeaveSection(d, ask) else d;
    var h := DeliverPair(text, Lifted(s0, base), ask);
    assert AtCloseBrace(text, Lifted(st, base), ask) == if h.status.Running? then LeaveSection(h, ask) else h;
  }

  lemma CloseBraceLifts(text: string, base: nat, st: State, ask: Listener)
    requires base + st.pos < |text| && Sane(st) && st.status.Running?
    ensures AtCloseBrace(text, Lifted(st, base), ask) == Lifted(AtCloseBrace(text[base..], st, ask), base)
  {
    RotateLifts(st, base);
    var (ok, g) := Rotate(st.staged);
    if ok && g.third.ptr != NULL {
      hide *;
      CloseAfterPairLifts(text, base, st, g, ask);
    } else {
      LeaveLifts(st, base, ask);
      hide DeliverPair, TokenSane, Rotate, Sane, LeaveSection, LiftedStaging, LiftedToken;
    }
  }

  lemma LeaveLifts(st: State, base: nat, ask: Listener)
    ensures st.level > 0 ==> LeaveSection(Lifted(st, base), ask) == Lifted(LeaveSection(st, ask), base)
  {}

  lemma QuoteEndsLifts(st: State, base: nat)
    requires Sane(st) && st.inQuote
    ensures var g, h := st.staged.(first := st.staged.first.(end := st.pos, quoted := true)),
            LiftedStaging(st.staged, base);
            && h.(first := h.first.(end := st.pos + base, quoted := true)) == LiftedStaging(g, base)
            && Rotate(LiftedStaging(g, base)) == (Rotate(g).0, LiftedStaging(Rotate(g).1, base))
    ensures var g, h := st.staged.(first := st.staged.first.(special := true)), LiftedStaging(st.staged, base);
            h.(first := h.first.(special := true)) == LiftedStaging(g, base)
    ensures st.pos > 0
  {}

  lemma QuoteClosesLifts(st: State, base: nat)
    requires Sane(st) && st.inQuote
    ensures QuoteCloses(Lifted(st, base)) == Lifted(QuoteCloses(st), base)
    ensures Escapes(Lifted(st, base), true) == Lifted(Escapes(st, true), base)
    ensures Escapes(Lifted(st, base), false) == Lifted(Escapes(st, false), base)
  {
    hide TokenSane, Rotate, LiftedStaging;
    QuoteEndsLifts(st, base);
    hide Sane;
  }

  lemma InQuoteLifts(text: string, base: nat, st: State)
    requires base + st.pos < |text| && Sane(st) && st.status.Running? && st.inQuote
    ensures InQuote(text, Lifted(st, base)) == Lifted(InQuote(text[base..], st), base)
  {
    assert st.pos > 0;
    hide QuoteCloses, Escapes, Sane, Advance, LiftedStaging;
    QuoteClosesLifts(st, base);
    AdvanceLifts(st, base, 1);
  }

  lemma QuietLifts(text: string, base: nat, st: State)
    requires base + st.pos < |text| && Sane(st) && st.status.Running?
    ensures InComment(text, Lifted(st, base)) == Lifted(InComment(text[base..], st), base)
    ensures AtPlain(Lifted(st, base)) == Lifted(AtPlain(st), base)
  {
    RotateLifts(st, base);
    hide Sane, Rotate;
  }

  lemma BlankLifts(base: nat, st: State)
    requires Sane(st) && st.status.Running?
    ensures AtBlank(Lifted(st, base)) == Lifted(AtBlank(st), base)
  {
    RotateLifts(st, base);
    var g := st.staged.(first := st.staged.first.(end := st.pos));
    assert Rotate(LiftedStaging(g, base)) == (Rotate(g).0, LiftedStaging(Rotate(g).1, base));
    hide Sane, Rotate;
  }

  lemma OpenCommentLifts(base: nat, st: State, multiline: bool)
    requires Sane(st) && st.status.Running? && !st.ignoring
    ensures OpenComment(Lifted(st, base), multiline) == Lifted(OpenComment(st, multiline), base)
  {
    var s1 := if multiline then st.(ignoring := true, mlComment := true) else st.(ignoring := true, eolComment := true);
    CloseFirstLifts(s1, base, InvalidTokens);
    AdvanceLifts(CloseFirst(s1, InvalidTokens), base, 1);
    hide Sane, TokenSane, CloseFirst, Advance, LiftedStaging;
  }

  lemma SlashLifts(text: string, base: nat, st: State)
    requires base + st.pos < |text| && Sane(st) && st.status.Running? && !st.ignoring
    ensures AtSlash(text, Lifted(st, base)) == Lifted(AtSlash(text[base..], st), base)
  {
    hide OpenComment, Sane;
    OpenCommentLifts(base, st, true);
    OpenCommentLifts(base, st, false);
    AdvanceLifts(st, base, 1);
    hide Advance, LiftedStaging;
  }

  lemma QuoteLifts(base: nat, st: State)
    requires Sane(st) && st.status.Running?
    ensures AtQuote(Lifted(st, base)) == Lifted(AtQuote(st), base)
  {
    CloseFirstLifts(st, base, InvalidTokens);
    hide Sane, CloseFirst;
  }

  /** Moving the text under a state, and the state with it, changes nothing a step does. */
  lemma StepLifts(text: string, base: nat, st: State, ask: Listener)
    requires base + st.pos < |text| && Sane(st) && st.status.Running?
    ensures Step(text, Lifted(st, base), ask) == Lifted(Step(text[base..], st, ask), base)
  {
    hide AtNewline, AtOpenBrace, AtCloseBrace, InQuote, InComment, AtSlash, OpenComment, AtQuote, AtPlain, AtBlank,
         Sane;
    NewlineLifts(text, base, st, ask);
    if st.ignoring {
      if st.inQuote { InQuoteLifts(text, base, st); }
      QuietLifts(text, base, st);
    } else {
      OpenBraceLifts(text, base, st, ask);
      CloseBraceLifts(text, base, st, ask);
      QuietLifts(text, base, st);
      BlankLifts(base, st);
      OpenCommentLifts(base, st, false);
      SlashLifts(text, base, st);
      QuoteLifts(base, st);
    }
  }

  lemma {:induction false} LoopLifts(text: string, base: nat, st: State, ask: Listener)
    requires base <= |text| && (st.status.Running? ==> Sane(st))
    ensures Loop(text, Lifted(st, base), ask) == Lifted(Loop(text[base..], st, ask), base)
    decreases |text| - st.pos
  {
    hide Step, Sane, LiftedStaging;
    if st.status.Running? && base + st.pos < |text| {
      StepLifts(text, base, st, ask);
      StepAdvances(text[base..], st, ask);
      StepKeepsSane(text[base..], st, ask);
      var next := Step(text[base..], st, ask);
      if next.status.Running? { LoopLifts(text, base, next, ask); }
    }
  }

  // ----- a text read in two pieces

  lemma TextCut(text: string, e: nat, t: Token)
    requires e <= |text| && TokenSane(t, e)
    ensures TokenText(text[..e], t) == TokenText(text, t)
  {
    var start := if t.quoted then t.ptr + 1 else t.ptr;
    if 0 <= start <= t.end {
      assert text[..e][start..t.end] == text[start..t.end];
    }
  }

  lemma PairCut(text: string, e: nat, st: State, ask: Listener)
    requires e <= |text| && TokenSane(st.staged.third, e) && TokenSane(st.staged.second, e)
    ensures DeliverPair(text[..e], st, ask) == DeliverPair(text, st, ask)
  {
    TextCut(text, e, st.staged.third);
    TextCut(text, e, st.staged.second);
    hide TokenText, TokenSane;
  }

  lemma NewlineCut(text: string, e: nat, st: State, ask: Listener)
    requires st.pos < e <= |text| && Sane(st) && st.status.Running?
    ensures AtNewline(text[..e], st, ask) == AtNewline(text, st, ask)
  {
    CloseFirstStages(st, InvalidTokens);
    var s1 := CloseFirst(st, InvalidTokens);
    hide CloseFirst, DeliverPair, Sane;
    if s1.status.Running? {
      var s2 := s1.(eolComment := false, inQuote := false, ignoring := st.ignoring && st.mlComment);
      PairCut(text, e, Deliver(s2, RawLine, ask), ask);
    }
  }

  lemma BracesCut(text: string, e: nat, st: State, ask: Listener)
    requires st.pos < e <= |text| && Sane(st) && st.status.Running?
    ensures AtOpenBrace(text[..e], st, ask) == AtOpenBrace(text, st, ask)
    ensures AtCloseBrace(text[..e], st, ask) == AtCloseBrace(text, st, ask)
  {
    hide TokenText, DeliverPair, LeaveSection, Rotate;
    RotateLifts(st, 0);
    var g := Rotate(st.staged).1;
    TextCut(text, e, g.second);
    TextCut(text, e, st.staged.second);
    PairCut(text, e, st.(staged := g), ask);
    hide Sane, SameSlots;
  }

  lemma NewlineNeverWaits(text: string, st: State, ask: Listener)
    requires st.status.Running?
    ensures !AtNewline(text, st, ask).status.Waiting?
  {
    hide TokenText;
  }

  lemma BracesNeverWait(text: string, st: State, ask: Listener)
    requires st.status.Running?
    ensures !AtOpenBrace(text, st, ask).status.Waiting?
    ensures !AtCloseBrace(text, st, ask).status.Waiting?
  {
    hide TokenText, Rotate, EnterSection, LeaveSection, DeliverPair;
    var g := Rotate(st.staged).1;
    var (ok, h) := if st.staged.first.ptr == NULL then (true, st.staged) else Rotate(st.staged);
    SectionNeverWaits(text, st.(staged := h), ask);
    PairNeverWaits(text, st.(staged := g), ask);
    if st.level > 0 { LeaveNeverWaits(st, ask); }
    var d := DeliverPair(text, st.(staged := g), ask);
    if d.level > 0 { LeaveNeverWaits(d, ask); }
  }

  lemma SectionNeverWaits(text: string, st: State, ask: Listener)
    ensures !EnterSection(text, st, ask).status.Waiting?
  {
    hide TokenText;
  }

  lemma LeaveNeverWaits(st: State, ask: Listener)
    requires st.level > 0
    ensures !LeaveSection(st, ask).status.Waiting?
  {}

  lemma PairNeverWaits(text: string, st: State, ask: Listener)
    ensures !DeliverPair(text, st, ask).status.Waiting? && DeliverPair(text, st, ask).level == st.level
    ensures DeliverPair(text, st, ask).status.Running? ==> st.level > 0
  {
    hide TokenText;
  }

  lemma StringsNeverWait(st: State)
    requires st.status.Running?
    ensures !AtQuote(st).status.Waiting?
    ensures !AtPlain(st).status.Waiting?
    ensures !AtBlank(st).status.Waiting?
    ensures !OpenComment(st, false).status.Waiting?
    ensures !OpenComment(st, true).status.Waiting?
  {
    hide CloseFirst, Rotate;
    CloseFirstNeverWaits(st, InvalidTokens);
    CloseFirstNeverWaits(st.(ignoring := true, mlComment := true), InvalidTokens);
    CloseFirstNeverWaits(st.(ignoring := true, eolComment := true), InvalidTokens);
  }

  lemma CloseFirstNeverWaits(st: State, err: Error)
    requires st.status.Running?
    ensures !CloseFirst(st, err).status.Waiting?
  {
    hide Rotate;
  }

  lemma EscapeAgain(st: State)
    requires st.status.Running?
    ensures var r := Escapes(st, true);
            && r.status.Waiting? && r.pos == st.pos && r.inQuote == st.inQuote && r.ignoring == st.ignoring
            && Escapes(Resumed(r), true) == Escapes(st, true) && Escapes(Resumed(r), false) == Escapes(st, false)
  {}

  lemma InQuoteCut(text: string, e: nat, st: State)
    requires st.pos < e <= |text| && st.status.Running?
    ensures var r := InQuote(text[..e], st);
            if r.status.Waiting? then r.pos == st.pos && InQuote(text, Resumed(r)) == InQuote(text, st)
            else r == InQuote(text, st)
    ensures var r := InQuote(text[..e], st);
            r.status.Waiting? ==> text[st.pos] != '\n' && r.inQuote == st.inQuote && r.ignoring == st.ignoring
  {
    assert !QuoteCloses(st).status.Waiting?;
    EscapeAgain(st);
    AdvanceNeverWaits(st, 1);
    hide QuoteCloses, Escapes, Advance, Resumed;
  }

  lemma CommentCut(text: string, e: nat, st: State)
    requires st.pos < e <= |text| && st.status.Running?
    ensures var r := InComment(text[..e], st);
            if r.status.Waiting? then Resumed(r) == st else r == InComment(text, st)
  {
    hide Advance;
    AdvanceNeverWaits(st, 1);
    AdvanceNeverWaits(st.(mlComment := false, ignoring := false), 2);
  }

  lemma AdvanceNeverWaits(st: State, n: nat)
    ensures st.status.Running? ==> Advance(st, n).status.Running?
  {}

  lemma SlashCut(text: string, e: nat, st: State)
    requires st.pos < e <= |text| && st.status.Running?
    ensures var r := AtSlash(text[..e], st);
            if r.status.Waiting? then Resumed(r) == st else r == AtSlash(text, st)
  {
    hide OpenComment, AtQuote, AtPlain, AtBlank;
    StringsNeverWait(st);
  }

  /** A step on the text read so far is the step on the whole text, unless it has to wait for
      the next character; then it changes nothing that the same step will not do again. */
  lemma StepCut(text: string, e: nat, st: State, ask: Listener)
    requires st.pos < e <= |text| && Sane(st) && st.status.Running?
    ensures var r := Step(text[..e], st, ask);
            if r.status.Waiting? then r.pos == st.pos && Step(text, Resumed(r), ask) == Step(text, st, ask)
            else r == Step(text, st, ask)
  {
    hide AtNewline, AtOpenBrace, AtCloseBrace, AtQuote, AtPlain, AtBlank, OpenComment, InQuote, InComment, AtSlash,
         Sane;
    NewlineCut(text, e, st, ask);
    BracesCut(text, e, st, ask);
    InQuoteCut(text, e, st);
    CommentCut(text, e, st);
    SlashCut(text, e, st);
    NewlineNeverWaits(text, st, ask);
    BracesNeverWait(text, st, ask);
    StringsNeverWait(st);
    assert text[..e][st.pos] == text[st.pos];
  }

  lemma {:induction false} LoopCut(text: string, e: nat, st: State, ask: Listener)
    requires e <= |text| && (st.status.Running? ==> Sane(st))
    ensures Loop(text, Resumed(Loop(text[..e], st, ask)), ask) == Loop(text, Resumed(st), ask)
    decreases e - st.pos
  {
    hide Step, Sane;
    if st.status.Running? && st.pos < e {
      StepCut(text, e, st, ask);
      StepAdvances(text[..e], st, ask);
      StepKeepsSane(text[..e], st, ask);
      var next := Step(text[..e], st, ask);
      if next.status.Running? { LoopCut(text, e, next, ask); }
    }
  }

  // ----- what has to be kept

  /** Where the characters still needed begin: the oldest staged string, or the current line. */
  function Anchor(st: State): (a: int) {
    var low := LowString(st.staged);
    if low == NULL || low > st.lineBegin then st.lineBegin else low
  }

  /** Nothing before `a` is needed any more. */
  predicate Needs(st: State, a: int) {
    && a <= st.lineBegin && a <= st.pos
    && (st.staged.first.ptr != NULL ==> a <= st.staged.first.ptr)
    && (st.staged.second.ptr != NULL ==> a <= st.staged.second.ptr)
    && (st.staged.third.ptr != NULL ==> a <= st.staged.third.ptr)
  }

  /** The oldest staged string, as `lowstring` finds it, is the least pointer in use. */
  lemma LowStringIsLeast(st: State, a: int)
    requires Sane(st)
    ensures Anchor(st) >= a <==> Needs(st, a)
    ensures 0 <= Anchor(st) <= st.pos
  {}

  lemma CloseFirstNeeds(st: State, err: Error, a: int)
    requires Needs(st, a)
    ensures Needs(CloseFirst(st, err), a)
  {}

  lemma LineNeeds(text: string, st: State, s1: State, a: int, ask: Listener)
    requires Needs(s1, a) && s1.pos == st.pos
    ensures Needs(LineTold(st, s1, ask), a) && Needs(LineEnds(st, LineTold(st, s1, ask), text, ask), a)
  {
    hide TokenText;
  }

  lemma NewlineNeeds(text: string, st: State, a: int, ask: Listener)
    requires st.status.Running? && Needs(st, a)
    ensures Needs(AtNewline(text, st, ask), a)
  {
    hide AtNewline, LineTold, LineEnds, Needs;
    NewlineIs(text, st, ask);
    CloseFirstNeeds(st, InvalidTokens, a);
    LineNeeds(text, st, CloseFirst(st, InvalidTokens), a, ask);
  }

  lemma RotateNeeds(st: State, a: int)
    requires Needs(st, a)
    ensures Needs(st.(staged := Rotate(st.staged).1), a) && Needs(st.(staged := st.staged), a)
  {}

  lemma EnterNeeds(text: string, st: State, a: int, ask: Listener)
    requires Needs(st, a)
    ensures Needs(EnterSection(text, st, ask), a)
  {
    hide TokenText;
  }

  lemma OpenBraceNeeds(text: string, st: State, a: int, ask: Listener)
    requires st.status.Running? && Needs(st, a)
    ensures Needs(AtOpenBrace(text, st, ask), a)
  {
    hide EnterSection, Rotate;
    var (ok, g) := if st.staged.first.ptr == NULL then (true, st.staged) else Rotate(st.staged);
    RotateNeeds(st, a);
    EnterNeeds(text, st.(staged := g), a, ask);
  }

  lemma LeaveNeeds(st: State, a: int, ask: Listener)
    requires st.status.Running? && Needs(st, a) && st.level > 0
    ensures Needs(LeaveSection(st, ask), a)
  {}

  lemma CloseBraceNeeds(text: string, st: State, a: int, ask: Listener)
    requires st.status.Running? && Needs(st, a)
    ensures Needs(AtCloseBrace(text, st, ask), a)
  {
    var g := Rotate(st.staged).1;
    assert Needs(st.(staged := g), a);
    var d := DeliverPair(text, st.(staged := g), ask);
    assert Needs(d, a);
    if d.status.Running? { LeaveNeeds(d, a, ask); }
    if st.level > 0 { LeaveNeeds(st, a, ask); }
    hide TokenText, DeliverPair, LeaveSection, Needs, Rotate;
  }

  lemma InQuoteNeeds(text: string, st: State, a: int)
    requires st.pos < |text| && st.status.Running? && Needs(st, a)
    ensures Needs(InQuote(text, st), a)
  {}

  lemma InCommentNeeds(text: string, st: State, a: int)
    requires st.pos < |text| && st.status.Running? && Needs(st, a)
    ensures Needs(InComment(text, st), a)
  {}

  lemma OpenCommentNeeds(st: State, multiline: bool, a: int)
    requires st.status.Running? && Needs(st, a)
    ensures Needs(OpenComment(st, multiline), a)
  {}

  lemma SlashNeeds(text: string, st: State, a: int)
    requires st.pos < |text| && st.status.Running? && Needs(st, a)
    ensures Needs(AtSlash(text, st), a)
  {
    OpenCommentNeeds(st, true, a);
    OpenCommentNeeds(st, false, a);
    hide OpenComment;
  }

  lemma StringNeeds(st: State, a: int)
    requires st.status.Running? && Needs(st, a)
    ensures Needs(AtPlain(st), a)
    ensures Needs(AtBlank(st), a)
  {}

  lemma QuoteNeeds(st: State, a: int)
    requires st.status.Running? && Needs(st, a)
    ensures Needs(AtQuote(st), a)
  {}

  lemma StepNeeds(text: string, st: State, a: int, ask: Listener)
    requires st.pos < |text| && st.status.Running? && Needs(st, a)
    ensures Needs(Step(text, st, ask), a)
  {
    hide AtNewline, AtOpenBrace, AtCloseBrace, InQuote, InComment, AtSlash, OpenComment, AtQuote, AtPlain, AtBlank,
         Needs;
    NewlineNeeds(text, st, a, ask);
    OpenBraceNeeds(text, st, a, ask);
    CloseBraceNeeds(text, st, a, ask);
    InQuoteNeeds(text, st, a);
    InCommentNeeds(text, st, a);
    OpenCommentNeeds(st, false, a);
    SlashNeeds(text, st, a);
    StringNeeds(st, a);
    QuoteNeeds(st, a);
  }

  /** What a loop keeps: the state stays sane, and nothing given up is needed again. */
  lemma {:induction false} LoopNeeds(text: string, st: State, a: int, ask: Listener)
    requires (st.status.Running? ==> Sane(st)) && Needs(st, a)
    ensures var r := Loop(text, st, ask); Needs(r, a) && (!r.status.Failed? && !st.status.Waiting? ==> Sane(r))
    decreases |text| - st.pos
  {
    hide Step, Sane, Needs;
    if st.status.Running? && st.pos < |text| {
      StepNeeds(text, st, a, ask);
      StepAdvances(text, st, ask);
      StepKeepsSane(text, st, ask);
      var next := Step(text, st, ask);
      if next.status.Running? { LoopNeeds(text, next, a, ask); }
    }
  }

  // ----- loads

  /** The state once the first `e` characters have been read and handled as far as they can be. */
  function Read(text: string, e: nat, ask: Listener): State
    requires e <= |text|
  {
    Resumed(Loop(text[..e], INITIAL, ask))
  }

  lemma ReadIsSane(text: string, e: nat, ask: Listener)
    requires e <= |text|
    ensures var r := Read(text, e, ask); !r.status.Waiting? && (!r.status.Failed? ==> Sane(r)) && Needs(r, 0)
  {
    LoopNeeds(text[..e], INITIAL, 0, ask);
    hide Loop;
  }

  /** Reading `e` characters and then on is reading all of them. */
  lemma ReadOn(text: string, e: nat, e2: nat, ask: Listener)
    requires e <= e2 <= |text|
    ensures Loop(text[..e2], Read(text, e, ask), ask) == Loop(text[..e2], INITIAL, ask)
  {
    assert text[..e2][..e] == text[..e];
    LoopCut(text[..e2], e, INITIAL, ask);
  }

  lemma ReadNeeds(text: string, e: nat, e2: nat, a: int, ask: Listener)
    requires e <= e2 <= |text| && Needs(Read(text, e, ask), a)
    ensures Needs(Read(text, e2, ask), a)
  {
    ReadOn(text, e, e2, ask);
    ReadIsSane(text, e, ask);
    LoopNeeds(text[..e2], Read(text, e, ask), a, ask);
    hide Loop;
  }

  /** The buffer holds the characters `base..e`, and `st` is the parse so far as seen from it. */
  ghost predicate Loaded(text: string, base: nat, e: nat, st: State, ask: Listener) {
    && base <= e <= |text|
    && st.status.Running? && Sane(st) && Nested(st) && st.pos <= e - base
    && Lifted(st, base) == Read(text, e, ask)
  }

  lemma FirstLoad(text: string, ask: Listener)
    ensures Loaded(text, 0, 0, INITIAL, ask)
  {
    InitiallyNested();
    assert Loop(text[..0], INITIAL, ask) == INITIAL;
  }

  lemma LoadLifts(text: string, base: nat, e: nat, e2: nat, st: State, ask: Listener)
    requires Loaded(text, base, e, st, ask) && e <= e2 <= |text|
    ensures Lifted(Loop(text[base..e2], st, ask), base) == Loop(text[..e2], INITIAL, ask)
  {
    hide Loop, Sane, Nested, LiftedStaging;
    ReadOn(text, e, e2, ask);
    LoopLifts(text[..e2], base, st, ask);
    assert text[..e2][base..] == text[base..e2];
  }

  lemma LoopStaysInside(text: string, st: State, ask: Listener)
    requires st.pos <= |text| && (st.status.Running? ==> Sane(st)) && !st.status.Waiting?
    ensures var r := Loop(text, st, ask); r.pos <= |text| && (!r.status.Failed? ==> Sane(r))
    decreases |text| - st.pos
  {
    hide Step, Sane;
    if st.status.Running? && st.pos < |text| {
      StepAdvances(text, st, ask);
      StepKeepsSane(text, st, ask);
      var next := Step(text, st, ask);
      if next.status.Running? { LoopStaysInside(text, next, ask); }
    }
  }

  /** Running the loop on the buffer brings the parse up to everything that has been read. */
  lemma NextLoad(text: string, base: nat, e: nat, e2: nat, st: State, ask: Listener)
    requires Loaded(text, base, e, st, ask) && e <= e2 <= |text|
    ensures var r := Loop(text[base..e2], st, ask); !r.status.Failed? ==> Loaded(text, base, e2, Resumed(r), ask)
  {
    LoadLifts(text, base, e, e2, st, ask);
    LoopStaysInside(text[base..e2], st, ask);
    LoopKeepsNested(text[base..e2], st, ask);
    hide Loop, LiftedStaging, Depth, OpenTrace, TokenSane;
  }

  lemma FinishLifts(st: State, base: nat)
    requires st.status.Failed? || Sane(st)
    ensures Finish(Lifted(st, base)) == Finish(st)
  {}

  /** A failure on the buffer is the failure of the whole parse, however much is still unread. */
  lemma FailedLoad(text: string, base: nat, e: nat, e2: nat, st: State, ask: Listener)
    requires Loaded(text, base, e, st, ask) && e <= e2 <= |text|
    requires Loop(text[base..e2], st, ask).status.Failed?
    ensures Finish(Loop(text[base..e2], st, ask)) == Parse(text, ask) == Finish(Read(text, e2, ask))
    ensures Nested(Loop(text[base..e2], st, ask))
    ensures forall k :: e2 <= k <= |text| ==> Read(text, k, ask).status.Failed?
  {
    LoadLifts(text, base, e, e2, st, ask);
    var r := Loop(text[base..e2], st, ask);
    LoopKeepsNested(text[base..e2], st, ask);
    FinishLifts(r, base);
    forall k | e2 <= k <= |text| ensures Loop(text[..k], INITIAL, ask) == Lifted(r, base) {
      ReadOn(text, e2, k, ask);
    }
    assert text[..|text|] == text;
  }

  /** At the end of the input the parse is the parse of the whole text. */
  lemma LastLoad(text: string, base: nat, st: State, ask: Listener)
    requires Loaded(text, base, |text|, st, ask)
    ensures Finish(st) == Parse(text, ask)
  {
    assert text[..|text|] == text;
    FinishLifts(st, base);
    hide Loop;
  }

  /** The same state once the first `bytes` characters of the buffer are gone. */
  function Moved(st: State, bytes: nat): State
    requires bytes <= st.pos && bytes <= st.lineBegin
  {
    st.(pos := st.pos - bytes, lineBegin := st.lineBegin - bytes, staged := RelocatedAll(st.staged, bytes))
  }

  /** Giving up what comes before the anchor, and relocating every pointer, loses nothing. */
  lemma MovedLoad(text: string, base: nat, e: nat, st: State, ask: Listener)
    requires Loaded(text, base, e, st, ask)
    ensures 0 <= Anchor(st) <= st.pos && Anchor(st) <= st.lineBegin
    ensures var bytes := Anchor(st);
            Loaded(text, base + bytes, e, Moved(st, bytes), ask) && Anchor(Moved(st, bytes)) == 0
  {
    LowStringIsLeast(st, Anchor(st));
    MovedSane(st);
    hide Loop, Read, Depth;
  }

  lemma MovedSane(st: State)
    requires Sane(st)
    requires 0 <= Anchor(st) <= st.pos && Needs(st, Anchor(st))
    ensures var m := Moved(st, Anchor(st)); Sane(m) && Anchor(m) == 0 && forall base: nat ::
              Lifted(m, base + Anchor(st)) == Lifted(st, base)
  {}
}
