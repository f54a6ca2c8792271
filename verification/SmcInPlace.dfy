/**
 The parse in the buffer it writes to: the strings handed to the listener are terminated, and their
 escapes resolved, where they stand.

 What is written lies before everything a later step looks at, so the buffer only has to agree with
 the text from the oldest staged string on.
 */
module SmcInPlace {
  import opened SmcTokens
  import opened SmcParser
  import opened SmcStream

  /** The first character that a later step may look at. */
  function LiveFrom(st: State): int {
    if LowString(st.staged) == NULL then st.pos else LowString(st.staged)
  }

  /** The buffer agrees with the text as far as that matters. */
  ghost predicate Agree(a: string, b: string, st: State) {
    |a| == |b| && forall k :: 0 <= LiveFrom(st) <= k < |a| ==> a[k] == b[k]
  }

  /** One staged string ends before the next begins, and only a string with an end, or in a quote, has escapes. */
  predicate Spaced(st: State) {
    && Follows(st.staged.third, st.staged.second) && Follows(st.staged.second, st.staged.first)
    && (st.staged.first.special ==> st.inQuote)
    && (st.staged.second.special ==> st.staged.second.end != NULL)
    && (st.staged.third.special ==> st.staged.third.end != NULL)
  }

  predicate Follows(t: Token, u: Token) {
    t.end != NULL && u.ptr != NULL ==> t.end <= u.ptr
  }

  // ----- a step on a buffer that agrees

  lemma TextAgrees(a: string, b: string, st: State, t: Token)
    requires Sane(st) && Agree(a, b, st) && (t.ptr == NULL ==> t == EMPTY) && (t.ptr != NULL ==> LiveFrom(st) <= t.ptr)
    ensures TokenText(a, t) == TokenText(b, t)
  {
    var start := if t.quoted then t.ptr + 1 else t.ptr;
    if 0 <= start <= t.end <= |a| && t.ptr != NULL {
      assert a[start..t.end] == b[start..t.end];
    }
  }

  /** The staged strings, and the one being read with an end, are all live. */
  lemma StagedAgree(a: string, b: string, st: State, g: Staging)
    requires Sane(st) && st.status.Running? && Agree(a, b, st)
    requires g == st.staged || g == Rotate(st.staged).1 || g == CloseFirst(st, InvalidTokens).staged
    ensures PairOf(a, g) == PairOf(b, g) && TokenText(a, g.second) == TokenText(b, g.second)
  {
    hide TokenText, Agree, StartOf;
    TextAgrees(a, b, st, g.second);
    TextAgrees(a, b, st, g.third);
  }

  lemma NewlineAgrees(a: string, b: string, st: State, ask: Listener)
    requires Sane(st) && st.status.Running? && st.pos < |a| && Agree(a, b, st)
    ensures AtNewline(a, st, ask) == AtNewline(b, st, ask)
  {
    StagedAgree(a, b, st, CloseFirst(st, InvalidTokens).staged);
    hide PairOf, CloseFirst, Agree, Sane;
  }

  lemma BracesAgree(a: string, b: string, st: State, ask: Listener)
    requires Sane(st) && st.status.Running? && st.pos < |a| && Agree(a, b, st)
    ensures AtOpenBrace(a, st, ask) == AtOpenBrace(b, st, ask)
    ensures AtCloseBrace(a, st, ask) == AtCloseBrace(b, st, ask)
  {
    hide PairOf, Agree, Sane, LeaveSection, TokenText;
    StagedAgree(a, b, st, st.staged);
    StagedAgree(a, b, st, Rotate(st.staged).1);
  }

  lemma IgnoredAgree(a: string, b: string, st: State)
    requires Sane(st) && st.status.Running? && st.pos < |a| && Agree(a, b, st)
    ensures st.inQuote ==> InQuote(a, st) == InQuote(b, st)
    ensures InComment(a, st) == InComment(b, st)
    ensures AtSlash(a, st) == AtSlash(b, st)
    ensures a[st.pos] == b[st.pos]
  {
    hide QuoteCloses, Escapes, OpenComment, Advance;
  }

  lemma StepAgrees(a: string, b: string, st: State, ask: Listener)
    requires Sane(st) && st.status.Running? && st.pos < |a| && Agree(a, b, st)
    ensures |a| == |b| && Step(a, st, ask) == Step(b, st, ask)
  {
    hide AtNewline, AtOpenBrace, AtCloseBrace, InQuote, InComment, AtSlash, OpenComment, AtQuote, AtPlain, AtBlank,
         Sane;
    NewlineAgrees(a, b, st, ask);
    BracesAgree(a, b, st, ask);
    IgnoredAgree(a, b, st);
  }

  // ----- what a step leaves staged

  /** Unless it fails, a step keeps the strings apart, and nothing becomes live again. */
  predicate Onward(st: State, r: State) {
    !r.status.Failed? ==> Spaced(r) && LiveFrom(r) >= LiveFrom(st)
  }

  lemma CloseFirstOnward(st: State, err: Error)
    requires Sane(st) && st.status.Running? && Spaced(st)
    ensures var r := CloseFirst(st, err);
            && r == st.(staged := r.staged, status := r.status) && !r.status.Waiting?
            && (r.status.Running? ==> LiveFrom(r) >= LiveFrom(st) && r.staged.first == EMPTY && Spaced(r)
                                      && Spaced(r.(inQuote := false)))
  {}

  lemma NewlineOnward(text: string, st: State, ask: Listener)
    requires Sane(st) && st.status.Running? && Spaced(st)
    ensures Onward(st, AtNewline(text, st, ask))
  {
    CloseFirstOnward(st, InvalidTokens);
    hide PairOf, CloseFirst, Sane;
  }

  lemma BracesOnward(text: string, st: State, ask: Listener)
    requires Sane(st) && st.status.Running? && Spaced(st) && !st.ignoring
    ensures Onward(st, AtOpenBrace(text, st, ask))
    ensures Onward(st, AtCloseBrace(text, st, ask))
  {
    hide PairOf, TokenText;
  }

  lemma QuoteOnward(text: string, st: State)
    requires Sane(st) && st.status.Running? && Spaced(st) && st.pos < |text|
    ensures st.inQuote ==> Onward(st, InQuote(text, st))
    ensures !st.inQuote && st.ignoring ==> Onward(st, InComment(text, st))
  {}

  lemma StringsOnward(text: string, st: State)
    requires Sane(st) && st.status.Running? && Spaced(st) && !st.ignoring && st.pos < |text|
    ensures Onward(st, AtQuote(st)) && Onward(st, AtPlain(st)) && Onward(st, AtBlank(st))
  {
    CloseFirstOnward(st, InvalidTokens);
    hide CloseFirst;
  }

  lemma CommentOnward(text: string, st: State)
    requires Sane(st) && st.status.Running? && Spaced(st) && !st.ignoring && st.pos < |text|
    ensures Onward(st, OpenComment(st, false)) && Onward(st, OpenComment(st, true)) && Onward(st, AtSlash(text, st))
  {
    CloseFirstComment(st, false);
    CloseFirstComment(st, true);
    hide CloseFirst, Sane;
  }

  lemma CloseFirstComment(st: State, multiline: bool)
    requires Sane(st) && st.status.Running? && Spaced(st)
    ensures var s := if multiline then st.(ignoring := true, mlComment := true)
                     else st.(ignoring := true, eolComment := true);
            var r := CloseFirst(s, InvalidTokens);
            && r == s.(staged := r.staged, status := r.status)
            && (r.status.Running? ==> LiveFrom(r) >= LiveFrom(st) && Spaced(r))
  {}

  lemma StepOnward(text: string, st: State, ask: Listener)
    requires Sane(st) && st.status.Running? && Spaced(st) && st.pos < |text|
    ensures Onward(st, Step(text, st, ask))
  {
    hide AtNewline, AtOpenBrace, AtCloseBrace, InQuote, InComment, AtSlash, OpenComment, AtQuote, AtPlain, AtBlank,
         Sane, Spaced, Onward;
    NewlineOnward(text, st, ask);
    QuoteOnward(text, st);
    if !st.ignoring {
      BracesOnward(text, st, ask);
      StringsOnward(text, st);
      CommentOnward(text, st);
    }
  }

  // ----- what a step hands out

  /** The strings that are handed out, if any are: they have been rotated first. */
  function Closed(c: char, st: State): Staging {
    if c == '\n' then CloseFirst(st, InvalidTokens).staged
    else if st.staged.first.ptr == NULL then st.staged
    else Rotate(st.staged).1
  }

  predicate TellsPair(st: State, next: State) {
    exists i :: |st.trace| <= i < |next.trace| && next.trace[i].KeyValue?
  }

  predicate TellsSection(st: State, next: State) {
    exists i :: |st.trace| <= i < |next.trace| && next.trace[i].NewSection?
  }

  /** What is told of strings is told of those, and then nothing is staged any more. */
  predicate Hands(text: string, c: char, st: State, r: State) {
    && st.trace <= r.trace
    && (TellsPair(st, r) || TellsSection(st, r) ==>
          r.status.Failed? || (r.status.Running? && r.staged == NOTHING_STAGED))
    && (TellsPair(st, r) ==> Closed(c, st).third.ptr != NULL)
    && (TellsSection(st, r) ==> Closed(c, st).second.ptr != NULL && !TellsPair(st, r))
    && forall i :: |st.trace| <= i < |r.trace| ==>
         && (r.trace[i].KeyValue? ==> r.trace[i] == PairOf(text, Closed(c, st)))
         && (r.trace[i].NewSection? ==> r.trace[i] == NewSection(TokenText(text, Closed(c, st).second)))
  }

  /** From what is told at once to what is handed out. */
  lemma HandsTold(text: string, c: char, st: State, r: State, told: seq<Event>)
    requires r.trace == st.trace + told
    requires forall i :: 0 <= i < |told| ==>
               && (told[i].KeyValue? ==> told[i] == PairOf(text, Closed(c, st)) && Closed(c, st).third.ptr != NULL)
               && (told[i].NewSection? ==> told == [NewSection(TokenText(text, Closed(c, st).second))]
                                           && Closed(c, st).second.ptr != NULL)
               && (told[i].KeyValue? || told[i].NewSection? ==>
                     r.status.Failed? || (r.status.Running? && r.staged == NOTHING_STAGED))
    ensures Hands(text, c, st, r)
  {
    hide Closed, PairOf, TokenText;
    assert forall i :: |st.trace| <= i < |r.trace| ==> r.trace[i] == told[i - |st.trace|];
  }

  lemma PairTells(text: string, st: State, ask: Listener)
    ensures var r := DeliverPair(text, st, ask);
            && r.trace == st.trace + (if st.level == 0 then [] else [PairOf(text, st.staged)])
            && r.staged == st.staged && !r.status.Waiting?
  {
    hide PairOf;
  }

  lemma NewlineHands(text: string, st: State, ask: Listener)
    requires Sane(st) && st.status.Running?
    ensures Hands(text, '\n', st, AtNewline(text, st, ask))
  {
    hide TokenText, PairOf, CloseFirst, Sane, Hands, DeliverPair;
    CloseFirstStages(st, InvalidTokens);
    var s1 := CloseFirst(st, InvalidTokens);
    var s2 := s1.(eolComment := false, inQuote := false, ignoring := st.ignoring && st.mlComment);
    var s3 := Deliver(s2, RawLine, ask);
    PairTells(text, s3, ask);
    var r := AtNewline(text, st, ask);
    var pair := if s3.level == 0 then [] else [PairOf(text, s3.staged)];
    assert st.trace + [RawLine] + pair == st.trace + ([RawLine] + pair);
    HandsTold(text, '\n', st, r, if !s1.status.Running? then []
                                 else if s3.status.Running? && s3.staged.third.ptr != NULL then [RawLine] + pair
                                 else [RawLine]);
  }

  lemma OpenBraceHands(text: string, st: State, ask: Listener)
    requires Sane(st) && st.status.Running?
    ensures Hands(text, '{', st, AtOpenBrace(text, st, ask))
  {
    hide TokenText, PairOf, Hands;
    var r := AtOpenBrace(text, st, ask);
    var g := Closed('{', st);
    HandsTold(text, '{', st, r, if r.trace == st.trace then [] else [NewSection(TokenText(text, g.second))]);
  }

  lemma CloseBraceHands(text: string, st: State, ask: Listener)
    requires Sane(st) && st.status.Running?
    ensures Hands(text, '}', st, AtCloseBrace(text, st, ask))
  {
    hide TokenText, PairOf, Hands, DeliverPair, LeaveSection, Sane;
    var (ok, g) := Rotate(st.staged);
    var s0 := st.(staged := g);
    var s1 := DeliverPair(text, s0, ask);
    PairTells(text, s0, ask);
    PairStands(text, s0, ask);
    if st.level > 0 {
      LeaveTells(s1, ask);
      LeaveTells(st, ask);
    }
    var r := AtCloseBrace(text, st, ask);
    var pair := if st.level == 0 then [] else [PairOf(text, g)];
    assert st.trace + pair + [LeavingSection] == st.trace + (pair + [LeavingSection]);
    HandsTold(text, '}', st, r,
              if !ok then []
              else if g.third.ptr != NULL then (if s1.status.Running? then pair + [LeavingSection] else pair)
              else if g.second.ptr != NULL || st.level == 0 then []
              else [LeavingSection]);
  }

  lemma LeaveTells(st: State, ask: Listener)
    requires st.level > 0
    ensures var r := LeaveSection(st, ask);
            r.trace == st.trace + [LeavingSection] && r.staged == NOTHING_STAGED && !r.status.Waiting?
  {}

  lemma StepHands(text: string, st: State, ask: Listener)
    requires Sane(st) && st.status.Running? && st.pos < |text|
    ensures Hands(text, text[st.pos], st, Step(text, st, ask))
    ensures TellsPair(st, Step(text, st, ask)) || TellsSection(st, Step(text, st, ask)) ==>
              text[st.pos] in "\n{}" && (text[st.pos] == '\n' || !st.ignoring)
  {
    hide AtNewline, AtOpenBrace, AtCloseBrace, InQuote, InComment, AtSlash, OpenComment, AtQuote, AtPlain, AtBlank,
         Sane, TokenText, PairOf, Closed;
    NewlineHands(text, st, ask);
    OpenBraceHands(text, st, ask);
    CloseBraceHands(text, st, ask);
    IgnoringIsSilent(text, st);
    CommentIsSilent(text, st, false);
    SlashIsSilent(text, st);
    StringIsSilent(text, st);
    BlankIsSilent(text, st);
  }

  // ----- the writes

  /** The C string at `start` is the text. What an unterminated one goes on with is not modelled. */
  ghost predicate StandsAt(mem: seq<char>, start: int, t: Text) {
    t.Text? ==>
      && 0 <= start && start + |t.chars| < |mem|
      && mem[start..start + |t.chars|] == t.chars && mem[start + |t.chars|] == '\0'
  }

  /** A string that can be handed out when the character at `pos` is handled. */
  predicate Ready(t: Token, pos: nat) {
    t.ptr != NULL && TokenSane(t, pos) && (t.special ==> t.end != NULL)
  }

  lemma TextStarts(mem: string, t: Token, start: nat)
    requires t.ptr != NULL && start == StartOf(t) < t.end < |mem| && mem[start] == '\0'
    ensures var s := TokenText(mem, t); s.Text? && (s.chars != "" ==> s.chars[0] == '\0')
  {}

  lemma SameText(mem: string, now: string, t: Token)
    requires |mem| == |now| && t.end != NULL && 0 <= StartOf(t) <= t.end <= |mem| && t.ptr != NULL
    requires forall k :: StartOf(t) <= k < t.end ==> now[k] == mem[k]
    ensures TokenText(now, t) == TokenText(mem, t)
  {
    assert now[StartOf(t)..t.end] == mem[StartOf(t)..t.end];
  }

  /** What `FixupString` does to memory. */
  ghost predicate Fixed(was: string, now: string, t: Token) {
    && |now| == |was| && StandsAt(now, StartOf(t), TokenText(was, t))
    && (t.end == NULL ==> now == was)
    && (0 <= t.end < |now| ==> now[t.end] == '\0')
    && (TokenText(was, t).Text? ==> StartOf(t) + |TokenText(was, t).chars| <= t.end)
    && forall k :: 0 <= k < |now| && !(StartOf(t) <= k <= t.end) ==> now[k] == was[k]
  }

  method Fixup(buf: array<char>, t: Token, pos: nat)
    requires pos < buf.Length && Ready(t, pos)
    modifies buf
    ensures Fixed(old(buf[..]), buf[..], t)
    ensures forall k :: pos < k < buf.Length ==> buf[k] == old(buf[k])
  {
    if t.end == NULL { NoEnd(buf[..], t); }
    hide TokenText;
    var start := FixupString(buf, t);
  }

  lemma EndedText(mem: string, t: Token)
    requires t.ptr != NULL && 0 <= StartOf(t) <= t.end <= |mem|
    ensures TokenText(mem, t).Text? && (StartOf(t) == t.end ==> TokenText(mem, t).chars == "")
  {}

  /** A string that starts with a NUL still does when it is terminated. */
  lemma StartStays(mid: string, now: string, t: Token)
    requires t.ptr != NULL && 0 <= StartOf(t) <= t.end < |mid| && Fixed(mid, now, t) && mid[StartOf(t)] == '\0'
    ensures now[StartOf(t)] == '\0'
  {
    EndedText(mid, t);
    if StartOf(t) < t.end { TextStarts(mid, t, StartOf(t)); }
    hide TokenText;
    var s := TokenText(mid, t).chars;
    if s != "" { assert now[StartOf(t)..StartOf(t) + |s|][0] == now[StartOf(t)]; }
  }

  lemma StandsStill(mid: string, now: string, start: nat, t: Text)
    requires StandsAt(mid, start, t) && t.Text? && |now| == |mid| && now[start + |t.chars|] == '\0'
    requires forall k :: start <= k < start + |t.chars| ==> now[k] == mid[k]
    ensures StandsAt(now, start, t)
  {
    assert now[start..start + |t.chars|] == mid[start..start + |t.chars|];
  }

  /** A key stays as it is when its value is terminated behind it. */
  lemma KeyStands(was: string, mid: string, now: string, key: Token, value: Token, pos: nat)
    requires Ready(key, pos) && Ready(value, pos) && Follows(key, value) && pos < |was|
    requires Fixed(was, mid, key) && Fixed(mid, now, value)
    ensures StandsAt(now, StartOf(key), TokenText(was, key))
  {
    hide TokenText, StandsAt;
    if key.end == NULL {
      NoEnd(was, key);
      StandsNowhere(now, StartOf(key));
    } else if value.end != NULL {
      EndedText(was, key);
      if key.end == StartOf(value) { StartStays(mid, now, value); }
      KeyKept(mid, now, StartOf(key), key.end, StartOf(value), TokenText(was, key));
    }
  }

  lemma StandsNowhere(mem: seq<char>, start: int)
    ensures StandsAt(mem, start, Unterminated)
  {}

  lemma KeyKept(mid: string, now: string, start: nat, end: nat, next: nat, t: Text)
    requires StandsAt(mid, start, t) && t.Text? && start + |t.chars| <= end <= next < |mid| == |now|
    requires (forall k :: start <= k < next ==> now[k] == mid[k]) && (end == next ==> now[next] == '\0')
    ensures StandsAt(now, start, t)
  {
    StandsStill(mid, now, start, t);
  }

  /** The value is what it was, or is cut off where its key ends. */
  lemma ValueStands(was: string, mid: string, now: string, key: Token, value: Token, pos: nat)
    requires Ready(key, pos) && Ready(value, pos) && Follows(key, value) && pos < |was|
    requires Fixed(was, mid, key) && Fixed(mid, now, value)
    ensures StandsAt(now, StartOf(value), ValueText(was, key, value))
  {
    hide TokenText;
    if value.end == NULL {
      NoEnd(was, value);
    } else if key.end == NULL || key.end < StartOf(value) {
      SameText(was, mid, value);
    } else {
      StartStays(mid, now, value);
    }
  }

  /** Both strings of a pair, terminated one after the other: then each is what the listener is told. */
  method FixupPair(buf: array<char>, key: Token, value: Token, pos: nat)
    requires pos < buf.Length && Ready(key, pos) && Ready(value, pos) && Follows(key, value)
    modifies buf
    ensures StandsAt(buf[..], StartOf(key), TokenText(old(buf[..]), key))
    ensures StandsAt(buf[..], StartOf(value), ValueText(old(buf[..]), key, value))
    ensures forall k :: pos < k < buf.Length ==> buf[k] == old(buf[k])
  {
    hide *;
    ghost var was := buf[..];
    Fixup(buf, key, pos);
    ghost var mid := buf[..];
    Fixup(buf, value, pos);
    KeyStands(was, mid, buf[..], key, value, pos);
    ValueStands(was, mid, buf[..], key, value, pos);
  }

  lemma NoEnd(mem: string, t: Token)
    requires t.end == NULL && (t.ptr == NULL || t.ptr >= 0)
    ensures TokenText(mem, t) == Unterminated
  {}

  /** What is handed out can be: strings with an end, or ended by the brace itself. */
  lemma ClosedReady(c: char, st: State)
    requires Sane(st) && Spaced(st) && st.status.Running? && (c == '\n' || !st.ignoring)
    ensures var g := Closed(c, st);
            && (g.second.ptr != NULL ==> Ready(g.second, st.pos)) && (g.third.ptr != NULL ==> Ready(g.third, st.pos))
            && (g.third.ptr != NULL ==> g.second.ptr != NULL && Follows(g.third, g.second))
  {}

  /** The strings that are told of are in memory, terminated, when they are. */
  ghost predicate HandedOut(was: string, now: seq<char>, c: char, st: State, r: State) {
    var g := Closed(c, st);
    forall i :: |st.trace| <= i < |r.trace| ==>
      match r.trace[i]
      case KeyValue(key, value) => StandsAt(now, StartOf(g.third), key) && StandsAt(now, StartOf(g.second), value)
      case NewSection(name) => StandsAt(now, StartOf(g.second), name)
      case _ => true
  }

  /** The character at `st.pos`, handled with its writes. None of them is at a place that matters later. */
  method StepInPlace(buf: array<char>, limit: nat, st: State, ask: Listener) returns (next: State)
    requires st.pos < limit < buf.Length && st.status.Running? && Sane(st) && Spaced(st)
    modifies buf
    ensures next == Step(old(buf[..limit]), st, ask)
    ensures HandedOut(old(buf[..limit]), buf[..], old(buf[st.pos]), st, next)
    ensures !next.status.Failed? ==> forall k :: 0 <= LiveFrom(next) <= k < buf.Length ==> buf[k] == old(buf[k])
    ensures forall k :: limit <= k < buf.Length ==> buf[k] == old(buf[k])
  {
    hide Step, Sane, Spaced, TokenText, ValueText, Closed, Ready, Follows, StandsAt;
    ghost var was := buf[..limit];
    var c := buf[st.pos];
    next := Step(buf[..limit], st, ask);
    StepHands(was, st, ask);
    StepAdvances(was, st, ask);
    var g := Closed(c, st);
    if TellsPair(st, next) {
      ClosedReady(c, st);
      WholeTexts(buf[..], limit, g, st.pos);
      FixupPair(buf, g.third, g.second, st.pos);
    } else if TellsSection(st, next) {
      ClosedReady(c, st);
      WholeTexts(buf[..], limit, g, st.pos);
      Fixup(buf, g.second, st.pos);
    }
  }

  /** The strings lie inside what has been loaded. */
  lemma WholeTexts(mem: string, limit: nat, g: Staging, pos: nat)
    requires pos < limit <= |mem| && Ready(g.second, pos)
    ensures TokenText(mem[..limit], g.second) == TokenText(mem, g.second)
    ensures g.third.ptr != NULL && Ready(g.third, pos) ==> PairOf(mem[..limit], g) == PairOf(mem, g)
  {
    hide TokenText;
    TextCut(mem, limit, g.second);
    if g.third.ptr != NULL && Ready(g.third, pos) { TextCut(mem, limit, g.third); }
  }
}
