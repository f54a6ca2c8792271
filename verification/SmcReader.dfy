/**
 The read loop of `ParseStream_SMC`, over the buffer it reads into, moves and writes to.
 */
module SmcReader {
  import opened SmcTokens
  import opened SmcParser
  import opened SmcTrace
  import opened SmcStream
  import opened SmcInPlace
  import opened SmcLoads

  /** How many characters a reader may deliver at its k-th call; the readers of the program
      always fill the room they are given. */
  type Reader = nat -> nat

  function Delivered(want: Reader, call: nat, room: nat, left: nat): nat {
    Least(Least(room, left), if want(call) == 0 then 1 else want(call))
  }

  ghost predicate Filling(want: Reader) {
    forall k :: want(k) >= CAPACITY
  }

  /** Copies the next `n` characters of the input into the buffer. */
  method Fill(buf: array<char>, at: nat, text: string, from: nat, n: nat)
    requires at + n <= buf.Length && from + n <= |text|
    modifies buf
    ensures buf[at..at + n] == text[from..from + n]
    ensures buf[..at] == old(buf[..at])
  {
    for i := 0 to n
      invariant buf[at..at + i] == text[from..from + i]
      invariant buf[..at] == old(buf[..at])
    {
      buf[at + i] := text[from + i];
      assert buf[at..at + i + 1] == buf[at..at + i] + [text[from + i]];
    }
  }

  /** The `memmove` of the kept characters to the front of the buffer. */
  method MoveDown(buf: array<char>, from: nat, bytes: nat)
    requires from + bytes <= buf.Length
    modifies buf
    ensures buf[..bytes] == old(buf[from..from + bytes])
  {
    for i := 0 to bytes
      invariant forall j :: 0 <= j < i ==> buf[j] == old(buf[from..from + bytes])[j]
      invariant forall k :: from + i <= k < from + bytes ==> buf[k] == old(buf[k])
    {
      buf[i] := buf[from + i];
    }
  }

  /** Moves what is still needed to the front of the buffer, and every cached pointer with it. */
  method Slide(buf: array<char>, st: State, parsePoint: nat, read: nat, reparsePoint: int)
    returns (next: State, nextParse: nat, nextReparse: int, ghost stage: nat)
    requires Sane(st) && parsePoint + read <= buf.Length && st.pos <= parsePoint + read
    requires reparsePoint == NULL || reparsePoint == st.pos
    modifies buf
    ensures stage == Anchor(st) <= st.pos && stage <= st.lineBegin
    ensures next == Moved(st, stage)
    ensures nextParse == parsePoint + read - stage
    ensures nextReparse == if reparsePoint == NULL then NULL else next.pos
    ensures buf[..nextParse] == old(buf[stage..parsePoint + read])
  {
    LowStringIsLeast(st, Anchor(st));
    var from := LowString(st.staged);
    if from == NULL || from > st.lineBegin { from := st.lineBegin; }
    stage := from;
    var bytes := read - (from - parsePoint);
    MoveDown(buf, from, bytes);
    next := Moved(st, from);
    nextReparse := if reparsePoint != NULL then reparsePoint - from else NULL;
    nextParse := parsePoint + read - from;
  }

  /** The buffer holds the characters of the text that may still be looked at. */
  ghost predicate Mirrors(window: string, part: string, st: State) {
    Agree(window, part, st) && Spaced(st)
  }

  /** The character loop over the loaded part of the buffer, with its writes: it does what it would do
      on the text itself. */
  method RunLoaded(buf: array<char>, limit: nat, start: State, ask: Listener, ghost win: string) returns (st: State)
    requires limit < buf.Length && start.status.Running? && Sane(start) && Mirrors(buf[..limit], win, start)
    modifies buf
    ensures st == Loop(win, start, ask)
    ensures !st.status.Failed? ==> Mirrors(buf[..limit], win, st)
  {
    hide Step, Sane, Agree, Spaced, Hands, HandedOut, LiveFrom;
    st := start;
    AgreeMeans(buf[..limit], win, st);
    while st.status.Running? && st.pos < limit
      invariant |win| == limit && Loop(win, st, ask) == Loop(win, start, ask)
      invariant !st.status.Failed? ==> Sane(st) && Mirrors(buf[..limit], win, st)
      decreases if st.status.Running? then limit - st.pos + 1 else 0
    {
      StepAgrees(buf[..limit], win, st, ask);
      StepAdvances(win, st, ask);
      StepKeepsSane(win, st, ask);
      StepOnward(win, st, ask);
      ghost var was, before := buf[..limit], st;
      st := StepInPlace(buf, limit, st, ask);
      if !st.status.Failed? { StillAgree(was, buf[..limit], win, before, st); }
    }
  }

  lemma AgreeMeans(a: string, b: string, st: State)
    requires Agree(a, b, st)
    ensures |a| == |b|
  {}

  /** Nothing that may be looked at after a step has been written to in it. */
  lemma StillAgree(was: string, now: string, win: string, st: State, next: State)
    requires Sane(st) && Agree(was, win, st) && |now| == |was| && LiveFrom(next) >= LiveFrom(st)
    requires forall k :: 0 <= LiveFrom(next) <= k < |now| ==> now[k] == was[k]
    ensures Agree(now, win, next)
  {}

  /** Inside a load that started with everything needed in the buffer, nothing needed is lost. */
  lemma KeptInside(text: string, base: nat, e: nat, e2: nat, st: State, ask: Listener)
    requires Loaded(text, base, e, st, ask) && e < e2 <= |text| && e2 - base < CAPACITY
    ensures forall k :: e <= k < e2 ==> Kept(text, k, ask)
  {
    forall k | e <= k < e2 ensures Kept(text, k, ask) {
      KeptAt(text, base, e, k, st, ask);
    }
  }

  lemma KeptAt(text: string, base: nat, e: nat, k: nat, st: State, ask: Listener)
    requires Loaded(text, base, e, st, ask) && e <= k <= |text| && k - base < CAPACITY - 1
    ensures Kept(text, k, ask)
  {
    LowStringIsLeast(st, 0);
    assert Needs(Lifted(st, base), base);
    ReadNeeds(text, e, k, base, ask);
    ReadIsSane(text, k, ask);
    if !Read(text, k, ask).status.Failed? { LowStringIsLeast(Read(text, k, ask), base); }
  }

  lemma FailedKept(text: string, e: nat, ask: Listener)
    requires e <= |text| && forall k :: e <= k <= |text| ==> Read(text, k, ask).status.Failed?
    ensures forall k :: e <= k <= |text| ==> Kept(text, k, ask)
  {}

  lemma LineAnchor(st: State)
    requires Sane(st) && st.lineBegin == 0
    ensures Anchor(st) == 0
  {}

  lemma OverflowIsProper(st: State)
    requires Nested(st)
    ensures Proper(Finish(Fail(st, TokenOverflow)).0, Finish(Fail(st, TokenOverflow)).1)
  {
    FinishIsProper(Fail(st, TokenOverflow));
  }

  lemma InitialAnchor()
    ensures Anchor(INITIAL) == 0 && Spaced(INITIAL)
  {}

  /** A buffer that is full of characters still needed is a place where too much is needed. */
  lemma NotKept(text: string, base: nat, st: State, ask: Listener)
    requires base + CAPACITY - 1 <= |text| && Loaded(text, base, base + CAPACITY - 1, st, ask) && Anchor(st) == 0
    ensures !Kept(text, base + CAPACITY - 1, ask)
  {
    hide Loop;
  }

  /** One load: reads `n` more characters and runs the parse over all that is in the buffer. */
  method Load(buf: array<char>, text: string, ask: Listener, taken: nat, n: nat, parsePoint: nat, reparsePoint: int,
              st: State, ghost base: nat)
    returns (next: State, nextParse: nat, read: nat, nextReparse: int)
    requires Loaded(text, base, taken, st, ask) && 0 < n <= |text| - taken
    requires parsePoint == taken - base && parsePoint + n < CAPACITY == buf.Length
    requires Mirrors(buf[..parsePoint], text[base..taken], st)
    requires st.pos == if reparsePoint == NULL then parsePoint else reparsePoint
    modifies buf
    ensures !next.status.Failed? ==> Mirrors(buf[..parsePoint + n], text[base..taken + n], next)
    ensures nextParse + read == parsePoint + n && nextParse == st.pos
    ensures forall k :: taken <= k < taken + n ==> Kept(text, k, ask)
    ensures if next.status.Failed?
            then && Ended(next) == OnePiece(text, ask) == Ended(Read(text, taken + n, ask))
                 && forall k :: taken + n <= k <= |text| ==> Read(text, k, ask).status.Failed? && Kept(text, k, ask)
            else Loaded(text, base, taken + n, next, ask)
    ensures !next.status.Failed? ==>
              (if nextReparse == NULL then next.pos == parsePoint + n else nextReparse == next.pos)
  {
    hide Step, Read, Lifted, Nested, Sane, Kept, Finish, Mirrors;
    ghost var was := buf[..parsePoint];
    Fill(buf, parsePoint, text, taken, n);
    var limit := parsePoint + n;
    MirrorsMore(was, buf[..limit], text, base, taken, n, st);
    read, nextParse := n, parsePoint;
    if reparsePoint != NULL {
      read := read + (parsePoint - reparsePoint);
      nextParse := reparsePoint;
    }
    KeptInside(text, base, taken, taken + n, st, ask);
    LoadedIsSane(text, base, taken, st, ask);
    next := RunLoaded(buf, limit, st, ask, text[base..taken + n]);
    MirrorsResumed(buf[..limit], text[base..taken + n], next);
    nextReparse := NULL;
    if next.status.Failed? {
      FailedLoad(text, base, taken, taken + n, st, ask);
      FailedKept(text, taken + n, ask);
    } else {
      NextLoad(text, base, taken, taken + n, st, ask);
      if next.status.Waiting? {
        nextReparse := next.pos;
        next := next.(status := Running);
      }
    }
  }

  lemma LoadedIsSane(text: string, base: nat, e: nat, st: State, ask: Listener)
    requires Loaded(text, base, e, st, ask)
    ensures Sane(st)
  {}

  /** What has been read behind the rest of the buffer is the text as it is. */
  lemma MirrorsMore(was: string, now: string, text: string, base: nat, taken: nat, n: nat, st: State)
    requires base <= taken <= taken + n <= |text| && Mirrors(was, text[base..taken], st)
    requires |now| == |was| + n && now[..|was|] == was && now[|was|..] == text[taken..taken + n]
    ensures Mirrors(now, text[base..taken + n], st)
  {
    var part := text[base..taken + n];
    forall k | 0 <= LiveFrom(st) <= k < |now| ensures now[k] == part[k] {
      if k < |was| { assert now[..|was|][k] == was[k]; } else { assert now[|was|..][k - |was|] == now[k]; }
    }
    hide Spaced;
  }

  lemma MirrorsResumed(window: string, part: string, st: State)
    ensures st.status.Waiting? && Mirrors(window, part, st) ==> Mirrors(window, part, st.(status := Running))
  {}

  lemma SliceBehind(text: string, base: nat, taken: nat, stage: nat)
    requires base + stage <= taken <= |text|
    ensures text[base..taken][stage..] == text[base + stage..taken]
  {}

  lemma MirrorsMoved(window: string, part: string, st: State)
    requires Sane(st) && Mirrors(window, part, st) && 0 <= Anchor(st) <= st.pos && Anchor(st) <= st.lineBegin
    requires Anchor(st) <= |window|
    ensures |part| == |window| && Mirrors(window[Anchor(st)..], part[Anchor(st)..], Moved(st, Anchor(st)))
  {
    var m := Moved(st, Anchor(st));
    assert LiveFrom(m) == LiveFrom(st) - Anchor(st);
    assert Spaced(m);
    hide Spaced, LiveFrom;
  }

  /** Slides the buffer, and with it what it holds of the text. */
  method SlideLoaded(buf: array<char>, st: State, parsePoint: nat, read: nat, reparsePoint: int,
                     ghost text: string, ghost base: nat, ghost taken: nat, ghost ask: Listener)
    returns (next: State, nextParse: nat, nextReparse: int, ghost nextBase: nat)
    requires Loaded(text, base, taken, st, ask) && parsePoint + read == taken - base <= buf.Length
    requires Mirrors(buf[..parsePoint + read], text[base..taken], st)
    requires reparsePoint == NULL || reparsePoint == st.pos
    modifies buf
    ensures nextBase == base + Anchor(st)
    ensures Loaded(text, nextBase, taken, next, ask) && Anchor(next) == 0
            && nextParse == taken - nextBase <= parsePoint + read
    ensures Mirrors(buf[..nextParse], text[nextBase..taken], next)
    ensures nextReparse == if reparsePoint == NULL then NULL else next.pos
    ensures next.pos == st.pos - (nextBase - base) && next.lineBegin == st.lineBegin - (nextBase - base)
  {
    hide Read, Lifted, Nested, Anchor, LowString, RelocatedAll, Mirrors;
    MovedLoad(text, base, taken, st, ask);
    SliceBehind(text, base, taken, Anchor(st));
    ghost var was, stage := buf[..parsePoint + read], Anchor(st);
    MirrorsMoved(was, text[base..taken], st);
    next, nextParse, nextReparse, stage := Slide(buf, st, parsePoint, read, reparsePoint);
    nextBase := base + stage;
    assert buf[..nextParse] == was[stage..];
  }

  lemma LoadedPlaces(text: string, base: nat, e: nat, st: State, ask: Listener)
    requires Loaded(text, base, e, st, ask)
    ensures base <= e <= |text| && Sane(st) && Nested(st)
    ensures 0 <= Anchor(st) <= st.pos <= e - base && st.lineBegin <= st.pos
    ensures var r := Read(text, e, ask);
            && r.status == st.status == Running && r.pos == base + st.pos
            && r.lineBegin == base + st.lineBegin && Anchor(r) == base + Anchor(st)
            && Ended(r) == Ended(st) && Ended(Fail(r, TokenOverflow)) == Ended(Fail(st, TokenOverflow))
            && (st.lineBegin == 0 ==> Moved(r, base) == st)
  {
    LowStringIsLeast(st, Anchor(st));
    FinishLifts(st, base);
    hide Loop, Nested;
  }

  /** One load of a filling reader, as the buffer shows it. */
  lemma FateLoads(text: string, base: nat, taken: nat, n: nat, st: State, next: State, ask: Listener)
    requires Loaded(text, base, taken, st, ask) && 0 < n && taken + n == Least(base + CAPACITY - 1, |text|)
    requires Loaded(text, base, taken + n, next, ask)
    ensures Anchor(next) >= 0 && base + Anchor(next) <= taken + n && next.pos <= taken + n - base
    ensures Fate(text, base, taken, ask) ==
            if next.lineBegin != 0 then Fate(text, base + Anchor(next), taken + n, ask)
            else if taken + n - (base + st.pos) == CAPACITY - 1 then Ended(Fail(next, TokenOverflow))
            else if taken + n == |text| then Ended(next)
            else Overwritten(next)
  {
    hide Loaded, Read, Anchor, Fate, Ended, Moved;
    LoadedPlaces(text, base, taken, st, ask);
    LoadedPlaces(text, base, taken + n, next, ask);
    ReadInside(text, taken + n, ask);
    FateIs(text, base, taken, ask);
  }

  lemma FateIs(text: string, base: nat, taken: nat, ask: Listener)
    requires base <= taken <= |text|
    ensures var e := Least(base + CAPACITY - 1, |text|);
            if e <= taken then Fate(text, base, taken, ask) == Ended(Read(text, taken, ask))
            else
              var r := Read(text, e, ask);
              if r.status.Failed? then Fate(text, base, taken, ask) == Ended(r)
              else
                && 0 <= Anchor(r) <= r.pos <= e && r.lineBegin <= r.pos
                && Fate(text, base, taken, ask) ==
                   if r.lineBegin != base then Fate(text, Anchor(r), e, ask)
                   else if e - Read(text, taken, ask).pos == CAPACITY - 1 then Ended(Fail(r, TokenOverflow))
                   else if e == |text| then Ended(r)
                   else Overwritten(Moved(r, base))
  {
    hide Read, Anchor, Ended;
    ReadInside(text, Least(base + CAPACITY - 1, |text|), ask) by { if |text| == 0 {} }
  }

  /** Nothing more can be read: the text or the buffer is used up. */
  lemma FateEnds(text: string, base: nat, taken: nat, st: State, ask: Listener)
    requires Loaded(text, base, taken, st, ask) && (taken == |text| || taken - base >= CAPACITY - 1)
    ensures base <= taken <= |text| && Fate(text, base, taken, ask) == Ended(st)
  {
    LoadedPlaces(text, base, taken, st, ask);
    hide Loaded, Read, Anchor, Ended;
  }

  lemma FateFails(text: string, base: nat, taken: nat, n: nat, ask: Listener)
    requires base <= taken && 0 < n && taken + n == Least(base + CAPACITY - 1, |text|)
    requires Read(text, taken + n, ask).status.Failed?
    ensures Fate(text, base, taken, ask) == Ended(Read(text, taken + n, ask))
  {
    hide Read, Ended;
  }

  /** The parse of an empty text stands at its beginning. */
  lemma StandsFirst(text: string, ask: Listener)
    ensures Standing(text, 0, 0, ask)
  {
    FirstLoad(text, ask);
    InitialAnchor();
    LoadedPlaces(text, 0, 0, INITIAL, ask);
    hide Read;
  }

  /** A filling reader reports success exactly for a text that is right and fits, and then has it whole. */
  lemma FateFromStart(text: string, ask: Listener)
    ensures var f, one := Fate(text, 0, 0, ask), OnePiece(text, ask);
            && (f.Parsed? && f.error == Okay <==> one.error == Okay && Fits(text, 0, 0, ask))
            && (Fits(text, 0, 0, ask) ==> f == one)
            && (one.error == Okay ==> (f == one <==> Fits(text, 0, 0, ask)))
  {
    StandsFirst(text, ask);
    FateExactly(text, 0, 0, ask);
    hide Fate, Fits, OnePiece;
  }

  /** What the listener has been told is well formed, and stays so whatever later loads hold. */
  ghost predicate StaysProper(st: State, ask: Listener) {
    && Bracketed(st.trace)
    && forall loads: seq<Found> ::
         var r := RunOn(st, loads, ask);
         && Proper(Finish(r).0, Finish(r).1)
         && Proper(Finish(Fail(r, TokenOverflow)).0, Finish(Fail(r, TokenOverflow)).1)
  }

  /** Parses the input through the buffer.

      Whatever the reader does, what the listener is told is well formed; if characters still needed
      are about to be read over, it stays so whatever the buffer holds from then on. If the input was
      taken whole (`whole`), the result is that of parsing it in one piece, and what is needed has always
      left room; success is never reported otherwise. With a reader that fills the buffer,
        the outcome is a function of the text, `Fate`; and
      for a text that is right in one piece it is that of one piece if and only if the text fits. */
  method ParseStream(text: string, want: Reader, ask: Listener) returns (out: Outcome, ghost whole: bool)
    ensures out.Parsed? ==> Proper(out.error, out.trace)
    ensures out.Overwritten? ==> StaysProper(out.state, ask)
    ensures whole ==> out == OnePiece(text, ask) && forall e :: 0 <= e < |text| ==> Kept(text, e, ask)
    ensures out.Parsed? && out.error == Okay ==> whole
    ensures Filling(want) ==> out == Fate(text, 0, 0, ask)
    ensures Filling(want) ==>
              (out.Parsed? && out.error == Okay <==> OnePiece(text, ask).error == Okay && Fits(text, 0, 0, ask))
    ensures Filling(want) && OnePiece(text, ask).error == Okay ==>
              (out == OnePiece(text, ask) <==> Fits(text, 0, 0, ask))
    ensures Filling(want) && Fits(text, 0, 0, ask) ==> out == OnePiece(text, ask)
  {
    hide Loaded, Read, Fate, Fits, Ended, OnePiece, StaysProper, Proper, Mirrors, Kept, Anchor, Nested, Sane, Filling,
         Delivered, Moved;
    var buf := new char[CAPACITY];
    var st := INITIAL;
    var parsePoint: nat, reparsePoint := 0, NULL;
    var taken: nat, calls: nat := 0, 0;
    var stuck := false;
    ghost var base: nat := 0;
    FirstLoad(text, ask);
    InitialAnchor();
    NothingMirrored(buf[..0], text);
    FateFromStart(text, ask);
    while true
      invariant Loaded(text, base, taken, st, ask) && taken <= |text| && base <= taken
      invariant !stuck ==> parsePoint == taken - base < CAPACITY && Mirrors(buf[..parsePoint], text[base..taken], st)
      invariant !stuck ==> Anchor(st) == 0 && (parsePoint == CAPACITY - 1 ==> st.lineBegin != 0)
      invariant stuck ==> parsePoint < CAPACITY - 1
      invariant !stuck ==> st.pos == if reparsePoint == NULL then parsePoint else reparsePoint
      invariant buf.Length == CAPACITY
      invariant forall e :: 0 <= e < taken ==> Kept(text, e, ask)
      invariant Filling(want) ==>
                  Fate(text, 0, 0, ask) ==
                  if !stuck then Fate(text, base, taken, ask)
                  else if taken == |text| then Ended(st) else Overwritten(st)
      decreases |text| - taken
    {
      var n := Delivered(want, calls, CAPACITY - parsePoint - 1, |text| - taken);
      DeliveredIs(want, calls, CAPACITY - parsePoint - 1, |text| - taken);
      if n == 0 { break; }
      LoadedPlaces(text, base, taken, st, ask);
      if stuck {
        NestedStaysProper(st, ask);
        return Overwritten(st), false;
      }
      calls := calls + 1;
      var read: nat;
      ghost var was := st;
      st, parsePoint, read, reparsePoint := Load(buf, text, ask, taken, n, parsePoint, reparsePoint, st, base);
      if st.status.Failed? {
        OnePieceProper(text, ask);
        if Filling(want) { FateFails(text, base, taken, n, ask); }
        return Ended(st), true;
      }
      LoadedPlaces(text, base, taken + n, st, ask);
      if Filling(want) { FateLoads(text, base, taken, n, was, st, ask); }
      taken := taken + n;
      if st.lineBegin != 0 {
        st, parsePoint, reparsePoint, base :=
          SlideLoaded(buf, st, parsePoint, read, reparsePoint, text, base, taken, ask);
      } else if read == CAPACITY - 1 {
        EndsProper(st);
        return Ended(Fail(st, TokenOverflow)), false;
      } else {
        LineAnchor(st);
        stuck := true;
      }
    }
    if Filling(want) && !stuck { FateEnds(text, base, taken, st, ask); }
    LoadedPlaces(text, base, taken, st, ask);
    EndsProper(st);
    whole := taken == |text|;
    if whole { WholeEnds(text, base, st, ask); } else { FullEndsBadly(st); }
    out := Ended(st);
  }

  lemma DeliveredIs(want: Reader, call: nat, room: nat, left: nat)
    ensures var n := Delivered(want, call, room, left);
            && n <= room && n <= left && (n == 0 <==> room == 0 || left == 0)
            && (Filling(want) && room <= CAPACITY ==> n == Least(room, left))
    ensures Least(room, left) == if room < left then room else left
  {}

  lemma EndsProper(st: State)
    requires Nested(st)
    ensures Ended(st).Parsed? && Proper(Ended(st).error, Ended(st).trace)
    ensures var e := Ended(Fail(st, TokenOverflow));
            e.Parsed? && Proper(e.error, e.trace) && e.error == TokenOverflow
  {
    OverflowEnds(st);
    FinishIsProper(st);
    OverflowIsProper(st);
    hide Proper, Finish, Nested;
  }

  lemma FullEndsBadly(st: State)
    requires st.status.Running? && Sane(st) && Anchor(st) == 0 && st.lineBegin != 0
    ensures Ended(st).Parsed? && Ended(st).error != Okay
  {
    EndsBadly(st);
    hide Finish;
  }

  lemma OnePieceProper(text: string, ask: Listener)
    ensures OnePiece(text, ask).Parsed? && Proper(OnePiece(text, ask).error, OnePiece(text, ask).trace)
  {
    ParseIsProper(text, ask);
    hide Proper, Parse;
  }

  lemma WholeEnds(text: string, base: nat, st: State, ask: Listener)
    requires Loaded(text, base, |text|, st, ask)
    ensures Ended(st) == OnePiece(text, ask)
  {
    LastLoad(text, base, st, ask);
    hide Finish, Parse;
  }

  lemma NothingMirrored(window: string, text: string)
    requires |window| == 0
    ensures Mirrors(window, text[0..0], INITIAL)
  {}

  lemma NestedStaysProper(st: State, ask: Listener)
    requires Nested(st)
    ensures StaysProper(st, ask)
  {
    hide Proper, Finish, Bracketed;
    RunOnIsProper(st, [], ask);
    hide RunOn;
    forall loads: seq<Found>
      ensures var r := RunOn(st, loads, ask);
              && Proper(Finish(r).0, Finish(r).1)
              && Proper(Finish(Fail(r, TokenOverflow)).0, Finish(Fail(r, TokenOverflow)).1)
    {
      RunOnIsProper(st, loads, ask);
    }
  }
}
