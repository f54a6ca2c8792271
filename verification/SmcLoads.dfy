/**
 What a reader that always fills the buffer makes of a text, load by load.

 After each load the characters from `base` on are in the buffer. Here: the outcome as a function of
 the text and the listener, and exactly when it is that of parsing the text in one piece.
 */
module SmcLoads {
  import opened SmcTokens
  import opened SmcParser
  import opened SmcTrace
  import opened SmcStream

  const CAPACITY := 4096

  /** `Overwritten`: the loop is about to read over characters it still needs; what the real
      buffer would hold from then on is not modelled. */
  datatype Outcome = Parsed(error: Error, trace: seq<Event>) | Overwritten(state: State)

  function Least(a: nat, b: nat): nat {
    if a < b then a else b
  }

  /** After `e` characters, what is still needed leaves room in a full buffer. */
  ghost predicate Kept(text: string, e: nat, ask: Listener)
    requires e <= |text|
  {
    Read(text, e, ask).status.Failed? || e - Anchor(Read(text, e, ask)) < CAPACITY - 1
  }

  /** The loads of a filling reader, from the one that starts with `base..taken` in the buffer on, end
      with one that brings exactly the characters a buffer holds, all of one line that nothing
      before is needed of: the program takes that for a line too long even if it is the last. */
  ghost predicate LastFills(text: string, base: nat, taken: nat, ask: Listener)
    decreases |text| - taken
  {
    var e := base + CAPACITY - 1;
    && base <= taken < |text| && taken < e <= |text|
    && var r := Read(text, e, ask);
       && !r.status.Failed?
       && if e == |text| then r.lineBegin == base && Read(text, taken, ask).pos == base
          else Anchor(r) >= 0 && LastFills(text, Anchor(r), e, ask)
  }

  /** The text can be taken through the buffer. */
  ghost predicate Fits(text: string, base: nat, taken: nat, ask: Listener) {
    (forall e :: taken <= e < |text| ==> Kept(text, e, ask)) && !LastFills(text, base, taken, ask)
  }

  /** The outcome when the parse ends at `st`. */
  function Ended(st: State): Outcome {
    Parsed(Finish(st).0, Finish(st).1)
  }

  /** The outcome of parsing the text in one piece. */
  function OnePiece(text: string, ask: Listener): Outcome {
    Parsed(Parse(text, ask).0, Parse(text, ask).1)
  }

  /** What comes of the text when `base..taken` is in the buffer: the buffer is filled, and then moved up
      if the line begin has moved. If it has not, a load that fills the buffer by itself is a line too
      long; any other leaves the place to read to where it was, before what is still needed. */
  ghost function Fate(text: string, base: nat, taken: nat, ask: Listener): Outcome
    requires base <= taken <= |text|
    decreases |text| - taken
  {
    var e := Least(base + CAPACITY - 1, |text|);
    if e <= taken then Ended(Read(text, taken, ask))
    else
      ReadInside(text, e, ask);
      var r := Read(text, e, ask);
      if r.status.Failed? then Ended(r)
      else if r.lineBegin != base then Fate(text, Anchor(r), e, ask)
      else if e - Read(text, taken, ask).pos == CAPACITY - 1 then Ended(Fail(r, TokenOverflow))
      else if e == |text| then Ended(r)
      else Overwritten(Moved(r, base))
  }

  lemma ReadInside(text: string, e: nat, ask: Listener)
    requires e <= |text|
    ensures var r := Read(text, e, ask);
            !r.status.Failed? ==> r.status.Running? && Sane(r) && 0 <= Anchor(r) <= r.pos <= e && r.lineBegin <= r.pos
  {
    ReadIsSane(text, e, ask);
    LoopStaysInside(text[..e], INITIAL, ask);
    hide Loop;
    var r := Read(text, e, ask);
    if !r.status.Failed? { LowStringIsLeast(r, 0); }
  }

  /** Where the loads of a filling reader stand: what is needed begins at the front of the buffer, and a
      buffer that is full of it holds more than one line. */
  ghost predicate Standing(text: string, base: nat, taken: nat, ask: Listener) {
    && base <= taken <= |text| && taken - base < CAPACITY
    && var r := Read(text, taken, ask);
       && !r.status.Failed? && Anchor(r) == base
       && (taken - base == CAPACITY - 1 ==> r.lineBegin != base)
  }

  /** What stands at the front of the buffer is not given up before the line begin moves. */
  lemma StandingOn(text: string, base: nat, taken: nat, k: nat, ask: Listener)
    requires Standing(text, base, taken, ask) && taken <= k <= |text|
    ensures base <= Read(text, taken, ask).pos
    ensures var r := Read(text, k, ask); !r.status.Failed? ==> Anchor(r) >= base
    ensures k - base < CAPACITY - 1 ==> Kept(text, k, ask)
  {
    hide Loop, Read;
    var s, r := Read(text, taken, ask), Read(text, k, ask);
    ReadInside(text, taken, ask);
    ReadInside(text, k, ask);
    LowStringIsLeast(s, base);
    ReadNeeds(text, taken, k, base, ask);
    if !r.status.Failed? { LowStringIsLeast(r, base); }
  }

  /** A failure is final, however much is still unread. */
  lemma FailedStays(text: string, e: nat, k: nat, ask: Listener)
    requires e <= k <= |text| && Read(text, e, ask).status.Failed?
    ensures Read(text, k, ask) == Read(text, e, ask)
  {
    ReadOn(text, e, k, ask);
  }

  lemma ReadAll(text: string, ask: Listener)
    ensures Ended(Read(text, |text|, ask)) == OnePiece(text, ask)
  {
    assert text[..|text|] == text;
    ResumedEnds(Loop(text, INITIAL, ask));
    hide Loop;
  }

  lemma ResumedEnds(st: State)
    ensures Finish(Resumed(st)) == Finish(st)
  {}

  /** A staged string at the front of the buffer and a line begin behind it: the parse cannot end well. */
  lemma EndsBadly(st: State)
    requires st.status.Running? && Sane(st) && Anchor(st) != st.lineBegin
    ensures Finish(st).0 != Okay
  {}

  lemma OverflowEnds(st: State)
    ensures Finish(Fail(st, TokenOverflow)).0 == TokenOverflow
  {}

  /** What one more load makes of the two sides of the statement below. */
  lemma {:induction false} FateExactly(text: string, base: nat, taken: nat, ask: Listener)
    requires Standing(text, base, taken, ask)
    ensures var f, one := Fate(text, base, taken, ask), OnePiece(text, ask);
            && (f.Parsed? && f.error == Okay <==> one.error == Okay && Fits(text, base, taken, ask))
            && (Fits(text, base, taken, ask) ==> f == one)
    decreases |text| - taken
  {
    var e := Least(base + CAPACITY - 1, |text|);
    hide Read, Finish, Parse, Kept, LastFills, Anchor;
    if e <= taken {
      NothingToRead(text, base, taken, ask);
    } else {
      ReadInside(text, e, ask);
      var r := Read(text, e, ask);
      KeptUpTo(text, base, taken, e, ask);
      if r.status.Failed? {
        FailedFits(text, base, taken, e, ask);
      } else if r.lineBegin != base {
        StandsAgain(text, base, taken, e, ask);
        FateExactly(text, Anchor(r), e, ask);
        FitsOn(text, base, taken, e, ask);
      } else {
        OneLine(text, base, taken, e, ask);
      }
    }
  }

  /** A text that leaves room to its very end fits. */
  lemma KeptFits(text: string, base: nat, taken: nat, ask: Listener)
    requires Standing(text, base, taken, ask) && forall e :: taken <= e <= |text| ==> Kept(text, e, ask)
    ensures Fits(text, base, taken, ask)
    decreases |text| - taken
  {
    hide Read, Kept, Anchor, LastFills;
    if LastFills(text, base, taken, ask) {
      var e := base + CAPACITY - 1;
      LastFillsMeans(text, base, taken, ask);
      StandingOn(text, base, taken, e, ask);
      var r := Read(text, e, ask);
      if e == |text| {
        FullNotKept(text, e, base, ask);
      } else {
        if r.lineBegin == base { FullNotKept(text, e, base, ask); }
        StandsAgain(text, base, taken, e, ask);
        KeptFits(text, Anchor(r), e, ask);
      }
    }
  }

  lemma LastFillsMeans(text: string, base: nat, taken: nat, ask: Listener)
    requires LastFills(text, base, taken, ask)
    ensures var e := base + CAPACITY - 1;
            && base <= taken < |text| && taken < e <= |text|
            && var r := Read(text, e, ask);
               && !r.status.Failed?
               && if e == |text| then r.lineBegin == base else Anchor(r) >= 0 && LastFills(text, Anchor(r), e, ask)
  {
    hide Read, Anchor;
  }

  lemma FullNotKept(text: string, e: nat, base: nat, ask: Listener)
    requires e == base + CAPACITY - 1 <= |text|
    requires var r := Read(text, e, ask); !r.status.Failed? && r.lineBegin == base && Anchor(r) >= base
    ensures !Kept(text, e, ask)
  {
    hide Read;
  }

  lemma NothingToRead(text: string, base: nat, taken: nat, ask: Listener)
    requires Standing(text, base, taken, ask) && Least(base + CAPACITY - 1, |text|) <= taken
    ensures var r := Read(text, taken, ask);
            if taken == |text| then Ended(r) == OnePiece(text, ask) && Fits(text, base, taken, ask)
            else Ended(r).error != Okay && !Fits(text, base, taken, ask)
  {
    hide Read, Finish, Parse;
    ReadInside(text, taken, ask);
    if taken == |text| {
      ReadAll(text, ask);
    } else {
      assert !Kept(text, taken, ask);
      EndsBadly(Read(text, taken, ask));
    }
  }

  lemma KeptUpTo(text: string, base: nat, taken: nat, e: nat, ask: Listener)
    requires Standing(text, base, taken, ask) && taken < e <= |text| && e - base < CAPACITY
    ensures forall k :: taken <= k < e ==> Kept(text, k, ask)
  {
    forall k | taken <= k < e ensures Kept(text, k, ask) { StandingOn(text, base, taken, k, ask); }
  }

  lemma FailedFits(text: string, base: nat, taken: nat, e: nat, ask: Listener)
    requires base <= taken < e == Least(base + CAPACITY - 1, |text|) && Read(text, e, ask).status.Failed?
    requires forall k :: taken <= k < e ==> Kept(text, k, ask)
    ensures Fits(text, base, taken, ask) && Ended(Read(text, e, ask)) == OnePiece(text, ask)
  {
    hide Read, Finish, Parse;
    forall k | e <= k < |text| ensures Kept(text, k, ask) { FailedStays(text, e, k, ask); }
    FailedStays(text, e, |text|, ask);
    ReadAll(text, ask);
  }

  lemma StandsAgain(text: string, base: nat, taken: nat, e: nat, ask: Listener)
    requires Standing(text, base, taken, ask) && taken < e == Least(base + CAPACITY - 1, |text|)
    requires !Read(text, e, ask).status.Failed? && Read(text, e, ask).lineBegin != base
    ensures Anchor(Read(text, e, ask)) >= 0 && Standing(text, Anchor(Read(text, e, ask)), e, ask)
  {
    hide Read;
    StandingOn(text, base, taken, e, ask);
    ReadInside(text, e, ask);
  }

  lemma FitsOn(text: string, base: nat, taken: nat, e: nat, ask: Listener)
    requires Standing(text, base, taken, ask) && taken < e == Least(base + CAPACITY - 1, |text|)
    requires var r := Read(text, e, ask); !r.status.Failed? && r.lineBegin != base && Anchor(r) >= 0
    requires forall k :: taken <= k < e ==> Kept(text, k, ask)
    ensures Fits(text, base, taken, ask) <==> Fits(text, Anchor(Read(text, e, ask)), e, ask)
  {
    hide Read, Kept, Anchor;
  }

  lemma OneLine(text: string, base: nat, taken: nat, e: nat, ask: Listener)
    requires Standing(text, base, taken, ask) && taken < e == Least(base + CAPACITY - 1, |text|)
    requires var r := Read(text, e, ask); !r.status.Failed? && r.lineBegin == base
    requires forall k :: taken <= k < e ==> Kept(text, k, ask)
    ensures var f, one := Fate(text, base, taken, ask), OnePiece(text, ask);
            && (f.Parsed? && f.error == Okay <==> one.error == Okay && Fits(text, base, taken, ask))
            && (Fits(text, base, taken, ask) ==> f == one)
  {
    hide Read, Finish, Parse;
    StandingOn(text, base, taken, e, ask);
    ReadInside(text, e, ask);
    OverflowEnds(Read(text, e, ask));
    if e < |text| { assert !Kept(text, e, ask); }
    if e == |text| { ReadAll(text, ask); }
  }
}
