/**
 What the listener of an SMC parse can rely on, for every text and every listener.
 */
module SmcTrace {
  import opened SmcTokens
  import opened SmcParser

  /** The sections opened and not yet left, by plain counting. */
  function Opened(trace: seq<Event>): int {
    if trace == [] then 0 else
    Opened(trace[..|trace| - 1]) +
    match trace[|trace| - 1]
    case NewSection(_) => 1
    case LeavingSection => -1
    case _ => 0
  }

  /** Sections are never left at the top, and pairs only come inside one. */
  predicate Bracketed(trace: seq<Event>) {
    forall k :: 0 <= k < |trace| ==>
      && Opened(trace[..k]) >= 0
      && (trace[k].KeyValue? || trace[k].LeavingSection? ==> Opened(trace[..k]) > 0)
  }

  lemma {:induction false} DepthMeansBracketed(trace: seq<Event>)
    requires Depth(trace) >= 0
    ensures Bracketed(trace) && Opened(trace) == Depth(trace)
  {
    if trace != [] {
      var front := trace[..|trace| - 1];
      DepthMeansBracketed(front);
      forall k | 0 <= k < |trace|
        ensures Opened(trace[..k]) >= 0
        ensures trace[k].KeyValue? || trace[k].LeavingSection? ==> Opened(trace[..k]) > 0
      {
        if k < |front| {
          assert front[..k] == trace[..k] && front[k] == trace[k];
        } else {
          assert trace[..k] == front;
        }
      }
    }
  }

  lemma {:induction false} LoopKeepsNested(text: string, st: State, ask: Listener)
    requires Nested(st)
    ensures Nested(Loop(text, st, ask))
    decreases |text| - st.pos
  {
    if st.status.Running? && st.pos < |text| {
      StepKeepsNested(text, st, ask);
      StepAdvances(text, st, ask);
      var next := Step(text, st, ask);
      if next.status.Running? { LoopKeepsNested(text, next, ask); }
    }
  }

  lemma InitiallyNested()
    ensures Nested(INITIAL)
  {
    assert [ParseStart][..0] == [];
  }

  /** Every finished trace starts once, ends once, at its two ends, and is bracketed; when
      the parse was not broken off, every section has been left. */
  predicate Proper(err: Error, trace: seq<Event>) {
    && |trace| >= 2
    && trace[0] == ParseStart
    && trace[|trace| - 1].ParseEnd?
    && (forall k :: 0 < k < |trace| - 1 ==> !trace[k].ParseStart? && !trace[k].ParseEnd?)
    && Bracketed(trace)
    && var end := trace[|trace| - 1];
       && (end.failed <==> err == Custom)
       && (!end.halted ==> err == Okay && Opened(trace) == 0)
  }

  lemma FinishIsProper(st: State)
    requires Nested(st)
    ensures Proper(Finish(st).0, Finish(st).1)
  {
    var (err, trace) := Finish(st);
    var end := trace[|trace| - 1];
    DepthPush(st.trace, end);
    DepthMeansBracketed(trace);
  }

  lemma ParseIsProper(text: string, ask: Listener)
    ensures Proper(Parse(text, ask).0, Parse(text, ask).1)
  {
    InitiallyNested();
    LoopKeepsNested(text, INITIAL, ask);
    FinishIsProper(Loop(text, INITIAL, ask));
  }

  // ----- loads of which nothing is known

  /** What a later load may find in the buffer: any characters, and any pointers to them. */
  datatype Found = Found(window: string, pos: nat, lineBegin: nat, staged: Staging)

  /** The parse goes on over such loads, until it fails. */
  function RunOn(st: State, loads: seq<Found>, ask: Listener): State
    decreases |loads|
  {
    if loads == [] || st.status.Failed? then st else
    var l := loads[0];
    var from := st.(pos := l.pos, lineBegin := l.lineBegin, staged := l.staged, status := Running);
    RunOn(Loop(l.window, from, ask), loads[1..], ask)
  }

  /** Whatever a parse finds later, what its listener is told is well formed. */
  lemma {:induction false} RunOnIsProper(st: State, loads: seq<Found>, ask: Listener)
    requires Nested(st)
    ensures var r := RunOn(st, loads, ask);
            && Bracketed(r.trace)
            && Proper(Finish(r).0, Finish(r).1)
            && Proper(Finish(Fail(r, TokenOverflow)).0, Finish(Fail(r, TokenOverflow)).1)
    decreases |loads|
  {
    hide Loop, Proper, Finish, Depth;
    if loads == [] || st.status.Failed? {
      DepthMeansBracketed(st.trace);
      FinishIsProper(st);
      FinishIsProper(Fail(st, TokenOverflow));
    } else {
      var l := loads[0];
      var from := st.(pos := l.pos, lineBegin := l.lineBegin, staged := l.staged, status := Running);
      LoopKeepsNested(l.window, from, ask);
      RunOnIsProper(Loop(l.window, from, ask), loads[1..], ask);
    }
  }

  // ----- every state the loop goes through

  /** The state after up to `n` characters have been handled. */
  function StateAfter(text: string, ask: Listener, n: nat): (r: State)
  {
    if n == 0 then INITIAL else
    var st := StateAfter(text, ask, n - 1);
    if st.status.Running? && st.pos < |text| then Step(text, st, ask) else st
  }

  /** No string is being staged wherever a comment can end, so the assertion there holds. */
  lemma {:induction false} CommentEndFindsNothingStaged(text: string, ask: Listener, n: nat)
    ensures var st := StateAfter(text, ask, n);
            && (!st.status.Failed? ==> Sane(st))
            && (st.status.Running? && st.mlComment ==> st.staged.first == EMPTY && !st.inQuote)
  {
    if n > 0 {
      CommentEndFindsNothingStaged(text, ask, n - 1);
      var st := StateAfter(text, ask, n - 1);
      if st.status.Running? && st.pos < |text| {
        StepKeepsSane(text, st, ask);
      }
    }
  }

  /** The states above are all of them: the loop ends in one. */
  lemma {:induction false} LoopIsStateAfter(text: string, ask: Listener, n: nat) returns (m: nat)
    ensures m >= n && Loop(text, StateAfter(text, ask, n), ask) == StateAfter(text, ask, m)
    decreases |text| - StateAfter(text, ask, n).pos
  {
    hide Step;
    var st := StateAfter(text, ask, n);
    if st.status.Running? && st.pos < |text| {
      StepAdvances(text, st, ask);
      var next := Step(text, st, ask);
      assert StateAfter(text, ask, n + 1) == next;
      if next.status.Running? {
        m := LoopIsStateAfter(text, ask, n + 1);
      } else {
        m := n + 1;
      }
    } else {
      m := n;
    }
  }
}
