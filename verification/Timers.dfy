/**
 What the timer system keeps, and what a frame does to each timer.
 */
module Timers {
  import opened Common
  import opened TimerLists

  /** A timer waits in one of the lists, or is the one being called. */
  ghost predicate Waits(timer: Timer, t: nat, current: int) {
    !timer.inExec || t == current
  }

  /** A list holds exactly the timers it is for. */
  ghost predicate Lists(timers: seq<Timer>, single: seq<nat>, loops: seq<nat>, freed: seq<nat>, current: int) {
    && Distinct(single) && Distinct(loops) && Distinct(freed)
    && (forall t: nat :: t in single <==> t < |timers| && Waits(timers[t], t, current) && !timers[t].repeats)
    && (forall t: nat :: t in loops <==> t < |timers| && Waits(timers[t], t, current) && timers[t].repeats)
    && (forall t: nat :: t in freed <==> t < |timers| && !Waits(timers[t], t, current))
  }

  function Times(calls: seq<Call>, c: Call): nat {
    multiset(calls)[c]
  }

  lemma OneMore(calls: seq<Call>, d: Call, c: Call)
    ensures Times(calls + [d], c) == Times(calls, c) + (if c == d then 1 else 0)
  {
    assert multiset(calls + [d]) == multiset(calls) + multiset{d};
  }

  /** Each time the timer was made it was ended, but the last if it still waits. */
  ghost predicate Balanced(timers: seq<Timer>, calls: seq<Call>, t: nat, current: int) {
    Times(calls, Made(t)) == Times(calls, Ends(t)) + (if t < |timers| && Waits(timers[t], t, current) then 1 else 0)
  }

  /** Only a timer that is called, or free, can be marked for killing; the one being called is. */
  ghost predicate Marks(timers: seq<Timer>, current: int) {
    && (forall t: nat :: t < |timers| && timers[t].killMe ==> timers[t].inExec)
    && (current != NOBODY ==> 0 <= current < |timers| && timers[current].inExec)
  }

  ghost predicate Inv(s: State, current: int) {
    && Lists(s.timers, s.single, s.loops, s.freed, current)
    && Sorted(s.timers, s.single)
    && Marks(s.timers, current)
    && (forall t: nat :: Balanced(s.timers, s.calls, t, current))
  }

  // ----- each operation keeps it

  lemma {:induction false} ListsEnded(timers: seq<Timer>, single: seq<nat>, loops: seq<nat>, freed: seq<nat>,
                                      current: int, t: nat, after: seq<Timer>)
    requires Lists(timers, single, loops, freed, current)
    requires t < |timers| && Waits(timers[t], t, current)
    requires after == timers[t := timers[t].(inExec := true)]
    ensures !timers[t].repeats ==>
              Lists(after, Remove(single, t), loops, freed + [t], if t == current then NOBODY else current)
    ensures timers[t].repeats ==>
              Lists(after, single, Remove(loops, t), freed + [t], if t == current then NOBODY else current)
  {
    hide Remove, Find;
    RemoveAt(single, t);
    RemoveAt(loops, t);
  }

  /** What may happen to a timer while others are called: it is ended, once, or marked. */
  ghost predicate Stands(s: State, r: State, t: nat)
    requires t < |s.timers| && t < |r.timers|
  {
    && r.timers[t].interval == s.timers[t].interval && r.timers[t].toExec == s.timers[t].toExec
    && r.timers[t].repeats == s.timers[t].repeats
    && (s.timers[t].inExec ==> r.timers[t].inExec)
    && Times(r.calls, Fires(t)) == Times(s.calls, Fires(t))
    && Times(r.calls, Ends(t)) == Times(s.calls, Ends(t)) + (if !s.timers[t].inExec && r.timers[t].inExec then 1 else 0)
  }

  /** The timers stand, and only ends are added to the calls. */
  ghost predicate Standing(s: State, r: State) {
    && |r.timers| == |s.timers| && s.calls <= r.calls
    && (forall t: nat :: t < |s.timers| ==> Stands(s, r, t))
    && (forall k :: |s.calls| <= k < |r.calls| ==> r.calls[k].Ends?)
  }

  lemma StandingTwice(s: State, m: State, r: State)
    requires Standing(s, m) && Standing(m, r)
    ensures Standing(s, r)
  {
    hide Times, Stands;
    forall t: nat | t < |s.timers| ensures Stands(s, r, t) {
      assert Stands(s, m, t) && Stands(m, r, t);
      StandsTwice(s, m, r, t);
    }
  }

  lemma StandingStill(s: State)
    ensures Standing(s, s)
  {}

  lemma StandsTwice(s: State, m: State, r: State, t: nat)
    requires t < |s.timers| && t < |m.timers| && t < |r.timers|
    requires Stands(s, m, t) && Stands(m, r, t)
    ensures Stands(s, r, t)
  {}

  lemma BalancedEnded(s: State, r: State, x: nat, t: nat, current: int)
    requires Balanced(s.timers, s.calls, x, current) && t < |s.timers| && Waits(s.timers[t], t, current)
    requires r.timers == s.timers[t := s.timers[t].(inExec := true)] && r.calls == s.calls + [Ends(t)]
    ensures Balanced(r.timers, r.calls, x, if t == current then NOBODY else current)
  {
    OneMore(s.calls, Ends(t), Made(x));
    OneMore(s.calls, Ends(t), Ends(x));
  }

  lemma EndedStands(s: State, r: State, t: nat, x: nat)
    requires t < |s.timers| && x < |s.timers|
    requires r.timers == s.timers[t := s.timers[t].(inExec := true)] && r.calls == s.calls + [Ends(t)]
    ensures x != t || !s.timers[t].inExec ==> Stands(s, r, x)
    ensures Times(r.calls, Ends(t)) == Times(s.calls, Ends(t)) + 1
            && Times(r.calls, Fires(x)) == Times(s.calls, Fires(x))
  {
    OneMore(s.calls, Ends(t), Fires(x));
    OneMore(s.calls, Ends(t), Ends(x));
    OneMore(s.calls, Ends(t), Ends(t));
  }

  lemma SortedTimes(timers: seq<Timer>, after: seq<Timer>, s: seq<nat>)
    requires Sorted(timers, s) && |after| == |timers|
    requires forall t: nat :: t < |timers| ==> after[t].toExec == timers[t].toExec
    ensures Sorted(after, s)
  {}

  /** Ending a timer that waits, or the one being called. */
  lemma EndKeeps(s: State, t: nat, current: int)
    requires Inv(s, current) && t < |s.timers| && Waits(s.timers[t], t, current)
    ensures var r := Ended(WithExec(s, t, true), t);
            Inv(r, if t == current then NOBODY else current)
  {
    hide Times, Lists, Sorted, Balanced, Remove, Waits;
    var r := Ended(WithExec(s, t, true), t);
    ListsEnded(s.timers, s.single, s.loops, s.freed, current, t, r.timers);
    SortedRemove(s.timers, s.single, t);
    SortedTimes(s.timers, r.timers, s.single);
    SortedTimes(s.timers, r.timers, Remove(s.single, t));
    var c := if t == current then NOBODY else current;
    forall x: nat ensures Balanced(r.timers, r.calls, x, c) {
      BalancedEnded(s, r, x, t, current);
    }
  }

  lemma MarkKeeps(s: State, t: nat, current: int)
    requires Inv(s, current) && t < |s.timers| && s.timers[t].inExec
    ensures Inv(WithKill(s, t), current) && Standing(s, WithKill(s, t))
  {
    hide Times, Distinct;
    var r := WithKill(s, t);
    assert Lists(r.timers, r.single, r.loops, r.freed, current);
    assert Sorted(r.timers, r.single);
    forall x: nat ensures Balanced(r.timers, r.calls, x, current) {
      assert Balanced(s.timers, s.calls, x, current);
    }
  }

  lemma KillKeeps(s: State, t: nat, current: int)
    requires Inv(s, current)
    ensures Inv(Kill(s, t), current) && Standing(s, Kill(s, t))
    ensures forall x: nat :: x < |s.timers| && x != t ==> Kill(s, t).timers[x] == s.timers[x]
    ensures t == current ==> t < |s.timers| && Kill(s, t).timers[t].killMe
  {
    hide Times, Lists, Sorted, Balanced, Stands;
    var r := Kill(s, t);
    if t >= |s.timers| || s.timers[t].killMe {
      StandingStill(s);
    } else if s.timers[t].inExec {
      MarkKeeps(s, t, current);
    } else {
      EndKeeps(s, t, current);
      forall x: nat | x < |s.timers| ensures Stands(s, r, x) { EndedStands(s, r, t, x); }
    }
  }

  lemma {:induction false} KillAllKeeps(s: State, ts: seq<nat>, current: int)
    requires Inv(s, current)
    ensures Inv(KillAll(s, ts), current) && Standing(s, KillAll(s, ts))
    ensures forall x: nat :: x < |s.timers| && x !in ts ==> KillAll(s, ts).timers[x] == s.timers[x]
    ensures 0 <= current && current in ts ==> KillAll(s, ts).timers[current].killMe
    decreases |ts|
  {
    hide Inv, Times, Stands, Kill;
    if ts == [] {
      StandingStill(s);
    } else {
      var m := Kill(s, ts[0]);
      KillKeeps(s, ts[0], current);
      KillAllKeeps(m, ts[1..], current);
      StandingTwice(s, m, KillAll(m, ts[1..]));
      hide Standing;
      assert forall x :: x in ts <==> x == ts[0] || x in ts[1..];
      if 0 <= current && current == ts[0] { MarkStays(m, ts[1..], current); }
    }
  }

  lemma {:induction false} MarkStays(s: State, ts: seq<nat>, t: nat)
    requires t < |s.timers| && s.timers[t].killMe
    ensures KillAll(s, ts).timers[t].killMe
    decreases |ts|
  {
    if ts != [] { MarkStays(Kill(s, ts[0]), ts[1..], t); }
  }

  /** The timer is marked as being called. */
  function Begun(s: State, t: nat): State
    requires t < |s.timers|
  {
    var a := WithExec(s, t, true);
    a.(calls := a.calls + [Fires(t)])
  }

  lemma BegunKeeps(s: State, t: nat)
    requires Inv(s, NOBODY) && t < |s.timers| && !s.timers[t].inExec
    ensures Inv(Begun(s, t), t)
  {
    hide Times, Distinct;
    var r := Begun(s, t);
    assert Lists(r.timers, r.single, r.loops, r.freed, t);
    assert Sorted(r.timers, r.single);
    forall x: nat ensures Balanced(r.timers, r.calls, x, t) {
      assert Balanced(s.timers, s.calls, x, NOBODY);
      OneMore(s.calls, Fires(t), Made(x));
      OneMore(s.calls, Fires(t), Ends(x));
    }
  }

  lemma CalledKeeps(s: State, t: nat, listener: Listener)
    requires Inv(s, NOBODY) && t < |s.timers| && !s.timers[t].inExec
    ensures Inv(Called(s, t, listener), t) && Standing(Begun(s, t), Called(s, t, listener))
    ensures forall x: nat :: x < |s.timers| && x != t && x !in Answered(s, t, listener).kills ==>
              Called(s, t, listener).timers[x] == s.timers[x]
    ensures t in Answered(s, t, listener).kills ==> Called(s, t, listener).timers[t].killMe
    ensures t !in Answered(s, t, listener).kills ==> !Called(s, t, listener).timers[t].killMe
  {
    assert !s.timers[t].killMe;
    BegunKeeps(s, t);
    KillAllKeeps(Begun(s, t), Answered(s, t, listener).kills, t);
    hide Inv, KillAll, Standing;
  }

  // ----- what a frame does to one timer

  /** No other timer's `OnTimer`, of those called since `from`, kills the timer. */
  ghost predicate Spared(from: nat, calls: seq<Call>, t: nat, listener: Listener) {
    forall k :: from <= k < |calls| && calls[k].Fires? && calls[k] != Fires(t) ==> t !in listener(calls[..k + 1]).kills
  }

  lemma SparedPart(from: nat, calls: seq<Call>, later: nat, part: seq<Call>, t: nat, listener: Listener)
    requires Spared(from, calls, t, listener) && from <= later && part <= calls
    ensures Spared(later, part, t, listener)
  {
    forall k | later <= k < |part| && part[k].Fires? && part[k] != Fires(t)
      ensures t !in listener(part[..k + 1]).kills
    {
      assert calls[k] == part[k] && calls[..k + 1] == part[..k + 1];
    }
  }

  /** How often the timer is called between two states. */
  function Fired(s: State, r: State, t: nat): int {
    Times(r.calls, Fires(t)) - Times(s.calls, Fires(t))
  }

  /**
   The timer is called at most once, only when it is due and waits, and only if `may`. It is ended
   once if it stops waiting, and not before. A repeater that was called and stays is due again by
   `CalcNextThink`, and only being called or killed changes a timer.
   */
  ghost predicate Turn(now: real, s: State, r: State, t: nat, may: bool, listener: Listener)
    requires t < |s.timers| && t < |r.timers|
  {
    var before, after := s.timers[t], r.timers[t];
    && s.calls <= r.calls && 0 <= Fired(s, r, t) <= 1
    && (Fired(s, r, t) == 1 ==> may && !before.inExec && now >= before.toExec)
    && after.interval == before.interval && after.repeats == before.repeats
    && (before.inExec || (Fired(s, r, t) == 1 && !before.repeats) ==> after.inExec)
    && Times(r.calls, Ends(t)) == Times(s.calls, Ends(t)) + (if !before.inExec && after.inExec then 1 else 0)
    && (!after.inExec ==>
          after.toExec == if Fired(s, r, t) == 1 then CalcNextThink(now, before.toExec, before.interval)
            else before.toExec)
    && (Spared(|s.calls|, r.calls, t, listener) && Fired(s, r, t) == 0 ==> after == before)
  }

  lemma TurnTwice(now: real, s: State, m: State, r: State, t: nat, first: bool, second: bool, listener: Listener)
    requires t < |s.timers| && t < |m.timers| && t < |r.timers|
    requires Turn(now, s, m, t, first, listener) && Turn(now, m, r, t, second, listener)
             && (!(first && second) || m.timers[t].inExec)
    ensures Turn(now, s, r, t, first || second, listener)
  {
    hide Times, Spared;
    if Spared(|s.calls|, r.calls, t, listener) {
      SparedPart(|s.calls|, r.calls, |s.calls|, m.calls, t, listener);
      SparedPart(|s.calls|, r.calls, |m.calls|, r.calls, t, listener);
    }
  }

  lemma NoTurn(now: real, s: State, t: nat, may: bool, listener: Listener)
    requires t < |s.timers|
    ensures Turn(now, s, s, t, may, listener)
  {
    hide Spared;
  }

  /** After `OnTimer` of `x`, by the time the call is over. */
  lemma CalledTimes(s: State, x: nat, t: nat, listener: Listener)
    requires Inv(s, NOBODY) && x < |s.timers| && !s.timers[x].inExec && t < |s.timers|
    ensures var c := Called(s, x, listener);
            && Stands(Begun(s, x), c, t)
            && Fired(s, c, t) == (if t == x then 1 else 0)
            && Times(c.calls, Ends(t)) == Times(s.calls, Ends(t))
               + (if !s.timers[t].inExec && c.timers[t].inExec && t != x then 1 else 0)
            && c.timers[x].inExec && c.timers[x].repeats == s.timers[x].repeats
               && c.timers[x].interval == s.timers[x].interval
            && c.timers[x].toExec == s.timers[x].toExec
            && s.calls + [Fires(x)] <= c.calls
            && (Spared(|s.calls|, c.calls, t, listener) && t != x ==> c.timers[t] == s.timers[t])
  {
    hide Inv, Times, KillAll, Called, Lists, Spared;
    CalledKeeps(s, x, listener);
    OneMore(s.calls, Fires(x), Fires(t));
    OneMore(s.calls, Fires(x), Ends(t));
    OneMore(s.calls, Fires(x), Fires(x));
    var c := Called(s, x, listener);
    assert Stands(Begun(s, x), c, x) && Stands(Begun(s, x), c, t);
    assert Begun(s, x).calls <= c.calls;
    assert c.calls[|s.calls|] == Fires(x) && c.calls[..|s.calls| + 1] == s.calls + [Fires(x)];
    if Spared(|s.calls|, c.calls, t, listener) && t != x { SparedNow(s, x, t, c.calls, listener); }
  }

  lemma SparedNow(s: State, x: nat, t: nat, calls: seq<Call>, listener: Listener)
    requires Spared(|s.calls|, calls, t, listener) && t != x && s.calls + [Fires(x)] <= calls
    ensures t !in Answered(s, x, listener).kills
  {
    assert calls[|s.calls|] == Fires(x) && calls[..|s.calls| + 1] == s.calls + [Fires(x)];
  }

  lemma EndedTurn(now: real, s: State, x: nat, t: nat, listener: Listener)
    requires Inv(s, NOBODY) && x < |s.timers| && !s.timers[x].inExec && t < |s.timers| && now >= s.timers[x].toExec
    ensures Turn(now, s, Ended(Called(s, x, listener), x), t, t == x, listener)
    ensures Fired(s, Ended(Called(s, x, listener), x), t) == (if t == x then 1 else 0)
  {
    CalledTimes(s, x, t, listener);
    var c := Called(s, x, listener);
    var r := Ended(c, x);
    assert r.calls == c.calls + [Ends(x)] && r.timers == c.timers;
    hide Inv, Times, Called, Spared, Ended, Stands, Begun, KillAll, CalcNextThink, WithExec;
    assert s.calls <= r.calls && c.calls <= r.calls;
    OneMore(c.calls, Ends(x), Fires(t));
    OneMore(c.calls, Ends(x), Ends(t));
    if Spared(|s.calls|, r.calls, t, listener) { SparedPart(|s.calls|, r.calls, |s.calls|, c.calls, t, listener); }
  }

  lemma AgainTurn(now: real, s: State, x: nat, t: nat, listener: Listener)
    requires Inv(s, NOBODY) && x < |s.timers| && s.timers[x].repeats && !s.timers[x].inExec && t < |s.timers|
             && now >= s.timers[x].toExec
    ensures var c := Called(s, x, listener);
            var r := Again(c, x, CalcNextThink(now, c.timers[x].toExec, c.timers[x].interval));
            && Turn(now, s, r, t, t == x, listener)
            && Fired(s, r, t) == (if t == x then 1 else 0)
  {
    CalledTimes(s, x, t, listener);
    hide Inv, Times, Called, Spared;
  }

  // ----- the two loops of a frame

  lemma {:induction false} KillAllShrinks(s: State, ts: seq<nat>)
    ensures |KillAll(s, ts).single| <= |s.single|
    decreases |ts|
  {
    if ts != [] { KillAllShrinks(Kill(s, ts[0]), ts[1..]); }
  }

  lemma FireSingleKeeps(s: State, t: nat, listener: Listener)
    requires Inv(s, NOBODY) && t < |s.timers| && !s.timers[t].inExec
    ensures Inv(FireSingle(s, t, listener), NOBODY)
    ensures !s.timers[t].repeats ==> |FireSingle(s, t, listener).single| < |s.single|
  {
    hide KillAll, Remove, Balanced, Stands, Times, Sorted, Distinct, Answered, Lists, Marks, Inv, Called, Standing;
    var c := Called(s, t, listener);
    CalledKeeps(s, t, listener);
    CalledTimes(s, t, t, listener);
    CalledShrinks(s, t, listener);
    assert c == WithExec(c, t, true);
    EndKeeps(c, t, t);
    if !s.timers[t].repeats {
      WaitsInSingle(c, t);
      RemoveAt(c.single, t);
    }
  }

  lemma CalledShrinks(s: State, t: nat, listener: Listener)
    requires t < |s.timers|
    ensures |Called(s, t, listener).single| <= |s.single|
  {
    KillAllShrinks(Begun(s, t), Answered(s, t, listener).kills);
    hide KillAll;
  }

  lemma WaitsInSingle(c: State, t: nat)
    requires Inv(c, t) && t < |c.timers| && !c.timers[t].repeats
    ensures t in c.single && Distinct(c.single)
  {
    hide Balanced, Sorted, Distinct;
  }

  lemma FireSingleIs(s: State, t: nat, listener: Listener)
    requires t < |s.timers|
    ensures FireSingle(s, t, listener) == Ended(Called(s, t, listener), t)
  {}

  lemma FireLoopKeeps(now: real, s: State, t: nat, listener: Listener)
    requires Inv(s, NOBODY) && t < |s.timers| && !s.timers[t].inExec && s.timers[t].repeats
    ensures Inv(FireLoop(now, s, t, listener), NOBODY)
  {
    var c := Called(s, t, listener);
    CalledKeeps(s, t, listener);
    CalledTimes(s, t, t, listener);
    hide KillAll, Called, Remove, Stands, Times, Answered, Turn, Sorted, Distinct, Balanced;
    if c.timers[t].killMe || Answered(s, t, listener).stops {
      EndKeeps(c, t, t);
      assert c == WithExec(c, t, true);
    } else {
      AgainKeeps(c, t, CalcNextThink(now, c.timers[t].toExec, c.timers[t].interval));
    }
  }

  lemma AgainKeeps(c: State, t: nat, next: real)
    requires Inv(c, t) && t < |c.timers| && !c.timers[t].killMe && c.timers[t].repeats
    ensures Inv(Again(c, t, next), NOBODY)
  {
    hide Times, Distinct;
    var r := Again(c, t, next);
    assert Lists(r.timers, r.single, r.loops, r.freed, NOBODY);
    assert Sorted(r.timers, r.single);
    forall x: nat ensures Balanced(r.timers, r.calls, x, NOBODY) {
      assert Balanced(c.timers, c.calls, x, t);
    }
  }

  ghost predicate NoneDue(now: real, s: State) {
    forall i :: 0 <= i < |s.single| ==> s.single[i] < |s.timers| && now < s.timers[s.single[i]].toExec
  }

  lemma {:induction false} FireSinglesKeeps(now: real, s: State, listener: Listener)
    requires Inv(s, NOBODY)
    ensures var r := FireSingles(now, s, listener);
            Inv(r, NOBODY) && NoneDue(now, r) && |r.timers| == |s.timers| && s.calls <= r.calls
    decreases |s.single|
  {
    if s.single != [] && now >= s.timers[s.single[0]].toExec {
      var t := s.single[0];
      assert t in s.single;
      FireSingleKeeps(s, t, listener);
      CalledKeeps(s, t, listener);
      assert s.calls <= FireSingle(s, t, listener).calls;
      hide Inv, FireSingle, Called;
      FireSinglesKeeps(now, FireSingle(s, t, listener), listener);
    }
  }

  lemma {:induction false} FireSinglesTurn(now: real, s: State, t: nat, listener: Listener)
    requires Inv(s, NOBODY) && t < |s.timers|
    ensures |FireSingles(now, s, listener).timers| == |s.timers|
    ensures Turn(now, s, FireSingles(now, s, listener), t, !s.timers[t].repeats, listener)
    decreases |s.single|
  {
    hide Turn;
    if s.single != [] && now >= s.timers[s.single[0]].toExec {
      var x := s.single[0];
      assert x in s.single;
      var m := FireSingle(s, x, listener);
      FireSingleKeeps(s, x, listener);
      EndedTurn(now, s, x, t, listener);
      hide Inv, FireSingle, Called;
      FireSinglesTurn(now, m, t, listener);
      TurnKeeps(now, s, m, t, t == x, listener);
      TurnTwice(now, s, m, FireSingles(now, m, listener), t, t == x, !s.timers[t].repeats, listener);
      TurnMay(now, s, FireSingles(now, m, listener), t, t == x || !s.timers[t].repeats, !s.timers[t].repeats, listener);
    } else {
      NoTurn(now, s, t, !s.timers[t].repeats, listener);
    }
  }

  /** What a turn leaves as it was; and a one-shot that was called is not called again. */
  lemma TurnKeeps(now: real, s: State, r: State, t: nat, may: bool, listener: Listener)
    requires t < |s.timers| && t < |r.timers| && Turn(now, s, r, t, may, listener)
    ensures r.timers[t].repeats == s.timers[t].repeats
    ensures Fired(s, r, t) == 1 && !s.timers[t].repeats ==> r.timers[t].inExec
  {
    hide Spared, Fired;
  }

  lemma TurnMay(now: real, s: State, r: State, t: nat, may: bool, might: bool, listener: Listener)
    requires t < |s.timers| && t < |r.timers| && Turn(now, s, r, t, may, listener) && (may ==> might)
    ensures Turn(now, s, r, t, might, listener)
  {
    hide Spared, Fired;
  }

  /** One step of the second loop. */
  function LoopStep(now: real, s: State, t: nat, listener: Listener): (r: State)
    ensures |r.timers| == |s.timers|
  {
    if t < |s.timers| && !s.timers[t].inExec && now >= s.timers[t].toExec then FireLoop(now, s, t, listener) else s
  }

  lemma LoopStepKeeps(now: real, s: State, x: nat, listener: Listener)
    requires Inv(s, NOBODY) && x < |s.timers| && s.timers[x].repeats
    ensures Inv(LoopStep(now, s, x, listener), NOBODY) && s.calls <= LoopStep(now, s, x, listener).calls
  {
    if !s.timers[x].inExec {
      FireLoopKeeps(now, s, x, listener);
      CalledKeeps(s, x, listener);
      hide Inv, Called;
    }
  }

  lemma LoopStepTurn(now: real, s: State, x: nat, t: nat, listener: Listener)
    requires Inv(s, NOBODY) && x < |s.timers| && s.timers[x].repeats && t < |s.timers|
    ensures Turn(now, s, LoopStep(now, s, x, listener), t, t == x, listener)
    ensures t == x && !s.timers[t].inExec && now >= s.timers[t].toExec ==>
              Fired(s, LoopStep(now, s, x, listener), t) == 1
  {
    hide Turn, Fired, Called;
    if !s.timers[x].inExec && now >= s.timers[x].toExec {
      EndedTurn(now, s, x, t, listener);
      AgainTurn(now, s, x, t, listener);
    } else {
      NoTurn(now, s, t, t == x, listener);
    }
  }

  ghost predicate Repeaters(timers: seq<Timer>, list: seq<nat>) {
    forall i :: 0 <= i < |list| ==> list[i] < |timers| && timers[list[i]].repeats
  }

  lemma RepeatersStay(now: real, s: State, x: nat, list: seq<nat>, listener: Listener)
    requires Inv(s, NOBODY) && x < |s.timers| && s.timers[x].repeats && Repeaters(s.timers, list)
    ensures Repeaters(LoopStep(now, s, x, listener).timers, list)
  {
    hide Inv, Fired, LoopStep;
    forall i | 0 <= i < |list| ensures LoopStep(now, s, x, listener).timers[list[i]].repeats {
      LoopStepTurn(now, s, x, list[i], listener);
    }
  }

  lemma {:induction false} FireLoopsKeeps(now: real, s: State, list: seq<nat>, listener: Listener)
    requires Inv(s, NOBODY) && Repeaters(s.timers, list)
    ensures var r := FireLoops(now, s, list, listener);
            Inv(r, NOBODY) && |r.timers| == |s.timers| && s.calls <= r.calls
    decreases |list|
  {
    hide Inv;
    if list != [] {
      LoopStepKeeps(now, s, list[0], listener);
      RepeatersStay(now, s, list[0], list, listener);
      FireLoopsKeeps(now, LoopStep(now, s, list[0], listener), list[1..], listener);
    }
  }

  lemma {:induction false} FireLoopsTurn(now: real, s: State, list: seq<nat>, t: nat, listener: Listener)
    requires Inv(s, NOBODY) && Repeaters(s.timers, list) && Distinct(list) && t < |s.timers|
    ensures |FireLoops(now, s, list, listener).timers| == |s.timers|
    ensures Turn(now, s, FireLoops(now, s, list, listener), t, t in list, listener)
    decreases |list|
  {
    hide Inv, Turn, Called, FireLoop, Times, Spared;
    if list == [] {
      NoTurn(now, s, t, t in list, listener);
    } else {
      var x := list[0];
      var m := LoopStep(now, s, x, listener);
      LoopStepKeeps(now, s, x, listener);
      RepeatersStay(now, s, x, list, listener);
      LoopStepTurn(now, s, x, t, listener);
      FireLoopsTurn(now, m, list[1..], t, listener);
      var r := FireLoops(now, m, list[1..], listener);
      assert r == FireLoops(now, s, list, listener);
      hide LoopStep, Repeaters, FireLoops;
      TurnTwice(now, s, m, r, t, t == x, t in list[1..], listener);
      TurnMay(now, s, r, t, t == x || t in list[1..], t in list, listener);
    }
  }

  lemma {:induction false} LoopsCallTheDue(now: real, s: State, list: seq<nat>, t: nat, listener: Listener)
    requires Inv(s, NOBODY) && Repeaters(s.timers, list) && Distinct(list) && t in list
    requires Spared(|s.calls|, FireLoops(now, s, list, listener).calls, t, listener)
    requires !s.timers[t].inExec && now >= s.timers[t].toExec
    ensures |FireLoops(now, s, list, listener).timers| == |s.timers|
    ensures Fired(s, FireLoops(now, s, list, listener), t) == 1
    decreases |list|
  {
    hide Inv, Turn, Called, FireLoop, Times, Spared;
    var x := list[0];
    var m := LoopStep(now, s, x, listener);
    LoopStepKeeps(now, s, x, listener);
    RepeatersStay(now, s, x, list, listener);
    LoopStepTurn(now, s, x, t, listener);
    FireLoopsTurn(now, m, list[1..], t, listener);
    assert FireLoops(now, m, list[1..], listener) == FireLoops(now, s, list, listener);
    assert Repeaters(m.timers, list[1..]);
    FireLoopsKeeps(now, m, list[1..], listener);
    hide LoopStep, Repeaters, FireLoops;
    if t == x {
      assert t !in list[1..];
      TurnBounds(now, m, FireLoops(now, m, list[1..], listener), t, t in list[1..], listener);
    } else {
      var calls := FireLoops(now, s, list, listener).calls;
      SparedPart(|s.calls|, calls, |s.calls|, m.calls, t, listener);
      SparedPart(|s.calls|, calls, |m.calls|, calls, t, listener);
      SparedStands(now, s, m, t, t == x, listener);
      LoopsCallTheDue(now, m, list[1..], t, listener);
    }
  }

  lemma SparedStands(now: real, s: State, r: State, t: nat, may: bool, listener: Listener)
    requires t < |s.timers| && t < |r.timers| && Turn(now, s, r, t, may, listener) && !may
    ensures Fired(s, r, t) == 0
    ensures Spared(|s.calls|, r.calls, t, listener) ==> r.timers[t] == s.timers[t]
  {
    hide Fired, Spared;
  }

  lemma TurnBounds(now: real, s: State, r: State, t: nat, may: bool, listener: Listener)
    requires t < |s.timers| && t < |r.timers| && Turn(now, s, r, t, may, listener)
    ensures 0 <= Fired(s, r, t) <= 1
    ensures s.timers[t].inExec || now < s.timers[t].toExec || !may ==> Fired(s, r, t) == 0
  {
    hide Fired, Spared;
  }

  // ----- a whole frame

  lemma FrameHalves(now: real, s: State, listener: Listener)
    requires Inv(s, NOBODY)
    ensures var a := FireSingles(now, s, listener);
            Inv(a, NOBODY) && NoneDue(now, a) && |a.timers| == |s.timers| && Repeaters(a.timers, a.loops)
              && Distinct(a.loops) && s.calls <= a.calls
  {
    FireSinglesKeeps(now, s, listener);
    hide FireSingles, Sorted, Balanced, Marks;
    var a := FireSingles(now, s, listener);
    forall i | 0 <= i < |a.loops| ensures a.loops[i] < |a.timers| && a.timers[a.loops[i]].repeats {
      assert a.loops[i] in a.loops;
    }
  }

  /** A frame keeps the invariant. */
  lemma FrameKeeps(now: real, s: State, listener: Listener)
    requires Inv(s, NOBODY)
    ensures var r := RunFrame(now, s, listener);
            Inv(r, NOBODY) && |r.timers| == |s.timers| && s.calls <= r.calls
  {
    FrameHalves(now, s, listener);
    hide Inv, FireSingles, FireLoops;
    var a := FireSingles(now, s, listener);
    FireLoopsKeeps(now, a, a.loops, listener);
  }

  /**
   In any frame, whatever the listeners kill: no timer is called twice, none before it is due, and a
   timer is ended once if it leaves its list, and not otherwise.
   */
  lemma FrameTurn(now: real, s: State, t: nat, listener: Listener)
    requires Inv(s, NOBODY) && t < |s.timers|
    ensures |RunFrame(now, s, listener).timers| == |s.timers|
    ensures Turn(now, s, RunFrame(now, s, listener), t, true, listener)
  {
    FrameHalves(now, s, listener);
    hide Inv, FireSingles, FireLoops, Turn;
    var a := FireSingles(now, s, listener);
    var r := FireLoops(now, a, a.loops, listener);
    FireSinglesTurn(now, s, t, listener);
    FireLoopsTurn(now, a, a.loops, t, listener);
    assert r == RunFrame(now, s, listener);
    hide RunFrame;
    TurnKeeps(now, s, a, t, !s.timers[t].repeats, listener);
    if t in a.loops { assert a.timers[t].repeats by { RepeatersIn(a.timers, a.loops, t); } }
    TurnTwice(now, s, a, r, t, !s.timers[t].repeats, t in a.loops, listener);
    TurnMay(now, s, r, t, !s.timers[t].repeats || t in a.loops, true, listener);
  }

  lemma RepeatersIn(timers: seq<Timer>, list: seq<nat>, t: nat)
    requires Repeaters(timers, list) && t in list
    ensures t < |timers| && timers[t].repeats
  {}

  lemma FrameCallsTheDue(now: real, s: State, t: nat, listener: Listener)
    requires Inv(s, NOBODY) && t < |s.timers| && !s.timers[t].inExec && now >= s.timers[t].toExec
    requires Spared(|s.calls|, RunFrame(now, s, listener).calls, t, listener)
    ensures Fired(s, RunFrame(now, s, listener), t) == 1
  {
    hide FireSingles, FireLoops, Spared, Fired, Inv, Repeaters;
    var a, r := FireSingles(now, s, listener), RunFrame(now, s, listener);
    FrameHalves(now, s, listener);
    FireSinglesTurn(now, s, t, listener);
    FireLoopsTurn(now, a, a.loops, t, listener);
    assert r == FireLoops(now, a, a.loops, listener);
    FiredInHalves(s, a, r, t);
    if s.timers[t].repeats {
      FireLoopsKeeps(now, a, a.loops, listener);
      SparedPart(|s.calls|, r.calls, |s.calls|, a.calls, t, listener);
      SparedPart(|s.calls|, r.calls, |a.calls|, r.calls, t, listener);
      WhereItIs(a, t);
      LoopsCallTheDue(now, a, a.loops, t, listener);
    } else {
      FrameEmpties(now, s, t, listener);
      FrameTurn(now, s, t, listener);
    }
  }

  lemma FiredInHalves(s: State, m: State, r: State, t: nat)
    ensures Fired(s, r, t) == Fired(s, m, t) + Fired(m, r, t)
  {}

  /** Where a timer of the state waits, or that it is free. */
  lemma WhereItIs(s: State, t: nat)
    requires Inv(s, NOBODY) && t < |s.timers|
    ensures t in s.single <==> !s.timers[t].inExec && !s.timers[t].repeats
    ensures t in s.loops <==> !s.timers[t].inExec && s.timers[t].repeats
    ensures t in s.freed <==> s.timers[t].inExec
  {}

  /**
   A frame calls each timer that is due, once, and no other, as long as no other timer's callback,
   of those called in this frame, kills it. A timer that fires once is then ended and free; a repeater is ended,
     or waits for the
   time that `CalcNextThink` gives. A timer that is not due is left alone.
   */
  lemma EachDueTimerFiresOnce(now: real, s: State, t: nat, listener: Listener)
    requires Inv(s, NOBODY) && (t in s.single || t in s.loops)
    requires Spared(|s.calls|, RunFrame(now, s, listener).calls, t, listener)
    ensures t < |s.timers| == |RunFrame(now, s, listener).timers|
    ensures var r, due := RunFrame(now, s, listener), now >= s.timers[t].toExec;
            && Fired(s, r, t) == (if due then 1 else 0)
            && (!due ==>
                  r.timers[t] == s.timers[t] && (t in r.single <==> t in s.single) && (t in r.loops <==> t in s.loops))
            && (due && t in s.single ==> t in r.freed && Times(r.calls, Ends(t)) == Times(s.calls, Ends(t)) + 1)
            && (due && t in s.loops ==>
                  || (t in r.freed && Times(r.calls, Ends(t)) == Times(s.calls, Ends(t)) + 1)
                  || (t in r.loops && Times(r.calls, Ends(t)) == Times(s.calls, Ends(t))
                      && r.timers[t].toExec == CalcNextThink(now, s.timers[t].toExec, s.timers[t].interval)))
  {
    assert t < |s.timers|;
    WhereItIs(s, t);
    var r, due := RunFrame(now, s, listener), now >= s.timers[t].toExec;
    FrameKeeps(now, s, listener);
    FrameTurn(now, s, t, listener);
    WhereItIs(r, t);
    if due { FrameCallsTheDue(now, s, t, listener); }
    if due && t in s.single { FrameEmpties(now, s, t, listener); }
    hide Inv, RunFrame, Times, CalcNextThink;
  }

  /** No timer that fires once is left waiting when it is due. */
  lemma FrameEmpties(now: real, s: State, t: nat, listener: Listener)
    requires Inv(s, NOBODY) && t < |s.timers| && !s.timers[t].repeats && now >= s.timers[t].toExec
    ensures |RunFrame(now, s, listener).timers| == |s.timers|
    ensures RunFrame(now, s, listener).timers[t].inExec
  {
    FrameHalves(now, s, listener);
    hide FireSingles, FireLoops, Spared, Fired, Times;
    var a := FireSingles(now, s, listener);
    FireSinglesTurn(now, s, t, listener);
    FireLoopsTurn(now, a, a.loops, t, listener);
  }

  // ----- the order of the calls

  lemma NewCallCounts(s: State, r: State, k: nat, t: nat)
    requires s.calls <= r.calls && |s.calls| <= k < |r.calls| && r.calls[k] == Fires(t)
    ensures Fired(s, r, t) > 0
  {
    var added := r.calls[|s.calls|..];
    assert r.calls == s.calls + added;
    assert added[k - |s.calls|] == Fires(t);
    assert multiset(r.calls) == multiset(s.calls) + multiset(added);
    assert Fires(t) in multiset(added);
  }

  /** A timer that fires once is called behind those of its kind due before it, and before the repeaters. */
  ghost predicate Follows(timers: seq<Timer>, a: Call, b: Call) {
    a.Fires? && b.Fires? && a.timer < |timers| && b.timer < |timers| && !timers[b.timer].repeats ==>
      !timers[a.timer].repeats && timers[a.timer].toExec <= timers[b.timer].toExec
  }

  ghost predicate InOrder(timers: seq<Timer>, calls: seq<Call>, start: nat) {
    forall i, j :: start <= i < j < |calls| ==> Follows(timers, calls[i], calls[j])
  }

  lemma FollowsNone(timers: seq<Timer>, a: Call, b: Call)
    requires !a.Fires?
    ensures Follows(timers, a, b)
  {}

  lemma FirstIsDueFirst(s: State, t: nat)
    requires Inv(s, NOBODY) && t in s.single
    ensures s.timers[s.single[0]].toExec <= s.timers[t].toExec
  {
    hide Lists, Balanced;
    var i :| 0 <= i < |s.single| && s.single[i] == t;
  }

  /** A timer that is called in a frame waited before, and was due. */
  lemma CalledWaited(now: real, s: State, r: State, k: nat, may: bool, listener: Listener)
    requires |r.timers| == |s.timers| && s.calls <= r.calls && |s.calls| <= k < |r.calls| && r.calls[k].Fires?
    requires r.calls[k].timer < |s.timers| && Turn(now, s, r, r.calls[k].timer, may, listener)
    ensures may && !s.timers[r.calls[k].timer].inExec && now >= s.timers[r.calls[k].timer].toExec
  {
    NewCallCounts(s, r, k, r.calls[k].timer);
    hide Fired, Spared;
  }

  lemma SingleCalls(now: real, s: State, x: nat, k: nat, listener: Listener)
    requires Inv(s, NOBODY) && x < |s.timers| && !s.timers[x].inExec
    requires |s.calls| <= k < |FireSingle(s, x, listener).calls| && FireSingle(s, x, listener).calls[k].Fires?
    ensures FireSingle(s, x, listener).calls[k] == Fires(x)
  {
    CalledKeeps(s, x, listener);
    hide Inv, Called, Stands;
  }

  /** A timer that still waits has the time it had. */
  lemma WaitsUnchanged(now: real, s: State, m: State, t: nat, listener: Listener)
    requires t < |s.timers| && t < |m.timers| && Turn(now, s, m, t, !s.timers[t].repeats, listener)
             && !m.timers[t].inExec
    ensures m.timers[t].repeats == s.timers[t].repeats && m.timers[t].toExec == s.timers[t].toExec
  {
    hide Fired, Spared;
  }

  /** The pair of calls is in order, the first call being that of the first timer. */
  lemma FirstPair(now: real, s: State, r: State, i: nat, j: nat, listener: Listener)
    requires Inv(s, NOBODY) && s.single != [] && r == FireSingles(now, s, listener) && s.calls <= r.calls
    requires |s.calls| <= i < j < |r.calls| && r.calls[i] == Fires(s.single[0])
    ensures Follows(s.timers, r.calls[i], r.calls[j])
  {
    assert s.single[0] in s.single;
    if r.calls[j].Fires? && r.calls[j].timer < |s.timers| {
      var t := r.calls[j].timer;
      FireSinglesTurn(now, s, t, listener);
      hide FireSingles, Turn, Balanced, Sorted, Marks;
      CalledWaited(now, s, r, j, !s.timers[t].repeats, listener);
      FirstIsDueFirst(s, t);
    }
  }

  /** The pair is in order if it is for the timers as they are after the first call. */
  lemma LaterPair(now: real, s: State, x: nat, m: State, r: State, i: nat, j: nat, listener: Listener)
    requires Inv(s, NOBODY) && x < |s.timers| && !s.timers[x].inExec && !s.timers[x].repeats
             && now >= s.timers[x].toExec
    requires m == FireSingle(s, x, listener) && Inv(m, NOBODY) && r == FireSingles(now, m, listener)
             && m.calls <= r.calls
    requires |m.calls| <= i < j < |r.calls| && Follows(m.timers, r.calls[i], r.calls[j])
    ensures Follows(s.timers, r.calls[i], r.calls[j])
  {
    hide FireSingles, Turn, Inv, Called;
    if r.calls[i].Fires? && r.calls[j].Fires? && r.calls[i].timer < |s.timers| && r.calls[j].timer < |s.timers| {
      var a, b := r.calls[i].timer, r.calls[j].timer;
      LaterCall(now, s, x, m, r, i, listener);
      LaterCall(now, s, x, m, r, j, listener);
    }
  }

  lemma LaterCall(now: real, s: State, x: nat, m: State, r: State, k: nat, listener: Listener)
    requires Inv(s, NOBODY) && x < |s.timers| && !s.timers[x].inExec && !s.timers[x].repeats
             && now >= s.timers[x].toExec
    requires m == FireSingle(s, x, listener) && Inv(m, NOBODY) && r == FireSingles(now, m, listener)
             && m.calls <= r.calls
    requires |m.calls| <= k < |r.calls| && r.calls[k].Fires? && r.calls[k].timer < |s.timers|
    ensures m.timers[r.calls[k].timer].repeats == s.timers[r.calls[k].timer].repeats
    ensures m.timers[r.calls[k].timer].toExec == s.timers[r.calls[k].timer].toExec
  {
    var t := r.calls[k].timer;
    hide FireSingles, Turn, Inv, Called;
    EndedTurn(now, s, x, t, listener);
    FireSinglesTurn(now, m, t, listener);
    CalledWaited(now, m, r, k, !m.timers[t].repeats, listener);
    TurnMay(now, s, m, t, t == x, !s.timers[t].repeats, listener);
    WaitsUnchanged(now, s, m, t, listener);
  }

  lemma {:induction false} FireSinglesInOrder(now: real, s: State, listener: Listener)
    requires Inv(s, NOBODY)
    ensures InOrder(s.timers, FireSingles(now, s, listener).calls, |s.calls|)
    decreases |s.single|
  {
    FireSinglesKeeps(now, s, listener);
    if s.single != [] && now >= s.timers[s.single[0]].toExec {
      var x := s.single[0];
      assert x in s.single;
      var m := FireSingle(s, x, listener);
      FireSingleKeeps(s, x, listener);
      CalledKeeps(s, x, listener);
      assert s.calls <= m.calls;
      FireSinglesInOrder(now, m, listener);
      FireSinglesKeeps(now, m, listener);
      var r := FireSingles(now, m, listener);
      assert r == FireSingles(now, s, listener);
      assert !s.timers[x].inExec && !s.timers[x].repeats;
      hide Inv, FireSingle, Called, FireSingles, Standing, Follows;
      forall i, j | |s.calls| <= i < j < |r.calls| ensures Follows(s.timers, r.calls[i], r.calls[j]) {
        if i >= |m.calls| {
          LaterPair(now, s, x, m, r, i, j, listener);
        } else if r.calls[i].Fires? {
          assert m.calls[i] == r.calls[i];
          SingleCalls(now, s, x, i, listener);
          FirstPair(now, s, r, i, j, listener);
        } else {
          FollowsNone(s.timers, r.calls[i], r.calls[j]);
        }
      }
    }
  }

  /**
   In any frame the timers that fire once are called in the order they are due in, and before the
   repeaters.
   */
  lemma FrameIsInOrder(now: real, s: State, listener: Listener)
    requires Inv(s, NOBODY)
    ensures InOrder(s.timers, RunFrame(now, s, listener).calls, |s.calls|)
  {
    FrameHalves(now, s, listener);
    FireSinglesInOrder(now, s, listener);
    var a := FireSingles(now, s, listener);
    hide Inv, FireSingles, FireLoops, Turn;
    FireLoopsKeeps(now, a, a.loops, listener);
    var r := FireLoops(now, a, a.loops, listener);
    forall i, j | |s.calls| <= i < j < |r.calls| ensures Follows(s.timers, r.calls[i], r.calls[j]) {
      if j < |a.calls| {
        assert Follows(s.timers, a.calls[i], a.calls[j]);
      } else if r.calls[j].Fires? && r.calls[j].timer < |s.timers| {
        var t := r.calls[j].timer;
        FireSinglesTurn(now, s, t, listener);
        FireLoopsTurn(now, a, a.loops, t, listener);
        CalledWaited(now, a, r, j, t in a.loops, listener);
        RepeatersIn(a.timers, a.loops, t);
        TurnKeeps(now, s, a, t, !s.timers[t].repeats, listener);
      }
    }
  }

  // ----- the other operations

  /** `FireTimerOnce` keeps the invariant, and leaves a free timer and one being called alone. */
  lemma FireOnceKeeps(now: real, s: State, t: nat, delay: bool, listener: Listener)
    requires Inv(s, NOBODY)
    ensures Inv(FireOnce(now, s, t, delay, listener), NOBODY)
    ensures t in s.freed ==> FireOnce(now, s, t, delay, listener) == s
  {
    if t < |s.timers| && !s.timers[t].inExec {
      var c := Called(s, t, listener);
      CalledKeeps(s, t, listener);
      CalledTimes(s, t, t, listener);
      WhereItIs(s, t);
      assert c.timers[t].inExec;
      hide Called, Stands, Times, Answered, Sorted, Distinct, Balanced;
      if !c.timers[t].repeats || c.timers[t].killMe || Answered(s, t, listener).stops {
        EndKeeps(c, t, t);
        assert c == WithExec(c, t, true);
      } else {
        AgainKeeps(c, t, if delay then now + c.timers[t].interval else c.timers[t].toExec);
      }
    }
  }

  /** Killing a timer that is free does nothing but mark it. */
  lemma StaleKill(s: State, t: nat)
    requires Inv(s, NOBODY) && t in s.freed
    ensures Kill(s, t).single == s.single && Kill(s, t).loops == s.loops && Kill(s, t).freed == s.freed
            && Kill(s, t).calls == s.calls
  {}

  /** `more` holds what `s` holds, and `t` if it is put there. */
  ghost predicate With(s: seq<nat>, t: nat, put: bool, more: seq<nat>) {
    Distinct(more) && forall x :: x in more <==> x in s || (put && x == t)
  }

  lemma ListsCreated(timers: seq<Timer>, single: seq<nat>, loops: seq<nat>, freed: seq<nat>, t: nat,
                     after: seq<Timer>, single': seq<nat>, loops': seq<nat>, freed': seq<nat>)
    requires Lists(timers, single, loops, freed, NOBODY)
    requires |timers| <= |after| && t < |after| && (t >= |timers| || timers[t].inExec)
             && |after| <= |timers| + (if t == |timers| then 1 else 0)
    requires forall x: nat :: x < |timers| && x != t ==> after[x] == timers[x]
    requires !after[t].inExec && With(single, t, !after[t].repeats, single') && With(loops, t, after[t].repeats, loops')
    requires Distinct(freed') && forall x :: x in freed' <==> x in freed && x != t
    ensures Lists(after, single', loops', freed', NOBODY)
  {
    hide Distinct;
  }

  lemma InsertedAt(s: seq<nat>, k: nat, t: nat)
    requires Distinct(s) && t !in s && k <= |s|
    ensures With(s, t, true, Inserted(s, k, t))
  {
    var r := Inserted(s, k, t);
    forall i | 0 <= i < |s| ensures s[i] in r { assert r[if i < k then i else i + 1] == s[i]; }
  }

  lemma AddedAt(s: seq<nat>, t: nat)
    requires Distinct(s) && t !in s
    ensures With(s, t, true, s + [t])
  {}

  lemma LastLeaves(s: seq<nat>)
    requires Distinct(s) && s != []
    ensures Distinct(s[..|s| - 1]) && forall x :: x in s[..|s| - 1] <==> x in s && x != s[|s| - 1]
  {
    forall x | x in s && x != s[|s| - 1] ensures x in s[..|s| - 1] {
      var i :| 0 <= i < |s| && s[i] == x;
      assert s[..|s| - 1][i] == x;
    }
  }

  lemma CreatePlaces(s: State)
    requires Inv(s, NOBODY)
    ensures Records(s)
  {
    forall i | 0 <= i < |s.freed| ensures s.freed[i] < |s.timers| { assert s.freed[i] in s.freed; }
    forall i | 0 <= i < |s.single| ensures s.single[i] < |s.timers| { assert s.single[i] in s.single; }
  }

  lemma PlaceFits(timers: seq<Timer>, s: seq<nat>, to: real)
    requires Sorted(timers, s)
    ensures var k := Place(timers, s, to);
            && (forall i :: 0 <= i < k ==> timers[s[i]].toExec <= to)
            && (forall i :: k <= i < |s| ==> to <= timers[s[i]].toExec)
  {}

  lemma SortedInserted(timers: seq<Timer>, after: seq<Timer>, s: seq<nat>, k: nat, t: nat)
    requires Sorted(timers, s) && t < |after| && t !in s && k <= |s|
    requires forall x :: x in s ==> x < |after| && after[x] == timers[x]
    requires forall i :: 0 <= i < k ==> timers[s[i]].toExec <= after[t].toExec
    requires forall i :: k <= i < |s| ==> after[t].toExec <= timers[s[i]].toExec
    ensures Sorted(after, Inserted(s, k, t))
  {
    var r := Inserted(s, k, t);
    assert forall i :: 0 <= i < |r| ==> r[i] == if i < k then s[i] else if i == k then t else s[i - 1];
    assert forall i :: 0 <= i < |s| ==> s[i] in s;
  }

  lemma SortedElsewhere(timers: seq<Timer>, after: seq<Timer>, s: seq<nat>)
    requires Sorted(timers, s) && forall x :: x in s ==> x < |after| && after[x] == timers[x]
    ensures Sorted(after, s)
  {
    assert forall i :: 0 <= i < |s| ==> s[i] in s;
  }

  /** `CreateTimer` keeps the invariant: timers that fire once stay in the order they are due in. */
  lemma CreateKeeps(now: real, s: State, interval: real, repeats: bool)
    requires Inv(s, NOBODY)
    ensures Records(s)
    ensures Inv(Create(now, s, interval, repeats), NOBODY)
  {
    CreatePlaces(s);
    CreateLists(now, s, interval, repeats);
    CreateSorted(now, s, interval, repeats);
    CreateBalanced(now, s, interval, repeats);
    var r := Create(now, s, interval, repeats);
    assert Marks(r.timers, NOBODY);
    hide Marks, Lists, Sorted, Balanced, Create, Records;
  }

  lemma CreateLists(now: real, s: State, interval: real, repeats: bool)
    requires Inv(s, NOBODY)
    requires Records(s)
    ensures var r := Create(now, s, interval, repeats); Lists(r.timers, r.single, r.loops, r.freed, NOBODY)
  {
    var r, t := Create(now, s, interval, repeats), Fresh(s);
    FreshIsFree(s);
    InsertedAt(s.single, Place(s.timers, s.single, now + interval), t);
    AddedAt(s.loops, t);
    if s.freed != [] { LastLeaves(s.freed); }
    hide Inserted, Place, Balanced, Sorted, Marks;
    ListsCreated(s.timers, s.single, s.loops, s.freed, t, r.timers, r.single, r.loops, r.freed);
  }

  lemma FreshIsFree(s: State)
    requires Inv(s, NOBODY)
    ensures Fresh(s) !in s.single && Fresh(s) !in s.loops && (Fresh(s) >= |s.timers| || s.timers[Fresh(s)].inExec)
  {
    if s.freed != [] { assert s.freed[|s.freed| - 1] in s.freed; }
  }

  lemma CreateSorted(now: real, s: State, interval: real, repeats: bool)
    requires Inv(s, NOBODY)
    requires Records(s)
    ensures var r := Create(now, s, interval, repeats); Sorted(r.timers, r.single)
  {
    var r, t := Create(now, s, interval, repeats), Fresh(s);
    FreshIsFree(s);
    PlaceFits(s.timers, s.single, now + interval);
    hide Inserted, Place, Balanced, Lists, Marks;
    SortedElsewhere(s.timers, r.timers, s.single);
    if !repeats { SortedInserted(s.timers, r.timers, s.single, Place(s.timers, s.single, now + interval), t); }
  }

  lemma CreateBalanced(now: real, s: State, interval: real, repeats: bool)
    requires Inv(s, NOBODY)
    requires Records(s)
    ensures var r := Create(now, s, interval, repeats); forall x: nat :: Balanced(r.timers, r.calls, x, NOBODY)
  {
    var r, t := Create(now, s, interval, repeats), Fresh(s);
    FreshIsFree(s);
    hide Inserted, Place, Lists, Sorted, Times;
    forall x: nat ensures Balanced(r.timers, r.calls, x, NOBODY) {
      assert Balanced(s.timers, s.calls, x, NOBODY);
      OneMore(s.calls, Made(t), Made(x));
      OneMore(s.calls, Made(t), Ends(x));
    }
  }

  // ----- whether a repeater stays

  /** The call `k` is of the timer, and it stays if `OnTimer` then neither stopped nor killed it. */
  ghost predicate HeardAt(calls: seq<Call>, k: nat, t: nat, stays: bool, listener: Listener) {
    && k < |calls| && calls[k] == Fires(t)
    && (stays <==> !listener(calls[..k + 1]).stops && t !in listener(calls[..k + 1]).kills)
  }

  lemma FireLoopHeard(now: real, s: State, t: nat, listener: Listener, r: State)
    requires Inv(s, NOBODY) && t < |s.timers| && !s.timers[t].inExec && now >= s.timers[t].toExec
    requires |r.timers| == |s.timers| && FireLoop(now, s, t, listener).calls <= r.calls
    requires r.timers[t] == FireLoop(now, s, t, listener).timers[t]
    ensures HeardAt(r.calls, |s.calls|, t, !r.timers[t].inExec, listener)
  {
    CalledKeeps(s, t, listener);
    CalledTimes(s, t, t, listener);
    hide Inv, Called, Stands, Times;
    var c := Called(s, t, listener);
    assert Begun(s, t).calls <= c.calls <= r.calls;
    assert r.calls[..|s.calls| + 1] == s.calls + [Fires(t)];
  }

  lemma {:induction false} FireLoopsHeard(now: real, s: State, list: seq<nat>, t: nat, listener: Listener)
    returns (k: nat)
    requires Inv(s, NOBODY) && Repeaters(s.timers, list) && Distinct(list) && t in list
    requires Spared(|s.calls|, FireLoops(now, s, list, listener).calls, t, listener)
    requires !s.timers[t].inExec && now >= s.timers[t].toExec
    ensures |FireLoops(now, s, list, listener).timers| == |s.timers|
    ensures HeardAt(FireLoops(now, s, list, listener).calls, k, t, !FireLoops(now, s, list, listener).timers[t].inExec,
                    listener)
    ensures |s.calls| <= k
    decreases |list|
  {
    hide Inv, Turn, Called, FireLoop, Times, Spared, HeardAt;
    var x := list[0];
    var m := LoopStep(now, s, x, listener);
    LoopStepKeeps(now, s, x, listener);
    RepeatersStay(now, s, x, list, listener);
    LoopStepTurn(now, s, x, t, listener);
    var r := FireLoops(now, m, list[1..], listener);
    assert r == FireLoops(now, s, list, listener);
    FireLoopsKeeps(now, m, list[1..], listener);
    SparedPart(|s.calls|, r.calls, |s.calls|, m.calls, t, listener);
    SparedPart(|s.calls|, r.calls, |m.calls|, r.calls, t, listener);
    if t == x {
      FireLoopsTurn(now, m, list[1..], t, listener);
      hide FireLoops;
      SparedStands(now, m, r, t, t in list[1..], listener);
      FireLoopHeard(now, s, t, listener, r);
      k := |s.calls|;
    } else {
      hide FireLoops;
      SparedStands(now, s, m, t, t == x, listener);
      k := FireLoopsHeard(now, m, list[1..], t, listener);
    }
  }

  /** A due repeater stays if and only if its own `OnTimer`, called in this frame, neither stops nor kills it. */
  lemma RepeaterStaysUnlessStopped(now: real, s: State, t: nat, listener: Listener)
    requires Inv(s, NOBODY) && t in s.loops && now >= s.timers[t].toExec
    requires Spared(|s.calls|, RunFrame(now, s, listener).calls, t, listener)
    ensures exists k: nat ::
              |s.calls| <= k
              && HeardAt(RunFrame(now, s, listener).calls, k, t, t in RunFrame(now, s, listener).loops, listener)
  {
    assert t < |s.timers|;
    WhereItIs(s, t);
    FrameHalves(now, s, listener);
    FrameKeeps(now, s, listener);
    FireSinglesTurn(now, s, t, listener);
    var a, r := FireSingles(now, s, listener), RunFrame(now, s, listener);
    FireLoopsKeeps(now, a, a.loops, listener);
    hide FireSingles, FireLoops, Spared, Balanced, Sorted, HeardAt, Repeaters;
    SparedPart(|s.calls|, r.calls, |s.calls|, a.calls, t, listener);
    SparedPart(|s.calls|, r.calls, |a.calls|, r.calls, t, listener);
    SparedStands(now, s, a, t, !s.timers[t].repeats, listener);
    WhereItIs(a, t);
    var k := FireLoopsHeard(now, a, a.loops, t, listener);
    WhereItIs(r, t);
    FrameTurn(now, s, t, listener);
  }

  // ----- runs

  /** One call from outside, at a time. */
  datatype Op =
    | DoCreate(now: real, interval: real, repeats: bool)
    | DoKill(timer: nat)
    | DoFire(now: real, timer: nat, delay: bool)
    | DoFrame(now: real)

  const START := State([], [], [], [], [])

  ghost function Step(s: State, op: Op, listener: Listener): State
    requires Inv(s, NOBODY)
  {
    match op
    case DoCreate(now, interval, repeats) => CreatePlaces(s); Create(now, s, interval, repeats)
    case DoKill(t) => Kill(s, t)
    case DoFire(now, t, delay) => FireOnce(now, s, t, delay, listener)
    case DoFrame(now) => RunFrame(now, s, listener)
  }

  lemma StepKeeps(s: State, op: Op, listener: Listener)
    requires Inv(s, NOBODY)
    ensures Inv(Step(s, op, listener), NOBODY)
  {
    hide Inv, Create, Kill, FireOnce, RunFrame;
    match op
    case DoCreate(now, interval, repeats) => CreateKeeps(now, s, interval, repeats);
    case DoKill(t) => KillKeeps(s, t, NOBODY);
    case DoFire(now, t, delay) => FireOnceKeeps(now, s, t, delay, listener);
    case DoFrame(now) => FrameKeeps(now, s, listener);
  }

  ghost predicate Reaches(s: State, ops: seq<Op>, listener: Listener, r: State)
    requires Inv(s, NOBODY)
    decreases |ops|
  {
    if ops == [] then r == s else
      StepKeeps(s, ops[0], listener);
      Reaches(Step(s, ops[0], listener), ops[1..], listener, r)
  }

  lemma {:induction false} RunKeeps(s: State, ops: seq<Op>, listener: Listener, r: State)
    requires Inv(s, NOBODY) && Reaches(s, ops, listener, r)
    ensures Inv(r, NOBODY)
    decreases |ops|
  {
    hide Inv, Step;
    if ops != [] {
      StepKeeps(s, ops[0], listener);
      RunKeeps(Step(s, ops[0], listener), ops[1..], listener, r);
    }
  }

  lemma StartIsGood()
    ensures Inv(START, NOBODY)
  {}

  /**
   After any run: every timer is in exactly one of the three lists, those that fire once are in the
   order they are due in, and each time a timer was made it was ended once, but the last time if it
   is not free.
   */
  lemma EveryRunIsGood(ops: seq<Op>, listener: Listener, r: State, t: nat)
    requires Inv(START, NOBODY) && Reaches(START, ops, listener, r)
    ensures Sorted(r.timers, r.single) && Distinct(r.single) && Distinct(r.loops) && Distinct(r.freed)
    ensures t < |r.timers| <==> t in r.single || t in r.loops || t in r.freed
    ensures !(t in r.single && t in r.loops) && !(t in r.single && t in r.freed) && !(t in r.loops && t in r.freed)
    ensures Times(r.calls, Made(t)) == Times(r.calls, Ends(t)) + (if t in r.single || t in r.loops then 1 else 0)
  {
    RunKeeps(START, ops, listener, r);
    hide Reaches, Distinct, Times, Sorted;
    assert Balanced(r.timers, r.calls, t, NOBODY);
  }

  // ----- how often a repeater is called

  /** How often frames at `times` call a repeater due at `due` that is never stopped. */
  function Firings(times: seq<real>, due: real, interval: real): nat {
    if times == [] then 0
    else if times[0] >= due then 1 + Firings(times[1..], CalcNextThink(times[0], due, interval), interval)
    else Firings(times[1..], due, interval)
  }

  ghost predicate Forward(times: seq<real>) {
    forall i, j :: 0 <= i < j < |times| ==> times[i] <= times[j]
  }

  /** `n` intervals. */
  function Span(n: nat, interval: real): real {
    if n == 0 then 0.0 else Span(n - 1, interval) + interval
  }

  lemma {:induction false} SpanIsProduct(n: nat, interval: real)
    ensures Span(n, interval) == (n as real) * interval
  {
    if n > 0 {
      SpanIsProduct(n - 1, interval);
      OneMoreTime((n - 1) as real, interval);
      assert (n as real) == ((n - 1) as real) + 1.0;
    }
  }

  lemma OneMoreTime(n: real, interval: real)
    ensures (n + 1.0) * interval == n * interval + interval
  {}

  lemma {:induction false} FiringsSpan(times: seq<real>, due: real, interval: real)
    requires Forward(times) && interval >= 0.0 && Firings(times, due, interval) > 0
    ensures times != [] && Span(Firings(times, due, interval) - 1, interval) <= times[|times| - 1] - due
  {
    hide CalcNextThink;
    var rest := times[1..];
    assert Forward(rest);
    assert times[0] <= times[|times| - 1];
    if times[0] >= due {
      var next := CalcNextThink(times[0], due, interval);
      if Firings(rest, next, interval) > 0 { FiringsSpan(rest, next, interval); }
    } else {
      FiringsSpan(rest, due, interval);
    }
  }

  /** However late the frames are, a repeater is never called more often than its interval allows. */
  lemma {:induction false} NeverTooOften(times: seq<real>, due: real, interval: real)
    requires Forward(times) && interval >= 0.0 && Firings(times, due, interval) > 0
    ensures times != [] && ((Firings(times, due, interval) - 1) as real) * interval <= times[|times| - 1] - due
  {
    FiringsSpan(times, due, interval);
    SpanIsProduct(Firings(times, due, interval) - 1, interval);
  }

  /** Frames, one after the other. */
  function Frames(times: seq<real>, s: State, listener: Listener): State
    decreases |times|
  {
    if times == [] then s else Frames(times[1..], RunFrame(times[0], s, listener), listener)
  }

  /** Of the calls of `OnTimer` since `from`, the repeater's own neither stop nor kill it, and no other kills it. */
  ghost predicate Tireless(from: nat, calls: seq<Call>, t: nat, listener: Listener) {
    && Spared(from, calls, t, listener)
    && forall k :: from <= k < |calls| && calls[k] == Fires(t) ==>
                     !listener(calls[..k + 1]).stops && t !in listener(calls[..k + 1]).kills
  }

  lemma TirelessPart(from: nat, calls: seq<Call>, later: nat, part: seq<Call>, t: nat, listener: Listener)
    requires Tireless(from, calls, t, listener) && from <= later && part <= calls
    ensures Tireless(later, part, t, listener)
  {
    SparedPart(from, calls, later, part, t, listener);
    hide Spared;
    forall k | later <= k < |part| && part[k] == Fires(t)
      ensures !listener(part[..k + 1]).stops && t !in listener(part[..k + 1]).kills
    {
      assert calls[k] == part[k] && calls[..k + 1] == part[..k + 1];
    }
  }

  lemma TirelessStays(now: real, s: State, t: nat, listener: Listener)
    requires Inv(s, NOBODY) && t in s.loops
    requires Tireless(|s.calls|, RunFrame(now, s, listener).calls, t, listener)
    ensures Inv(RunFrame(now, s, listener), NOBODY) && t in RunFrame(now, s, listener).loops
  {
    hide RunFrame, Sorted, Marks, Balanced, Distinct, Times, CalcNextThink, Spared;
    FrameKeeps(now, s, listener);
    if now >= s.timers[t].toExec {
      RepeaterStaysUnlessStopped(now, s, t, listener);
      hide Inv;
      var r := RunFrame(now, s, listener);
      var k: nat :| |s.calls| <= k && HeardAt(r.calls, k, t, t in r.loops, listener);
    } else {
      EachDueTimerFiresOnce(now, s, t, listener);
    }
  }

  lemma {:induction false} FramesKeep(times: seq<real>, s: State, listener: Listener)
    requires Inv(s, NOBODY)
    ensures Inv(Frames(times, s, listener), NOBODY) && s.calls <= Frames(times, s, listener).calls
    decreases |times|
  {
    hide Inv, RunFrame;
    if times != [] {
      FrameKeeps(times[0], s, listener);
      FramesKeep(times[1..], RunFrame(times[0], s, listener), listener);
    }
  }

  /** Over any frames, a repeater that none of the callbacks they call stops or kills is called as often as
      `Firings` says. */
  lemma {:induction false} FramesFire(times: seq<real>, s: State, t: nat, listener: Listener)
    requires Inv(s, NOBODY) && t in s.loops
    requires Tireless(|s.calls|, Frames(times, s, listener).calls, t, listener)
    ensures t < |s.timers| && Fired(s, Frames(times, s, listener), t) ==
              Firings(times, s.timers[t].toExec, s.timers[t].interval)
    decreases |times|
  {
    assert t < |s.timers|;
    if times != [] {
      var now := times[0];
      var r := RunFrame(now, s, listener);
      var after := Frames(times[1..], r, listener);
      assert after == Frames(times, s, listener);
      FrameKeeps(now, s, listener);
      FramesKeep(times[1..], r, listener);
      TirelessPart(|s.calls|, after.calls, |s.calls|, r.calls, t, listener);
      TirelessPart(|s.calls|, after.calls, |r.calls|, after.calls, t, listener);
      TirelessStays(now, s, t, listener);
      FrameTurn(now, s, t, listener);
      EachDueTimerFiresOnce(now, s, t, listener);
      WhereItIs(r, t);
      hide Inv, RunFrame, CalcNextThink, Spared, Frames, Times;
      FramesFire(times[1..], r, t, listener);
    }
  }
}
