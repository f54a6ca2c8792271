/**
 The timer system as it runs: the loops over the lists, the fields they change, and that they do
 what the functions of `TimerLists` say.
 */
module TimerSystems {
  import opened Common
  import opened TimerLists
  import opened Timers

  // ----- a list while its timers are killed

  /** Those of the list that wait. */
  ghost function Waiting(timers: seq<Timer>, list: seq<nat>, current: int): (r: seq<nat>)
    ensures |r| <= |list|
  {
    if list == [] then []
    else if list[0] < |timers| && Waits(timers[list[0]], list[0], current)
              then [list[0]] + Waiting(timers, list[1..], current)
    else Waiting(timers, list[1..], current)
  }

  ghost function IfWaits(timers: seq<Timer>, t: nat, current: int): seq<nat> {
    if t < |timers| && Waits(timers[t], t, current) then [t] else []
  }

  lemma {:induction false} WaitingUnfolds(timers: seq<Timer>, list: seq<nat>, current: int)
    requires list != []
    ensures Waiting(timers, list, current) == IfWaits(timers, list[0], current) + Waiting(timers, list[1..], current)
  {}

  lemma {:induction false} WaitingSplits(timers: seq<Timer>, a: seq<nat>, b: seq<nat>, current: int)
    ensures Waiting(timers, a + b, current) == Waiting(timers, a, current) + Waiting(timers, b, current)
  {
    if a == [] {
      assert a + b == b;
    } else {
      hide Waiting, IfWaits;
      WaitingSplits(timers, a[1..], b, current);
      WaitingUnfolds(timers, a, current);
      WaitingUnfolds(timers, a + b, current);
      assert (a + b)[1..] == a[1..] + b;
      Associates(IfWaits(timers, a[0], current), Waiting(timers, a[1..], current), Waiting(timers, b, current));
    }
  }

  lemma Associates(a: seq<nat>, b: seq<nat>, c: seq<nat>)
    ensures (a + b) + c == a + (b + c)
  {}

  lemma {:induction false} AllWait(timers: seq<Timer>, list: seq<nat>, current: int)
    requires forall i :: 0 <= i < |list| ==> list[i] < |timers| && Waits(timers[list[i]], list[i], current)
    ensures Waiting(timers, list, current) == list
  {
    if list != [] { AllWait(timers, list[1..], current); }
  }

  lemma {:induction false} WaitingIn(timers: seq<Timer>, list: seq<nat>, current: int, x: nat)
    requires x in Waiting(timers, list, current)
    ensures x in list
  {
    if list != [] && x != list[0] { WaitingIn(timers, list[1..], current, x); }
  }

  /** No timer waits again. */
  ghost predicate Fewer(timers: seq<Timer>, after: seq<Timer>, current: int, current': int) {
    && |after| == |timers|
    && forall t: nat :: t < |timers| && Waits(after[t], t, current') ==> Waits(timers[t], t, current)
  }

  lemma {:induction false} WaitingTwice(timers: seq<Timer>, after: seq<Timer>, list: seq<nat>, current: int,
                                        current': int)
    requires Fewer(timers, after, current, current')
    ensures Waiting(after, Waiting(timers, list, current), current') == Waiting(after, list, current')
  {
    if list != [] { WaitingTwice(timers, after, list[1..], current, current'); }
  }

  lemma FindLater(list: seq<nat>, t: nat)
    requires list != [] && list[0] != t
    ensures Find(list, t) == 1 + Find(list[1..], t)
  {}

  lemma RemoveUnfolds(list: seq<nat>, t: nat)
    requires list != []
    ensures Remove(list, t) == if list[0] == t then list[1..] else [list[0]] + Remove(list[1..], t)
  {
    var k := Find(list, t);
    if list[0] != t {
      FindLater(list, t);
      hide Find;
      if k < |list| {
        assert list[..k] == [list[0]] + list[1..][..k - 1];
        assert list[k + 1..] == list[1..][k..];
      }
    }
  }

  lemma NothingRemoved(t: nat)
    ensures Remove([], t) == []
  {}

  /** Taking one timer off the list leaves those that wait when it does not any more. */
  lemma {:induction false} RemoveIsWaiting(timers: seq<Timer>, list: seq<nat>, t: nat, current: int)
    requires Distinct(list) && (t < |timers| ==> !Waits(timers[t], t, current))
    requires forall i :: 0 <= i < |list| && list[i] != t ==>
               list[i] < |timers| && Waits(timers[list[i]], list[i], current)
    ensures Remove(list, t) == Waiting(timers, list, current)
  {
    hide Remove, Waits;
    if list == [] {
      NothingRemoved(t);
    } else {
      RemoveUnfolds(list, t);
      if list[0] == t { AllWait(timers, list[1..], current); } else { RemoveIsWaiting(timers, list[1..], t, current); }
    }
  }

  lemma KillWaiting(s: State, t: nat, current: int)
    requires Inv(s, current)
    ensures Kill(s, t).loops == Waiting(Kill(s, t).timers, s.loops, current)
            && Fewer(s.timers, Kill(s, t).timers, current, current)
  {
    hide Times, Sorted, Balanced;
    forall i | 0 <= i < |s.loops| ensures s.loops[i] < |s.timers| && Waits(s.timers[s.loops[i]], s.loops[i], current) {
      assert s.loops[i] in s.loops;
    }
    var r := Kill(s, t);
    if r.loops == s.loops {
      AllWait(r.timers, s.loops, current);
    } else {
      RemoveIsWaiting(r.timers, s.loops, t, current);
    }
  }

  lemma {:induction false} KillAllWaiting(s: State, ts: seq<nat>, current: int)
    requires Inv(s, current)
    ensures KillAll(s, ts).loops == Waiting(KillAll(s, ts).timers, s.loops, current)
    ensures Fewer(s.timers, KillAll(s, ts).timers, current, current)
    decreases |ts|
  {
    hide Kill;
    if ts == [] {
      forall i | 0 <= i < |s.loops|
        ensures s.loops[i] < |s.timers| && Waits(s.timers[s.loops[i]], s.loops[i], current)
      {
        assert s.loops[i] in s.loops;
      }
      AllWait(s.timers, s.loops, current);
    } else {
      hide Inv, Waits;
      var m := Kill(s, ts[0]);
      KillWaiting(s, ts[0], current);
      KillKeeps(s, ts[0], current);
      KillAllWaiting(m, ts[1..], current);
      WaitingTwice(m.timers, KillAll(m, ts[1..]).timers, s.loops, current, current);
    }
  }

  lemma SplitAround(timers: seq<Timer>, list: seq<nat>, i: nat, t: nat)
    requires i < |list| && list[i] == t < |timers| && Distinct(list)
    ensures var before := Waiting(timers, list[..i], t);
            && Waiting(timers, list, t) == before + [t] + Waiting(timers, list[i + 1..], t)
            && Find(Waiting(timers, list, t), t) == |before| && t !in before
  {
    var before, all := Waiting(timers, list[..i], t), Waiting(timers, list, t);
    assert list == list[..i] + ([t] + list[i + 1..]);
    WaitingSplits(timers, list[..i], [t] + list[i + 1..], t);
    WaitingSplits(timers, [t], list[i + 1..], t);
    AllWait(timers, [t], t);
    if t in before { WaitingIn(timers, list[..i], t, t); }
    hide Waiting, Distinct;
    assert all == before + [t] + Waiting(timers, list[i + 1..], t);
    FindBehind(before, t, Waiting(timers, list[i + 1..], t));
  }

  lemma FindBehind(a: seq<nat>, t: nat, b: seq<nat>)
    requires t !in a
    ensures Find(a + [t] + b, t) == |a|
  {
    var s := a + [t] + b;
    assert s[|a|] == t;
    assert forall i :: 0 <= i < |a| ==> s[i] == a[i] && a[i] in a;
    hide Find;
  }

  lemma RestBehind(a: seq<nat>, t: nat, b: seq<nat>)
    requires t !in a
    ensures |Remove(a + [t] + b, t)| >= |a| && Remove(a + [t] + b, t)[|a|..] == b
    ensures (a + [t] + b)[|a| + 1..] == b
  {
    FindBehind(a, t, b);
    hide Find;
    assert Remove(a + [t] + b, t) == a + b;
  }

  lemma CalledList(s: State, t: nat, listener: Listener)
    requires Inv(s, NOBODY) && t < |s.timers| && !s.timers[t].inExec
    ensures Called(s, t, listener).loops == Waiting(Called(s, t, listener).timers, s.loops, t)
    ensures Fewer(s.timers, Called(s, t, listener).timers, NOBODY, t)
  {
    BegunKeeps(s, t);
    KillAllWaiting(Begun(s, t), Answered(s, t, listener).kills, t);
    hide Inv, KillAll, Answered, Waiting;
  }

  // ----- the second loop of a frame

  lemma StepFewer(now: real, s: State, x: nat, listener: Listener)
    requires Inv(s, NOBODY) && x < |s.timers| && s.timers[x].repeats
    ensures Fewer(s.timers, LoopStep(now, s, x, listener).timers, NOBODY, NOBODY)
  {
    hide Inv, Fired, LoopStep, Spared, Times, CalcNextThink;
    var m := LoopStep(now, s, x, listener);
    forall t: nat | t < |s.timers| && Waits(m.timers[t], t, NOBODY) ensures Waits(s.timers[t], t, NOBODY) {
      LoopStepTurn(now, s, x, t, listener);
    }
  }

  lemma WaitingRepeat(timers: seq<Timer>, list: seq<nat>)
    requires Repeaters(timers, list)
    ensures Repeaters(timers, Waiting(timers, list, NOBODY))
  {
    var w := Waiting(timers, list, NOBODY);
    forall i | 0 <= i < |w| ensures w[i] < |timers| && timers[w[i]].repeats {
      WaitingIn(timers, list, NOBODY, w[i]);
    }
  }

  /** Only those that still wait matter. */
  lemma {:induction false} OnlyWaiting(now: real, s: State, list: seq<nat>, listener: Listener)
    requires Inv(s, NOBODY) && Repeaters(s.timers, list)
    ensures FireLoops(now, s, list, listener) == FireLoops(now, s, Waiting(s.timers, list, NOBODY), listener)
    decreases |list|
  {
    hide Inv, Called, FireLoop;
    if list != [] {
      var x, rest := list[0], Waiting(s.timers, list[1..], NOBODY);
      var m := LoopStep(now, s, x, listener);
      if Waits(s.timers[x], x, NOBODY) {
        LoopStepKeeps(now, s, x, listener);
        RepeatersStay(now, s, x, list, listener);
        StepFewer(now, s, x, listener);
        WaitingRepeat(s.timers, list[1..]);
        RepeatersStay(now, s, x, rest, listener);
        OnlyWaiting(now, m, list[1..], listener);
        OnlyWaiting(now, m, rest, listener);
        WaitingTwice(s.timers, m.timers, list[1..], NOBODY, NOBODY);
        hide Fewer, Repeaters;
        assert Waiting(s.timers, list, NOBODY) == [x] + rest;
      } else {
        OnlyWaiting(now, s, list[1..], listener);
      }
    }
  }

  lemma {:induction false} WaitingElsewhere(timers: seq<Timer>, after: seq<Timer>, list: seq<nat>, t: nat)
    requires |after| == |timers| && (forall x: nat :: x < |timers| && x != t ==> after[x] == timers[x]) && t !in list
    ensures Waiting(after, list, NOBODY) == Waiting(timers, list, t)
  {
    if list != [] { WaitingElsewhere(timers, after, list[1..], t); }
  }

  /** The place behind the timer just called, as the list is then. */
  function Behind(now: real, s: State, t: nat, listener: Listener): nat
    requires t < |s.timers|
  {
    Find(Called(s, t, listener).loops, t) + (if FireLoop(now, s, t, listener).timers[t].inExec then 0 else 1)
  }

  lemma BehindIsWaiting(now: real, s: State, i: nat, listener: Listener)
    requires Inv(s, NOBODY) && i < |s.loops| && s.loops[i] < |s.timers|
    requires !s.timers[s.loops[i]].inExec && s.timers[s.loops[i]].repeats
    ensures var t := s.loops[i];
            var r, k := FireLoop(now, s, t, listener), Behind(now, s, t, listener);
            k <= |r.loops| && |r.loops| - k < |s.loops| - i
              && r.loops[k..] == Waiting(r.timers, s.loops[i + 1..], NOBODY)
  {
    var t := s.loops[i];
    var c, r := Called(s, t, listener), FireLoop(now, s, t, listener);
    hide Called, Times, Stands, Answered, Waiting, Fewer, Find, Sorted, Balanced, Remove;
    assert Distinct(s.loops);
    CalledList(s, t, listener);
    CalledTimes(s, t, t, listener);
    SplitAround(c.timers, s.loops, i, t);
    assert t !in s.loops[i + 1..];
    WaitingElsewhere(c.timers, r.timers, s.loops[i + 1..], t);
    RestBehind(Waiting(c.timers, s.loops[..i], t), t, Waiting(c.timers, s.loops[i + 1..], t));
    hide Inv, Distinct;
  }

  lemma LoopGoesOn(now: real, s: State, i: nat, listener: Listener)
    requires Inv(s, NOBODY) && i < |s.loops| && s.loops[i] < |s.timers| && now >= s.timers[s.loops[i]].toExec
    requires !s.timers[s.loops[i]].inExec && s.timers[s.loops[i]].repeats
    ensures var t := s.loops[i];
            var r, k := FireLoop(now, s, t, listener), Behind(now, s, t, listener);
            && k <= |r.loops| && |r.loops| - k < |s.loops| - i && Inv(r, NOBODY)
            && FireLoops(now, r, r.loops[k..], listener) == FireLoops(now, s, s.loops[i..], listener)
  {
    hide Inv, Behind, Called, FireLoop, Waiting;
    var t := s.loops[i];
    var r := FireLoop(now, s, t, listener);
    BehindIsWaiting(now, s, i, listener);
    FireLoopKeeps(now, s, t, listener);
    LoopsRepeat(s);
    assert Repeaters(s.timers, s.loops[i + 1..]);
    assert r == LoopStep(now, s, t, listener);
    RepeatersStay(now, s, t, s.loops[i + 1..], listener);
    OnlyWaiting(now, r, s.loops[i + 1..], listener);
    assert s.loops[i..][1..] == s.loops[i + 1..] && s.loops[i..][0] == t;
  }

  lemma LoopsRepeat(s: State)
    requires Inv(s, NOBODY)
    ensures Repeaters(s.timers, s.loops)
    ensures forall i :: 0 <= i < |s.loops| ==> !s.timers[s.loops[i]].inExec
  {
    hide Sorted, Balanced, Times;
    forall i | 0 <= i < |s.loops|
      ensures s.loops[i] < |s.timers| && s.timers[s.loops[i]].repeats && !s.timers[s.loops[i]].inExec
    {
      assert s.loops[i] in s.loops;
    }
  }

  lemma FirstPlaceIsOne(timers: seq<Timer>, s: seq<nat>, to: real, k: nat)
    requires (forall i :: 0 <= i < |s| ==> s[i] < |timers|) && k <= |s|
    requires (forall i :: 0 <= i < k ==> timers[s[i]].toExec < to) && (k < |s| ==> timers[s[k]].toExec >= to)
    ensures FirstNotBefore(timers, s, to) == k
  {}

  class TimerSystem {
    const listener: Listener
    var timers: seq<Timer>
    var single: seq<nat>
    var loops: seq<nat>
    var freed: seq<nat>
    var calls: seq<Call>

    function Value(): State
      reads this
    {
      State(timers, single, loops, freed, calls)
    }

    ghost predicate Valid()
      reads this
    {
      Inv(Value(), NOBODY)
    }

    constructor (listener: Listener)
      ensures Valid() && Value() == START && this.listener == listener
    {
      hide Inv;
      this.listener := listener;
      timers, single, loops, freed, calls := [], [], [], [], [];
      StartIsGood();
    }

    /** Where `CreateTimer` puts a timer due at `to`. */
    method FindPlace(to: real) returns (k: nat)
      requires Records(Value())
      ensures k == Place(timers, single, to)
    {
      if |single| >= 1 && timers[single[|single| - 1]].toExec <= to { return |single|; }
      k := 0;
      while k < |single| && !(timers[single[k]].toExec >= to)
        invariant k <= |single|
        invariant forall i :: 0 <= i < k ==> timers[single[i]].toExec < to
      {
        k := k + 1;
      }
      FirstPlaceIsOne(timers, single, to, k);
    }

    /** `CreateTimer`. */
    method CreateTimer(now: real, interval: real, repeats: bool) returns (t: nat)
      requires Valid()
      modifies this
      ensures Records(old(Value()))
      ensures Valid() && Value() == Create(now, old(Value()), interval, repeats) && t == Fresh(old(Value()))
    {
      hide Inv, Place, Inserted, Fresh, Records;
      CreateKeeps(now, Value(), interval, repeats);
      var to := now + interval;
      var k := FindPlace(to);
      t := TakeRecord(Timer(interval, to, repeats, false, false));
      if repeats { loops := loops + [t]; } else { single := Inserted(single, k, t); }
      calls := calls + [Made(t)];
    }

    /** A free record, or a new one. */
    method TakeRecord(timer: Timer) returns (t: nat)
      requires Records(Value())
      modifies this`timers, this`freed
      ensures t == Fresh(old(Value()))
      ensures timers == if old(freed) == [] then old(timers) + [timer] else old(timers)[t := timer]
      ensures freed == if old(freed) == [] then [] else old(freed)[..|old(freed)| - 1]
    {
      if freed == [] {
        t := |timers|;
        timers := timers + [timer];
      } else {
        t := freed[|freed| - 1];
        freed := freed[..|freed| - 1];
        timers := timers[t := timer];
      }
    }

    /** `OnTimerEnd`, and the way to the free timers. */
    method End(t: nat)
      requires t < |timers|
      modifies this
      ensures Value() == Ended(old(Value()), t)
    {
      calls := calls + [Ends(t)];
      if timers[t].repeats { loops := Remove(loops, t); } else { single := Remove(single, t); }
      freed := freed + [t];
    }

    /** `KillTimer`. */
    method KillTimer(t: nat)
      modifies this
      ensures Value() == Kill(old(Value()), t)
    {
      if t >= |timers| || timers[t].killMe { return; }
      if timers[t].inExec {
        timers := timers[t := timers[t].(killMe := true)];
        return;
      }
      timers := timers[t := timers[t].(inExec := true)];
      End(t);
    }

    /** `OnTimer`: what the listener kills is killed while the timer is marked as being called. */
    method OnTimer(t: nat) returns (stops: bool)
      requires t < |timers|
      modifies this
      ensures Value() == Called(old(Value()), t, listener) && stops == Answered(old(Value()), t, listener).stops
    {
      timers := timers[t := timers[t].(inExec := true)];
      calls := calls + [Fires(t)];
      var answer := listener(calls);
      ghost var s := Value();
      var kills := answer.kills;
      while kills != []
        invariant KillAll(Value(), kills) == KillAll(s, answer.kills)
        decreases |kills|
      {
        KillTimer(kills[0]);
        kills := kills[1..];
      }
      stops := answer.stops;
    }

    /** `FireTimerOnce`. */
    method FireTimerOnce(now: real, t: nat, delay: bool)
      requires Valid()
      modifies this
      ensures Valid() && Value() == FireOnce(now, old(Value()), t, delay, listener)
    {
      FireOnceKeeps(now, Value(), t, delay, listener);
      hide Inv, Called, Answered, FiredOnce;
      if t >= |timers| || timers[t].inExec { return; }
      var stops := OnTimer(t);
      OnceFired(now, t, delay, stops);
    }

    method OnceFired(now: real, t: nat, delay: bool, stops: bool)
      requires t < |timers|
      modifies this
      ensures Value() == FiredOnce(now, old(Value()), t, delay, stops)
    {
      if !timers[t].repeats {
        End(t);
      } else if !stops && !timers[t].killMe {
        if delay { timers := timers[t := timers[t].(toExec := now + timers[t].interval)]; }
        timers := timers[t := timers[t].(inExec := false)];
        assert timers == old(timers)[t := timers[t]];
      } else {
        End(t);
      }
    }

    /** `RunFrame`'s first loop. */
    method RunSingles(now: real)
      requires Valid()
      modifies this
      ensures Valid() && Value() == FireSingles(now, old(Value()), listener)
    {
      ghost var start := Value();
      hide Inv, FireSingle, Called;
      while single != []
        invariant Valid() && FireSingles(now, Value(), listener) == FireSingles(now, start, listener)
        decreases |single|
      {
        var t := single[0];
        ghost var s := Value();
        FirstWaits(s);
        if now < timers[t].toExec { break; }
        FireSingleKeeps(s, t, listener);
        FireSingleIs(s, t, listener);
        var _ := OnTimer(t);
        End(t);
      }
    }

    /** `RunFrame`'s second loop: `i` is where the iterator stands in the list, as it is now. */
    method RunLoops(now: real)
      requires Valid()
      modifies this
      ensures Valid() && Value() == FireLoops(now, old(Value()), old(loops), listener)
    {
      ghost var start := Value();
      hide Inv, FireLoop, Called, Behind, Answered;
      var i: nat := 0;
      assert start.loops[0..] == start.loops;
      while i < |loops|
        invariant Valid() && i <= |loops|
        invariant FireLoops(now, Value(), loops[i..], listener) == FireLoops(now, start, start.loops, listener)
        decreases |loops| - i
      {
        var t := loops[i];
        ghost var s := Value();
        LoopsRepeat(s);
        if now >= timers[t].toExec {
          LoopGoesOn(now, s, i, listener);
          i := RunLoop(now, t);
        } else {
          assert loops[i..][1..] == loops[i + 1..];
          i := i + 1;
        }
      }
    }

    /** One repeater is called; `i` is where the iterator goes on. */
    method RunLoop(now: real, t: nat) returns (i: nat)
      requires Valid() && t < |timers| && !timers[t].inExec
      modifies this
      ensures Value() == FireLoop(now, old(Value()), t, listener) && i == Behind(now, old(Value()), t, listener)
    {
      CalledTimes(Value(), t, t, listener);
      hide Inv, Called, Answered, Find, Times, Remove, CalcNextThink, Stands, Spared;
      var stops := OnTimer(t);
      i := Find(loops, t);
      if timers[t].killMe || stops {
        End(t);
      } else {
        timers := timers[t := timers[t].(inExec := false,
                                         toExec := CalcNextThink(now, timers[t].toExec, timers[t].interval))];
        i := i + 1;
      }
    }

    /** `RunFrame`. */
    method Frame(now: real)
      requires Valid()
      modifies this
      ensures Valid() && Value() == RunFrame(now, old(Value()), listener)
    {
      hide Inv, FireSingles, FireLoops;
      RunSingles(now);
      RunLoops(now);
    }
  }

  lemma FirstWaits(s: State)
    requires Inv(s, NOBODY) && s.single != []
    ensures s.single[0] < |s.timers| && !s.timers[s.single[0]].inExec && !s.timers[s.single[0]].repeats
  {
    assert s.single[0] in s.single;
  }
}
