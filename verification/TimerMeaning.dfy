/**
 When a timer is called, from its making on: not before its interval is over, and then in the first frame.
 */
module TimerMeaning {
  import opened Common
  import opened TimerLists
  import opened Timers

  // ----- new timers

  /** A new timer waits among those of its kind, with its interval, and is due when that is over; no other timer is
      touched, and its making is all that is told of. */
  lemma NewTimerWaits(now: real, s: State, interval: real, repeats: bool)
    requires Inv(s, NOBODY)
    ensures Records(s)
    ensures var r, t := Create(now, s, interval, repeats), Fresh(s);
            && Inv(r, NOBODY) && t < |r.timers|
            && r.timers[t].interval == interval && r.timers[t].repeats == repeats
            && r.timers[t].toExec - now == interval
            && (if repeats then t in r.loops else t in r.single)
            && t !in s.loops && t !in s.single && r.calls == s.calls + [Made(t)]
            && (forall x: nat :: x < |s.timers| && x != t ==> x < |r.timers| && r.timers[x] == s.timers[x])
            && (forall x: nat :: x != t ==>
                  (x in r.single <==> x in s.single) && (x in r.loops <==> x in s.loops)
                    && (x in r.freed <==> x in s.freed))
  {
    CreateKeeps(now, s, interval, repeats);
    FreshIsFree(s);
    var r, t := Create(now, s, interval, repeats), Fresh(s);
    assert t < |r.timers| && r.timers[t] == Timer(interval, now + interval, repeats, false, false);
    WhereItIs(r, t);
    forall x: nat | x != t
      ensures (x in r.single <==> x in s.single) && (x in r.loops <==> x in s.loops) && (x in r.freed <==> x in s.freed)
    {
      if x < |s.timers| {
        WhereItIs(s, x);
        WhereItIs(r, x);
      } else {
        NotThere(s, x);
        NotThere(r, x);
      }
    }
    hide Create, Inv, Records;
  }

  lemma NotThere(s: State, x: nat)
    requires Inv(s, NOBODY) && x >= |s.timers|
    ensures x !in s.single && x !in s.loops && x !in s.freed
  {}

  // ----- waiting

  /** The timer waits, and is due at `due`. */
  ghost predicate WaitsFor(s: State, t: nat, due: real) {
    t < |s.timers| && !s.timers[t].inExec && s.timers[t].toExec == due
  }

  /** It has been killed. */
  ghost predicate Free(s: State, t: nat) {
    t < |s.timers| && s.timers[t].inExec
  }

  lemma NotYet(at: real, s: State, t: nat, listener: Listener)
    requires Inv(s, NOBODY) && t < |s.timers| && (s.timers[t].inExec || at < s.timers[t].toExec)
    ensures var r := RunFrame(at, s, listener);
            && |r.timers| == |s.timers| && Fired(s, r, t) == 0 && s.calls <= r.calls
            && (r.timers[t].inExec || WaitsFor(r, t, s.timers[t].toExec))
            && (s.timers[t].inExec ==> r.timers[t].inExec)
            && (Spared(|s.calls|, r.calls, t, listener) ==> r.timers[t] == s.timers[t])
  {
    FrameTurn(at, s, t, listener);
    hide Inv, RunFrame, Fired, Spared;
  }

  /** No frame before it is due calls a timer; and if no callback called in them kills it, it waits on as it was. */
  lemma {:induction false} NoFrameBefore(times: seq<real>, s: State, t: nat, due: real, listener: Listener)
    requires Inv(s, NOBODY) && (WaitsFor(s, t, due) || Free(s, t)) && forall i :: 0 <= i < |times| ==> times[i] < due
    ensures var r := Frames(times, s, listener);
            && Inv(r, NOBODY) && |r.timers| == |s.timers| && s.calls <= r.calls && Fired(s, r, t) == 0
            && (WaitsFor(r, t, due) || Free(r, t))
            && (Spared(|s.calls|, r.calls, t, listener) ==> r.timers[t] == s.timers[t])
    decreases |times|
  {
    hide Inv, RunFrame, Spared;
    if times != [] {
      var m := RunFrame(times[0], s, listener);
      FrameKeeps(times[0], s, listener);
      NotYet(times[0], s, t, listener);
      NoFrameBefore(times[1..], m, t, due, listener);
      var r := Frames(times[1..], m, listener);
      FiredInHalves(s, m, r, t);
      if Spared(|s.calls|, r.calls, t, listener) {
        SparedPart(|s.calls|, r.calls, |s.calls|, m.calls, t, listener);
        SparedPart(|s.calls|, r.calls, |m.calls|, r.calls, t, listener);
      }
      hide Frames, Fired;
    }
  }

  /** From its making on: no frame before the interval is over calls the timer, however many there are; the first
      frame after that calls it, once, unless a callback called meanwhile kills it. */
  lemma NewTimerFires(now: real, s: State, interval: real, repeats: bool, times: seq<real>, at: real,
                      listener: Listener)
    requires Inv(s, NOBODY)
    requires (forall i :: 0 <= i < |times| ==> times[i] < now + interval) && at >= now + interval
    ensures Records(s)
    ensures var made, t := Create(now, s, interval, repeats), Fresh(s);
            var before := Frames(times, made, listener);
            var after := RunFrame(at, before, listener);
            && Fired(made, before, t) == 0 && 0 <= Fired(before, after, t) <= 1
            && (Spared(|made.calls|, after.calls, t, listener) ==> Fired(before, after, t) == 1)
  {
    hide Inv, RunFrame, Spared, Frames, Create, Records;
    NewTimerWaits(now, s, interval, repeats);
    var made, t := Create(now, s, interval, repeats), Fresh(s);
    WhereItIs(made, t);
    NoFrameBefore(times, made, t, now + interval, listener);
    var before := Frames(times, made, listener);
    var after := RunFrame(at, before, listener);
    FrameKeeps(at, before, listener);
    FrameTurn(at, before, t, listener);
    TurnBounds(at, before, after, t, true, listener);
    if Spared(|made.calls|, after.calls, t, listener) {
      SparedPart(|made.calls|, after.calls, |made.calls|, before.calls, t, listener);
      SparedPart(|made.calls|, after.calls, |before.calls|, after.calls, t, listener);
      FrameCallsTheDue(at, before, t, listener);
    }
  }

  // ----- fired from outside, and killed

  /** `FireTimerOnce` calls a timer that waits, once. It stays if it repeats and its callback neither stops nor kills
      it, due an interval from now if the time is to be put off and when it was otherwise; if not,
        it is ended. Of the others
      only those that the callback kills are touched. */
  lemma FireOnceMeans(now: real, s: State, t: nat, delay: bool, listener: Listener)
    requires Inv(s, NOBODY) && t < |s.timers| && !s.timers[t].inExec
    ensures var r, a := FireOnce(now, s, t, delay, listener), listener(s.calls + [Fires(t)]);
            var stays := s.timers[t].repeats && !a.stops && t !in a.kills;
            && |r.timers| == |s.timers| && s.calls + [Fires(t)] <= r.calls && Fired(s, r, t) == 1
            && (stays ==>
                  && t in r.loops && r.timers[t].interval == s.timers[t].interval
                  && r.timers[t].toExec == (if delay then now + s.timers[t].interval else s.timers[t].toExec)
                  && Times(r.calls, Ends(t)) == Times(s.calls, Ends(t)))
            && (!stays ==> t in r.freed && Times(r.calls, Ends(t)) == Times(s.calls, Ends(t)) + 1)
            && forall x: nat :: x < |s.timers| && x != t && x !in a.kills ==> r.timers[x] == s.timers[x]
  {
    var c, r := Called(s, t, listener), FireOnce(now, s, t, delay, listener);
    CalledKeeps(s, t, listener);
    CalledTimes(s, t, t, listener);
    FireOnceKeeps(now, s, t, delay, listener);
    WhereItIs(r, t);
    assert r.timers[t].inExec || s.timers[t].repeats;
    hide Inv, Called, Times, Stands, Spared, Remove;
    OneMore(c.calls, Ends(t), Ends(t));
    OneMore(c.calls, Ends(t), Fires(t));
  }

  /** Killing a timer that waits ends it at once; one that is being called is ended when its call is over, and one
      that is free is not touched again. */
  lemma KillMeans(s: State, t: nat, current: int)
    requires Inv(s, current) && t < |s.timers|
    ensures var r := Kill(s, t);
            && (!s.timers[t].inExec ==>
                  r.calls == s.calls + [Ends(t)] && t in r.freed && t !in r.single && t !in r.loops)
            && (s.timers[t].inExec ==>
                  r.calls == s.calls && r.freed == s.freed && r.single == s.single && r.loops == s.loops
                  && r.timers == s.timers[t := s.timers[t].(killMe := true)])
  {
    KillKeeps(s, t, current);
    RemoveAt(s.single, t);
    RemoveAt(s.loops, t);
    hide Sorted, Balanced, Remove, Standing;
  }

  // ----- among timers due at the same time

  /** Where a new one-shot goes: behind all that are due no later if those are all; otherwise before the first
      that is due when it is or later. So it is called before timers made earlier that are due at the same time,
      if any timer is due later. */
  lemma PlaceExactly(timers: seq<Timer>, s: seq<nat>, to: real)
    requires Sorted(timers, s)
    ensures var k := Place(timers, s, to);
            if forall i :: 0 <= i < |s| ==> timers[s[i]].toExec <= to then k == |s|
            else && k < |s| && to <= timers[s[k]].toExec && forall i :: 0 <= i < k ==> timers[s[i]].toExec < to
  {
    if s != [] && timers[s[|s| - 1]].toExec > to {
      var k := FirstNotBefore(timers, s, to);
      assert k < |s|;
    }
  }

  lemma NewerGoesFirst(now: real, s: State, interval: real, i: nat, j: nat)
    requires Inv(s, NOBODY) && i < j < |s.single|
    requires s.timers[s.single[i]].toExec == now + interval < s.timers[s.single[j]].toExec
    ensures Records(s)
    ensures var r := Create(now, s, interval, false);
            exists k: nat, m: nat :: k < m < |r.single| && r.single[k] == Fresh(s) && r.single[m] == s.single[i]
  {
    CreatePlaces(s);
    PlaceExactly(s.timers, s.single, now + interval);
    hide Inv, Place;
    var k := Place(s.timers, s.single, now + interval);
    var r := Create(now, s, interval, false);
    assert s.timers[s.single[j]].toExec > now + interval;
    assert k <= i;
    assert r.single[k] == Fresh(s) && r.single[i + 1] == s.single[i];
  }
}
