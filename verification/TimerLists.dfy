/**
 The timers, the three lists they move between, and what one operation does to them.

 A timer is a record in `timers`, and a pointer to it is its place there: records are reused but
 never given back. What the listeners are called for is kept in `calls`, oldest first.
 */
module TimerLists {
  import opened Common

  datatype Timer = Timer(interval: real, toExec: real, repeats: bool, inExec: bool, killMe: bool)

  datatype Call = Made(timer: nat) | Fires(timer: nat) | Ends(timer: nat)

  /** What `OnTimer` does: the timers it kills, in order, and whether it returns `Pl_Stop`. */
  datatype Answer = Answer(stops: bool, kills: seq<nat>)

  /** The listeners: what `OnTimer` does depends on all calls so far, its own the last. */
  type Listener = seq<Call> -> Answer

  datatype State = State(timers: seq<Timer>, single: seq<nat>, loops: seq<nat>, freed: seq<nat>, calls: seq<Call>)

  /** No timer is being called. */
  const NOBODY: int := -1

  const MIN_ACCURACY: real := 0.1

  /** When a timer due at `last` is due again, if it is called at `now`: never early, never much behind. */
  function CalcNextThink(now: real, last: real, interval: real): (next: real)
    ensures now >= last && interval >= 0.0 ==> last + interval <= next <= now + interval && now - MIN_ACCURACY <= next
    ensures now <= last + interval + MIN_ACCURACY ==> next == last + interval
    ensures now > last + interval + MIN_ACCURACY ==> next == now + interval
  {
    if now - last - interval <= MIN_ACCURACY then last + interval else now + interval
  }

  // ----- lists of timers

  /** The first place of `t`, or the length. */
  function Find(s: seq<nat>, t: nat): (k: nat)
    ensures k <= |s| && (forall i :: 0 <= i < k ==> s[i] != t) && (k < |s| ==> s[k] == t)
  {
    if s == [] then 0 else if s[0] == t then 0 else 1 + Find(s[1..], t)
  }

  /** The list without the first `t`. */
  function Remove(s: seq<nat>, t: nat): seq<nat> {
    var k := Find(s, t);
    if k < |s| then s[..k] + s[k + 1..] else s
  }

  lemma RemoveAt(s: seq<nat>, t: nat)
    requires Distinct(s)
    ensures var r := Remove(s, t);
            && Distinct(r) && (forall x :: x in r <==> x in s && x != t)
            && (t !in s ==> r == s) && |r| == |s| - (if t in s then 1 else 0)
  {
    var k := Find(s, t);
    var r := Remove(s, t);
    if k < |s| {
      assert forall i :: 0 <= i < |r| ==> r[i] == s[if i < k then i else i + 1];
      forall x | x in s && x != t ensures x in r {
        var j :| 0 <= j < |s| && s[j] == x;
        assert r[if j < k then j else j - 1] == x;
      }
    }
  }

  /** The timers are in the order they are due in. */
  ghost predicate Sorted(timers: seq<Timer>, s: seq<nat>) {
    && (forall i :: 0 <= i < |s| ==> s[i] < |timers|)
    && (forall i, j :: 0 <= i < j < |s| ==> timers[s[i]].toExec <= timers[s[j]].toExec)
  }

  lemma SortedRemove(timers: seq<Timer>, s: seq<nat>, t: nat)
    requires Sorted(timers, s)
    ensures Sorted(timers, Remove(s, t))
  {
    var k, r := Find(s, t), Remove(s, t);
    if k < |s| { assert forall i :: 0 <= i < |r| ==> r[i] == s[if i < k then i else i + 1]; }
  }

  /** Where a timer due at `to` goes among the others. */
  function Place(timers: seq<Timer>, s: seq<nat>, to: real): (k: nat)
    requires forall i :: 0 <= i < |s| ==> s[i] < |timers|
    ensures k <= |s|
  {
    if s != [] && timers[s[|s| - 1]].toExec <= to then |s| else FirstNotBefore(timers, s, to)
  }

  function FirstNotBefore(timers: seq<Timer>, s: seq<nat>, to: real): (k: nat)
    requires forall i :: 0 <= i < |s| ==> s[i] < |timers|
    ensures k <= |s| && (forall i :: 0 <= i < k ==> timers[s[i]].toExec < to) && (k < |s| ==> timers[s[k]].toExec >= to)
  {
    if s == [] || timers[s[0]].toExec >= to then 0 else 1 + FirstNotBefore(timers, s[1..], to)
  }

  function Inserted(s: seq<nat>, k: nat, t: nat): seq<nat>
    requires k <= |s|
  {
    s[..k] + [t] + s[k..]
  }

  // ----- the operations

  /** The timer goes from its list to the free ones, behind a call of `OnTimerEnd`. */
  function Ended(s: State, t: nat): State
    requires t < |s.timers|
  {
    if s.timers[t].repeats
    then s.(calls := s.calls + [Ends(t)], loops := Remove(s.loops, t), freed := s.freed + [t])
    else s.(calls := s.calls + [Ends(t)], single := Remove(s.single, t), freed := s.freed + [t])
  }

  function WithExec(s: State, t: nat, inExec: bool): State
    requires t < |s.timers|
  {
    s.(timers := s.timers[t := s.timers[t].(inExec := inExec)])
  }

  function WithKill(s: State, t: nat): State
    requires t < |s.timers|
  {
    s.(timers := s.timers[t := s.timers[t].(killMe := true)])
  }

  /** `KillTimer`. */
  function Kill(s: State, t: nat): State {
    if t >= |s.timers| || s.timers[t].killMe then s
    else if s.timers[t].inExec then WithKill(s, t)
    else Ended(WithExec(s, t, true), t)
  }

  function KillAll(s: State, ts: seq<nat>): (r: State)
    ensures |r.timers| == |s.timers|
    decreases |ts|
  {
    if ts == [] then s else KillAll(Kill(s, ts[0]), ts[1..])
  }

  function Answered(s: State, t: nat, listener: Listener): Answer {
    listener(s.calls + [Fires(t)])
  }

  /** `OnTimer` is called, and kills what it kills. */
  function Called(s: State, t: nat, listener: Listener): (r: State)
    requires t < |s.timers|
    ensures |r.timers| == |s.timers|
  {
    var a := WithExec(s, t, true);
    KillAll(a.(calls := a.calls + [Fires(t)]), Answered(s, t, listener).kills)
  }

  function FireSingle(s: State, t: nat, listener: Listener): (r: State)
    requires t < |s.timers|
    ensures |r.timers| == |s.timers|
  {
    Ended(Called(s, t, listener), t)
  }

  /** A repeater that stays is due again at `next`. */
  function Again(s: State, t: nat, next: real): (r: State)
    requires t < |s.timers|
    ensures |r.timers| == |s.timers|
  {
    s.(timers := s.timers[t := s.timers[t].(inExec := false, toExec := next)])
  }

  function FireLoop(now: real, s: State, t: nat, listener: Listener): (r: State)
    requires t < |s.timers|
    ensures |r.timers| == |s.timers|
  {
    var c := Called(s, t, listener);
    if c.timers[t].killMe || Answered(s, t, listener).stops then Ended(c, t)
    else Again(c, t, CalcNextThink(now, c.timers[t].toExec, c.timers[t].interval))
  }

  /** `FireTimerOnce`. */
  function FireOnce(now: real, s: State, t: nat, delay: bool, listener: Listener): State {
    if t >= |s.timers| || s.timers[t].inExec then s
    else FiredOnce(now, Called(s, t, listener), t, delay, Answered(s, t, listener).stops)
  }

  function FiredOnce(now: real, c: State, t: nat, delay: bool, stops: bool): State
    requires t < |c.timers|
  {
    if !c.timers[t].repeats || c.timers[t].killMe || stops then Ended(c, t)
    else Again(c, t, if delay then now + c.timers[t].interval else c.timers[t].toExec)
  }

  /** The record a new timer gets. */
  function Fresh(s: State): nat {
    if s.freed == [] then |s.timers| else s.freed[|s.freed| - 1]
  }

  /** The free timers and those that fire once are records. */
  ghost predicate Records(s: State) {
    && (forall i :: 0 <= i < |s.freed| ==> s.freed[i] < |s.timers|)
    && (forall i :: 0 <= i < |s.single| ==> s.single[i] < |s.timers|)
  }

  /** `CreateTimer`. */
  function Create(now: real, s: State, interval: real, repeats: bool): State
    requires Records(s)
  {
    var t, timer := Fresh(s), Timer(interval, now + interval, repeats, false, false);
    State(if s.freed == [] then s.timers + [timer] else s.timers[t := timer],
          if repeats then s.single else Inserted(s.single, Place(s.timers, s.single, now + interval), t),
          if repeats then s.loops + [t] else s.loops,
          if s.freed == [] then [] else s.freed[..|s.freed| - 1],
          s.calls + [Made(t)])
  }

  // ----- a frame

  /** `RunFrame`'s first loop: as long as the first timer is due, it is called and ended. (That always
      takes it off the list.) */
  function FireSingles(now: real, s: State, listener: Listener): State
    decreases |s.single|
  {
    if s.single == [] || s.single[0] >= |s.timers| || now < s.timers[s.single[0]].toExec then s else
      var r := FireSingle(s, s.single[0], listener);
      if |r.single| < |s.single| then FireSingles(now, r, listener) else r
  }

  /** The repeaters of the second loop, as they were listed when it began, without those killed since. */
  function FireLoops(now: real, s: State, list: seq<nat>, listener: Listener): State
    decreases |list|
  {
    if list == [] then s else
      var t := list[0];
      if t < |s.timers| && !s.timers[t].inExec && now >= s.timers[t].toExec
      then FireLoops(now, FireLoop(now, s, t, listener), list[1..], listener)
      else FireLoops(now, s, list[1..], listener)
  }

  /** `RunFrame`. */
  function RunFrame(now: real, s: State, listener: Listener): State {
    var a := FireSingles(now, s, listener);
    FireLoops(now, a, a.loops, listener)
  }
}
