/**
 The way of an operation, said apart from the steps: which step may move it from where to where, what is
 done to it on the way, and which operation goes first.
 */
module DbOrder {
  import opened Common
  import opened DbThreads
  import opened DbInvariants

  // ----- who goes first

  function Rank(p: Prio): nat {
    match p case High => 2 case Normal => 1 case Low => 0
  }

  /** Nothing that is queued has a higher priority, or the same one and came earlier. (Operations are numbered as they
      come.) */
  ghost predicate GoesFirst(s: State, op: nat)
    requires op < |s.stages| && s.stages[op].Queued?
  {
    forall id: nat :: id < |s.stages| && s.stages[id].Queued? && id != op ==>
      && Rank(s.stages[id].prio) <= Rank(s.stages[op].prio)
      && (s.stages[id].prio == s.stages[op].prio ==> op < id)
  }

  /** A queue holds its operations in the order in which they came. */
  ghost predicate Rising(q: seq<nat>) {
    forall i, j :: 0 <= i < j < |q| ==> q[i] < q[j]
  }

  ghost predicate Ordered(s: State) {
    Rising(s.ops.high.queue) && Rising(s.ops.normal.queue) && Rising(s.ops.low.queue)
  }

  lemma RisingAdd(q: seq<nat>, stages: seq<Stage>, at: Stage)
    requires Rising(q) && Holds(q, stages, at)
    ensures Rising(q + [|stages|])
  {
    forall i | 0 <= i < |q| ensures q[i] < |stages| { assert q[i] in q; }
  }

  lemma SubmitOrdered(s: State, owner: nat, driver: nat, prio: Prio, works: bool)
    requires Inv(s) && Ordered(s)
    ensures Ordered(Submit(s, owner, driver, prio, works))
  {
    RisingAdd(s.ops.high.queue, s.stages, Queued(High));
    RisingAdd(s.ops.normal.queue, s.stages, Queued(Normal));
    RisingAdd(s.ops.low.queue, s.stages, Queued(Low));
    hide Inv, Rising, Made;
  }

  lemma TakeOrdered(s: State)
    requires s.worker.Worker? && Ordered(s)
    ensures Ordered(Take(s))
  {
    hide Likely;
  }

  lemma StepOrdered(s: State, a: Action)
    requires Inv(s) && Enabled(s, a) && Ordered(s)
    ensures Ordered(Step(s, a))
  {
    hide Inv, Submit, Take, Rising, Chosen;
    match a
    case DoSubmit(owner, driver, prio, works) => SubmitOrdered(s, owner, driver, prio, works);
    case DoTake => TakeOrdered(s);
    case _ =>
  }

  lemma {:induction false} RunOrdered(s: State, actions: seq<Action>)
    requires Reached(s, actions)
    ensures Inv(s) && Ordered(s)
    decreases |actions|
  {
    hide Step, Enabled;
    EveryRunIsGood(s, actions);
    if actions != [] {
      var before, last := actions[..|actions| - 1], actions[|actions| - 1];
      var u: State :| Reached(u, before) && Enabled(u, last) && s == Step(u, last);
      hide Inv, Reached;
      RunOrdered(u, before);
      StepOrdered(u, last);
    }
  }

  // ----- the way of an operation

  /** What may become of an operation in a step: where it goes, and what is done to it. */
  ghost predicate MayMove(s: State, a: Action, op: nat, to: Stage, done: seq<Event>)
    requires op < |s.stages|
  {
    if to == s.stages[op] then done == []
    else
      match s.stages[op]
      case Queued(_) => a == DoTake && to == Taken && done == [] && GoesFirst(s, op)
      case Taken => a == DoWork && to == Working && done == [Ran]
      case Working => a == DoDeliver && to == Waiting && done == []
      case Waiting =>
        || (a == DoPopFrame && to == Thinking && done == [Thought] && s.think != [] && s.think[0] == op)
        || (a == DoEndStop && to == Listed && done == []
            && exists purge: Purge :: Top(s.stack) == Some(Stopping(Some(purge))) && Concerns(s, purge, op))
      case Listed =>
        && a == DoPurgeNext && to == Thinking
        && exists purge: Purge, rest: seq<nat> ::
             && Top(s.stack) == Some(Purging(purge, [op] + rest))
             && done == [if purge.ByDriver? then Cancelled else Thought]
      case Thinking => a == DoReturn && to == Gone && done == [Destroyed] && Top(s.stack) == Some(InThink(op))
      case Gone => false
  }

  ghost predicate Moved(s: State, a: Action, u: State, op: nat)
    requires op < |s.stages| && |s.did| == |s.stages|
  {
    && op < |u.stages| == |u.did|
    && s.did[op] <= u.did[op] && MayMove(s, a, op, u.stages[op], u.did[op][|s.did[op]|..])
  }

  lemma StillMoved(s: State, a: Action, u: State, op: nat)
    requires op < |s.stages| == |s.did| && op < |u.stages| == |u.did|
    requires u.stages[op] == s.stages[op] && u.did[op] == s.did[op]
    ensures Moved(s, a, u, op)
  {
    hide GoesFirst, Concerns;
  }

  lemma MoveMoved(s: State, a: Action, u: State, id: nat, to: Stage, events: seq<Event>, op: nat)
    requires op < |s.stages| == |s.did| && id < |s.stages| && MayMove(s, a, id, to, events)
    requires u.stages == s.stages[id := to] && u.did == s.did[id := s.did[id] + events]
    ensures Moved(s, a, u, op)
  {
    if op == id {
      assert u.did[op][|s.did[op]|..] == events;
    } else {
      StillMoved(s, a, u, op);
    }
    hide GoesFirst, Concerns;
  }

  lemma LevelFirst(s: State, p: Prio, id: nat)
    requires Inv(s) && Ordered(s) && id < |s.stages| && s.stages[id] == Queued(p)
    ensures var q := At(s.ops, p).queue; id in q && q != [] && q[0] <= id
  {
    var q := At(s.ops, p).queue;
    hide Elsewhere, Histories, Shape, Accounts, Blocked, Distinct, Current;
    assert id in q;
    var i :| 0 <= i < |q| && q[i] == id;
    assert i == 0 || q[0] < q[i];
  }

  /** The operation taken goes first. */
  lemma TakenGoesFirst(s: State)
    requires Inv(s) && Ordered(s) && s.worker.Worker? && s.worker.threads > 0 && s.worker.current.None?
    ensures var q := At(s.ops, Likely(s.ops)).queue;
            && q != [] && q[0] < |s.stages| && s.stages[q[0]] == Queued(Likely(s.ops)) && GoesFirst(s, q[0])
  {
    LikelyFinds(s.ops);
    LevelTaken(s.ops, s.stages, Likely(s.ops));
    var q := At(s.ops, Likely(s.ops)).queue;
    forall id: nat | id < |s.stages| && s.stages[id].Queued? && id != q[0]
      ensures Rank(s.stages[id].prio) <= Rank(Likely(s.ops)) && (s.stages[id].prio == Likely(s.ops) ==> q[0] < id)
    {
      LevelFirst(s, s.stages[id].prio, id);
      hide Inv, Ordered;
    }
    hide Inv, Ordered, Levels, FirstTaken, SetLevel;
  }

  lemma TakeMoves(s: State, op: nat)
    requires Inv(s) && Ordered(s) && Enabled(s, DoTake) && op < |s.stages|
    ensures |s.did| == |s.stages| && Moved(s, DoTake, Take(s), op)
  {
    TakenGoesFirst(s);
    var id := At(s.ops, Likely(s.ops)).queue[0];
    assert |s.did| == |s.stages|;
    hide Inv, Ordered, GoesFirst, Likely, At, SetLevel, FirstTaken;
    assert s.did[id] + [] == s.did[id];
    MoveMoved(s, DoTake, Take(s), id, Taken, [], op);
  }

  lemma FrameMoves(s: State, op: nat)
    requires Inv(s) && Enabled(s, DoPopFrame) && op < |s.stages|
    ensures |s.did| == |s.stages| && Moved(s, DoPopFrame, PopFrame(s), op)
  {
    PopFramePlaces(s);
    assert |s.did| == |s.stages|;
    hide Inv, Elsewhere, Lists, Thinks, Shape, GoesFirst, Concerns;
    MoveMoved(s, DoPopFrame, PopFrame(s), s.think[0], Thinking, [Thought], op);
  }

  lemma ReturnMoves(s: State, op: nat)
    requires Inv(s) && Enabled(s, DoReturn) && op < |s.stages|
    ensures |s.did| == |s.stages| && Moved(s, DoReturn, Return(s, Top(s.stack).value.op), op)
  {
    var id := Top(s.stack).value.op;
    StackPop(s.stack);
    StackPush(Popped(s.stack), InThink(id));
    assert |s.did| == |s.stages|;
    assert id in Thinks(s.stack) && id < |s.stages| && s.stages[id] == Thinking;
    hide Inv, Elsewhere, Lists, Thinks, Shape, GoesFirst, Concerns;
    MoveMoved(s, DoReturn, Return(s, id), id, Gone, [Destroyed], op);
  }

  lemma StopMoves(s: State, op: nat)
    requires Inv(s) && Enabled(s, DoEndStop) && op < |s.stages|
    ensures |s.did| == |s.stages| && Moved(s, DoEndStop, EndStop(s, Top(s.stack).value.next), op)
  {
    var next := Top(s.stack).value.next;
    var u := EndStop(s, next);
    assert |s.did| == |s.stages|;
    hide Levels, InOrder, Current, Histories, Shape, Accounts, Blocked, Lists, Thinks, GoesFirst, Concerns;
    if next.Some? {
      var mine := Chosen(s, next.value, s.think, true);
      ChosenAre(s, next.value, s.think, true);
      assert u.stages == Relisted(s.stages, mine) && u.did == s.did;
      if op in mine {
        assert Top(s.stack) == Some(Stopping(Some(next.value))) && Concerns(s, next.value, op);
        assert s.stages[op] == Waiting && u.stages[op] == Listed && u.did[op][|s.did[op]|..] == [];
      } else {
        StillMoved(s, DoEndStop, u, op);
      }
      hide Chosen;
    } else {
      StillMoved(s, DoEndStop, u, op);
    }
  }

  lemma PurgeMoves(s: State, op: nat)
    requires Inv(s) && Enabled(s, DoPurgeNext) && op < |s.stages|
    ensures |s.did| == |s.stages|
            && Moved(s, DoPurgeNext, PurgeNext(s, Top(s.stack).value.purge, Top(s.stack).value.list), op)
  {
    var purge, list := Top(s.stack).value.purge, Top(s.stack).value.list;
    PurgeNextPlaces(s, purge, list);
    assert |s.did| == |s.stages|;
    hide Inv, Elsewhere, Lists, Thinks, Shape, GoesFirst, Concerns, Popped;
    assert list == [list[0]] + list[1..];
    MoveMoved(s, DoPurgeNext, PurgeNext(s, purge, list), list[0], Thinking,
              [if purge.ByDriver? then Cancelled else Thought], op);
  }

  lemma WorkerMoves(s: State, op: nat)
    requires Inv(s) && op < |s.stages|
    ensures |s.did| == |s.stages|
    ensures Enabled(s, DoWork) ==> Moved(s, DoWork, Work(s, s.worker.current.value), op)
    ensures Enabled(s, DoDeliver) ==> Moved(s, DoDeliver, Deliver(s, s.worker.current.value), op)
  {
    assert |s.did| == |s.stages|;
    hide Inv, GoesFirst, Concerns;
    if Enabled(s, DoWork) {
      MoveMoved(s, DoWork, Work(s, s.worker.current.value), s.worker.current.value, Working, [Ran], op);
    }
    if Enabled(s, DoDeliver) {
      var id := s.worker.current.value;
      assert s.did[id] + [] == s.did[id];
      MoveMoved(s, DoDeliver, Deliver(s, id), id, Waiting, [], op);
    }
  }

  /** In any step of either thread, an operation goes on its way or stays where it is. In particular it leaves its
      queue only to be run, and only when it goes first. */
  lemma StepMoves(s: State, a: Action, op: nat)
    requires Inv(s) && Ordered(s) && Enabled(s, a) && op < |s.stages|
    ensures |s.did| == |s.stages| && Moved(s, a, Step(s, a), op)
  {
    assert |s.did| == |s.stages|;
    hide Inv, Ordered, Moved, Take, PopFrame, Return, EndStop, PurgeNext, Work, Deliver;
    match a
    case DoPopFrame => FrameMoves(s, op);
    case DoReturn => ReturnMoves(s, op);
    case DoEndStop => StopMoves(s, op);
    case DoPurgeNext => PurgeMoves(s, op);
    case DoTake => TakeMoves(s, op);
    case DoWork => WorkerMoves(s, op);
    case DoDeliver => WorkerMoves(s, op);
    case DoSubmit(_, _, _, _) => StillMoved(s, a, Step(s, a), op);
    case DoMakeThread => StillMoved(s, a, Step(s, a), op);
    case DoTestFrame => StillMoved(s, a, Step(s, a), op);
    case DoBeginStop(_) => StillMoved(s, a, Step(s, a), op);
    case DoEndPurge => StillMoved(s, a, Step(s, a), op);
  }

  /** In every run: an operation is taken from its queue only by the worker, and never while one of higher priority is
      queued, or one of its own priority that came before it. */
  lemma NeverOvertaken(s: State, actions: seq<Action>, a: Action, op: nat)
    requires Reached(s, actions) && Enabled(s, a) && op < |s.stages| && s.stages[op].Queued?
    ensures op < |Step(s, a).stages|
    ensures Step(s, a).stages[op] != s.stages[op] ==>
              && a == DoTake && Step(s, a).stages[op] == Taken
              && forall id: nat :: id < |s.stages| && s.stages[id].Queued? && id != op ==>
                   && Rank(s.stages[id].prio) <= Rank(s.stages[op].prio)
                   && (s.stages[id].prio == s.stages[op].prio ==> op < id)
  {
    RunOrdered(s, actions);
    StepMoves(s, a, op);
    hide Inv, Ordered, Step, Enabled, Reached;
  }

  // ----- new operations

  /** A new operation is queued with its priority, unless its owner is refused or there is nobody to run it; then
      it is run at once and its think part comes next. Nothing else moves. */
  lemma SubmitExactly(s: State, owner: nat, driver: nat, prio: Prio, works: bool)
    requires Inv(s)
    ensures var u, op := Submit(s, owner, driver, prio, works), |s.stages|;
            var refused := owner in s.disallowed || s.block == Some(owner) || (s.worker.NoWorker? && !works);
            && |u.stages| == |u.did| == |u.owners| == |u.drivers| == op + 1
            && u.owners[op] == owner && u.drivers[op] == driver
            && (if refused then u.stages[op] == Thinking && u.did[op] == [Ran, Thought]
                && Top(u.stack) == Some(InThink(op))
                else u.stages[op] == Queued(prio) && u.did[op] == [] && Top(u.stack) == Some(Pushed(op)))
            && forall id: nat :: id < op ==> u.stages[id] == s.stages[id] && u.did[id] == s.did[id]
  {
    hide Levels, InOrder, Current, Elsewhere, Histories, Shape, Accounts, Blocked, SetLevel, Put;
  }

  // ----- the think queue

  /** The think queue is a queue: what the worker delivers goes to its end, a frame takes its first, and a purge
      takes what it concerns and leaves the others, both in their order. */
  lemma ThinkQueue(s: State, a: Action)
    requires Inv(s) && Enabled(s, a)
    ensures var u := Step(s, a);
            if a == DoDeliver then u.think == s.think + [s.worker.current.value]
            else if a == DoPopFrame then s.think != [] && Top(u.stack) == Some(InThink(s.think[0]))
                    && u.think == s.think[1..]
            else if a == DoEndStop && Top(s.stack).value.next.Some? then
              var purge := Top(s.stack).value.next.value;
              && (forall id: nat :: id in u.think <==> id in s.think && !Concerns(s, purge, id))
              && Part(u.think, s.think) && Top(u.stack).Some? && Top(u.stack).value.Purging?
              && var list := Top(u.stack).value.list;
                 (forall id: nat :: id in list <==> id in s.think && Concerns(s, purge, id)) && Part(list, s.think)
            else u.think == s.think
  {
    hide Levels, InOrder, Current, Histories, Accounts, Blocked, Lists, Thinks, SetLevel, Put, FirstTaken, At, Likely,
         Concerns;
    match a
    case DoPopFrame => PopFramePlaces(s);
    case DoEndStop =>
      if Top(s.stack).value.next.Some? {
        var purge := Top(s.stack).value.next.value;
        ChosenAre(s, purge, s.think, false);
        ChosenIsPart(s, purge, s.think, false);
        ChosenAre(s, purge, s.think, true);
        ChosenIsPart(s, purge, s.think, true);
        assert EndStop(s, Some(purge)).think == Chosen(s, purge, s.think, false);
      }
    case _ =>
  }

  /** Some of the elements, in their order. */
  predicate Part(a: seq<nat>, b: seq<nat>) {
    if b == [] then a == []
    else Part(a, b[..|b| - 1]) || (a != [] && a[|a| - 1] == b[|b| - 1] && Part(a[..|a| - 1], b[..|b| - 1]))
  }

  lemma {:induction false} ChosenIsPart(s: State, purge: Purge, queue: seq<nat>, mine: bool)
    ensures Part(Chosen(s, purge, queue, mine), queue)
  {
    if queue != [] {
      ChosenIsPart(s, purge, queue[..|queue| - 1], mine);
      var front := Chosen(s, purge, queue[..|queue| - 1], mine);
      var all := Chosen(s, purge, queue, mine);
      if Concerns(s, purge, queue[|queue| - 1]) == mine {
        assert all[..|all| - 1] == front;
      } else {
        assert all == front;
      }
    }
  }

  // ----- who is refused

  /** A plugin is refused from the moment its worker has stopped for its unloading, and only plugins that are
      unloaded are; an identity is blocked when its purge begins, until any identity's purge ends. */
  lemma RefusalStep(s: State, a: Action)
    requires Inv(s) && Enabled(s, a)
    ensures var u := Step(s, a);
            && (forall owner: nat :: owner in u.disallowed <==>
                  || owner in s.disallowed
                  || (a == DoEndStop && Top(s.stack) == Some(Stopping(Some(ByPlugin(owner))))))
            && (forall owner: nat :: u.block == Some(owner) <==>
                  || a == DoBeginStop(Some(ByIdentity(owner)))
                  || (s.block == Some(owner) && !(a.DoBeginStop? && a.purge.Some? && a.purge.value.ByIdentity?)
                      && !(a == DoEndPurge && Top(s.stack).value.purge.ByIdentity?)))
  {
    hide Inv, SetLevel, Put, FirstTaken, At, Likely, Concerns, Chosen, Popped;
  }
}
