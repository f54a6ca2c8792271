/**
 What every interleaving of the two threads keeps: each operation is in one place, is run, then
 thought about or cancelled, then destroyed, each once and in that order.
 */
module DbInvariants {
  import opened Common
  import opened DbThreads

  /** The queue holds exactly the operations of this stage, each once. */
  ghost predicate Holds(q: seq<nat>, stages: seq<Stage>, at: Stage) {
    && Distinct(q)
    && forall id: nat :: id in q <==> id < |stages| && stages[id] == at
  }

  function Lists(stack: seq<Frame>): seq<nat> {
    if stack == [] then []
    else Lists(stack[..|stack| - 1]) + (if stack[|stack| - 1].Purging? then stack[|stack| - 1].list else [])
  }

  function Thinks(stack: seq<Frame>): seq<nat> {
    if stack == [] then []
    else Thinks(stack[..|stack| - 1]) + (if stack[|stack| - 1].InThink? then [stack[|stack| - 1].op] else [])
  }

  /** What has been done to an operation, by where it is. */
  predicate Matches(stage: Stage, did: seq<Event>) {
    match stage
    case Queued(_) => did == []
    case Taken => did == []
    case Working => did == [Ran]
    case Waiting => did == [Ran]
    case Listed => did == [Ran]
    case Thinking => did == [Ran, Thought] || did == [Ran, Cancelled]
    case Gone => did == [Ran, Thought, Destroyed] || did == [Ran, Cancelled, Destroyed]
  }

  function One(b: bool): nat { if b then 1 else 0 }

  predicate TopPushed(stack: seq<Frame>) { stack != [] && stack[|stack| - 1].Pushed? }

  predicate TopChecked(stack: seq<Frame>) { stack != [] && stack[|stack| - 1].Checked? }

  // ----- the invariant

  ghost predicate Sizes(s: State) {
    |s.owners| == |s.stages| && |s.drivers| == |s.stages| && |s.did| == |s.stages|
  }

  ghost predicate Levels(ops: PrioQueue, stages: seq<Stage>) {
    && Holds(ops.high.queue, stages, Queued(High)) && Holds(ops.normal.queue, stages, Queued(Normal))
    && Holds(ops.low.queue, stages, Queued(Low))
  }

  ghost predicate LevelInOrder(l: Level) { l.pushed == l.taken + l.queue }

  /** What was put into a level comes out in the same order. */
  ghost predicate InOrder(ops: PrioQueue) {
    LevelInOrder(ops.high) && LevelInOrder(ops.normal) && LevelInOrder(ops.low)
  }

  predicate OnWorker(stage: Stage) { stage == Taken || stage == Working }

  ghost predicate Current(worker: Worker, stages: seq<Stage>) {
    && (worker.Worker? && worker.current.Some? ==>
          worker.current.value < |stages| && OnWorker(stages[worker.current.value]) && worker.threads > 0)
    && forall id: nat :: id < |stages| && OnWorker(stages[id]) ==> worker.Worker? && worker.current == Some(id)
  }

  ghost predicate Elsewhere(think: seq<nat>, lists: seq<nat>, thinks: seq<nat>, stages: seq<Stage>) {
    Holds(think, stages, Waiting) && Holds(lists, stages, Listed) && Holds(thinks, stages, Thinking)
  }

  ghost predicate Histories(stages: seq<Stage>, did: seq<seq<Event>>) {
    |did| == |stages| && forall id: nat :: id < |stages| ==> Matches(stages[id], did[id])
  }

  /** Only a plugin's code, called from a purge or a frame, can call back. */
  ghost predicate Shape(stack: seq<Frame>, think: seq<nat>) {
    && (forall i :: 0 <= i < |stack| - 1 ==> stack[i].InThink? || stack[i].Purging?)
    && (TopChecked(stack) ==> think != [])
  }

  function Size(ops: PrioQueue): nat { |ops.high.queue| + |ops.normal.queue| + |ops.low.queue| }

  /** As many threads as there are operations to be run, but for one that is just being made. */
  ghost predicate Accounts(worker: Worker, size: nat, pushed: bool) {
    match worker
    case NoWorker => size == 0 && !pushed
    case Worker(threads, current) => size + One(current.Some?) == threads + One(pushed)
  }

  predicate Active(stage: Stage) { stage.Queued? || OnWorker(stage) || stage == Waiting }

  /** None of the owner's operations is queued anywhere. */
  ghost predicate Clean(owners: seq<nat>, stages: seq<Stage>, owner: nat) {
    forall id: nat :: id < |stages| && id < |owners| && Active(stages[id]) ==> owners[id] != owner
  }

  ghost predicate Blocked(owners: seq<nat>, stages: seq<Stage>, disallowed: set<nat>, block: Option<nat>,
                          top: Option<Frame>) {
    && (forall owner :: owner in disallowed ==> Clean(owners, stages, owner))
    && (block.Some? && top != Some(Stopping(Some(ByIdentity(block.value)))) ==> Clean(owners, stages, block.value))
  }

  ghost predicate Inv(s: State) {
    && !s.fault && Sizes(s) && Levels(s.ops, s.stages) && InOrder(s.ops) && Current(s.worker, s.stages)
    && Elsewhere(s.think, Lists(s.stack), Thinks(s.stack), s.stages) && Histories(s.stages, s.did)
       && Shape(s.stack, s.think)
    && Accounts(s.worker, Size(s.ops), TopPushed(s.stack))
    && Blocked(s.owners, s.stages, s.disallowed, s.block, Top(s.stack))
  }

  lemma StartIsGood()
    ensures Inv(START)
  {}

  // ----- one operation moves

  lemma HoldsDrop(a: seq<nat>, op: nat, b: seq<nat>, stages: seq<Stage>, from: Stage, to: Stage)
    requires Holds(a + [op] + b, stages, from) && to != from
    ensures op < |stages| && stages[op] == from && Holds(a + b, stages[op := to], from)
  {
    var q, r := a + [op] + b, a + b;
    assert q[|a|] == op && op in q;
    assert forall i :: 0 <= i < |r| ==> r[i] == q[if i < |a| then i else i + 1];
    forall id: nat ensures id in r <==> id in q && id != op {
      if id in q && id != op {
        var i :| 0 <= i < |q| && q[i] == id;
        assert r[if i < |a| then i else i - 1] == id;
      }
      if id in r {
        var i :| 0 <= i < |r| && r[i] == id;
        assert q[if i < |a| then i else i + 1] == id;
      }
    }
  }

  lemma HoldsAdd(q: seq<nat>, op: nat, stages: seq<Stage>, to: Stage)
    requires Holds(q, stages, to) && op < |stages| && stages[op] != to
    ensures Holds(q + [op], stages[op := to], to)
  {
    assert op !in q;
  }

  lemma HoldsKeep(q: seq<nat>, op: nat, stages: seq<Stage>, at: Stage, to: Stage)
    requires Holds(q, stages, at) && op < |stages| && stages[op] != at && to != at
    ensures Holds(q, stages[op := to], at)
  {}

  lemma HoldsMade(q: seq<nat>, stages: seq<Stage>, at: Stage, to: Stage)
    requires Holds(q, stages, at)
    ensures to != at ==> Holds(q, stages + [to], at)
    ensures to == at ==> Holds(q + [|stages|], stages + [to], at)
  {
    assert |stages| !in q;
  }

  lemma LevelsKeep(ops: PrioQueue, stages: seq<Stage>, op: nat, to: Stage)
    requires Levels(ops, stages) && op < |stages| && !stages[op].Queued? && !to.Queued?
    ensures Levels(ops, stages[op := to])
  {
    HoldsKeep(ops.high.queue, op, stages, Queued(High), to);
    HoldsKeep(ops.normal.queue, op, stages, Queued(Normal), to);
    HoldsKeep(ops.low.queue, op, stages, Queued(Low), to);
    hide Holds;
  }

  lemma CurrentKeeps(worker: Worker, stages: seq<Stage>, op: nat, to: Stage)
    requires Current(worker, stages) && op < |stages| && !OnWorker(stages[op]) && !OnWorker(to)
    ensures Current(worker, stages[op := to])
  {}

  lemma HistoriesMove(stages: seq<Stage>, did: seq<seq<Event>>, op: nat, to: Stage, events: seq<Event>)
    requires Histories(stages, did) && op < |stages| && Matches(to, did[op] + events)
    ensures Histories(stages[op := to], did[op := did[op] + events])
  {}

  /** Moves that make an operation no more active than it was keep the blocks. */
  lemma BlockedMove(owners: seq<nat>, stages: seq<Stage>, disallowed: set<nat>, block: Option<nat>, top: Option<Frame>,
                    op: nat, to: Stage)
    requires Blocked(owners, stages, disallowed, block, top) && op < |stages| && (Active(to) ==> Active(stages[op]))
    ensures Blocked(owners, stages[op := to], disallowed, block, top)
  {
    var after := stages[op := to];
    forall o: nat | Clean(owners, stages, o) ensures Clean(owners, after, o) {
      forall id: nat | id < |after| && id < |owners| && Active(after[id]) ensures owners[id] != o {
        assert Active(stages[id]);
      }
    }
  }

  /** Another call of the game's thread changes nothing for the blocks, but for one that has just begun. */
  lemma BlockedTop(owners: seq<nat>, stages: seq<Stage>, disallowed: set<nat>, block: Option<nat>, top: Option<Frame>,
                   next: Option<Frame>)
    requires Blocked(owners, stages, disallowed, block, top)
    requires block.Some? ==> top != Some(Stopping(Some(ByIdentity(block.value))))
    ensures Blocked(owners, stages, disallowed, block, next)
  {}

  lemma StackPush(stack: seq<Frame>, f: Frame)
    ensures Lists(stack + [f]) == if f.Purging? then Lists(stack) + f.list else Lists(stack)
    ensures Thinks(stack + [f]) == if f.InThink? then Thinks(stack) + [f.op] else Thinks(stack)
    ensures Top(stack + [f]) == Some(f) && Popped(stack + [f]) == stack && TopPushed(stack + [f]) == f.Pushed?
    ensures TopChecked(stack + [f]) == f.Checked?
  {
    assert (stack + [f])[..|stack|] == stack;
    assert Lists(stack) + [] == Lists(stack) && Thinks(stack) + [] == Thinks(stack);
  }

  lemma StackPop(stack: seq<Frame>)
    requires stack != []
    ensures stack == Popped(stack) + [Top(stack).value]
  {}

  /** What the top of a stack says of it, and of what is below. */
  lemma TopIs(stack: seq<Frame>, think: seq<nat>)
    requires Top(stack).Some? && Shape(stack, think)
    ensures stack != [] && TopPushed(stack) == Top(stack).value.Pushed? && !TopPushed(Popped(stack))
  {
    var k := Popped(stack);
    if k != [] { assert stack[|k| - 1] == k[|k| - 1]; }
  }

  /** A stack that something can be called from, and what is called. */
  lemma ShapePush(stack: seq<Frame>, f: Frame, think: seq<nat>)
    requires Shape(stack, think) && (stack == [] || Top(stack).value.InThink? || Top(stack).value.Purging?)
    requires f.Checked? ==> think != []
    ensures Shape(stack + [f], think)
  {}

  lemma ShapePop(stack: seq<Frame>, think: seq<nat>, after: seq<nat>)
    requires Shape(stack, think) && stack != []
    ensures Shape(Popped(stack), after)
    ensures Popped(stack) != [] ==> Top(Popped(stack)).value.InThink? || Top(Popped(stack)).value.Purging?
  {}

  // ----- the game's thread

  lemma SubmitInline(s: State, owner: nat, driver: nat)
    requires Inv(s) && Ready(s)
    ensures Inv(Made(s, owner, driver, Thinking, [Ran, Thought]).(stack := s.stack + [InThink(|s.stages|)]))
  {
    var op := |s.stages|;
    MadeKeeps(s, owner, driver, Thinking, [Ran, Thought]);
    StackPush(s.stack, InThink(op));
    ShapePush(s.stack, InThink(op), s.think);
    BlockedTop(s.owners + [owner], s.stages + [Thinking], s.disallowed, s.block, Top(s.stack), Some(InThink(op)));
    hide Levels, Current, Holds, Lists, Thinks, Histories, Shape, Blocked;
  }

  lemma MadeKeeps(s: State, owner: nat, driver: nat, stage: Stage, events: seq<Event>)
    requires Inv(s) && Matches(stage, events) && Ready(s)
    requires stage == Thinking || (stage.Queued? && owner !in s.disallowed && s.block != Some(owner))
    ensures var u := Made(s, owner, driver, stage, events);
            && Sizes(u) && Current(u.worker, u.stages) && Histories(u.stages, u.did)
            && Holds(s.think, u.stages, Waiting) && Holds(Lists(s.stack), u.stages, Listed)
            && Holds(if stage == Thinking then Thinks(s.stack) + [|s.stages|] else Thinks(s.stack), u.stages, Thinking)
            && Levels(if stage.Queued? then SetLevel(s.ops, stage.prio, Put(At(s.ops, stage.prio), |s.stages|))
                      else s.ops, u.stages)
            && Blocked(u.owners, u.stages, s.disallowed, s.block, Top(s.stack))
  {
    HoldsMade(s.think, s.stages, Waiting, stage);
    HoldsMade(Lists(s.stack), s.stages, Listed, stage);
    HoldsMade(Thinks(s.stack), s.stages, Thinking, stage);
    HoldsMade(s.ops.high.queue, s.stages, Queued(High), stage);
    HoldsMade(s.ops.normal.queue, s.stages, Queued(Normal), stage);
    HoldsMade(s.ops.low.queue, s.stages, Queued(Low), stage);
    hide Holds, Lists, Thinks;
  }

  lemma LevelPut(ops: PrioQueue, p: Prio, op: nat)
    requires InOrder(ops)
    ensures var u := SetLevel(ops, p, Put(At(ops, p), op)); InOrder(u) && Size(u) == Size(ops) + 1
  {
    var l := At(ops, p);
    assert l.taken + (l.queue + [op]) == l.taken + l.queue + [op];
  }

  lemma SubmitQueued(s: State, owner: nat, driver: nat, prio: Prio)
    requires Inv(s) && Ready(s) && owner !in s.disallowed && s.block != Some(owner)
    ensures Inv(Submit(s, owner, driver, prio, true))
  {
    var op := |s.stages|;
    var v := Submit(s, owner, driver, prio, true);
    MadeKeeps(s, owner, driver, Queued(prio), []);
    LevelPut(s.ops, prio, op);
    StackPush(s.stack, Pushed(op));
    ShapePush(s.stack, Pushed(op), s.think);
    BlockedTop(v.owners, v.stages, s.disallowed, s.block, Top(s.stack), Some(Pushed(op)));
    assert Current(v.worker, v.stages) && !TopPushed(s.stack);
    hide Levels, InOrder, Holds, Lists, Thinks, Histories, Shape, Blocked, Current, SetLevel, Put, At, Size;
  }

  lemma SubmitKeeps(s: State, owner: nat, driver: nat, prio: Prio, works: bool)
    requires Inv(s) && Ready(s)
    ensures Inv(Submit(s, owner, driver, prio, works))
  {
    if owner in s.disallowed || s.block == Some(owner) || (s.worker.NoWorker? && !works) {
      SubmitInline(s, owner, driver);
    } else {
      SubmitQueued(s, owner, driver, prio);
    }
    hide Inv;
  }

  lemma MakeThreadKeeps(s: State)
    requires Inv(s) && Top(s.stack).Some? && Top(s.stack).value.Pushed?
    ensures Inv(MakeThread(s))
  {
    hide Levels, InOrder, Holds, Lists, Thinks, Histories, Shape, Blocked, Size, Popped, Top, TopPushed;
    TopIs(s.stack, s.think);
    var k := Popped(s.stack);
    StackPop(s.stack);
    StackPush(k, Top(s.stack).value);
    ShapePop(s.stack, s.think, s.think);
    BlockedTop(s.owners, s.stages, s.disallowed, s.block, Top(s.stack), Top(k));
    assert Current(MakeThread(s).worker, s.stages);
    hide Current;
  }

  lemma TestFrameKeeps(s: State)
    requires Inv(s) && s.stack == []
    ensures Inv(TestFrame(s))
  {
    StackPush(s.stack, Checked);
    if s.think != [] { ShapePush(s.stack, Checked, s.think); }
    BlockedTop(s.owners, s.stages, s.disallowed, s.block, Top(s.stack), Some(Checked));
    hide Levels, InOrder, Holds, Lists, Thinks, Histories, Shape, Blocked, Size, Current;
  }

  /** An operation leaves the worker's queues alone: what stays as it was. */
  lemma MoveKeeps(s: State, op: nat, to: Stage, events: seq<Event>)
    requires Inv(s) && op < |s.stages| && !s.stages[op].Queued? && !to.Queued? && !OnWorker(s.stages[op])
             && !OnWorker(to)
    requires Matches(to, s.did[op] + events) && (Active(to) ==> Active(s.stages[op]))
    ensures var u := Move(s, op, to, events);
            && Sizes(u) && Levels(u.ops, u.stages) && Current(u.worker, u.stages) && Histories(u.stages, u.did)
            && Blocked(u.owners, u.stages, u.disallowed, u.block, Top(u.stack))
  {
    LevelsKeep(s.ops, s.stages, op, to);
    CurrentKeeps(s.worker, s.stages, op, to);
    HistoriesMove(s.stages, s.did, op, to, events);
    BlockedMove(s.owners, s.stages, s.disallowed, s.block, Top(s.stack), op, to);
    hide Levels, Current, Histories, Blocked, Elsewhere;
  }

  lemma MatchesNext(stages: seq<Stage>, did: seq<seq<Event>>, op: nat)
    requires Histories(stages, did) && op < |stages|
    ensures stages[op] == Waiting || stages[op] == Listed ==>
              Matches(Thinking, did[op] + [Thought]) && Matches(Thinking, did[op] + [Cancelled])
    ensures stages[op] == Thinking ==> Matches(Gone, did[op] + [Destroyed])
    ensures stages[op] == Taken ==> Matches(Working, did[op] + [Ran])
    ensures stages[op] == Working ==> Matches(Waiting, did[op] + [])
    ensures stages[op].Queued? ==> Matches(Taken, did[op] + [])
  {
    assert did[op] + [] == did[op];
  }

  lemma PopFramePlaces(s: State)
    requires Inv(s) && Top(s.stack) == Some(Checked)
    ensures s.think != [] && s.think[0] < |s.stages| && s.stages[s.think[0]] == Waiting
    ensures var op := s.think[0];
            var k := Popped(s.stack) + [InThink(op)];
            && Elsewhere(s.think[1..], Lists(k), Thinks(k), s.stages[op := Thinking])
            && Shape(k, s.think[1..]) && !TopPushed(k) && !TopPushed(s.stack) && Top(k) == Some(InThink(op))
  {
    var op, rest, k := s.think[0], s.think[1..], Popped(s.stack);
    assert s.think == [] + [op] + rest && [] + rest == rest;
    HoldsDrop([], op, rest, s.stages, Waiting, Thinking);
    HoldsKeep(Lists(s.stack), op, s.stages, Listed, Thinking);
    HoldsAdd(Thinks(s.stack), op, s.stages, Thinking);
    StackPop(s.stack);
    StackPush(k, Checked);
    StackPush(k, InThink(op));
    ShapePop(s.stack, s.think, rest);
    ShapePush(k, InThink(op), rest);
    hide Holds, Lists, Thinks, Shape, Popped, Top;
  }

  lemma PopFrameKeeps(s: State)
    requires Inv(s) && Top(s.stack) == Some(Checked)
    ensures Inv(PopFrame(s))
  {
    PopFramePlaces(s);
    var op := s.think[0];
    MatchesNext(s.stages, s.did, op);
    MoveKeeps(s, op, Thinking, [Thought]);
    BlockedTop(s.owners, s.stages[op := Thinking], s.disallowed, s.block, Top(s.stack), Some(InThink(op)));
    hide Levels, InOrder, Holds, Elsewhere, Lists, Thinks, Histories, Shape, Blocked, Size, Current, Popped, Top,
         TopPushed;
  }

  lemma ReturnKeeps(s: State)
    requires Inv(s) && Top(s.stack).Some? && Top(s.stack).value.InThink?
    ensures Inv(Return(s, Top(s.stack).value.op))
  {
    var op, k := Top(s.stack).value.op, Popped(s.stack);
    StackPop(s.stack);
    StackPush(k, InThink(op));
    assert Thinks(s.stack) == Thinks(k) + [op] + [] && Thinks(k) + [] == Thinks(k);
    HoldsDrop(Thinks(k), op, [], s.stages, Thinking, Gone);
    HoldsKeep(Lists(s.stack), op, s.stages, Listed, Gone);
    HoldsKeep(s.think, op, s.stages, Waiting, Gone);
    MatchesNext(s.stages, s.did, op);
    MoveKeeps(s, op, Gone, [Destroyed]);
    ShapePop(s.stack, s.think, s.think);
    BlockedTop(s.owners, s.stages[op := Gone], s.disallowed, s.block, Top(s.stack), Top(k));
    assert !TopPushed(k) && !TopPushed(s.stack);
    hide Levels, InOrder, Holds, Lists, Thinks, Histories, Shape, Blocked, Size, Current, Popped, Top, TopPushed;
  }

  lemma BeginStopKeeps(s: State, purge: Option<Purge>)
    requires Inv(s) && Ready(s)
    ensures Inv(BeginStop(s, purge))
  {
    var f := Stopping(purge);
    var v := BeginStop(s, purge);
    StackPush(s.stack, f);
    ShapePush(s.stack, f, s.think);
    BlockedTop(s.owners, s.stages, s.disallowed, s.block, Top(s.stack), Some(f));
    assert Blocked(v.owners, v.stages, v.disallowed, v.block, Top(v.stack));
    assert !TopPushed(s.stack);
    hide Levels, InOrder, Holds, Lists, Thinks, Histories, Shape, Blocked, Size, Current;
  }

  // ----- purges

  lemma {:induction false} ChosenAre(s: State, purge: Purge, queue: seq<nat>, mine: bool)
    requires Distinct(queue)
    ensures var c := Chosen(s, purge, queue, mine);
            Distinct(c) && forall id: nat :: id in c <==> id in queue && Concerns(s, purge, id) == mine
  {
    if queue != [] {
      var front, last := queue[..|queue| - 1], queue[|queue| - 1];
      ChosenAre(s, purge, front, mine);
      assert queue == front + [last];
      assert last !in front;
    }
  }

  /** The stages after a purge has taken its operations out of the think queue. */
  function Relisted(stages: seq<Stage>, mine: seq<nat>): (r: seq<Stage>)
    ensures |r| == |stages| && forall i :: 0 <= i < |r| ==> r[i] == if i in mine then Listed else stages[i]
  {
    seq(|stages|, i requires 0 <= i < |stages| => if i in mine then Listed else stages[i])
  }

  lemma RelistedHolds(q: seq<nat>, stages: seq<Stage>, mine: seq<nat>, at: Stage)
    requires Holds(q, stages, at) && at != Listed && at != Waiting
    requires forall id: nat :: id in mine ==> id < |stages| && stages[id] == Waiting
    ensures Holds(q, Relisted(stages, mine), at)
  {}

  lemma RelistedThink(s: State, think: seq<nat>, purge: Purge, stages: seq<Stage>, lists: seq<nat>)
    requires Holds(think, stages, Waiting) && Holds(lists, stages, Listed)
    ensures var mine := Chosen(s, purge, think, true);
            && Holds(Chosen(s, purge, think, false), Relisted(stages, mine), Waiting)
            && Holds(lists + mine, Relisted(stages, mine), Listed)
            && (forall id: nat :: id in mine ==> id < |stages| && stages[id] == Waiting)
  {
    var mine, rest := Chosen(s, purge, think, true), Chosen(s, purge, think, false);
    ChosenAre(s, purge, think, true);
    ChosenAre(s, purge, think, false);
    hide Chosen, Concerns;
    assert Distinct(lists + mine) by {
      forall i, j | 0 <= i < |lists| <= j < |lists + mine| ensures (lists + mine)[i] != (lists + mine)[j] {
        assert (lists + mine)[i] in lists && (lists + mine)[j] in mine;
      }
    }
  }

  lemma RelistedKeeps(s: State, mine: seq<nat>)
    requires Inv(s) && forall id: nat :: id in mine ==> id < |s.stages| && s.stages[id] == Waiting
    ensures var r := Relisted(s.stages, mine);
            Levels(s.ops, r) && Current(s.worker, r) && Histories(r, s.did) && Holds(Thinks(s.stack), r, Thinking)
  {
    RelistedHolds(s.ops.high.queue, s.stages, mine, Queued(High));
    RelistedHolds(s.ops.normal.queue, s.stages, mine, Queued(Normal));
    RelistedHolds(s.ops.low.queue, s.stages, mine, Queued(Low));
    RelistedHolds(Thinks(s.stack), s.stages, mine, Thinking);
    hide Holds, Thinks, Lists, Blocked, Shape, Accounts;
  }

  /** When the worker has stopped, nothing is left to be run: what is queued waits to be thought about. */
  lemma StoppedMeans(s: State)
    requires Inv(s) && Quiet(s.worker) && !TopPushed(s.stack)
    ensures Size(s.ops) == 0 && (s.worker.Worker? ==> s.worker.current.None?)
    ensures forall id: nat :: id < |s.stages| && Active(s.stages[id]) ==> s.stages[id] == Waiting
  {
    assert forall id: nat, p: Prio :: id < |s.stages| && s.stages[id] == Queued(p) ==> id in At(s.ops, p).queue;
  }

  /** After a purge has made its list, nothing it concerns is queued. */
  lemma PurgedIsClean(s: State, purge: Purge, id: nat)
    requires Inv(s) && Quiet(s.worker) && !TopPushed(s.stack) && id < |s.stages|
    requires Active(Relisted(s.stages, Chosen(s, purge, s.think, true))[id])
    ensures !Concerns(s, purge, id)
  {
    StoppedMeans(s);
    ChosenAre(s, purge, s.think, true);
    assert s.stages[id] == Waiting;
    assert id in s.think;
  }

  lemma EndStopBlocked(s: State, purge: Purge)
    requires Inv(s) && Top(s.stack) == Some(Stopping(Some(purge))) && Quiet(s.worker)
    ensures var u := EndStop(s, Some(purge)); Blocked(u.owners, u.stages, u.disallowed, u.block, Top(u.stack))
  {
    var u := EndStop(s, Some(purge));
    var mine := Chosen(s, purge, s.think, true);
    ChosenAre(s, purge, s.think, true);
    assert u.stages == Relisted(s.stages, mine);
    forall owner: nat | Clean(s.owners, s.stages, owner) ensures Clean(u.owners, u.stages, owner) {
      forall id: nat | id < |u.stages| && id < |u.owners| && Active(u.stages[id]) ensures u.owners[id] != owner {
        assert Active(s.stages[id]);
      }
    }
    if !purge.ByDriver? {
      assert Clean(u.owners, u.stages, purge.owner) by {
        forall id: nat | id < |u.stages| && id < |u.owners| && Active(u.stages[id])
          ensures u.owners[id] != purge.owner
        {
          PurgedIsClean(s, purge, id);
        }
      }
    }
    StackPush(Popped(s.stack), Purging(purge, mine));
    hide Clean, Chosen, Relisted, Levels, Current, Histories, Elsewhere, Shape;
  }

  lemma EndStopPlaces(s: State, purge: Purge)
    requires Inv(s) && Top(s.stack) == Some(Stopping(Some(purge))) && Quiet(s.worker)
    ensures var u := EndStop(s, Some(purge));
            && Elsewhere(u.think, Lists(u.stack), Thinks(u.stack), u.stages) && Levels(u.ops, u.stages)
               && Histories(u.stages, u.did)
            && Shape(u.stack, u.think) && !TopPushed(u.stack) && Current(s.worker, u.stages)
  {
    var u, k := EndStop(s, Some(purge)), Popped(s.stack);
    var mine := Chosen(s, purge, s.think, true);
    assert u.stages == Relisted(s.stages, mine);
    RelistedThink(s, s.think, purge, s.stages, Lists(s.stack));
    RelistedKeeps(s, mine);
    StackPop(s.stack);
    StackPush(k, Stopping(Some(purge)));
    StackPush(k, Purging(purge, mine));
    ShapePop(s.stack, s.think, u.think);
    ShapePush(k, Purging(purge, mine), u.think);
    hide Levels, Holds, Lists, Thinks, Histories, Shape, Current, Chosen, Relisted, Popped, Top;
  }

  lemma EndStopKeeps(s: State, next: Option<Purge>)
    requires Inv(s) && Top(s.stack) == Some(Stopping(next)) && Quiet(s.worker)
    ensures Inv(EndStop(s, next))
  {
    hide Levels, Elsewhere, Lists, Thinks, Histories, Shape, Chosen, Popped, Top, Blocked, InOrder;
    var u := EndStop(s, next);
    TopIs(s.stack, s.think);
    StoppedMeans(s);
    if next.Some? {
      EndStopBlocked(s, next.value);
      EndStopPlaces(s, next.value);
      assert Current(NoWorker, u.stages) && Sizes(u);
    } else {
      var k := Popped(s.stack);
      StackPop(s.stack);
      StackPush(k, Stopping(next));
      ShapePop(s.stack, s.think, s.think);
      BlockedTop(s.owners, s.stages, s.disallowed, s.block, Top(s.stack), Top(k));
      assert Current(NoWorker, s.stages);
    }
    hide Current, TopPushed;
  }

  lemma PurgeNextPlaces(s: State, purge: Purge, list: seq<nat>)
    requires Inv(s) && Top(s.stack) == Some(Purging(purge, list)) && list != []
    ensures var op := list[0];
            && op < |s.stages| && s.stages[op] == Listed
            && var k := Popped(s.stack) + [Purging(purge, list[1..]), InThink(op)];
            && Elsewhere(s.think, Lists(k), Thinks(k), s.stages[op := Thinking])
            && Shape(k, s.think) && !TopPushed(k) && !TopPushed(s.stack) && Top(k) == Some(InThink(op))
  {
    hide Holds, Lists, Thinks, Shape, Popped, Top, Levels, InOrder, Histories, Blocked, Size, Current, TopPushed;
    TopIs(s.stack, s.think);
    var op, rest, k := list[0], list[1..], Popped(s.stack);
    StackPop(s.stack);
    StackPush(k, Purging(purge, list));
    StackPush(k, Purging(purge, rest));
    StackPush(k + [Purging(purge, rest)], InThink(op));
    assert k + [Purging(purge, rest)] + [InThink(op)] == k + [Purging(purge, rest), InThink(op)];
    assert Lists(k) + list == Lists(k) + [op] + rest;
    HoldsDrop(Lists(k), op, rest, s.stages, Listed, Thinking);
    HoldsKeep(s.think, op, s.stages, Waiting, Thinking);
    HoldsAdd(Thinks(s.stack), op, s.stages, Thinking);
    ShapePop(s.stack, s.think, s.think);
    ShapePush(k, Purging(purge, rest), s.think);
    ShapePush(k + [Purging(purge, rest)], InThink(op), s.think);
  }

  lemma PurgeNextKeeps(s: State, purge: Purge, list: seq<nat>)
    requires Inv(s) && Top(s.stack) == Some(Purging(purge, list)) && list != []
    ensures Inv(PurgeNext(s, purge, list))
  {
    PurgeNextPlaces(s, purge, list);
    var op := list[0];
    MatchesNext(s.stages, s.did, op);
    MoveKeeps(s, op, Thinking, [if purge.ByDriver? then Cancelled else Thought]);
    BlockedTop(s.owners, s.stages[op := Thinking], s.disallowed, s.block, Top(s.stack), Some(InThink(op)));
    hide Levels, InOrder, Holds, Elsewhere, Lists, Thinks, Histories, Shape, Blocked, Size, Current, Popped, Top,
         TopPushed;
  }

  lemma EndPurgeKeeps(s: State, purge: Purge)
    requires Inv(s) && Top(s.stack) == Some(Purging(purge, []))
    ensures Inv(EndPurge(s, purge))
  {
    var k := Popped(s.stack);
    StackPop(s.stack);
    StackPush(k, Purging(purge, []));
    assert Lists(k) + [] == Lists(k);
    ShapePop(s.stack, s.think, s.think);
    BlockedTop(s.owners, s.stages, s.disallowed, s.block, Top(s.stack), Top(k));
    var v := EndPurge(s, purge);
    assert Blocked(v.owners, v.stages, v.disallowed, v.block, Top(v.stack));
    assert !TopPushed(k) && !TopPushed(s.stack);
    hide Levels, InOrder, Holds, Lists, Thinks, Histories, Shape, Blocked, Size, Current, Popped, Top, TopPushed;
  }

  // ----- the worker

  lemma LevelTaken(ops: PrioQueue, stages: seq<Stage>, p: Prio)
    requires Levels(ops, stages) && InOrder(ops) && At(ops, p).queue != []
    ensures var op := At(ops, p).queue[0];
            var u := SetLevel(ops, p, FirstTaken(At(ops, p)));
            && op < |stages| && stages[op] == Queued(p)
            && Levels(u, stages[op := Taken]) && InOrder(u) && Size(u) == Size(ops) - 1
  {
    var l := At(ops, p);
    var op := l.queue[0];
    FirstLeaves(l, stages, Queued(p));
    hide Holds, Distinct, LevelInOrder;
    if p != High { HoldsKeep(ops.high.queue, op, stages, Queued(High), Taken); }
    if p != Normal { HoldsKeep(ops.normal.queue, op, stages, Queued(Normal), Taken); }
    if p != Low { HoldsKeep(ops.low.queue, op, stages, Queued(Low), Taken); }
  }

  lemma FirstLeaves(l: Level, stages: seq<Stage>, at: Stage)
    requires l.queue != [] && Holds(l.queue, stages, at) && LevelInOrder(l) && at != Taken
    ensures var op := l.queue[0];
            && op < |stages| && stages[op] == at
            && Holds(FirstTaken(l).queue, stages[op := Taken], at) && LevelInOrder(FirstTaken(l))
            && |FirstTaken(l).queue| == |l.queue| - 1
  {
    var op, rest := l.queue[0], l.queue[1..];
    assert l.queue == [] + [op] + rest && [] + rest == rest;
    HoldsDrop([], op, rest, stages, at, Taken);
    assert l.taken + [op] + rest == l.taken + l.queue;
    hide Holds;
  }

  lemma LikelyFinds(ops: PrioQueue)
    requires Size(ops) > 0
    ensures At(ops, Likely(ops)).queue != []
  {}

  /** A thread of the worker always finds an operation. */
  lemma TakeKeeps(s: State)
    requires Inv(s) && s.worker.Worker? && s.worker.threads > 0 && s.worker.current.None?
    ensures Inv(Take(s))
  {
    LikelyFinds(s.ops);
    var p := Likely(s.ops);
    LevelTaken(s.ops, s.stages, p);
    var op := At(s.ops, p).queue[0];
    HoldsKeep(s.think, op, s.stages, Waiting, Taken);
    HoldsKeep(Lists(s.stack), op, s.stages, Listed, Taken);
    HoldsKeep(Thinks(s.stack), op, s.stages, Thinking, Taken);
    MatchesNext(s.stages, s.did, op);
    HistoriesMove(s.stages, s.did, op, Taken, []);
    BlockedMove(s.owners, s.stages, s.disallowed, s.block, Top(s.stack), op, Taken);
    assert Current(s.worker.(current := Some(op)), s.stages[op := Taken]);
    hide Levels, InOrder, Holds, Lists, Thinks, Histories, Shape, Blocked, Size, Current, TopPushed, At, SetLevel,
         Likely, FirstTaken;
  }

  lemma WorkKeeps(s: State, op: nat)
    requires Inv(s) && s.worker.Worker? && s.worker.current == Some(op) && op < |s.stages| && s.stages[op] == Taken
    ensures Inv(Work(s, op))
  {
    LevelsKeep(s.ops, s.stages, op, Working);
    HoldsKeep(s.think, op, s.stages, Waiting, Working);
    HoldsKeep(Lists(s.stack), op, s.stages, Listed, Working);
    HoldsKeep(Thinks(s.stack), op, s.stages, Thinking, Working);
    MatchesNext(s.stages, s.did, op);
    HistoriesMove(s.stages, s.did, op, Working, [Ran]);
    BlockedMove(s.owners, s.stages, s.disallowed, s.block, Top(s.stack), op, Working);
    assert Current(s.worker, s.stages[op := Working]);
    hide Levels, InOrder, Holds, Lists, Thinks, Histories, Shape, Blocked, Size, Current, TopPushed;
  }

  lemma DeliverKeeps(s: State, op: nat)
    requires Inv(s) && s.worker.Worker? && s.worker.threads > 0 && s.worker.current == Some(op)
    requires op < |s.stages| && s.stages[op] == Working
    ensures Inv(Deliver(s, op))
  {
    LevelsKeep(s.ops, s.stages, op, Waiting);
    HoldsAdd(s.think, op, s.stages, Waiting);
    HoldsKeep(Lists(s.stack), op, s.stages, Listed, Waiting);
    HoldsKeep(Thinks(s.stack), op, s.stages, Thinking, Waiting);
    MatchesNext(s.stages, s.did, op);
    HistoriesMove(s.stages, s.did, op, Waiting, []);
    BlockedMove(s.owners, s.stages, s.disallowed, s.block, Top(s.stack), op, Waiting);
    assert Current(Worker(s.worker.threads - 1, None), s.stages[op := Waiting]);
    assert Shape(s.stack, s.think + [op]);
    hide Levels, InOrder, Holds, Lists, Thinks, Histories, Shape, Blocked, Size, Current, TopPushed;
  }

  // ----- all runs

  /** Every step of either thread keeps the invariant. */
  lemma StepKeeps(s: State, a: Action)
    requires Inv(s) && Enabled(s, a)
    ensures Inv(Step(s, a))
  {
    match a {
      case DoSubmit(owner, driver, prio, works) => SubmitKeeps(s, owner, driver, prio, works);
      case DoMakeThread => MakeThreadKeeps(s);
      case DoTestFrame => TestFrameKeeps(s);
      case DoPopFrame => PopFrameKeeps(s);
      case DoReturn => ReturnKeeps(s);
      case DoBeginStop(purge) => BeginStopKeeps(s, purge);
      case DoEndStop => EndStopKeeps(s, Top(s.stack).value.next);
      case DoPurgeNext => PurgeNextKeeps(s, Top(s.stack).value.purge, Top(s.stack).value.list);
      case DoEndPurge => EndPurgeKeeps(s, Top(s.stack).value.purge);
      case DoTake => TakeKeeps(s);
      case DoWork => WorkKeeps(s, s.worker.current.value);
      case DoDeliver => DeliverKeeps(s, s.worker.current.value);
    }
    hide Inv, Submit, MakeThread, TestFrame, PopFrame, Return, BeginStop, EndStop, PurgeNext, EndPurge, Take, Work,
         Deliver;
  }

  ghost predicate Reached(s: State, actions: seq<Action>)
    decreases |actions|
  {
    if actions == [] then s == START
    else
      var before, last := actions[..|actions| - 1], actions[|actions| - 1];
      exists u: State :: Reached(u, before) && Enabled(u, last) && s == Step(u, last)
  }

  /** Every state of every interleaving. */
  lemma {:induction false} EveryRunIsGood(s: State, actions: seq<Action>)
    requires Reached(s, actions)
    ensures Inv(s)
    decreases |actions|
  {
    if actions == [] {
      StartIsGood();
    } else {
      var before, last := actions[..|actions| - 1], actions[|actions| - 1];
      var u: State :| Reached(u, before) && Enabled(u, last) && s == Step(u, last);
      hide Inv, Step, Enabled;
      EveryRunIsGood(u, before);
      StepKeeps(u, last);
    }
  }

  // ----- what that means

  /** Run, then thought about or cancelled, then destroyed: never twice, never out of order. */
  lemma EachStepOnce(s: State, op: nat)
    requires Inv(s) && op < |s.stages|
    ensures s.did[op] <= [Ran, Thought, Destroyed] || s.did[op] <= [Ran, Cancelled, Destroyed]
    ensures s.did[op] != [] ==> s.did[op][0] == Ran
  {
    assert Matches(s.stages[op], s.did[op]);
  }

  /** When both threads are idle and the think queue is empty, every operation has been through all of it. */
  lemma AllAreDone(s: State, op: nat)
    requires Inv(s) && s.stack == [] && s.think == [] && Quiet(s.worker) && op < |s.stages|
    ensures s.did[op] == [Ran, Thought, Destroyed] || s.did[op] == [Ran, Cancelled, Destroyed]
  {
    StoppedMeans(s);
    var at := s.stages[op];
    assert at == Waiting ==> op in s.think;
    assert at == Listed ==> op in Lists(s.stack);
    assert at == Thinking ==> op in Thinks(s.stack);
    assert Matches(at, s.did[op]);
  }

  /** Of one priority, operations are run in the order in which they came. */
  lemma FirstInFirstOut(s: State, p: Prio)
    requires Inv(s)
    ensures At(s.ops, p).taken <= At(s.ops, p).pushed
  {}

  /** A plugin that has been unloaded has nothing queued, then or later; an identity has nothing while its
      purge has the block. What there is at the end of a purge is in module DbDrops. */
  lemma NothingOfTheirs(s: State, owner: nat, op: nat)
    requires Inv(s) && op < |s.stages| && s.owners[op] == owner
    requires owner in s.disallowed || (s.block == Some(owner) && Top(s.stack).Some? && Top(s.stack).value.Purging?)
    ensures !Active(s.stages[op])
  {
    assert Clean(s.owners, s.stages, owner);
  }

  lemma UnloadedForGood(s: State, a: Action)
    requires Enabled(s, a)
    ensures s.disallowed <= Step(s, a).disallowed
    ensures a.DoEndStop? && Top(s.stack).value.next.Some? && Top(s.stack).value.next.value.ByPlugin? ==>
              Top(s.stack).value.next.value.owner in Step(s, a).disallowed
  {
    hide Chosen, SetLevel, Put;
  }

  /** When the worker has been stopped for a driver, none of its operations is queued. */
  lemma NothingOfTheDriver(s: State, driver: nat, op: nat)
    requires Inv(s) && Top(s.stack) == Some(Stopping(Some(ByDriver(driver)))) && Quiet(s.worker)
    requires op < |s.stages| && s.drivers[op] == driver
    ensures !Active(EndStop(s, Some(ByDriver(driver))).stages[op])
  {
    var mine := Chosen(s, ByDriver(driver), s.think, true);
    if Active(Relisted(s.stages, mine)[op]) {
      assert !TopPushed(s.stack);
      PurgedIsClean(s, ByDriver(driver), op);
    }
    assert EndStop(s, Some(ByDriver(driver))).stages == Relisted(s.stages, mine);
  }

  /** Stopping waits for no more than the threads that are there: each of the worker's steps
      brings it nearer, and there is one to take. */
  function ToDo(s: State): nat {
    match s.worker
    case NoWorker => 0
    case Worker(threads, None) => 3 * threads
    case Worker(threads, Some(op)) =>
      if threads == 0 then 0 else if op < |s.stages| && s.stages[op] == Taken then 3 * threads - 1 else 3 * threads - 2
  }

  lemma StoppingEnds(s: State) returns (a: Action)
    requires Inv(s) && !Quiet(s.worker)
    ensures Enabled(s, a) && (a == DoTake || a == DoWork || a == DoDeliver) && ToDo(Step(s, a)) < ToDo(s)
  {
    if s.worker.current.None? {
      a := DoTake;
      LikelyFinds(s.ops);
      LevelTaken(s.ops, s.stages, Likely(s.ops));
    } else if s.stages[s.worker.current.value] == Taken {
      a := DoWork;
    } else {
      a := DoDeliver;
    }
    hide Levels, InOrder, Elsewhere, Blocked, Shape, Histories, SetLevel;
  }

  // ----- identity drops inside one another

  lemma OneMoreStep(s: State, actions: seq<Action>, a: Action)
    requires Reached(s, actions) && Enabled(s, a)
    ensures Reached(Step(s, a), actions + [a])
  {
    assert (actions + [a])[..|actions|] == actions;
    hide Step, Enabled;
  }

  // An operation of plugin 1 is queued, run and waiting (D1 to D5); the identity of plugin 1 is
  // dropped, and the operation's think part runs (D6 to D8); in it another identity is dropped
  // (D9 to D11), and the plugin queues again (D12 to D13), until its think part returns (D14).

  const ALL_TAKEN := PrioQueue(EMPTY, EMPTY, Level([], [0], [0]))
  const D1 := State(PrioQueue(EMPTY, EMPTY, Level([0], [0], [])), [], Worker(0, None), [Pushed(0)], None, {}, [1], [0],
                    [Queued(Low)], [[]], false)
  const D2 := D1.(worker := Worker(1, None), stack := [])
  const D3 := D2.(ops := ALL_TAKEN, worker := Worker(1, Some(0)), stages := [Taken])
  const D4 := D3.(stages := [Working], did := [[Ran]])
  const D5 := D4.(stages := [Waiting], think := [0], worker := Worker(0, None))
  const D6 := D5.(stack := [Stopping(Some(ByIdentity(1)))], block := Some(1))
  const D7 := D6.(worker := NoWorker, think := [], stages := [Listed], stack := [Purging(ByIdentity(1), [0])])
  const D8 := D7.(stages := [Thinking], did := [[Ran, Thought]], stack := [Purging(ByIdentity(1), []), InThink(0)])
  const D9 := D8.(stack := [Purging(ByIdentity(1), []), InThink(0), Stopping(Some(ByIdentity(2)))], block := Some(2))
  const D10 := D9.(stack := [Purging(ByIdentity(1), []), InThink(0), Purging(ByIdentity(2), [])])
  const D11 := D8.(block := None)
  const D12 := State(PrioQueue(EMPTY, EMPTY, Level([1], [0, 1], [0])), [], Worker(0, None),
                     [Purging(ByIdentity(1), []), InThink(0), Pushed(1)], None, {}, [1, 1], [0, 0],
                     [Thinking, Queued(Low)], [[Ran, Thought], []], false)
  const D13 := D12.(worker := Worker(1, None), stack := [Purging(ByIdentity(1), []), InThink(0)])
  const D14 := D13.(stack := [Purging(ByIdentity(1), [])], stages := [Gone, Queued(Low)],
                    did := [[Ran, Thought, Destroyed], []])

  ghost predicate Leads(s: State, a: Action, u: State) { Enabled(s, a) && Step(s, a) == u }

  lemma Leads1()
    ensures Leads(START, DoSubmit(1, 0, Low, true), D1)
  {}

  lemma Leads2()
    ensures Leads(D1, DoMakeThread, D2)
  {}

  lemma Leads3()
    ensures Leads(D2, DoTake, D3)
  {
    var nothing: seq<Event> := [];
    assert nothing + nothing == nothing;
  }

  lemma Leads4()
    ensures Leads(D3, DoWork, D4)
  {
    assert [] + [Ran] == [Ran];
  }

  lemma Leads5()
    ensures Leads(D4, DoDeliver, D5)
  {
    assert [Ran] + [] == [Ran];
  }

  lemma Leads6()
    ensures Leads(D5, DoBeginStop(Some(ByIdentity(1))), D6)
  {}

  lemma Leads7()
    ensures Leads(D6, DoEndStop, D7)
  {
    assert Chosen(D6, ByIdentity(1), [0], true) == [0] && Chosen(D6, ByIdentity(1), [0], false) == [];
  }

  lemma Leads8()
    ensures Leads(D7, DoPurgeNext, D8)
  {
    assert [Ran] + [Thought] == [Ran, Thought] && Popped(D7.stack) == [];
    assert D7.stack[0].list[1..] == [];
    assert [] + [Purging(ByIdentity(1), []), InThink(0)] == D8.stack;
  }

  lemma Leads9()
    ensures Leads(D8, DoBeginStop(Some(ByIdentity(2))), D9)
  {}

  lemma Leads10()
    ensures Leads(D9, DoEndStop, D10)
  {
    assert Popped(D9.stack) == [Purging(ByIdentity(1), []), InThink(0)];
  }

  lemma Leads11()
    ensures Leads(D10, DoEndPurge, D11)
  {
    assert Popped(D10.stack) == [Purging(ByIdentity(1), []), InThink(0)];
  }

  lemma Leads12()
    ensures Leads(D11, DoSubmit(1, 0, Low, true), D12)
  {
    assert D11.ops.low.pushed + [1] == [0, 1];
  }

  lemma Leads13()
    ensures Leads(D12, DoMakeThread, D13)
  {}

  lemma Leads14()
    ensures Leads(D13, DoReturn, D14)
  {
    assert [Ran, Thought] + [Destroyed] == [Ran, Thought, Destroyed];
  }

  lemma Then(s: State, actions: seq<Action>, a: Action, u: State)
    requires Reached(s, actions) && Leads(s, a, u)
    ensures Reached(u, actions + [a])
  {
    OneMoreStep(s, actions, a);
  }

  /** A drop inside another lifts the other's block: operations of the first plugin may then be
      queued while it is purged, and be there when its purge ends. */
  lemma NestedDropLiftsBlock() returns (s: State, actions: seq<Action>)
    ensures Reached(s, actions) && Top(s.stack) == Some(Purging(ByIdentity(1), [])) && !Clean(s.owners, s.stages, 1)
  {
    Leads1(); Leads2(); Leads3(); Leads4(); Leads5(); Leads6(); Leads7(); Leads8(); Leads9(); Leads10(); Leads11();
    Leads12(); Leads13(); Leads14();
    assert Reached(START, []);
    assert D14.owners[1] == 1 && Active(D14.stages[1]);
    assert Top(D14.stack) == Some(Purging(ByIdentity(1), [])) && !Clean(D14.owners, D14.stages, 1);
    hide *;
    var a1 := [DoSubmit(1, 0, Low, true)];
    Then(START, [], DoSubmit(1, 0, Low, true), D1);
    assert [] + a1 == a1;
    Then(D1, a1, DoMakeThread, D2);
    var a2 := a1 + [DoMakeThread];
    Then(D2, a2, DoTake, D3);
    var a3 := a2 + [DoTake];
    Then(D3, a3, DoWork, D4);
    var a4 := a3 + [DoWork];
    Then(D4, a4, DoDeliver, D5);
    var a5 := a4 + [DoDeliver];
    Then(D5, a5, DoBeginStop(Some(ByIdentity(1))), D6);
    var a6 := a5 + [DoBeginStop(Some(ByIdentity(1)))];
    Then(D6, a6, DoEndStop, D7);
    var a7 := a6 + [DoEndStop];
    Then(D7, a7, DoPurgeNext, D8);
    var a8 := a7 + [DoPurgeNext];
    Then(D8, a8, DoBeginStop(Some(ByIdentity(2))), D9);
    var a9 := a8 + [DoBeginStop(Some(ByIdentity(2)))];
    Then(D9, a9, DoEndStop, D10);
    var a10 := a9 + [DoEndStop];
    Then(D10, a10, DoEndPurge, D11);
    var a11 := a10 + [DoEndPurge];
    Then(D11, a11, DoSubmit(1, 0, Low, true), D12);
    var a12 := a11 + [DoSubmit(1, 0, Low, true)];
    Then(D12, a12, DoMakeThread, D13);
    var a13 := a12 + [DoMakeThread];
    Then(D13, a13, DoReturn, D14);
    s, actions := D14, a13 + [DoReturn];
  }
}
