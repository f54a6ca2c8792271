/**
 Threaded database operations: the game's thread and one worker, two locked queues, and what
 happens to an operation when its plugin or its driver goes away.

 A state of the machine lies between two atomic sections. The game's thread is a stack of the
 calls it is in: the think part of an operation is code of a plugin, which may call back.
 Operations are numbered as they are made.
 */
module DbThreads {
  import opened Common

  datatype Prio = High | Normal | Low

  datatype Event = Ran | Thought | Cancelled | Destroyed

  /** Where an operation is. */
  datatype Stage = Queued(prio: Prio) | Taken | Working | Waiting | Listed | Thinking | Gone

  datatype Purge = ByPlugin(owner: nat) | ByIdentity(owner: nat) | ByDriver(driver: nat)

  /** A call the game's thread is in. */
  datatype Frame =
    | Checked                               // RunFrame, past its test for an empty queue
    | InThink(op: nat)                      // the think (or cancel) part runs; the operation is destroyed next
    | Pushed(op: nat)                       // AddToThreadQueue, past the push
    | Stopping(next: Option<Purge>)         // KillWorkerThread, waiting for the worker
    | Purging(purge: Purge, list: seq<nat>) // the operations still on the list

  /** The worker: threads made and not finished, and the operation of the one that runs. */
  datatype Worker = NoWorker | Worker(threads: nat, current: Option<nat>)

  /** A queue of one priority, all that was ever put in it, and all that was taken out. */
  datatype Level = Level(queue: seq<nat>, pushed: seq<nat>, taken: seq<nat>)

  datatype PrioQueue = PrioQueue(high: Level, normal: Level, low: Level)

  /** `fault` is set where the program finds a queue empty that should not be. */
  datatype State = State(ops: PrioQueue, think: seq<nat>, worker: Worker, stack: seq<Frame>,
                         block: Option<nat>, disallowed: set<nat>, owners: seq<nat>, drivers: seq<nat>,
                         stages: seq<Stage>, did: seq<seq<Event>>, fault: bool)

  const EMPTY := Level([], [], [])
  const START := State(PrioQueue(EMPTY, EMPTY, EMPTY), [], NoWorker, [], None, {}, [], [], [], [], false)

  // ----- the game's thread

  function Top(stack: seq<Frame>): Option<Frame> {
    if stack == [] then None else Some(stack[|stack| - 1])
  }

  function Popped(stack: seq<Frame>): seq<Frame> {
    if stack == [] then [] else stack[..|stack| - 1]
  }

  /** The game's thread can begin something: it is idle, or in a plugin's code. */
  predicate Ready(s: State) {
    match Top(s.stack)
    case None => true
    case Some(f) => f.InThink?
  }

  /** The queue of a level. */
  function At(q: PrioQueue, p: Prio): Level {
    match p case High => q.high case Normal => q.normal case Low => q.low
  }

  function SetLevel(q: PrioQueue, p: Prio, l: Level): PrioQueue {
    match p case High => q.(high := l) case Normal => q.(normal := l) case Low => q.(low := l)
  }

  /** The operation moves on, and something may have been done to it. */
  function Move(s: State, op: nat, to: Stage, events: seq<Event>): State
    requires op < |s.stages| == |s.did|
  {
    s.(stages := s.stages[op := to], did := s.did[op := s.did[op] + events])
  }

  function Made(s: State, owner: nat, driver: nat, stage: Stage, events: seq<Event>): State {
    s.(owners := s.owners + [owner], drivers := s.drivers + [driver], stages := s.stages + [stage],
       did := s.did + [events])
  }

  function Put(l: Level, op: nat): Level { l.(queue := l.queue + [op], pushed := l.pushed + [op]) }

  function FirstTaken(l: Level): Level
    requires l.queue != []
  {
    l.(queue := l.queue[1..], taken := l.taken + [l.queue[0]])
  }

  /** A new operation. It is run at once where the queue refuses it. `works`: a worker can be made. */
  function Submit(s: State, owner: nat, driver: nat, prio: Prio, works: bool): State {
    var op := |s.stages|;
    if owner in s.disallowed || s.block == Some(owner) || (s.worker.NoWorker? && !works) then
      Made(s, owner, driver, Thinking, [Ran, Thought]).(stack := s.stack + [InThink(op)])
    else
      Made(s, owner, driver, Queued(prio), []).(
        ops := SetLevel(s.ops, prio, Put(At(s.ops, prio), op)),
        worker := if s.worker.NoWorker? then Worker(0, None) else s.worker, stack := s.stack + [Pushed(op)])
  }

  function MakeThread(s: State): State {
    if s.worker.NoWorker? then s.(fault := true)
    else s.(worker := s.worker.(threads := s.worker.threads + 1), stack := Popped(s.stack))
  }

  function TestFrame(s: State): State {
    if s.think == [] then s else s.(stack := s.stack + [Checked])
  }

  function PopFrame(s: State): State {
    if s.think == [] || s.think[0] >= |s.stages| || |s.did| != |s.stages| then s.(fault := true)
    else
      var op := s.think[0];
      Move(s.(think := s.think[1..], stack := Popped(s.stack) + [InThink(op)]), op, Thinking, [Thought])
  }

  /** The plugin's code returns, and the operation is destroyed. */
  function Return(s: State, op: nat): State {
    if op >= |s.stages| || |s.did| != |s.stages| then s.(fault := true)
    else Move(s.(stack := Popped(s.stack)), op, Gone, [Destroyed])
  }

  /** A purge begins by stopping the worker; that of an identity blocks its operations first. */
  function BeginStop(s: State, purge: Option<Purge>): State {
    var u := s.(stack := s.stack + [Stopping(purge)]);
    match purge
    case Some(ByIdentity(owner)) => u.(block := Some(owner))
    case _ => u
  }

  predicate Concerns(s: State, purge: Purge, op: nat) {
    op < |s.owners| == |s.drivers| &&
    match purge
    case ByPlugin(owner) => s.owners[op] == owner
    case ByIdentity(owner) => s.owners[op] == owner
    case ByDriver(driver) => s.drivers[op] == driver
  }

  /** Those of a queue the purge concerns, or does not concern, in order. */
  function Chosen(s: State, purge: Purge, queue: seq<nat>, mine: bool): seq<nat> {
    if queue == [] then []
    else
      Chosen(s, purge, queue[..|queue| - 1], mine)
        + (if Concerns(s, purge, queue[|queue| - 1]) == mine then [queue[|queue| - 1]] else [])
  }

  /** The worker has finished. It stops only when no thread is left to run. */
  function EndStop(s: State, purge: Option<Purge>): State {
    var u := s.(worker := NoWorker, stack := Popped(s.stack));
    match purge
    case None => u
    case Some(p) =>
      var mine := Chosen(s, p, s.think, true);
      u.(disallowed := if p.ByPlugin? then s.disallowed + {p.owner} else s.disallowed,
         think := Chosen(s, p, s.think, false),
         stages := seq(|s.stages|, i requires 0 <= i < |s.stages| => if i in mine then Listed else s.stages[i]),
         stack := Popped(s.stack) + [Purging(p, mine)])
  }

  function PurgeNext(s: State, purge: Purge, list: seq<nat>): State
    requires list != []
  {
    var op := list[0];
    if op >= |s.stages| || |s.did| != |s.stages| then s.(fault := true)
    else
      Move(s.(stack := Popped(s.stack) + [Purging(purge, list[1..]), InThink(op)]), op, Thinking,
           [if purge.ByDriver? then Cancelled else Thought])
  }

  function EndPurge(s: State, purge: Purge): State {
    s.(stack := Popped(s.stack), block := if purge.ByIdentity? then None else s.block)
  }

  // ----- the worker

  /** The queue an operation is taken from: the first that is not empty, by priority. */
  function Likely(q: PrioQueue): Prio {
    if q.high.queue != [] then High else if q.normal.queue != [] then Normal else Low
  }

  function Take(s: State): State
    requires s.worker.Worker?
  {
    var l := At(s.ops, Likely(s.ops));
    if l.queue == [] || l.queue[0] >= |s.stages| || |s.did| != |s.stages| then
      s.(worker := s.worker.(threads := if s.worker.threads > 0 then s.worker.threads - 1 else 0), fault := true)
    else
      Move(s, l.queue[0], Taken, []).(ops := SetLevel(s.ops, Likely(s.ops), FirstTaken(l)),
                                      worker := s.worker.(current := Some(l.queue[0])))
  }

  function Work(s: State, op: nat): State {
    if op >= |s.stages| || |s.did| != |s.stages| then s.(fault := true) else Move(s, op, Working, [Ran])
  }

  function Deliver(s: State, op: nat): State
    requires s.worker.Worker? && s.worker.threads > 0
  {
    if op >= |s.stages| || |s.did| != |s.stages| then s.(fault := true)
    else Move(s.(think := s.think + [op], worker := Worker(s.worker.threads - 1, None)), op, Waiting, [])
  }

  // ----- steps

  datatype Action =
    | DoSubmit(owner: nat, driver: nat, prio: Prio, works: bool)
    | DoMakeThread
    | DoTestFrame
    | DoPopFrame
    | DoReturn
    | DoBeginStop(purge: Option<Purge>)
    | DoEndStop
    | DoPurgeNext
    | DoEndPurge
    | DoTake
    | DoWork
    | DoDeliver

  predicate Quiet(w: Worker) { w.NoWorker? || w.threads == 0 }

  predicate Enabled(s: State, a: Action) {
    match a
    case DoSubmit(_, _, _, _) => Ready(s)
    case DoMakeThread => Top(s.stack).Some? && Top(s.stack).value.Pushed?
    case DoTestFrame => s.stack == []
    case DoPopFrame => Top(s.stack) == Some(Checked)
    case DoReturn => Top(s.stack).Some? && Top(s.stack).value.InThink?
    case DoBeginStop(_) => Ready(s)
    case DoEndStop => Top(s.stack).Some? && Top(s.stack).value.Stopping? && Quiet(s.worker)
    case DoPurgeNext => Top(s.stack).Some? && Top(s.stack).value.Purging? && Top(s.stack).value.list != []
    case DoEndPurge => Top(s.stack).Some? && Top(s.stack).value.Purging? && Top(s.stack).value.list == []
    case DoTake => s.worker.Worker? && s.worker.threads > 0 && s.worker.current.None?
    case DoWork =>
      s.worker.Worker? && s.worker.current.Some? && s.worker.current.value < |s.stages|
        && s.stages[s.worker.current.value] == Taken
    case DoDeliver =>
      s.worker.Worker? && s.worker.threads > 0 && s.worker.current.Some? && s.worker.current.value < |s.stages|
      && s.stages[s.worker.current.value] == Working
  }

  function Step(s: State, a: Action): State
    requires Enabled(s, a)
  {
    match a
    case DoSubmit(owner, driver, prio, works) => Submit(s, owner, driver, prio, works)
    case DoMakeThread => MakeThread(s)
    case DoTestFrame => TestFrame(s)
    case DoPopFrame => PopFrame(s)
    case DoReturn => Return(s, Top(s.stack).value.op)
    case DoBeginStop(purge) => BeginStop(s, purge)
    case DoEndStop => EndStop(s, Top(s.stack).value.next)
    case DoPurgeNext => PurgeNext(s, Top(s.stack).value.purge, Top(s.stack).value.list)
    case DoEndPurge => EndPurge(s, Top(s.stack).value.purge)
    case DoTake => Take(s)
    case DoWork => Work(s, s.worker.current.value)
    case DoDeliver => Deliver(s, s.worker.current.value)
  }
}
