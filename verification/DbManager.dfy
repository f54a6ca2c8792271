/**
 The database manager: its queues, and the sections of its code that the two threads run one at
 a time, each under the lock of the queue it uses.
 */
module DbManager {
  import opened Common
  import opened Queues
  import opened DbThreads
  import opened DbInvariants

  /** The fields of the manager are those of the state. */
  ghost predicate Mirrors(s: State, high: seq<nat>, normal: seq<nat>, low: seq<nat>, think: seq<nat>,
                          worker: Option<nat>,
                          addBlock: Option<nat>, disallowed: set<nat>)
  {
    && s.ops.high.queue == high && s.ops.normal.queue == normal && s.ops.low.queue == low && s.think == think
    && (worker.None? <==> s.worker.NoWorker?) && (worker.Some? ==> worker.value == s.worker.threads)
    && addBlock == s.block && disallowed == s.disallowed
  }

  class DBManager {
    var high: seq<nat>
    var normal: seq<nat>
    var low: seq<nat>
    const thinkQueue: Queue<nat>
    /** The threads made for the worker, if there is one. */
    var worker: Option<nat>
    var addBlock: Option<nat>
    /** Plugins that are being unloaded, and whose operations are not queued any more. */
    var disallowed: set<nat>
    ghost var s: State

    ghost predicate Valid()
      reads this, thinkQueue, thinkQueue.Nodes()
    {
      && this !in thinkQueue.Nodes()
      && thinkQueue.Valid() && Inv(s)
      && Mirrors(s, high, normal, low, thinkQueue.Contents(), worker, addBlock, disallowed)
    }

    constructor ()
      ensures Valid() && fresh(thinkQueue) && fresh(thinkQueue.Nodes()) && s == START
    {
      high, normal, low := [], [], [];
      thinkQueue := new Queue<nat>();
      worker, addBlock, disallowed := None, None, {};
      s := START;
      new;
      StartIsGood();
      hide Inv;
    }

    /** `AddToThreadQueue`, up to the push. A refused operation is run at once by the caller. */
    method AddToThreadQueue(op: nat, owner: nat, driver: nat, prio: Prio, works: bool) returns (ok: bool)
      requires Valid() && Ready(s) && op == |s.stages|
      modifies this
      ensures Valid() && s == Submit(old(s), owner, driver, prio, works)
      ensures ok == (Top(s.stack).Some? && Top(s.stack).value.Pushed?)
    {
      hide Inv, Submit, Ready, Top, Mirrors, Enabled, Step;
      ghost var before, think := s, thinkQueue.Contents();
      SubmitKeeps(s, owner, driver, prio, works);
      SubmitMirrors(s, high, normal, low, think, worker, addBlock, disallowed, owner, driver, prio, works);
      ok := Accept(owner, works);
      if ok { Enqueue(prio, op); }
      s := Submit(s, owner, driver, prio, works);
    }

    method Enqueue(prio: Prio, op: nat)
      modifies this`high, this`normal, this`low
      ensures high == if prio == High then old(high) + [op] else old(high)
      ensures normal == if prio == Normal then old(normal) + [op] else old(normal)
      ensures low == if prio == Low then old(low) + [op] else old(low)
    {
      if prio == High {
        high := high + [op];
      } else if prio == Normal {
        normal := normal + [op];
      } else {
        low := low + [op];
      }
    }

    /** Is the operation taken? A worker is made for it, if there is none. */
    method Accept(owner: nat, works: bool) returns (ok: bool)
      modifies this`worker
      ensures ok == !(owner in disallowed || addBlock == Some(owner) || (old(worker).None? && !works))
      ensures worker == if ok && old(worker).None? then Some(0) else old(worker)
    {
      if owner in disallowed || addBlock == Some(owner) { return false; }
      if worker.None? {
        if !works { return false; }
        worker := Some(0);
      }
      ok := true;
    }

    /** `AddToThreadQueue`, behind the push. */
    method MakeWorkerThread()
      requires Valid() && Enabled(s, DoMakeThread)
      modifies this
      ensures Valid() && s == MakeThread(old(s))
    {
      hide Inv;
      MakeThreadKeeps(s);
      WorkerIsThere(s);
      s := MakeThread(s);
      worker := Some(worker.value + 1);
    }

    /** `RunFrame`, its test without the lock. */
    method FrameTest() returns (go: bool)
      requires Valid() && s.stack == []
      modifies this
      ensures Valid() && s == TestFrame(old(s)) && go == (old(s).think != [])
    {
      hide Inv;
      TestFrameKeeps(s);
      s := TestFrame(s);
      var e := thinkQueue.Empty();
      go := !e;
    }

    /** `RunFrame`, under the lock: the operation whose think part is to be run. */
    method FramePop() returns (op: nat)
      requires Valid() && Top(s.stack) == Some(Checked)
      modifies this, thinkQueue, thinkQueue.Nodes()
      ensures Valid() && s == PopFrame(old(s)) && Top(s.stack) == Some(InThink(op))
    {
      hide Inv, TopPushed, TopChecked, Lists, Thinks, Popped, Shape, Elsewhere;
      PopFrameKeeps(s);
      SameSizes(s);
      PopFramePlaces(s);
      ghost var before := s;
      StackPush(Popped(s.stack), InThink(s.think[0]));
      op := thinkQueue.First();
      thinkQueue.Pop();
      s := PopFrame(before);
    }

    /** `RunThread`, under the first lock. */
    method TakeOp() returns (op: nat)
      requires Valid() && Enabled(s, DoTake)
      modifies this
      ensures Valid() && s == Take(old(s)) && s.worker.current == Some(op)
    {
      hide Inv, Levels, InOrder;
      TakeKeeps(s);
      SomethingToTake(s);
      s := Take(s);
      if high != [] {
        op, high := high[0], high[1..];
      } else if normal != [] {
        op, normal := normal[0], normal[1..];
      } else {
        op, low := low[0], low[1..];
      }
    }

    /** `RunThread`, under the second lock. */
    method DeliverOp(op: nat)
      requires Valid() && Enabled(s, DoDeliver) && s.worker.current == Some(op)
      modifies this, thinkQueue, thinkQueue.Nodes()
      ensures Valid() && s == Deliver(old(s), op)
    {
      hide Inv;
      DeliverKeeps(s, op);
      SameSizes(s);
      ghost var before := s;
      thinkQueue.Push(op);
      worker := Some(worker.value - 1);
      s := Deliver(before, op);
    }

    /** A purge begins. */
    method BeginKill(next: Option<Purge>)
      requires Valid() && Ready(s)
      modifies this
      ensures Valid() && s == BeginStop(old(s), next)
    {
      hide Inv, BeginStop, Ready;
      BeginStopKeeps(s, next);
      BeginStopMeans(s, next);
      if next.Some? && next.value.ByIdentity? { addBlock := Some(next.value.owner); }
      s := BeginStop(s, next);
    }

    /** The worker has been joined, and the think queue is gone through: what the purge concerns
        is taken out of it and put on a list, in order. */
    method TakeOut(purge: Purge, owners: seq<nat>, drivers: seq<nat>) returns (list: seq<nat>)
      requires Valid() && Top(s.stack) == Some(Stopping(Some(purge))) && Quiet(s.worker)
      requires owners == s.owners && drivers == s.drivers
      modifies this, thinkQueue, thinkQueue.Nodes()
      ensures Valid() && s == EndStop(old(s), Some(purge)) && list == Chosen(old(s), purge, old(s).think, true)
    {
      hide Inv, Popped, Relisted;
      EndStopKeeps(s, Some(purge));
      SameSizes(s);
      ghost var before := s;
      list := Sweep(thinkQueue, purge, owners, drivers, before);
      worker := None;
      if purge.ByPlugin? { disallowed := disallowed + {purge.owner}; }
      s := EndStop(before, Some(purge));
    }

  }

  /** Does the purge concern an operation of this owner and driver? */
  predicate Hits(purge: Purge, owner: nat, driver: nat) {
    match purge
    case ByPlugin(o) => owner == o
    case ByIdentity(o) => owner == o
    case ByDriver(d) => driver == d
  }

  /** Where the sweep stands: `i` operations have been looked at, `k` of them left in the queue. */
  ghost predicate Swept(s: State, purge: Purge, all: seq<nat>, i: nat, now: seq<nat>, k: nat, list: seq<nat>) {
    && i <= |all| && now == Chosen(s, purge, all[..i], false) + all[i..]
    && k == |Chosen(s, purge, all[..i], false)| && list == Chosen(s, purge, all[..i], true)
  }

  lemma SweptStarts(s: State, purge: Purge, all: seq<nat>)
    ensures Swept(s, purge, all, 0, all, 0, [])
  {
    assert all[..0] == [] && all[0..] == all;
  }

  lemma SweptNext(s: State, purge: Purge, all: seq<nat>, i: nat, now: seq<nat>, k: nat, list: seq<nat>)
    requires Swept(s, purge, all, i, now, k, list) && k < |now|
    ensures i < |all| && now[k] == all[i]
    ensures Concerns(s, purge, all[i]) ==> Swept(s, purge, all, i + 1, Without(now, k), k, list + [all[i]])
    ensures !Concerns(s, purge, all[i]) ==> Swept(s, purge, all, i + 1, now, k + 1, list)
  {
    assert all[..i + 1][..i] == all[..i] && all[i..] == [all[i]] + all[i + 1..];
  }

  lemma SweptEnds(s: State, purge: Purge, all: seq<nat>, i: nat, now: seq<nat>, k: nat, list: seq<nat>)
    requires Swept(s, purge, all, i, now, k, list) && k >= |now|
    ensures now == Chosen(s, purge, all, false) && list == Chosen(s, purge, all, true)
  {
    assert all[..i] == all;
  }

  /** The loop of the purges: erases from the queue while going through it. */
  method Sweep(queue: Queue<nat>, purge: Purge, owners: seq<nat>, drivers: seq<nat>, ghost s: State)
    returns (list: seq<nat>)
    requires queue.Valid() && |owners| == |drivers| && owners == s.owners && drivers == s.drivers
    modifies queue, queue.Nodes()
    ensures queue.Valid() && queue.Nodes() == old(queue.Nodes())
    ensures queue.Contents() == Chosen(s, purge, old(queue.Contents()), false)
    ensures list == Chosen(s, purge, old(queue.Contents()), true)
  {
    hide Swept, Chosen, Concerns, Hits;
    list := [];
    ghost var all := queue.Contents();
    ghost var i, k := 0, 0;
    var iter := queue.Begin();
    SweptStarts(s, purge, all);
    while iter != queue.head
      invariant queue.Valid() && queue.Nodes() == old(queue.Nodes()) && queue.Stands(iter, k)
      invariant i <= |all| && Swept(s, purge, all, i, queue.Contents(), k, list)
      decreases |all| - i
    {
      iter, list, k := SweepOne(queue, iter, purge, owners, drivers, list, s, all, i, k);
      i := i + 1;
    }
    SweptEnds(s, purge, all, i, queue.Contents(), k, list);
  }

  /** One operation, which is taken out of the queue if the purge is for it. */
  method SweepOne(queue: Queue<nat>, iter: QueueNode<nat>, purge: Purge, owners: seq<nat>, drivers: seq<nat>,
                  list: seq<nat>,
                  ghost s: State, ghost all: seq<nat>, ghost i: nat, ghost k: nat)
    returns (after: QueueNode<nat>, more: seq<nat>, ghost next: nat)
    requires queue.Valid() && |owners| == |drivers| && owners == s.owners && drivers == s.drivers
    requires queue.Stands(iter, k) && iter != queue.head && Swept(s, purge, all, i, queue.Contents(), k, list)
    modifies queue, queue.Nodes()
    ensures queue.Valid() && queue.Nodes() == old(queue.Nodes()) && queue.Stands(after, next)
    ensures i < |all| && Swept(s, purge, all, i + 1, queue.Contents(), next, more)
  {
    hide Swept, Chosen, Concerns, Hits;
    var op;
    op, after := queue.Get(iter, k);
    SweptNext(s, purge, all, i, queue.Contents(), k, list);
    ConcernsIs(s, purge, op);
    if op < |owners| && Hits(purge, owners[op], drivers[op]) {
      more, next := list + [op], k;
      after := queue.Erase(iter, k);
    } else {
      more, next := list, k + 1;
    }
  }

  lemma ConcernsIs(s: State, purge: Purge, op: nat)
    requires |s.owners| == |s.drivers|
    ensures Concerns(s, purge, op) <==> op < |s.owners| && Hits(purge, s.owners[op], s.drivers[op])
  {}

  lemma BeginStopMeans(s: State, next: Option<Purge>)
    ensures BeginStop(s, next) ==
            s.(stack := s.stack + [Stopping(next)],
               block := if next.Some? && next.value.ByIdentity? then Some(next.value.owner) else s.block)
  {}

  lemma SubmitMirrors(s: State, high: seq<nat>, normal: seq<nat>, low: seq<nat>, think: seq<nat>, worker: Option<nat>,
                      addBlock: Option<nat>, disallowed: set<nat>, owner: nat, driver: nat, prio: Prio, works: bool)
    requires Mirrors(s, high, normal, low, think, worker, addBlock, disallowed)
    ensures var op, u := |s.stages|, Submit(s, owner, driver, prio, works);
            if owner in disallowed || addBlock == Some(owner) || (worker.None? && !works) then
              Mirrors(u, high, normal, low, think, worker, addBlock, disallowed) && Top(u.stack) == Some(InThink(op))
            else
              && Mirrors(u, if prio == High then high + [op] else high,
                         if prio == Normal then normal + [op] else normal,
                         if prio == Low then low + [op] else low, think, if worker.None? then Some(0)
                            else worker, addBlock, disallowed)
              && Top(u.stack) == Some(Pushed(op))
  {
    StackPush(s.stack, Pushed(|s.stages|));
    StackPush(s.stack, InThink(|s.stages|));
  }

  lemma WorkerIsThere(s: State)
    requires Inv(s) && Top(s.stack).Some? && Top(s.stack).value.Pushed?
    ensures s.worker.Worker?
  {}

  lemma SomethingToTake(s: State)
    requires Inv(s) && s.worker.Worker? && s.worker.threads > 0 && s.worker.current.None?
    ensures At(s.ops, Likely(s.ops)).queue != [] && At(s.ops, Likely(s.ops)).queue[0] < |s.stages|
            && |s.did| == |s.stages|
  {
    LikelyFinds(s.ops);
    LevelTaken(s.ops, s.stages, Likely(s.ops));
  }

  lemma SameSizes(s: State)
    requires Inv(s)
    ensures |s.owners| == |s.stages| && |s.drivers| == |s.stages| && |s.did| == |s.stages|
  {}
}
