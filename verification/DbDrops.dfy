/**
 Dropping an identity: when its purge leaves nothing of it queued.

 While a purge goes on, plugins' code may begin other drops inside it; one of an identity takes the
 block away from the other. Here: what is queued for an owner when the purge of its identity ends is
 exactly what was accepted after such a drop and not swept up by a later one.
 */
module DbDrops {
  import opened Common
  import opened DbThreads
  import opened DbInvariants

  // ----- runs

  predicate Runs(s: State, actions: seq<Action>)
    decreases |actions|
  {
    actions == [] || (Enabled(s, actions[0]) && Runs(Step(s, actions[0]), actions[1..]))
  }

  function Outcome(s: State, actions: seq<Action>): State
    requires Runs(s, actions)
    decreases |actions|
  {
    if actions == [] then s else Outcome(Step(s, actions[0]), actions[1..])
  }

  /** The call at depth `d` of the game's thread is not left during the run. */
  predicate Held(s: State, actions: seq<Action>, d: nat)
    requires Runs(s, actions)
    decreases |actions|
  {
    d < |s.stack| && (actions == [] || Held(Step(s, actions[0]), actions[1..], d))
  }

  /** The start of an identity's drop. */
  predicate Drops(a: Action) {
    a.DoBeginStop? && a.purge.Some? && a.purge.value.ByIdentity?
  }

  // ----- what becomes of an operation

  /** The operation this step makes goes into a queue. */
  predicate Accepts(s: State, a: Action, owner: nat) {
    && a.DoSubmit? && a.owner == owner
    && owner !in s.disallowed && s.block != Some(owner) && (s.worker.Worker? || a.works)
  }

  /** This step puts the operation on the list of a purge. */
  predicate Sweeps(s: State, a: Action, op: nat) {
    && a.DoEndStop?
    && match Top(s.stack)
       case Some(Stopping(Some(purge))) => Concerns(s, purge, op)
       case _ => false
  }

  /** No step of the run does. */
  predicate Stays(s: State, actions: seq<Action>, op: nat)
    requires Runs(s, actions)
    decreases |actions|
  {
    actions == [] || (!Sweeps(s, actions[0], op) && Stays(Step(s, actions[0]), actions[1..], op))
  }

  /** An operation of the owner is accepted in the run, and not swept up later in it. */
  predicate Leaves(s: State, actions: seq<Action>, owner: nat)
    requires Runs(s, actions)
    decreases |actions|
  {
    actions != []
    && var next := Step(s, actions[0]);
       (Accepts(s, actions[0], owner) && Stays(next, actions[1..], |s.stages|)) || Leaves(next, actions[1..], owner)
  }

  /** A call that belongs to the drop of the owner's identity. */
  predicate OfDrop(f: Frame, owner: nat) {
    f == Stopping(Some(ByIdentity(owner))) || (f.Purging? && f.purge == ByIdentity(owner))
  }

  /** The drop of the owner goes on at depth `d`; what the game's thread is in above it is no frame. */
  ghost predicate During(s: State, d: nat, owner: nat) {
    && Inv(s) && d < |s.stack| && OfDrop(s.stack[d], owner)
    && forall i :: d < i < |s.stack| ==> !s.stack[i].Checked?
  }

  /** How a step changes the calls of the game's thread. */
  lemma StackStep(s: State, a: Action)
    requires Inv(s) && Enabled(s, a) && s.stack != []
    ensures var t, k := Step(s, a).stack, s.stack[..|s.stack| - 1];
            match a
            case DoSubmit(_, _, _, _) => |t| == |s.stack| + 1 && t[..|s.stack|] == s.stack
              && (t[|s.stack|].InThink? || t[|s.stack|].Pushed?)
            case DoMakeThread => t == k
            case DoTestFrame => true
            case DoPopFrame => true
            case DoReturn => t == k
            case DoBeginStop(purge) => t == s.stack + [Stopping(purge)]
            case DoEndStop =>
              var next := Top(s.stack).value.next;
              if next.None? then t == k
              else |t| == |s.stack| && t[..|s.stack| - 1] == k && t[|s.stack| - 1].Purging?
                   && t[|s.stack| - 1].purge == next.value
            case DoPurgeNext =>
              |t| == |s.stack| + 1 && t[..|s.stack| - 1] == k && t[|s.stack|].InThink?
              && t[|s.stack| - 1] == Purging(Top(s.stack).value.purge, Top(s.stack).value.list[1..])
            case DoEndPurge => t == k
            case DoTake => t == s.stack
            case DoWork => t == s.stack
            case DoDeliver => t == s.stack
  {
    StepKeeps(s, a);
    assert !s.fault && !Step(s, a).fault;
    hide Inv, SetLevel, Put, Chosen, At, Likely, FirstTaken;
  }

  lemma DuringKeeps(s: State, a: Action, d: nat, owner: nat)
    requires During(s, d, owner) && Enabled(s, a) && d < |Step(s, a).stack|
    ensures During(Step(s, a), d, owner)
  {
    hide Inv, Step;
    StackStep(s, a);
    StepKeeps(s, a);
    var t, k := Step(s, a).stack, s.stack[..|s.stack| - 1];
    assert Top(s.stack) == Some(s.stack[|s.stack| - 1]);
    assert forall i :: 0 <= i < |k| ==> k[i] == s.stack[i];
  }

  // ----- one step, and one operation

  lemma MoveStep(s: State, op: nat, to: Stage, events: seq<Event>, id: nat)
    requires op < |s.stages| == |s.did| && id < |s.stages| && (Active(to) <==> Active(s.stages[op]))
    ensures Active(Move(s, op, to, events).stages[id]) <==> Active(s.stages[id])
  {}

  /** Only a purge's list takes an operation out of the queues, as long as no frame is on. */
  lemma ActiveStep(s: State, a: Action, id: nat)
    requires Inv(s) && Enabled(s, a) && s.stack != [] && Top(s.stack) != Some(Checked) && id < |s.stages|
    ensures |s.stages| <= |Step(s, a).stages| && |Step(s, a).owners| == |Step(s, a).stages|
    ensures Step(s, a).owners[id] == s.owners[id]
    ensures Active(Step(s, a).stages[id]) <==> Active(s.stages[id]) && !Sweeps(s, a, id)
  {
    match a
    case DoEndStop => SweptStep(s, Top(s.stack).value.next, id);
    case DoReturn => ReturnStep(s, Top(s.stack).value.op, id);
    case DoPurgeNext => PurgeStep(s, Top(s.stack).value.purge, Top(s.stack).value.list, id);
    case DoTake => TakeStep(s, id);
    case _ =>
      hide Levels, Elsewhere, Lists, Thinks, Shape, Blocked, InOrder, Histories, Accounts, SetLevel, Put, At;
  }

  lemma ReturnStep(s: State, op: nat, id: nat)
    requires Inv(s) && Top(s.stack) == Some(InThink(op)) && id < |s.stages|
    ensures Return(s, op).owners == s.owners && |Return(s, op).stages| == |s.stages|
    ensures Active(Return(s, op).stages[id]) <==> Active(s.stages[id])
  {
    StackPop(s.stack);
    StackPush(Popped(s.stack), InThink(op));
    assert op in Thinks(s.stack);
    hide Levels, Lists, Thinks, Shape, Blocked, InOrder, Histories, Accounts, Popped;
  }

  lemma PurgeStep(s: State, purge: Purge, list: seq<nat>, id: nat)
    requires Inv(s) && Top(s.stack) == Some(Purging(purge, list)) && list != [] && id < |s.stages|
    ensures var u := PurgeNext(s, purge, list);
            && u.owners == s.owners && |u.stages| == |s.stages|
            && (Active(u.stages[id]) <==> Active(s.stages[id]))
  {
    hide Levels, Lists, Thinks, Shape, Blocked, InOrder, Histories, Accounts, Popped, Current;
    StackPop(s.stack);
    StackPush(Popped(s.stack), Purging(purge, list));
    assert list[0] in list && list[0] in Lists(s.stack);
  }

  lemma TakeStep(s: State, id: nat)
    requires Inv(s) && s.worker.Worker? && s.worker.threads > 0 && s.worker.current.None? && id < |s.stages|
    ensures Take(s).owners == s.owners && |Take(s).stages| == |s.stages|
    ensures Active(Take(s).stages[id]) <==> Active(s.stages[id])
  {
    LikelyFinds(s.ops);
    LevelTaken(s.ops, s.stages, Likely(s.ops));
    hide Levels, Elsewhere, Shape, Blocked, InOrder, Histories, At, Likely, SetLevel, FirstTaken;
  }

  lemma SweptStep(s: State, next: Option<Purge>, id: nat)
    requires Inv(s) && Top(s.stack) == Some(Stopping(next)) && Quiet(s.worker) && id < |s.stages|
    ensures var u := EndStop(s, next);
            && u.owners == s.owners && |u.stages| == |s.stages|
            && (Active(u.stages[id]) <==> Active(s.stages[id]) && (next.Some? ==> !Concerns(s, next.value, id)))
  {
    if next.Some? {
      TopIs(s.stack, s.think);
      var mine := Chosen(s, next.value, s.think, true);
      ChosenAre(s, next.value, s.think, true);
      assert EndStop(s, next).stages == Relisted(s.stages, mine);
      if Active(Relisted(s.stages, mine)[id]) { PurgedIsClean(s, next.value, id); }
    }
    hide Levels, Lists, Thinks, Shape, Blocked, InOrder, Histories, Accounts, Chosen, Concerns;
  }

  /** What a step makes. */
  lemma MadeStep(s: State, a: Action, owner: nat)
    requires Inv(s) && Enabled(s, a)
    ensures var u := Step(s, a);
            && |u.owners| == |u.stages|
            && |u.stages| == |s.stages| + (if a.DoSubmit? then 1 else 0)
            && (a.DoSubmit? ==>
                  (u.owners[|s.stages|] == owner && Active(u.stages[|s.stages|]) <==> Accepts(s, a, owner)))
  {
    hide Levels, Elsewhere, Shape, Blocked, InOrder, Histories, Accounts, At, Likely, SetLevel, FirstTaken, Chosen, Put;
  }

  // ----- what a run leaves behind

  /** An operation of the owner that is queued now, and not swept up in the run. */
  ghost predicate Remains(s: State, actions: seq<Action>, owner: nat, id: nat)
    requires Runs(s, actions)
  {
    && id < |s.stages| && id < |s.owners| && s.owners[id] == owner
    && Active(s.stages[id]) && Stays(s, actions, id)
  }

  lemma DuringMeans(s: State, d: nat, owner: nat)
    requires During(s, d, owner)
    ensures Inv(s) && s.stack != [] && Top(s.stack) != Some(Checked) && |s.owners| == |s.stages|
  {
    assert Top(s.stack) == Some(s.stack[|s.stack| - 1]);
    hide Levels, Elsewhere, Shape, Blocked, InOrder, Histories, Accounts, Current;
  }

  /** What remains after a step is what remained before it, and the operation it made if it remains. */
  lemma RemainsStep(s: State, actions: seq<Action>, d: nat, owner: nat, id: nat)
    requires During(s, d, owner) && Runs(s, actions) && actions != []
    ensures var u := Step(s, actions[0]);
            Remains(u, actions[1..], owner, id) <==>
              if id < |s.stages| then Remains(s, actions, owner, id)
              else id == |s.stages| && Accepts(s, actions[0], owner) && Stays(u, actions[1..], id)
  {
    hide Inv, Step, Sweeps, Accepts, Active;
    DuringMeans(s, d, owner);
    MadeStep(s, actions[0], owner);
    if id < |s.stages| { ActiveStep(s, actions[0], id); }
    if Accepts(s, actions[0], owner) { AcceptsSubmits(s, actions[0], owner); }
  }

  lemma AcceptsSubmits(s: State, a: Action, owner: nat)
    requires Accepts(s, a, owner)
    ensures a.DoSubmit?
  {}

  /** While a drop goes on, the owner's operations that are queued at the end of a run are those that
      were queued at its beginning or accepted during it, and have not been swept up since. */
  lemma {:induction false} LeftExactly(s: State, actions: seq<Action>, d: nat, owner: nat)
    requires During(s, d, owner) && Runs(s, actions) && Held(s, actions, d)
    ensures var t := Outcome(s, actions);
            !Clean(t.owners, t.stages, owner) <==>
            (exists id: nat :: Remains(s, actions, owner, id)) || Leaves(s, actions, owner)
    decreases |actions|
  {
    if actions == [] {
      CleanExactly(s, owner);
    } else {
      var u, rest := Step(s, actions[0]), actions[1..];
      hide Inv, During, Step, Enabled, Accepts, Remains, Clean;
      HeldOn(s, actions, d);
      DuringKeeps(s, actions[0], d, owner);
      LeftExactly(u, rest, d, owner);
      forall id: nat
        ensures Remains(u, rest, owner, id) <==>
                  if id < |s.stages| then Remains(s, actions, owner, id)
                  else id == |s.stages| && Accepts(s, actions[0], owner) && Stays(u, rest, id)
      {
        RemainsStep(s, actions, d, owner, id);
      }
      RemainsThere(s, actions, owner);
      LeavesIs(s, actions, owner);
    }
  }

  lemma CleanExactly(s: State, owner: nat)
    ensures !Clean(s.owners, s.stages, owner) <==> exists id: nat :: Remains(s, [], owner, id)
  {
    if !Clean(s.owners, s.stages, owner) {
      var id: nat :| id < |s.stages| && id < |s.owners| && Active(s.stages[id]) && s.owners[id] == owner;
      assert Remains(s, [], owner, id);
    }
  }

  lemma RemainsThere(s: State, actions: seq<Action>, owner: nat)
    requires Runs(s, actions)
    ensures forall id: nat :: Remains(s, actions, owner, id) ==> id < |s.stages|
  {}

  lemma LeavesIs(s: State, actions: seq<Action>, owner: nat)
    requires Runs(s, actions) && actions != []
    ensures var u := Step(s, actions[0]);
            Leaves(s, actions, owner) <==>
            (Accepts(s, actions[0], owner) && Stays(u, actions[1..], |s.stages|)) || Leaves(u, actions[1..], owner)
  {
    hide Step, Accepts, Stays;
  }

  lemma HeldOn(s: State, actions: seq<Action>, d: nat)
    requires Runs(s, actions) && actions != [] && Held(s, actions, d)
    ensures Enabled(s, actions[0]) && Runs(Step(s, actions[0]), actions[1..])
    ensures var u := Step(s, actions[0]); d < |s.stack| && d < |u.stack| && Held(u, actions[1..], d)
    ensures Outcome(s, actions) == Outcome(Step(s, actions[0]), actions[1..])
  {
    hide Step, Enabled;
  }

  /** Making the list of a drop sweeps up all that was queued when the drop began. */
  lemma {:induction false} AllSwept(s: State, actions: seq<Action>, owner: nat, id: nat)
    requires Inv(s) && Top(s.stack) == Some(Stopping(Some(ByIdentity(owner))))
    requires Runs(s, actions) && id < |s.stages| && s.owners[id] == owner
    requires Top(Outcome(s, actions).stack).Some? && Top(Outcome(s, actions).stack).value.Purging?
    ensures !Stays(s, actions, id)
    decreases |actions|
  {
    if actions != [] && actions[0] != DoEndStop {
      ActiveStep(s, actions[0], id);
      StackStep(s, actions[0]);
      StepKeeps(s, actions[0]);
      hide Inv, Step, Sweeps;
      AllSwept(Step(s, actions[0]), actions[1..], owner, id);
    }
  }

  // ----- other drops inside it

  predicate IdentityFrame(f: Frame) {
    (f.Stopping? && f.next.Some? && f.next.value.ByIdentity?) || (f.Purging? && f.purge.ByIdentity?)
  }

  /** The drop at depth `d` has its block, and no other identity's drop is going on inside it. */
  ghost predicate Undisturbed(s: State, d: nat, owner: nat) {
    s.block == Some(owner) && forall i :: d < i < |s.stack| ==> !IdentityFrame(s.stack[i])
  }

  lemma UndisturbedKeeps(s: State, a: Action, d: nat, owner: nat)
    requires During(s, d, owner) && Enabled(s, a) && d < |Step(s, a).stack|
    requires Undisturbed(s, d, owner) && !Drops(a)
    ensures Undisturbed(Step(s, a), d, owner)
  {
    hide Inv, Step;
    BlockStep(s, a);
    StackStep(s, a);
    var t, k := Step(s, a).stack, s.stack[..|s.stack| - 1];
    assert Top(s.stack) == Some(s.stack[|s.stack| - 1]);
    hide Top;
    assert forall i :: 0 <= i < |k| ==> k[i] == s.stack[i];
  }

  /** Only identities' drops touch the block. */
  lemma BlockStep(s: State, a: Action)
    requires Inv(s) && Enabled(s, a) && !Drops(a)
    ensures Step(s, a).block == s.block || (a.DoEndPurge? && IdentityFrame(Top(s.stack).value))
  {
    hide Inv, SetLevel, Put, Chosen, At, Likely, FirstTaken;
  }

  /** Without another identity's drop inside it, nothing of the owner is accepted. */
  lemma {:induction false} UndisturbedLeavesNothing(s: State, actions: seq<Action>, d: nat, owner: nat)
    requires During(s, d, owner) && Runs(s, actions) && Held(s, actions, d)
    requires Undisturbed(s, d, owner) && forall i :: 0 <= i < |actions| ==> !Drops(actions[i])
    ensures !Leaves(s, actions, owner)
    decreases |actions|
  {
    if actions != [] {
      var u, rest := Step(s, actions[0]), actions[1..];
      hide Inv, During, Step, Enabled, Drops;
      HeldOn(s, actions, d);
      DuringKeeps(s, actions[0], d, owner);
      UndisturbedKeeps(s, actions[0], d, owner);
      forall i | 0 <= i < |rest| ensures !Drops(rest[i]) { assert rest[i] == actions[i + 1]; }
      UndisturbedLeavesNothing(u, rest, d, owner);
      LeavesIs(s, actions, owner);
      assert !Accepts(s, actions[0], owner);
    }
  }

  // ----- the whole drop

  /** A run from just after the drop of an identity has begun, up to where its purge is about to end. */
  ghost predicate WholeDrop(s: State, actions: seq<Action>, owner: nat) {
    && Inv(s) && Ready(s)
    && var u := Step(s, DoBeginStop(Some(ByIdentity(owner))));
       && Runs(u, actions) && Held(u, actions, |s.stack|)
       && var t := Outcome(u, actions);
          Top(t.stack) == Some(Purging(ByIdentity(owner), [])) && |t.stack| == |u.stack|
  }

  /** When the drop of an identity ends, none of its operations is queued, unless one was accepted
      during the drop and not swept up by another purge later in it; and that takes another identity's
      drop inside this one. */
  lemma DropExactly(s: State, actions: seq<Action>, owner: nat)
    requires WholeDrop(s, actions, owner)
    ensures var u := Step(s, DoBeginStop(Some(ByIdentity(owner))));
            var t := Step(Outcome(u, actions), DoEndPurge);
            && (Clean(t.owners, t.stages, owner) <==> !Leaves(u, actions, owner))
            && (Leaves(u, actions, owner) ==> exists i :: 0 <= i < |actions| && Drops(actions[i]))
  {
    hide Inv, Runs, Outcome, Held, Leaves, Drops, Clean;
    var u, d := Step(s, DoBeginStop(Some(ByIdentity(owner)))), |s.stack|;
    DropBegins(s, owner);
    LeftExactly(u, actions, d, owner);
    forall id: nat ensures !Remains(u, actions, owner, id) {
      if Remains(u, actions, owner, id) { AllSwept(u, actions, owner, id); }
    }
    if forall i :: 0 <= i < |actions| ==> !Drops(actions[i]) {
      UndisturbedLeavesNothing(u, actions, d, owner);
    }
  }

  lemma DropBegins(s: State, owner: nat)
    requires Inv(s) && Ready(s)
    ensures var u := Step(s, DoBeginStop(Some(ByIdentity(owner))));
            && Inv(u) && During(u, |s.stack|, owner) && Undisturbed(u, |s.stack|, owner)
            && Top(u.stack) == Some(Stopping(Some(ByIdentity(owner))))
  {
    hide Inv, Step;
    StepIsBegin(s, owner);
    BeginStopKeeps(s, Some(ByIdentity(owner)));
  }

  lemma StepIsBegin(s: State, owner: nat)
    requires Ready(s)
    ensures Enabled(s, DoBeginStop(Some(ByIdentity(owner))))
    ensures Step(s, DoBeginStop(Some(ByIdentity(owner)))) == BeginStop(s, Some(ByIdentity(owner)))
  {}
}
