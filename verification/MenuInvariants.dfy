/**
 What holds of menus and votes through every run: callbacks balance, a vote ends once and
 exactly when nobody has it open any more, counts of votes are right, and the list of clients
 to watch is exact.
 */
module MenuInvariants {
  import opened Common
  import opened MenuWorld
  import opened FastLinks
  import C = Counting

  // ----- counting

  /** The player has a menu (not a panel) of this handler on the screen. */
  predicate HasOpen(p: Player, h: Handler) { p.inMenu && p.menu.Some? && p.mh == h }

  function One(b: bool): nat { if b then 1 else 0 }

  function CountOpen(players: seq<Player>, h: Handler): nat {
    if players == [] then 0
    else CountOpen(players[..|players| - 1], h) + One(HasOpen(players[|players| - 1], h))
  }

  lemma {:induction false} CountUpdate(players: seq<Player>, c: nat, p: Player, h: Handler)
    requires c < |players|
    ensures CountOpen(players[c := p], h) == CountOpen(players, h) - One(HasOpen(players[c], h)) + One(HasOpen(p, h))
  {
    var n := |players| - 1;
    if c == n {
      assert players[c := p][..n] == players[..n];
    } else {
      CountUpdate(players[..n], c, p, h);
      assert players[c := p][..n] == players[..n][c := p];
    }
  }

  lemma {:induction false} NoneOpen(players: seq<Player>, h: Handler, c: nat)
    requires c < |players| && CountOpen(players, h) == 0
    ensures !HasOpen(players[c], h)
  {
    if c < |players| - 1 { NoneOpen(players[..|players| - 1], h, c); }
  }

  lemma {:induction false} SomeOpen(players: seq<Player>, h: Handler) returns (c: nat)
    requires CountOpen(players, h) > 0
    ensures c < |players| && HasOpen(players[c], h)
  {
    var n := |players| - 1;
    if HasOpen(players[n], h) { c := n; } else { c := SomeOpen(players[..n], h); }
  }

  /** `OnMenuStart` less `OnMenuEnd` of a plugin's handler. */
  function Balance(calls: seq<Call>, h: nat): int {
    if calls == [] then 0 else Balance(calls[..|calls| - 1], h) + Weight(calls[|calls| - 1], h)
  }

  function Weight(c: Call, h: nat): int {
    match c
    case Start(i, _) => if i == h then 1 else 0
    case End(i, _, _) => if i == h then -1 else 0
    case _ => 0
  }

  lemma BalanceMore(calls: seq<Call>, c: Call, h: nat)
    ensures Balance(calls + [c], h) == Balance(calls, h) + Weight(c, h)
  {
    assert (calls + [c])[..|calls|] == calls;
  }

  /** Votes begun less votes ended. */
  function Votes(calls: seq<Call>): int {
    if calls == [] then 0 else Votes(calls[..|calls| - 1]) + VoteWeight(calls[|calls| - 1])
  }

  function VoteWeight(c: Call): int {
    if c.VoteStart? then 1 else if c.VoteCancel? || c.VoteResults? then -1 else 0
  }

  lemma VotesMore(calls: seq<Call>, c: Call)
    ensures Votes(calls + [c]) == Votes(calls) + VoteWeight(c)
  {
    assert (calls + [c])[..|calls|] == calls;
  }

  function CountChoice(votes: seq<int>, item: nat): nat {
    if votes == [] then 0 else CountChoice(votes[..|votes| - 1], item) + One(votes[|votes| - 1] == item)
  }

  lemma {:induction false} ChoiceUpdate(votes: seq<int>, c: nat, x: int, item: nat)
    requires c < |votes|
    ensures CountChoice(votes[c := x], item) == CountChoice(votes, item) - One(votes[c] == item) + One(x == item)
  {
    var n := |votes| - 1;
    if c == n {
      assert votes[c := x][..n] == votes[..n];
    } else {
      ChoiceUpdate(votes[..n], c, x, item);
      assert votes[c := x][..n] == votes[..n][c := x];
    }
  }

  lemma {:induction false} NoChoice(votes: seq<int>, item: nat)
    requires forall i :: 0 <= i < |votes| ==> votes[i] < 0
    ensures CountChoice(votes, item) == 0
  {
    if votes != [] { NoChoice(votes[..|votes| - 1], item); }
  }

  lemma {:induction false} ChosenBy(votes: seq<int>, c: nat, item: nat)
    requires c < |votes| && votes[c] == item
    ensures CountChoice(votes, item) > 0
  {
    if c < |votes| - 1 { ChosenBy(votes[..|votes| - 1], c, item); }
  }

  // ----- the invariant

  /** Starts that are not yet matched by a menu on a screen or an end: `owed`. */
  ghost predicate Balanced(w: World, owed: multiset<Handler>) {
    && (forall i: nat :: Balance(w.calls, i) ==
          CountOpen(w.players, Plugin(i)) + One(w.vote.handler == Some(i)) + owed[Plugin(i)])
    && w.vote.clients == CountOpen(w.players, Vote) + owed[Vote]
  }

  /** The votes recorded are counted, and those who still have the vote open have none. */
  ghost predicate Counted(w: World) {
    var v := w.vote;
    && |v.clientVotes| == |w.players| && v.items <= |v.votes|
    && (v.clientVotes != [] ==> v.clientVotes[0] < 0)
    && (forall i :: 0 <= i < v.items ==> v.votes[i] == CountChoice(v.clientVotes, i))
    && (v.curMenu.Some? ==> forall c :: 0 <= c < |v.clientVotes| ==> v.clientVotes[c] < v.items)
    && (v.curMenu.Some? && !v.started ==> forall c :: 0 <= c < |v.clientVotes| ==> v.clientVotes[c] < 0)
    && (forall c :: 0 <= c < |w.players| && w.players[c].inMenu && w.players[c].mh == Vote ==>
          v.clientVotes[c] == -1 && v.curMenu.Some? && w.players[c].menu == v.curMenu)
  }

  /** A vote in progress has a menu and a handler; one that has started is open somewhere, and
      has been started once more often than ended. */
  ghost predicate Running(w: World) {
    var v := w.vote;
    && (v.curMenu.Some? <==> v.handler.Some?)
    && (v.curMenu.None? ==> v.clients == 0 && v.items == 0 && !v.started && !v.cancelled)
    && (v.started ==> v.clients > 0)
    && Votes(w.calls) == One(v.started)
  }

  predicate Timed(p: Player) { p.inMenu && p.holdTime != 0 }

  /** The list of clients to watch: those with a time limit, once each. */
  ghost predicate Watching(w: World) {
    && Distinct(w.watch)
    && (forall c: nat :: c in w.watch <==> c < |w.players| && Timed(w.players[c]))
  }

  ghost predicate Inv(w: World, owed: multiset<Handler>) {
    && !w.fault && 0 < |w.players| <= WATCH_SIZE + 1 && !w.players[0].inMenu
    && Balanced(w, owed) && Counted(w) && Running(w) && Watching(w)
  }

  /** Between operations nothing is owed, and a vote that has been set up has been started. */
  ghost predicate Good(w: World) {
    Inv(w, multiset{}) && (w.vote.curMenu.Some? ==> w.vote.started)
  }

  // ----- the end of a vote

  /** The vote's own handler is owed one end for the start it made. */
  lemma ResetKeeps(w: World, c1: Call, h: nat, m: nat, end: EndReason, owed: multiset<Handler>)
    requires w.vote.handler == Some(h) && w.vote.started && w.vote.clients == 0 && owed[Vote] == 0
    requires !w.fault && 0 < |w.players| <= WATCH_SIZE + 1 && !w.players[0].inMenu
    requires Balanced(w, owed) && Counted(w) && Watching(w)
    requires Votes(w.calls) == 1
    requires (c1.VoteCancel? || c1.VoteResults?)
    ensures var u := Logged(Logged(w.(vote := Reset(w.vote)), c1), End(h, m, end));
            Inv(u, owed) && u.vote.curMenu == None
  {
    var u := Logged(Logged(w.(vote := Reset(w.vote)), c1), End(h, m, end));
    assert Balanced(u, owed) by {
      forall i: nat
        ensures Balance(u.calls, i) == CountOpen(u.players, Plugin(i)) + One(u.vote.handler == Some(i))
                + owed[Plugin(i)]
      {
        BalanceMore(w.calls, c1, i);
        BalanceMore(w.calls + [c1], End(h, m, end), i);
      }
    }
    VotesMore(w.calls, c1);
    VotesMore(w.calls + [c1], End(h, m, end));
    assert Counted(u) by {
      forall c | 0 <= c < |u.players| && u.players[c].inMenu && u.players[c].mh == Vote ensures false {
        NoneOpen(u.players, Vote, c);
      }
    }
  }

  lemma EndVotingKeeps(w: World, owed: multiset<Handler>)
    requires w.vote.handler.Some? && w.vote.curMenu.Some? && w.vote.started && w.vote.clients == 0 && owed[Vote] == 0
    requires !w.fault && 0 < |w.players| <= WATCH_SIZE + 1 && !w.players[0].inMenu
    requires Balanced(w, owed) && Counted(w) && Watching(w)
    requires Votes(w.calls) == 1
    ensures Inv(EndVoting(w), owed) && EndVoting(w).vote.curMenu == None
  {
    var h, m := w.vote.handler.value, w.vote.curMenu.value;
    var list := Tally(w.vote.votes, w.vote.items);
    var result := VoteResult(Total(list), Asked(w.vote.clientVotes, |w.vote.clientVotes|), Ranked(list));
    ResetKeeps(w, VoteCancel(h, m, false), h, m, EndVotingCancelled, owed);
    ResetKeeps(w, VoteCancel(h, m, true), h, m, EndVotingCancelled, owed);
    ResetKeeps(w, VoteResults(h, m, result), h, m, EndVotingDone, owed);
    hide Inv, Balanced, Watching, Tally, Total, Asked, Ranked;
  }

  /** The vote goes on, or it had started and is over. */
  ghost predicate Onward(w: World, u: World) {
    || (u.vote.curMenu == w.vote.curMenu && u.vote.handler == w.vote.handler && u.vote.started == w.vote.started
        && u.vote.items == w.vote.items && u.vote.cancelled == w.vote.cancelled)
    || (w.vote.started && u.vote.curMenu.None? && !u.vote.started)
  }

  // ----- one call to a handler

  lemma LoggedBalanced(w: World, c: Call, owed: multiset<Handler>, more: multiset<Handler>)
    requires Balanced(w, owed)
    requires forall i: nat :: more[Plugin(i)] == owed[Plugin(i)] + Weight(c, i)
    requires more[Vote] == owed[Vote]
    ensures Balanced(Logged(w, c), more)
  {
    forall i: nat
      ensures Balance(w.calls + [c], i) ==
                CountOpen(w.players, Plugin(i)) + One(w.vote.handler == Some(i)) + more[Plugin(i)]
    {
      BalanceMore(w.calls, c, i);
    }
  }

  /** A call that neither starts nor ends anything. */
  lemma PassedOn(w: World, c: Call, owed: multiset<Handler>)
    requires Inv(w, owed) && (c.Cancel? || c.Select? || c.Display?)
    ensures Inv(Logged(w, c), owed)
  {
    LoggedBalanced(w, c, owed, owed);
    VotesMore(w.calls, c);
    SameCounted(w, Logged(w, c));
    SameWatching(w, Logged(w, c));
    hide Balanced, Counted, Watching, Balance, Votes, CountOpen, CountChoice;
  }

  lemma SameCounted(w: World, u: World)
    requires u.players == w.players && u.vote == w.vote
    ensures Counted(u) == Counted(w)
  {}

  lemma SameWatching(w: World, u: World)
    requires u.players == w.players && u.watch == w.watch
    ensures Watching(u) == Watching(w)
  {}

  lemma OnStartKeeps(w: World, h: Handler, menu: nat, owed: multiset<Handler>)
    requires Inv(w, owed) && (h.Vote? ==> w.vote.curMenu.Some?)
    ensures Inv(OnStart(w, h, menu), owed + multiset{h}) && Onward(w, OnStart(w, h, menu))
  {
    if h.Plugin? { PluginStarts(w, h.id, menu, owed); } else { VoteOpens(w, owed); }
    hide Inv;
  }

  lemma PluginStarts(w: World, i: nat, menu: nat, owed: multiset<Handler>)
    requires Inv(w, owed)
    ensures Inv(Logged(w, Start(i, menu)), owed + multiset{Plugin(i)})
  {
    var u := Logged(w, Start(i, menu));
    LoggedBalanced(w, Start(i, menu), owed, owed + multiset{Plugin(i)});
    VotesMore(w.calls, Start(i, menu));
    SameCounted(w, u);
    SameWatching(w, u);
    hide Balanced, Counted, Watching, Balance, Votes, CountOpen, CountChoice;
  }

  lemma VoteOpens(w: World, owed: multiset<Handler>)
    requires Inv(w, owed) && w.vote.curMenu.Some?
    ensures Inv(w.(vote := w.vote.(clients := w.vote.clients + 1)), owed + multiset{Vote})
  {
    var u := w.(vote := w.vote.(clients := w.vote.clients + 1));
    assert Balanced(u, owed + multiset{Vote}) by { hide Balance, CountOpen; }
    assert Counted(u) by { hide CountChoice; }
    SameWatching(w, u);
    hide Balanced, Counted, Watching, Balance, Votes, CountOpen, CountChoice;
  }

  lemma OnEndKeeps(w: World, h: Handler, menu: nat, end: EndReason, owed: multiset<Handler>)
    requires Inv(w, owed + multiset{h})
    ensures Inv(OnEnd(w, h, menu, end), owed) && Onward(w, OnEnd(w, h, menu, end))
  {
    if h.Plugin? { PluginEnds(w, h.id, menu, end, owed); } else { DecrementKeeps(w, owed); }
    hide Inv, DecrementPlayerCount;
  }

  lemma PluginEnds(w: World, i: nat, menu: nat, end: EndReason, owed: multiset<Handler>)
    requires Inv(w, owed + multiset{Plugin(i)})
    ensures Inv(Logged(w, End(i, menu, end)), owed)
  {
    var u := Logged(w, End(i, menu, end));
    LoggedBalanced(w, End(i, menu, end), owed + multiset{Plugin(i)}, owed);
    VotesMore(w.calls, End(i, menu, end));
    SameCounted(w, u);
    SameWatching(w, u);
    hide Balanced, Counted, Watching, Balance, Votes, CountOpen, CountChoice;
  }

  lemma DecrementKeeps(w: World, owed: multiset<Handler>)
    requires Inv(w, owed + multiset{Vote})
    ensures Inv(DecrementPlayerCount(w), owed) && Onward(w, DecrementPlayerCount(w))
  {
    var u := w.(vote := w.vote.(clients := w.vote.clients - 1));
    hide Balance, Votes, CountOpen, CountChoice, EndVoting;
    if u.vote.started && u.vote.clients == 0 {
      EndVotingKeeps(u, owed);
    }
  }

  lemma OnCancelKeeps(w: World, h: Handler, menu: Option<nat>, c: nat, reason: CancelReason, owed: multiset<Handler>)
    requires Inv(w, owed) && (h.Vote? ==> w.vote.handler.Some?)
    ensures Inv(OnCancel(w, h, menu, c, reason), owed) && OnCancel(w, h, menu, c, reason).vote == w.vote
  {
    PassedOn(w, Cancel(if h.Plugin? then h.id else w.vote.handler.value, menu, c, reason), owed);
  }

  lemma OnDisplayKeeps(w: World, h: Handler, menu: nat, c: nat, owed: multiset<Handler>)
    requires Inv(w, owed) && c < |w.players| && (h.Vote? ==> w.vote.handler.Some? && w.vote.clientVotes[c] < 0)
    ensures var u := OnDisplay(w, h, menu, c);
            Inv(u, owed) && Onward(w, u) && (h.Vote? ==> u.vote.clientVotes[c] == -1)
  {
    if h.Plugin? {
      PassedOn(w, Display(h.id, menu, c), owed);
    } else {
      var u := w.(vote := w.vote.(clientVotes := w.vote.clientVotes[c := -1]));
      assert Counted(u) by {
        forall i: nat | i < u.vote.items ensures u.vote.votes[i] == CountChoice(u.vote.clientVotes, i) {
          ChoiceUpdate(w.vote.clientVotes, c, -1, i);
        }
      }
      assert Balanced(u, owed) && Running(u) && Watching(u);
      PassedOn(u, Display(w.vote.handler.value, menu, c), owed);
      hide Inv;
    }
  }

  lemma OnSelectKeeps(w: World, h: Handler, menu: Option<nat>, c: nat, item: nat, owed: multiset<Handler>)
    requires Inv(w, owed) && 0 < c < |w.players|
    requires h.Vote? ==> w.vote.started && w.vote.clientVotes[c] < 0 && !w.players[c].inMenu
    ensures var u := OnSelect(w, h, menu, c, item); Inv(u, owed) && Onward(w, u)
  {
    if h.Plugin? {
      PassedOn(w, Select(h.id, menu, c, item), owed);
    } else {
      var u := w.(vote := Recorded(w.vote, c, item));
      RecordedCounts(w, c, item);
      assert Balanced(u, owed) && Running(u) && Watching(u);
      PassedOn(u, Select(w.vote.handler.value, menu, c, item), owed);
      hide Inv;
    }
  }

  lemma RecordedCounts(w: World, c: nat, item: nat)
    requires Counted(w) && 0 < c < |w.players| && w.vote.started && w.vote.clientVotes[c] < 0 && !w.players[c].inMenu
    ensures Counted(w.(vote := Recorded(w.vote, c, item)))
  {
    if item < w.vote.items {
      forall i: nat | i < w.vote.items
        ensures CountChoice(w.vote.clientVotes[c := item], i) == CountChoice(w.vote.clientVotes, i) + One(i == item)
      {
        ChoiceUpdate(w.vote.clientVotes, c, item, i);
      }
    }
  }

  // ----- on and off the screen

  lemma {:induction false} RemovedKeeps(s: seq<nat>, c: nat)
    requires Distinct(s)
    ensures Distinct(Removed(s, c)) && forall x: nat :: x in Removed(s, c) <==> x in s && x != c
  {
    if s != [] {
      var t := s[1..];
      assert Distinct(t);
      assert forall x :: x in s <==> x == s[0] || x in t;
      RemovedKeeps(t, c);
      assert s[0] !in t;
      if s[0] != c {
        var r := Removed(t, c);
        assert Removed(s, c) == [s[0]] + r;
        assert s[0] !in r;
      }
    }
  }

  ghost function Owing(p: Player): multiset<Handler> {
    if p.inMenu && p.menu.Some? then multiset{p.mh} else multiset{}
  }

  /** One player is changed: the count for its handlers changes with it. */
  lemma PlayerBalanced(w: World, u: World, c: nat, p: Player, owed: multiset<Handler>, more: multiset<Handler>)
    requires Balanced(w, owed) && c < |w.players|
    requires u.players == w.players[c := p] && u.vote == w.vote && u.calls == w.calls
    requires forall h: Handler :: more[h] == owed[h] + One(HasOpen(w.players[c], h)) - One(HasOpen(p, h))
    ensures Balanced(u, more)
  {
    forall h: Handler
      ensures CountOpen(u.players, h) == CountOpen(w.players, h) - One(HasOpen(w.players[c], h)) + One(HasOpen(p, h))
    {
      CountUpdate(w.players, c, p, h);
    }
    hide CountOpen, Balance;
  }

  /** One player is changed to be without a menu, or with the vote open and not voted. */
  lemma PlayerCounted(w: World, u: World, c: nat, p: Player)
    requires Counted(w) && c < |w.players| && u.players == w.players[c := p] && u.vote == w.vote
    requires p.inMenu && p.mh.Vote? ==> w.vote.clientVotes[c] == -1 && w.vote.curMenu.Some? && p.menu == w.vote.curMenu
    ensures Counted(u)
  {
    hide CountChoice;
  }

  /** Nothing but what is owed changes when a menu goes off the screen. */
  lemma ClosedKeeps(w: World, c: nat, owed: multiset<Handler>)
    requires Inv(w, owed) && c < |w.players| && w.players[c].inMenu
    ensures Inv(Closed(w, c), owed + Owing(w.players[c])) && Closed(w, c).vote == w.vote
  {
    var u, p := Closed(w, c), w.players[c];
    PlayerBalanced(w, u, c, p.(inMenu := false), owed, owed + Owing(p));
    PlayerCounted(w, u, c, p.(inMenu := false));
    assert Watching(u) by { RemovedKeeps(w.watch, c); hide Removed; }
    hide Balanced, Counted, Watching, Balance, Votes, CountOpen, CountChoice, Removed;
  }

  lemma WatchHasRoom(w: World, c: nat)
    requires Watching(w) && 0 < |w.players| <= WATCH_SIZE + 1 && !w.players[0].inMenu
    requires 0 < c < |w.players| && c !in w.watch
    ensures |w.watch| < WATCH_SIZE
  {
    var s: seq<int> := w.watch;
    forall k | 0 <= k < |s| ensures 1 <= s[k] < 1 + (|w.players| - 1) { assert w.watch[k] in w.watch; }
    C.RoomForOneMore(s, 1, |w.players| - 1, c);
  }

  lemma ShownKeeps(w: World, c: nat, menu: Option<nat>, h: Handler, time: nat, now: real, owed: multiset<Handler>)
    requires Inv(w, if menu.Some? then owed + multiset{h} else owed) && 0 < c < |w.players| && !w.players[c].inMenu
    requires h.Vote? ==> menu.Some? && menu == w.vote.curMenu && w.vote.clientVotes[c] == -1
    ensures Inv(Shown(w, c, menu, h, time, now), owed) && Shown(w, c, menu, h, time, now).vote == w.vote
  {
    var u, p := Shown(w, c, menu, h, time, now), Player(true, false, now, time, false, menu, h);
    PlayerBalanced(w, u, c, p, if menu.Some? then owed + multiset{h} else owed, owed);
    PlayerCounted(w, u, c, p);
    assert Watching(u) by {
      if time != 0 { WatchHasRoom(w, c); }
    }
    hide Balanced, Counted, Watching, Balance, Votes, CountOpen, CountChoice;
  }

  /** A player without a menu may be given other states, as long as it stays without one. */
  lemma WithKeeps(w: World, c: nat, p: Player, owed: multiset<Handler>)
    requires Inv(w, owed) && c < |w.players| && !w.players[c].inMenu && !p.inMenu
    ensures Inv(With(w, c, p), owed)
  {
    var u := With(w, c, p);
    PlayerBalanced(w, u, c, p, owed, owed);
    PlayerCounted(w, u, c, p);
    assert Watching(u);
    hide Balanced, Counted, Watching, Balance, Votes, CountOpen, CountChoice;
  }

  // ----- operations

  lemma VoterHasHandler(w: World, c: nat, owed: multiset<Handler>)
    requires Inv(w, owed) && c < |w.players| && w.players[c].inMenu && w.players[c].mh.Vote?
    ensures w.vote.handler.Some? && w.vote.curMenu.Some? && w.players[c].menu == w.vote.curMenu
            && w.vote.clientVotes[c] == -1
  {}

  lemma CancelOpenKeeps(w: World, c: nat, reason: CancelReason, owed: multiset<Handler>)
    requires Inv(w, owed) && c < |w.players| && w.players[c].inMenu
    ensures var u := CancelOpen(w, c, reason);
            Inv(u, owed) && Onward(w, u) && u.players == w.players[c := w.players[c].(inMenu := false)]
  {
    var p := w.players[c];
    if p.mh.Vote? { VoterHasHandler(w, c, owed); }
    ClosedKeeps(w, c, owed);
    Sizes(w, c, p.mh, p.menu, 0, reason, EndCancelled, 0);
    OnCancelKeeps(Closed(w, c), p.mh, p.menu, c, reason, owed + Owing(p));
    hide Inv, Closed, OnCancel, OnEnd;
    if p.menu.Some? {
      OnEndKeeps(OnCancel(Closed(w, c), p.mh, p.menu, c, reason), p.mh, p.menu.value, EndCancelled, owed);
    }
  }

  lemma InterruptKeeps(w: World, c: nat, owed: multiset<Handler>)
    requires Inv(w, owed) && c < |w.players|
    ensures var u := Interrupt(w, c);
            Inv(u, owed) && Onward(w, u) && u.players == w.players[c := w.players[c].(inMenu := false)]
  {
    if w.players[c].inMenu {
      CancelOpenKeeps(w, c, Interrupted, owed);
    } else {
      assert w.players[c].(inMenu := false) == w.players[c];
    }
    hide Inv, CancelOpen;
  }

  lemma DoPanelKeeps(w: World, c: nat, h: Handler, time: nat, now: real, valid: bool)
    requires Good(w) && 0 < c < |w.players| && h.Plugin?
    ensures Good(DoPanel(w, c, h, time, now, valid))
  {
    InterruptKeeps(w, c, multiset{});
    var u := Interrupt(w, c);
    hide Inv, Interrupt, Shown;
    ShownKeeps(u, c, None, h, time, now, multiset{});
  }

  lemma NotShownKeeps(w: World, c: nat, menu: nat, h: Handler, owed: multiset<Handler>)
    requires Inv(w, owed + multiset{h}) && (h.Vote? ==> w.vote.handler.Some?)
    ensures Inv(NotShown(w, c, menu, h), owed) && Onward(w, NotShown(w, c, menu, h))
  {
    hide Inv, OnCancel, OnEnd;
    OnCancelKeeps(w, h, Some(menu), c, NoDisplay, owed + multiset{h});
    OnEndKeeps(OnCancel(w, h, Some(menu), c, NoDisplay), h, menu, EndCancelled, owed);
  }

  /** A display through a plugin's handler, or through the vote's while clients are being asked. */
  lemma DoMenuKeeps(w: World, c: nat, menu: nat, h: Handler, time: nat, now: real, valid: bool, rendered: bool)
    requires Inv(w, multiset{}) && 0 < c < |w.players|
    requires h.Vote? ==> w.vote.curMenu == Some(menu) && !w.vote.started
    ensures var u := DoMenu(w, c, menu, h, time, now, valid, rendered); Inv(u, multiset{}) && Onward(w, u)
  {
    var s, one := OnStart(w, h, menu), multiset{h};
    VoteHasHandler(w, multiset{});
    OnStartKeeps(w, h, menu, multiset{});
    assert multiset{} + one == one;
    Sizes(w, c, h, None, menu, Interrupted, EndCancelled, 0);
    hide Inv, OnStart, OnCancel, OnEnd, OnDisplay, Interrupt, Shown, NotShown;
    if !valid || w.players[c].autoIgnore {
      NotShownKeeps(s, c, menu, h, multiset{});
    } else {
      InterruptKeeps(s, c, one);
      var u := Interrupt(s, c);
      if rendered {
        ShowMenuKeeps(u, c, menu, h, time, now);
      } else {
        var p := u.players[c].(menu := Some(menu), mh := h, inMenu := false, autoIgnore := false);
        WithKeeps(u, c, p, one);
        NotShownKeeps(With(u, c, p), c, menu, h, multiset{});
      }
    }
  }

  lemma VoteHasHandler(w: World, owed: multiset<Handler>)
    requires Inv(w, owed)
    ensures w.vote.curMenu.Some? <==> w.vote.handler.Some?
    ensures w.vote.curMenu.Some? && !w.vote.started ==> forall c :: 0 <= c < |w.players| ==> w.vote.clientVotes[c] < 0
    ensures |w.vote.clientVotes| == |w.players|
  {}

  lemma ShowMenuKeeps(u: World, c: nat, menu: nat, h: Handler, time: nat, now: real)
    requires Inv(u, multiset{h}) && 0 < c < |u.players| && !u.players[c].inMenu
    requires h.Vote? ==> u.vote.curMenu == Some(menu) && !u.vote.started
    ensures var v := Shown(OnDisplay(u, h, menu, c), c, Some(menu), h, time, now); 
            |OnDisplay(u, h, menu, c).players| == |u.players| && Inv(v, multiset{}) && Onward(u, v)
  {
    VoteHasHandler(u, multiset{h});
    OnDisplayKeeps(u, h, menu, c, multiset{h});
    Sizes(u, c, h, None, menu, Interrupted, EndCancelled, 0);
    assert multiset{} + multiset{h} == multiset{h};
    var d := OnDisplay(u, h, menu, c);
    hide Inv, OnDisplay, Shown;
    ShownKeeps(d, c, Some(menu), h, time, now, multiset{});
  }

  lemma PressKeeps(w: World, c: nat, number: nat, key: Key)
    requires Good(w) && c < |w.players|
    ensures Good(Press(w, c, number, key))
  {
    var p := w.players[c];
    if p.inMenu {
      if p.mh.Vote? { VoterHasHandler(w, c, multiset{}); }
      if p.menu.None? || key.ItemKey? {
        PressItemKeeps(w, c, if p.menu.None? then number else key.item);
      } else if key == MoveKey(true) {
        MoveKeeps(w, c);
      } else {
        LeaveKeeps(w, c, number, key);
      }
    }
    hide Inv, OnSelect, OnCancel, OnEnd, OnDisplay, Closed;
  }

  lemma PressItemKeeps(w: World, c: nat, item: nat)
    requires Good(w) && c < |w.players| && w.players[c].inMenu
    ensures var p := w.players[c];
            var u := OnSelect(Closed(w, c), p.mh, p.menu, c, item);
            Good(if p.menu.Some? then OnEnd(u, p.mh, p.menu.value, EndSelected) else u)
  {
    var p := w.players[c];
    if p.mh.Vote? { VoterHasHandler(w, c, multiset{}); }
    ClosedKeeps(w, c, multiset{});
    var v := Closed(w, c);
    assert v.players[c] == p.(inMenu := false);
    assert multiset{} + Owing(p) == Owing(p);
    OnSelectKeeps(v, p.mh, p.menu, c, item, Owing(p));
    hide Inv, OnSelect, OnEnd, Closed;
    if p.menu.Some? {
      assert multiset{} + multiset{p.mh} == multiset{p.mh};
      OnEndKeeps(OnSelect(v, p.mh, p.menu, c, item), p.mh, p.menu.value, EndSelected, multiset{});
    }
  }

  lemma MoveKeeps(w: World, c: nat)
    requires Good(w) && c < |w.players| && w.players[c].inMenu && w.players[c].menu.Some?
    ensures var p := w.players[c]; Good(OnDisplay(With(w, c, p.(autoIgnore := false)), p.mh, p.menu.value, c))
  {
    var p := w.players[c];
    if p.mh.Vote? { VoterHasHandler(w, c, multiset{}); }
    IgnoreKeeps(w, c, multiset{});
    hide Inv, OnDisplay;
    OnDisplayKeeps(With(w, c, p.(autoIgnore := false)), p.mh, p.menu.value, c, multiset{});
  }

  lemma IgnoreKeeps(w: World, c: nat, owed: multiset<Handler>)
    requires Inv(w, owed) && c < |w.players|
    ensures Inv(With(w, c, w.players[c].(autoIgnore := false)), owed)
  {
    var p := w.players[c].(autoIgnore := false);
    var u := With(w, c, p);
    PlayerBalanced(w, u, c, p, owed, owed);
    PlayerCounted(w, u, c, p);
    assert Watching(u);
    hide Balanced, Counted, Watching, Balance, Votes, CountOpen, CountChoice;
  }

  /** A page that cannot be drawn takes the client off the list first, and then off it again. */
  lemma ClosedTwice(w: World, c: nat, owed: multiset<Handler>)
    requires Inv(w, owed) && c < |w.players| && w.players[c].inMenu
    ensures var p := w.players[c];
            var u := With(if p.holdTime != 0 then w.(watch := Removed<nat>(w.watch, c)) else w, c,
                          p.(autoIgnore := false));
            Inv(Closed(u, c), owed + Owing(p)) && Closed(u, c).vote == w.vote
  {
    var p := w.players[c];
    var u := With(if p.holdTime != 0 then w.(watch := Removed<nat>(w.watch, c)) else w, c, p.(autoIgnore := false));
    var v, q := Closed(u, c), p.(autoIgnore := false, inMenu := false);
    assert v.players == w.players[c := q];
    PlayerBalanced(w, v, c, q, owed, owed + Owing(p));
    PlayerCounted(w, v, c, q);
    assert Watching(v) by { RemovedKeeps(w.watch, c); RemovedKeeps(Removed<nat>(w.watch, c), c); hide Removed; }
    hide Balanced, Counted, Watching, Balance, Votes, CountOpen, CountChoice, Removed;
  }

  lemma LeaveKeeps(w: World, c: nat, number: nat, key: Key)
    requires Good(w) && c < |w.players| && w.players[c].inMenu && w.players[c].menu.Some?
    requires key == MoveKey(false) || key.ExitKey? || key.StrayKey?
    ensures Good(Press(w, c, number, key))
  {
    hide Inv, OnCancel, OnEnd, Closed, Removed, OnDisplay, OnSelect, Press;
    var p := w.players[c];
    if p.mh.Vote? { VoterHasHandler(w, c, multiset{}); }
    ClosedKeeps(w, c, multiset{});
    ClosedTwice(w, c, multiset{});
    PressLeaves(w, c, number, key);
    var u := With(if p.holdTime != 0 then w.(watch := Removed<nat>(w.watch, c)) else w, c, p.(autoIgnore := false));
    var v := if key.MoveKey? then Closed(u, c) else Closed(w, c);
    var reason := if key.MoveKey? then NoDisplay else if key == ExitKey(true) then CancelExitBack else CancelExit;
    var end := if key.MoveKey? then EndCancelled else if key.StrayKey? then EndSelected
               else if key.back then EndExitBack else EndExit;
    assert multiset{} + multiset{p.mh} == multiset{p.mh};
    OnCancelKeeps(v, p.mh, p.menu, c, reason, multiset{p.mh});
    OnEndKeeps(OnCancel(v, p.mh, p.menu, c, reason), p.mh, p.menu.value, end, multiset{});
  }

  /** A key that closes the menu without a choice: how it is cancelled, and how it ends. */
  lemma PressLeaves(w: World, c: nat, number: nat, key: Key)
    requires c < |w.players| && w.players[c].inMenu && w.players[c].menu.Some?
    requires key == MoveKey(false) || key.ExitKey? || key.StrayKey?
    ensures var p := w.players[c];
            var u := With(if p.holdTime != 0 then w.(watch := Removed<nat>(w.watch, c)) else w, c,
                          p.(autoIgnore := false));
            var v := if key.MoveKey? then Closed(u, c) else Closed(w, c);
            var reason := if key.MoveKey? then NoDisplay else if key == ExitKey(true) then CancelExitBack
                else CancelExit;
            var end := if key.MoveKey? then EndCancelled else if key.StrayKey? then EndSelected
                       else if key.back then EndExitBack else EndExit;
            Press(w, c, number, key) == OnEnd(OnCancel(v, p.mh, p.menu, c, reason), p.mh, p.menu.value, end)
  {
    hide OnCancel, OnEnd, Closed, Removed, OnDisplay, OnSelect;
  }

  /** None of the clients below `n` has the menu on the screen. */
  ghost predicate GoneBelow(players: seq<Player>, menu: nat, n: nat) {
    n <= |players| && forall c :: 0 <= c < n ==> !(players[c].inMenu && players[c].menu == Some(menu))
  }

  lemma {:induction false} CancelMenuKeeps(w: World, menu: nat, n: nat)
    requires Inv(w, multiset{}) && n <= |w.players|
    ensures var u := CancelMenu(w, menu, n);
            Inv(u, multiset{}) && Onward(w, u) && |u.players| == |w.players| && GoneBelow(u.players, menu, n)
    decreases n
  {
    hide Inv, CancelOpen, GoneBelow, CancelMenu, Onward;
    CancelMenuUnfolds(w, menu, n);
    if n == 0 {
      NoneBelow(w.players, menu);
      OnwardSame(w);
    } else {
      CancelMenuKeeps(w, menu, n - 1);
      var u := CancelMenu(w, menu, n - 1);
      CancelStepKeeps(u, menu, n - 1);
      OnwardOn(w, u, CancelMenu(w, menu, n));
    }
  }

  lemma OnwardSame(w: World)
    ensures Onward(w, w)
  {}

  lemma OnwardOn(w: World, u: World, v: World)
    requires Onward(w, u) && Onward(u, v)
    ensures Onward(w, v)
  {}

  lemma CancelStepKeeps(u: World, menu: nat, c: nat)
    requires Inv(u, multiset{}) && c < |u.players| && GoneBelow(u.players, menu, c)
    ensures var v := if u.players[c].inMenu && u.players[c].menu == Some(menu) then CancelOpen(u, c, Interrupted)
            else u;
            Inv(v, multiset{}) && Onward(u, v) && |v.players| == |u.players| && GoneBelow(v.players, menu, c + 1)
  {
    if u.players[c].inMenu && u.players[c].menu == Some(menu) {
      CancelOpenKeeps(u, c, Interrupted, multiset{});
      GoneMore(u.players, CancelOpen(u, c, Interrupted).players, menu, c);
    } else {
      GoneMore(u.players, u.players, menu, c);
    }
    hide Inv, CancelOpen, GoneBelow;
  }

  lemma ProcessWatchUnfolds(w: World, list: seq<nat>, n: nat, now: real)
    requires n <= |list|
    ensures n == 0 ==> ProcessWatch(w, list[..n], now) == w
    ensures n > 0 ==>
              var u, c := ProcessWatch(w, list[..n - 1], now), list[n - 1];
              ProcessWatch(w, list[..n], now) ==
              if c >= |u.players| then u.(fault := true)
              else if !u.players[c].inMenu || u.players[c].holdTime == 0 then u.(watch := Removed<nat>(u.watch, c))
              else if now > u.players[c].startTime + u.players[c].holdTime as real then CancelOpen(u, c, Timeout)
              else u
  {
    if n > 0 { assert list[..n][..n - 1] == list[..n - 1]; }
    hide CancelOpen;
  }

  lemma CancelMenuUnfolds(w: World, menu: nat, n: nat)
    requires n <= |w.players|
    ensures n == 0 ==> CancelMenu(w, menu, n) == w
    ensures n > 0 ==>
              var u := CancelMenu(w, menu, n - 1);
              CancelMenu(w, menu, n) ==
              if u.players[n - 1].inMenu && u.players[n - 1].menu == Some(menu) then CancelOpen(u, n - 1, Interrupted)
                 else u
  {}

  lemma NoneBelow(players: seq<Player>, menu: nat)
    ensures GoneBelow(players, menu, 0)
  {}

  lemma GoneMore(players: seq<Player>, after: seq<Player>, menu: nat, n: nat)
    requires GoneBelow(players, menu, n) && n < |players|
    requires after == players[n := players[n].(inMenu := false)]
             || (after == players && !(players[n].inMenu && players[n].menu == Some(menu)))
    ensures GoneBelow(after, menu, n + 1)
  {}

  lemma DisconnectKeeps(w: World, c: nat)
    requires Good(w) && c < |w.players|
    ensures Good(Disconnect(w, c))
  {
    if w.players[c].inMenu {
      CancelOpenKeeps(w, c, Disconnected, multiset{});
      var u := CancelOpen(w, c, Disconnected);
      hide Inv, CancelOpen;
      WithKeeps(u, c, u.players[c].(inMenu := false, inExternMenu := false), multiset{});
    }
  }

  lemma {:induction false} RemovedNobody(s: seq<nat>, c: nat)
    requires c !in s
    ensures Removed(s, c) == s
  {
    if s != [] { RemovedNobody(s[1..], c); }
  }

  lemma {:induction false} ProcessWatchKeeps(w: World, list: seq<nat>, now: real)
    requires Good(w) && forall i :: 0 <= i < |list| ==> list[i] < |w.players|
    ensures Good(ProcessWatch(w, list, now))
  {
    if list != [] {
      var u, c := ProcessWatch(w, list[..|list| - 1], now), list[|list| - 1];
      ProcessWatchKeeps(w, list[..|list| - 1], now);
      var p := u.players[c];
      if !p.inMenu || p.holdTime == 0 {
        NotWatched(u, c);
      } else if now > p.startTime + p.holdTime as real {
        CancelOpenKeeps(u, c, Timeout, multiset{});
      }
      hide Inv, CancelOpen;
    }
  }

  lemma NotWatched(w: World, c: nat)
    requires Good(w) && c < |w.players| && !Timed(w.players[c])
    ensures Removed<nat>(w.watch, c) == w.watch && w.(watch := Removed<nat>(w.watch, c)) == w
  {
    RemovedNobody(w.watch, c);
  }

  lemma {:induction false} MessageKeeps(w: World, list: seq<nat>, hold: nat)
    requires Good(w) && forall i :: 0 <= i < |list| ==> list[i] < |w.players|
    ensures Good(Message(w, list, hold))
  {
    if list != [] {
      var u, c := Message(w, list[..|list| - 1], hold), list[|list| - 1];
      MessageKeeps(w, list[..|list| - 1], hold);
      InterruptKeeps(u, c, multiset{});
      var v := Interrupt(u, c);
      hide Inv, Interrupt;
      WithKeeps(v, c, v.players[c].(inExternMenu := true, holdTime := hold), multiset{});
    }
  }

  // ----- votes

  lemma InitializedKeeps(w: World, menu: nat, h: nat, items: nat)
    requires Good(w) && w.vote.curMenu.None?
    ensures var u := Initialized(w, menu, h, items);
            Inv(u, multiset{}) && u.vote.curMenu == Some(menu) && u.vote.handler == Some(h) && !u.vote.started
            && u.players == w.players
  {
    var u := Initialized(w, menu, h, items);
    InitializedBalanced(w, menu, h, items);
    InitializedCounted(w, menu, h, items);
    VotesMore(w.calls, Start(h, menu));
    SameWatching(w, u);
    hide CountOpen, Balance, Balanced, Counted, Watching, Votes, Zeros;
  }

  lemma InitializedBalanced(w: World, menu: nat, h: nat, items: nat)
    requires Balanced(w, multiset{}) && w.vote.curMenu.None? && w.vote.handler.None? && w.vote.clients == 0
    ensures Balanced(Initialized(w, menu, h, items), multiset{})
  {
    var u := Initialized(w, menu, h, items);
    forall i: nat ensures Balance(u.calls, i) == Balance(w.calls, i) + Weight(Start(h, menu), i) {
      BalanceMore(w.calls, Start(h, menu), i);
    }
    hide CountOpen, Balance, Zeros;
  }

  lemma InitializedCounted(w: World, menu: nat, h: nat, items: nat)
    requires Counted(w) && w.vote.curMenu.None?
    ensures Counted(Initialized(w, menu, h, items))
  {
    var u := Initialized(w, menu, h, items);
    forall i: nat | i < items ensures u.vote.votes[i] == CountChoice(u.vote.clientVotes, i) {
      NoChoice(u.vote.clientVotes, i);
    }
    hide CountChoice;
  }

  lemma {:induction false} AskKeeps(w: World, menu: nat, voters: seq<Voter>, time: nat, now: real)
    requires Inv(w, multiset{}) && w.vote.curMenu == Some(menu) && !w.vote.started
    requires forall i :: 0 <= i < |voters| ==> 0 < voters[i].client < |w.players|
    ensures var u := Ask(w, menu, voters, time, now);
            Inv(u, multiset{}) && u.vote.curMenu == Some(menu) && u.vote.handler == w.vote.handler && !u.vote.started
  {
    if voters != [] {
      var x := voters[|voters| - 1];
      AskKeeps(w, menu, voters[..|voters| - 1], time, now);
      var u := Ask(w, menu, voters[..|voters| - 1], time, now);
      DoMenuKeeps(u, x.client, menu, Vote, time, now, x.valid, x.rendered);
      hide Inv, DoMenu;
    }
  }

  lemma StartVotingKeeps(w: World)
    requires Inv(w, multiset{}) && w.vote.curMenu.Some? && w.vote.handler.Some? && !w.vote.started
    ensures Good(StartVoting(w))
    ensures StartVoting(w).vote.curMenu.Some? <==> w.vote.clients > 0
  {
    var h, m := w.vote.handler.value, w.vote.curMenu.value;
    var u := Logged(w.(vote := w.vote.(started := true)), VoteStart(h, m));
    StartedBalanced(w, u, VoteStart(h, m));
    VotesMore(w.calls, VoteStart(h, m));
    hide Balanced, Counted, Watching, Balance, Votes, CountOpen, CountChoice, EndVoting;
    if u.vote.clients == 0 { EndVotingKeeps(u, multiset{}); }
  }

  lemma StartedBalanced(w: World, u: World, c: Call)
    requires Inv(w, multiset{}) && c.VoteStart?
    requires u == Logged(w.(vote := w.vote.(started := true)), c)
    ensures Balanced(u, multiset{}) && Counted(u) && Watching(u)
  {
    forall i: nat ensures Balance(u.calls, i) == Balance(w.calls, i) { BalanceMore(w.calls, c, i); }
    hide CountOpen, Balance, CountChoice, Votes;
  }

  /** A vote starts exactly when none is running; and it is over at once when nobody could be asked. */
  lemma StartVoteKeeps(w: World, menu: nat, h: nat, items: nat, voters: seq<Voter>, time: nat, now: real)
    requires Good(w) && forall i :: 0 <= i < |voters| ==> 0 < voters[i].client < |w.players|
    ensures Good(StartVote(w, menu, h, items, voters, time, now))
  {
    if w.vote.curMenu.None? {
      InitializedKeeps(w, menu, h, items);
      var u := Initialized(w, menu, h, items);
      AskKeeps(u, menu, voters, time, now);
      hide Inv, Initialized, Ask, StartVoting;
      StartVotingKeeps(Ask(u, menu, voters, time, now));
    }
  }

  /** Cancelling a vote ends it. */
  lemma CancelVotingEnds(w: World)
    requires Good(w)
    ensures Good(CancelVoting(w))
    ensures !w.vote.cancelled ==> CancelVoting(w).vote.curMenu.None?
  {
    if !w.vote.cancelled && w.vote.curMenu.Some? {
      var m, v := w.vote.curMenu.value, w.(vote := w.vote.(cancelled := true));
      assert Inv(v, multiset{}) by { assert Balanced(v, multiset{}) && Counted(v) && Running(v) && Watching(v); }
      CancelMenuKeeps(v, m, |v.players|);
      var u := CancelMenu(v, m, |v.players|);
      if u.vote.curMenu.Some? { var c := VoteIsOpen(u); }
      hide Inv, CancelMenu, HasOpen;
    }
  }

  /** A vote that has started is on somebody's screen. */
  lemma VoteIsOpen(w: World) returns (c: nat)
    requires Inv(w, multiset{}) && w.vote.started
    ensures c < |w.players| && HasOpen(w.players[c], Vote) && w.players[c].menu == w.vote.curMenu
  {
    c := SomeOpen(w.players, Vote);
  }

  lemma ForgetVoteKeeps(w: World, c: nat)
    requires Good(w) && c < |w.players|
    ensures Good(ForgetVote(w, c))
  {
    var v := w.vote;
    if v.curMenu.Some? && v.clientVotes[c] >= 0 {
      var item := v.clientVotes[c];
      assert item < v.items && v.votes[item] == CountChoice(v.clientVotes, item);
      ChosenBy(v.clientVotes, c, item);
      forall i: nat ensures CountChoice(v.clientVotes[c := -1], i) == CountChoice(v.clientVotes, i) - One(item == i) {
        ChoiceUpdate(v.clientVotes, c, -1, i);
      }
      hide CountChoice, Balance, CountOpen, Votes;
    }
  }

  // ----- all runs

  datatype Op =
    | Panel(client: nat, h: nat, time: nat, now: real, valid: bool)
    | Menu(client: nat, menu: nat, h: nat, time: nat, now: real, valid: bool, rendered: bool)
    | KeyPress(client: nat, number: nat, key: Key)
    | CancelClient(client: nat)
    | CancelAll(menu: nat)
    | Leave(client: nat)
    | LeaveVote(client: nat)
    | Watch(now: real)
    | Other(clients: seq<nat>, hold: nat)
    | BeginVote(menu: nat, h: nat, items: nat, voters: seq<Voter>, time: nat, now: real)
    | AbandonVote

  /** The clients are players of the game: numbers from 1. */
  ghost predicate Legal(op: Op, n: nat) {
    match op
    case Panel(c, _, _, _, _) => 0 < c < n
    case Menu(c, _, _, _, _, _, _) => 0 < c < n
    case KeyPress(c, _, _) => 0 < c < n
    case CancelClient(c) => 0 < c < n
    case Leave(c) => 0 < c < n
    case LeaveVote(c) => 0 < c < n
    case Other(list, _) => forall i :: 0 <= i < |list| ==> 0 < list[i] < n
    case BeginVote(_, _, _, voters, _, _) => forall i :: 0 <= i < |voters| ==> 0 < voters[i].client < n
    case _ => true
  }

  ghost function Step(w: World, op: Op): World
    requires Legal(op, |w.players|)
  {
    match op
    case Panel(c, h, time, now, valid) => DoPanel(w, c, Plugin(h), time, now, valid)
    case Menu(c, m, h, time, now, valid, rendered) => DoMenu(w, c, m, Plugin(h), time, now, valid, rendered)
    case KeyPress(c, number, key) => Press(w, c, number, key)
    case CancelClient(c) => Interrupt(w, c)
    case CancelAll(m) => CancelMenu(w, m, |w.players|)
    case Leave(c) => Disconnect(w, c)
    case LeaveVote(c) => ForgetVote(w, c)
    case Watch(now) => ProcessWatch(w, w.watch, now)
    case Other(list, hold) => Message(w, list, hold)
    case BeginVote(m, h, items, voters, time, now) => StartVote(w, m, h, items, voters, time, now)
    case AbandonVote => CancelVoting(w)
  }

  lemma StepKeeps(w: World, op: Op)
    requires Good(w) && Legal(op, |w.players|)
    ensures Good(Step(w, op))
  {
    match op {
      case Panel(c, h, time, now, valid) => DoPanelKeeps(w, c, Plugin(h), time, now, valid);
      case Menu(c, m, h, time, now, valid, rendered) => DoMenuKeeps(w, c, m, Plugin(h), time, now, valid, rendered);
      case KeyPress(c, number, key) => PressKeeps(w, c, number, key);
      case CancelClient(c) => InterruptKeeps(w, c, multiset{});
      case CancelAll(m) => CancelMenuKeeps(w, m, |w.players|);
      case Leave(c) => DisconnectKeeps(w, c);
      case LeaveVote(c) => ForgetVoteKeeps(w, c);
      case Watch(now) => WatchedArePlayers(w); ProcessWatchKeeps(w, w.watch, now);
      case Other(list, hold) => MessageKeeps(w, list, hold);
      case BeginVote(m, h, items, voters, time, now) => StartVoteKeeps(w, m, h, items, voters, time, now);
      case AbandonVote => CancelVotingEnds(w);
    }
    hide Inv, DoPanel, DoMenu, Press, Interrupt, CancelMenu, Disconnect, ForgetVote, ProcessWatch, Message, StartVote,
         CancelVoting;
  }

  lemma WatchedArePlayers(w: World)
    requires Good(w)
    ensures forall i :: 0 <= i < |w.watch| ==> w.watch[i] < |w.players|
  {
    forall i | 0 <= i < |w.watch| ensures w.watch[i] < |w.players| { assert w.watch[i] in w.watch; }
  }

  /** The first state: nobody has a menu, and there is no vote. */
  function Initial(n: nat): World {
    World(seq(n, _ => Player(false, false, 0.0, 0, false, None, Plugin(0))), [],
          VoteState(None, 0, 0, [], None, false, false, 0, seq(n, _ => -2)), [], false)
  }

  lemma {:induction false} NobodyHasOpen(players: seq<Player>, h: Handler)
    requires forall c :: 0 <= c < |players| ==> !players[c].inMenu
    ensures CountOpen(players, h) == 0
  {
    if players != [] { NobodyHasOpen(players[..|players| - 1], h); }
  }

  lemma InitialIsGood(n: nat)
    requires 0 < n <= WATCH_SIZE + 1
    ensures Good(Initial(n))
  {
    var w := Initial(n);
    forall h: Handler ensures CountOpen(w.players, h) == 0 { NobodyHasOpen(w.players, h); }
  }

  /** A state that some run leads to, the operations being on players of the game. */
  ghost predicate Reached(w: World, n: nat, ops: seq<Op>)
    decreases |ops|
  {
    if ops == [] then w == Initial(n)
    else
      exists u: World :: Reached(u, n, ops[..|ops| - 1]) && |u.players| == n && Legal(ops[|ops| - 1], n)
        && w == Step(u, ops[|ops| - 1])
  }

  /** Every state of every run is good, with as many players as there were. */
  lemma {:induction false} EveryRunIsGood(w: World, n: nat, ops: seq<Op>)
    requires 0 < n <= WATCH_SIZE + 1 && Reached(w, n, ops)
    ensures Good(w)
    decreases |ops|
  {
    hide Good, Step, Legal;
    if ops == [] {
      InitialIsGood(n);
    } else {
      var u: World :| Reached(u, n, ops[..|ops| - 1]) && |u.players| == n && Legal(ops[|ops| - 1], n)
          && w == Step(u, ops[|ops| - 1]);
      EveryRunIsGood(u, n, ops[..|ops| - 1]);
      StepKeeps(u, ops[|ops| - 1]);
    }
  }

  // ----- what that means

  /** Starts less ends of a plugin's handler are the clients that see a menu of it, and the vote
      that is held with it; the program's assertions hold. */
  lemma CallbacksBalance(w: World, h: nat)
    requires Good(w)
    ensures Balance(w.calls, h) == CountOpen(w.players, Plugin(h)) + One(w.vote.handler == Some(h))
    ensures w.vote.clients == CountOpen(w.players, Vote) && !w.fault
  {
    assert multiset{}[Plugin(h)] == 0 && multiset{}[Vote] == 0;
  }

  /** A vote runs exactly as long as somebody has it open, and each has ended once when it does not run. */
  lemma VoteEndsOnce(w: World)
    requires Good(w)
    ensures w.vote.curMenu.Some? <==> exists c :: 0 <= c < |w.players| && HasOpen(w.players[c], Vote)
    ensures Votes(w.calls) == One(w.vote.curMenu.Some?)
  {
    if w.vote.curMenu.Some? { var c := VoteIsOpen(w); }
  }
}
