/**
 What handlers are told by each operation, and what is on the screens after it.

 The operations are functions on the whole state elsewhere; here is said what comes of them, call by
 call, in terms of who hears what.
 */
module MenuTold {
  import opened Common
  import opened FastLinks
  import opened MenuWorld
  import opened MenuInvariants
  import opened VoteTally
  import P = Paging

  // ----- who hears what

  /** The plugin that hears of a menu shown through the handler: through the vote's, that of the vote's menu. */
  function Hearer(v: VoteState, h: Handler): Option<nat> {
    match h
    case Plugin(i) => Some(i)
    case Vote => v.handler
  }

  /** The end of a vote: its results, or that it was cancelled, and then the end of its menu. */
  ghost predicate VoteEndTold(v: VoteState, told: seq<Call>)
    requires v.handler.Some? && v.curMenu.Some?
  {
    var h, m := v.handler.value, v.curMenu.value;
    if v.cancelled then told == [VoteCancel(h, m, false), End(h, m, EndVotingCancelled)]
    else if Voters(v.clientVotes, v.items) == 0 then told == [VoteCancel(h, m, true), End(h, m, EndVotingCancelled)]
    else
      exists r: VoteResult :: Reports(v, r) && told == [VoteResults(h, m, r), End(h, m, EndVotingDone)]
  }

  /** A menu is over. A plugin's handler is told so; of a vote nothing is told until it is over for the last
      client. */
  ghost predicate EndTold(v: VoteState, h: Handler, menu: nat, reason: EndReason, told: seq<Call>) {
    match h
    case Plugin(i) => told == [End(i, menu, reason)]
    case Vote =>
      if v.started && v.clients == 1 then v.handler.Some? && v.curMenu.Some? && VoteEndTold(v, told) else told == []
  }

  lemma OnEndTells(w: World, h: Handler, menu: nat, reason: EndReason, owed: multiset<Handler>)
    returns (told: seq<Call>)
    requires Inv(w, owed + multiset{h})
    ensures OnEnd(w, h, menu, reason).calls == w.calls + told && EndTold(w.vote, h, menu, reason, told)
    ensures OnEnd(w, h, menu, reason).vote.votes == w.vote.votes
            && OnEnd(w, h, menu, reason).vote.clientVotes == w.vote.clientVotes
  {
    if h.Plugin? {
      told := [End(h.id, menu, reason)];
    } else {
      VoteIsOwed(w, owed);
      var u := w.(vote := w.vote.(clients := w.vote.clients - 1));
      EndVotingLeaves(u);
      hide Inv, EndVoting;
      if u.vote.started && u.vote.clients == 0 {
        VoteHas(w, owed);
        EndReports(u);
        told := EndVoting(u).calls[|u.calls|..];
        SameReports(u.vote, w.vote);
        hide Reports, Voters;
      } else {
        told := [];
      }
    }
  }

  lemma VoteIsOwed(w: World, owed: multiset<Handler>)
    requires Inv(w, owed + multiset{Vote})
    ensures w.vote.clients > 0
  {}

  lemma VoteHas(w: World, owed: multiset<Handler>)
    requires Inv(w, owed + multiset{Vote}) && w.vote.started
    ensures w.vote.handler.Some? && w.vote.curMenu.Some? && Counted(w) && 0 < |w.players| <= WATCH_SIZE + 1
    ensures forall v: VoteState :: v == w.vote.(clients := w.vote.clients - 1) ==> Counted(w.(vote := v))
  {
    hide CountChoice, Balance, CountOpen;
  }

  lemma EndVotingLeaves(w: World)
    ensures EndVoting(w).vote.votes == w.vote.votes && EndVoting(w).vote.clientVotes == w.vote.clientVotes
  {
    hide Tally, Total, Asked, Ranked;
  }

  lemma SameReports(v: VoteState, u: VoteState)
    requires u.clientVotes == v.clientVotes && u.items == v.items
    ensures forall r: VoteResult :: Reports(v, r) <==> Reports(u, r)
  {
    hide Voters, CountChoice;
  }

  lemma OnEndScreens(w: World, h: Handler, menu: nat, reason: EndReason)
    ensures OnEnd(w, h, menu, reason).players == w.players
  {
    Sizes(w, 0, h, None, menu, NoDisplay, reason, 0);
    hide OnEnd;
  }

  /** A plugin's handler has been told of the start, and a running vote has one. */
  lemma SomebodyHears(w: World, c: nat)
    requires Good(w) && c < |w.players| && w.players[c].inMenu
    ensures Hearer(w.vote, w.players[c].mh).Some?
    ensures w.players[c].mh.Vote? ==>
              && w.players[c].menu.Some? && w.players[c].menu == w.vote.curMenu
              && w.vote.clientVotes[c] == -1 && |w.vote.clientVotes| == |w.players| && w.vote.items <= |w.vote.votes|
  {
    if w.players[c].mh.Vote? { VoterHasHandler(w, c, multiset{}); }
    hide CountChoice, Balance, CountOpen, Votes;
  }

  // ----- a key

  /** What a key says to the handler of a menu. */
  function KeyTold(h: nat, menu: nat, c: nat, key: Key): Call {
    match key
    case ItemKey(i) => Select(h, Some(menu), c, i)
    case MoveKey(rendered) => if rendered then Display(h, menu, c) else Cancel(h, Some(menu), c, NoDisplay)
    case ExitKey(back) => Cancel(h, Some(menu), c, if back then CancelExitBack else CancelExit)
    case StrayKey => Cancel(h, Some(menu), c, CancelExit)
  }

  /** How the menu ends that the key closes. */
  function KeyEnd(key: Key): EndReason {
    match key
    case ItemKey(_) => EndSelected
    case MoveKey(_) => EndCancelled
    case ExitKey(back) => if back then EndExitBack else EndExit
    case StrayKey => EndSelected
  }

  /** The item the key votes for. */
  predicate VotesFor(w: World, c: nat, key: Key, item: int)
    requires c < |w.players|
  {
    w.players[c].mh.Vote? && key.ItemKey? && key.item == item < w.vote.items
  }

  /** The vote as it is when the menu ends: with what the key chose. */
  predicate Chosen(w: World, c: nat, key: Key, v: VoteState)
    requires c < |w.players| == |w.vote.clientVotes|
  {
    && v.handler == w.vote.handler && v.curMenu == w.vote.curMenu && v.started == w.vote.started
    && v.cancelled == w.vote.cancelled && v.items == w.vote.items && v.clients == w.vote.clients
    && v.clientVotes == (if key.ItemKey? && VotesFor(w, c, key, key.item) then w.vote.clientVotes[c := key.item]
                         else w.vote.clientVotes)
    && |v.votes| == |w.vote.votes|
    && forall x :: 0 <= x < |v.votes| ==> v.votes[x] == w.vote.votes[x] + One(VotesFor(w, c, key, x))
  }

  lemma OnSelectTells(w: World, p: Player, menu: nat, c: nat, item: nat)
    requires c < |w.players| == |w.vote.clientVotes| && w.players[c].mh == p.mh && Hearer(w.vote, p.mh).Some?
    requires w.vote.items <= |w.vote.votes|
    ensures var u := OnSelect(w, p.mh, Some(menu), c, item);
            && u.calls == w.calls + [Select(Hearer(w.vote, p.mh).value, Some(menu), c, item)]
            && Chosen(w, c, ItemKey(item), u.vote) && u.players == w.players
  {}

  lemma ClosedIs(w: World, c: nat)
    requires c < |w.players|
    ensures Closed(w, c).calls == w.calls && Closed(w, c).vote == w.vote
            && Closed(w, c).players == w.players[c := w.players[c].(inMenu := false)]
  {}

  /** A key that selects an item tells the menu's handler of that item, once, and then of the end; in a vote it
      makes the item the client's choice and counts it. The menu is off the screen. */
  lemma ItemKeyTells(w: World, c: nat, number: nat, item: nat) returns (v: VoteState, end: seq<Call>)
    requires Good(w) && c < |w.players| && w.players[c].inMenu && w.players[c].menu.Some?
    ensures |w.vote.clientVotes| == |w.players| && Chosen(w, c, ItemKey(item), v)
    ensures var p, r := w.players[c], Press(w, c, number, ItemKey(item));
            && Hearer(w.vote, p.mh).Some?
            && r.calls == w.calls + [Select(Hearer(w.vote, p.mh).value, p.menu, c, item)] + end
            && EndTold(v, p.mh, p.menu.value, EndSelected, end)
            && r.vote.votes == v.votes && r.vote.clientVotes == v.clientVotes
            && r.players == w.players[c := p.(inMenu := false)]
  {
    var p := w.players[c];
    SomebodyHears(w, c);
    ClosedIs(w, c);
    ClosedKeeps(w, c, multiset{});
    VoteHasHandler(w, multiset{});
    RoomForVotes(w);
    var u := Closed(w, c);
    assert multiset{} + Owing(p) == Owing(p) == multiset{} + multiset{p.mh};
    OnSelectKeeps(u, p.mh, p.menu, c, item, Owing(p)) by { NobodyIsFirst(w, c); VoteRuns(w, c); }
    hide Inv, Closed, OnEnd, OnSelect;
    OnSelectTells(u, p, p.menu.value, c, item);
    var s := OnSelect(u, p.mh, p.menu, c, item);
    v := s.vote;
    end := OnEndTells(s, p.mh, p.menu.value, EndSelected, multiset{});
    OnEndScreens(s, p.mh, p.menu.value, EndSelected);
    PressItem(w, c, number, item);
  }

  lemma PressItem(w: World, c: nat, number: nat, item: nat)
    requires c < |w.players| && w.players[c].inMenu && w.players[c].menu.Some?
    ensures var p := w.players[c];
            Press(w, c, number, ItemKey(item)) ==
            OnEnd(OnSelect(Closed(w, c), p.mh, p.menu, c, item), p.mh, p.menu.value, EndSelected)
  {
    hide OnEnd, OnSelect, Closed;
  }

  lemma NobodyIsFirst(w: World, c: nat)
    requires Good(w) && c < |w.players| && w.players[c].inMenu
    ensures c > 0
  {
    hide Balanced, Counted, Running, Watching;
  }

  lemma VoteRuns(w: World, c: nat)
    requires Good(w) && c < |w.players| && w.players[c].inMenu
    ensures w.players[c].mh.Vote? ==> w.vote.started
  {
    if w.players[c].mh.Vote? { VoterHasHandler(w, c, multiset{}); }
    hide Inv;
  }

  lemma RoomForVotes(w: World)
    requires Good(w)
    ensures w.vote.items <= |w.vote.votes| && |w.vote.clientVotes| == |w.players|
  {
    hide Balanced, Running, Watching, CountChoice;
  }

  /** A key that is no item's closes the menu, or draws another page of it, and says which of these to its handler. */
  lemma OtherKeyTells(w: World, c: nat, number: nat, key: Key) returns (end: seq<Call>)
    requires Good(w) && c < |w.players| && w.players[c].inMenu && w.players[c].menu.Some? && !key.ItemKey?
    ensures var p, r := w.players[c], Press(w, c, number, key);
            && Hearer(w.vote, p.mh).Some?
            && r.calls == w.calls + [KeyTold(Hearer(w.vote, p.mh).value, p.menu.value, c, key)] + end
            && (if key == MoveKey(true) then end == [] else EndTold(w.vote, p.mh, p.menu.value, KeyEnd(key), end))
            && r.vote.votes == w.vote.votes && r.vote.clientVotes == w.vote.clientVotes
            && r.players == w.players[c := p.(inMenu := key == MoveKey(true),
                                              autoIgnore := p.autoIgnore && !key.MoveKey?)]
  {
    var p := w.players[c];
    SomebodyHears(w, c);
    if key == MoveKey(true) {
      MoveTells(w, c, number);
      end := [];
    } else {
      end := LeaveTells(w, c, number, key);
    }
    hide Inv, Press, EndTold;
  }

  lemma MoveTells(w: World, c: nat, number: nat)
    requires Good(w) && c < |w.players| && w.players[c].inMenu && w.players[c].menu.Some?
    ensures var p, r := w.players[c], Press(w, c, number, MoveKey(true));
            && Hearer(w.vote, p.mh).Some? && r.calls == w.calls + [Display(Hearer(w.vote, p.mh).value, p.menu.value, c)]
            && r.vote.votes == w.vote.votes && r.vote.clientVotes == w.vote.clientVotes
            && r.players == w.players[c := p.(autoIgnore := false)]
  {
    SomebodyHears(w, c);
    hide Inv;
    if w.players[c].mh.Vote? { assert w.vote.clientVotes[c := -1] == w.vote.clientVotes; }
  }

  lemma LeaveTells(w: World, c: nat, number: nat, key: Key) returns (end: seq<Call>)
    requires Good(w) && c < |w.players| && w.players[c].inMenu && w.players[c].menu.Some?
    requires key == MoveKey(false) || key.ExitKey? || key.StrayKey?
    ensures var p, r := w.players[c], Press(w, c, number, key);
            && Hearer(w.vote, p.mh).Some?
            && r.calls == w.calls + [KeyTold(Hearer(w.vote, p.mh).value, p.menu.value, c, key)] + end
            && EndTold(w.vote, p.mh, p.menu.value, KeyEnd(key), end)
            && r.vote.votes == w.vote.votes && r.vote.clientVotes == w.vote.clientVotes
            && r.players == w.players[c := p.(inMenu := false, autoIgnore := p.autoIgnore && !key.MoveKey?)]
  {
    hide Inv, OnCancel, OnEnd, Closed, Press, EndTold;
    var p := w.players[c];
    SomebodyHears(w, c);
    ClosedKeeps(w, c, multiset{});
    ClosedTwice(w, c, multiset{});
    PressLeaves(w, c, number, key);
    var u := With(if p.holdTime != 0 then w.(watch := Removed<nat>(w.watch, c)) else w, c, p.(autoIgnore := false));
    ClosedIs(w, c);
    ClosedIs(u, c);
    var v := if key.MoveKey? then Closed(u, c) else Closed(w, c);
    var reason := if key.MoveKey? then NoDisplay else if key == ExitKey(true) then CancelExitBack else CancelExit;
    var h := Hearer(w.vote, p.mh).value;
    assert multiset{} + Owing(p) == multiset{} + multiset{p.mh};
    OnCancelKeeps(v, p.mh, p.menu, c, reason, multiset{} + multiset{p.mh});
    OnCancelTells(v, p.mh, p.menu, c, reason);
    var o := OnCancel(v, p.mh, p.menu, c, reason);
    end := OnEndTells(o, p.mh, p.menu.value, KeyEnd(key), multiset{});
    OnEndScreens(o, p.mh, p.menu.value, KeyEnd(key));
  }

  lemma OnCancelTells(w: World, h: Handler, menu: Option<nat>, c: nat, reason: CancelReason)
    requires Hearer(w.vote, h).Some?
    ensures var u := OnCancel(w, h, menu, c, reason);
            && u.calls == w.calls + [Cancel(Hearer(w.vote, h).value, menu, c, reason)]
            && u.vote == w.vote && u.players == w.players
  {}

  /** On a panel every key is an item, and there is no menu to end. */
  lemma PanelKeyTells(w: World, c: nat, number: nat, key: Key)
    requires Good(w) && c < |w.players| && w.players[c].inMenu && w.players[c].menu.None?
    ensures var p, r := w.players[c], Press(w, c, number, key);
            && p.mh.Plugin? && r.calls == w.calls + [Select(p.mh.id, None, c, number)] && r.vote == w.vote
            && r.players == w.players[c := p.(inMenu := false)]
  {
    SomebodyHears(w, c);
    ClosedIs(w, c);
    hide Inv;
  }

  // ----- the keys of a page

  /** On a page that shows items from `first` on, key j is the j-th of them; the keys behind them turn the page,
      leave, or do nothing but close the menu. On page k of size p the j-th item is number kp+j-1. (The tenth key
      of a page without an exit button is left over from before.) */
  lemma KeysOfPage(was: seq<P.Slot>, slots: seq<P.Slot>, v: P.View, k: nat, total: nat, pgn: nat, style: P.Style,
                   exitButton: bool, exitBack: bool, j: nat, rendered: bool)
    requires P.SlotsShow(was, slots, v, style, exitButton, exitBack) && P.OnPage(v, k, total, pgn)
    requires exitButton || j != 10
    ensures var max := style.MaxPageItems();
            KeyOf(slots, max, j, rendered) ==
            if j < 1 || j > max then StrayKey
            else if j <= v.count then ItemKey(k * pgn + j - 1)
            else if j == max - 2 then (if v.prev then MoveKey(rendered) else ExitKey(exitBack))
            else if j == max - 1 && v.next then MoveKey(rendered)
            else ExitKey(false)
  {}

  // ----- displays

  function StartTold(h: Handler, menu: nat): seq<Call> {
    match h
    case Plugin(i) => [Start(i, menu)]
    case Vote => []
  }

  lemma HeardBy(w: World, c: nat, owed: multiset<Handler>)
    requires Inv(w, owed) && c < |w.players| && w.players[c].inMenu
    ensures Hearer(w.vote, w.players[c].mh).Some?
  {
    if w.players[c].mh.Vote? { VoterHasHandler(w, c, owed); }
    hide Inv;
  }

  /** A menu or panel that is cancelled: its handler is told why, and of the end if it is a menu. */
  lemma CancelTells(w: World, c: nat, reason: CancelReason, owed: multiset<Handler>) returns (end: seq<Call>)
    requires Inv(w, owed) && c < |w.players| && w.players[c].inMenu
    ensures var p, r := w.players[c], CancelOpen(w, c, reason);
            && Hearer(w.vote, p.mh).Some?
            && r.calls == w.calls + [Cancel(Hearer(w.vote, p.mh).value, p.menu, c, reason)] + end
            && (if p.menu.None? then end == [] else EndTold(w.vote, p.mh, p.menu.value, EndCancelled, end))
            && r.players == w.players[c := p.(inMenu := false)]
            && r.vote.votes == w.vote.votes && r.vote.clientVotes == w.vote.clientVotes
  {
    hide Inv, OnCancel, OnEnd, Closed, EndTold;
    var p := w.players[c];
    HeardBy(w, c, owed);
    ClosedIs(w, c);
    ClosedKeeps(w, c, owed);
    var v := Closed(w, c);
    if p.mh.Vote? { VoterHasHandler(w, c, owed); }
    OnCancelKeeps(v, p.mh, p.menu, c, reason, owed + Owing(p));
    OnCancelTells(v, p.mh, p.menu, c, reason);
    if p.menu.Some? {
      var o := OnCancel(v, p.mh, p.menu, c, reason);
      end := OnEndTells(o, p.mh, p.menu.value, EndCancelled, owed);
      OnEndScreens(o, p.mh, p.menu.value, EndCancelled);
    } else {
      end := [];
    }
  }

  /** What an interrupted client's old menu is told, if it has one. */
  ghost predicate InterruptTold(w: World, c: nat, told: seq<Call>)
    requires c < |w.players|
  {
    var p := w.players[c];
    if !p.inMenu then told == []
    else
      && Hearer(w.vote, p.mh).Some? && told != []
      && told[0] == Cancel(Hearer(w.vote, p.mh).value, p.menu, c, Interrupted)
      && if p.menu.None? then told[1..] == [] else EndTold(w.vote, p.mh, p.menu.value, EndCancelled, told[1..])
  }

  lemma InterruptTells(w: World, c: nat, owed: multiset<Handler>) returns (told: seq<Call>)
    requires Inv(w, owed) && c < |w.players|
    ensures Interrupt(w, c).calls == w.calls + told && InterruptTold(w, c, told)
    ensures Interrupt(w, c).players == w.players[c := w.players[c].(inMenu := false)]
  {
    hide Inv, CancelOpen, EndTold;
    var p := w.players[c];
    if p.inMenu {
      var end := CancelTells(w, c, Interrupted, owed);
      told := [Cancel(Hearer(w.vote, p.mh).value, p.menu, c, Interrupted)] + end;
    } else {
      told := [];
      assert p.(inMenu := false) == p;
    }
  }

  /** A display that comes to nothing: how the handler is told. */
  function RefusedTold(i: nat, h: Handler, c: nat, menu: nat): seq<Call> {
    [Cancel(i, Some(menu), c, NoDisplay)] + if h.Plugin? then [End(i, menu, EndCancelled)] else []
  }

  lemma NotShownTells(w: World, c: nat, menu: nat, h: Handler)
    requires Hearer(w.vote, h).Some? && (h.Vote? ==> !w.vote.started && w.vote.clients > 0)
    ensures NotShown(w, c, menu, h).calls == w.calls + RefusedTold(Hearer(w.vote, h).value, h, c, menu)
    ensures NotShown(w, c, menu, h).players == w.players
  {}

  lemma StartTells(w: World, h: Handler, menu: nat)
    ensures var u := OnStart(w, h, menu);
            && u.calls == w.calls + StartTold(h, menu) && u.players == w.players
            && u.vote == w.vote.(clients := w.vote.clients + if h.Vote? then 1 else 0)
  {}

  /** Showing a menu: its handler is told of the start; then, if the client may be shown something, what it saw
      before is interrupted; then the handler is told of the display, or that there is none and it is over. After
      that the client sees the menu, from now on and for the time given, or nothing new. */
  lemma DisplayTells(w: World, c: nat, menu: nat, h: Handler, time: nat, now: real, valid: bool, rendered: bool)
    returns (cut: seq<Call>)
    requires Inv(w, multiset{}) && 0 < c < |w.players|
    requires h.Vote? ==> w.vote.curMenu == Some(menu) && !w.vote.started
    ensures var p, r := w.players[c], DoMenu(w, c, menu, h, time, now, valid, rendered);
            var free := valid && !p.autoIgnore;
            && Hearer(w.vote, h).Some?
            && (if free then InterruptTold(OnStart(w, h, menu), c, cut) else cut == [])
            && r.calls == w.calls + StartTold(h, menu) + cut +
               (if free && rendered then [Display(Hearer(w.vote, h).value, menu, c)]
                else RefusedTold(Hearer(w.vote, h).value, h, c, menu))
            && r.players == w.players[c :=
                 if !free then p
                 else if rendered then Player(true, false, now, time, false, Some(menu), h)
                 else p.(inMenu := false, autoIgnore := false, menu := Some(menu), mh := h)]
  {
    hide Inv, OnStart, OnDisplay, Interrupt, NotShown, Shown, InterruptTold;
    var p, s, one := w.players[c], OnStart(w, h, menu), multiset{h};
    VoteHasHandler(w, multiset{});
    OnStartKeeps(w, h, menu, multiset{});
    StartTells(w, h, menu);
    assert multiset{} + one == one;
    if !valid || p.autoIgnore {
      cut := [];
      NotShownTells(s, c, menu, h);
    } else {
      cut := InterruptTells(s, c, one);
      InterruptKeeps(s, c, one);
      var u := Interrupt(s, c);
      StillHeard(w, s, u, h, one);
      if rendered {
        VoteHasHandler(u, one);
        OnDisplayTells(u, h, menu, c);
        ShownIs(OnDisplay(u, h, menu, c), c, Some(menu), h, time, now);
      } else {
        NotShownTells(With(u, c, u.players[c].(menu := Some(menu), mh := h, inMenu := false, autoIgnore := false)), c,
                      menu, h);
      }
    }
  }

  lemma StillHeard(w: World, s: World, u: World, h: Handler, owed: multiset<Handler>)
    requires Hearer(w.vote, h).Some? && s.vote.handler == w.vote.handler && s.vote.started == w.vote.started
    requires Onward(s, u) && Inv(u, owed) && owed == multiset{h} && (h.Vote? ==> !w.vote.started)
    ensures Hearer(u.vote, h) == Hearer(w.vote, h) && (h.Vote? ==> !u.vote.started && u.vote.clients > 0)
  {
    hide Counted, Running, Watching, Balance;
  }

  lemma OnDisplayTells(w: World, h: Handler, menu: nat, c: nat)
    requires Hearer(w.vote, h).Some? && c < |w.vote.clientVotes|
    ensures var u := OnDisplay(w, h, menu, c);
            && u.calls == w.calls + [Display(Hearer(w.vote, h).value, menu, c)] && u.players == w.players
            && u.vote.clientVotes == if h.Vote? then w.vote.clientVotes[c := -1] else w.vote.clientVotes
  {}

  lemma ShownIs(w: World, c: nat, menu: Option<nat>, h: Handler, time: nat, now: real)
    requires c < |w.players|
    ensures var u := Shown(w, c, menu, h, time, now);
            && u.calls == w.calls && u.vote == w.vote
            && u.players == w.players[c := Player(true, false, now, time, false, menu, h)]
  {}

  /** Showing a panel interrupts what was there before; nobody is told of the panel. */
  lemma PanelShown(w: World, c: nat, h: Handler, time: nat, now: real, valid: bool) returns (cut: seq<Call>)
    requires Inv(w, multiset{}) && 0 < c < |w.players|
    ensures var p, r := w.players[c], DoPanel(w, c, h, time, now, valid);
            if !valid || p.autoIgnore then r == w
            else && InterruptTold(w, c, cut) && r.calls == w.calls + cut
                 && r.players == w.players[c := Player(true, false, now, time, false, None, h)]
  {
    hide Inv, Interrupt, Shown, InterruptTold;
    cut := InterruptTells(w, c, multiset{});
    ShownIs(Interrupt(w, c), c, None, h, time, now);
  }

  // ----- closing many

  /** How often a client's menu was cancelled for a reason. */
  function Cancels(calls: seq<Call>, c: nat, reason: CancelReason): nat {
    if calls == [] then 0
    else
      var last := calls[|calls| - 1];
      Cancels(calls[..|calls| - 1], c, reason) + One(last.Cancel? && last.client == c && last.reason == reason)
  }

  lemma {:induction false} CancelsTwo(a: seq<Call>, b: seq<Call>, c: nat, reason: CancelReason)
    ensures Cancels(a + b, c, reason) == Cancels(a, c, reason) + Cancels(b, c, reason)
  {
    if b == [] {
      assert a + b == a;
    } else {
      var front := b[..|b| - 1];
      CancelsTwo(a, front, c, reason);
      assert (a + b)[..|a + b| - 1] == a + front;
    }
  }

  lemma EndCancelsNothing(v: VoteState, h: Handler, menu: nat, reason: EndReason, told: seq<Call>, c: nat,
                          why: CancelReason)
    requires EndTold(v, h, menu, reason, told)
    ensures Cancels(told, c, why) == 0
  {
    hide Reports, Voters;
    assert forall k :: 0 <= k < |told| ==> !told[k].Cancel?;
    NoCancels(told, c, why);
  }

  lemma {:induction false} NoCancels(told: seq<Call>, c: nat, why: CancelReason)
    requires forall k :: 0 <= k < |told| ==> !told[k].Cancel?
    ensures Cancels(told, c, why) == 0
  {
    if told != [] { NoCancels(told[..|told| - 1], c, why); }
  }

  /** From `w` to `u` the menus of those in `gone` were closed, each cancelled once, for this reason; nobody
      else's was touched. */
  ghost predicate ClosedFor(w: World, u: World, gone: set<nat>, reason: CancelReason) {
    && |u.players| == |w.players|
    && (forall c: nat :: c in gone ==> c < |w.players| && w.players[c].inMenu)
    && (forall c: nat :: c < |w.players| ==>
          u.players[c] == if c in gone then w.players[c].(inMenu := false) else w.players[c])
    && forall c: nat, r: CancelReason ::
         Cancels(u.calls, c, r) == Cancels(w.calls, c, r) + One(c in gone && r == reason)
  }

  lemma CancelCloses(w: World, c: nat, reason: CancelReason, owed: multiset<Handler>)
    requires Inv(w, owed) && c < |w.players| && w.players[c].inMenu
    ensures ClosedFor(w, CancelOpen(w, c, reason), {c}, reason)
  {
    hide Inv, CancelOpen, EndTold;
    var end := CancelTells(w, c, reason, owed);
    var p, u := w.players[c], CancelOpen(w, c, reason);
    var one := Cancel(Hearer(w.vote, p.mh).value, p.menu, c, reason);
    forall d: nat, r: CancelReason
      ensures Cancels(u.calls, d, r) == Cancels(w.calls, d, r) + One(d in {c} && r == reason)
    {
      if p.menu.Some? { EndCancelsNothing(w.vote, p.mh, p.menu.value, EndCancelled, end, d, r); }
      CancelsTwo(w.calls + [one], end, d, r);
      CancelsTwo(w.calls, [one], d, r);
      assert [one][..0] == [];
    }
  }

  lemma ClosedOn(w: World, m: World, u: World, gone: set<nat>, more: set<nat>, reason: CancelReason)
    requires ClosedFor(w, m, gone, reason) && ClosedFor(m, u, more, reason)
    ensures ClosedFor(w, u, gone + more, reason)
  {
    forall c: nat | c in more ensures c < |w.players| && w.players[c].inMenu && c !in gone {
      assert m.players[c].inMenu;
    }
    hide Cancels;
  }

  lemma ClosedNone(w: World, u: World, reason: CancelReason)
    requires u.players == w.players && u.calls == w.calls
    ensures ClosedFor(w, u, {}, reason)
  {
    hide Cancels;
  }

  /** Its time is over. */
  predicate Over(p: Player, now: real) {
    p.inMenu && p.holdTime != 0 && now > p.startTime + p.holdTime as real
  }

  /** Of the clients below `n` in the list, those whose time is over. */
  ghost function Late(players: seq<Player>, list: seq<nat>, now: real): set<nat> {
    set c | c in list && c < |players| && Over(players[c], now)
  }

  lemma {:induction false} WatchCloses(w: World, list: seq<nat>, now: real)
    requires Good(w) && Distinct(list) && forall i :: 0 <= i < |list| ==> list[i] < |w.players|
    ensures ClosedFor(w, ProcessWatch(w, list, now), Late(w.players, list, now), Timeout)
  {
    hide Inv, CancelOpen, Cancels;
    if list == [] {
      ClosedNone(w, w, Timeout);
      assert Late(w.players, list, now) == {};
    } else {
      var front, c := list[..|list| - 1], list[|list| - 1];
      ProcessWatchKeeps(w, front, now);
      WatchCloses(w, front, now);
      var u, v := ProcessWatch(w, front, now), ProcessWatch(w, list, now);
      assert c !in Late(w.players, front, now);
      var p := u.players[c];
      assert p == w.players[c];
      var more := if Over(p, now) then {c} else {};
      if Over(p, now) { CancelCloses(u, c, Timeout, multiset{}); } else { ClosedNone(u, v, Timeout); }
      ClosedOn(w, u, v, Late(w.players, front, now), more, Timeout);
      assert Late(w.players, list, now) == Late(w.players, front, now) + more by { LateMore(w.players, list, now); }
    }
  }

  lemma LateMore(players: seq<Player>, list: seq<nat>, now: real)
    requires list != []
    ensures var front, c := list[..|list| - 1], list[|list| - 1];
            Late(players, list, now) ==
            Late(players, front, now) + if c < |players| && Over(players[c], now) then {c} else {}
  {
    assert list == list[..|list| - 1] + [list[|list| - 1]];
  }

  /** The pass over the list of those watched closes exactly the menus whose time is over, on every screen, each with
      the reason `Timeout`. */
  lemma TimeIsUp(w: World, now: real)
    requires Good(w)
    ensures ClosedFor(w, ProcessWatch(w, w.watch, now), (set c: nat | c < |w.players| && Over(w.players[c], now)),
                      Timeout)
  {
    hide ProcessWatch, ClosedFor, Balanced, Counted, Running;
    WatchedArePlayers(w);
    WatchCloses(w, w.watch, now);
    assert Late(w.players, w.watch, now) == set c: nat | c < |w.players| && Over(w.players[c], now);
  }

  ghost function Seeing(players: seq<Player>, menu: nat, n: nat): set<nat> {
    set c: nat | c < n && c < |players| && players[c].inMenu && players[c].menu == Some(menu)
  }

  /** Cancelling a menu closes it on every screen it is on, and nothing else. */
  lemma {:induction false} CancelMenuCloses(w: World, menu: nat, n: nat)
    requires Inv(w, multiset{}) && n <= |w.players|
    ensures ClosedFor(w, CancelMenu(w, menu, n), Seeing(w.players, menu, n), Interrupted)
    decreases n
  {
    hide Inv, CancelOpen, Cancels;
    if n == 0 {
      ClosedNone(w, w, Interrupted);
      assert Seeing(w.players, menu, n) == {};
    } else {
      var c := n - 1;
      CancelMenuKeeps(w, menu, c);
      CancelMenuCloses(w, menu, c);
      var u, v := CancelMenu(w, menu, c), CancelMenu(w, menu, n);
      assert u.players[c] == w.players[c];
      var sees := w.players[c].inMenu && w.players[c].menu == Some(menu);
      var more: set<nat> := if sees then {c} else {};
      if sees { CancelCloses(u, c, Interrupted, multiset{}); } else { ClosedNone(u, v, Interrupted); }
      ClosedOn(w, u, v, Seeing(w.players, menu, c), more, Interrupted);
      assert Seeing(w.players, menu, n) == Seeing(w.players, menu, c) + more;
    }
  }

  /** A client that leaves loses what it sees, and nobody else does. */
  lemma DisconnectCloses(w: World, c: nat)
    requires Good(w) && c < |w.players|
    ensures ClosedFor(w, Disconnect(w, c).(players := w.players[c := w.players[c].(inMenu := false)]),
                      if w.players[c].inMenu then {c} else {}, Disconnected)
    ensures Disconnect(w, c).players ==
            w.players[c := if w.players[c].inMenu then w.players[c].(inMenu := false, inExternMenu := false)
                           else w.players[c]]
  {
    hide Inv, CancelOpen, Cancels;
    if w.players[c].inMenu {
      CancelCloses(w, c, Disconnected, multiset{});
      CloseSize(w, c, Disconnected);
    } else {
      assert w.players[c].(inMenu := false) == w.players[c] && w.players[c := w.players[c]] == w.players;
      ClosedNone(w, w, Disconnected);
    }
  }

  // ----- who is asked in a vote

  /** Of the first `n` voters, one is this client, can be shown a menu and gets one. */
  predicate IsAsked(w: World, voters: seq<Voter>, c: nat) {
    exists k :: 0 <= k < |voters| && voters[k].client == c && voters[k].valid && voters[k].rendered
                && c < |w.players| && !w.players[c].autoIgnore
  }

  /** A vote that begins records who is asked: those of its clients that the menu could be shown to. */
  lemma {:induction false} VoteAsks(w: World, menu: nat, voters: seq<Voter>, time: nat, now: real)
    requires Inv(w, multiset{}) && w.vote.curMenu == Some(menu) && !w.vote.started
    requires forall i :: 0 <= i < |voters| ==> 0 < voters[i].client < |w.players|
    ensures var u := Ask(w, menu, voters, time, now);
            && |u.players| == |w.players| == |u.vote.clientVotes| == |w.vote.clientVotes|
            && (forall c: nat :: c < |w.players| ==> u.players[c].autoIgnore == w.players[c].autoIgnore)
            && forall c: nat :: c < |w.players| ==>
                 u.vote.clientVotes[c] == if IsAsked(w, voters, c) then -1 else w.vote.clientVotes[c]
  {
    hide Inv, DoMenu;
    VoteHasHandler(w, multiset{});
    if voters != [] {
      var front, x := voters[..|voters| - 1], voters[|voters| - 1];
      VoteAsks(w, menu, front, time, now);
      AskKeeps(w, menu, front, time, now);
      var u, v := Ask(w, menu, front, time, now), Ask(w, menu, voters, time, now);
      var cut := DisplayTells(u, x.client, menu, Vote, time, now, x.valid, x.rendered);
      DisplayAsks(u, x.client, menu, time, now, x.valid, x.rendered);
      forall c: nat | c < |w.players|
        ensures IsAsked(w, voters, c) <==>
                IsAsked(w, front, c) || (x.client == c && x.valid && x.rendered && !w.players[c].autoIgnore)
      {
        AskedMore(w, voters, c);
      }
    }
  }

  lemma AskedMore(w: World, voters: seq<Voter>, c: nat)
    requires voters != [] && c < |w.players|
    ensures var front, x := voters[..|voters| - 1], voters[|voters| - 1];
            IsAsked(w, voters, c) <==>
            IsAsked(w, front, c) || (x.client == c && x.valid && x.rendered && !w.players[c].autoIgnore)
  {
    var front := voters[..|voters| - 1];
    if IsAsked(w, front, c) {
      var k :| 0 <= k < |front| && front[k].client == c && front[k].valid && front[k].rendered;
      assert voters[k] == front[k];
    }
  }

  lemma DisplayAsks(w: World, c: nat, menu: nat, time: nat, now: real, valid: bool, rendered: bool)
    requires Inv(w, multiset{}) && 0 < c < |w.players| && w.vote.curMenu == Some(menu) && !w.vote.started
    ensures DoMenu(w, c, menu, Vote, time, now, valid, rendered).vote.clientVotes ==
            if valid && rendered && !w.players[c].autoIgnore then w.vote.clientVotes[c := -1] else w.vote.clientVotes
  {
    hide Inv, OnStart, OnDisplay, Interrupt, NotShown, Shown;
    var s, one := OnStart(w, Vote, menu), multiset{Vote};
    VoteHasHandler(w, multiset{});
    OnStartKeeps(w, Vote, menu, multiset{});
    StartTells(w, Vote, menu);
    assert multiset{} + one == one;
    if !valid || w.players[c].autoIgnore {
      NotShownLeaves(s, c, menu);
    } else {
      var told := InterruptTells(s, c, one);
      InterruptKeeps(s, c, one);
      InterruptLeaves(s, c, one);
      var u := Interrupt(s, c);
      VoteHasHandler(u, one);
      if rendered {
        OnDisplayTells(u, Vote, menu, c);
        ShownIs(OnDisplay(u, Vote, menu, c), c, Some(menu), Vote, time, now);
      } else {
        NotShownLeaves(With(u, c, u.players[c].(menu := Some(menu), mh := Vote, inMenu := false, autoIgnore := false)),
                       c,
                       menu);
      }
    }
  }

  lemma NotShownLeaves(w: World, c: nat, menu: nat)
    ensures NotShown(w, c, menu, Vote).vote.clientVotes == w.vote.clientVotes
  {
    EndVotingLeaves(w.(vote := w.vote.(clients := if w.vote.clients == 0 then 0 else w.vote.clients - 1)));
    hide EndVoting;
    var v := OnCancel(w, Vote, Some(menu), c, NoDisplay);
    if v.vote.clients > 0 { EndVotingLeaves(v.(vote := v.vote.(clients := v.vote.clients - 1))); }
  }

  lemma InterruptLeaves(w: World, c: nat, owed: multiset<Handler>)
    requires Inv(w, owed) && c < |w.players|
    ensures Interrupt(w, c).vote.clientVotes == w.vote.clientVotes
  {
    hide Inv, CancelOpen, EndTold;
    if w.players[c].inMenu { var end := CancelTells(w, c, Interrupted, owed); }
  }

  /** A vote that begins tells its handler of the menu, shows it to the clients, and then says that the vote has
      started; it is over at once if nobody has it open. Everybody asked is recorded as not having voted,
      everybody else as not asked. */
  lemma VoteBegins(w: World, menu: nat, h: nat, items: nat, voters: seq<Voter>, time: nat, now: real)
    returns (shown: seq<Call>, end: seq<Call>)
    requires Good(w) && w.vote.curMenu.None? && forall i :: 0 <= i < |voters| ==> 0 < voters[i].client < |w.players|
    ensures var r := StartVote(w, menu, h, items, voters, time, now);
            && r.calls == w.calls + [Start(h, menu)] + shown + [VoteStart(h, menu)] + end
            && (if r.vote.curMenu.Some? then end == []
                else end == [VoteCancel(h, menu, true), End(h, menu, EndVotingCancelled)])
            && (r.vote.curMenu.Some? ==>
                  && r.vote.curMenu == Some(menu) && r.vote.handler == Some(h) && r.vote.items == items
                  && r.vote.started && !r.vote.cancelled)
            && |r.vote.clientVotes| == |w.players|
            && forall c: nat :: c < |w.players| ==> r.vote.clientVotes[c] == if IsAsked(w, voters, c) then -1 else -2
  {
    hide Inv, Ask, IsAsked, EndVoting, Zeros;
    var u := Initialized(w, menu, h, items);
    InitializedKeeps(w, menu, h, items);
    VoteAsks(u, menu, voters, time, now);
    AskKeeps(u, menu, voters, time, now);
    NobodyAsked(w, menu, h, items);
    SameAsked(w, u, voters);
    shown := AskGrows(u, menu, voters, time, now);
    var v := Ask(u, menu, voters, time, now);
    end := VotingStarts(v, menu, h);
  }

  lemma NobodyAsked(w: World, menu: nat, h: nat, items: nat)
    requires Good(w)
    ensures var u := Initialized(w, menu, h, items);
            && |u.vote.clientVotes| == |w.players| && u.calls == w.calls + [Start(h, menu)]
            && forall c: nat :: c < |w.players| ==> u.vote.clientVotes[c] == -2
  {
    VoteHasHandler(w, multiset{});
    hide Inv, Zeros;
  }

  lemma SameAsked(w: World, u: World, voters: seq<Voter>)
    requires u.players == w.players
    ensures forall c: nat :: IsAsked(u, voters, c) == IsAsked(w, voters, c)
  {}

  lemma {:induction false} AskGrows(w: World, menu: nat, voters: seq<Voter>, time: nat, now: real)
    returns (told: seq<Call>)
    requires Inv(w, multiset{}) && w.vote.curMenu == Some(menu) && !w.vote.started
    requires forall i :: 0 <= i < |voters| ==> 0 < voters[i].client < |w.players|
    ensures Ask(w, menu, voters, time, now).calls == w.calls + told
    ensures Ask(w, menu, voters, time, now).vote.cancelled == w.vote.cancelled
    ensures Ask(w, menu, voters, time, now).vote.items == w.vote.items
  {
    hide Inv, DoMenu;
    if voters == [] {
      told := [];
    } else {
      var front, x := voters[..|voters| - 1], voters[|voters| - 1];
      told := AskGrows(w, menu, front, time, now);
      AskKeeps(w, menu, front, time, now);
      VoteAsks(w, menu, front, time, now);
      var u := Ask(w, menu, front, time, now);
      var cut := DisplayTells(u, x.client, menu, Vote, time, now, x.valid, x.rendered);
      DoMenuKeeps(u, x.client, menu, Vote, time, now, x.valid, x.rendered);
      told := Ask(w, menu, voters, time, now).calls[|w.calls|..];
    }
  }

  lemma VotingStarts(w: World, menu: nat, h: nat) returns (end: seq<Call>)
    requires Inv(w, multiset{}) && w.vote.curMenu == Some(menu) && w.vote.handler == Some(h) && !w.vote.started
    requires !w.vote.cancelled
    ensures var r := StartVoting(w);
            && r.calls == w.calls + [VoteStart(h, menu)] + end && r.vote.clientVotes == w.vote.clientVotes
            && if r.vote.curMenu.Some? then end == []
               else end == [VoteCancel(h, menu, true), End(h, menu, EndVotingCancelled)]
    ensures StartVoting(w).vote.curMenu.Some? ==> StartVoting(w).vote == w.vote.(started := true)
  {
    StartVotingKeeps(w);
    var u := Logged(w.(vote := w.vote.(started := true)), VoteStart(h, menu));
    CountedOf(w);
    EndVotingLeaves(u);
    hide Inv, EndVoting;
    if u.vote.clients == 0 {
      EndReports(u);
      NobodyVoted(w);
      end := [VoteCancel(h, menu, true), End(h, menu, EndVotingCancelled)];
    } else {
      end := [];
    }
    hide Reports, Voters;
  }

  lemma CountedOf(w: World)
    requires Inv(w, multiset{})
    ensures !w.vote.started && w.vote.curMenu.Some? ==>
              forall u: World :: u.players == w.players && u.vote == w.vote.(started := true) ==> Counted(u)
    ensures 0 < |w.players| <= WATCH_SIZE + 1
  {
    hide CountChoice, Balance, CountOpen, Votes;
  }

  lemma NobodyVoted(w: World)
    requires Inv(w, multiset{}) && w.vote.curMenu.Some? && !w.vote.started
    ensures Voters(w.vote.clientVotes, w.vote.items) == 0
  {
    VoteHasHandler(w, multiset{});
    NoneChose(w.vote.clientVotes, w.vote.items);
  }

  lemma {:induction false} NoneChose(votes: seq<int>, items: nat)
    requires forall c :: 0 <= c < |votes| ==> votes[c] < 0
    ensures Voters(votes, items) == 0
  {
    if votes != [] { NoneChose(votes[..|votes| - 1], items); }
  }

  lemma MessageStep(w: World, c: nat, hold: nat)
    requires Good(w) && c < |w.players|
    ensures var p, v := w.players[c], Interrupt(w, c);
            && v.players == w.players[c := p.(inMenu := false)]
            && forall d: nat, r: CancelReason ::
                 Cancels(v.calls, d, r) == Cancels(w.calls, d, r) + One(d == c && p.inMenu && r == Interrupted)
  {
    hide Inv, CancelOpen, Cancels;
    InterruptKeeps(w, c, multiset{});
    if w.players[c].inMenu { CancelCloses(w, c, Interrupted, multiset{}); }
  }

  lemma MessageUnfolds(w: World, list: seq<nat>, hold: nat)
    requires list != []
    ensures var u, c := Message(w, list[..|list| - 1], hold), list[|list| - 1];
            c < |u.players| ==>
              && |Interrupt(u, c).players| == |u.players|
              && Message(w, list, hold) ==
                 With(Interrupt(u, c), c, Interrupt(u, c).players[c].(inExternMenu := true, holdTime := hold))
  {
    var u, c := Message(w, list[..|list| - 1], hold), list[|list| - 1];
    if c < |u.players| { CloseSize(u, c, Interrupted); }
    hide CancelOpen;
  }

  /** Another program's menu takes the screens of those it is shown to, for the time it says. */
  lemma {:induction false} MessageTakes(w: World, list: seq<nat>, hold: nat)
    requires Good(w) && forall i :: 0 <= i < |list| ==> list[i] < |w.players|
    ensures var u := Message(w, list, hold);
            && (forall c: nat :: c < |w.players| ==>
                  u.players[c] == if c in list then w.players[c].(inMenu := false, inExternMenu := true,
                                                                  holdTime := hold)
                                  else w.players[c])
            && forall c: nat, r: CancelReason ::
                 Cancels(u.calls, c, r) ==
                 Cancels(w.calls, c, r) + One(c in list && w.players[c].inMenu && r == Interrupted)
  {
    if list != [] {
      var front, c := list[..|list| - 1], list[|list| - 1];
      MessageKeeps(w, front, hold);
      MessageTakes(w, front, hold);
      var u := Message(w, front, hold);
      assert list == front + [c];
      MessageStep(u, c, hold);
      MessageUnfolds(w, list, hold);
      hide Inv, Cancels, Interrupt, Message;
    }
  }

  // ----- the end of a vote

  /** A client that leaves takes its choice back: it counts as asked but not voted, and its item has one vote less. */
  lemma ForgetTakesBack(w: World, c: nat)
    requires Good(w) && c < |w.players|
    ensures |w.vote.clientVotes| == |w.players|
    ensures var r := ForgetVote(w, c);
            var chose := w.vote.curMenu.Some? && w.vote.clientVotes[c] >= 0;
            && r.players == w.players && r.calls == w.calls && |r.vote.votes| == |w.vote.votes|
            && r.vote.clientVotes == (if chose then w.vote.clientVotes[c := -1] else w.vote.clientVotes)
            && forall x :: 0 <= x < |w.vote.votes| ==>
                 r.vote.votes[x] == w.vote.votes[x] - One(chose && x == w.vote.clientVotes[c])
  {
    RoomForVotes(w);
    ForgetVoteKeeps(w, c);
    NoFault(ForgetVote(w, c));
    hide Inv;
  }

  lemma NoFault(w: World)
    requires Good(w)
    ensures !w.fault
  {
    hide Balanced, Counted, Running, Watching;
  }

  /** None of the calls reports a vote, but for one that was cancelled. */
  predicate NoReports(calls: seq<Call>) {
    forall k :: 0 <= k < |calls| ==> !calls[k].VoteResults? && (calls[k].VoteCancel? ==> !calls[k].noVotes)
  }

  /** A vote that is running has been cancelled, or it is over. */
  predicate Abandoned(w: World) {
    w.vote.curMenu.Some? ==> w.vote.cancelled
  }

  lemma CancelAbandons(w: World, c: nat, reason: CancelReason) returns (told: seq<Call>)
    requires Inv(w, multiset{}) && c < |w.players| && w.players[c].inMenu && Abandoned(w)
    ensures var u := CancelOpen(w, c, reason);
            u.calls == w.calls + told && NoReports(told) && Abandoned(u)
  {
    hide Inv, CancelOpen;
    var end := CancelTells(w, c, reason, multiset{});
    CancelOpenKeeps(w, c, reason, multiset{});
    var p := w.players[c];
    told := [Cancel(Hearer(w.vote, p.mh).value, p.menu, c, reason)] + end;
    StillVoting(w, CancelOpen(w, c, reason));
  }

  lemma StillVoting(w: World, u: World)
    requires Inv(w, multiset{}) && Inv(u, multiset{}) && Onward(w, u) && Abandoned(w)
    ensures Abandoned(u)
  {
    hide Inv;
  }

  lemma {:induction false} CancelMenuAbandons(w: World, menu: nat, n: nat) returns (told: seq<Call>)
    requires Inv(w, multiset{}) && n <= |w.players| && Abandoned(w)
    ensures var u := CancelMenu(w, menu, n);
            u.calls == w.calls + told && NoReports(told) && Abandoned(u) && Inv(u, multiset{})
    decreases n
  {
    hide Inv, CancelOpen, NoReports, CancelMenu, Abandoned;
    CancelMenuUnfolds(w, menu, n);
    CancelMenuKeeps(w, menu, n);
    if n == 0 {
      told := [];
      ReportsJoin([], []);
    } else {
      told := CancelMenuAbandons(w, menu, n - 1);
      CancelMenuKeeps(w, menu, n - 1);
      var u := CancelMenu(w, menu, n - 1);
      if u.players[n - 1].inMenu && u.players[n - 1].menu == Some(menu) {
        var more := CancelAbandons(u, n - 1, Interrupted);
        ReportsJoin(told, more);
        told := told + more;
      }
    }
  }

  lemma ReportsJoin(a: seq<Call>, b: seq<Call>)
    ensures NoReports(a) && NoReports(b) ==> NoReports(a + b)
    ensures NoReports([])
  {}

  /** Cancelling a vote ends it without a result: its handler is told that it was cancelled, once. */
  lemma CancelVotingTells(w: World) returns (told: seq<Call>)
    requires Good(w) && w.vote.curMenu.Some? && !w.vote.cancelled
    ensures var r := CancelVoting(w);
            && r.vote.curMenu.None? && r.calls == w.calls + told && NoReports(told)
            && Votes(w.calls) == 1 && Votes(r.calls) == 0
  {
    var v := w.(vote := w.vote.(cancelled := true));
    CancelVotingEnds(w);
    VoteEndsOnce(w);
    VoteEndsOnce(CancelVoting(w));
    CancelledInv(w);
    hide Inv, CancelMenu, Votes;
    told := CancelMenuAbandons(v, w.vote.curMenu.value, |v.players|);
  }

  lemma CancelledInv(w: World)
    requires Good(w) && w.vote.curMenu.Some?
    ensures Inv(w.(vote := w.vote.(cancelled := true)), multiset{})
  {
    var v := w.(vote := w.vote.(cancelled := true));
    assert Balanced(v, multiset{}) && Counted(v) && Running(v) && Watching(v);
  }
}
