/**
 The menu style and the vote handler as the program has them: objects whose methods change
 them in place. Each method does what the function of the same name says of the whole state.
 */
module MenuStyle {
  import opened Common
  import opened FastLinks
  import opened MenuWorld
  import opened MenuInvariants
  import P = Paging

  class VoteMenuHandler {
    var handler: Option<nat>
    var clients: nat
    var items: nat
    var votes: seq<nat>
    var curMenu: Option<nat>
    var started: bool
    var cancelled: bool
    var numVotes: nat
    const clientVotes: array<int>
    /** The calls made to handlers of plugins so far. */
    ghost var calls: seq<Call>
    /** Set where the program asserts something false, or calls a handler that is not there. */
    ghost var fault: bool

    constructor (players: nat)
      ensures fresh(clientVotes) && clientVotes[..] == seq(players, _ => -2) && calls == [] && !fault
      ensures State() == VoteState(None, 0, 0, [], None, false, false, 0, seq(players, _ => -2))
    {
      handler, clients, items, votes, curMenu := None, 0, 0, [], None;
      started, cancelled, numVotes := false, false, 0;
      clientVotes := new int[players](_ => -2);
      calls, fault := [], false;
      new;
      assert clientVotes[..] == seq(players, _ => -2);
    }

    ghost function State(): VoteState
      reads this, clientVotes
    {
      VoteState(handler, clients, items, votes, curMenu, started, cancelled, numVotes, clientVotes[..])
    }

    /** The whole state, the style's part being given. */
    ghost function On(players: seq<Player>, watch: seq<nat>): World
      reads this, clientVotes
    {
      World(players, watch, State(), calls, fault)
    }

    method InternalReset()
      modifies this`handler, this`clients, this`items, this`curMenu, this`started, this`cancelled, this`numVotes
      ensures State() == Reset(old(State()))
    {
      clients, items, started, curMenu, numVotes, cancelled, handler := 0, 0, false, None, 0, false, None;
    }

    method BuildItems() returns (list: seq<ItemVote>, total: nat)
      requires items <= |votes|
      ensures list == Tally(votes, items) && total == Total(list)
    {
      list, total := [], 0;
      for i := 0 to items
        invariant list == Tally(votes, i) && total == Total(list)
      {
        if votes[i] > 0 {
          assert (list + [ItemVote(i, votes[i])])[..|list|] == list;
          list := list + [ItemVote(i, votes[i])];
          total := total + votes[i];
        }
      }
    }

    method BuildClients() returns (list: seq<ClientVote>)
      ensures list == Asked(clientVotes[..], clientVotes.Length)
    {
      list := [];
      if clientVotes.Length == 0 { return; }
      for i := 1 to clientVotes.Length
        invariant list == Asked(clientVotes[..], i)
      {
        if clientVotes[i] >= -1 { list := list + [ClientVote(i, clientVotes[i])]; }
      }
    }

    method EndVoting(ghost players: seq<Player>, ghost watch: seq<nat>)
      modifies this
      ensures On(players, watch) == MenuWorld.EndVoting(old(On(players, watch)))
    {
      if handler.None? || curMenu.None? || items > |votes| {
        // The program has no such state.
        fault := true;
        return;
      }
      var menu, h := curMenu.value, handler.value;
      if cancelled {
        InternalReset();
        calls := calls + [VoteCancel(h, menu, false)];
        calls := calls + [Call.End(h, menu, EndVotingCancelled)];
        return;
      }
      var list, total := BuildItems();
      if total == 0 {
        InternalReset();
        calls := calls + [VoteCancel(h, menu, true)];
        calls := calls + [Call.End(h, menu, EndVotingCancelled)];
        return;
      }
      var asked := BuildClients();
      var result := VoteResult(total, asked, Ranked(list));
      InternalReset();
      calls := calls + [VoteResults(h, menu, result)];
      calls := calls + [Call.End(h, menu, EndVotingDone)];
    }

    method DecrementPlayerCount(ghost players: seq<Player>, ghost watch: seq<nat>)
      modifies this
      ensures On(players, watch) == MenuWorld.DecrementPlayerCount(old(On(players, watch)))
    {
      if clients == 0 {
        fault := true;
        return;
      }
      clients := clients - 1;
      if started && clients == 0 { EndVoting(players, watch); }
    }

    method OnMenuCancel(menu: Option<nat>, client: nat, reason: CancelReason, ghost players: seq<Player>,
                        ghost watch: seq<nat>)
      modifies this`calls, this`fault
      ensures On(players, watch) == OnCancel(old(On(players, watch)), Vote, menu, client, reason)
    {
      if handler.None? { fault := true; } else { calls := calls + [Call.Cancel(handler.value, menu, client, reason)]; }
    }

    method OnMenuDisplay(menu: nat, client: nat, ghost players: seq<Player>, ghost watch: seq<nat>)
      modifies this`calls, this`fault, clientVotes
      ensures On(players, watch) == OnDisplay(old(On(players, watch)), Vote, menu, client)
    {
      if handler.None? || client >= clientVotes.Length {
        fault := true;
        return;
      }
      clientVotes[client] := -1;
      calls := calls + [Call.Display(handler.value, menu, client)];
    }

    method OnMenuSelect(menu: Option<nat>, client: nat, item: nat, ghost players: seq<Player>, ghost watch: seq<nat>)
      modifies this`calls, this`fault, this`votes, this`numVotes, clientVotes
      ensures On(players, watch) == OnSelect(old(On(players, watch)), Vote, menu, client, item)
    {
      if handler.None? || client >= clientVotes.Length || items > |votes| {
        fault := true;
        return;
      }
      if item < items {
        clientVotes[client] := item;
        votes := votes[item := votes[item] + 1];
        numVotes := numVotes + 1;
      }
      calls := calls + [Call.Select(handler.value, menu, client, item)];
    }

    method OnClientDisconnected(client: nat, ghost players: seq<Player>, ghost watch: seq<nat>)
      modifies this`fault, this`votes, clientVotes
      ensures On(players, watch) == ForgetVote(old(On(players, watch)), client)
    {
      if curMenu.None? { return; }
      if client >= clientVotes.Length {
        fault := true;
        return;
      }
      var item := clientVotes[client];
      if item >= 0 {
        if item >= items || item >= |votes| || votes[item] == 0 {
          fault := true;
          return;
        }
        votes := votes[item := votes[item] - 1];
        clientVotes[client] := -1;
      }
    }

    method InitializeVoting(menu: nat, h: nat, count: nat, ghost players: seq<Player>, ghost watch: seq<nat>)
      modifies this, clientVotes
      ensures On(players, watch) == Initialized(old(On(players, watch)), menu, h, count)
    {
      InternalReset();
      var n := clientVotes.Length;
      for i := 0 to n
        invariant forall k :: 0 <= k < i ==> clientVotes[k] == -2
        invariant unchanged(this`votes) && unchanged(this`calls) && unchanged(this`fault)
        invariant clients == 0 && !started && curMenu == None && numVotes == 0 && !cancelled && handler == None
      {
        clientVotes[i] := -2;
      }
      assert clientVotes[..] == seq(n, _ => -2);
      items := count;
      votes := if |votes| < items then Zeros(items) else Zeros(items) + votes[items..];
      curMenu, handler := Some(menu), Some(h);
      calls := calls + [Call.Start(h, menu)];
    }

    method StartVoting(ghost players: seq<Player>, ghost watch: seq<nat>)
      modifies this
      ensures On(players, watch) == MenuWorld.StartVoting(old(On(players, watch)))
    {
      if curMenu.None? || handler.None? { return; }
      started := true;
      calls := calls + [Call.VoteStart(handler.value, curMenu.value)];
      if clients == 0 { EndVoting(players, watch); }
    }
  }

  class BaseMenuStyle {
    const players: array<Player>
    const watchList: FastLink<nat>
    const vote: VoteMenuHandler

    constructor (n: nat)
      requires 0 < n <= WATCH_SIZE + 1
      ensures Valid() && fresh(Repr()) && World() == Initial(n)
    {
      players := new Player[n](_ => Player(false, false, 0.0, 0, false, None, Plugin(0)));
      watchList := new FastLink<nat>(WATCH_SIZE);
      vote := new VoteMenuHandler(n);
      new;
      assert players[..] == seq(n, _ => Player(false, false, 0.0, 0, false, None, Plugin(0)));
    }

    ghost function Repr(): set<object> {
      {players, watchList, watchList.nodes, vote, vote.clientVotes}
    }

    ghost predicate Valid()
      reads Repr()
    {
      watchList.Valid() && watchList.maxSize == WATCH_SIZE
    }

    ghost function World(): World
      requires Valid()
      reads Repr()
    {
      vote.On(players[..], watchList.Contents())
    }

    // Calls to a menu's handler: to the vote's, or to a plugin's, which is recorded.

    method HandlerStart(h: Handler, menu: nat)
      requires Valid()
      modifies vote
      ensures Valid() && World() == OnStart(old(World()), h, menu)
    {
      match h {
        case Plugin(i) => vote.calls := vote.calls + [Call.Start(i, menu)];
        case Vote => vote.clients := vote.clients + 1;
      }
    }

    method HandlerEnd(h: Handler, menu: nat, reason: EndReason)
      requires Valid()
      modifies vote
      ensures Valid() && World() == OnEnd(old(World()), h, menu, reason)
    {
      match h {
        case Plugin(i) => vote.calls := vote.calls + [Call.End(i, menu, reason)];
        case Vote => vote.DecrementPlayerCount(players[..], watchList.Contents());
      }
    }

    method HandlerCancel(h: Handler, menu: Option<nat>, client: nat, reason: CancelReason)
      requires Valid()
      modifies vote
      ensures Valid() && World() == OnCancel(old(World()), h, menu, client, reason)
    {
      match h {
        case Plugin(i) => vote.calls := vote.calls + [Call.Cancel(i, menu, client, reason)];
        case Vote => vote.OnMenuCancel(menu, client, reason, players[..], watchList.Contents());
      }
    }

    method HandlerDisplay(h: Handler, menu: nat, client: nat)
      requires Valid()
      modifies vote, vote.clientVotes
      ensures Valid() && World() == OnDisplay(old(World()), h, menu, client)
    {
      match h {
        case Plugin(i) => vote.calls := vote.calls + [Call.Display(i, menu, client)];
        case Vote => vote.OnMenuDisplay(menu, client, players[..], watchList.Contents());
      }
    }

    method HandlerSelect(h: Handler, menu: Option<nat>, client: nat, item: nat)
      requires Valid()
      modifies vote, vote.clientVotes
      ensures Valid() && World() == OnSelect(old(World()), h, menu, client, item)
    {
      match h {
        case Plugin(i) => vote.calls := vote.calls + [Call.Select(i, menu, client, item)];
        case Vote => vote.OnMenuSelect(menu, client, item, players[..], watchList.Contents());
      }
    }

    // ----- what is on the screens

    method RemoveClientFromWatch(client: nat)
      requires Valid()
      modifies watchList, watchList.nodes
      ensures Valid() && World() == old(World()).(watch := Removed<nat>(old(World()).watch, client))
    {
      watchList.Remove(client);
    }

    method AddClientToWatch(client: nat)
      requires Valid()
      modifies watchList, watchList.nodes
      ensures Valid() && World() == Watched(old(World()), client)
    {
      var ok := watchList.PushBack(client);
    }

    method SetPlayer(client: nat, p: Player)
      requires Valid() && client < players.Length
      modifies players
      ensures Valid() && World() == With(old(World()), client, p)
    {
      players[client] := p;
    }

    /** Takes the menu off the screen. */
    method Close(client: nat)
      requires Valid() && client < players.Length
      modifies players, watchList, watchList.nodes
      ensures Valid() && World() == Closed(old(World()), client)
    {
      var p := players[client];
      SetPlayer(client, p.(inMenu := false));
      if p.holdTime != 0 { RemoveClientFromWatch(client); }
    }

    /** Closes a menu that is open; displays of the handlers to the client are refused on the way,
        if that is asked for. */
    method CancelMenuOf(client: nat, reason: CancelReason, autoIgnore: bool)
      requires Valid() && client < players.Length
      modifies Repr()
      ensures Valid() && World() == CancelOpen(old(World()), client, reason)
    {
      ghost var w := World();
      var oldIgnore := players[client].autoIgnore;
      if autoIgnore { SetPlayer(client, players[client].(autoIgnore := true)); }
      var mh, menu := players[client].mh, players[client].menu;
      Close(client);
      HandlerCancel(mh, menu, client, reason);
      if menu.Some? { HandlerEnd(mh, menu.value, EndCancelled); }
      if autoIgnore { IgnoreIsRestored(w, client, reason, autoIgnore); }
      if autoIgnore { SetPlayer(client, players[client].(autoIgnore := oldIgnore)); }
    }

    method RefuseMenu(client: nat, menu: nat, mh: Handler)
      requires Valid()
      modifies vote
      ensures Valid() && World() == NotShown(old(World()), client, menu, mh)
    {
      HandlerCancel(mh, Some(menu), client, NoDisplay);
      HandlerEnd(mh, menu, EndCancelled);
    }

    /** From here on the client's displays are refused; what it has open is closed. */
    method PrepareMenu(client: nat, menu: nat, mh: Handler)
      requires Valid() && client < players.Length
      modifies Repr()
      ensures Valid() && World() == Prepared(old(World()), client, menu, mh)
    {
      InterruptSize(With(World(), client, players[client].(autoIgnore := true)), client);
      hide Interrupt;
      SetPlayer(client, players[client].(autoIgnore := true));
      InterruptMenu(client);
      SetPlayer(client, players[client].(menu := Some(menu), mh := mh));
    }

    method DrawMenu(client: nat, menu: nat, mh: Handler, time: nat, now: real)
      requires Valid() && client < players.Length
      modifies Repr()
      ensures Valid() && World() == Drawn(old(World()), client, menu, mh, time, now)
    {
      DisplayIgnoresPlayers(World(), players[..], mh, menu, client);
      hide OnDisplay;
      HandlerDisplay(mh, menu, client);
      SetPlayer(client, players[client].(inMenu := true, inExternMenu := false, startTime := now, holdTime := time));
      if time != 0 { AddClientToWatch(client); }
      SetPlayer(client, players[client].(autoIgnore := false));
    }

    /** Shows a menu. `valid`: the client is a player in the game; `rendered`: there are items to show. */
    method DoClientMenu(client: nat, menu: nat, mh: Handler, time: nat, now: real, valid: bool, rendered: bool)
      returns (shown: bool)
      requires Valid() && client < players.Length
      modifies Repr()
      ensures Valid() && World() == DoMenu(old(World()), client, menu, mh, time, now, valid, rendered)
    {
      ghost var w := World();
      DoMenuSteps(w, client, menu, mh, time, now, valid, rendered);
      hide *;
      HandlerStart(mh, menu);
      if !valid || players[client].autoIgnore {
        RefuseMenu(client, menu, mh);
        return false;
      }
      PrepareMenu(client, menu, mh);
      if !rendered {
        SetPlayer(client, players[client].(autoIgnore := false, inMenu := false));
        RefuseMenu(client, menu, mh);
        return false;
      }
      DrawMenu(client, menu, mh, time, now);
      shown := true;
    }

    /** Shows a panel. */
    method DoClientPanel(client: nat, mh: Handler, time: nat, now: real, valid: bool) returns (shown: bool)
      requires Valid() && client < players.Length
      modifies Repr()
      ensures Valid() && World() == DoPanel(old(World()), client, mh, time, now, valid)
    {
      if !valid || players[client].autoIgnore { return false; }
      PanelSteps(World(), client, mh, time, now);
      hide *;
      SetPlayer(client, players[client].(autoIgnore := true));
      InterruptMenu(client);
      DrawPanel(client, mh, time, now);
      shown := true;
    }

    method DrawPanel(client: nat, mh: Handler, time: nat, now: real)
      requires Valid() && client < players.Length
      modifies Repr()
      ensures Valid() && World() == Shown(old(World()), client, None, mh, time, now)
    {
      var p := players[client].(menu := None, mh := mh, inMenu := true, inExternMenu := false, startTime := now,
                                holdTime := time);
      ShownSteps(World(), client, p, mh, time, now);
      hide *;
      SetPlayer(client, p);
      if time != 0 { AddClientToWatch(client); }
      SetPlayer(client, p.(autoIgnore := false));
    }

    /** Draws another page of the menu that is open, if there is one. */
    method RedoClientMenu(client: nat, rendered: bool) returns (shown: bool)
      requires Valid() && client < players.Length && players[client].menu.Some?
      modifies Repr()
      ensures Valid() && shown == rendered
      ensures var w := old(World()); var p := w.players[client];
              World() == if rendered then OnDisplay(With(w, client, p.(autoIgnore := false)), p.mh, p.menu.value,
                                                    client)
                         else With(if p.holdTime != 0 then w.(watch := Removed<nat>(w.watch, client)) else w, client,
                                   p.(autoIgnore := false))
    {
      ghost var w := World();
      var p := players[client];
      RedoSteps(w, client);
      hide *;
      SetPlayer(client, p.(autoIgnore := true));
      if !rendered {
        if p.holdTime != 0 { RemoveClientFromWatch(client); }
        SetPlayer(client, p.(autoIgnore := false));
        return false;
      }
      HandlerDisplay(p.mh, p.menu.value, client);
      SetPlayer(client, p.(autoIgnore := false));
      shown := true;
    }

    /** What the key stands for is in the slots of the page drawn last. */
    method ClientPressedKey(client: nat, number: nat, slots: seq<P.Slot>, max: nat, rendered: bool)
      requires Valid() && client < players.Length && max < |slots|
      modifies Repr()
      ensures Valid() && World() == Press(old(World()), client, number, KeyOf(slots, max, number, rendered))
    {
      hide *;
      ActOnKey(client, number, KeyOf(slots, max, number, rendered));
    }

    method ActOnKey(client: nat, number: nat, key: Key)
      requires Valid() && client < players.Length
      modifies Repr()
      ensures Valid() && World() == Press(old(World()), client, number, key)
    {
      var p := players[client];
      if !p.inMenu { return; }
      hide OnSelect, OnCancel, OnEnd, OnDisplay, Closed, Removed;
      var mh, menu := p.mh, p.menu;
      if menu.None? {
        Close(client);
        HandlerSelect(mh, None, client, number);
        return;
      }
      var reason, end := CancelExit, EndExit;
      match key {
        case ItemKey(i) =>
          Close(client);
          HandlerSelect(mh, menu, client, i);
          HandlerEnd(mh, menu.value, EndSelected);
          return;
        case MoveKey(rendered) =>
          var shown := RedoClientMenu(client, rendered);
          if shown { return; }
          reason, end := NoDisplay, EndCancelled;
        case ExitKey(back) =>
          if back { reason, end := CancelExitBack, EndExitBack; }
        case StrayKey =>
          end := EndSelected;
      }
      Close(client);
      HandlerCancel(mh, menu, client, reason);
      HandlerEnd(mh, menu.value, end);
    }

    lemma PlayersAre()
      requires Valid()
      ensures |World().players| == players.Length
    {}

    /** Closes a menu wherever it is open. */
    method CancelMenu(menu: nat)
      requires Valid()
      modifies Repr()
      ensures Valid() && World() == MenuWorld.CancelMenu(old(World()), menu, players.Length)
    {
      hide *;
      ghost var w := World();
      PlayersAre();
      CancelMenuUnfolds(w, menu, 0);
      var i := 0;
      while i < players.Length
        invariant Valid() && i <= players.Length && World() == MenuWorld.CancelMenu(w, menu, i)
      {
        CancelMenuUnfolds(w, menu, i + 1);
        CancelIfOpen(i, menu);
        i := i + 1;
      }
    }

    method CancelIfOpen(client: nat, menu: nat)
      requires Valid() && client < players.Length
      modifies Repr()
      ensures Valid() && |old(World()).players| == players.Length
      ensures var w := old(World());
              World() == if w.players[client].inMenu && w.players[client].menu == Some(menu)
                         then CancelOpen(w, client, Interrupted) else w
    {
      hide CancelOpen;
      if players[client].inMenu && players[client].menu == Some(menu) { CancelMenuOf(client, Interrupted, false); }
    }

    method OnClientDisconnected(client: nat)
      requires Valid() && client < players.Length
      modifies Repr()
      ensures Valid() && World() == Disconnect(old(World()), client)
    {
      if !players[client].inMenu { return; }
      CloseSize(World(), client, Disconnected);
      hide CancelOpen;
      CancelMenuOf(client, Disconnected, true);
      SetPlayer(client, players[client].(inMenu := false, inExternMenu := false));
    }

    lemma WatchIs()
      requires Valid()
      ensures World().watch == watchList.Contents() && watchList.Valid()
    {}

    /** Closes the menus whose time is over. */
    method ProcessWatchList(now: real)
      requires Valid()
      modifies Repr()
      ensures Valid() && World() == ProcessWatch(old(World()), old(World()).watch, now)
    {
      hide ProcessWatch, CancelOpen, Removed, Valid, World;
      ghost var w := World();
      WatchIs();
      var list := watchList.Copy();
      var i := 0;
      ProcessWatchUnfolds(w, list, 0, now);
      while i < |list|
        invariant Valid() && i <= |list| && World() == ProcessWatch(w, list[..i], now)
      {
        ProcessWatchUnfolds(w, list, i + 1, now);
        WatchStep(list[i], now);
        i := i + 1;
      }
      assert list[..i] == list;
    }

    method WatchStep(client: nat, now: real)
      requires Valid()
      modifies Repr()
      ensures Valid()
      ensures var u := old(World());
              World() == if client >= |u.players| then u.(fault := true)
                         else if !u.players[client].inMenu || u.players[client].holdTime == 0
                                   then u.(watch := Removed<nat>(u.watch, client))
                         else if now > u.players[client].startTime + u.players[client].holdTime as real
                                   then CancelOpen(u, client, Timeout)
                         else u
    {
      hide CancelOpen;
      if client >= players.Length {
        vote.fault := true;
        return;
      }
      var p := players[client];
      if !p.inMenu || p.holdTime == 0 {
        RemoveClientFromWatch(client);
      } else if now > p.startTime + p.holdTime as real {
        CancelMenuOf(client, Timeout, false);
      }
    }

    /** Another program has put its own menu before clients. */
    method OnUserMessageSent(list: seq<nat>, hold: nat)
      requires Valid()
      modifies Repr()
      ensures Valid() && World() == Message(old(World()), list, hold)
    {
      ghost var w := World();
      var i := 0;
      assert list[..0] == [];
      while i < |list|
        invariant Valid() && i <= |list| && World() == Message(w, list[..i], hold)
      {
        assert list[..i + 1][..i] == list[..i];
        MessageStep(list[i], hold);
        i := i + 1;
      }
      assert list[..i] == list;
    }

    method MessageStep(client: nat, hold: nat)
      requires Valid()
      modifies Repr()
      ensures Valid()
      ensures var u := old(World());
              if client >= |u.players| then World() == u.(fault := true)
              else
                var v := Interrupt(u, client);
                && |v.players| == |u.players|
                && World() == With(v, client, v.players[client].(inExternMenu := true, holdTime := hold))
    {
      if client >= players.Length {
        vote.fault := true;
        return;
      }
      InterruptSize(World(), client);
      hide Interrupt;
      InterruptMenu(client);
      SetPlayer(client, players[client].(inExternMenu := true, holdTime := hold));
    }

    /** Asks each client in turn, through the vote's handler. */
    method AskAll(menu: nat, voters: seq<Voter>, time: nat, now: real)
      requires Valid()
      modifies Repr()
      ensures Valid() && World() == Ask(old(World()), menu, voters, time, now)
    {
      ghost var w := World();
      var i := 0;
      assert voters[..0] == [];
      while i < |voters|
        invariant Valid() && i <= |voters| && World() == Ask(w, menu, voters[..i], time, now)
      {
        assert voters[..i + 1][..i] == voters[..i];
        AskStep(menu, voters[i], time, now);
        i := i + 1;
      }
      assert voters[..i] == voters;
    }

    method AskStep(menu: nat, x: Voter, time: nat, now: real)
      requires Valid()
      modifies Repr()
      ensures Valid()
      ensures var u := old(World());
              World() == if x.client >= |u.players| then u.(fault := true)
                         else DoMenu(u, x.client, menu, Vote, time, now, x.valid, x.rendered)
    {
      if x.client >= players.Length {
        vote.fault := true;
        return;
      }
      hide DoMenu;
      var shown := DoClientMenu(x.client, menu, Vote, time, now, x.valid, x.rendered);
    }

    /** Starts a vote on a menu of the handler `h`, unless one is running. */
    method StartVote(menu: nat, h: nat, items: nat, voters: seq<Voter>, time: nat, now: real) returns (ok: bool)
      requires Valid()
      modifies Repr()
      ensures Valid() && ok == old(vote.curMenu).None?
      ensures World() == MenuWorld.StartVote(old(World()), menu, h, items, voters, time, now)
    {
      if vote.curMenu.Some? { return false; }
      hide Initialized, Ask, MenuWorld.StartVoting;
      vote.InitializeVoting(menu, h, items, players[..], watchList.Contents());
      AskAll(menu, voters, time, now);
      vote.StartVoting(players[..], watchList.Contents());
      ok := true;
    }

    method CancelVoting()
      requires Valid()
      modifies Repr()
      ensures Valid() && World() == MenuWorld.CancelVoting(old(World()))
    {
      if vote.cancelled || vote.curMenu.None? { return; }
      hide MenuWorld.CancelMenu;
      vote.cancelled := true;
      CancelMenu(vote.curMenu.value);
    }

    method InterruptMenu(client: nat)
      requires Valid() && client < players.Length
      modifies Repr()
      ensures Valid() && World() == Interrupt(old(World()), client)
    {
      if players[client].inMenu { CancelMenuOf(client, Interrupted, true); }
    }
  }

  /** The handlers do not look at the players. */
  lemma PlayersDoNotMatter(w: World, q: seq<Player>, h: Handler, menu: Option<nat>, m: nat, c: nat,
                           reason: CancelReason, end: EndReason)
    ensures OnCancel(w.(players := q), h, menu, c, reason) == OnCancel(w, h, menu, c, reason).(players := q)
    ensures OnEnd(w.(players := q), h, m, end) == OnEnd(w, h, m, end).(players := q)
  {}

  lemma IgnoreIsRestored(w: World, c: nat, reason: CancelReason, autoIgnore: bool)
    requires c < |w.players| && autoIgnore
    ensures var p := w.players[c];
            var v := With(w, c, p.(autoIgnore := true));
            && |CancelOpen(v, c, reason).players| == |w.players|
            && CancelOpen(v, c, reason).players[c].(autoIgnore := p.autoIgnore) == p.(inMenu := false)
            && With(CancelOpen(v, c, reason), c, p.(inMenu := false)) == CancelOpen(w, c, reason)
  {
    var p := w.players[c];
    var v := With(w, c, p.(autoIgnore := true));
    CloseSize(v, c, reason);
    CloseSize(w, c, reason);
    var x, y := Closed(w, c), Closed(v, c);
    assert y == x.(players := y.players);
    PlayersDoNotMatter(x, y.players, p.mh, p.menu, 0, c, reason, EndCancelled);
    hide OnCancel, OnEnd, Closed;
    var cancelled := OnCancel(x, p.mh, p.menu, c, reason);
    if p.menu.Some? { PlayersDoNotMatter(cancelled, y.players, p.mh, None, p.menu.value, c, reason, EndCancelled); }
  }

  lemma DisplayIgnoresPlayers(w: World, q: seq<Player>, h: Handler, m: nat, c: nat)
    ensures OnDisplay(w.(players := q), h, m, c) == OnDisplay(w, h, m, c).(players := q)
    ensures OnDisplay(w, h, m, c).players == w.players
  {}

  /** A client is interrupted in the same way while displays to it are refused. */
  lemma InterruptIgnoring(w: World, c: nat)
    requires c < |w.players|
    ensures var p, u := w.players[c], Interrupt(w, c);
            && u.players == w.players[c := p.(inMenu := false)]
            && Interrupt(With(w, c, p.(autoIgnore := true)), c) == With(u, c, p.(inMenu := false, autoIgnore := true))
  {
    var p := w.players[c];
    var v := With(w, c, p.(autoIgnore := true));
    if p.inMenu {
      CloseSize(v, c, Interrupted);
      CloseSize(w, c, Interrupted);
      var x, y := Closed(w, c), Closed(v, c);
      assert y == x.(players := y.players);
      PlayersDoNotMatter(x, y.players, p.mh, p.menu, 0, c, Interrupted, EndCancelled);
      hide OnCancel, OnEnd, Closed;
      if p.menu.Some? {
        PlayersDoNotMatter(OnCancel(x, p.mh, p.menu, c, Interrupted), y.players, p.mh, None, p.menu.value, c,
                           Interrupted, EndCancelled);
      }
    } else {
      assert w.players[c := p.(inMenu := false)] == w.players;
      assert v.players[c := p.(inMenu := false, autoIgnore := true)] == v.players;
    }
  }

  lemma PanelSteps(w: World, c: nat, h: Handler, time: nat, now: real)
    requires c < |w.players|
    ensures var u := With(w, c, w.players[c].(autoIgnore := true));
            && |u.players| == |w.players| && |Interrupt(u, c).players| == |w.players|
            && (w.players[c].autoIgnore || Shown(Interrupt(u, c), c, None, h, time, now) ==
                  DoPanel(w, c, h, time, now, true))
  {
    InterruptIgnoring(w, c);
    var u, v := Interrupt(With(w, c, w.players[c].(autoIgnore := true)), c), Interrupt(w, c);
    hide Interrupt;
    assert u.players[c := Player(true, false, now, time, false, None, h)] ==
             v.players[c := Player(true, false, now, time, false, None, h)];
  }

  /** Turning refusals on and off around a change makes no difference to it. */
  lemma RedoSteps(w: World, c: nat)
    requires c < |w.players| && w.players[c].menu.Some?
    ensures var p := w.players[c];
            var on, off := With(w, c, p.(autoIgnore := true)), With(w, c, p.(autoIgnore := false));
            && |on.players| == |w.players|
            && (var u := OnDisplay(on, p.mh, p.menu.value, c);
                |u.players| == |w.players| && With(u, c, p.(autoIgnore := false)) ==
                    OnDisplay(off, p.mh, p.menu.value, c))
            && With(on, c, p.(autoIgnore := false)) == off
            && (var u := on.(watch := Removed<nat>(on.watch, c));
                With(u, c, p.(autoIgnore := false)) ==
                    With(w.(watch := Removed<nat>(w.watch, c)), c, p.(autoIgnore := false)))
  {
    var p := w.players[c];
    var on, off := With(w, c, p.(autoIgnore := true)), With(w, c, p.(autoIgnore := false));
    DisplayIgnoresPlayers(w, on.players, p.mh, p.menu.value, c);
    DisplayIgnoresPlayers(w, off.players, p.mh, p.menu.value, c);
    assert on.players[c := p.(autoIgnore := false)] == off.players;
    hide OnDisplay, Removed;
  }

  lemma ShownSteps(w: World, c: nat, p: Player, h: Handler, time: nat, now: real)
    requires c < |w.players| && p == w.players[c].(menu := None, mh := h, inMenu := true, inExternMenu := false,
                                                   startTime := now, holdTime := time)
    ensures var u := With(w, c, p);
            && |u.players| == |Watched(u, c).players| == |w.players|
            && Shown(w, c, None, h, time, now) ==
                 With(if time != 0 then Watched(u, c) else u, c, p.(autoIgnore := false))
  {
    var u, q := With(w, c, p), p.(autoIgnore := false);
    assert u.players[c := q] == w.players[c := q];
  }

  lemma InterruptSize(w: World, c: nat)
    requires c < |w.players|
    ensures |Interrupt(w, c).players| == |w.players|
  {
    CloseSize(w, c, Interrupted);
  }

  ghost function Prepared(w: World, c: nat, menu: nat, h: Handler): World
    requires c < |w.players|
  {
    var u := With(w, c, w.players[c].(autoIgnore := true));
    InterruptSize(u, c);
    var v := Interrupt(u, c);
    With(v, c, v.players[c].(menu := Some(menu), mh := h))
  }

  ghost function Drawn(w: World, c: nat, menu: nat, h: Handler, time: nat, now: real): World
    requires c < |w.players|
  {
    DisplayIgnoresPlayers(w, w.players, h, menu, c);
    var u := OnDisplay(w, h, menu, c);
    var v := With(u, c, u.players[c].(inMenu := true, inExternMenu := false, startTime := now, holdTime := time));
    var x := if time != 0 then Watched(v, c) else v;
    With(x, c, x.players[c].(autoIgnore := false))
  }

  /** A display, one change after the other. */
  lemma DoMenuSteps(w: World, c: nat, menu: nat, h: Handler, time: nat, now: real, valid: bool, rendered: bool)
    requires c < |w.players|
    ensures var w1 := OnStart(w, h, menu);
            && w1.players == w.players
            && var w4 := Prepared(w1, c, menu, h);
            && |w4.players| == |w.players|
            && DoMenu(w, c, menu, h, time, now, valid, rendered) ==
               if !valid || w1.players[c].autoIgnore then NotShown(w1, c, menu, h)
               else if rendered then Drawn(w4, c, menu, h, time, now)
               else NotShown(With(w4, c, w4.players[c].(autoIgnore := false, inMenu := false)), c, menu, h)
  {
    Sizes(w, c, h, None, menu, Interrupted, EndCancelled, 0);
    var w1 := OnStart(w, h, menu);
    InterruptIgnoring(w1, c);
    var u := Interrupt(w1, c);
    hide OnStart, OnCancel, OnEnd, OnDisplay, Interrupt;
    var w4 := Prepared(w1, c, menu, h);
    DisplayIgnoresPlayers(u, w4.players, h, menu, c);
    assert w4 == u.(players := w4.players);
    assert w4.players == u.players[c := u.players[c].(menu := Some(menu), mh := h, autoIgnore := true)];
    DrawnIsShown(u, w4, c, menu, h, time, now);
    hide Drawn, Shown, Prepared;
    assert With(w4, c, w4.players[c].(autoIgnore := false, inMenu := false))
        == With(u, c, u.players[c].(menu := Some(menu), mh := h, inMenu := false, autoIgnore := false));
  }

  lemma DrawnIsShown(u: World, v: World, c: nat, menu: nat, h: Handler, time: nat, now: real)
    requires c < |u.players| && v == u.(players :=
                                          u.players[c := u.players[c].(menu := Some(menu), mh := h,
                                                                       autoIgnore := true)])
    ensures OnDisplay(u, h, menu, c).players == u.players
    ensures Drawn(v, c, menu, h, time, now) == Shown(OnDisplay(u, h, menu, c), c, Some(menu), h, time, now)
  {
    DisplayIgnoresPlayers(u, v.players, h, menu, c);
    hide OnDisplay;
  }
}
