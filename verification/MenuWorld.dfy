/**
 Menus on the clients' screens, the callbacks their handlers get, and the vote that is run
 through them: what every operation does, as functions on the whole state.

 A menu has a handler. Each display starts with `OnMenuStart` and ends with `OnMenuEnd`, however
 it ends; a vote is shown through a handler of its own that counts those calls, and passes the
 rest on to the menu's handler. Handlers of plugins are recorded calls that do nothing more.
 */
module MenuWorld {
  import opened Common
  import opened FastLinks
  import P = Paging

  datatype Handler = Plugin(id: nat) | Vote

  datatype EndReason = EndSelected | EndVotingDone | EndVotingCancelled | EndCancelled | EndExit | EndExitBack

  datatype CancelReason = Disconnected | Interrupted | CancelExit | NoDisplay | Timeout | CancelExitBack

  datatype ItemVote = ItemVote(item: nat, count: nat)

  datatype ClientVote = ClientVote(client: nat, item: int)

  datatype VoteResult = VoteResult(numVotes: nat, clients: seq<ClientVote>, items: seq<ItemVote>)

  /** A call to the handler of a plugin. */
  datatype Call =
    | Start(h: nat, menu: nat)
    | End(h: nat, menu: nat, end: EndReason)
    | Cancel(h: nat, on: Option<nat>, client: nat, reason: CancelReason)
    | Select(h: nat, on: Option<nat>, client: nat, item: nat)
    | Display(h: nat, menu: nat, client: nat)
    | VoteStart(h: nat, menu: nat)
    | VoteCancel(h: nat, menu: nat, noVotes: bool)
    | VoteResults(h: nat, menu: nat, result: VoteResult)

  /** A client's menu. Panels have a handler, but no menu. */
  datatype Player = Player(inMenu: bool, autoIgnore: bool, startTime: real, holdTime: nat, inExternMenu: bool,
                           menu: Option<nat>, mh: Handler)

  /** The vote handler. A recorded vote is an item, -1 (not voted) or -2 (not asked). */
  datatype VoteState = VoteState(handler: Option<nat>, clients: nat, items: nat, votes: seq<nat>, curMenu: Option<nat>,
                                 started: bool, cancelled: bool, numVotes: nat, clientVotes: seq<int>)

  /** `fault` is set where the program asserts something that does not hold, or calls a handler
      that is not there. */
  datatype World = World(players: seq<Player>, watch: seq<nat>, vote: VoteState, calls: seq<Call>, fault: bool)

  const WATCH_SIZE := 256

  function Logged(w: World, c: Call): World { w.(calls := w.calls + [c]) }

  // ----- the end of a vote

  function Reset(v: VoteState): VoteState {
    v.(handler := None, clients := 0, items := 0, curMenu := None, started := false, cancelled := false, numVotes := 0)
  }

  /** The items voted for, in order. */
  function Tally(votes: seq<nat>, items: nat): seq<ItemVote>
    requires items <= |votes|
  {
    if items == 0 then []
    else Tally(votes, items - 1) + (if votes[items - 1] > 0 then [ItemVote(items - 1, votes[items - 1])] else [])
  }

  function Total(list: seq<ItemVote>): nat {
    if list == [] then 0 else Total(list[..|list| - 1]) + list[|list| - 1].count
  }

  function Insert(x: ItemVote, list: seq<ItemVote>): seq<ItemVote> {
    if list == [] then [x] else if x.count >= list[0].count then [x] + list else [list[0]] + Insert(x, list[1..])
  }

  /** The items by votes, most first. (Among equals the library's sort may put any first.) */
  function Ranked(list: seq<ItemVote>): seq<ItemVote> {
    if list == [] then [] else Insert(list[0], Ranked(list[1..]))
  }

  /** The clients that were asked, and what they chose. */
  function Asked(votes: seq<int>, n: nat): seq<ClientVote>
    requires n <= |votes|
  {
    if n <= 1 then [] else Asked(votes, n - 1) + (if votes[n - 1] >= -1 then [ClientVote(n - 1, votes[n - 1])] else [])
  }

  function EndVoting(w: World): World {
    match (w.vote.handler, w.vote.curMenu)
    case (Some(h), Some(m)) =>
      var u := w.(vote := Reset(w.vote));
      if w.vote.items > |w.vote.votes| then w.(fault := true) else
      var list := Tally(w.vote.votes, w.vote.items);
      if w.vote.cancelled then Logged(Logged(u, VoteCancel(h, m, false)), End(h, m, EndVotingCancelled))
      else if Total(list) == 0 then Logged(Logged(u, VoteCancel(h, m, true)), End(h, m, EndVotingCancelled))
      else
        var result := VoteResult(Total(list), Asked(w.vote.clientVotes, |w.vote.clientVotes|), Ranked(list));
        Logged(Logged(u, VoteResults(h, m, result)), End(h, m, EndVotingDone))
    case _ => w.(fault := true)
  }

  function DecrementPlayerCount(w: World): World {
    if w.vote.clients == 0 then w.(fault := true)
    else
      var u := w.(vote := w.vote.(clients := w.vote.clients - 1));
      if u.vote.started && u.vote.clients == 0 then EndVoting(u) else u
  }

  // ----- calls to a handler

  function OnStart(w: World, h: Handler, menu: nat): World {
    match h
    case Plugin(i) => Logged(w, Start(i, menu))
    case Vote => w.(vote := w.vote.(clients := w.vote.clients + 1))
  }

  function OnEnd(w: World, h: Handler, menu: nat, reason: EndReason): World {
    match h
    case Plugin(i) => Logged(w, End(i, menu, reason))
    case Vote => DecrementPlayerCount(w)
  }

  function OnCancel(w: World, h: Handler, menu: Option<nat>, client: nat, reason: CancelReason): World {
    match h
    case Plugin(i) => Logged(w, Cancel(i, menu, client, reason))
    case Vote =>
      match w.vote.handler
      case None => w.(fault := true)
      case Some(i) => Logged(w, Cancel(i, menu, client, reason))
  }

  function OnDisplay(w: World, h: Handler, menu: nat, client: nat): World {
    match h
    case Plugin(i) => Logged(w, Display(i, menu, client))
    case Vote =>
      match w.vote.handler
      case None => w.(fault := true)
      case Some(i) =>
        if client >= |w.vote.clientVotes| then w.(fault := true)
        else Logged(w.(vote := w.vote.(clientVotes := w.vote.clientVotes[client := -1])), Display(i, menu, client))
  }

  function OnSelect(w: World, h: Handler, menu: Option<nat>, client: nat, item: nat): World {
    match h
    case Plugin(i) => Logged(w, Select(i, menu, client, item))
    case Vote =>
      match w.vote.handler
      case None => w.(fault := true)
      case Some(i) =>
        if client >= |w.vote.clientVotes| || w.vote.items > |w.vote.votes| then w.(fault := true)
        else Logged(w.(vote := Recorded(w.vote, client, item)), Select(i, menu, client, item))
  }

  function Recorded(v: VoteState, client: nat, item: nat): VoteState
    requires client < |v.clientVotes| && v.items <= |v.votes|
  {
    if item < v.items then
      v.(clientVotes := v.clientVotes[client := item], votes := v.votes[item := v.votes[item] + 1],
         numVotes := v.numVotes + 1)
    else v
  }

  // ----- menus

  function Watched(w: World, c: nat): World {
    if |w.watch| < WATCH_SIZE then w.(watch := w.watch + [c]) else w
  }

  function With(w: World, c: nat, p: Player): World
    requires c < |w.players|
  {
    w.(players := w.players[c := p])
  }

  /** Takes the menu off the screen, and off the list of those with a time limit. */
  function Closed(w: World, c: nat): World
    requires c < |w.players|
  {
    var u := With(w, c, w.players[c].(inMenu := false));
    if w.players[c].holdTime != 0 then u.(watch := Removed<nat>(u.watch, c)) else u
  }

  /** `_CancelClientMenu`. */
  function CancelOpen(w: World, c: nat, reason: CancelReason): World
    requires c < |w.players|
  {
    var p := w.players[c];
    var u := OnCancel(Closed(w, c), p.mh, p.menu, c, reason);
    if p.menu.Some? then OnEnd(u, p.mh, p.menu.value, EndCancelled) else u
  }

  function Interrupt(w: World, c: nat): World
    requires c < |w.players|
  {
    if w.players[c].inMenu then CancelOpen(w, c, Interrupted) else w
  }

  lemma Sizes(w: World, c: nat, h: Handler, menu: Option<nat>, m: nat, reason: CancelReason, end: EndReason, item: nat)
    ensures OnStart(w, h, m).players == w.players && OnEnd(w, h, m, end).players == w.players
    ensures OnCancel(w, h, menu, c, reason).players == w.players && OnDisplay(w, h, m, c).players == w.players
    ensures OnSelect(w, h, menu, c, item).players == w.players
    ensures c < |w.players| ==> CancelOpen(w, c, reason).players == w.players[c := w.players[c].(inMenu := false)]
  {
    hide OnEnd, Removed;
    EndSize(w, h, m, end);
    if c < |w.players| {
      var p := w.players[c];
      var u := OnCancel(Closed(w, c), p.mh, p.menu, c, reason);
      if p.menu.Some? { EndSize(u, p.mh, p.menu.value, EndCancelled); }
    }
  }

  lemma EndSize(w: World, h: Handler, m: nat, end: EndReason)
    ensures OnEnd(w, h, m, end).players == w.players
  {
    hide Tally, Total, Asked, Ranked, Reset;
  }

  lemma CloseSize(w: World, c: nat, reason: CancelReason)
    requires c < |w.players|
    ensures CancelOpen(w, c, reason).players == w.players[c := w.players[c].(inMenu := false)]
  {
    Sizes(w, c, Vote, None, 0, reason, EndCancelled, 0);
    hide *;
  }

  /** The client now sees something, for `time` seconds (or without limit). */
  function Shown(w: World, c: nat, menu: Option<nat>, h: Handler, time: nat, now: real): World
    requires c < |w.players|
  {
    var u := With(w, c, Player(true, false, now, time, false, menu, h));
    if time != 0 then Watched(u, c) else u
  }

  /** Shows a panel. `valid`: the client is a player in the game. */
  function DoPanel(w: World, c: nat, h: Handler, time: nat, now: real, valid: bool): World
    requires c < |w.players|
  {
    if !valid || w.players[c].autoIgnore then w
    else
      Sizes(w, c, h, None, 0, Interrupted, EndCancelled, 0);
      Shown(Interrupt(w, c), c, None, h, time, now)
  }

  function NotShown(w: World, c: nat, menu: nat, h: Handler): World {
    OnEnd(OnCancel(w, h, Some(menu), c, NoDisplay), h, menu, EndCancelled)
  }

  /** Shows a menu. `rendered`: there is something in it to show. */
  function DoMenu(w: World, c: nat, menu: nat, h: Handler, time: nat, now: real, valid: bool, rendered: bool): World
    requires c < |w.players|
  {
    var started := OnStart(w, h, menu);
    Sizes(w, c, h, None, menu, Interrupted, EndCancelled, 0);
    if !valid || w.players[c].autoIgnore then NotShown(started, c, menu, h)
    else
      Sizes(started, c, h, None, menu, Interrupted, EndCancelled, 0);
      var u := Interrupt(started, c);
      Sizes(u, c, h, None, menu, Interrupted, EndCancelled, 0);
      if rendered then Shown(OnDisplay(u, h, menu, c), c, Some(menu), h, time, now)
      else NotShown(With(u, c, u.players[c].(menu := Some(menu), mh := h, inMenu := false, autoIgnore := false)), c,
                    menu, h)
  }

  /** What a key stands for on a page: an item, another page (which can be drawn or not), the way out,
      or nothing, being below 1 or above the highest key a page has. */
  datatype Key = ItemKey(item: nat) | MoveKey(rendered: bool) | ExitKey(back: bool) | StrayKey

  /** What the key of this number stands for, from the slots of the page drawn last. `rendered`: there is something to
      draw on the page it leads to. */
  function KeyOf(slots: seq<P.Slot>, max: nat, number: nat, rendered: bool): Key
    requires max < |slots|
  {
    if number < 1 || number > max then StrayKey
    else
      match slots[number].kind
      case SelBack => MoveKey(rendered)
      case SelNext => MoveKey(rendered)
      case SelExit => ExitKey(false)
      case SelNone => ExitKey(false)
      case SelExitBack => ExitKey(true)
      case SelItem => ItemKey(slots[number].item)
  }

  /** What pressing the key of this number does to a menu that is open; on a panel the number is the
      item. A stray key cancels the menu, which then ends as if something had been selected. */
  function Press(w: World, c: nat, number: nat, key: Key): World
    requires c < |w.players|
  {
    var p := w.players[c];
    if !p.inMenu then w
    else if p.menu.None? then
      OnSelect(Closed(w, c), p.mh, None, c, number)
    else
      match key
      case MoveKey(true) => OnDisplay(With(w, c, p.(autoIgnore := false)), p.mh, p.menu.value, c)
      case MoveKey(false) =>
        var u := With(if p.holdTime != 0 then w.(watch := Removed<nat>(w.watch, c)) else w, c, p.(autoIgnore := false));
        OnEnd(OnCancel(Closed(u, c), p.mh, p.menu, c, NoDisplay), p.mh, p.menu.value, EndCancelled)
      case ExitKey(back) =>
        OnEnd(OnCancel(Closed(w, c), p.mh, p.menu, c, if back then CancelExitBack else CancelExit), p.mh, p.menu.value,
              if back then EndExitBack else EndExit)
      case StrayKey =>
        OnEnd(OnCancel(Closed(w, c), p.mh, p.menu, c, CancelExit), p.mh, p.menu.value, EndSelected)
      case ItemKey(i) =>
        OnEnd(OnSelect(Closed(w, c), p.mh, p.menu, c, i), p.mh, p.menu.value, EndSelected)
  }

  /** Cancels a menu for the clients below `n`. */
  function CancelMenu(w: World, menu: nat, n: nat): (u: World)
    requires n <= |w.players|
    ensures |u.players| == |w.players|
  {
    if n == 0 then w
    else
      var u := CancelMenu(w, menu, n - 1);
      CloseSize(u, n - 1, Interrupted);
      if u.players[n - 1].inMenu && u.players[n - 1].menu == Some(menu) then CancelOpen(u, n - 1, Interrupted) else u
  }

  function Disconnect(w: World, c: nat): World
    requires c < |w.players|
  {
    if !w.players[c].inMenu then w
    else
      CloseSize(w, c, Disconnected);
      var u := CancelOpen(w, c, Disconnected);
      With(u, c, u.players[c].(inMenu := false, inExternMenu := false))
  }

  /** Closes the menus of those in `list` whose time is over. */
  function ProcessWatch(w: World, list: seq<nat>, now: real): (u: World)
    ensures |u.players| == |w.players|
  {
    if list == [] then w
    else
      var u := ProcessWatch(w, list[..|list| - 1], now);
      var c := list[|list| - 1];
      if c >= |u.players| then u.(fault := true)
      else
        CloseSize(u, c, Timeout);
        var p := u.players[c];
        if !p.inMenu || p.holdTime == 0 then u.(watch := Removed<nat>(u.watch, c))
        else if now > p.startTime + p.holdTime as real then CancelOpen(u, c, Timeout)
        else u
  }

  /** Another program shows its own menu to `list`. */
  function Message(w: World, list: seq<nat>, hold: nat): (u: World)
    ensures |u.players| == |w.players|
  {
    if list == [] then w
    else
      var u := Message(w, list[..|list| - 1], hold);
      var c := list[|list| - 1];
      if c >= |u.players| then u.(fault := true)
      else
        CloseSize(u, c, Interrupted);
        var v := Interrupt(u, c);
        With(v, c, v.players[c].(inExternMenu := true, holdTime := hold))
  }

  // ----- votes

  function Zeros(n: nat): (s: seq<nat>)
    ensures |s| == n && forall i :: 0 <= i < n ==> s[i] == 0
  {
    seq(n, _ => 0)
  }

  /** A vote begins: nobody has been asked. Old counts beyond its items stay. */
  function Initialized(w: World, menu: nat, h: nat, items: nat): World {
    var v := Reset(w.vote);
    var votes := if |v.votes| < items then Zeros(items) else Zeros(items) + v.votes[items..];
    Logged(w.(vote := v.(clientVotes := seq(|v.clientVotes|, _ => -2), items := items, votes := votes,
                         curMenu := Some(menu), handler := Some(h))), Start(h, menu))
  }

  /** A client to be asked, and whether the menu can be shown to it. */
  datatype Voter = Voter(client: nat, valid: bool, rendered: bool)

  function Ask(w: World, menu: nat, voters: seq<Voter>, time: nat, now: real): (u: World)
    ensures |u.players| == |w.players|
  {
    if voters == [] then w
    else
      var u := Ask(w, menu, voters[..|voters| - 1], time, now);
      var x := voters[|voters| - 1];
      if x.client >= |u.players| then u.(fault := true)
      else
        DoMenuSize(u, x.client, menu, Vote, time, now, x.valid, x.rendered);
        DoMenu(u, x.client, menu, Vote, time, now, x.valid, x.rendered)
  }

  lemma DoMenuSize(w: World, c: nat, menu: nat, h: Handler, time: nat, now: real, valid: bool, rendered: bool)
    requires c < |w.players|
    ensures |DoMenu(w, c, menu, h, time, now, valid, rendered).players| == |w.players|
  {
    var started := OnStart(w, h, menu);
    Sizes(w, c, h, Some(menu), menu, NoDisplay, EndCancelled, 0);
    Sizes(started, c, h, Some(menu), menu, NoDisplay, EndCancelled, 0);
    var u := Interrupt(started, c);
    Sizes(started, c, h, Some(menu), menu, Interrupted, EndCancelled, 0);
    Sizes(u, c, h, Some(menu), menu, NoDisplay, EndCancelled, 0);
    var v := With(u, c, u.players[c].(menu := Some(menu), mh := h, inMenu := false, autoIgnore := false));
    Sizes(v, c, h, Some(menu), menu, NoDisplay, EndCancelled, 0);
    hide OnStart, OnEnd, OnCancel, OnDisplay, Interrupt, CancelOpen;
    Sizes(OnCancel(v, h, Some(menu), c, NoDisplay), c, h, Some(menu), menu, NoDisplay, EndCancelled, 0);
    Sizes(OnCancel(started, h, Some(menu), c, NoDisplay), c, h, Some(menu), menu, NoDisplay, EndCancelled, 0);
  }

  function StartVoting(w: World): World {
    match (w.vote.handler, w.vote.curMenu)
    case (Some(h), Some(m)) =>
      var u := Logged(w.(vote := w.vote.(started := true)), VoteStart(h, m));
      if u.vote.clients == 0 then EndVoting(u) else u
    case _ => w
  }

  function StartVote(w: World, menu: nat, h: nat, items: nat, voters: seq<Voter>, time: nat, now: real): World {
    if w.vote.curMenu.Some? then w
    else StartVoting(Ask(Initialized(w, menu, h, items), menu, voters, time, now))
  }

  function CancelVoting(w: World): World {
    if w.vote.cancelled || w.vote.curMenu.None? then w
    else CancelMenu(w.(vote := w.vote.(cancelled := true)), w.vote.curMenu.value, |w.players|)
  }

  /** The vote forgets a client that has left. */
  function ForgetVote(w: World, c: nat): World {
    var v := w.vote;
    if v.curMenu.None? then w
    else if c >= |v.clientVotes| then w.(fault := true)
    else if v.clientVotes[c] < 0 then w
    else
      var item := v.clientVotes[c];
      if item >= v.items || item >= |v.votes| || v.votes[item] == 0 then w.(fault := true)
      else w.(vote := v.(votes := v.votes[item := v.votes[item] - 1], clientVotes := v.clientVotes[c := -1]))
  }
}
