/**
 What a vote reports: every item voted for with its votes, most first, and every client asked.
 */
module VoteTally {
  import opened Common
  import opened MenuWorld
  import opened MenuInvariants

  // ----- the list of items

  ghost predicate Descending(list: seq<ItemVote>) {
    forall i, j :: 0 <= i < j < |list| ==> list[i].count >= list[j].count
  }

  lemma {:induction false} InsertRanks(x: ItemVote, list: seq<ItemVote>)
    requires Descending(list)
    ensures Descending(Insert(x, list)) && multiset(Insert(x, list)) == multiset(list) + multiset{x}
  {
    if list == [] {
    } else if x.count >= list[0].count {
      assert multiset([x] + list) == multiset([x]) + multiset(list);
    } else {
      var t := Insert(x, list[1..]);
      InsertRanks(x, list[1..]);
      assert list == [list[0]] + list[1..];
      assert multiset(list) == multiset{list[0]} + multiset(list[1..]);
      forall k | 0 <= k < |t| ensures list[0].count >= t[k].count {
        assert t[k] in multiset(t);
        assert t[k] == x || t[k] in multiset(list[1..]);
      }
    }
  }

  /** The list reported is the list counted, most votes first. */
  lemma {:induction false} RankedIsSorted(list: seq<ItemVote>)
    ensures Descending(Ranked(list)) && multiset(Ranked(list)) == multiset(list)
  {
    if list != [] {
      RankedIsSorted(list[1..]);
      InsertRanks(list[0], Ranked(list[1..]));
      assert list == [list[0]] + list[1..];
    }
  }

  /** An item with its votes is counted once, and nothing else is. */
  ghost function Share(votes: seq<nat>, items: nat, x: ItemVote): nat
    requires items <= |votes|
  {
    One(x.item < items && x.count > 0 && x.count == votes[x.item])
  }

  function Added(votes: seq<nat>, items: nat, x: ItemVote): nat
    requires 0 < items <= |votes|
  {
    if votes[items - 1] > 0 then One(x == ItemVote(items - 1, votes[items - 1])) else 0
  }

  lemma ShareMore(votes: seq<nat>, items: nat, x: ItemVote)
    requires items <= |votes|
    ensures items == 0 ==> Share(votes, items, x) == 0
    ensures items > 0 ==> Share(votes, items, x) == Share(votes, items - 1, x) + Added(votes, items, x)
  {}

  lemma TallyMore(votes: seq<nat>, items: nat, x: ItemVote)
    requires items <= |votes|
    ensures items == 0 ==> multiset(Tally(votes, items))[x] == 0
    ensures items > 0 ==>
              multiset(Tally(votes, items))[x] == multiset(Tally(votes, items - 1))[x] + Added(votes, items, x)
  {
    if items > 0 { OneMoreOf(Tally(votes, items - 1), ItemVote(items - 1, votes[items - 1]), x); }
  }

  /** The list counted has every item with votes, once. */
  lemma {:induction false} TallyHas(votes: seq<nat>, items: nat, x: ItemVote)
    requires items <= |votes|
    ensures multiset(Tally(votes, items))[x] == Share(votes, items, x)
  {
    hide Tally, Share, Added;
    TallyMore(votes, items, x);
    ShareMore(votes, items, x);
    if items > 0 { TallyHas(votes, items - 1, x); }
  }

  lemma OneMoreOf(t: seq<ItemVote>, last: ItemVote, x: ItemVote)
    ensures multiset(t + [last])[x] == multiset(t)[x] + One(x == last)
    ensures t + [] == t
  {}

  // ----- how many votes

  /** Those who chose one of the first `items` items. */
  function Voters(votes: seq<int>, items: nat): nat {
    if votes == [] then 0
    else Voters(votes[..|votes| - 1], items) + One(0 <= votes[|votes| - 1] < items)
  }

  lemma {:induction false} VotersMore(votes: seq<int>, items: nat)
    ensures Voters(votes, items + 1) == Voters(votes, items) + CountChoice(votes, items)
  {
    if votes != [] { VotersMore(votes[..|votes| - 1], items); }
  }

  lemma {:induction false} VotersNone(votes: seq<int>)
    ensures Voters(votes, 0) == 0
  {
    if votes != [] { VotersNone(votes[..|votes| - 1]); }
  }

  lemma {:induction false} VotersFew(votes: seq<int>, items: nat)
    ensures Voters(votes, items) <= |votes|
    ensures votes != [] && votes[0] < 0 ==> Voters(votes, items) < |votes|
  {
    if votes != [] {
      var front := votes[..|votes| - 1];
      VotersFew(front, items);
      if front != [] { assert front[0] == votes[0]; }
    }
  }

  lemma TotalMore(list: seq<ItemVote>, x: ItemVote)
    ensures Total(list + [x]) == Total(list) + x.count
  {
    assert (list + [x])[..|list|] == list;
  }

  /** The total is the number of clients that voted; and no more items have votes. */
  lemma {:induction false} TotalIsVoters(votes: seq<nat>, items: nat, choices: seq<int>)
    requires items <= |votes| && forall i :: 0 <= i < items ==> votes[i] == CountChoice(choices, i)
    ensures Total(Tally(votes, items)) == Voters(choices, items)
    ensures |Tally(votes, items)| <= Total(Tally(votes, items))
  {
    if items == 0 {
      VotersNone(choices);
    } else {
      TotalIsVoters(votes, items - 1, choices);
      VotersMore(choices, items - 1);
      var t := Tally(votes, items - 1);
      if votes[items - 1] > 0 {
        TotalMore(t, ItemVote(items - 1, votes[items - 1]));
      } else {
        assert t + [] == t;
      }
    }
  }

  lemma {:induction false} AskedHas(votes: seq<int>, n: nat)
    requires n <= |votes|
    ensures |Asked(votes, n)| <= n && (n > 0 ==> |Asked(votes, n)| < n)
    ensures forall c: nat, x: int :: ClientVote(c, x) in Asked(votes, n) <==> 0 < c < n && x == votes[c] && x >= -1
  {
    if n > 1 { AskedHas(votes, n - 1); }
  }

  // ----- the report

  /** Every item voted for, once, with the number of clients that chose it; most votes first. */
  ghost predicate ReportsItems(v: VoteState, items: seq<ItemVote>) {
    && Descending(items)
    && forall x: ItemVote :: multiset(items)[x] ==
         One(x.item < v.items && x.count == CountChoice(v.clientVotes, x.item) > 0)
  }

  /** Every client asked, with its choice. */
  ghost predicate ReportsClients(v: VoteState, clients: seq<ClientVote>) {
    forall c: nat, x: int :: ClientVote(c, x) in clients <==>
        0 < c < |v.clientVotes| && x == v.clientVotes[c] && x >= -1
  }

  /** What the handler of the vote's menu is told when a vote that was not cancelled ends. */
  ghost predicate Reports(v: VoteState, r: VoteResult) {
    && r.numVotes == Voters(v.clientVotes, v.items) > 0
    && ReportsItems(v, r.items) && ReportsClients(v, r.clients)
    && |r.items| <= WATCH_SIZE && |r.clients| <= WATCH_SIZE
  }

  /** A vote that ends is reported right, with no more items and clients than the report has room
      for; unless it was cancelled, or nobody voted. */
  lemma EndReports(w: World)
    requires Counted(w) && 0 < |w.players| <= WATCH_SIZE + 1 && w.vote.curMenu.Some? && w.vote.handler.Some?
    ensures var h, m, u := w.vote.handler.value, w.vote.curMenu.value, EndVoting(w);
            if w.vote.cancelled then u.calls == w.calls + [VoteCancel(h, m, false), End(h, m, EndVotingCancelled)]
            else if Voters(w.vote.clientVotes, w.vote.items) == 0 then
              u.calls == w.calls + [VoteCancel(h, m, true), End(h, m, EndVotingCancelled)]
            else
              exists r: VoteResult :: Reports(w.vote, r)
                && u.calls == w.calls + [VoteResults(h, m, r), End(h, m, EndVotingDone)]
  {
    var v := w.vote;
    var list := Tally(v.votes, v.items);
    TotalIsVoters(v.votes, v.items, v.clientVotes);
    VotersFew(v.clientVotes, v.items);
    var r := VoteResult(Total(list), Asked(v.clientVotes, |v.clientVotes|), Ranked(list));
    if Total(list) > 0 { ResultReports(w, list, r); }
    EndVotingCases(w, list, r);
    hide *;
  }

  lemma EndVotingCases(w: World, list: seq<ItemVote>, r: VoteResult)
    requires w.vote.curMenu.Some? && w.vote.handler.Some? && w.vote.items <= |w.vote.votes|
    requires list == Tally(w.vote.votes, w.vote.items)
    requires r == VoteResult(Total(list), Asked(w.vote.clientVotes, |w.vote.clientVotes|), Ranked(list))
    ensures var h, m, u := w.vote.handler.value, w.vote.curMenu.value, EndVoting(w);
            if w.vote.cancelled then u.calls == w.calls + [VoteCancel(h, m, false), End(h, m, EndVotingCancelled)]
            else if Total(list) == 0 then u.calls == w.calls + [VoteCancel(h, m, true), End(h, m, EndVotingCancelled)]
            else u.calls == w.calls + [VoteResults(h, m, r), End(h, m, EndVotingDone)]
  {
    hide Tally, Total, Asked, Ranked;
  }

  lemma ResultReports(w: World, list: seq<ItemVote>, r: VoteResult)
    requires Counted(w) && 0 < |w.players| <= WATCH_SIZE + 1
    requires list == Tally(w.vote.votes, w.vote.items) && Total(list) == Voters(w.vote.clientVotes, w.vote.items) > 0
    requires |list| <= Total(list) <= WATCH_SIZE
    requires r == VoteResult(Total(list), Asked(w.vote.clientVotes, |w.vote.clientVotes|), Ranked(list))
    ensures Reports(w.vote, r)
  {
    RankedIsSorted(list);
    SameMultisetSize(r.items, list);
    ItemsReported(w, r.items);
    ClientsReported(w.vote, r.clients);
    assert |w.vote.clientVotes| == |w.players|;
    hide Tally, Total, Asked, Ranked, Voters, ReportsItems, ReportsClients, Counted;
  }

  lemma ClientsReported(v: VoteState, clients: seq<ClientVote>)
    requires clients == Asked(v.clientVotes, |v.clientVotes|)
    ensures ReportsClients(v, clients) && (|v.clientVotes| > 0 ==> |clients| < |v.clientVotes|)
  {
    AskedHas(v.clientVotes, |v.clientVotes|);
  }

  lemma ItemsReported(w: World, items: seq<ItemVote>)
    requires Counted(w) && multiset(items) == multiset(Tally(w.vote.votes, w.vote.items)) && Descending(items)
    ensures ReportsItems(w.vote, items)
  {
    var v := w.vote;
    assert forall i: nat :: i < v.items ==> v.votes[i] == CountChoice(v.clientVotes, i);
    assert v.items <= |v.votes|;
    hide Counted, CountChoice, Tally, Descending;
    forall x: ItemVote
      ensures multiset(items)[x] == One(x.item < v.items && x.count == CountChoice(v.clientVotes, x.item) > 0)
    {
      TallyHas(v.votes, v.items, x);
    }
  }

  lemma SameMultisetSize(a: seq<ItemVote>, b: seq<ItemVote>)
    requires multiset(a) == multiset(b)
    ensures |a| == |b|
  {
    assert |multiset(a)| == |a| && |multiset(b)| == |b|;
  }
}
