/**
 What the arena of the admin cache holds at all times: four lists that cover it, a table of
 groups for each admin that no other admin shares, and an index of the groups by name.
 */
module AdminState {
  import opened Common
  import opened AdminArena

  /** The lists of the cache, by the places of their records. */
  datatype Lists = Lists(users: seq<int>, freeUsers: seq<int>, groups: seq<int>, freeGroups: seq<int>)

  const NO_LISTS := Lists([], [], [], [])

  predicate IsUser(mem: Arena, id: int) { id in mem && mem[id].UserCell? }

  predicate IsLiveUser(mem: Arena, id: int) { id in mem && IsRecord(mem[id], KUser, true) }

  predicate IsLiveGroup(mem: Arena, id: int) { id in mem && IsRecord(mem[id], KGroup, true) }

  // ----- lists

  ghost predicate Chains(mem: Arena, l: Lists) {
    && Chain(mem, l.users, KUser, true) && Chain(mem, l.freeUsers, KUser, false)
    && Chain(mem, l.groups, KGroup, true) && Chain(mem, l.freeGroups, KGroup, false)
  }

  /** Every record is in one of the lists, and the arena ends behind all of them. */
  ghost predicate Covered(mem: Arena, l: Lists, tail: nat) {
    forall id :: id in mem ==>
      && 0 <= id < tail
      && (mem[id].UserCell? ==> id in l.users || id in l.freeUsers)
      && (mem[id].GroupCell? ==> id in l.groups || id in l.freeGroups)
  }

  // ----- tables of groups

  /** The admin's table is there and has room for its groups. */
  predicate TableThere(mem: Arena, u: User) {
    && u.grpCount <= u.grpSize && (u.grpSize == 0 <==> u.grpTable == NOBODY)
    && (u.grpSize > 0 ==> u.grpTable in mem && mem[u.grpTable].TableCell? && |mem[u.grpTable].table| == u.grpSize)
  }

  function GroupsOf(mem: Arena, u: User): (s: seq<int>)
    requires TableThere(mem, u)
    ensures |s| == u.grpCount
  {
    if u.grpCount == 0 then [] else mem[u.grpTable].table[..u.grpCount]
  }

  ghost predicate Tables(mem: Arena) {
    forall id :: IsUser(mem, id) ==> TableThere(mem, mem[id].user)
  }

  /** No two admins share a table. */
  ghost predicate Apart(mem: Arena) {
    forall a, b :: IsUser(mem, a) && IsUser(mem, b) && a != b && mem[a].user.grpSize > 0 && mem[b].user.grpSize > 0 ==>
      mem[a].user.grpTable != mem[b].user.grpTable
  }

  /** The groups of an admin are different groups in use, but perhaps for one that is being removed. */
  ghost predicate MemberOf(mem: Arena, u: User, except: set<int>) {
    && TableThere(mem, u) && Distinct(GroupsOf(mem, u))
    && forall i :: 0 <= i < u.grpCount ==> GroupsOf(mem, u)[i] in except || IsLiveGroup(mem, GroupsOf(mem, u)[i])
  }

  /** The admins in use have groups in use, or some of `except`; those that are free have none. */
  ghost predicate MembersBut(mem: Arena, except: set<int>) {
    forall id :: IsUser(mem, id) ==>
      if IsRecord(mem[id], KUser, true) then MemberOf(mem, mem[id].user, except) else mem[id].user.grpCount == 0
  }

  ghost predicate Members(mem: Arena) { MembersBut(mem, {}) }

  // ----- names

  /** The index leads from the name of each group in use to it, and nowhere else. */
  ghost predicate Indexed(mem: Arena, groups: seq<int>, index: map<string, int>) {
    && (forall name :: name in index ==>
          index[name] in groups && index[name] in mem && mem[index[name]].GroupCell?
            && mem[index[name]].group.name == name)
    && (forall g :: g in groups ==>
          g in mem && mem[g].GroupCell? && mem[g].group.name in index && index[mem[g].group.name] == g)
  }

  ghost predicate Good(mem: Arena, l: Lists, tail: nat, index: map<string, int>) {
    Chains(mem, l) && Covered(mem, l, tail) && Tables(mem) && Apart(mem) && Members(mem)
      && Indexed(mem, l.groups, index)
  }

  lemma EmptyIsGood()
    ensures Good(map[], NO_LISTS, 0, map[])
  {}

  /** The four lists have no record in common. */
  lemma ListsApart(mem: Arena, l: Lists, tail: nat, index: map<string, int>, id: int)
    requires Good(mem, l, tail, index)
    ensures id in l.users ==> id !in l.freeUsers && id !in l.groups && id !in l.freeGroups
    ensures id in l.freeUsers ==> id !in l.groups && id !in l.freeGroups
    ensures id in l.groups ==> id !in l.freeGroups
    ensures IsLiveUser(mem, id) <==> id in l.users
    ensures IsLiveGroup(mem, id) <==> id in l.groups
  {
    if id in l.users { ChainMember(mem, l.users, KUser, true, id); }
    if id in l.freeUsers { ChainMember(mem, l.freeUsers, KUser, false, id); }
    if id in l.groups { ChainMember(mem, l.groups, KGroup, true, id); }
    if id in l.freeGroups { ChainMember(mem, l.freeGroups, KGroup, false, id); }
    hide Chain, Tables, Apart, Members, Indexed;
  }

  /** A group has one name, and a name at most one group. */
  lemma NamesAreOneToOne(mem: Arena, l: Lists, tail: nat, index: map<string, int>, g: int, h: int)
    requires Good(mem, l, tail, index) && g in l.groups && h in l.groups && mem[g].GroupCell? && mem[h].GroupCell?
    requires mem[g].group.name == mem[h].group.name
    ensures g == h
  {}

  // ----- changes to one admin

  /** The arena after a change to one admin's record that leaves its table, and with it its groups, alone. */
  ghost predicate UserChanged(mem: Arena, after: Arena, id: int) {
    && IsUser(mem, id) && IsUser(after, id)
    && after.Keys == mem.Keys
    && (forall x :: x in mem && x != id ==> SameContent(mem, after, x))
    && after[id].user.grpSize == mem[id].user.grpSize && after[id].user.grpTable == mem[id].user.grpTable
  }

  /** A record has at most its links changed. */
  predicate SameContent(mem: Arena, after: Arena, x: int)
    requires x in mem
  {
    && x in after
    && match mem[x]
       case UserCell(u) => after[x].UserCell? && after[x].user.(nextUser := u.nextUser, prevUser := u.prevUser) == u
       case GroupCell(g) => after[x].GroupCell? && after[x].group.(nextGrp := g.nextGrp, prevGrp := g.prevGrp) == g
       case TableCell(_) => after[x] == mem[x]
  }

  /** The admin has no groups before and after, or the same ones. */
  lemma TablesKeep(mem: Arena, after: Arena, id: int)
    requires Tables(mem) && Apart(mem) && Members(mem) && UserChanged(mem, after, id)
    requires after[id].user.grpCount == 0
             || (after[id].user.grpCount == mem[id].user.grpCount && IsRecord(mem[id], KUser, true)
                 && IsRecord(after[id], KUser, true))
    ensures Tables(after) && Apart(after) && Members(after)
  {
    forall x | IsUser(after, x) ensures TableThere(after, after[x].user) {
      assert IsUser(mem, x);
    }
    forall x | IsUser(after, x)
      ensures if IsRecord(after[x], KUser, true) then MemberOf(after, after[x].user, {})
              else after[x].user.grpCount == 0
    {
      assert IsUser(mem, x);
      if IsRecord(after[x], KUser, true) && after[x].user.grpCount > 0 {
        MemberKeeps(mem, after, mem[x].user, after[x].user, id);
      }
    }
  }

  lemma MemberKeeps(mem: Arena, after: Arena, u: User, v: User, id: int)
    requires MemberOf(mem, u, {}) && UserChanged(mem, after, id)
    requires v.grpCount == u.grpCount && v.grpSize == u.grpSize && v.grpTable == u.grpTable && u.grpCount > 0
    ensures MemberOf(after, v, {})
  {
    assert mem[u.grpTable].TableCell? && after[u.grpTable] == mem[u.grpTable];
    assert GroupsOf(after, v) == GroupsOf(mem, u);
    forall i | 0 <= i < v.grpCount ensures IsLiveGroup(after, GroupsOf(after, v)[i]) {
      var g := GroupsOf(mem, u)[i];
      assert IsLiveGroup(mem, g);
    }
  }

  lemma IndexKeeps(mem: Arena, after: Arena, groups: seq<int>, index: map<string, int>)
    requires Indexed(mem, groups, index)
    requires forall g :: g in groups ==>
               g in mem && mem[g].GroupCell? && g in after && after[g].GroupCell?
                 && after[g].group.name == mem[g].group.name
    ensures Indexed(after, groups, index)
  {
    forall name | name in index
      ensures index[name] in groups && index[name] in after && after[index[name]].GroupCell?
              && after[index[name]].group.name == name
    {
      var g := index[name];
      assert g in groups && mem[g].group.name == name;
      assert g in after && after[g].group.name == mem[g].group.name;
    }
  }

  // ----- admins come and go

  /** What is new of an admin that is made. */
  predicate Fresh(c: Cell) {
    c.UserCell? && c.user.magic == USR_MAGIC_SET && c.user.grpCount == 0
  }

  lemma CreateFromFree(mem: Arena, l: Lists, tail: nat, index: map<string, int>, c: Cell)
    requires Good(mem, l, tail, index) && l.freeUsers != [] && l.freeUsers[0] in mem && mem[l.freeUsers[0]].UserCell?
             && Fresh(c)
    requires c.user.grpSize == mem[l.freeUsers[0]].user.grpSize && c.user.grpTable == mem[l.freeUsers[0]].user.grpTable
    requires l.users == [] || Last(l.users) in mem
    ensures var id := l.freeUsers[0];
            Good(Appended(mem, l.users, id, c), l.(users := l.users + [id], freeUsers := l.freeUsers[1..]), tail, index)
  {
    var id := l.freeUsers[0];
    var after, m := Appended(mem, l.users, id, c), l.(users := l.users + [id], freeUsers := l.freeUsers[1..]);
    CreateFreeLists(mem, l, tail, index, c);
    CreateChanges(mem, l, tail, index, id, c);
    TablesKeep(mem, after, id);
    hide Chain, Chains, Covered, Tables, Apart, Members, Appended;
    GroupsStay(mem, after, l, index);
  }

  lemma CreateChanges(mem: Arena, l: Lists, tail: nat, index: map<string, int>, id: int, c: Cell)
    requires Good(mem, l, tail, index) && id in l.freeUsers && id in mem && mem[id].UserCell? && Fresh(c)
    requires c.user.grpSize == mem[id].user.grpSize && c.user.grpTable == mem[id].user.grpTable
    requires l.users == [] || Last(l.users) in mem
    ensures var after := Appended(mem, l.users, id, c);
            UserChanged(mem, after, id) && after[id].user.grpCount == 0
              && (forall x :: x in mem && x != id ==> SameContent(mem, after, x))
  {
    ListsApart(mem, l, tail, index, id);
    if l.users != [] {
      assert Last(l.users) in l.users;
      ListsApart(mem, l, tail, index, Last(l.users));
    }
    hide Chain, Chains, Covered, Tables, Apart, Members, Indexed;
  }

  lemma GroupsStay(mem: Arena, after: Arena, l: Lists, index: map<string, int>)
    requires Indexed(mem, l.groups, index)
    requires forall x :: x in mem && mem[x].GroupCell? ==> SameContent(mem, after, x)
    ensures Indexed(after, l.groups, index)
  {
    IndexKeeps(mem, after, l.groups, index);
  }

  lemma CreateFreeLists(mem: Arena, l: Lists, tail: nat, index: map<string, int>, c: Cell)
    requires Good(mem, l, tail, index) && l.freeUsers != [] && l.freeUsers[0] in mem && Fresh(c)
    requires l.users == [] || Last(l.users) in mem
    ensures var id := l.freeUsers[0];
            var after, m := Appended(mem, l.users, id, c), l.(users := l.users + [id], freeUsers := l.freeUsers[1..]);
            Chains(after, m) && Covered(after, m, tail)
  {
    var id := l.freeUsers[0];
    var after, m := Appended(mem, l.users, id, c), l.(users := l.users + [id], freeUsers := l.freeUsers[1..]);
    assert id in l.freeUsers;
    ListsApart(mem, l, tail, index, id);
    ChainPops(mem, l.freeUsers, KUser);
    ChainAppends(mem, l.users, id, c, KUser);
    OnlyTouches(mem, l, id, c);
    ChainKeeps(mem, after, l.freeUsers[1..], KUser, false);
    ChainKeeps(mem, after, l.groups, KGroup, true);
    ChainKeeps(mem, after, l.freeGroups, KGroup, false);
    assert l.freeUsers == [id] + l.freeUsers[1..];
    hide Chain, Tables, Apart, Members, Indexed;
  }

  lemma OnlyTouches(mem: Arena, l: Lists, id: int, c: Cell)
    requires Chains(mem, l) && (l.users == [] || Last(l.users) in mem)
    requires id !in l.groups && id !in l.freeGroups
    ensures var after := Appended(mem, l.users, id, c);
            forall x :: x in l.groups || x in l.freeGroups || (x in l.freeUsers && x != id) ==> SameLinks(mem, after, x)
  {
    var after := Appended(mem, l.users, id, c);
    if l.users != [] { assert Last(l.users) in l.users; ChainMember(mem, l.users, KUser, true, Last(l.users)); }
    forall x | x in l.groups || x in l.freeGroups || (x in l.freeUsers && x != id) ensures SameLinks(mem, after, x) {
      if x in l.groups { ChainMember(mem, l.groups, KGroup, true, x); }
      if x in l.freeGroups { ChainMember(mem, l.freeGroups, KGroup, false, x); }
      if x in l.freeUsers { ChainMember(mem, l.freeUsers, KUser, false, x); }
    }
  }

  /** A new record at the end of the arena. */
  lemma CreateNewTables(mem: Arena, l: Lists, tail: nat, index: map<string, int>, c: Cell)
    requires Good(mem, l, tail, index) && Fresh(c) && c.user.grpSize == 0 && c.user.grpTable == NOBODY
    requires l.users == [] || Last(l.users) in mem
    ensures var after := Appended(mem, l.users, tail, c); Tables(after) && Apart(after) && Members(after)
  {
    hide Chain, Indexed, Tables, Apart, MembersBut;
    var after := Appended(mem, l.users, tail, c);
    if l.users != [] { assert Last(l.users) in l.users; ListsApart(mem, l, tail, index, Last(l.users)); }
    assert tail !in mem;
    assert forall x :: x in mem ==> SameContent(mem, after, x);
    assert after[tail].UserCell? && after[tail].user.grpSize == 0 && after[tail].user.grpTable == NOBODY
           && after[tail].user.grpCount == 0;
    NewUserTables(mem, after, tail);
  }

  /** A new admin without a table changes nothing for the others. */
  lemma NewUserTables(mem: Arena, after: Arena, id: int)
    requires Tables(mem) && Apart(mem) && Members(mem) && id !in mem && after.Keys == mem.Keys + {id}
    requires forall x :: x in mem ==> SameContent(mem, after, x)
    requires after[id].UserCell? && after[id].user.grpSize == 0 && after[id].user.grpTable == NOBODY
             && after[id].user.grpCount == 0
    ensures Tables(after) && Apart(after) && Members(after)
  {
    forall x | IsUser(after, x) ensures TableThere(after, after[x].user) { if x != id { assert IsUser(mem, x); } }
    forall x | IsUser(after, x)
      ensures if IsRecord(after[x], KUser, true) then MemberOf(after, after[x].user, {})
              else after[x].user.grpCount == 0
    {
      if x != id {
        assert IsUser(mem, x);
        if IsRecord(after[x], KUser, true) { SameMember(mem, after, mem[x].user, after[x].user, {}); }
      }
    }
    forall a, b | IsUser(after, a) && IsUser(after, b) && a != b && after[a].user.grpSize > 0
      && after[b].user.grpSize > 0
      ensures after[a].user.grpTable != after[b].user.grpTable
    {
      assert IsUser(mem, a) && IsUser(mem, b);
    }
  }

  /** An admin's groups where its table is the same. */
  lemma SameMember(mem: Arena, after: Arena, u: User, v: User, except: set<int>)
    requires MemberOf(mem, u, except) && TableThere(after, v)
    requires v.grpCount == u.grpCount && v.grpSize == u.grpSize && v.grpTable == u.grpTable
    requires u.grpSize > 0 ==> after[v.grpTable] == mem[u.grpTable]
    requires forall g :: IsLiveGroup(mem, g) ==> g in except || IsLiveGroup(after, g)
    ensures MemberOf(after, v, except)
  {
    assert GroupsOf(after, v) == GroupsOf(mem, u);
    forall i | 0 <= i < v.grpCount
      ensures GroupsOf(after, v)[i] in except || IsLiveGroup(after, GroupsOf(after, v)[i])
    {
      var g := GroupsOf(mem, u)[i];
      assert g in except || IsLiveGroup(mem, g);
    }
  }

  lemma CreateNew(mem: Arena, l: Lists, tail: nat, index: map<string, int>, c: Cell, end: nat)
    requires Good(mem, l, tail, index) && Fresh(c) && c.user.grpSize == 0 && c.user.grpTable == NOBODY && tail < end
    requires l.users == [] || Last(l.users) in mem
    ensures Good(Appended(mem, l.users, tail, c), l.(users := l.users + [tail]), end, index)
  {
    var after, m := Appended(mem, l.users, tail, c), l.(users := l.users + [tail]);
    CreateNewLists(mem, l, tail, index, c, end);
    CreateNewTables(mem, l, tail, index, c);
    if l.users != [] { assert Last(l.users) in l.users; ListsApart(mem, l, tail, index, Last(l.users)); }
    assert tail !in mem;
    assert forall x :: x in mem ==> SameContent(mem, after, x);
    hide Chain, Chains, Covered, Tables, Apart, Members, Appended;
    GroupsStay(mem, after, l, index);
  }

  lemma NotListed(mem: Arena, l: Lists, id: int)
    requires Chains(mem, l) && id !in mem
    ensures id !in l.users && id !in l.freeUsers && id !in l.groups && id !in l.freeGroups
  {
    if id in l.users { ChainMember(mem, l.users, KUser, true, id); }
    if id in l.freeUsers { ChainMember(mem, l.freeUsers, KUser, false, id); }
    if id in l.groups { ChainMember(mem, l.groups, KGroup, true, id); }
    if id in l.freeGroups { ChainMember(mem, l.freeGroups, KGroup, false, id); }
  }

  lemma CreateNewLists(mem: Arena, l: Lists, tail: nat, index: map<string, int>, c: Cell, end: nat)
    requires Good(mem, l, tail, index) && Fresh(c) && tail < end && (l.users == [] || Last(l.users) in mem)
    ensures var after, m := Appended(mem, l.users, tail, c), l.(users := l.users + [tail]);
            Chains(after, m) && Covered(after, m, end)
  {
    var after := Appended(mem, l.users, tail, c);
    assert tail !in mem;
    NotListed(mem, l, tail);
    ChainAppends(mem, l.users, tail, c, KUser);
    OnlyTouches(mem, l, tail, c);
    ChainKeeps(mem, after, l.freeUsers, KUser, false);
    ChainKeeps(mem, after, l.groups, KGroup, true);
    ChainKeeps(mem, after, l.freeGroups, KGroup, false);
    hide Chain, Tables, Apart, Members, Indexed;
  }

  /** An admin that is taken out of use. */
  function Retired(u: User, next: int): Cell {
    UserCell(u.(magic := USR_MAGIC_UNSET, grpCount := 0, nextUser := next, serial := 0))
  }

  lemma InvalidateLists(mem: Arena, l: Lists, tail: nat, index: map<string, int>, k: nat)
    requires Good(mem, l, tail, index) && k < |l.users| && l.users[k] in mem && mem[l.users[k]].UserCell?
    requires (k > 0 ==> l.users[k - 1] in mem) && (k + 1 < |l.users| ==> l.users[k + 1] in mem)
    ensures var id := l.users[k];
            var after := Unlinked(mem, l.users, k)[id := Retired(mem[id].user, First(l.freeUsers))];
            var m := l.(users := Without(l.users, k), freeUsers := [id] + l.freeUsers);
            Chains(after, m) && Covered(after, m, tail)
  {
    hide Chain, Tables, Apart, Members, Indexed, Without;
    var id := l.users[k];
    var mid, c := Unlinked(mem, l.users, k), Retired(mem[id].user, First(l.freeUsers));
    var after, rest := mid[id := c], Without(l.users, k);
    assert id in l.users;
    ListsApart(mem, l, tail, index, id);
    ChainErases(mem, l.users, KUser, k);
    ChainKeepsElse(mid, rest, KUser, true, id, c);
    UnlinkKeeps(mem, l, k);
    ChainPushes(mid, l.freeUsers, id, c, KUser);
    assert WithNext(c, First(l.freeUsers)) == c;
    ChainKeepsElse(mid, l.groups, KGroup, true, id, c);
    ChainKeepsElse(mid, l.freeGroups, KGroup, false, id, c);
    WithoutMembers(l.users, k);
  }

  lemma WithoutMembers(s: seq<int>, k: nat)
    requires k < |s|
    ensures forall x :: x in s ==> x in Without(s, k) || x == s[k]
  {
    forall x | x in s ensures x in Without(s, k) || x == s[k] {
      var i :| 0 <= i < |s| && s[i] == x;
      if i < k { assert Without(s, k)[i] == x; } else if i > k { assert Without(s, k)[i - 1] == x; }
    }
  }

  lemma UnlinkTouches(mem: Arena, l: Lists, k: nat)
    requires Chains(mem, l) && k < |l.users|
    requires (k > 0 ==> l.users[k - 1] in mem) && (k + 1 < |l.users| ==> l.users[k + 1] in mem)
    ensures var mid := Unlinked(mem, l.users, k);
            && mid.Keys == mem.Keys
            && (forall x :: x in l.groups || x in l.freeGroups || x in l.freeUsers ==> SameLinks(mem, mid, x))
            && (forall x :: x in mem ==> SameContent(mem, mid, x))
  {
    ChainNeighbours(mem, l.users, KUser, k);
    var mid := Unlinked(mem, l.users, k);
    forall x | x in l.groups || x in l.freeGroups || x in l.freeUsers ensures SameLinks(mem, mid, x) {
      if x in l.groups { ChainMember(mem, l.groups, KGroup, true, x); }
      if x in l.freeGroups { ChainMember(mem, l.freeGroups, KGroup, false, x); }
      if x in l.freeUsers { ChainMember(mem, l.freeUsers, KUser, false, x); }
    }
  }

  lemma UnlinkKeeps(mem: Arena, l: Lists, k: nat)
    requires Chains(mem, l) && k < |l.users|
    requires (k > 0 ==> l.users[k - 1] in mem) && (k + 1 < |l.users| ==> l.users[k + 1] in mem)
    ensures var mid := Unlinked(mem, l.users, k);
            && mid.Keys == mem.Keys
            && Chain(mid, l.freeUsers, KUser, false)
            && Chain(mid, l.groups, KGroup, true) && Chain(mid, l.freeGroups, KGroup, false)
  {
    hide Chain, Unlinked, SameLinks, SameContent;
    UnlinkTouches(mem, l, k);
    var mid := Unlinked(mem, l.users, k);
    assert forall i :: 0 <= i < |l.freeUsers| ==> l.freeUsers[i] in l.freeUsers;
    ChainKeeps(mem, mid, l.freeUsers, KUser, false);
    assert forall i :: 0 <= i < |l.groups| ==> l.groups[i] in l.groups;
    ChainKeeps(mem, mid, l.groups, KGroup, true);
    assert forall i :: 0 <= i < |l.freeGroups| ==> l.freeGroups[i] in l.freeGroups;
    ChainKeeps(mem, mid, l.freeGroups, KGroup, false);
  }

  lemma InvalidateAdminKeeps(mem: Arena, l: Lists, tail: nat, index: map<string, int>, k: nat)
    requires Good(mem, l, tail, index) && k < |l.users| && l.users[k] in mem && mem[l.users[k]].UserCell?
    requires (k > 0 ==> l.users[k - 1] in mem) && (k + 1 < |l.users| ==> l.users[k + 1] in mem)
    ensures var id := l.users[k];
            Good(Unlinked(mem, l.users, k)[id := Retired(mem[id].user, First(l.freeUsers))],
                 l.(users := Without(l.users, k), freeUsers := [id] + l.freeUsers), tail, index)
  {
    var id := l.users[k];
    var after := Unlinked(mem, l.users, k)[id := Retired(mem[id].user, First(l.freeUsers))];
    InvalidateLists(mem, l, tail, index, k);
    UnlinkTouches(mem, l, k);
    assert after[id].user.grpCount == 0;
    assert UserChanged(mem, after, id);
    hide Chain, Chains, Covered, Unlinked;
    TablesKeep(mem, after, id);
    GroupsStay(mem, after, l, index);
  }

  // ----- groups come and go

  /** The admins and their tables are the same; what was a group is one still, or excepted. */
  ghost predicate UsersSame(mem: Arena, after: Arena, before: set<int>, except: set<int>) {
    && (forall x :: IsUser(after, x) ==> IsUser(mem, x) && SameContent(mem, after, x))
    && (forall x :: x in mem && mem[x].TableCell? ==> x in after && after[x] == mem[x])
    && (forall g :: g in before || IsLiveGroup(mem, g) ==> g in except || IsLiveGroup(after, g))
  }

  lemma UsersStay(mem: Arena, after: Arena, before: set<int>, except: set<int>)
    requires Tables(mem) && Apart(mem) && MembersBut(mem, before) && UsersSame(mem, after, before, except)
    ensures Tables(after) && Apart(after) && MembersBut(after, except)
  {
    forall x | IsUser(after, x) ensures TableThere(after, after[x].user) { assert IsUser(mem, x); }
    forall x | IsUser(after, x)
      ensures if IsRecord(after[x], KUser, true) then MemberOf(after, after[x].user, except)
              else after[x].user.grpCount == 0
    {
      assert IsUser(mem, x);
      if IsRecord(after[x], KUser, true) { MoreMember(mem, after, mem[x].user, after[x].user, before, except); }
    }
  }

  lemma MoreMember(mem: Arena, after: Arena, u: User, v: User, before: set<int>, except: set<int>)
    requires MemberOf(mem, u, before) && TableThere(after, v) && UsersSame(mem, after, before, except)
    requires v.grpCount == u.grpCount && v.grpSize == u.grpSize && v.grpTable == u.grpTable
    ensures MemberOf(after, v, except)
  {
    assert GroupsOf(after, v) == GroupsOf(mem, u);
    forall i | 0 <= i < v.grpCount
      ensures GroupsOf(after, v)[i] in except || IsLiveGroup(after, GroupsOf(after, v)[i])
    {
      var g := GroupsOf(mem, u)[i];
      assert g in before || IsLiveGroup(mem, g);
    }
  }

  predicate FreshGroup(c: Cell, name: string) {
    c.GroupCell? && c.group.magic == GRP_MAGIC_SET && c.group.name == name
  }

  /** The place for a new group: the first free one, or the end of the arena. */
  ghost predicate PlaceForGroup(mem: Arena, l: Lists, tail: nat, id: int, end: nat) {
    if l.freeGroups != [] then id == l.freeGroups[0] && end == tail else id == tail && end > tail
  }

  function RestOf(s: seq<int>): seq<int> { if s == [] then [] else s[1..] }

  /** A place that is free, or new, is in none of the lists it does not come from. */
  lemma PlaceIsFree(mem: Arena, l: Lists, tail: nat, index: map<string, int>, id: int, end: nat)
    requires Good(mem, l, tail, index) && PlaceForGroup(mem, l, tail, id, end)
    ensures id >= 0 && id !in l.groups && id !in l.users && id !in l.freeUsers && id !in RestOf(l.freeGroups)
            && !IsUser(mem, id)
    ensures (id in mem ==> mem[id].GroupCell?) && !IsLiveGroup(mem, id)
  {
    hide Tables, Apart, MembersBut, Indexed, LinkedAt;
    if l.freeGroups != [] {
      assert id in l.freeGroups;
      ListsApart(mem, l, tail, index, id);
      ChainPops(mem, l.freeGroups, KGroup);
    } else {
      assert id !in mem;
      NotListed(mem, l, id);
    }
  }

  lemma AddGroupTouches(mem: Arena, l: Lists, tail: nat, index: map<string, int>, id: int, c: Cell, name: string,
                        end: nat)
    requires Good(mem, l, tail, index) && PlaceForGroup(mem, l, tail, id, end) && FreshGroup(c, name)
    requires l.groups == [] || Last(l.groups) in mem
    ensures id >= 0 && id !in l.groups && id !in l.users && id !in l.freeUsers && id !in RestOf(l.freeGroups)
            && !IsUser(mem, id)
    ensures (id in mem ==> mem[id].GroupCell?) && !IsLiveGroup(mem, id)
    ensures var after := Appended(mem, l.groups, id, c);
            && after.Keys == mem.Keys + {id} && FreshGroup(after[id], name)
            && (forall x :: x in mem && x != id ==> SameContent(mem, after, x))
            && (forall x :: x in l.users || x in l.freeUsers || x in RestOf(l.freeGroups) ==> SameLinks(mem, after, x))
  {
    hide Tables, Apart, MembersBut, Indexed, Covered, LinkedAt, Chain;
    PlaceIsFree(mem, l, tail, index, id, end);
    LastIsGroup(mem, l);
    AppendedGroupKeeps(mem, l.groups, id, c, name);
    var after := Appended(mem, l.groups, id, c);
    forall x | x in l.users || x in l.freeUsers || x in RestOf(l.freeGroups) ensures SameLinks(mem, after, x) {
      NotAGroup(mem, l, x);
    }
  }

  lemma LastIsGroup(mem: Arena, l: Lists)
    requires Chains(mem, l)
    ensures l.groups != [] ==> Last(l.groups) in mem && IsRecord(mem[Last(l.groups)], KGroup, true)
  {
    if l.groups != [] { assert Last(l.groups) in l.groups; ChainMember(mem, l.groups, KGroup, true, Last(l.groups)); }
  }

  lemma NotAGroup(mem: Arena, l: Lists, x: int)
    requires Chains(mem, l) && (x in l.users || x in l.freeUsers || x in RestOf(l.freeGroups))
    ensures x in mem && !IsRecord(mem[x], KGroup, true)
  {
    if x in l.users { ChainMember(mem, l.users, KUser, true, x); }
    if x in l.freeUsers { ChainMember(mem, l.freeUsers, KUser, false, x); }
    if x in RestOf(l.freeGroups) { assert x in l.freeGroups; ChainMember(mem, l.freeGroups, KGroup, false, x); }
  }

  lemma AppendedGroupKeeps(mem: Arena, s: seq<int>, id: int, c: Cell, name: string)
    requires FreshGroup(c, name) && (s == []
                                     || (Last(s) in mem && IsRecord(mem[Last(s)], KGroup, true) && Last(s) != id))
    ensures var after := Appended(mem, s, id, c);
            && after.Keys == mem.Keys + {id} && FreshGroup(after[id], name)
            && (forall x :: x in mem && x != id ==> SameContent(mem, after, x))
            && (forall x :: x in mem && x != id && !IsRecord(mem[x], KGroup, true) ==> SameLinks(mem, after, x))
  {}

  lemma AddGroupLists(mem: Arena, l: Lists, tail: nat, index: map<string, int>, id: int, c: Cell, name: string,
                      end: nat)
    requires Good(mem, l, tail, index) && PlaceForGroup(mem, l, tail, id, end) && FreshGroup(c, name)
    requires l.groups == [] || Last(l.groups) in mem
    ensures var after, m := Appended(mem, l.groups, id, c),
            l.(groups := l.groups + [id], freeGroups := RestOf(l.freeGroups));
            Chains(after, m) && Covered(after, m, end)
  {
    hide Tables, Apart, MembersBut, Indexed, LinkedAt;
    var after := Appended(mem, l.groups, id, c);
    AddGroupTouches(mem, l, tail, index, id, c, name, end);
    ChainAppends(mem, l.groups, id, c, KGroup);
    ChainKeeps(mem, after, l.users, KUser, true);
    ChainKeeps(mem, after, l.freeUsers, KUser, false);
    if l.freeGroups != [] { ChainPops(mem, l.freeGroups, KGroup); assert l.freeGroups == [id] + l.freeGroups[1..]; }
    ChainKeeps(mem, after, RestOf(l.freeGroups), KGroup, false);
    hide Chain, Appended;
    AddGroupCovered(mem, after, l, tail, id, end);
  }

  lemma AddGroupCovered(mem: Arena, after: Arena, l: Lists, tail: nat, id: int, end: nat)
    requires Covered(mem, l, tail) && tail <= end && 0 <= id < end && after.Keys == mem.Keys + {id} && id in after
             && after[id].GroupCell?
    requires forall x :: x in mem && x != id ==> SameContent(mem, after, x)
    requires l.freeGroups == [] || l.freeGroups == [id] + RestOf(l.freeGroups)
    ensures Covered(after, l.(groups := l.groups + [id], freeGroups := RestOf(l.freeGroups)), end)
  {
    var m := l.(groups := l.groups + [id], freeGroups := RestOf(l.freeGroups));
    forall x | x in after
      ensures 0 <= x < end && (after[x].UserCell? ==> x in m.users || x in m.freeUsers)
      ensures after[x].GroupCell? ==> x in m.groups || x in m.freeGroups
    {
      if x != id { assert x in mem && SameContent(mem, after, x); }
    }
  }

  lemma AddGroupIndexed(mem: Arena, after: Arena, groups: seq<int>, index: map<string, int>, id: int, name: string)
    requires Indexed(mem, groups, index) && name !in index && id !in groups && id in after
             && FreshGroup(after[id], name)
    requires forall x :: x in mem && x != id ==> SameContent(mem, after, x)
    ensures Indexed(after, groups + [id], index[name := id])
  {
    var more, groups1 := index[name := id], groups + [id];
    forall n | n in more
      ensures more[n] in groups1 && more[n] in after && after[more[n]].GroupCell? && after[more[n]].group.name == n
    {
      if n != name {
        var g := index[n];
        assert g in groups && mem[g].group.name == n && g != id && SameContent(mem, after, g);
      }
    }
    forall g | g in groups1
      ensures g in after && after[g].GroupCell? && after[g].group.name in more && more[after[g].group.name] == g
    {
      if g != id { assert g in groups && SameContent(mem, after, g); }
    }
  }

  lemma AddGroupKeeps(mem: Arena, l: Lists, tail: nat, index: map<string, int>, id: int, c: Cell, name: string,
                      end: nat)
    requires Good(mem, l, tail, index) && PlaceForGroup(mem, l, tail, id, end) && FreshGroup(c, name) && name !in index
    requires l.groups == [] || Last(l.groups) in mem
    ensures Good(Appended(mem, l.groups, id, c), l.(groups := l.groups + [id], freeGroups := RestOf(l.freeGroups)), end,
                 index[name := id])
  {
    hide Chain, Chains, Covered, Tables, Apart, MembersBut, Indexed, Appended;
    var after := Appended(mem, l.groups, id, c);
    AddGroupTouches(mem, l, tail, index, id, c, name, end);
    AddGroupLists(mem, l, tail, index, id, c, name, end);
    AddGroupIndexed(mem, after, l.groups, index, id, name);
    AddGroupUsers(mem, after, id, name);
    UsersStay(mem, after, {}, {});
  }

  lemma AddGroupUsers(mem: Arena, after: Arena, id: int, name: string)
    requires after.Keys == mem.Keys + {id} && id in after && FreshGroup(after[id], name) && !IsUser(mem, id)
    requires (id in mem ==> mem[id].GroupCell?) && !IsLiveGroup(mem, id)
    requires forall x :: x in mem && x != id ==> SameContent(mem, after, x)
    ensures UsersSame(mem, after, {}, {})
  {
    forall x | IsUser(after, x) ensures IsUser(mem, x) && SameContent(mem, after, x) { assert x != id && x in mem; }
  }

  /** A group that is taken out of use. */
  function RetiredGroup(g: Group, next: int): Cell {
    GroupCell(g.(magic := GRP_MAGIC_UNSET, nextGrp := next))
  }

  function Dropped(mem: Arena, l: Lists, k: nat): Arena
    requires k < |l.groups| && l.groups[k] in mem && mem[l.groups[k]].GroupCell?
    requires (k > 0 ==> l.groups[k - 1] in mem) && (k + 1 < |l.groups| ==> l.groups[k + 1] in mem)
  {
    Unlinked(mem, l.groups, k)[l.groups[k] := RetiredGroup(mem[l.groups[k]].group, First(l.freeGroups))]
  }

  function Shortened(l: Lists, k: nat): Lists
    requires k < |l.groups|
  {
    l.(groups := Without(l.groups, k), freeGroups := [l.groups[k]] + l.freeGroups)
  }

  lemma UnlinkGroupTouches(mem: Arena, l: Lists, k: nat)
    requires Chains(mem, l) && k < |l.groups|
    requires (k > 0 ==> l.groups[k - 1] in mem) && (k + 1 < |l.groups| ==> l.groups[k + 1] in mem)
    ensures var mid := Unlinked(mem, l.groups, k);
            && mid.Keys == mem.Keys
            && (forall x :: x in l.users || x in l.freeGroups || x in l.freeUsers ==> SameLinks(mem, mid, x))
            && (forall x :: x in mem ==> SameContent(mem, mid, x))
  {
    ChainNeighbours(mem, l.groups, KGroup, k);
    var mid := Unlinked(mem, l.groups, k);
    forall x | x in l.users || x in l.freeGroups || x in l.freeUsers ensures SameLinks(mem, mid, x) {
      if x in l.users { ChainMember(mem, l.users, KUser, true, x); }
      if x in l.freeGroups { ChainMember(mem, l.freeGroups, KGroup, false, x); }
      if x in l.freeUsers { ChainMember(mem, l.freeUsers, KUser, false, x); }
    }
  }

  lemma DroppedLists(mem: Arena, l: Lists, tail: nat, index: map<string, int>, k: nat)
    requires Good(mem, l, tail, index) && k < |l.groups| && l.groups[k] in mem && mem[l.groups[k]].GroupCell?
    requires (k > 0 ==> l.groups[k - 1] in mem) && (k + 1 < |l.groups| ==> l.groups[k + 1] in mem)
    ensures Chains(Dropped(mem, l, k), Shortened(l, k)) && Covered(Dropped(mem, l, k), Shortened(l, k), tail)
  {
    hide Tables, Apart, MembersBut, Indexed;
    var id := l.groups[k];
    var mid, c := Unlinked(mem, l.groups, k), RetiredGroup(mem[id].group, First(l.freeGroups));
    var after, rest := mid[id := c], Without(l.groups, k);
    assert id in l.groups;
    ListsApart(mem, l, tail, index, id);
    ChainErases(mem, l.groups, KGroup, k);
    UnlinkGroupTouches(mem, l, k);
    ChainKeeps(mid, after, rest, KGroup, true);
    ChainKeeps(mem, mid, l.freeGroups, KGroup, false);
    ChainPushes(mid, l.freeGroups, id, c, KGroup);
    assert WithNext(c, First(l.freeGroups)) == c;
    ChainKeeps(mem, mid, l.users, KUser, true);
    ChainKeeps(mem, mid, l.freeUsers, KUser, false);
    ChainKeeps(mid, after, l.users, KUser, true);
    ChainKeeps(mid, after, l.freeUsers, KUser, false);
    WithoutMembers(l.groups, k);
    assert mid.Keys == mem.Keys;
    hide Chain, Without;
  }

  lemma DroppedIndexed(mem: Arena, after: Arena, groups: seq<int>, index: map<string, int>, k: nat, name: string)
    requires Indexed(mem, groups, index) && k < |groups| && Distinct(groups)
    requires groups[k] in mem && mem[groups[k]].GroupCell? && mem[groups[k]].group.name == name
    requires forall x :: x in mem && x != groups[k] ==> SameContent(mem, after, x)
    ensures Indexed(after, Without(groups, k), index - {name})
  {
    var rest, less, id := Without(groups, k), index - {name}, groups[k];
    WithoutMembers(groups, k);
    assert forall i :: 0 <= i < |rest| ==> rest[i] == groups[if i < k then i else i + 1];
    assert id in groups && index[name] == id;
    forall g | g in rest ensures g in groups && g != id {
      var i :| 0 <= i < |rest| && rest[i] == g;
      assert g == groups[if i < k then i else i + 1];
    }
    forall n | n in less
      ensures less[n] in rest && less[n] in after && after[less[n]].GroupCell? && after[less[n]].group.name == n
    {
      var g := index[n];
      assert g in groups && mem[g].group.name == n && SameContent(mem, after, g);
    }
    forall g | g in rest
      ensures g in after && after[g].GroupCell? && after[g].group.name in less && less[after[g].group.name] == g
    {
      assert SameContent(mem, after, g);
    }
  }

  /** The group is out of use; admins may still have it. */
  ghost predicate GoodBut(mem: Arena, l: Lists, tail: nat, index: map<string, int>, gid: int) {
    && Chains(mem, l) && Covered(mem, l, tail) && Tables(mem) && Apart(mem) && MembersBut(mem, {gid})
       && Indexed(mem, l.groups, index)
    && !IsLiveGroup(mem, gid)
  }

  lemma DroppedKeeps(mem: Arena, l: Lists, tail: nat, index: map<string, int>, k: nat)
    requires Good(mem, l, tail, index) && k < |l.groups| && l.groups[k] in mem && mem[l.groups[k]].GroupCell?
    requires (k > 0 ==> l.groups[k - 1] in mem) && (k + 1 < |l.groups| ==> l.groups[k + 1] in mem)
    ensures GoodBut(Dropped(mem, l, k), Shortened(l, k), tail, index - {mem[l.groups[k]].group.name}, l.groups[k])
    ensures forall x :: x in mem && x != l.groups[k] ==> SameContent(mem, Dropped(mem, l, k), x)
    ensures Dropped(mem, l, k).Keys == mem.Keys
  {
    hide Chain, Covered, Tables, Apart, MembersBut, Indexed, Unlinked, Without;
    var gid, after := l.groups[k], Dropped(mem, l, k);
    ChainIsDistinct(mem, l.groups, KGroup, true);
    DroppedLists(mem, l, tail, index, k);
    UnlinkGroupTouches(mem, l, k);
    assert forall x :: x in mem && x != gid ==> SameContent(mem, after, x);
    hide Chains;
    DroppedIndexed(mem, after, l.groups, index, k, mem[gid].group.name);
    assert UsersSame(mem, after, {}, {gid});
    UsersStay(mem, after, {}, {gid});
  }

  lemma ChainIsDistinct(mem: Arena, s: seq<int>, kind: Kind, live: bool)
    requires Chain(mem, s, kind, live)
    ensures Distinct(s)
  {}

  // ----- an admin loses a group

  /** Flags, joined with those of the groups. */
  function Joined(mem: Arena, gs: seq<int>, flags: FlagBits): FlagBits {
    if gs == [] then flags
    else
      var front := Joined(mem, gs[..|gs| - 1], flags);
      var g := gs[|gs| - 1];
      if g in mem && mem[g].GroupCell? then Either(front, mem[g].group.addFlags) else front
  }

  function Either(a: FlagBits, b: FlagBits): FlagBits { a | b }

  /** Some of the flags asked for are there. */
  predicate Has(flags: FlagBits, asked: FlagBits) {
    flags & asked != 0
  }

  predicate Gives(mem: Arena, g: int, asked: FlagBits) {
    g in mem && mem[g].GroupCell? && Has(mem[g].group.addFlags, asked)
  }

  /** Of the flags asked for, the joined ones have some exactly if the admin's own have, or those of one
      of the groups. */
  lemma {:induction false} JoinedHas(mem: Arena, gs: seq<int>, flags: FlagBits, asked: FlagBits)
    ensures Has(Joined(mem, gs, flags), asked) <==>
            Has(flags, asked) || exists k :: 0 <= k < |gs| && Gives(mem, gs[k], asked)
  {
    hide Has, Gives, Joined;
    JoinedUnfolds(mem, gs, flags);
    if gs != [] {
      var front, g := gs[..|gs| - 1], gs[|gs| - 1];
      JoinedHas(mem, front, flags, asked);
      JoinedMore(mem, gs, flags, asked);
      assert gs == front + [g];
    }
  }

  lemma JoinedUnfolds(mem: Arena, gs: seq<int>, flags: FlagBits)
    ensures gs == [] ==> Joined(mem, gs, flags) == flags
  {}

  lemma JoinedMore(mem: Arena, gs: seq<int>, flags: FlagBits, asked: FlagBits)
    requires gs != []
    ensures Has(Joined(mem, gs, flags), asked) <==>
            Has(Joined(mem, gs[..|gs| - 1], flags), asked) || Gives(mem, gs[|gs| - 1], asked)
  {
    hide Has, Either;
    var g := gs[|gs| - 1];
    if g in mem && mem[g].GroupCell? { EitherHas(Joined(mem, gs[..|gs| - 1], flags), mem[g].group.addFlags, asked); }
  }

  lemma EitherHas(a: FlagBits, b: FlagBits, asked: FlagBits)
    ensures Has(Either(a, b), asked) <==> Has(a, asked) || Has(b, asked)
  {
    assert (a | b) & asked == (a & asked) | (b & asked);
  }

  /** The admin `id` after a group is taken from it: the rest of its groups in order, and its
      effective flags worked out again from its own and theirs. */
  ghost predicate LosesGroup(mem: Arena, after: Arena, id: int, gid: int) {
    && IsUser(mem, id) && IsUser(after, id) && TableThere(mem, mem[id].user) && TableThere(after, after[id].user)
    && var u, v := mem[id].user, after[id].user;
    && var gs := GroupsOf(mem, u);
    if gid in gs then
      exists k: nat :: k < |gs| && gs[k] == gid && GroupsOf(after, v) == Without(gs, k)
        && v == u.(grpCount := u.grpCount - 1, serial := u.serial + 1, eflags := Joined(mem, Without(gs, k), u.flags))
    else v == u && GroupsOf(after, v) == gs
  }

  /** The arena with the table of an admin replaced by another of the same length, and its record. */
  ghost predicate TableChanged(mem: Arena, after: Arena, id: int, u: User) {
    && IsUser(mem, id) && after.Keys == mem.Keys && after[id] == UserCell(u)
    && u.magic == mem[id].user.magic && u.grpSize == mem[id].user.grpSize && u.grpTable == mem[id].user.grpTable
    && u.nextUser == mem[id].user.nextUser && u.prevUser == mem[id].user.prevUser
    && (forall x :: x in mem && x != id && x != u.grpTable ==> after[x] == mem[x])
    && (u.grpSize > 0 ==> u.grpTable in mem && mem[u.grpTable].TableCell? && after[u.grpTable].TableCell?
                          && |after[u.grpTable].table| == |mem[u.grpTable].table|)
    && (u.grpSize == 0 ==> u.grpTable !in mem)
  }

  /** Only the one admin's groups change. */
  lemma OthersKeepTables(mem: Arena, after: Arena, id: int, u: User, except: set<int>)
    requires Tables(mem) && Apart(mem) && MembersBut(mem, except) && TableChanged(mem, after, id, u)
             && u.grpCount <= u.grpSize
    requires IsRecord(mem[id], KUser, true) && MemberOf(after, u, except)
    ensures Tables(after) && Apart(after) && MembersBut(after, except)
    ensures forall x :: IsUser(mem, x) && x != id ==>
              after[x] == mem[x] && TableThere(after, after[x].user)
                && GroupsOf(after, after[x].user) == GroupsOf(mem, mem[x].user)
  {
    forall x | IsUser(after, x) ensures IsUser(mem, x) && (x != id ==> after[x] == mem[x]) { assert x in mem; }
    forall x | IsUser(mem, x) && x != id && mem[x].user.grpSize > 0
      ensures after[mem[x].user.grpTable] == mem[mem[x].user.grpTable]
    {
      assert TableThere(mem, mem[x].user);
    }
    forall x | IsUser(after, x) ensures TableThere(after, after[x].user) {
      assert IsUser(mem, x) && TableThere(mem, mem[x].user) && TableThere(mem, mem[id].user);
    }
    assert forall g :: IsLiveGroup(mem, g) ==> IsLiveGroup(after, g);
    forall x | IsUser(after, x)
      ensures if IsRecord(after[x], KUser, true) then MemberOf(after, after[x].user, except)
              else after[x].user.grpCount == 0
    {
      if x != id && IsRecord(after[x], KUser, true) { SameMember(mem, after, mem[x].user, after[x].user, except); }
    }
  }

  ghost predicate GoodExcept(mem: Arena, l: Lists, tail: nat, index: map<string, int>, except: set<int>) {
    Chains(mem, l) && Covered(mem, l, tail) && Tables(mem) && Apart(mem) && MembersBut(mem, except)
      && Indexed(mem, l.groups, index)
  }

  /** Links, kinds and names are the same. */
  ghost predicate SameFrame(mem: Arena, after: Arena) {
    && (forall x :: x in mem ==>
          && SameLinks(mem, after, x) && mem[x].UserCell? == after[x].UserCell?
             && mem[x].GroupCell? == after[x].GroupCell?
          && (mem[x].GroupCell? ==> after[x] == mem[x]))
    && (forall x :: x in after && x !in mem ==> after[x].TableCell?)
  }

  lemma FrameKeeps(mem: Arena, after: Arena, l: Lists, tail: nat, index: map<string, int>, end: nat)
    requires Chains(mem, l) && Covered(mem, l, tail) && Indexed(mem, l.groups, index) && SameFrame(mem, after)
    requires tail <= end && forall x :: x in after && x !in mem ==> 0 <= x < end
    ensures Chains(after, l) && Covered(after, l, end) && Indexed(after, l.groups, index)
  {
    hide Chain, LinkedAt;
    ChainFrame(mem, after, l.users, KUser, true);
    ChainFrame(mem, after, l.freeUsers, KUser, false);
    ChainFrame(mem, after, l.groups, KGroup, true);
    ChainFrame(mem, after, l.freeGroups, KGroup, false);
    IndexKeeps(mem, after, l.groups, index);
  }

  lemma ChainFrame(mem: Arena, after: Arena, s: seq<int>, kind: Kind, live: bool)
    requires Chain(mem, s, kind, live) && SameFrame(mem, after)
    ensures Chain(after, s, kind, live)
  {
    forall i | 0 <= i < |s| ensures SameLinks(mem, after, s[i]) { assert LinkedAt(mem, s, kind, live, i); }
    ChainKeeps(mem, after, s, kind, live);
  }

  lemma TableChangeKeeps(mem: Arena, after: Arena, l: Lists, tail: nat, index: map<string, int>, id: int, u: User,
                         except: set<int>)
    requires GoodExcept(mem, l, tail, index, except) && TableChanged(mem, after, id, u) && u.grpCount <= u.grpSize
    requires IsRecord(mem[id], KUser, true) && MemberOf(after, u, except)
    ensures GoodExcept(after, l, tail, index, except)
    ensures forall x :: IsUser(mem, x) && x != id ==>
              after[x] == mem[x] && TableThere(after, after[x].user)
                && GroupsOf(after, after[x].user) == GroupsOf(mem, mem[x].user)
    ensures forall x :: x in mem && mem[x].GroupCell? ==> x in after && after[x] == mem[x]
  {
    hide Chains, Covered, Tables, Apart, MembersBut, Indexed, MemberOf;
    assert SameFrame(mem, after);
    FrameKeeps(mem, after, l, tail, index, tail);
    OthersKeepTables(mem, after, id, u, except);
  }

  /** An admin gets another table, at the end of the arena. */
  ghost predicate TableAdded(mem: Arena, after: Arena, id: int, u: User, tbl: int, t: seq<int>) {
    && IsUser(mem, id) && tbl !in mem && tbl >= 0 && |t| == u.grpSize > 0 && u.grpTable == tbl
    && after == mem[tbl := TableCell(t)][id := UserCell(u)]
    && u.magic == mem[id].user.magic && u.nextUser == mem[id].user.nextUser && u.prevUser == mem[id].user.prevUser
  }

  lemma TableAddedKeeps(mem: Arena, after: Arena, l: Lists, tail: nat, index: map<string, int>, id: int, u: User,
                        tbl: int,
                        t: seq<int>, end: nat)
    requires GoodExcept(mem, l, tail, index, {}) && TableAdded(mem, after, id, u, tbl, t) && u.grpCount <= u.grpSize
    requires IsRecord(mem[id], KUser, true) && MemberOf(after, u, {}) && tail <= tbl < end
    ensures GoodExcept(after, l, end, index, {})
  {
    hide Chains, Covered, Indexed, Tables, Apart, MembersBut, MemberOf;
    assert SameFrame(mem, after);
    FrameKeeps(mem, after, l, tail, index, end);
    AddedTables(mem, after, id, u, tbl, t);
  }

  lemma AddedTables(mem: Arena, after: Arena, id: int, u: User, tbl: int, t: seq<int>)
    requires Tables(mem) && Apart(mem) && MembersBut(mem, {}) && TableAdded(mem, after, id, u, tbl, t)
             && u.grpCount <= u.grpSize
    requires IsRecord(mem[id], KUser, true) && MemberOf(after, u, {})
    ensures Tables(after) && Apart(after) && MembersBut(after, {})
  {
    hide MemberOf;
    assert forall x :: IsUser(after, x) ==> IsUser(mem, x) && (x != id ==> after[x] == mem[x]);
    forall x | IsUser(after, x) ensures TableThere(after, after[x].user) { assert TableThere(mem, mem[x].user); }
    assert forall g :: IsLiveGroup(mem, g) ==> IsLiveGroup(after, g);
    forall x | IsUser(after, x)
      ensures if IsRecord(after[x], KUser, true) then MemberOf(after, after[x].user, {})
              else after[x].user.grpCount == 0
    {
      assert IsUser(mem, x);
      if x != id && IsRecord(after[x], KUser, true) { SameMember(mem, after, mem[x].user, after[x].user, {}); }
    }
    AddedApart(mem, after, id, u, tbl, t);
  }

  lemma AddedApart(mem: Arena, after: Arena, id: int, u: User, tbl: int, t: seq<int>)
    requires Tables(mem) && Apart(mem) && TableAdded(mem, after, id, u, tbl, t)
    ensures Apart(after)
  {
    forall a, b | IsUser(after, a) && IsUser(after, b) && a != b && after[a].user.grpSize > 0
      && after[b].user.grpSize > 0
      ensures after[a].user.grpTable != after[b].user.grpTable
    {
      assert IsUser(mem, a) && IsUser(mem, b) && TableThere(mem, mem[a].user) && TableThere(mem, mem[b].user);
    }
  }
}
