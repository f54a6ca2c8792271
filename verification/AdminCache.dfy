/**
 The admin cache: admins and groups are made, found, joined and taken out of use, all in one arena.

 A place that no record begins at is taken to hold no record: the program tells records by a
 number at their beginning.
 */
module AdminCaches {
  import opened Common
  import opened AdminArena
  import opened AdminState

  const USER_BYTES := 56
  const GROUP_BYTES := 36
  const INT_BYTES := 4

  class AdminCache {
    var mem: Arena
    var tail: nat
    var size: nat
    var firstUser: int
    var lastUser: int
    var freeUserList: int
    var firstGroup: int
    var lastGroup: int
    var freeGroupList: int
    var groups: map<string, int>
    ghost var l: Lists

    ghost predicate Valid()
      reads this
    {
      && Good(mem, l, tail, groups) && tail < size
      && firstUser == First(l.users) && lastUser == Last(l.users) && freeUserList == First(l.freeUsers)
      && firstGroup == First(l.groups) && lastGroup == Last(l.groups) && freeGroupList == First(l.freeGroups)
    }

    constructor (initSize: nat)
      requires initSize > 0
      ensures Valid() && l == NO_LISTS && groups == map[]
    {
      mem, tail, size, groups := map[], 0, initSize, map[];
      firstUser, lastUser, freeUserList := NOBODY, NOBODY, NOBODY;
      firstGroup, lastGroup, freeGroupList := NOBODY, NOBODY, NOBODY;
      l := NO_LISTS;
      EmptyIsGood();
    }

    /** More of the arena: the new part begins where the old one ended. */
    method CreateMem(addsize: nat) returns (idx: nat)
      requires tail < size && addsize > 0
      modifies this`tail, this`size
      ensures idx == old(tail) && tail == old(tail) + addsize && tail < size && size >= old(size)
    {
      idx := tail;
      while tail + addsize >= size
        invariant size >= old(size) && size > 0 && tail == old(tail)
        decreases tail + addsize - size
      {
        size := size * 2;
      }
      tail := tail + addsize;
    }

    /** A new admin without flags or groups, behind the others. */
    method CreateAdmin(name: string) returns (id: int)
      requires Valid()
      modifies this
      ensures Valid() && l == old(l).(users := old(l).users + [id], freeUsers := RestOf(old(l).freeUsers))
              && groups == old(groups)
      ensures IsLiveUser(mem, id) && mem[id].user.flags == 0 && mem[id].user.eflags == 0 && mem[id].user.grpCount == 0
      ensures mem[id].user.name == name && mem[id].user.immunity == 0 && !IsLiveUser(old(mem), id)
      ensures forall x :: x in old(mem) && x != id ==> SameContent(old(mem), mem, x)
    {
      hide Good;
      var u: User;
      ghost var was, lists := mem, l;
      ghost var end: nat;
      FirstFree(mem, l, tail, groups);
      if freeUserList != NOBODY {
        id := freeUserList;
        u := mem[id].user;
        assert u.magic == USR_MAGIC_UNSET;
        freeUserList := u.nextUser;
      } else {
        id := CreateMem(USER_BYTES);
        var junk: int := *;
        u := User(0, 0, 0, "", 0, 0, NOBODY, 0, junk, 0, 0);
      }
      u := u.(flags := 0, eflags := 0, grpCount := 0, magic := USR_MAGIC_SET, immunity := 0, serial := 1);
      u := u.(name := name);
      CreateAdminKeeps(was, lists, old(tail), groups, id, UserCell(u), tail);
      LinkUser(id, u);
      l := l.(users := l.users + [id], freeUsers := RestOf(l.freeUsers));
    }

    /** Puts a record behind the last of the list. */
    method LinkUser(id: int, user: User)
      requires firstUser == First(l.users) && lastUser == Last(l.users) && id != NOBODY && id !in l.users
      requires (l.users != [] ==> Last(l.users) in mem && mem[Last(l.users)].UserCell? && First(l.users) != NOBODY)
      modifies this`mem, this`firstUser, this`lastUser
      ensures mem == Appended(old(mem), l.users, id, UserCell(user))
      ensures firstUser == First(l.users + [id]) && lastUser == id
    {
      var u := user;
      mem := mem[id := UserCell(u)];
      if firstUser == NOBODY {
        firstUser, lastUser := id, id;
      } else {
        assert lastUser in l.users;
        mem := mem[lastUser := UserCell(mem[lastUser].user.(nextUser := id))];
        u := u.(prevUser := lastUser);
        lastUser := id;
      }
      mem := mem[id := UserCell(u.(nextUser := NOBODY))];
    }

    /** Takes an admin out of use. */
    method InvalidateAdmin(id: int) returns (ok: bool)
      requires Valid()
      modifies this
      ensures Valid() && ok == IsLiveUser(old(mem), id) && groups == old(groups)
      ensures !ok ==> mem == old(mem) && l == old(l)
      ensures ok ==>
                && (exists k: nat :: k < |old(l).users| && old(l).users[k] == id
                     && l == old(l).(users := Without(old(l).users, k), freeUsers := [id] + old(l).freeUsers))
                && !IsLiveUser(mem, id)
                && (forall x :: x in old(mem) && x != id ==> SameContent(old(mem), mem, x))
    {
      hide Good, Unlinked, Without, Linkable;
      if id !in mem || !mem[id].UserCell? || mem[id].user.magic != USR_MAGIC_SET { return false; }
      ghost var k := PlaceOfUser(mem, l, tail, groups, id);
      InvalidateOne(mem, l, tail, groups, k);
      UnlinkUser(id, k);
      mem := mem[id := Retired(mem[id].user, freeUserList)];
      freeUserList := id;
      l := l.(users := Without(l.users, k), freeUsers := [id] + l.freeUsers);
      ok := true;
    }

    /** Takes a record out of the list of admins in use. */
    method UnlinkUser(id: int, ghost k: nat)
      requires k < |l.users| && l.users[k] == id && firstUser == First(l.users) && lastUser == Last(l.users)
      requires Linkable(mem, l.users, KUser, k) && mem[id].UserCell?
      modifies this`mem, this`firstUser, this`lastUser
      ensures mem == Unlinked(old(mem), l.users, k)
      ensures firstUser == First(Without(l.users, k)) && lastUser == Last(Without(l.users, k))
    {
      var u := mem[id].user;
      if id == firstUser && id == lastUser {
        firstUser, lastUser := NOBODY, NOBODY;
      } else if id == firstUser {
        firstUser := u.nextUser;
        mem := mem[firstUser := UserCell(mem[firstUser].user.(prevUser := NOBODY))];
      } else if id == lastUser {
        lastUser := u.prevUser;
        mem := mem[lastUser := UserCell(mem[lastUser].user.(nextUser := NOBODY))];
      } else {
        mem := mem[u.prevUser := UserCell(mem[u.prevUser].user.(nextUser := u.nextUser))];
        mem := mem[u.nextUser := UserCell(mem[u.nextUser].user.(prevUser := u.prevUser))];
      }
    }

    /** Takes every admin out of use. */
    method InvalidateAllAdmins()
      requires Valid()
      modifies this
      ensures Valid() && l.users == [] && l.groups == old(l).groups && groups == old(groups)
      ensures GroupsStand(old(mem), mem) && forall x :: x in old(l).users ==> x in l.freeUsers
    {
      hide Good;
      while firstUser != NOBODY
        invariant Valid() && l.groups == old(l).groups && groups == old(groups)
        invariant GroupsStand(old(mem), mem)
        invariant forall x :: x in old(l).users ==> x in l.users || x in l.freeUsers
        decreases |l.users|
      {
        FirstUserIsLive(mem, l, tail, groups);
        ghost var was, users := mem, l.users;
        var ok := InvalidateAdmin(firstUser);
        GroupsStandOn(old(mem), was, mem, users[0]);
        OnlyOneLeaves(users, l.users, l.freeUsers, users[0]);
      }
      FirstUserIsLive(mem, l, tail, groups);
    }

    // ----- groups

    /** A new group of a name that is not taken. */
    method AddGroup(name: string) returns (id: int)
      requires Valid()
      modifies this
      ensures Valid() && (id == NOBODY <==> name in old(groups))
      ensures id == NOBODY ==> mem == old(mem) && l == old(l) && groups == old(groups)
      ensures id != NOBODY ==>
                && l == old(l).(groups := old(l).groups + [id], freeGroups := RestOf(old(l).freeGroups))
                && groups == old(groups)[name := id] && IsLiveGroup(mem, id) && mem[id].group.addFlags == 0
                && mem[id].group.immunity == 0
                && (forall x :: x in old(mem) && x != id ==> SameContent(old(mem), mem, x))
    {
      hide Good, Appended, SameContent;
      if name in groups { return NOBODY; }
      ghost var was, lists, index := mem, l, groups;
      FirstFreeGroup(mem, l, tail, groups);
      var junk: int := *;
      if freeGroupList != NOBODY {
        id := freeGroupList;
        assert mem[id].group.magic == GRP_MAGIC_UNSET;
        freeGroupList := mem[id].group.nextGrp;
        junk := mem[id].group.prevGrp;
      } else {
        id := CreateMem(GROUP_BYTES);
      }
      var g := Group(GRP_MAGIC_SET, 0, NOBODY, junk, name, 0);
      AddGroupAtPlace(was, lists, old(tail), index, id, GroupCell(g), name, tail);
      LinkGroup(id, g);
      groups := groups[name := id];
      l := l.(groups := l.groups + [id], freeGroups := RestOf(l.freeGroups));
    }

    method LinkGroup(id: int, group: Group)
      requires firstGroup == First(l.groups) && lastGroup == Last(l.groups) && id != NOBODY && id !in l.groups
      requires group.nextGrp == NOBODY
      requires (l.groups != [] ==>
                  Last(l.groups) in mem && IsRecord(mem[Last(l.groups)], KGroup, true) && First(l.groups) != NOBODY)
      modifies this`mem, this`firstGroup, this`lastGroup
      ensures mem == (if l.groups == [] then old(mem)[id := GroupCell(group.(prevGrp := NOBODY))]
                      else Appended(old(mem), l.groups, id, GroupCell(group)))
      ensures firstGroup == First(l.groups + [id]) && lastGroup == id
    {
      mem := mem[id := GroupCell(group)];
      if firstGroup == NOBODY {
        firstGroup, lastGroup := id, id;
        mem := mem[id := GroupCell(mem[id].group.(prevGrp := NOBODY))];
      } else {
        assert lastGroup in l.groups;
        assert mem[lastGroup].group.magic == GRP_MAGIC_SET;
        mem := mem[lastGroup := GroupCell(mem[lastGroup].group.(nextGrp := id))];
        mem := mem[id := GroupCell(mem[id].group.(prevGrp := lastGroup))];
        lastGroup := id;
      }
    }

    /** The group of a name, if there is one. */
    method FindGroupByName(name: string) returns (id: int)
      requires Valid()
      ensures id != NOBODY ==> id in l.groups && IsLiveGroup(mem, id) && mem[id].group.name == name
      ensures id == NOBODY ==> forall g :: g in l.groups && IsLiveGroup(mem, g) ==> mem[g].group.name != name
    {
      if name !in groups { return NOBODY; }
      NamedIsLive(mem, l, tail, groups, name);
      id := groups[name];
      if id !in mem || !mem[id].GroupCell? || mem[id].group.magic != GRP_MAGIC_SET { return NOBODY; }
    }

    /** Takes a group out of use, and away from every admin that has it. */
    method InvalidateGroup(id: int)
      requires Valid()
      modifies this
      ensures Valid()
      ensures !IsLiveGroup(old(mem), id) ==> mem == old(mem) && l == old(l) && groups == old(groups)
      ensures IsLiveGroup(old(mem), id) ==>
                groups == old(groups) - {old(mem)[id].group.name} && GroupTakenOut(old(mem), mem, old(l), l, id)
    {
      hide Good, GoodBut, OthersStay, GroupTakenOut, TableThere, Distinct, GroupsSame;
      if id !in mem || !mem[id].GroupCell? || mem[id].group.magic != GRP_MAGIC_SET { return; }
      ghost var k := PlaceOfGroup(mem, l, tail, groups, id);
      UsersBefore(mem, l, tail, groups);
      DropGroup(id, k);
      ghost var dropped := mem;
      TakeFromAll(id);
      AfterAll(old(mem), dropped, mem, l, tail, groups, id);
      TakenOut(old(mem), dropped, mem, old(l), l, id, k);
    }

    /** What InvalidateGroup does before it goes through the admins. */
    method DropGroup(id: int, ghost k: nat)
      requires Valid() && k < |l.groups| && l.groups[k] == id
      modifies this
      ensures GoodBut(mem, l, tail, groups, id) && tail < size && Ends()
      ensures l == Shortened(old(l), k) && groups == old(groups) - {old(mem)[id].group.name}
      ensures id in old(mem) && id in mem && mem.Keys == old(mem).Keys && mem[id].GroupCell?
      ensures OthersStay(old(mem), mem, id)
    {
      hide Good, GoodBut, Unlinked, Without, Linkable, OthersStay;
      DropOne(mem, l, tail, groups, k);
      groups := groups - {mem[id].group.name};
      UnlinkGroup(id, k);
      mem := mem[id := RetiredGroup(mem[id].group, freeGroupList)];
      freeGroupList := id;
      l := Shortened(l, k);
    }

    ghost predicate Ends()
      reads this
    {
      && firstUser == First(l.users) && lastUser == Last(l.users) && freeUserList == First(l.freeUsers)
      && firstGroup == First(l.groups) && lastGroup == Last(l.groups) && freeGroupList == First(l.freeGroups)
    }

    method UnlinkGroup(id: int, ghost k: nat)
      requires k < |l.groups| && l.groups[k] == id && firstGroup == First(l.groups) && lastGroup == Last(l.groups)
      requires Linkable(mem, l.groups, KGroup, k) && mem[id].GroupCell?
      modifies this`mem, this`firstGroup, this`lastGroup
      ensures mem == Unlinked(old(mem), l.groups, k)
      ensures firstGroup == First(Without(l.groups, k)) && lastGroup == Last(Without(l.groups, k))
    {
      var g := mem[id].group;
      if id == firstGroup && id == lastGroup {
        firstGroup, lastGroup := NOBODY, NOBODY;
      } else if id == firstGroup {
        firstGroup := g.nextGrp;
        mem := mem[firstGroup := GroupCell(mem[firstGroup].group.(prevGrp := NOBODY))];
      } else if id == lastGroup {
        lastGroup := g.prevGrp;
        mem := mem[lastGroup := GroupCell(mem[lastGroup].group.(nextGrp := NOBODY))];
      } else {
        mem := mem[g.prevGrp := GroupCell(mem[g.prevGrp].group.(nextGrp := g.nextGrp))];
        mem := mem[g.nextGrp := GroupCell(mem[g.nextGrp].group.(prevGrp := g.prevGrp))];
      }
    }

    /** Goes through the admins in use and takes the group from those that have it. */
    method TakeFromAll(gid: int)
      requires GoodBut(mem, l, tail, groups, gid) && Ends()
      modifies this`mem
      ensures GoodBut(mem, l, tail, groups, gid)
      ensures forall j :: 0 <= j < |l.users| ==> LosesGroup(old(mem), mem, l.users[j], gid)
      ensures GroupsSame(old(mem), mem)
    {
      hide GoodBut, LosesGroup, Untouched, GroupsSame;
      ghost var was := mem;
      var idx := firstUser;
      ghost var i := 0;
      UsersLinked(mem, l, tail, groups, gid, 0);
      NothingTouched(mem, l, gid);
      while idx != NOBODY
        invariant i <= |l.users| && idx == (if i < |l.users| then l.users[i] else NOBODY)
        invariant GoodBut(mem, l, tail, groups, gid) && Untouched(was, mem, l, i)
        invariant forall j :: 0 <= j < i ==> LosesGroup(was, mem, l.users[j], gid)
        decreases |l.users| - i
      {
        UsersLinked(mem, l, tail, groups, gid, i);
        ghost var before := mem;
        mem := TakeFrom(mem, idx, gid, l, tail, groups);
        StillLost(was, before, mem, l, tail, groups, gid, i);
        UsersLinked(mem, l, tail, groups, gid, i);
        idx := mem[idx].user.nextUser;
        i := i + 1;
        UsersLinked(mem, l, tail, groups, gid, i);
      }
      UsersLinked(mem, l, tail, groups, gid, i);
      UntouchedGroups(was, mem, l, i);
    }

    /** An admin gets a group it does not have, behind those it has; its table grows when it is full. */
    method AdminInheritGroup(id: int, gid: int) returns (ok: bool)
      requires Valid()
      modifies this
      ensures Valid() && l == old(l) && groups == old(groups)
      ensures ok == (IsLiveUser(old(mem), id) && IsLiveGroup(old(mem), gid) && !HasGroup(old(mem), id, gid))
      ensures if ok then GainsGroup(old(mem), mem, id, gid) else mem == old(mem)
    {
      hide Good, GainsGroup;
      if id !in mem || !mem[id].UserCell? || mem[id].user.magic != USR_MAGIC_SET { return false; }
      if gid !in mem || !mem[gid].GroupCell? || mem[gid].group.magic != GRP_MAGIC_SET { return false; }
      LiveAdmin(mem, l, tail, groups, id);
      var u, g := mem[id].user, mem[gid].group;
      if u.grpCount != 0 {
        var has := Holds(mem[u.grpTable].table, u.grpCount, gid);
        if has { return false; }
      }
      var after := Gained(u, g);
      if u.grpCount + 1 > u.grpSize {
        GrowTable(id, gid, after);
      } else {
        var table := mem[u.grpTable].table[u.grpCount := gid];
        TableFills(mem, l, tail, groups, id, gid, after, table);
        mem := mem[u.grpTable := TableCell(table)][id := UserCell(after)];
      }
      ok := true;
    }

    /** Gives an admin a larger table, with what it had in the old one and the new group. */
    method GrowTable(id: int, gid: int, v: User)
      requires Valid() && IsLiveUser(mem, id) && IsLiveGroup(mem, gid) && !HasGroup(mem, id, gid)
               && TableThere(mem, mem[id].user)
      requires mem[id].user.grpCount == mem[id].user.grpSize && v == Gained(mem[id].user, mem[gid].group)
      modifies this`mem, this`tail, this`size
      ensures Valid() && GainsGroup(old(mem), mem, id, gid)
    {
      hide Good, GainsGroup, TableThere, GroupsOf, HasGroup, Gained;
      var u := mem[id].user;
      var newSize := if u.grpSize == 0 then 2 else u.grpSize * 2;
      ghost var end := tail;
      var tbl := CreateMem(newSize * INT_BYTES);
      var table := NewTable(mem, u, newSize, gid);
      var after := v.(grpTable := tbl, grpSize := newSize);
      TableGrows(mem, l, end, groups, id, gid, after, tbl, table, tail);
      mem := mem[tbl := TableCell(table)][id := UserCell(after)];
    }

    /** Forgets all admins and groups. */
    method InvalidateGroupCache()
      requires Valid()
      modifies this
      ensures Valid() && l == NO_LISTS && groups == map[] && mem == map[]
    {
      hide *;
      ValidMeans();
      ghost var index, i := groups, 0;
      freeGroupList := NOBODY;
      groups := map[];
      var cur := firstGroup;
      GroupsLinked(mem, l, tail, index, 0);
      while cur != NOBODY
        invariant i <= |l.groups| && cur == (if i < |l.groups| then l.groups[i] else NOBODY)
        decreases |l.groups| - i
        modifies {}
      {
        GroupsLinked(mem, l, tail, index, i);
        assert mem[cur].group.magic == GRP_MAGIC_SET;
        cur := mem[cur].group.nextGrp;
        i := i + 1;
        GroupsLinked(mem, l, tail, index, i);
      }
      firstGroup, lastGroup := NOBODY, NOBODY;
      firstUser, lastUser, freeUserList := NOBODY, NOBODY, NOBODY;
      tail := 0;
      mem := map[];
      l := NO_LISTS;
      EmptyIsValid();
    }

    lemma ValidMeans()
      requires Valid()
      ensures Good(mem, l, tail, groups) && tail < size
              && firstGroup == (if l.groups == [] then NOBODY else l.groups[0])
    {
      hide Good;
    }

    lemma EmptyIsValid()
      requires mem == map[] && l == NO_LISTS && groups == map[] && tail == 0 < size
      requires firstUser == NOBODY && lastUser == NOBODY && freeUserList == NOBODY
      requires firstGroup == NOBODY && lastGroup == NOBODY && freeGroupList == NOBODY
      ensures Valid()
    {
      EmptyIsGood();
    }
  }

  /** Every group is what it was but for its links. */
  ghost predicate GroupsStand(was: Arena, mem: Arena) {
    forall x :: x in was && was[x].GroupCell? ==> SameContent(was, mem, x)
  }

  lemma GroupsStandOn(was: Arena, mid: Arena, mem: Arena, id: int)
    requires GroupsStand(was, mid) && IsLiveUser(mid, id)
    requires forall x :: x in mid && x != id ==> SameContent(mid, mem, x)
    ensures GroupsStand(was, mem)
  {
    forall x | x in was && was[x].GroupCell? ensures SameContent(was, mem, x) {
      assert SameContent(was, mid, x) && SameContent(mid, mem, x);
    }
  }

  lemma OnlyOneLeaves(users: seq<int>, after: seq<int>, free: seq<int>, id: int)
    requires exists k: nat :: k < |users| && users[k] == id && after == Without(users, k)
    requires id in free
    ensures forall x :: x in users ==> x in after || x in free
  {
    var k: nat :| k < |users| && users[k] == id && after == Without(users, k);
    forall x | x in users && x != id ensures x in after {
      var i :| 0 <= i < |users| && users[i] == x;
      assert after[if i < k then i else i - 1] == x;
    }
  }

  /** A record whose neighbours are there, and linked to it. */
  ghost predicate Linkable(mem: Arena, s: seq<int>, kind: Kind, k: nat) {
    && k < |s| && s[k] in mem && IsRecord(mem[s[k]], kind, true)
    && NextOf(mem[s[k]]) == (if k + 1 < |s| then s[k + 1] else NOBODY)
    && (k > 0 ==>
          s[k - 1] in mem && PrevOf(mem[s[k]]) == s[k - 1] && s[k - 1] != s[k] && IsRecord(mem[s[k - 1]], kind, true))
    && (k + 1 < |s| ==> s[k + 1] in mem && s[k + 1] != s[k] && IsRecord(mem[s[k + 1]], kind, true))
    && (0 < k < |s| - 1 ==> s[k - 1] != s[k + 1])
    && (s[k] == First(s) <==> k == 0) && (s[k] == Last(s) <==> k == |s| - 1)
  }

  lemma PlaceOfUser(mem: Arena, l: Lists, tail: nat, index: map<string, int>, id: int) returns (k: nat)
    requires Good(mem, l, tail, index) && IsLiveUser(mem, id)
    ensures k < |l.users| && l.users[k] == id
  {
    ListsApart(mem, l, tail, index, id);
    k :| 0 <= k < |l.users| && l.users[k] == id;
  }

  lemma FirstUserIsLive(mem: Arena, l: Lists, tail: nat, index: map<string, int>)
    requires Good(mem, l, tail, index)
    ensures First(l.users) != NOBODY <==> l.users != []
    ensures l.users != [] ==> IsLiveUser(mem, First(l.users))
  {
    if l.users != [] { assert First(l.users) in l.users; ChainMember(mem, l.users, KUser, true, First(l.users)); }
  }

  lemma InvalidateOne(mem: Arena, l: Lists, tail: nat, index: map<string, int>, k: nat)
    requires Good(mem, l, tail, index) && k < |l.users|
    ensures Linkable(mem, l.users, KUser, k)
    ensures var id := l.users[k];
            var mid := Unlinked(mem, l.users, k);
            && id in mid && mid[id] == mem[id]
            && var after := mid[id := Retired(mem[id].user, First(l.freeUsers))];
            && Good(after, l.(users := Without(l.users, k), freeUsers := [id] + l.freeUsers), tail, index)
            && (forall x :: x in mem && x != id ==> SameContent(mem, after, x))
  {
    hide Tables, Apart, MembersBut, Indexed, Covered, Chain, Unlinked, Without, First, Last;
    ChainNeighbours(mem, l.users, KUser, k);
    InvalidateAdminKeeps(mem, l, tail, index, k);
    UnlinkTouches(mem, l, k);
    UnlinkedSame(mem, l.users, KUser, k);
  }

  lemma UnlinkedSame(mem: Arena, s: seq<int>, kind: Kind, k: nat)
    requires Chain(mem, s, kind, true) && k < |s| && (k > 0 ==> s[k - 1] in mem) && (k + 1 < |s| ==> s[k + 1] in mem)
    ensures s[k] in mem && s[k] in Unlinked(mem, s, k) && Unlinked(mem, s, k)[s[k]] == mem[s[k]]
  {
    ChainNeighbours(mem, s, kind, k);
    hide Chain;
  }

  lemma FirstFreeGroup(mem: Arena, l: Lists, tail: nat, index: map<string, int>)
    requires Good(mem, l, tail, index)
    ensures l.freeGroups != [] <==> First(l.freeGroups) != NOBODY
    ensures l.freeGroups != [] ==>
              && l.freeGroups[0] in mem && IsRecord(mem[l.freeGroups[0]], KGroup, false)
              && mem[l.freeGroups[0]].group.nextGrp == First(RestOf(l.freeGroups))
    ensures l.groups != [] ==>
              Last(l.groups) in mem && IsRecord(mem[Last(l.groups)], KGroup, true) && First(l.groups) != NOBODY
  {
    if l.freeGroups != [] { ChainPops(mem, l.freeGroups, KGroup); }
    if l.groups != [] {
      assert Last(l.groups) in l.groups && First(l.groups) in l.groups;
      ChainMember(mem, l.groups, KGroup, true, Last(l.groups));
      ChainMember(mem, l.groups, KGroup, true, First(l.groups));
    }
    hide Chain, Covered, Tables, Apart, MembersBut, Indexed;
  }

  lemma AddGroupAtPlace(mem: Arena, l: Lists, tail: nat, index: map<string, int>, id: int, c: Cell, name: string,
                        end: nat)
    requires Good(mem, l, tail, index) && PlaceForGroup(mem, l, tail, id, end) && FreshGroup(c, name) && name !in index
    requires c.group.nextGrp == NOBODY && c.group.addFlags == 0 && c.group.immunity == 0
    requires l.groups == [] || Last(l.groups) in mem
    ensures id >= 0 && id !in l.groups
    ensures var after := if l.groups == [] then mem[id := GroupCell(c.group.(prevGrp := NOBODY))]
            else Appended(mem, l.groups, id, c);
            && Good(after, l.(groups := l.groups + [id], freeGroups := RestOf(l.freeGroups)), end, index[name := id])
            && IsLiveGroup(after, id) && after[id].group.addFlags == 0 && after[id].group.immunity == 0
            && (forall x :: x in mem && x != id ==> SameContent(mem, after, x))
  {
    hide Good, Chain, Covered;
    var d := if l.groups == [] then GroupCell(c.group.(prevGrp := NOBODY)) else c;
    AddGroupTouches(mem, l, tail, index, id, d, name, end);
    AddGroupKeeps(mem, l, tail, index, id, d, name, end);
  }

  lemma NamedIsLive(mem: Arena, l: Lists, tail: nat, index: map<string, int>, name: string)
    requires Good(mem, l, tail, index) && name in index
    ensures index[name] in l.groups && IsLiveGroup(mem, index[name]) && mem[index[name]].group.name == name
            && index[name] >= 0
  {
    ChainMember(mem, l.groups, KGroup, true, index[name]);
  }

  lemma FirstFree(mem: Arena, l: Lists, tail: nat, index: map<string, int>)
    requires Good(mem, l, tail, index)
    ensures l.freeUsers != [] <==> First(l.freeUsers) != NOBODY
    ensures l.freeUsers != [] ==>
              && l.freeUsers[0] in mem && IsRecord(mem[l.freeUsers[0]], KUser, false)
              && mem[l.freeUsers[0]].user.nextUser == First(RestOf(l.freeUsers))
  {
    if l.freeUsers != [] { ChainPops(mem, l.freeUsers, KUser); }
  }

  /** Either way of making an admin. */
  lemma CreateAdminKeeps(mem: Arena, l: Lists, tail: nat, index: map<string, int>, id: int, c: Cell, end: nat)
    requires Good(mem, l, tail, index) && Fresh(c)
    requires if l.freeUsers != [] then
               && id == l.freeUsers[0] && end == tail && id in mem && mem[id].UserCell?
               && c.user.grpSize == mem[id].user.grpSize && c.user.grpTable == mem[id].user.grpTable
             else id == tail && end > tail && c.user.grpSize == 0 && c.user.grpTable == NOBODY
    ensures id >= 0 && id !in l.users && !IsLiveUser(mem, id)
    ensures l.users != [] ==> Last(l.users) in mem && mem[Last(l.users)].UserCell? && First(l.users) != NOBODY
    ensures var after := Appended(mem, l.users, id, c);
            && Good(after, l.(users := l.users + [id], freeUsers := RestOf(l.freeUsers)), end, index)
            && (forall x :: x in mem && x != id ==> SameContent(mem, after, x))
            && id in after && after[id].UserCell?
               && after[id].user.(nextUser := c.user.nextUser, prevUser := c.user.prevUser) == c.user
  {
    UsersEnds(mem, l, tail, index);
    if l.freeUsers != [] {
      assert id in l.freeUsers;
      ListsApart(mem, l, tail, index, id);
      ChainMember(mem, l.freeUsers, KUser, false, id);
      CreateFromFree(mem, l, tail, index, c);
      CreateChanges(mem, l, tail, index, id, c);
    } else {
      assert tail !in mem;
      NotListed(mem, l, id);
      CreateNew(mem, l, tail, index, c, end);
    }
    hide Good, Chains, Chain, Covered;
  }

  lemma UsersEnds(mem: Arena, l: Lists, tail: nat, index: map<string, int>)
    requires Good(mem, l, tail, index)
    ensures l.users != [] ==> Last(l.users) in mem && mem[Last(l.users)].UserCell? && First(l.users) != NOBODY
    ensures l.groups != [] ==> Last(l.groups) in mem && mem[Last(l.groups)].GroupCell? && First(l.groups) != NOBODY
  {
    if l.users != [] {
      assert Last(l.users) in l.users && First(l.users) in l.users;
      ChainMember(mem, l.users, KUser, true, Last(l.users));
      ChainMember(mem, l.users, KUser, true, First(l.users));
    }
    if l.groups != [] {
      assert Last(l.groups) in l.groups && First(l.groups) in l.groups;
      ChainMember(mem, l.groups, KGroup, true, Last(l.groups));
      ChainMember(mem, l.groups, KGroup, true, First(l.groups));
    }
    hide Chain, Tables, Apart, MembersBut, Indexed, Covered;
  }

  lemma PlaceOfGroup(mem: Arena, l: Lists, tail: nat, index: map<string, int>, id: int) returns (k: nat)
    requires Good(mem, l, tail, index) && IsLiveGroup(mem, id)
    ensures k < |l.groups| && l.groups[k] == id
  {
    ListsApart(mem, l, tail, index, id);
    k :| 0 <= k < |l.groups| && l.groups[k] == id;
  }

  lemma DropOne(mem: Arena, l: Lists, tail: nat, index: map<string, int>, k: nat)
    requires Good(mem, l, tail, index) && k < |l.groups|
    ensures Linkable(mem, l.groups, KGroup, k)
    ensures var id := l.groups[k];
            && mem[id].GroupCell?
            && var mid := Unlinked(mem, l.groups, k);
            && id in mid && mid[id] == mem[id] && mid.Keys == mem.Keys
            && var after := mid[id := RetiredGroup(mem[id].group, First(l.freeGroups))];
            && GoodBut(after, Shortened(l, k), tail, index - {mem[id].group.name}, id)
            && OthersStay(mem, after, id)
  {
    hide Tables, Apart, MembersBut, Indexed, Covered, Chain, Unlinked, Without, First, Last, GoodBut, SameContent,
         OthersStay;
    ChainNeighbours(mem, l.groups, KGroup, k);
    UnlinkedSame(mem, l.groups, KGroup, k);
    UnlinkGroupTouches(mem, l, k);
    DroppedKeeps(mem, l, tail, index, k);
    DroppedOthers(mem, l, k);
  }

  /** The admins from `i` on are as they were, and so are the groups. */
  ghost predicate Untouched(was: Arena, mem: Arena, l: Lists, i: nat) {
    && (forall j :: i <= j < |l.users| ==> SameAdmin(was, mem, l.users[j]))
    && GroupsSame(was, mem)
  }

  /** The groups, in use or not, are the same. */
  ghost predicate GroupsSame(was: Arena, mem: Arena) {
    && (forall x :: x in was && was[x].GroupCell? ==> x in mem && mem[x] == was[x])
    && (forall x :: x in mem && mem[x].GroupCell? ==> x in was && mem[x] == was[x])
  }

  ghost predicate SameAdmin(was: Arena, mem: Arena, id: int) {
    && IsUser(was, id) && IsUser(mem, id) && mem[id] == was[id]
    && TableThere(was, was[id].user) && TableThere(mem, mem[id].user)
       && GroupsOf(mem, mem[id].user) == GroupsOf(was, was[id].user)
  }

  lemma UntouchedGroups(was: Arena, mem: Arena, l: Lists, i: nat)
    requires Untouched(was, mem, l, i)
    ensures GroupsSame(was, mem)
  {}

  lemma NothingTouched(mem: Arena, l: Lists, gid: int)
    requires Chains(mem, l) && Tables(mem)
    ensures Untouched(mem, mem, l, 0)
  {
    forall j | 0 <= j < |l.users| ensures SameAdmin(mem, mem, l.users[j]) {
      ChainMember(mem, l.users, KUser, true, l.users[j]);
      assert IsUser(mem, l.users[j]);
    }
  }

  lemma UsersLinked(mem: Arena, l: Lists, tail: nat, index: map<string, int>, gid: int, i: nat)
    requires GoodBut(mem, l, tail, index, gid) && i <= |l.users|
    ensures Chains(mem, l) && Tables(mem)
    ensures i < |l.users| ==> l.users[i] != NOBODY && IsLiveUser(mem, l.users[i])
                              && mem[l.users[i]].user.nextUser == (if i + 1 < |l.users| then l.users[i + 1] else NOBODY)
    ensures First(l.users) == if 0 < |l.users| then l.users[0] else NOBODY
  {
    if i < |l.users| { assert LinkedAt(mem, l.users, KUser, true, i); }
  }

  /** A table with the entry at `i` of the first `n` taken out: the others move down by one. */
  function Shifted(t: seq<int>, i: nat, n: nat): seq<int>
    requires i < n <= |t|
  {
    t[..i] + t[i + 1..n] + t[n - 1..]
  }

  /** Moves the entries behind `i` down, one by one. */
  method ShiftDown(t: seq<int>, i: nat, n: nat) returns (table: seq<int>)
    requires i < n <= |t|
    ensures table == Shifted(t, i, n)
  {
    table := t;
    var j := i + 1;
    while j < n
      invariant i < j <= n && |table| == |t|
      invariant forall k :: 0 <= k < i ==> table[k] == t[k]
      invariant forall k :: i < k < j ==> table[k - 1] == t[k]
      invariant forall k :: j - 1 <= k < |t| ==> table[k] == t[k]
    {
      table := table[j - 1 := table[j]];
      j := j + 1;
    }
    ghost var r := Shifted(t, i, n);
    assert forall k :: 0 <= k < i ==> r[k] == t[k];
    assert forall k :: i < k < n ==> r[k - 1] == t[k];
    assert forall k :: n - 1 <= k < |t| ==> r[k] == t[k];
    forall k | 0 <= k < |t| ensures table[k] == r[k] {
      if i <= k < n - 1 { assert table[k + 1 - 1] == t[k + 1]; }
    }
  }

  /** An admin's effective flags, from its own and those of its groups. */
  method JoinFlags(mem: Arena, gs: seq<int>, flags: FlagBits) returns (eflags: FlagBits)
    requires forall j :: 0 <= j < |gs| ==> gs[j] in mem && mem[gs[j]].GroupCell?
    ensures eflags == Joined(mem, gs, flags)
  {
    eflags := flags;
    assert gs[..0] == [];
    for j := 0 to |gs|
      invariant eflags == Joined(mem, gs[..j], flags)
    {
      assert gs[..j + 1][..j] == gs[..j];
      eflags := eflags | mem[gs[j]].group.addFlags;
    }
    assert gs[..|gs|] == gs;
  }

  /** Takes the group from an admin, if it has it. */
  method TakeFrom(mem: Arena, id: int, gid: int, ghost l: Lists, ghost tail: nat, ghost index: map<string, int>)
    returns (after: Arena)
    requires GoodBut(mem, l, tail, index, gid) && IsLiveUser(mem, id)
    ensures GoodBut(after, l, tail, index, gid) && LosesGroup(mem, after, id, gid)
    ensures forall x :: IsUser(mem, x) && x != id ==> SameAdmin(mem, after, x)
    ensures GroupsSame(mem, after)
  {
    hide GoodBut, LosesGroup, Chains, Covered, Apart, MembersBut, Indexed, Joined;
    AdminIsThere(mem, l, tail, index, gid, id);
    after := mem;
    var u := mem[id].user;
    if u.grpCount > 0 {
      var table := mem[u.grpTable].table;
      var i := 0;
      while i < u.grpCount
        invariant 0 <= i <= u.grpCount && gid !in table[..i]
      {
        if table[i] == gid {
          after := RemoveEntry(mem, id, gid, i, l, tail, index);
          return;
        }
        i := i + 1;
      }
      assert table[..i] == GroupsOf(mem, u);
    }
    HasNothingToLose(mem, id, gid);
    AllSame(mem, l, tail, index, gid);
  }

  method RemoveEntry(mem: Arena, id: int, gid: int, i: nat, ghost l: Lists, ghost tail: nat,
                     ghost index: map<string, int>) returns (after: Arena)
    requires GoodBut(mem, l, tail, index, gid) && IsLiveUser(mem, id) && TableThere(mem, mem[id].user)
    requires i < mem[id].user.grpCount && GroupsOf(mem, mem[id].user)[i] == gid
    ensures GoodBut(after, l, tail, index, gid) && LosesGroup(mem, after, id, gid)
    ensures forall x :: IsUser(mem, x) && x != id ==> SameAdmin(mem, after, x)
    ensures GroupsSame(mem, after)
  {
    hide GoodBut, LosesGroup, MemberOf, Joined, Shifted, SameAdmin;
    var u := mem[id].user;
    var table := ShiftDown(mem[u.grpTable].table, i, u.grpCount);
    EntryRemoved(mem, l, tail, index, id, gid, i, table);
    var count := u.grpCount - 1;
    var changed := mem[u.grpTable := TableCell(table)];
    var eflags := JoinFlags(changed, table[..count], u.flags);
    after := changed[id := UserCell(u.(grpCount := count, eflags := eflags, serial := u.serial + 1))];
    RemovalKeeps(mem, l, tail, index, id, gid, i, table);
  }

  lemma AdminIsThere(mem: Arena, l: Lists, tail: nat, index: map<string, int>, gid: int, id: int)
    requires GoodBut(mem, l, tail, index, gid) && IsLiveUser(mem, id)
    ensures TableThere(mem, mem[id].user) && MemberOf(mem, mem[id].user, {gid})
  {
    assert IsUser(mem, id);
  }

  lemma HasNothingToLose(mem: Arena, id: int, gid: int)
    requires IsUser(mem, id) && TableThere(mem, mem[id].user) && gid !in GroupsOf(mem, mem[id].user)
    ensures LosesGroup(mem, mem, id, gid)
  {}

  lemma AllSame(mem: Arena, l: Lists, tail: nat, index: map<string, int>, gid: int)
    requires GoodBut(mem, l, tail, index, gid)
    ensures forall x :: IsUser(mem, x) ==> SameAdmin(mem, mem, x)
  {}

  lemma ShiftedFront(t: seq<int>, i: nat, n: nat)
    requires i < n <= |t|
    ensures |Shifted(t, i, n)| == |t| && Shifted(t, i, n)[..n - 1] == Without(t[..n], i)
  {}

  lemma WithoutDistinct(s: seq<int>, k: nat)
    requires k < |s| && Distinct(s)
    ensures Distinct(Without(s, k)) && s[k] !in Without(s, k)
    ensures forall x :: x in Without(s, k) ==> x in s
  {
    var t := Without(s, k);
    assert forall i :: 0 <= i < |t| ==> t[i] == s[if i < k then i else i + 1];
  }

  /** The groups that are left are groups in use. */
  lemma EntryRemoved(mem: Arena, l: Lists, tail: nat, index: map<string, int>, id: int, gid: int, i: nat,
                     table: seq<int>)
    requires GoodBut(mem, l, tail, index, gid) && IsLiveUser(mem, id) && TableThere(mem, mem[id].user)
    requires i < mem[id].user.grpCount && GroupsOf(mem, mem[id].user)[i] == gid
    requires table == Shifted(mem[mem[id].user.grpTable].table, i, mem[id].user.grpCount)
    ensures var u := mem[id].user;
            var rest := Without(GroupsOf(mem, u), i);
            && |table| == u.grpSize && table[..u.grpCount - 1] == rest
            && Distinct(rest) && gid !in rest && u.grpTable != id
            && (forall j :: 0 <= j < |rest| ==> IsLiveGroup(mem, rest[j]) && rest[j] != u.grpTable)
  {
    hide Chains, Covered, Apart, Indexed;
    AdminIsThere(mem, l, tail, index, gid, id);
    var u := mem[id].user;
    var gs := GroupsOf(mem, u);
    ShiftedFront(mem[u.grpTable].table, i, u.grpCount);
    WithoutDistinct(gs, i);
    var rest := Without(gs, i);
    hide Without, Shifted;
    forall j | 0 <= j < |rest| ensures IsLiveGroup(mem, rest[j]) && rest[j] != u.grpTable {
      assert rest[j] in rest && rest[j] in gs;
      var k :| 0 <= k < |gs| && gs[k] == rest[j];
      assert gs[k] in {gid} || IsLiveGroup(mem, gs[k]);
    }
  }

  lemma {:induction false} JoinedSame(mem: Arena, after: Arena, gs: seq<int>, flags: FlagBits)
    requires forall g :: g in gs ==>
               && (g in mem && mem[g].GroupCell? <==> g in after && after[g].GroupCell?)
               && (g in mem && mem[g].GroupCell? ==> after[g].group.addFlags == mem[g].group.addFlags)
    ensures Joined(after, gs, flags) == Joined(mem, gs, flags)
  {
    if gs != [] {
      var front := gs[..|gs| - 1];
      assert forall g :: g in front ==> g in gs;
      assert gs[|gs| - 1] in gs;
      JoinedSame(mem, after, front, flags);
    }
  }

  lemma RemovalKeeps(mem: Arena, l: Lists, tail: nat, index: map<string, int>, id: int, gid: int, i: nat,
                     table: seq<int>)
    requires GoodBut(mem, l, tail, index, gid) && IsLiveUser(mem, id) && TableThere(mem, mem[id].user)
    requires i < mem[id].user.grpCount && GroupsOf(mem, mem[id].user)[i] == gid
    requires table == Shifted(mem[mem[id].user.grpTable].table, i, mem[id].user.grpCount)
    ensures var u := mem[id].user;
            var count := u.grpCount - 1;
            && |table| == u.grpSize
            && var changed := mem[u.grpTable := TableCell(table)];
            var flags := Joined(changed, table[..count], u.flags);
            var after := changed[id := UserCell(u.(grpCount := count, eflags := flags, serial := u.serial + 1))];
            && GoodBut(after, l, tail, index, gid) && LosesGroup(mem, after, id, gid)
            && (forall x :: IsUser(mem, x) && x != id ==> SameAdmin(mem, after, x))
            && GroupsSame(mem, after)
  {
    hide Chains, Covered, Indexed, Shifted, Without, Apart, MembersBut, Joined;
    EntryRemoved(mem, l, tail, index, id, gid, i, table);
    var u := mem[id].user;
    var count, rest := u.grpCount - 1, Without(GroupsOf(mem, u), i);
    var changed := mem[u.grpTable := TableCell(table)];
    var v := u.(grpCount := count, eflags := Joined(changed, table[..count], u.flags), serial := u.serial + 1);
    var after := changed[id := UserCell(v)];
    JoinedSame(mem, changed, rest, u.flags);
    NoTableIsNobody(mem, l, tail, index, gid);
    assert TableThere(after, v) && GroupsOf(after, v) == rest;
    assert forall g :: IsLiveGroup(mem, g) ==> IsLiveGroup(after, g);
    assert MemberOf(after, v, {gid});
    assert TableChanged(mem, after, id, v);
    TableChangeKeeps(mem, after, l, tail, index, id, v, {gid});
    OthersSame(mem, after, id);
    assert !IsLiveGroup(after, gid);
  }

  lemma NoTableIsNobody(mem: Arena, l: Lists, tail: nat, index: map<string, int>, gid: int)
    requires GoodBut(mem, l, tail, index, gid)
    ensures NOBODY !in mem
  {}

  lemma OthersSame(mem: Arena, after: Arena, id: int)
    requires Tables(mem)
    requires forall x :: IsUser(mem, x) && x != id ==>
              x in after && after[x] == mem[x] && TableThere(after, after[x].user)
                && GroupsOf(after, after[x].user) == GroupsOf(mem, mem[x].user)
    ensures forall x :: IsUser(mem, x) && x != id ==> SameAdmin(mem, after, x)
  {}

  /** The group is out of use, every admin that had it has lost it, and the other groups are what they were. */
  ghost predicate GroupTakenOut(was: Arena, mem: Arena, before: Lists, l: Lists, gid: int) {
    && !IsLiveGroup(mem, gid) && l.users == before.users
    && (exists k: nat :: k < |before.groups| && before.groups[k] == gid && l == Shortened(before, k))
    && (forall x :: x in before.users ==> LosesGroup(was, mem, x, gid))
    && (forall x :: x in was && was[x].GroupCell? && x != gid ==> SameContent(was, mem, x))
  }

  lemma TakenOut(was: Arena, dropped: Arena, mem: Arena, before: Lists, l: Lists, gid: int, k: nat)
    requires !IsLiveGroup(mem, gid) && k < |before.groups| && before.groups[k] == gid && l == Shortened(before, k)
    requires forall x :: x in l.users ==> LosesGroup(was, mem, x, gid)
    requires OthersStay(was, dropped, gid) && GroupsSame(dropped, mem)
    ensures GroupTakenOut(was, mem, before, l, gid)
  {
    hide LosesGroup;
    forall x | x in was && was[x].GroupCell? && x != gid ensures SameContent(was, mem, x) {
      assert SameContent(was, dropped, x);
    }
  }

  /** Admins and tables are the same, and other groups but for their links. */
  ghost predicate OthersStay(mem: Arena, after: Arena, gid: int) {
    && mem.Keys == after.Keys
    && (forall x :: x in mem && !mem[x].GroupCell? ==> after[x] == mem[x])
    && (forall x :: x in mem && x != gid ==> SameContent(mem, after, x))
    && (gid in mem ==> after[gid].GroupCell? == mem[gid].GroupCell?)
  }

  lemma DroppedOthers(mem: Arena, l: Lists, k: nat)
    requires Chains(mem, l) && k < |l.groups| && l.groups[k] in mem && mem[l.groups[k]].GroupCell?
    requires (k > 0 ==> l.groups[k - 1] in mem) && (k + 1 < |l.groups| ==> l.groups[k + 1] in mem)
    ensures OthersStay(mem, Dropped(mem, l, k), l.groups[k])
  {
    ChainNeighbours(mem, l.groups, KGroup, k);
    UnlinkGroupTouches(mem, l, k);
    hide Chain;
  }

  lemma StillLost(was: Arena, before: Arena, mem: Arena, l: Lists, tail: nat, index: map<string, int>, gid: int, i: nat)
    requires GoodBut(mem, l, tail, index, gid) && i < |l.users| && Untouched(was, before, l, i)
    requires LosesGroup(before, mem, l.users[i], gid) && GroupsSame(before, mem)
    requires forall x :: IsUser(before, x) && x != l.users[i] ==> SameAdmin(before, mem, x)
    requires forall j :: 0 <= j < i ==> LosesGroup(was, before, l.users[j], gid)
    ensures Untouched(was, mem, l, i + 1)
    ensures forall j :: 0 <= j < i + 1 ==> LosesGroup(was, mem, l.users[j], gid)
  {
    DistinctUsers(mem, l, tail, index, gid);
    hide GoodBut, LosesGroup;
    forall j | 0 <= j < i ensures LosesGroup(was, mem, l.users[j], gid) {
      LostBefore(was, before, mem, l.users[j], gid);
    }
    LostNow(was, before, mem, l.users[i], gid);
  }

  lemma DistinctUsers(mem: Arena, l: Lists, tail: nat, index: map<string, int>, gid: int)
    requires GoodBut(mem, l, tail, index, gid)
    ensures Distinct(l.users)
  {}

  lemma LostBefore(was: Arena, before: Arena, mem: Arena, id: int, gid: int)
    requires LosesGroup(was, before, id, gid) && SameAdmin(before, mem, id)
    ensures LosesGroup(was, mem, id, gid)
  {
    hide Joined, Without;
  }

  lemma LostNow(was: Arena, before: Arena, mem: Arena, id: int, gid: int)
    requires SameAdmin(was, before, id) && LosesGroup(before, mem, id, gid) && GroupsSame(was, before)
    ensures LosesGroup(was, mem, id, gid)
  {
    forall gs: seq<int>, flags: FlagBits ensures Joined(before, gs, flags) == Joined(was, gs, flags) {
      JoinedSame(was, before, gs, flags);
    }
    hide Joined, Without;
  }

  /** When all have been gone through, the cache is as good as before, and what each admin lost
      is what it had before the group went out of use. */
  lemma AfterAll(was: Arena, dropped: Arena, mem: Arena, l: Lists, tail: nat, index: map<string, int>, gid: int)
    requires OthersStay(was, dropped, gid) && GoodBut(mem, l, tail, index, gid) && gid in was && was[gid].GroupCell?
    requires forall j :: 0 <= j < |l.users| ==> LosesGroup(dropped, mem, l.users[j], gid)
    requires forall j :: 0 <= j < |l.users| ==>
               IsUser(was, l.users[j]) && TableThere(was, was[l.users[j]].user)
                 && Distinct(GroupsOf(was, was[l.users[j]].user))
    ensures Good(mem, l, tail, index) && !IsLiveGroup(mem, gid)
    ensures forall x :: x in l.users ==> LosesGroup(was, mem, x, gid)
  {
    assert !IsLiveGroup(mem, gid);
    hide LosesGroup, MemberOf, OthersStay, GoodBut, Good, Distinct;
    forall j | 0 <= j < |l.users| ensures LosesGroup(was, mem, l.users[j], gid) && GroupGone(mem, l.users[j], gid) {
      LostFromStart(was, dropped, mem, l.users[j], gid);
      LostMeansGone(was, mem, l.users[j], gid);
    }
    NobodyHasIt(mem, l, tail, index, gid);
  }

  ghost predicate GroupGone(mem: Arena, id: int, gid: int) {
    IsUser(mem, id) && TableThere(mem, mem[id].user) && gid !in GroupsOf(mem, mem[id].user)
  }

  lemma LostMeansGone(was: Arena, mem: Arena, id: int, gid: int)
    requires LosesGroup(was, mem, id, gid) && Distinct(GroupsOf(was, was[id].user))
    ensures GroupGone(mem, id, gid)
  {
    var gs := GroupsOf(was, was[id].user);
    forall k: nat | k < |gs| ensures gs[k] !in Without(gs, k) { WithoutDistinct(gs, k); }
    hide Joined, Without, Distinct;
  }

  lemma LostFromStart(was: Arena, dropped: Arena, mem: Arena, id: int, gid: int)
    requires OthersStay(was, dropped, gid) && LosesGroup(dropped, mem, id, gid) && gid in was && was[gid].GroupCell?
    requires IsUser(was, id) && TableThere(was, was[id].user) && Distinct(GroupsOf(was, was[id].user))
    ensures LosesGroup(was, mem, id, gid)
  {
    var gs := GroupsOf(was, was[id].user);
    assert dropped[id] == was[id] && GroupsOf(dropped, dropped[id].user) == gs;
    forall k: nat, flags: FlagBits | k < |gs| && gs[k] == gid
      ensures Joined(dropped, Without(gs, k), flags) == Joined(was, Without(gs, k), flags)
    {
      WithoutDistinct(gs, k);
      JoinedOthers(was, dropped, Without(gs, k), flags, gid);
    }
    hide Joined, Without, Distinct;
  }

  lemma JoinedOthers(was: Arena, dropped: Arena, gs: seq<int>, flags: FlagBits, gid: int)
    requires OthersStay(was, dropped, gid) && gid !in gs
    ensures Joined(dropped, gs, flags) == Joined(was, gs, flags)
  {
    forall g | g in gs
      ensures g in was && was[g].GroupCell? <==> g in dropped && dropped[g].GroupCell?
      ensures g in was && was[g].GroupCell? ==> dropped[g].group.addFlags == was[g].group.addFlags
    {
      if g in was { assert SameContent(was, dropped, g); }
    }
    JoinedSame(was, dropped, gs, flags);
  }

  lemma NobodyHasIt(mem: Arena, l: Lists, tail: nat, index: map<string, int>, gid: int)
    requires GoodBut(mem, l, tail, index, gid) && forall j :: 0 <= j < |l.users| ==> GroupGone(mem, l.users[j], gid)
    ensures Good(mem, l, tail, index)
  {
    forall id | IsUser(mem, id) && IsRecord(mem[id], KUser, true) ensures MemberOf(mem, mem[id].user, {}) {
      assert id in l.users by {
        if id in l.freeUsers { ChainMember(mem, l.freeUsers, KUser, false, id); }
      }
      var j :| 0 <= j < |l.users| && l.users[j] == id;
      GoneIsMember(mem, mem[id].user, gid);
    }
    hide Chain, Covered, Indexed, Apart;
  }

  lemma GoneIsMember(mem: Arena, u: User, gid: int)
    requires MemberOf(mem, u, {gid}) && gid !in GroupsOf(mem, u)
    ensures MemberOf(mem, u, {})
  {
    forall i | 0 <= i < u.grpCount ensures IsLiveGroup(mem, GroupsOf(mem, u)[i]) {
      assert GroupsOf(mem, u)[i] in GroupsOf(mem, u);
    }
  }

  lemma UsersBefore(mem: Arena, l: Lists, tail: nat, index: map<string, int>)
    requires Good(mem, l, tail, index)
    ensures forall j :: 0 <= j < |l.users| ==>
              IsUser(mem, l.users[j]) && TableThere(mem, mem[l.users[j]].user)
                && Distinct(GroupsOf(mem, mem[l.users[j]].user))
  {
    forall j | 0 <= j < |l.users|
      ensures IsUser(mem, l.users[j]) && TableThere(mem, mem[l.users[j]].user)
              && Distinct(GroupsOf(mem, mem[l.users[j]].user))
    {
      ChainMember(mem, l.users, KUser, true, l.users[j]);
      assert MemberOf(mem, mem[l.users[j]].user, {});
    }
    hide Chain, Covered, Indexed, Apart;
  }

  /** An admin with a group more: its flags, and its immunity if that is higher. */
  function Gained(u: User, g: Group): User {
    u.(grpCount := u.grpCount + 1, eflags := u.eflags | g.addFlags,
       immunity := if g.immunity > u.immunity then g.immunity else u.immunity, serial := u.serial + 1)
  }

  /** The higher of two. */
  predicate IsHigher(x: nat, a: nat, b: nat) {
    x >= a && x >= b && (x == a || x == b)
  }

  predicate HasGroup(mem: Arena, id: int, gid: int)
    requires IsUser(mem, id)
  {
    TableThere(mem, mem[id].user) && gid in GroupsOf(mem, mem[id].user)
  }

  /** The admin `id` after it has got a group: the others in the same order, and the group's flags added. */
  ghost predicate GainsGroup(was: Arena, mem: Arena, id: int, gid: int) {
    && IsUser(was, id) && IsUser(mem, id) && TableThere(was, was[id].user) && TableThere(mem, mem[id].user)
    && gid in was && was[gid].GroupCell?
    && var u, v, g := was[id].user, mem[id].user, was[gid].group;
    && GroupsOf(mem, v) == GroupsOf(was, u) + [gid]
    && v.eflags == u.eflags | g.addFlags && IsHigher(v.immunity, u.immunity, g.immunity)
    && v == u.(grpCount := u.grpCount + 1, serial := u.serial + 1, eflags := v.eflags, immunity := v.immunity,
               grpSize := v.grpSize, grpTable := v.grpTable)
    && GroupsSame(was, mem) && (forall x :: IsUser(was, x) && x != id ==> SameAdmin(was, mem, x))
  }

  lemma LiveAdmin(mem: Arena, l: Lists, tail: nat, index: map<string, int>, id: int)
    requires Good(mem, l, tail, index) && IsLiveUser(mem, id)
    ensures TableThere(mem, mem[id].user) && MemberOf(mem, mem[id].user, {}) && NOBODY !in mem && tail !in mem
  {
    assert IsUser(mem, id);
  }

  /** Is the group among the first `n` of a table? */
  method Holds(table: seq<int>, n: nat, gid: int) returns (has: bool)
    requires n <= |table|
    ensures has == (gid in table[..n])
  {
    for i := 0 to n
      invariant gid !in table[..i]
    {
      if table[i] == gid {
        assert table[..n][i] == gid;
        return true;
      }
    }
    return false;
  }

  /** The admin's groups and one more, in a table of another size. What lies behind them is not set. */
  method NewTable(mem: Arena, u: User, size: nat, gid: int) returns (table: seq<int>)
    requires TableThere(mem, u) && u.grpCount < size
    ensures |table| == size && table[..u.grpCount + 1] == GroupsOf(mem, u) + [gid]
  {
    var junk: int := *;
    table := seq(size, _ => junk);
    if u.grpTable != NOBODY { table := mem[u.grpTable].table[..u.grpCount] + table[u.grpCount..]; }
    table := table[u.grpCount := gid];
  }

  lemma OneMoreGroup(mem: Arena, l: Lists, tail: nat, index: map<string, int>, id: int, gid: int)
    requires Good(mem, l, tail, index) && IsLiveUser(mem, id) && IsLiveGroup(mem, gid) && !HasGroup(mem, id, gid)
    ensures TableThere(mem, mem[id].user)
    ensures var gs := GroupsOf(mem, mem[id].user) + [gid];
            Distinct(gs) && forall j :: 0 <= j < |gs| ==> IsLiveGroup(mem, gs[j])
  {
    hide Chains, Covered, Indexed, Apart, Tables;
    LiveAdmin(mem, l, tail, index, id);
    var had := GroupsOf(mem, mem[id].user);
    forall j | 0 <= j < |had| ensures IsLiveGroup(mem, had[j]) && had[j] != gid { assert had[j] in had; }
  }

  lemma TableFills(mem: Arena, l: Lists, tail: nat, index: map<string, int>, id: int, gid: int, v: User,
                   table: seq<int>)
    requires Good(mem, l, tail, index) && IsLiveUser(mem, id) && IsLiveGroup(mem, gid) && !HasGroup(mem, id, gid)
    requires TableThere(mem, mem[id].user) && mem[id].user.grpCount < mem[id].user.grpSize
    requires var u, g := mem[id].user, mem[gid].group;
             && table == mem[u.grpTable].table[u.grpCount := gid]
             && v == Gained(u, g)
    ensures var after := mem[mem[id].user.grpTable := TableCell(table)][id := UserCell(v)];
            Good(after, l, tail, index) && GainsGroup(mem, after, id, gid)
  {
    hide Chains, Covered, Indexed, Apart, MembersBut, MemberOf;
    var u := mem[id].user;
    var after := mem[u.grpTable := TableCell(table)][id := UserCell(v)];
    OneMoreGroup(mem, l, tail, index, id, gid);
    LiveAdmin(mem, l, tail, index, id);
    assert GroupsOf(after, v) == GroupsOf(mem, u) + [gid];
    IsMember(mem, after, u, v, gid);
    assert TableChanged(mem, after, id, v);
    TableChangeKeeps(mem, after, l, tail, index, id, v, {});
    OthersSame(mem, after, id);
  }

  lemma IsMember(mem: Arena, after: Arena, u: User, v: User, gid: int)
    requires TableThere(mem, u) && TableThere(after, v) && GroupsOf(after, v) == GroupsOf(mem, u) + [gid]
    requires var gs := GroupsOf(mem, u) + [gid]; Distinct(gs) && forall j :: 0 <= j < |gs| ==> IsLiveGroup(mem, gs[j])
    requires forall g :: IsLiveGroup(mem, g) ==> IsLiveGroup(after, g)
    ensures MemberOf(after, v, {})
  {}

  lemma TableGrows(mem: Arena, l: Lists, tail: nat, index: map<string, int>, id: int, gid: int, v: User, tbl: int,
                   table: seq<int>, end: nat)
    requires Good(mem, l, tail, index) && IsLiveUser(mem, id) && IsLiveGroup(mem, gid) && !HasGroup(mem, id, gid)
    requires TableThere(mem, mem[id].user) && tbl == tail && tail < end
    requires var u, g := mem[id].user, mem[gid].group;
             && |table| == v.grpSize > u.grpCount && table[..u.grpCount + 1] == GroupsOf(mem, u) + [gid]
             && v == Gained(u, g).(grpTable := tbl, grpSize := v.grpSize)
    ensures var after := mem[tbl := TableCell(table)][id := UserCell(v)];
            Good(after, l, end, index) && GainsGroup(mem, after, id, gid)
  {
    hide Chains, Covered, Indexed, Apart, MembersBut, MemberOf;
    var u := mem[id].user;
    var after := mem[tbl := TableCell(table)][id := UserCell(v)];
    OneMoreGroup(mem, l, tail, index, id, gid);
    LiveAdmin(mem, l, tail, index, id);
    assert GroupsOf(after, v) == GroupsOf(mem, u) + [gid];
    assert forall g :: IsLiveGroup(mem, g) ==> IsLiveGroup(after, g);
    IsMember(mem, after, u, v, gid);
    assert TableAdded(mem, after, id, v, tbl, table);
    TableAddedKeeps(mem, after, l, tail, index, id, v, tbl, table, end);
    OthersUntouched(mem, after, id, v, tbl, table);
  }

  lemma OthersUntouched(mem: Arena, after: Arena, id: int, v: User, tbl: int, table: seq<int>)
    requires Tables(mem) && TableAdded(mem, after, id, v, tbl, table)
    ensures GroupsSame(mem, after) && forall x :: IsUser(mem, x) && x != id ==> SameAdmin(mem, after, x)
  {
    forall x | IsUser(mem, x) && x != id ensures SameAdmin(mem, after, x) { assert TableThere(mem, mem[x].user); }
  }

  lemma GroupsLinked(mem: Arena, l: Lists, tail: nat, index: map<string, int>, i: nat)
    requires Good(mem, l, tail, index) && i <= |l.groups|
    ensures i < |l.groups| ==> l.groups[i] != NOBODY && l.groups[i] in mem && mem[l.groups[i]].GroupCell?
                               && mem[l.groups[i]].group.magic == GRP_MAGIC_SET
                               && mem[l.groups[i]].group.nextGrp ==
                                    (if i + 1 < |l.groups| then l.groups[i + 1] else NOBODY)
  {
    if i < |l.groups| { assert LinkedAt(mem, l.groups, KGroup, true, i); }
    hide Covered, Tables, Apart, MembersBut, Indexed;
  }
}
