/**
 The memory of the admin cache: records of admins and groups, and tables of group numbers, all
 in one arena and linked by their places in it.

 Admins and groups have a list of those in use and a list of those free each.
 */
module AdminArena {
  import opened Common

  type FlagBits = bv32

  const GRP_MAGIC_SET := 0xDEADFADE
  const GRP_MAGIC_UNSET := 0xFACEFACE
  const USR_MAGIC_SET := 0xDEADFACE
  const USR_MAGIC_UNSET := 0xFADEDEAD
  const NOBODY := -1

  datatype Group = Group(magic: int, immunity: nat, nextGrp: int, prevGrp: int, name: string, addFlags: FlagBits)

  datatype User = User(magic: int, flags: FlagBits, eflags: FlagBits, name: string, grpCount: nat, grpSize: nat,
                       grpTable: int,
                       nextUser: int, prevUser: int, immunity: nat, serial: nat)

  /** What begins at a place of the arena. */
  datatype Cell = UserCell(user: User) | GroupCell(group: Group) | TableCell(table: seq<int>)

  datatype Kind = KUser | KGroup

  type Arena = map<int, Cell>

  predicate IsRecord(c: Cell, kind: Kind, live: bool) {
    match kind
    case KUser => c.UserCell? && c.user.magic == (if live then USR_MAGIC_SET else USR_MAGIC_UNSET)
    case KGroup => c.GroupCell? && c.group.magic == (if live then GRP_MAGIC_SET else GRP_MAGIC_UNSET)
  }

  function NextOf(c: Cell): int {
    match c case UserCell(u) => u.nextUser case GroupCell(g) => g.nextGrp case TableCell(_) => NOBODY
  }

  function PrevOf(c: Cell): int {
    match c case UserCell(u) => u.prevUser case GroupCell(g) => g.prevGrp case TableCell(_) => NOBODY
  }

  function WithNext(c: Cell, next: int): Cell {
    match c
    case UserCell(u) => UserCell(u.(nextUser := next))
    case GroupCell(g) => GroupCell(g.(nextGrp := next))
    case TableCell(_) => c
  }

  function WithPrev(c: Cell, prev: int): Cell {
    match c
    case UserCell(u) => UserCell(u.(prevUser := prev))
    case GroupCell(g) => GroupCell(g.(prevGrp := prev))
    case TableCell(_) => c
  }

  function Last(s: seq<int>): int { if s == [] then NOBODY else s[|s| - 1] }

  function First(s: seq<int>): int { if s == [] then NOBODY else s[0] }

  // ----- lists

  /** The record `s[i]` is linked to its neighbours. Only records in use, and behind the first,
      are linked backwards. */
  ghost predicate LinkedAt(mem: Arena, s: seq<int>, kind: Kind, live: bool, i: nat) {
    && i < |s| && s[i] >= 0 && s[i] in mem && IsRecord(mem[s[i]], kind, live)
    && NextOf(mem[s[i]]) == (if i + 1 < |s| then s[i + 1] else NOBODY)
    && (live && i > 0 ==> PrevOf(mem[s[i]]) == s[i - 1])
  }

  /** The list through the records of `s`, in order. */
  ghost predicate Chain(mem: Arena, s: seq<int>, kind: Kind, live: bool) {
    Distinct(s) && forall i: nat :: i < |s| ==> LinkedAt(mem, s, kind, live, i)
  }

  /** Two arenas agree on the links of a record. */
  predicate SameLinks(mem: Arena, after: Arena, id: int) {
    id in mem ==>
      && id in after && NextOf(after[id]) == NextOf(mem[id]) && PrevOf(after[id]) == PrevOf(mem[id])
      && IsRecord(after[id], KUser, true) == IsRecord(mem[id], KUser, true)
      && IsRecord(after[id], KUser, false) == IsRecord(mem[id], KUser, false)
      && IsRecord(after[id], KGroup, true) == IsRecord(mem[id], KGroup, true)
      && IsRecord(after[id], KGroup, false) == IsRecord(mem[id], KGroup, false)
  }

  lemma ChainKeeps(mem: Arena, after: Arena, s: seq<int>, kind: Kind, live: bool)
    requires Chain(mem, s, kind, live) && forall i :: 0 <= i < |s| ==> SameLinks(mem, after, s[i])
    ensures Chain(after, s, kind, live)
  {
    forall i: nat | i < |s| ensures LinkedAt(after, s, kind, live, i) { assert LinkedAt(mem, s, kind, live, i); }
  }

  lemma ChainKeepsElse(mem: Arena, s: seq<int>, kind: Kind, live: bool, id: int, c: Cell)
    requires Chain(mem, s, kind, live) && id !in s
    ensures Chain(mem[id := c], s, kind, live)
  {
    forall i | 0 <= i < |s| ensures SameLinks(mem, mem[id := c], s[i]) { assert s[i] in s; }
    ChainKeeps(mem, mem[id := c], s, kind, live);
  }

  /** A chain holds records of its kind, all in the arena. */
  lemma ChainMember(mem: Arena, s: seq<int>, kind: Kind, live: bool, id: int)
    requires Chain(mem, s, kind, live) && id in s
    ensures id >= 0 && id in mem && IsRecord(mem[id], kind, live)
  {
    var i :| 0 <= i < |s| && s[i] == id;
    assert LinkedAt(mem, s, kind, live, i);
  }

  /** The arena with a record put behind the last of a list. */
  function Appended(mem: Arena, s: seq<int>, id: int, c: Cell): Arena
    requires s == [] || Last(s) in mem
  {
    var put := mem[id := if s == [] then WithNext(c, NOBODY) else WithPrev(WithNext(c, NOBODY), Last(s))];
    if s == [] then put else put[Last(s) := WithNext(mem[Last(s)], id)]
  }

  lemma ChainAppends(mem: Arena, s: seq<int>, id: int, c: Cell, kind: Kind)
    requires Chain(mem, s, kind, true) && id >= 0 && id !in s && IsRecord(c, kind, true)
    ensures s != [] ==> Last(s) in mem
    ensures Chain(Appended(mem, s, id, c), s + [id], kind, true)
  {
    if s != [] { assert LinkedAt(mem, s, kind, true, |s| - 1); }
    var after, t := Appended(mem, s, id, c), s + [id];
    forall i: nat | i < |t| ensures LinkedAt(after, t, kind, true, i) {
      if i < |s| { assert LinkedAt(mem, s, kind, true, i); assert s[i] in s; }
    }
  }

  /** A record put in front of the free ones. */
  lemma ChainPushes(mem: Arena, s: seq<int>, id: int, c: Cell, kind: Kind)
    requires Chain(mem, s, kind, false) && id >= 0 && id !in s && IsRecord(c, kind, false)
    ensures Chain(mem[id := WithNext(c, First(s))], [id] + s, kind, false)
  {
    var after, t := mem[id := WithNext(c, First(s))], [id] + s;
    forall i: nat | i < |t| ensures LinkedAt(after, t, kind, false, i) {
      if i > 0 { assert LinkedAt(mem, s, kind, false, i - 1); assert s[i - 1] in s; }
    }
  }

  lemma ChainPops(mem: Arena, s: seq<int>, kind: Kind)
    requires Chain(mem, s, kind, false) && s != []
    ensures Chain(mem, s[1..], kind, false) && s[0] !in s[1..]
    ensures s[0] >= 0 && s[0] in mem && IsRecord(mem[s[0]], kind, false) && NextOf(mem[s[0]]) == First(s[1..])
  {
    assert LinkedAt(mem, s, kind, false, 0);
    forall i: nat | i < |s[1..]| ensures LinkedAt(mem, s[1..], kind, false, i) {
      assert LinkedAt(mem, s, kind, false, i + 1);
    }
  }

  /** The arena with the neighbours of `s[k]` linked to each other. */
  function Unlinked(mem: Arena, s: seq<int>, k: nat): Arena
    requires k < |s| && (k > 0 ==> s[k - 1] in mem) && (k + 1 < |s| ==> s[k + 1] in mem)
  {
    var next, prev := if k + 1 < |s| then s[k + 1] else NOBODY, if k > 0 then s[k - 1] else NOBODY;
    var a := if k > 0 then mem[prev := WithNext(mem[prev], next)] else mem;
    if k + 1 < |s| then a[next := WithPrev(mem[next], prev)] else a
  }

  lemma ChainNeighbours(mem: Arena, s: seq<int>, kind: Kind, k: nat)
    requires Chain(mem, s, kind, true) && k < |s|
    ensures s[k] in mem && IsRecord(mem[s[k]], kind, true) && s[k] >= 0
    ensures NextOf(mem[s[k]]) == (if k + 1 < |s| then s[k + 1] else NOBODY)
    ensures k > 0 ==>
              s[k - 1] in mem && PrevOf(mem[s[k]]) == s[k - 1] && s[k - 1] != s[k]
                && IsRecord(mem[s[k - 1]], kind, true)
    ensures k + 1 < |s| ==> s[k + 1] in mem && s[k + 1] != s[k] && IsRecord(mem[s[k + 1]], kind, true)
    ensures 0 < k < |s| - 1 ==> s[k - 1] != s[k + 1]
    ensures s[k] == First(s) <==> k == 0
    ensures s[k] == Last(s) <==> k == |s| - 1
  {
    assert LinkedAt(mem, s, kind, true, k);
    if k > 0 { assert LinkedAt(mem, s, kind, true, k - 1); }
    if k + 1 < |s| { assert LinkedAt(mem, s, kind, true, k + 1); }
  }

  lemma ChainErases(mem: Arena, s: seq<int>, kind: Kind, k: nat)
    requires Chain(mem, s, kind, true) && k < |s|
    ensures (k > 0 ==> s[k - 1] in mem) && (k + 1 < |s| ==> s[k + 1] in mem)
    ensures Chain(Unlinked(mem, s, k), Without(s, k), kind, true) && s[k] !in Without(s, k)
  {
    ChainNeighbours(mem, s, kind, k);
    var after, t := Unlinked(mem, s, k), Without(s, k);
    assert forall i :: 0 <= i < |t| ==> t[i] == s[if i < k then i else i + 1];
    forall i: nat | i < |t| ensures LinkedAt(after, t, kind, true, i) {
      var j := if i < k then i else i + 1;
      assert LinkedAt(mem, s, kind, true, j);
      assert t[i] == s[j];
    }
  }
}
