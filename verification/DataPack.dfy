/**
 `CDataPack`: a buffer of bytes that cells, floats, strings and blocks are packed into and read
 back from, each behind its length.
 */
module DataPacks {
  import opened Common

  type byte = n: int | 0 <= n < 256

  /** The 32 bits of a cell or a float, or a length. */
  type word = n: int | 0 <= n < 0x1_0000_0000

  const WORD: nat := 4
  const INITIAL_SIZE: nat := 512

  /** The bytes of a word, lowest first. */
  function Bytes(w: word): (s: seq<byte>)
    ensures |s| == WORD
  {
    var a := w / 0x100;
    var b := a / 0x100;
    [w % 0x100, a % 0x100, b % 0x100, b / 0x100]
  }

  function Joined(low: int, high: int): int {
    low + 0x100 * high
  }

  function Word(s: seq<byte>): word
    requires |s| == WORD
  {
    Joined(s[0], Joined(s[1], Joined(s[2], s[3])))
  }

  lemma WordOfBytes(w: word)
    ensures Word(Bytes(w)) == w
  {}

  /** A word is its bytes, each worth 256 times the one before. */
  lemma LowestFirst(w: word)
    ensures var s := Bytes(w); var a: int, b: int, c: int, d: int := s[0], s[1], s[2], s[3];
            w == a + 0x100 * b + 0x1_0000 * c + 0x100_0000 * d
  {
    WordOfBytes(w);
  }

  lemma JoinedParts(low: byte, high: nat)
    ensures Joined(low, high) >= 0 && Joined(low, high) % 0x100 == low && Joined(low, high) / 0x100 == high
  {}

  lemma BytesOfWord(s: seq<byte>)
    requires |s| == WORD
    ensures Bytes(Word(s)) == s
  {
    hide Joined;
    var c: nat := s[3];
    JoinedParts(s[2], c);
    JoinedParts(s[1], Joined(s[2], c));
    JoinedParts(s[0], Joined(s[1], Joined(s[2], c)));
  }

  datatype Item = Cell(bits: word) | Float(bits: word) | Text(text: seq<byte>) | Block(block: seq<byte>)

  /** A C string, and a length that a `size_t` holds. */
  ghost predicate Packable(item: Item) {
    match item
    case Cell(_) => true
    case Float(_) => true
    case Text(text) => |text| < 0x1_0000_0000 && forall i :: 0 <= i < |text| ==> text[i] != 0
    case Block(block) => |block| < 0x1_0000_0000
  }

  function Packed(item: Item): seq<byte>
    requires Packable(item)
  {
    match item
    case Cell(bits) => Bytes(WORD) + Bytes(bits)
    case Float(bits) => Bytes(WORD) + Bytes(bits)
    case Text(text) => Bytes(|text|) + text + [0]
    case Block(block) => Bytes(|block|) + block
  }

  ghost predicate AllPackable(items: seq<Item>) {
    forall i :: 0 <= i < |items| ==> Packable(items[i])
  }

  function AllPacked(items: seq<Item>): seq<byte>
    requires AllPackable(items)
  {
    if items == [] then [] else Packed(items[0]) + AllPacked(items[1..])
  }

  // ----- reading

  /** What a read returns, and where it leaves the position. */
  datatype Read<T> = Read(value: T, next: nat)

  predicate Readable(cur: nat, size: nat, bytes: nat) {
    bytes + cur <= size
  }

  /** The length of the C string at `cur`: up to the next zero byte, or to the end of the buffer. */
  function StrLen(buf: seq<byte>, cur: nat): (n: nat)
    requires cur <= |buf|
    ensures cur + n <= |buf| && (forall i :: cur <= i < cur + n ==> buf[i] != 0)
            && (cur + n < |buf| ==> buf[cur + n] == 0)
    decreases |buf| - cur
  {
    if cur == |buf| || buf[cur] == 0 then 0 else 1 + StrLen(buf, cur + 1)
  }

  /** `ReadCell` and `ReadFloat`: zero, and no step, when it does not hold a length of four. */
  function ReadWord(buf: seq<byte>, cur: nat, size: nat): Read<word>
    requires size <= |buf|
  {
    if !Readable(cur, size, WORD + WORD) || Word(buf[cur..cur + WORD]) != WORD then Read(0, cur)
    else Read(Word(buf[cur + WORD..cur + WORD + WORD]), cur + WORD + WORD)
  }

  /** `ReadString`: nothing, but a step over the length, when that is not the length of the string. */
  function ReadText(buf: seq<byte>, cur: nat, size: nat): Read<Option<seq<byte>>>
    requires size <= |buf|
  {
    if !Readable(cur, size, WORD) then Read(None, cur) else
      var n, start := Word(buf[cur..cur + WORD]), cur + WORD;
      if StrLen(buf, start) != n || !Readable(start, size, n + 1) then Read(None, start)
      else Read(Some(buf[start..start + n]), start + n + 1)
  }

  /** `ReadMemory`. */
  function ReadBlock(buf: seq<byte>, cur: nat, size: nat): Read<Option<seq<byte>>>
    requires size <= |buf|
  {
    if !Readable(cur, size, WORD) then Read(None, cur) else
      var n, start := Word(buf[cur..cur + WORD]), cur + WORD;
      if !Readable(start, size, n) then Read(None, start)
      else Read(Some(buf[start..start + n]), start + n)
  }

  /** Which read is used. */
  datatype Kind = AsCell | AsFloat | AsText | AsBlock

  function KindOf(item: Item): Kind {
    match item
    case Cell(_) => AsCell
    case Float(_) => AsFloat
    case Text(_) => AsText
    case Block(_) => AsBlock
  }

  function Kinds(items: seq<Item>): seq<Kind> {
    seq(|items|, i requires 0 <= i < |items| => KindOf(items[i]))
  }

  /** One read. A cell or float that is not there reads as zero. */
  function ReadItem(buf: seq<byte>, cur: nat, size: nat, kind: Kind): Read<Option<Item>>
    requires size <= |buf|
  {
    match kind
    case AsCell => var r := ReadWord(buf, cur, size); Read(Some(Cell(r.value)), r.next)
    case AsFloat => var r := ReadWord(buf, cur, size); Read(Some(Float(r.value)), r.next)
    case AsText =>
      var r := ReadText(buf, cur, size);
      Read(if r.value.Some? then Some(Text(r.value.value)) else None, r.next)
    case AsBlock =>
      var r := ReadBlock(buf, cur, size);
      Read(if r.value.Some? then Some(Block(r.value.value)) else None, r.next)
  }

  function ReadAll(buf: seq<byte>, cur: nat, size: nat, kinds: seq<Kind>): Read<seq<Option<Item>>>
    requires size <= |buf|
    decreases |kinds|
  {
    if kinds == [] then Read([], cur) else
      var first := ReadItem(buf, cur, size, kinds[0]);
      var rest := ReadAll(buf, first.next, size, kinds[1..]);
      Read([first.value] + rest.value, rest.next)
  }

  /** The bytes are in the buffer at `cur`. */
  ghost predicate At(buf: seq<byte>, cur: nat, bytes: seq<byte>) {
    cur + |bytes| <= |buf| && buf[cur..cur + |bytes|] == bytes
  }

  lemma AtParts(buf: seq<byte>, cur: nat, a: seq<byte>, b: seq<byte>)
    requires At(buf, cur, a + b)
    ensures At(buf, cur, a) && At(buf, cur + |a|, b)
  {
    var whole := buf[cur..cur + |a + b|];
    assert buf[cur..cur + |a|] == whole[..|a|];
    assert buf[cur + |a|..cur + |a| + |b|] == whole[|a|..];
  }

  lemma AtFirst(buf: seq<byte>, cur: nat, bytes: seq<byte>)
    requires At(buf, cur, bytes) && bytes != []
    ensures buf[cur] == bytes[0]
  {
    assert buf[cur..cur + |bytes|][0] == buf[cur];
  }

  lemma StrLenIs(buf: seq<byte>, cur: nat, text: seq<byte>)
    requires At(buf, cur, text + [0]) && forall i :: 0 <= i < |text| ==> text[i] != 0
    ensures StrLen(buf, cur) == |text|
  {
    AtParts(buf, cur, text, [0]);
    var found := buf[cur..cur + |text|];
    assert forall i :: 0 <= i < |text| ==> found[i] != 0;
    assert forall i :: cur <= i < cur + |text| ==> buf[i] == found[i - cur];
    AtFirst(buf, cur + |text|, [0]);
  }

  /** An item is read back by its own read, which leaves the position behind it. */
  lemma ItemReadsBack(buf: seq<byte>, cur: nat, size: nat, item: Item)
    requires Packable(item) && size <= |buf| && At(buf, cur, Packed(item)) && cur + |Packed(item)| <= size
    ensures ReadItem(buf, cur, size, KindOf(item)) == Read(Some(item), cur + |Packed(item)|)
  {
    match item
    case Cell(bits) => WordReadsBack(buf, cur, size, bits);
    case Float(bits) => WordReadsBack(buf, cur, size, bits);
    case Text(text) => TextReadsBack(buf, cur, size, text);
    case Block(block) => BlockReadsBack(buf, cur, size, block);
  }

  lemma TextReadsBack(buf: seq<byte>, cur: nat, size: nat, text: seq<byte>)
    requires Packable(Text(text)) && size <= |buf| && At(buf, cur, Bytes(|text|) + text + [0])
             && cur + WORD + |text| + 1 <= size
    ensures ReadText(buf, cur, size) == Read(Some(text), cur + WORD + |text| + 1)
  {
    hide Bytes, Word, StrLen;
    assert Bytes(|text|) + text + [0] == Bytes(|text|) + (text + [0]);
    AtParts(buf, cur, Bytes(|text|), text + [0]);
    AtParts(buf, cur + WORD, text, [0]);
    StrLenIs(buf, cur + WORD, text);
    WordOfBytes(|text|);
  }

  lemma BlockReadsBack(buf: seq<byte>, cur: nat, size: nat, block: seq<byte>)
    requires Packable(Block(block)) && size <= |buf| && At(buf, cur, Bytes(|block|) + block)
             && cur + WORD + |block| <= size
    ensures ReadBlock(buf, cur, size) == Read(Some(block), cur + WORD + |block|)
  {
    hide Bytes, Word;
    AtParts(buf, cur, Bytes(|block|), block);
    WordOfBytes(|block|);
  }

  lemma WordReadsBack(buf: seq<byte>, cur: nat, size: nat, bits: word)
    requires size <= |buf| && At(buf, cur, Bytes(WORD) + Bytes(bits)) && cur + WORD + WORD <= size
    ensures ReadWord(buf, cur, size) == Read(bits, cur + WORD + WORD)
  {
    AtParts(buf, cur, Bytes(WORD), Bytes(bits));
    WordOfBytes(WORD);
    WordOfBytes(bits);
    hide Bytes, Word;
  }

  function Found(items: seq<Item>): seq<Option<Item>> {
    seq(|items|, i requires 0 <= i < |items| => Some(items[i]))
  }

  /** Whatever was packed is read back by the same kinds of reads, which end where it ends. */
  lemma {:induction false} ReadsBack(buf: seq<byte>, cur: nat, size: nat, items: seq<Item>)
    requires AllPackable(items) && size <= |buf| && At(buf, cur, AllPacked(items)) && cur + |AllPacked(items)| <= size
    ensures ReadAll(buf, cur, size, Kinds(items)) == Read(Found(items), cur + |AllPacked(items)|)
    decreases |items|
  {
    hide Packed, ReadItem, At, Kinds, Found;
    if items == [] {
      NothingUnfolded();
    } else {
      AtParts(buf, cur, Packed(items[0]), AllPacked(items[1..]));
      ItemReadsBack(buf, cur, size, items[0]);
      ReadsBack(buf, cur + |Packed(items[0])|, size, items[1..]);
      Unfolded(items);
    }
  }

  lemma NothingUnfolded()
    ensures Kinds([]) == [] && Found([]) == [] && AllPacked([]) == []
  {}

  lemma Unfolded(items: seq<Item>)
    requires items != []
    ensures Kinds(items) == [KindOf(items[0])] + Kinds(items[1..])
            && Found(items) == [Some(items[0])] + Found(items[1..])
  {}

  /**
   A read as a cell or a float does not see what was packed: whatever four bytes follow a length of
   four are taken. It ends where the item ends unless that is a string of four characters.
   */
  lemma CellReadsAnyFour(buf: seq<byte>, cur: nat, size: nat, item: Item)
    requires Packable(item) && size <= |buf| && At(buf, cur, Packed(item)) && cur + |Packed(item)| <= size
    ensures var r, body := ReadWord(buf, cur, size), Packed(item)[WORD..];
            && (r.next != cur <==> Word(Packed(item)[..WORD]) == WORD)
            && (r.next != cur ==> Bytes(r.value) == body[..WORD])
            && (r.next == cur + |Packed(item)| <==> Word(Packed(item)[..WORD]) == WORD && !item.Text?)
  {
    var p := Packed(item);
    assert p == p[..WORD] + p[WORD..];
    AtParts(buf, cur, p[..WORD], p[WORD..]);
    LengthIs(item);
    if Word(p[..WORD]) == WORD {
      assert p[WORD..] == p[WORD..][..WORD] + p[WORD..][WORD..];
      AtParts(buf, cur + WORD, p[WORD..][..WORD], p[WORD..][WORD..]);
      BytesOfWord(p[WORD..][..WORD]);
    }
    hide Bytes, Word, Packed;
  }

  /** What the length in front of an item says of how many bytes follow. */
  lemma LengthIs(item: Item)
    requires Packable(item)
    ensures |Packed(item)| == WORD + Word(Packed(item)[..WORD]) + (if item.Text? then 1 else 0)
  {
    var n: word :=
      match item
      case Cell(_) => WORD
      case Float(_) => WORD
      case Text(text) => |text|
      case Block(block) => |block|;
    assert Packed(item)[..WORD] == Bytes(n);
    WordOfBytes(n);
  }

  // ----- packing

  /** The capacity after doubling: the first that is large enough. */
  function Doubled(capacity: nat, need: nat): (r: nat)
    requires capacity > 0
    ensures r >= need && r >= capacity && (r == capacity || r < 2 * need)
    decreases need - capacity
  {
    if need <= capacity then capacity else Doubled(2 * capacity, need)
  }

  /** The bytes are written at `at`, into a buffer that is grown for them; no other byte is changed. */
  ghost predicate PackedAt(was: seq<byte>, now: seq<byte>, at: nat, bytes: seq<byte>) {
    && |was| > 0 && |now| == Doubled(|was|, at + |bytes|) && At(now, at, bytes)
    && forall i :: 0 <= i < |was| && !(at <= i < at + |bytes|) ==> now[i] == was[i]
  }

  /** The bytes are written at `at`. */
  function Written(s: seq<byte>, at: nat, bytes: seq<byte>): (r: seq<byte>)
    requires at + |bytes| <= |s|
    ensures |r| == |s|
    ensures forall i :: 0 <= i < |s| ==> r[i] == if at <= i < at + |bytes| then bytes[i - at] else s[i]
  {
    s[..at] + bytes + s[at + |bytes|..]
  }

  /** Writes in a row are one write. */
  lemma WrittenOn(s: seq<byte>, at: nat, a: seq<byte>, b: seq<byte>)
    requires at + |a + b| <= |s|
    ensures Written(Written(s, at, a), at + |a|, b) == Written(s, at, a + b)
  {
    hide Written;
  }

  lemma PackedIs(was: seq<byte>, grown: seq<byte>, at: nat, bytes: seq<byte>)
    requires |was| > 0 && |grown| == Doubled(|was|, at + |bytes|) && was <= grown
    ensures PackedAt(was, Written(grown, at, bytes), at, bytes)
  {
    hide Written;
    var r := Written(grown, at, bytes);
    assert r[at..at + |bytes|] == bytes;
  }

  lemma {:induction false} PackedBehind(items: seq<Item>, item: Item)
    requires AllPackable(items) && Packable(item)
    ensures AllPackable(items + [item]) && AllPacked(items + [item]) == AllPacked(items) + Packed(item)
  {
    hide Packed;
    if items == [] {
      assert AllPacked([item]) == Packed(item) + AllPacked([]);
    } else {
      PackedBehind(items[1..], item);
      assert (items + [item])[1..] == items[1..] + [item];
      assert AllPackable(items[1..] + [item]);
      assert (items + [item])[0] == items[0];
    }
  }

  /** What is packed at the end follows what was packed before. */
  lemma PackedOn(was: seq<byte>, now: seq<byte>, size: nat, bytes: seq<byte>)
    requires size <= |was| && PackedAt(was, now, size, bytes)
    ensures size + |bytes| <= |now| && now[..size + |bytes|] == was[..size] + bytes
  {
    assert now[..size] == was[..size];
    assert now[..size + |bytes|] == now[..size] + now[size..size + |bytes|];
  }

  class DataPack {
    var buf: array<byte>
    var curptr: nat
    var size: nat

    ghost predicate Valid()
      reads this
    {
      buf.Length > 0
    }

    constructor ()
      ensures Valid() && fresh(buf) && buf.Length == INITIAL_SIZE && curptr == 0 && size == 0
    {
      buf := new byte[INITIAL_SIZE];
      new;
      Initialize();
    }

    /** Back to an empty pack, with the capacity it has. */
    method Initialize()
      modifies this`curptr, this`size
      ensures curptr == 0 && size == 0
    {
      curptr, size := 0, 0;
    }

    /** Room for `typesize` bytes at the position: the capacity is doubled as often as needed. */
    method CheckSize(typesize: nat)
      requires Valid()
      modifies this`buf
      ensures Valid() && (buf == old(buf) || fresh(buf)) && buf.Length == Doubled(old(buf.Length), curptr + typesize)
      ensures old(buf[..]) <= buf[..]
    {
      if curptr + typesize <= buf.Length { return; }
      while curptr + typesize > buf.Length
        invariant buf.Length > 0 && (buf == old(buf) || fresh(buf)) && buf.Length >= old(buf.Length)
        invariant Doubled(buf.Length, curptr + typesize) == Doubled(old(buf.Length), curptr + typesize)
        invariant old(buf[..]) <= buf[..]
        decreases curptr + typesize - buf.Length
      {
        Double();
      }
    }

    /** `realloc` to twice the capacity. */
    method Double()
      requires Valid()
      modifies this`buf
      ensures fresh(buf) && buf.Length == 2 * old(buf.Length)
      ensures old(buf[..]) <= buf[..]
    {
      var more := new byte[2 * buf.Length];
      for i := 0 to buf.Length
        invariant forall k :: 0 <= k < i ==> more[k] == buf[k]
        modifies more
      {
        more[i] := buf[i];
      }
      buf := more;
    }

    /** The bytes are copied to the position, which moves behind them. */
    method Put(bytes: seq<byte>)
      requires curptr + |bytes| <= buf.Length
      modifies this`curptr, buf
      ensures curptr == old(curptr) + |bytes|
      ensures buf[..] == Written(old(buf[..]), old(curptr), bytes)
    {
      for i := 0 to |bytes|
        invariant forall k :: 0 <= k < buf.Length ==>
                    buf[k] == if curptr <= k < curptr + i then bytes[k - curptr] else old(buf[k])
        modifies buf
      {
        buf[curptr + i] := bytes[i];
      }
      curptr := curptr + |bytes|;
    }

    /** What packing an item does, whichever it is. */
    twostate predicate Packs(item: Item)
      reads this, buf
    {
      && Packable(item) && PackedAt(old(buf[..]), buf[..], old(curptr), Packed(item))
      && curptr == old(curptr) + |Packed(item)| && size == old(size) + |Packed(item)|
      && (buf == old(buf) || fresh(buf))
    }

    /** `PackCell`. */
    method PackCell(bits: word)
      requires Valid()
      modifies this, buf
      ensures Valid() && Packs(Cell(bits))
    {
      hide Written, PackedAt, Bytes;
      CheckSize(WORD + WORD);
      ghost var grown := buf[..];
      Put(Bytes(WORD));
      Put(Bytes(bits));
      size := size + WORD + WORD;
      WrittenOn(grown, old(curptr), Bytes(WORD), Bytes(bits));
      PackedIs(old(buf[..]), grown, old(curptr), Bytes(WORD) + Bytes(bits));
    }

    /** `PackFloat`. */
    method PackFloat(bits: word)
      requires Valid()
      modifies this, buf
      ensures Valid() && Packs(Float(bits))
    {
      hide Written, PackedAt, Bytes;
      CheckSize(WORD + WORD);
      ghost var grown := buf[..];
      Put(Bytes(WORD));
      Put(Bytes(bits));
      size := size + WORD + WORD;
      WrittenOn(grown, old(curptr), Bytes(WORD), Bytes(bits));
      PackedIs(old(buf[..]), grown, old(curptr), Bytes(WORD) + Bytes(bits));
    }

    /** `PackString`. */
    method PackString(text: seq<byte>)
      requires Valid() && Packable(Text(text))
      modifies this, buf
      ensures Valid() && Packs(Text(text))
    {
      hide Written, PackedAt, Bytes;
      var maxsize := WORD + |text| + 1;
      CheckSize(maxsize);
      ghost var grown := buf[..];
      Put(Bytes(|text|));
      Put(text);
      Put([0]);
      size := size + maxsize;
      WrittenOn(grown, old(curptr), Bytes(|text|), text);
      WrittenOn(grown, old(curptr), Bytes(|text|) + text, [0]);
      PackedIs(old(buf[..]), grown, old(curptr), Bytes(|text|) + text + [0]);
    }

    /** `CreateMemory`, and the caller's filling of the memory it is given. */
    method PackBlock(block: seq<byte>) returns (pos: nat)
      requires Valid() && Packable(Block(block))
      modifies this, buf
      ensures Valid() && Packs(Block(block)) && pos == old(curptr)
    {
      hide Written, PackedAt, Bytes;
      CheckSize(WORD + |block|);
      ghost var grown := buf[..];
      pos := curptr;
      Put(Bytes(|block|));
      Put(block);
      size := size + WORD + |block|;
      WrittenOn(grown, old(curptr), Bytes(|block|), block);
      PackedIs(old(buf[..]), grown, old(curptr), Bytes(|block|) + block);
    }

    method Reset()
      modifies this`curptr
      ensures curptr == 0
    {
      curptr := 0;
    }

    /** `SetPosition`: with nothing packed the test wraps around, and every position is taken. */
    method SetPosition(pos: word) returns (ok: bool)
      requires size < 0x1_0000_0000
      modifies this`curptr
      ensures ok <==> size == 0 || pos < size
      ensures curptr == if ok then pos else old(curptr)
    {
      if pos > (size - 1) % 0x1_0000_0000 { return false; }
      curptr := pos;
      ok := true;
    }

    /** `ReadCell` and `ReadFloat`. */
    method ReadCell() returns (val: word)
      requires size <= buf.Length
      modifies this`curptr
      ensures Read(val, curptr) == ReadWord(buf[..], old(curptr), size)
    {
      hide Word;
      if curptr + WORD + WORD > size { return 0; }
      if Word(buf[curptr..curptr + WORD]) != WORD { return 0; }
      curptr := curptr + WORD;
      val := Word(buf[curptr..curptr + WORD]);
      curptr := curptr + WORD;
    }

    /** `ReadString`. */
    method ReadString() returns (text: Option<seq<byte>>)
      requires size <= buf.Length
      modifies this`curptr
      ensures Read(text, curptr) == ReadText(buf[..], old(curptr), size)
    {
      hide Word, StrLen;
      if curptr + WORD > size { return None; }
      var len := Word(buf[curptr..curptr + WORD]);
      curptr := curptr + WORD;
      var n := CountText();
      if n != len || curptr + len + 1 > size { return None; }
      text := Some(buf[curptr..curptr + len]);
      curptr := curptr + len + 1;
    }

    /** `strlen` at the position. */
    method CountText() returns (n: nat)
      requires curptr <= buf.Length
      ensures n == StrLen(buf[..], curptr)
    {
      n := 0;
      while curptr + n < buf.Length && buf[curptr + n] != 0
        invariant curptr + n <= buf.Length && StrLen(buf[..], curptr) == n + StrLen(buf[..], curptr + n)
      {
        n := n + 1;
      }
    }

    /** `ReadMemory`. */
    method ReadMemory() returns (block: Option<seq<byte>>)
      requires size <= buf.Length
      modifies this`curptr
      ensures Read(block, curptr) == ReadBlock(buf[..], old(curptr), size)
    {
      hide Word;
      if curptr + WORD > size { return None; }
      var count := Word(buf[curptr..curptr + WORD]);
      curptr := curptr + WORD;
      if curptr + count > size { return None; }
      block := Some(buf[curptr..curptr + count]);
      curptr := curptr + count;
    }
  }

  /** Packs one item by the call for its kind. */
  method PackItem(pack: DataPack, item: Item)
    requires pack.Valid() && Packable(item)
    modifies pack, pack.buf
    ensures pack.Valid() && pack.Packs(item)
  {
    match item
    case Cell(bits) => pack.PackCell(bits);
    case Float(bits) => pack.PackFloat(bits);
    case Text(text) => pack.PackString(text);
    case Block(block) => var _ := pack.PackBlock(block);
  }

  /** Packs into an empty pack. */
  method PackAll(pack: DataPack, items: seq<Item>)
    requires pack.Valid() && pack.curptr == 0 && pack.size == 0 && AllPackable(items)
    modifies pack, pack.buf
    ensures pack.Valid() && pack.curptr == pack.size <= pack.buf.Length && pack.buf[..pack.size] == AllPacked(items)
  {
    hide Packed, AllPacked, PackedAt;
    NothingUnfolded();
    assert items[..0] == [];
    for i := 0 to |items|
      invariant pack.Valid() && (pack.buf == old(pack.buf) || fresh(pack.buf))
      invariant pack.curptr == pack.size <= pack.buf.Length && pack.buf[..pack.size] == AllPacked(items[..i])
    {
      ghost var was, size := pack.buf[..], pack.size;
      PackItem(pack, items[i]);
      PackedOn(was, pack.buf[..], size, Packed(items[i]));
      PackedBehind(items[..i], items[i]);
      assert items[..i + 1] == items[..i] + [items[i]];
      assert pack.buf[..pack.size] == pack.buf[..][..pack.size];
      assert was[..size] == AllPacked(items[..i]);
    }
    assert items[..|items|] == items;
  }

  /** Reads by the call for each kind. */
  method ReadItems(pack: DataPack, kinds: seq<Kind>) returns (found: seq<Option<Item>>)
    requires pack.size <= pack.buf.Length
    modifies pack`curptr
    ensures Read(found, pack.curptr) == ReadAll(pack.buf[..], old(pack.curptr), pack.size, kinds)
  {
    hide ReadWord, ReadText, ReadBlock;
    found := [];
    var rest := kinds;
    ghost var buf, size := pack.buf[..], pack.size;
    while rest != []
      invariant ReadAll(buf, old(pack.curptr), size, kinds).value == found + ReadAll(buf, pack.curptr, size, rest).value
      invariant ReadAll(buf, old(pack.curptr), size, kinds).next == ReadAll(buf, pack.curptr, size, rest).next
      modifies pack`curptr
      decreases |rest|
    {
      var item := ReadOne(pack, rest[0]);
      found := found + [item];
      rest := rest[1..];
    }
    assert ReadAll(buf, old(pack.curptr), size, kinds).value == found;
  }

  method ReadOne(pack: DataPack, kind: Kind) returns (item: Option<Item>)
    requires pack.size <= pack.buf.Length
    modifies pack`curptr
    ensures Read(item, pack.curptr) == ReadItem(pack.buf[..], old(pack.curptr), pack.size, kind)
  {
    hide ReadWord, ReadText, ReadBlock;
    match kind
    case AsCell => var w := pack.ReadCell(); item := Some(Cell(w));
    case AsFloat => var w := pack.ReadCell(); item := Some(Float(w));
    case AsText => var t := pack.ReadString(); item := if t.Some? then Some(Text(t.value)) else None;
    case AsBlock => var b := pack.ReadMemory(); item := if b.Some? then Some(Block(b.value)) else None;
  }

  /** A pack gives back whatever was packed into it, and ends where the packing ended. */
  method RoundTrip(items: seq<Item>) returns (found: seq<Option<Item>>, ends: bool)
    requires AllPackable(items)
    ensures found == Found(items) && ends
  {
    var pack := new DataPack();
    PackAll(pack, items);
    pack.Reset();
    ReadsBack(pack.buf[..], 0, pack.size, items);
    found := ReadItems(pack, Kinds(items));
    ends := pack.curptr == pack.size;
  }
}
