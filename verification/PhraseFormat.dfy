/**
 The `#format` property of a phrase: `{1:s},{2:d},...`.

 It is read twice, once to check and count and once to fill the table of specifiers. Here:
 the property is accepted exactly when its indices are 1 to n in some order (and every piece is
 well formed), and then the table has no hole, so the program's last check never fires.
 */
module PhraseFormat {
  import opened Common
  import opened Counting

  /** One `{index:spec}`. */
  datatype Entry = Entry(index: string, spec: string)

  const MAX_INDEX_SPAN := 15
  const FMT_BUF := 16

  // ----- the first reading

  /** The first position at or behind `i` that holds no digit. */
  function DigitsEnd(v: string, i: nat): (j: nat)
    requires i <= |v|
    ensures i <= j <= |v| && (forall k :: i <= k < j ==> IsDigit(v[k])) && (j < |v| ==> !IsDigit(v[j]))
    decreases |v| - i
  {
    if i < |v| && IsDigit(v[i]) then DigitsEnd(v, i + 1) else i
  }

  /** The first closing brace at or behind `i`. */
  function BraceEnd(v: string, i: nat): (j: nat)
    requires i <= |v|
    ensures i <= j <= |v| && (forall k :: i <= k < j ==> v[k] != '}') && (j < |v| ==> v[j] == '}')
    decreases |v| - i
  {
    if i < |v| && v[i] != '}' then BraceEnd(v, i + 1) else i
  }

  /** The entries from `i` on, outside any entry; `last` is where the previous one ended. None
      when an index holds something else than digits or is too long, or an entry is not ended. */
  function Entries(v: string, i: nat, last: nat): Option<seq<Entry>>
    requires last <= i <= |v|
    decreases |v| - i
  {
    if i == |v| then Some([])
    else if v[i] != '{' then Entries(v, i + 1, last)
    else
      var j := DigitsEnd(v, i + 1);
      if j == |v| || v[j] != ':' || j - last >= MAX_INDEX_SPAN then None else
      var k := BraceEnd(v, j + 1);
      if k == |v| then None else
      match Entries(v, k + 1, k + 1)
      case None => None
      case Some(rest) => Some([Entry(v[i + 1..j], v[j + 1..k])] + rest)
  }

  /** The entries of a whole property. */
  function Declared(v: string): Option<seq<Entry>> {
    Entries(v, 0, 0)
  }

  function Prepend(done: seq<Entry>, rest: Option<seq<Entry>>): Option<seq<Entry>> {
    match rest case None => None case Some(r) => Some(done + r)
  }

  datatype ParseState = ParseNone | ParseIndex | ParseFormat

  /** What is still to be read in the middle of an entry that opened at `open` (and whose index
      ended at `colon`). */
  ghost predicate Reading(v: string, i: nat, last: nat, state: ParseState, open: nat, colon: nat, done: seq<Entry>) {
    && last <= i <= |v|
    && match state
       case ParseNone => Declared(v) == Prepend(done, Entries(v, i, last))
       case ParseIndex =>
         && last <= open < i && v[open] == '{' && DigitsEnd(v, open + 1) >= i
         && Declared(v) == Prepend(done, Entries(v, open, last))
       case ParseFormat =>
         && last <= open < colon < i && v[open] == '{' && DigitsEnd(v, open + 1) == colon && v[colon] == ':'
         && colon - last < MAX_INDEX_SPAN && BraceEnd(v, colon + 1) >= i
         && Declared(v) == Prepend(done, Entries(v, open, last))
  }

  /** The first reading: checks the property and counts its entries. */
  method Browse(v: string) returns (ok: bool, count: nat)
    ensures ok <==> Declared(v).Some?
    ensures ok ==> count == |Declared(v).value|
  {
    var state := ParseNone;
    var i, last := 0, 0;
    count := 0;
    ghost var open, colon, done: seq<Entry> := 0, 0, [];
    assert Prepend([], Entries(v, 0, 0)) == Entries(v, 0, 0) by { NoneBefore(Entries(v, 0, 0)); }
    while i < |v|
      invariant 0 <= i <= |v| && 0 <= last && 0 <= open && 0 <= colon
      invariant Reading(v, i, last, state, open, colon, done)
      invariant count == |done| + (if state == ParseNone then 0 else 1)
    {
      if state == ParseNone {
        if v[i] == '{' {
          count := count + 1;
          state := ParseIndex;
          open := i;
        }
      } else if state == ParseIndex {
        if v[i] == ':' {
          state := ParseFormat;
          colon := i;
          if i - last >= MAX_INDEX_SPAN { return false, count; }
        } else if !IsDigit(v[i]) {
          return false, count;
        }
      } else if v[i] == '}' {
        state := ParseNone;
        EntryEnds(v, open, last, colon, i, done);
        done := done + [Entry(v[open + 1..colon], v[colon + 1..i])];
        last := i + 1;
      }
      i := i + 1;
    }
    ok := state == ParseNone;
    if ok { assert done + [] == done; }
  }

  lemma NoneBefore(rest: Option<seq<Entry>>)
    ensures Prepend([], rest) == rest
  {
    if rest.Some? { assert [] + rest.value == rest.value; }
  }

  lemma EntryEnds(v: string, open: nat, last: nat, colon: nat, i: nat, done: seq<Entry>)
    requires i < |v| && v[i] == '}'
    requires Reading(v, i, last, ParseFormat, open, colon, done)
    ensures Reading(v, i + 1, i + 1, ParseNone, open, colon, done + [Entry(v[open + 1..colon], v[colon + 1..i])])
    ensures BraceEnd(v, colon + 1) == i
  {
    var e := Entry(v[open + 1..colon], v[colon + 1..i]);
    var rest := Entries(v, i + 1, i + 1);
    if rest.Some? {
      assert done + ([e] + rest.value) == done + [e] + rest.value;
    }
  }

  // ----- the second reading

  /** The number a run of digits stands for. */
  function Number(s: string): int {
    if s == "" then 0 else 10 * Number(s[..|s| - 1]) + (s[|s| - 1] as int - '0' as int)
  }

  predicate GoodIndex(e: Entry, count: nat) {
    && |e.index| > 0
    && (forall k :: 0 <= k < |e.index| ==> IsDigit(e.index[k]))
    && 1 <= Number(e.index) <= count
  }

  predicate GoodSpec(e: Entry) {
    1 <= |e.spec| < FMT_BUF - 1
  }

  /** The entries number their parameters 1 to n, each once, with a specifier that fits. */
  predicate Acceptable(es: seq<Entry>) {
    && (forall k :: 0 <= k < |es| ==> GoodIndex(es[k], |es|) && GoodSpec(es[k]))
    && (forall j, k :: 0 <= j < k < |es| ==> Number(es[j].index) != Number(es[k].index))
  }

  /** The table holds the specifiers of `es` and nothing else. */
  ghost predicate Holds(table: seq<Option<string>>, es: seq<Entry>)
  {
    && (forall k :: 0 <= k < |es| ==> EntryAt(table, es[k]))
    && (forall i: nat :: i < |table| && table[i].Some? ==> FromEntry(es, i))
  }

  /** The entry's specifier is in its place. */
  ghost predicate EntryAt(table: seq<Option<string>>, e: Entry) {
    var i := Number(e.index) - 1;
    0 <= i < |table| && table[i] == Some("%" + e.spec)
  }

  ghost predicate FromEntry(es: seq<Entry>, i: nat) {
    exists k :: 0 <= k < |es| && Number(es[k].index) == i + 1
  }

  lemma CurrentEntry(v: string, i: nat, last: nat, state: ParseState, open: nat, colon: nat, done: seq<Entry>)
    requires Declared(v).Some? && Reading(v, i, last, state, open, colon, done) && state != ParseNone
    ensures var j := DigitsEnd(v, open + 1);
            && j < |v| && v[j] == ':'
            && BraceEnd(v, j + 1) < |v|
            && |done| < |Declared(v).value|
            && Declared(v).value[|done|] == Entry(v[open + 1..j], v[j + 1..BraceEnd(v, j + 1)])
            && (forall k :: 0 <= k < |done| ==> Declared(v).value[k] == done[k])
  {}

  lemma DoneEntries(v: string, i: nat, last: nat, open: nat, colon: nat, done: seq<Entry>)
    requires Declared(v).Some? && Reading(v, i, last, ParseNone, open, colon, done)
    ensures |done| <= |Declared(v).value| && Declared(v).value[..|done|] == done
    ensures i == |v| ==> Declared(v).value == done
  {}

  /** An acceptable property gives every parameter a specifier. */
  lemma EveryIndexDeclared(es: seq<Entry>, i: nat) returns (k: nat)
    requires Acceptable(es) && i < |es|
    ensures k < |es| && Number(es[k].index) == i + 1
  {
    var s := seq(|es|, j requires 0 <= j < |es| => Number(es[j].index));
    assert forall j :: 0 <= j < |es| ==> GoodIndex(es[j], |es|) && s[j] == Number(es[j].index);
    hide GoodIndex, GoodSpec, Number;
    Pigeonhole(s, 1, i + 1);
    k :| 0 <= k < |s| && s[k] == i + 1;
  }

  /** Good entries, all with different indices. */
  ghost predicate Good(done: seq<Entry>, count: nat) {
    && (forall k :: 0 <= k < |done| ==> GoodIndex(done[k], count) && GoodSpec(done[k]))
    && (forall j, k :: 0 <= j < k < |done| ==> Number(done[j].index) != Number(done[k].index))
  }

  /** `done` entries are in the table, and all of them are good so far. */
  ghost predicate Filled(table: seq<Option<string>>, done: seq<Entry>) {
    Good(done, |table|) && Holds(table, done)
  }

  lemma HoldsMore(table: seq<Option<string>>, done: seq<Entry>, e: Entry)
    requires Holds(table, done) && 0 <= Number(e.index) - 1 < |table|
    requires table[Number(e.index) - 1] == None
    ensures Holds(table[Number(e.index) - 1 := Some("%" + e.spec)], done + [e])
  {
    hide Number;
    var n := Number(e.index) - 1;
    var t := table[n := Some("%" + e.spec)];
    var more := done + [e];
    forall k | 0 <= k < |more| ensures EntryAt(t, more[k]) {
      if k < |done| { assert more[k] == done[k] && EntryAt(table, done[k]); }
    }
    forall i: nat | i < |t| && t[i].Some? ensures FromEntry(more, i) {
      if i != n { assert FromEntry(done, i); }
      FromMore(done, e, i);
    }
  }

  lemma FromMore(done: seq<Entry>, e: Entry, i: nat)
    requires FromEntry(done, i) || Number(e.index) == i + 1
    ensures FromEntry(done + [e], i)
  {
    hide Number;
    var more := done + [e];
    assert more[|done|] == e;
    if FromEntry(done, i) {
      var k :| 0 <= k < |done| && Number(done[k].index) == i + 1;
      assert more[k] == done[k];
    }
  }

  lemma GoodMore(table: seq<Option<string>>, done: seq<Entry>, e: Entry)
    requires Filled(table, done) && GoodIndex(e, |table|) && GoodSpec(e)
    requires table[Number(e.index) - 1] == None
    ensures Good(done + [e], |table|)
  {
    var more := done + [e];
    hide Number, GoodSpec, GoodIndex;
    assert more[|done|] == e;
    forall k | 0 <= k < |more| ensures GoodIndex(more[k], |table|) && GoodSpec(more[k]) {
      if k < |done| { assert more[k] == done[k]; }
    }
    forall j, k | 0 <= j < k < |more| ensures Number(more[j].index) != Number(more[k].index) {
      assert more[j] == done[j];
      if k < |done| { assert more[k] == done[k]; }
    }
  }

  lemma FilledMore(table: seq<Option<string>>, done: seq<Entry>, e: Entry)
    requires Filled(table, done) && GoodIndex(e, |table|) && GoodSpec(e)
    requires table[Number(e.index) - 1] == None
    ensures Filled(table[Number(e.index) - 1 := Some("%" + e.spec)], done + [e])
  {
    HoldsMore(table, done, e);
    GoodMore(table, done, e);
    hide Number, GoodSpec, Holds, Good, GoodIndex;
  }

  lemma EndOfProperty(v: string, last: nat, state: ParseState, open: nat, colon: nat, done: seq<Entry>)
    requires Declared(v).Some? && Reading(v, |v|, last, state, open, colon, done)
    ensures state == ParseNone && Declared(v).value == done
  {
    if state != ParseNone {
      CurrentEntry(v, |v|, last, state, open, colon, done);
    } else {
      DoneEntries(v, |v|, last, open, colon, done);
    }
  }

  lemma BadIndex(es: seq<Entry>, k: nat)
    requires k < |es| && !GoodIndex(es[k], |es|)
    ensures !Acceptable(es)
  {}

  lemma BadSpec(es: seq<Entry>, k: nat)
    requires k < |es| && !GoodSpec(es[k])
    ensures !Acceptable(es)
  {}

  lemma TakenIndex(table: seq<Option<string>>, es: seq<Entry>, done: seq<Entry>, e: Entry)
    requires |es| == |table| && |done| < |es| && es[..|done|] == done && es[|done|] == e
    requires Filled(table, done) && GoodIndex(e, |table|) && table[Number(e.index) - 1].Some?
    ensures !Acceptable(es)
  {
    hide Number;
    var k :| 0 <= k < |done| && Number(done[k].index) == Number(e.index);
    assert es[k] == done[k];
  }

  lemma NumberIsInRange(s: string, n: nat)
    requires n <= |s| && forall k :: 0 <= k < |s| ==> IsDigit(s[k])
    ensures Number(s) >= 0
  {
    if s != "" { NumberIsInRange(s[..|s| - 1], 0); }
  }

  lemma ColonFound(v: string, i: nat, last: nat, open: nat, colon: nat, done: seq<Entry>)
    requires Declared(v).Some? && Reading(v, i, last, ParseIndex, open, colon, done) && i < |v| && v[i] == ':'
    ensures Reading(v, i + 1, last, ParseFormat, open, i, done)
  {}

  lemma IndexGoesOn(v: string, i: nat, last: nat, open: nat, colon: nat, done: seq<Entry>)
    requires Declared(v).Some? && Reading(v, i, last, ParseIndex, open, colon, done) && i < |v| && v[i] != ':'
    ensures Reading(v, i + 1, last, ParseIndex, open, colon, done) && open < i
  {
    CurrentEntry(v, i, last, ParseIndex, open, colon, done);
  }

  lemma Outside(v: string, i: nat, last: nat, open: nat, colon: nat, done: seq<Entry>)
    requires Reading(v, i, last, ParseNone, open, colon, done) && i < |v|
    ensures if v[i] == '{' then Reading(v, i + 1, last, ParseIndex, i, colon, done)
            else Reading(v, i + 1, last, ParseNone, open, colon, done)
  {}

  /** In the index of an entry. */
  ghost predicate Indexing(i: nat, open: nat, idx: nat) {
    idx == if i == open + 1 then 0 else open + 1
  }

  /** In the specifier of an entry: its index is good and free, and the buffer holds what came so far. */
  ghost predicate Copying(v: string, i: nat, colon: nat, table: seq<Option<string>>, e: Entry, curIdx: int,
                          buf: seq<char>, out: nat) {
    && GoodIndex(e, |table|) && curIdx == Number(e.index) && table[curIdx - 1] == None
    && |buf| == FMT_BUF && colon < i <= |v|
    && out == (if i == colon + 1 then 0 else i - colon) <= FMT_BUF - 1
    && (out > 0 ==> buf[..out] == "%" + v[colon + 1..i])
  }

  /** At the colon: checks the index. */
  method IndexEnds(v: string, i: nat, idx: nat, table: seq<Option<string>>, ghost buf: seq<char>,
                   ghost last: nat, ghost open: nat, ghost colon: nat, ghost done: seq<Entry>)
                     returns (n: int, ok: bool)
    requires |buf| == FMT_BUF
    requires Declared(v).Some? && |table| == |Declared(v).value| && i < |v| && v[i] == ':'
    requires Reading(v, i, last, ParseIndex, open, colon, done) && Indexing(i, open, idx) && Filled(table, done)
    ensures |done| < |Declared(v).value|
    ensures !ok ==> !Acceptable(Declared(v).value)
    ensures ok ==> Reading(v, i + 1, last, ParseFormat, open, i, done)
    ensures ok ==> Copying(v, i + 1, i, table, Declared(v).value[|done|], n, buf, 0)
  {
    hide Entries, Declared, Acceptable, Number, Holds;
    ColonFound(v, i, last, open, colon, done);
    CurrentEntry(v, i, last, ParseIndex, open, colon, done);
    ghost var es := Declared(v).value;
    ghost var e := es[|done|];
    assert DigitsEnd(v, open + 1) == i;
    assert es[..|done|] == done;
    hide Reading, EntryAt, FromEntry;
    n, ok := 0, false;
    if idx == 0 { BadIndex(es, |done|); return; }
    n := Number(v[idx..i]);
    if n < 1 || n > |table| { BadIndex(es, |done|); return; }
    if table[n - 1] != None { TakenIndex(table, es, done, e); return; }
    ok := true;
  }

  /** Inside the specifier: copies the character if there is room. */
  method CopyChar(v: string, i: nat, fmtBuf: array<char>, out: nat, table: seq<Option<string>>, curIdx: int,
                  ghost last: nat, ghost open: nat, ghost colon: nat, ghost done: seq<Entry>)
                    returns (next: nat, ok: bool)
    requires Declared(v).Some? && i < |v| && v[i] != '}' && |done| < |Declared(v).value|
    requires Reading(v, i, last, ParseFormat, open, colon, done)
    requires Copying(v, i, colon, table, Declared(v).value[|done|], curIdx, fmtBuf[..], out)
    modifies fmtBuf
    ensures !ok ==> !Acceptable(Declared(v).value)
    ensures ok ==> Copying(v, i + 1, colon, table, Declared(v).value[|done|], curIdx, fmtBuf[..], next)
    ensures Reading(v, i + 1, last, ParseFormat, open, colon, done)
  {
    assert Reading(v, i + 1, last, ParseFormat, open, colon, done);
    CurrentEntry(v, i, last, ParseFormat, open, colon, done);
    ghost var es := Declared(v).value;
    hide Entries, Declared, Reading, Acceptable, Number, GoodIndex;
    next, ok := out, false;
    if next == 0 {
      fmtBuf[0] := '%';
      next := 1;
    }
    assert fmtBuf[..next] == "%" + v[colon + 1..i];
    if next >= FMT_BUF - 1 { BadSpec(es, |done|); return; }
    fmtBuf[next] := v[i];
    assert v[colon + 1..i + 1] == v[colon + 1..i] + [v[i]];
    assert fmtBuf[..][..next + 1] == fmtBuf[..next] + [v[i]];
    next, ok := next + 1, true;
  }

  /** At the closing brace: enters the specifier into the table. */
  method SpecEnds(v: string, i: nat, fmtBuf: array<char>, out: nat, before: seq<Option<string>>, curIdx: int,
                  ghost last: nat, ghost open: nat, ghost colon: nat, ghost done: seq<Entry>)
    returns (table: seq<Option<string>>, ok: bool)
    requires Declared(v).Some? && i < |v| && v[i] == '}' && |done| < |Declared(v).value|
    requires Reading(v, i, last, ParseFormat, open, colon, done) && Filled(before, done)
    requires Copying(v, i, colon, before, Declared(v).value[|done|], curIdx, fmtBuf[..], out)
    ensures |table| == |before|
    ensures !ok ==> !Acceptable(Declared(v).value)
    ensures ok ==> Filled(table, done + [Declared(v).value[|done|]])
                   && Reading(v, i + 1, i + 1, ParseNone, open, colon, done + [Declared(v).value[|done|]])
  {
    ghost var es := Declared(v).value;
    ghost var e := es[|done|];
    EntryCompletes(v, i, last, open, colon, done);
    CopyingMeans(v, i, colon, before, e, curIdx, fmtBuf[..], out);
    hide *;
    table, ok := before, false;
    if out == 0 { BadSpec(es, |done|); return; }
    assert fmtBuf[..out] == fmtBuf[..][..out] == "%" + e.spec;
    FilledMore(before, done, e);
    table, ok := before[curIdx - 1 := Some(fmtBuf[..out])], true;
  }

  lemma EntryCompletes(v: string, i: nat, last: nat, open: nat, colon: nat, done: seq<Entry>)
    requires Declared(v).Some? && i < |v| && v[i] == '}' && Reading(v, i, last, ParseFormat, open, colon, done)
    ensures |done| < |Declared(v).value| && colon < i
    ensures Declared(v).value[|done|] == Entry(v[open + 1..colon], v[colon + 1..i])
    ensures Reading(v, i + 1, i + 1, ParseNone, open, colon, done + [Declared(v).value[|done|]])
  {
    CurrentEntry(v, i, last, ParseFormat, open, colon, done);
    EntryEnds(v, open, last, colon, i, done);
  }

  lemma CopyingMeans(v: string, i: nat, colon: nat, table: seq<Option<string>>, e: Entry, curIdx: int, buf: seq<char>,
                     out: nat)
    requires Copying(v, i, colon, table, e, curIdx, buf, out)
    ensures GoodIndex(e, |table|) && curIdx == Number(e.index) && 1 <= curIdx <= |table| && table[curIdx - 1] == None
    ensures out < |buf| == FMT_BUF
    ensures if out == 0 then i == colon + 1 else buf[..out] == "%" + v[colon + 1..i]
    ensures e.spec == v[colon + 1..i] ==> (GoodSpec(e) <==> out > 0)
  {}

  /** The second reading: fills the table of specifiers, checking every index and length. */
  method FillTable(v: string, count: nat) returns (table: seq<Option<string>>, ok: bool)
    requires Declared(v).Some? && count == |Declared(v).value|
    ensures ok <==> Acceptable(Declared(v).value)
    ensures |table| == count && (ok ==> Filled(table, Declared(v).value))
  {
    hide Reading, Entries, Declared, Acceptable, Copying, Filled;
    ghost var es := Declared(v).value;
    table, ok := seq(count, _ => None), false;
    var fmtBuf := new char[FMT_BUF];
    var state := ParseNone;
    var i: nat, idx: nat, curIdx: int, out: nat := 0, 0, 0, 0;
    ghost var last: nat, open: nat, colon: nat, done: seq<Entry> := 0, 0, 0, [];
    StartsReading(v);
    NothingFilled(count);
    while i < |v|
      invariant i <= |v| && |table| == count
      invariant Reading(v, i, last, state, open, colon, done) && Filled(table, done)
      invariant state == ParseIndex ==> Indexing(i, open, idx)
      invariant state == ParseFormat ==>
                  |done| < |es| && Copying(v, i, colon, table, es[|done|], curIdx, fmtBuf[..], out)
    {
      if state == ParseNone {
        Outside(v, i, last, open, colon, done);
        if v[i] == '{' { state, idx, open := ParseIndex, 0, i; }
      } else if state == ParseIndex {
        if v[i] == ':' {
          var n, good := IndexEnds(v, i, idx, table, fmtBuf[..], last, open, colon, done);
          if !good { return; }
          curIdx, state, out, colon := n, ParseFormat, 0, i;
        } else {
          IndexGoesOn(v, i, last, open, colon, done);
          if idx == 0 { idx := i; }
        }
      } else if v[i] == '}' {
        var good;
        table, good := SpecEnds(v, i, fmtBuf, out, table, curIdx, last, open, colon, done);
        if !good { return; }
        state, done, last := ParseNone, done + [es[|done|]], i + 1;
      } else {
        var good;
        out, good := CopyChar(v, i, fmtBuf, out, table, curIdx, last, open, colon, done);
        if !good { return; }
      }
      i := i + 1;
    }
    EndOfProperty(v, last, state, open, colon, done);
    FilledIsAcceptable(table, es);
    ok := true;
  }

  lemma StartsReading(v: string)
    ensures Reading(v, 0, 0, ParseNone, 0, 0, [])
  {
    NoneBefore(Entries(v, 0, 0));
  }

  lemma NothingFilled(count: nat)
    ensures Filled(seq(count, _ => None), [])
  {}

  lemma FilledIsAcceptable(table: seq<Option<string>>, es: seq<Entry>)
    requires Filled(table, es) && |table| == |es|
    ensures Acceptable(es)
  {}

  /** The `#format` property: read twice, and then searched for holes, as the program does to
      be safe; there are none. */
  method ReadFormat(v: string) returns (table: seq<string>, ok: bool, hole: bool)
    ensures ok <==> Declared(v).Some? && Acceptable(Declared(v).value)
    ensures ok ==> |table| == |Declared(v).value| &&
                   forall k :: 0 <= k < |table| ==>
                     var e := Declared(v).value[k];
                     1 <= Number(e.index) <= |table| && table[Number(e.index) - 1] == "%" + e.spec
    ensures !hole
  {
    table, ok, hole := [], false, false;
    var count;
    ok, count := Browse(v);
    if !ok { return; }
    var filled;
    filled, ok := FillTable(v, count);
    if !ok { return; }
    ghost var es := Declared(v).value;
    for i := 0 to count
      invariant |table| == i && forall j :: 0 <= j < i ==> filled[j] == Some(table[j])
    {
      ghost var x := EveryIndexDeclared(es, i);
      if filled[i] == None { ok, hole := false, true; return; }
      table := table + [filled[i].value];
    }
  }
}
