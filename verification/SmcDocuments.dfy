/**
 Printed documents through the buffered reader: short lines are enough.
 */
module SmcDocuments {
  import opened SmcTokens
  import opened SmcParser
  import opened SmcTrace
  import opened SmcRoundTrip
  import opened SmcStream
  import opened SmcLoads
  import opened SmcReader

  /** No line of a pair, and no section name with its brace, fills the buffer. */
  predicate Short(f: Forest) {
    match f
    case Done => true
    case Pair(key, value, rest) => |PairLine(key, value)| < CAPACITY - 1 && Short(rest)
    case Section(name, body, rest) => |HeaderLines(name)| < CAPACITY - 1 && Short(body) && Short(rest)
  }

  /** The parse stands between two lines once `st.pos` characters have been read. */
  ghost predicate Reached(text: string, st: State, ask: Listener) {
    st.pos <= |text| && Fresh(st) && Read(text, st.pos, ask) == st
  }

  lemma KeptBehind(text: string, st: State, e: nat, ask: Listener)
    requires Reached(text, st, ask) && st.pos <= e <= |text| && e - st.pos < CAPACITY - 1
    ensures Kept(text, e, ask)
  {
    ReadNeeds(text, st.pos, e, st.pos, ask);
    ReadIsSane(text, e, ask);
    if !Read(text, e, ask).status.Failed? { LowStringIsLeast(Read(text, e, ask), st.pos); }
  }

  lemma KeptHere(text: string, st: State, ask: Listener)
    requires Reached(text, st, ask)
    ensures st.pos <= |text| && Kept(text, st.pos, ask)
  {
    KeptBehind(text, st, st.pos, ask);
  }

  /** One printed unit, parsed to `next`: nothing needed is lost on the way. */
  lemma UnitKept(text: string, st: State, next: State, ask: Listener)
    requires Reached(text, st, ask) && Fresh(next) && st.pos <= next.pos <= |text| && next.pos - st.pos < CAPACITY - 1
    requires Loop(text[..next.pos], st, ask) == Loop(text[..next.pos], next, ask)
    ensures Reached(text, next, ask)
    ensures forall e :: st.pos <= e <= next.pos ==> Kept(text, e, ask)
  {
    ReadOn(text, st.pos, next.pos, ask);
    forall e | st.pos <= e <= next.pos ensures Kept(text, e, ask) {
      KeptBehind(text, st, e, ask);
    }
  }

  lemma HasInPrefix(text: string, pos: nat, part: string)
    requires Has(text, pos, part)
    ensures Has(text[..pos + |part|], pos, part)
  {
    assert text[..pos + |part|][pos..pos + |part|] == text[pos..pos + |part|];
  }

  lemma {:induction false} ForestKept(text: string, st: State, f: Forest, ask: Listener) returns (next: State)
    requires Reached(text, st, ask) && Agreeable(ask) && Plain(f) && Short(f) && (st.level > 0 || Sections(f))
    requires Has(text, st.pos, Print(f))
    ensures Reached(text, next, ask) && next.pos == st.pos + |Print(f)| && next.level == st.level
    ensures forall e :: st.pos <= e <= next.pos ==> Kept(text, e, ask)
    decreases f
  {
    hide Loop, Has, Agreeable, PairLine, HeaderLines, Read, Kept, EndsInBackslash, Reached;
    match f
    case Done =>
      next := st;
      KeptHere(text, st, ask);
    case Pair(key, value, rest) =>
      HasSplit(text, st.pos, PairLine(key, value), Print(rest));
      var s1 := PairKept(text, st, key, value, ask);
      next := ForestKept(text, s1, rest, ask);
    case Section(name, body, rest) =>
      var head := HeaderLines(name);
      HasSplit(text, st.pos, head, Print(body) + ("}\n" + Print(rest)));
      var s1 := HeaderKept(text, st, name, ask);
      HasSplit(text, s1.pos, Print(body), "}\n" + Print(rest));
      var s2 := ForestKept(text, s1, body, ask);
      HasSplit(text, s2.pos, "}\n", Print(rest));
      var s3 := FooterKept(text, s2, ask);
      next := ForestKept(text, s3, rest, ask);
  }

  lemma PairKept(text: string, st: State, key: string, value: string, ask: Listener) returns (next: State)
    requires Reached(text, st, ask) && Agreeable(ask) && st.level > 0 && |PairLine(key, value)| < CAPACITY - 1
    requires Has(text, st.pos, PairLine(key, value)) && !EndsInBackslash(key) && !EndsInBackslash(value)
    ensures Reached(text, next, ask) && next.pos == st.pos + |PairLine(key, value)| && next.level == st.level
    ensures forall e :: st.pos <= e <= next.pos ==> Kept(text, e, ask)
  {
    hide Loop, Has, Agreeable, PairLine, Read, Kept, EndsInBackslash;
    var line := PairLine(key, value);
    HasFits(text, st.pos, line);
    HasInPrefix(text, st.pos, line);
    PairParses(text[..st.pos + |line|], st, key, value, ask);
    next := After(st, |line|, 1, st.level, [RawLine, KeyValue(Text(key), Text(value))]);
    UnitKept(text, st, next, ask);
  }

  lemma HeaderKept(text: string, st: State, name: string, ask: Listener) returns (next: State)
    requires Reached(text, st, ask) && Agreeable(ask) && !EndsInBackslash(name) && |HeaderLines(name)| < CAPACITY - 1
    requires Has(text, st.pos, HeaderLines(name))
    ensures Reached(text, next, ask) && next.pos == st.pos + |HeaderLines(name)| && next.level == st.level + 1
    ensures forall e :: st.pos <= e <= next.pos ==> Kept(text, e, ask)
  {
    hide Loop, Has, Agreeable, HeaderLines, Read, Kept, EndsInBackslash;
    var head := HeaderLines(name);
    HasFits(text, st.pos, head);
    HasInPrefix(text, st.pos, head);
    HeaderParses(text[..st.pos + |head|], st, name, ask);
    next := After(st, |head|, 2, st.level + 1, [RawLine, NewSection(Text(name)), RawLine]);
    UnitKept(text, st, next, ask);
  }

  lemma FooterKept(text: string, st: State, ask: Listener) returns (next: State)
    requires Reached(text, st, ask) && Agreeable(ask) && st.level > 0 && Has(text, st.pos, "}\n")
    ensures Reached(text, next, ask) && next.pos == st.pos + 2 && next.level == st.level - 1
    ensures forall e :: st.pos <= e <= next.pos ==> Kept(text, e, ask)
  {
    hide Loop, Has, Agreeable, Read, Kept;
    HasFits(text, st.pos, "}\n");
    HasInPrefix(text, st.pos, "}\n");
    FooterParses(text[..st.pos + 2], st, ask);
    next := After(st, 2, 1, st.level - 1, [LeavingSection, RawLine]);
    UnitKept(text, st, next, ask);
  }

  lemma HasFits(text: string, pos: nat, part: string)
    requires Has(text, pos, part)
    ensures pos + |part| <= |text|
  {}

  /** A printed document with short lines never fills the buffer with what is still needed. */
  lemma PrintedIsKept(f: Forest, ask: Listener)
    requires Sections(f) && Plain(f) && Short(f) && Agreeable(ask)
    ensures forall e :: 0 <= e <= |Print(f)| ==> Kept(Print(f), e, ask)
  {
    var text := Print(f);
    assert text[0..0 + |text|] == text;
    assert Loop(text[..0], INITIAL, ask) == INITIAL;
    hide Print, Plain, Short, Sections, Loop;
    var next := ForestKept(text, INITIAL, f, ask);
  }

  /** The round trip through the buffer: a printed document with short lines comes back whole. */
  method ParsePrinted(f: Forest, ask: Listener) returns (out: Outcome)
    requires Sections(f) && Plain(f) && Short(f) && Agreeable(ask)
    ensures out.Parsed? && out.error == Okay
    ensures out.trace == [ParseStart] + Told(f) + [ParseEnd(false, false)]
    ensures Structure(out.trace) == [ParseStart] + Preorder(f) + [ParseEnd(false, false)]
  {
    ghost var whole;
    out, whole := ParseStream(Print(f), _ => CAPACITY, ask);
    PrintedIsKept(f, ask);
    StandsFirst(Print(f), ask);
    KeptFits(Print(f), 0, 0, ask);
    RoundTrip(f, ask);
  }
}
