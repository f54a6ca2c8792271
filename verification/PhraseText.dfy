/**
 Phrases and their `#format` as they are written, and what the readers make of them.
 */
module PhraseText {
  import opened Common
  import F = Format
  import M = FormatMeaning
  import PF = PhraseFormat
  import opened Phrase

  // ----- `#format`

  /** An entry, and what stands before it: anything but an open brace. */
  datatype Part = Part(before: string, entry: PF.Entry)

  function PartText(p: Part): string {
    p.before + ("{" + (p.entry.index + (":" + (p.entry.spec + "}"))))
  }

  function Property(parts: seq<Part>): string {
    if parts == [] then "" else PartText(parts[0]) + Property(parts[1..])
  }

  function EntriesOf(parts: seq<Part>): (es: seq<PF.Entry>)
    ensures |es| == |parts| && forall k :: 0 <= k < |parts| ==> es[k] == parts[k].entry
  {
    seq(|parts|, k requires 0 <= k < |parts| => parts[k].entry)
  }

  ghost predicate AllDigits(s: string) {
    forall k :: 0 <= k < |s| ==> IsDigit(s[k])
  }

  /** Digits before the colon, no brace that would end the specifier early, and not too far from the last entry. */
  ghost predicate WellWritten(p: Part) {
    '{' !in p.before && AllDigits(p.entry.index) && '}' !in p.entry.spec
    && |p.before| + 1 + |p.entry.index| < PF.MAX_INDEX_SPAN
  }

  ghost predicate At(v: string, i: nat, s: string) {
    i + |s| <= |v| && v[i..i + |s|] == s
  }

  lemma AtSplit(v: string, i: nat, a: string, b: string)
    requires At(v, i, a + b)
    ensures At(v, i, a) && At(v, i + |a|, b)
  {
    var w := v[i..i + |a + b|];
    assert w[..|a|] == a && w[|a|..] == b;
    assert v[i..i + |a|] == w[..|a|] && v[i + |a|..i + |a| + |b|] == w[|a|..];
  }

  lemma AtPlace(v: string, i: nat, s: string, k: nat)
    requires At(v, i, s) && k < |s|
    ensures i + k < |v| && v[i + k] == s[k]
  {
    assert v[i..i + |s|][k] == v[i + k];
  }

  lemma {:induction false} SkipBefore(v: string, i: nat, last: nat, before: string)
    requires last <= i && At(v, i, before) && '{' !in before && i + |before| < |v|
    ensures PF.Entries(v, i, last) == PF.Entries(v, i + |before|, last)
    decreases |before|
  {
    if before != "" {
      AtPlace(v, i, before, 0);
      assert before == before[..1] + before[1..];
      AtSplit(v, i, before[..1], before[1..]);
      SkipBefore(v, i + 1, last, before[1..]);
    }
  }

  lemma {:induction false} DigitsEndAt(v: string, i: nat, digits: string)
    requires At(v, i, digits) && AllDigits(digits) && i + |digits| < |v| && !IsDigit(v[i + |digits|])
    ensures PF.DigitsEnd(v, i) == i + |digits|
    decreases |digits|
  {
    if digits != "" {
      AtPlace(v, i, digits, 0);
      assert digits == digits[..1] + digits[1..];
      AtSplit(v, i, digits[..1], digits[1..]);
      DigitsEndAt(v, i + 1, digits[1..]);
    }
  }

  lemma {:induction false} BraceEndAt(v: string, i: nat, spec: string)
    requires At(v, i, spec) && '}' !in spec && i + |spec| < |v| && v[i + |spec|] == '}'
    ensures PF.BraceEnd(v, i) == i + |spec|
    decreases |spec|
  {
    if spec != "" {
      AtPlace(v, i, spec, 0);
      assert spec == spec[..1] + spec[1..];
      AtSplit(v, i, spec[..1], spec[1..]);
      BraceEndAt(v, i + 1, spec[1..]);
    }
  }

  /** A string, one character, and what follows stand one behind the other. */
  lemma AtThree(v: string, i: nat, a: string, c: char, b: string)
    requires At(v, i, a + ([c] + b))
    ensures At(v, i, a) && i + |a| < |v| && v[i + |a|] == c && At(v, i + |a| + 1, b)
  {
    hide At;
    AtSplit(v, i, a, [c] + b);
    AtSplit(v, i + |a|, [c], b);
    AtPlace(v, i + |a|, [c], 0);
  }

  /** Where the parts of an entry stand. */
  lemma PartPlaces(v: string, i: nat, p: Part)
    requires At(v, i, PartText(p))
    ensures var open := i + |p.before|;
            var colon := open + 1 + |p.entry.index|;
            var close := colon + 1 + |p.entry.spec|;
            && close + 1 == i + |PartText(p)| <= |v| && v[open] == '{' && v[colon] == ':' && v[close] == '}'
            && At(v, i, p.before) && At(v, open + 1, p.entry.index) && At(v, colon + 1, p.entry.spec)
  {
    var open := i + |p.before|;
    var colon := open + 1 + |p.entry.index|;
    var tail := p.entry.spec + "}";
    var behind := p.entry.index + (":" + tail);
    assert PartText(p) == p.before + ("{" + behind);
    hide At, PartText;
    AtThree(v, i, p.before, '{', behind);
    AtThree(v, open + 1, p.entry.index, ':', tail);
    assert "}" + "" == "}";
    AtThree(v, colon + 1, p.entry.spec, '}', "");
  }

  /** One entry is read as it is written. */
  lemma PartReads(v: string, i: nat, p: Part)
    requires At(v, i, PartText(p)) && WellWritten(p)
    ensures var next := i + |PartText(p)|;
            next <= |v| && PF.Entries(v, i, i) == PF.Prepend([p.entry], PF.Entries(v, next, next))
  {
    hide PF.Entries, PF.Prepend, At, AllDigits, PartText;
    PartPlaces(v, i, p);
    var open := i + |p.before|;
    var colon := open + 1 + |p.entry.index|;
    var close := colon + 1 + |p.entry.spec|;
    SkipBefore(v, i, i, p.before);
    DigitsEndAt(v, open + 1, p.entry.index);
    BraceEndAt(v, colon + 1, p.entry.spec);
    AtIs(v, open + 1, p.entry.index);
    AtIs(v, colon + 1, p.entry.spec);
    EntryReads(v, open, i, colon, close);
  }

  lemma AtIs(v: string, i: nat, s: string)
    requires At(v, i, s)
    ensures i + |s| <= |v| && v[i..i + |s|] == s
  {}

  lemma EntryReads(v: string, open: nat, last: nat, colon: nat, close: nat)
    requires last <= open < colon < close < |v| && v[open] == '{' && v[colon] == ':'
    requires PF.DigitsEnd(v, open + 1) == colon && PF.BraceEnd(v, colon + 1) == close
    requires colon - last < PF.MAX_INDEX_SPAN
    ensures PF.Entries(v, open, last) ==
            PF.Prepend([PF.Entry(v[open + 1..colon], v[colon + 1..close])], PF.Entries(v, close + 1, close + 1))
  {}

  lemma {:induction false} PartsRead(v: string, i: nat, parts: seq<Part>)
    requires At(v, i, Property(parts)) && i + |Property(parts)| == |v| && forall k :: 0 <= k < |parts| ==>
               WellWritten(parts[k])
    ensures PF.Entries(v, i, i) == Some(EntriesOf(parts))
    decreases |parts|
  {
    hide PartText, WellWritten, At, PF.Entries;
    if parts == [] {
      NoEntries(v);
    } else {
      var p, rest := parts[0], parts[1..];
      AtSplit(v, i, PartText(p), Property(rest));
      PartReads(v, i, p);
      PartsRead(v, i + |PartText(p)|, rest);
      assert [p.entry] + EntriesOf(rest) == EntriesOf(parts);
    }
  }

  lemma NoEntries(v: string)
    ensures PF.Entries(v, |v|, |v|) == Some([])
  {}

  /** A property written out entry by entry declares exactly those. */
  lemma PropertyReadsBack(parts: seq<Part>)
    requires forall k :: 0 <= k < |parts| ==> WellWritten(parts[k])
    ensures PF.Declared(Property(parts)) == Some(EntriesOf(parts))
  {
    var v := Property(parts);
    assert v[0..0 + |v|] == v;
    hide Property, WellWritten;
    PartsRead(v, 0, parts);
  }

  // ----- indices

  lemma {:induction false} DigitsAreNumber(s: string, n: nat)
    ensures DigitsValue(s, n) == F.Number(s, n).0
  {
    if s != "" && IsDigit(s[0]) { DigitsAreNumber(s[1..], 10 * n + (s[0] as int - '0' as int)); }
  }

  lemma {:induction false} AnyValue(s: string)
    requires AllDigits(s)
    ensures F.Value(s, 10) >= 0
  {
    if s != "" { AnyValue(s[..|s| - 1]); }
  }

  /** An index may have blanks before it, zeros in front, and anything but digits behind it; only the number
      counts. */
  lemma {:induction false} IndexReads(spaces: string, digits: string, tail: string)
    requires forall k :: 0 <= k < |spaces| ==> IsSpace(spaces[k])
    requires digits != "" && AllDigits(digits) && (tail != "" ==> !IsDigit(tail[0]))
    ensures Strtol(spaces + (digits + tail)) == F.Value(digits, 10)
    decreases |spaces|
  {
    var all := spaces + (digits + tail);
    if spaces == "" {
      assert all == digits + tail && all[0] == digits[0];
      AnyValue(digits);
      DigitsAreNumber(all, 0);
      M.NumberOn(digits, tail, 0);
      DigitFirst(all);
      assert 0 * M.Power10(|digits|) == 0;
      hide Strtol, DigitsValue, F.Number, F.Value, M.Power10;
    } else {
      assert all[0] == spaces[0] && all[1..] == spaces[1..] + (digits + tail);
      IndexReads(spaces[1..], digits, tail);
      SpaceFirst(all);
      hide Strtol, F.Value;
    }
  }

  lemma DigitFirst(s: string)
    requires s != "" && IsDigit(s[0])
    ensures Strtol(s) == DigitsValue(s, 0)
  {
    hide DigitsValue;
  }

  lemma SpaceFirst(s: string)
    requires s != "" && IsSpace(s[0])
    ensures Strtol(s) == Strtol(s[1..])
  {}

  // ----- what a phrase is made of

  /** Behind a backslash: a line end, a tab, a carriage return or an open brace is itself; before anything else the
      backslash stays, with the character behind it, and the character after that is lost. */
  lemma BackslashReads(v: string, i: nat, n: nat, used: set<nat>)
    requires i + 1 < |v| && v[i] == '\\'
    ensures v[i + 1] in "\n\t\r{" ==> Pieces(v, i, n, used) == Prepend([Lit(v[i + 1])], Pieces(v, i + 2, n, used))
    ensures v[i + 1] !in "\n\t\r{" && i + 2 < |v| ==>
              Pieces(v, i, n, used) == Prepend([Lit('\\'), Lit(v[i + 1])], Pieces(v, i + 3, n, used))
    ensures v[i + 1] !in "\n\t\r{" && i + 2 == |v| ==> Pieces(v, i, n, used) == None
  {}

  /** Braces that hold no index of the phrase, or one that has been named before, stand for themselves. */
  lemma BracesRead(spaces: string, digits: string, tail: string, n: nat, used: set<nat>, more: string)
    requires forall k :: 0 <= k < |spaces| ==> IsSpace(spaces[k])
    requires digits != "" && AllDigits(digits) && (tail != "" ==> !IsDigit(tail[0]))
    requires forall k :: 0 <= k < |tail| ==> tail[k] != '}' && tail[k] < 128 as char
    ensures var v := "{" + ((spaces + (digits + tail)) + ("}" + more));
            var idx := F.Value(digits, 10);
            Pieces(v, 0, n, used) ==
            if 1 <= idx <= n && idx - 1 !in used
            then Prepend([Slot(idx - 1)], Pieces(v, |v| - |more|, n, used + {idx - 1}))
            else Prepend([Lit('{')], Pieces(v, 1, n, used))
  {
    hide *;
    var inside := spaces + (digits + tail);
    AnyValue(digits);
    IndexReads(spaces, digits, tail);
    InsideIsPlain(spaces, digits, tail);
    assert |inside| >= |digits| > 0;
    InBraces(inside, n, used, more, F.Value(digits, 10));
  }

  lemma InBraces(inside: string, n: nat, used: set<nat>, more: string, idx: int)
    requires inside != "" && Strtol(inside) == idx && forall k :: 0 <= k < |inside| ==>
               inside[k] != '}' && inside[k] < 128 as char
    ensures var v := "{" + (inside + ("}" + more));
            Pieces(v, 0, n, used) ==
            if 1 <= idx <= n && idx - 1 !in used
            then Prepend([Slot(idx - 1)], Pieces(v, |v| - |more|, n, used + {idx - 1}))
            else Prepend([Lit('{')], Pieces(v, 1, n, used))
  {
    hide Strtol, Pieces, ParamAt, CloseAt;
    var v := "{" + (inside + ("}" + more));
    var j := 1 + |inside|;
    assert forall k :: 0 <= k < |inside| ==> v[1 + k] == inside[k];
    assert v[j] == '}' && v[1..j] == inside;
    forall k | 1 <= k < j ensures v[k] != '}' && v[k] < 128 as char { assert v[k] == inside[k - 1]; }
    CloseIs(v, 1, j);
    ParamReads(v, n, used, j, idx);
    BraceReads(v, n, used);
  }

  /** Braces with anything but ASCII in them stand for themselves, and so do braces that are not closed. */
  lemma NoParameter(inside: string, n: nat, used: set<nat>, more: string)
    requires forall k :: 0 <= k < |inside| ==> inside[k] != '}'
    requires more == "" || more[0] >= 128 as char
    ensures Pieces("{" + (inside + more), 0, n, used) == Prepend([Lit('{')], Pieces("{" + (inside + more), 1, n, used))
  {
    var v := "{" + (inside + more);
    assert forall k :: 0 <= k < |inside| ==> v[1 + k] == inside[k];
    assert more != "" ==> v[1 + |inside|] == more[0];
    NotClosed(v, 1, 1 + |inside|);
    hide Pieces, CloseAt;
    BraceReads(v, n, used);
  }

  lemma {:induction false} NotClosed(v: string, i: nat, j: nat)
    requires i <= j <= |v| && (forall k :: i <= k < j ==> v[k] != '}') && (j < |v| ==> v[j] >= 128 as char)
    ensures CloseAt(v, i) == |v| || v[CloseAt(v, i)] != '}'
    decreases j - i
  {
    if i < j { NotClosed(v, i + 1, j); }
  }

  lemma InsideIsPlain(spaces: string, digits: string, tail: string)
    requires (forall k :: 0 <= k < |spaces| ==> IsSpace(spaces[k])) && AllDigits(digits)
    requires forall k :: 0 <= k < |tail| ==> tail[k] != '}' && tail[k] < 128 as char
    ensures var s := spaces + (digits + tail); forall k :: 0 <= k < |s| ==> s[k] != '}' && s[k] < 128 as char
  {}

  lemma ParamReads(v: string, n: nat, used: set<nat>, j: nat, idx: int)
    requires 1 < j < |v| && CloseAt(v, 1) == j && v[j] == '}' && Strtol(v[1..j]) == idx
    ensures ParamAt(v, 0, n, used) == if 1 <= idx <= n && idx - 1 !in used then Some((idx - 1, j + 1)) else None
  {
    hide Strtol, CloseAt, Pieces;
  }

  lemma BraceReads(v: string, n: nat, used: set<nat>)
    requires v != "" && v[0] == '{'
    ensures Pieces(v, 0, n, used) ==
            match ParamAt(v, 0, n, used)
            case None => Prepend([Lit('{')], Pieces(v, 1, n, used))
            case Some(r) => Prepend([Slot(r.0)], Pieces(v, r.1, n, used + {r.0}))
  {
    hide ParamAt;
  }

  lemma {:induction false} CloseIs(v: string, i: nat, j: nat)
    requires i <= j < |v| && v[j] == '}' && forall k :: i <= k < j ==> v[k] != '}' && v[k] < 128 as char
    ensures CloseAt(v, i) == j
    decreases j - i
  {
    if i < j { CloseIs(v, i + 1, j); }
  }
}
