/**
 Search and replace inside a string buffer, moving the rest of the text up or down in place.

 A string sits at `at` in an array of characters and ends with a NUL. One replacement that does
 not fit pushes old text out: see `Replaced`.
 */
module Replace {
  import opened Common

  // ----- texts

  predicate MatchAt(text: string, i: nat, search: string) {
    i + |search| <= |text| && text[i..i + |search|] == search
  }

  /** The first place at or behind `i` where `search` occurs. */
  function FindFrom(text: string, i: nat, search: string): (r: Option<nat>)
    ensures r.Some? ==> i <= r.value && MatchAt(text, r.value, search)
    decreases |text| - i
  {
    if i + |search| > |text| then None else if MatchAt(text, i, search) then Some(i) else FindFrom(text, i + 1, search)
  }

  lemma {:induction false} FindFromIsFirst(text: string, i: nat, search: string)
    ensures var r := FindFrom(text, i, search);
            forall k: nat :: i <= k && (r.Some? ==> k < r.value) ==> !MatchAt(text, k, search)
    decreases |text| - i
  {
    if i + |search| <= |text| && !MatchAt(text, i, search) { FindFromIsFirst(text, i + 1, search); }
  }

  /** The text with the first occurrence, at `i`, replaced, in a buffer of `size` characters (and
      a terminator). When the result is too long it is cut to `size`: to what comes before and as
      much of the replacement as fits, or, if all of that fits, to the last characters behind it. */
  function Replaced(text: string, i: nat, search: string, replace: string, size: nat): (r: string)
    requires MatchAt(text, i, search) && |text| <= size
    ensures |r| <= size && |r| >= i
  {
    var before, after := text[..i], text[i + |search|..];
    if i + |replace| + |after| <= size then before + replace + after
    else if i + |replace| >= size then before + replace[..size - i]
    else before + replace + after[|after| - (size - i - |replace|)..]
  }

  /** Where the caller goes on: behind what was put in. */
  function Behind(i: nat, replace: string, size: nat): nat
    requires i <= size
  {
    if i + |replace| > size then size else i + |replace|
  }

  /** A result that is too long fills the buffer exactly. */
  lemma CutToSize(text: string, i: nat, search: string, replace: string, size: nat)
    requires MatchAt(text, i, search) && |text| <= size
    ensures var full := text[..i] + replace + text[i + |search|..];
            && |Replaced(text, i, search, replace, size)| == (if |full| <= size then |full| else size)
            && (|full| <= size ==> Replaced(text, i, search, replace, size) == full)
            && text[..i] <= Replaced(text, i, search, replace, size)
  {}

  /** It then holds what comes before, as much of the replacement as fits, and the end of the text. */
  lemma CutKeepsTheEnd(text: string, i: nat, search: string, replace: string, size: nat)
    requires MatchAt(text, i, search) && |text| <= size && i + |replace| + (|text| - i - |search|) > size
    ensures var r, put := Replaced(text, i, search, replace, size), if i + |replace| <= size then |replace|
            else size - i;
            && |r| == size && i + put <= size && size - i - put <= |text|
            && r == text[..i] + replace[..put] + text[|text| - (size - i - put)..]
  {
    var after := text[i + |search|..];
    if i + |replace| < size {
      var kept := size - i - |replace|;
      assert after[|after| - kept..] == text[|text| - kept..];
    } else {
      assert text[|text|..] == "";
    }
  }

  /** What is lost of a text that does not fit is what stands right behind the replacement. */
  lemma EndIsKept()
    ensures MatchAt("AABBBXYZ", 2, "BBB") && Replaced("AABBBXYZ", 2, "BBB", "DDDDDDD", 11) == "AADDDDDDDYZ"
  {}

  // ----- strings in memory

  /** No character of a string is its terminator. */
  ghost predicate Clean(s: string) {
    forall i :: 0 <= i < |s| ==> s[i] != '\0'
  }

  /** The string `text` sits at `at`, with its terminator. */
  ghost predicate Holds(mem: seq<char>, at: nat, text: string) {
    at + |text| < |mem| && mem[at..at + |text|] == text && mem[at + |text|] == '\0' && Clean(text)
  }

  lemma HeldChar(mem: seq<char>, at: nat, text: string, k: nat)
    requires Holds(mem, at, text) && k < |text|
    ensures mem[at + k] == text[k] && text[k] != '\0'
  {
    assert mem[at..at + |text|][k] == text[k];
  }

  method StrLen(a: array<char>, at: nat, ghost text: string) returns (n: nat)
    requires Holds(a[..], at, text)
    ensures n == |text|
  {
    n := 0;
    while a[at + n] != '\0'
      invariant n <= |text| && at + |text| < a.Length
      decreases |text| - n
    {
      assert n < |text|;
      n := n + 1;
    }
  }

  /** Memory after `n` characters at `from` are copied to `to`. */
  function Moved(mem: seq<char>, to: nat, from: nat, n: nat): seq<char>
    requires to + n <= |mem| && from + n <= |mem|
  {
    mem[..to] + mem[from..from + n] + mem[to + n..]
  }

  /** Memory with `s` at `to`. */
  function Copied(mem: seq<char>, to: nat, s: string): seq<char>
    requires to + |s| <= |mem|
  {
    mem[..to] + s + mem[to + |s|..]
  }

  /** Copies within the array as if through a copy of the source. */
  method MemMove(a: array<char>, to: nat, from: nat, n: nat)
    requires to + n <= a.Length && from + n <= a.Length
    modifies a
    ensures a[..] == Moved(old(a[..]), to, from, n)
  {
    ghost var was := a[..];
    forall k | to <= k < to + n { a[k] := a[from + (k - to)]; }
    ghost var r := Moved(was, to, from, n);
    assert forall k :: 0 <= k < |was| ==> r[k] == if to <= k < to + n then was[from + (k - to)] else was[k];
  }

  method MemCopy(a: array<char>, to: nat, s: string)
    requires to + |s| <= a.Length
    modifies a
    ensures a[..] == Copied(old(a[..]), to, s)
  {
    for k := 0 to |s|
      invariant a[..to] == old(a[..to]) && a[to..to + k] == s[..k] && a[to + |s|..] == old(a[to + |s|..])
    {
      a[to + k] := s[k];
      assert a[to..to + k + 1] == a[to..to + k] + [s[k]];
    }
    assert a[..] == a[..to] + a[to..to + |s|] + a[to + |s|..];
  }

  /** Compares as many characters as `search` has, stopping at the first difference. */
  method Compare(a: array<char>, at: nat, search: string, ghost text: string, ghost i: nat) returns (same: bool)
    requires at >= i && Holds(a[..], at - i, text) && i + |search| <= |text|
    ensures same <==> MatchAt(text, i, search)
  {
    for k := 0 to |search|
      invariant text[i..i + k] == search[..k]
    {
      HeldChar(a[..], at - i, text, i + k);
      assert text[i..i + |search|][k] == text[i + k];
      if a[at + k] != search[k] {
        return false;
      }
      assert text[i..i + k + 1] == text[i..i + k] + [text[i + k]];
      assert search[..k + 1] == search[..k] + [search[k]];
    }
    assert search[..|search|] == search;
    return true;
  }

  /** Nothing outside `at..to` has changed. */
  ghost predicate Only(was: seq<char>, mem: seq<char>, at: nat, to: nat) {
    && |mem| == |was|
    && (forall k :: 0 <= k < at && k < |mem| ==> mem[k] == was[k])
    && (forall k :: to <= k < |mem| ==> mem[k] == was[k])
  }

  /** Memory with `rep` at `ptr` and, behind it, the `n` characters that were at `from`. */
  function Built(was: seq<char>, ptr: nat, rep: string, from: nat, n: nat): seq<char>
    requires ptr + |rep| + n <= |was| && from + n <= |was|
  {
    was[..ptr] + rep + was[from..from + n] + was[ptr + |rep| + n..]
  }

  /** What follows an occurrence is moved away from the end of the replacement, or up to it. */
  method Place(a: array<char>, ptr: nat, searchLen: nat, replace: string, from: nat, n: nat)
    requires ptr + |replace| + n <= a.Length && from + n <= a.Length && from >= ptr + searchLen
    requires searchLen == |replace| ==> from == ptr + searchLen
    modifies a
    ensures a[..] == Built(old(a[..]), ptr, replace, from, n)
  {
    ghost var was := a[..];
    MovesCommute(was, ptr, replace, from, n);
    hide *;
    if |replace| > searchLen {
      MemMove(a, ptr + |replace|, from, n);
      MemCopy(a, ptr, replace);
    } else if |replace| < searchLen {
      if |replace| != 0 { MemCopy(a, ptr, replace); } else { NothingCopied(was, ptr, replace); }
      MemMove(a, ptr + |replace|, from, n);
    } else {
      MemCopy(a, ptr, replace);
    }
  }

  /** The replacement can go in first or last, as long as it does not cover what is still to be moved. */
  lemma MovesCommute(was: seq<char>, ptr: nat, rep: string, from: nat, n: nat)
    requires ptr + |rep| + n <= |was| && from + n <= |was|
    ensures Copied(Moved(was, ptr + |rep|, from, n), ptr, rep) == Built(was, ptr, rep, from, n)
    ensures from >= ptr + |rep| ==> Moved(Copied(was, ptr, rep), ptr + |rep|, from, n) == Built(was, ptr, rep, from, n)
    ensures from == ptr + |rep| ==> Copied(was, ptr, rep) == Built(was, ptr, rep, from, n)
  {}

  lemma NothingCopied(was: seq<char>, ptr: nat, rep: string)
    requires rep == "" && ptr <= |was|
    ensures Copied(was, ptr, rep) == was
  {}

  lemma TailHeld(was: seq<char>, at: nat, text: string, keep: nat)
    requires Holds(was, at, text) && keep <= |text|
    ensures was[at + |text| - keep..at + |text| - keep + keep + 1] == text[|text| - keep..] + ['\0']
  {}

  lemma HeadHeld(was: seq<char>, at: nat, text: string, i: nat)
    requires Holds(was, at, text) && i <= |text|
    ensures was[..at + i] == was[..at] + text[..i]
  {}

  /** The last `keep` characters of a text behind its first `i` and something in between. */
  lemma BuiltHolds(was: seq<char>, at: nat, text: string, i: nat, rep: string, keep: nat, size: nat)
    requires Holds(was, at, text) && Clean(rep) && i <= |text| && keep <= |text|
    requires i + |rep| + keep <= size && at + i + |rep| + keep < |was|
    ensures var mem := Built(was, at + i, rep, at + |text| - keep, keep + 1);
            Holds(mem, at, text[..i] + rep + text[|text| - keep..]) && Only(was, mem, at, at + i + |rep| + keep + 1)
  {
    TailHeld(was, at, text, keep);
    HeadHeld(was, at, text, i);
    var tail := text[|text| - keep..];
    var rest := was[at + i + |rep| + (keep + 1)..];
    assert Built(was, at + i, rep, at + |text| - keep, keep + 1) ==
             was[..at] + (text[..i] + rep + tail) + ['\0'] + rest;
  }

  lemma ClippedHolds(was: seq<char>, at: nat, text: string, i: nat, rep: string, size: nat)
    requires Holds(was, at, text) && Clean(rep) && i <= |text| && i + |rep| <= size && at + i + |rep| < |was|
    ensures var mem := Copied(was, at + i, rep + "\0");
            Holds(mem, at, text[..i] + rep) && Only(was, mem, at, at + i + |rep| + 1)
  {
    HeadHeld(was, at, text, i);
    assert Copied(was, at + i, rep + "\0") == was[..at] + (text[..i] + rep) + ['\0'] + was[at + i + |rep| + 1..];
  }

  /** The occurrence at `i` has been replaced, and nothing outside the buffer touched. */
  ghost predicate Done(was: seq<char>, mem: seq<char>, at: nat, text: string, i: nat, search: string, replace: string,
                       size: nat) {
    && MatchAt(text, i, search) && |text| <= size
    && var r := Replaced(text, i, search, replace, size);
       Holds(mem, at, r) && Only(was, mem, at, at + |r| + 1)
  }

  lemma ReplacedCases(text: string, i: nat, search: string, replace: string, size: nat)
    requires MatchAt(text, i, search) && |text| <= size
    ensures i + |search| <= |text|
    ensures var r := Replaced(text, i, search, replace, size);
            if |text| - |search| + |replace| <= size
            then r == text[..i] + replace + text[|text| - (|text| - i - |search|)..]
            else if i + |replace| >= size then r == text[..i] + replace[..size - i]
            else size - i - |replace| <= |text| && r == text[..i] + replace + text[|text| - (size - i - |replace|)..]
    ensures |Replaced(text, i, search, replace, size)| ==
            if |text| - |search| + |replace| <= size then |text| - |search| + |replace| else size
  {
    var after := text[i + |search|..];
    if |text| - |search| + |replace| > size && i + |replace| < size {
      var keep := size - i - |replace|;
      assert after[|after| - keep..] == text[|text| - keep..];
    }
  }

  /** The replacement alone is too long: it is cut. */
  method PutClipped(a: array<char>, at: nat, browsed: nat, search: string, replace: string, size: nat,
                    ghost text: string)
    returns (replaceLen: nat)
    requires Holds(a[..], at, text) && MatchAt(text, browsed, search) && |text| <= size && Clean(replace)
    requires |text| - |search| + |replace| > size && browsed + |replace| >= size >= browsed && at + size < a.Length
    modifies a
    ensures Done(old(a[..]), a[..], at, text, browsed, search, replace, size) && replaceLen == size - browsed
  {
    replaceLen := size - browsed;
    var cut := replace[..replaceLen];
    assert Clean(cut);
    hide Holds, Only, Clean, MatchAt, Replaced, Copied;
    ReplacedCases(text, browsed, search, replace, size);
    ClippedHolds(a[..], at, text, browsed, cut, size);
    MemCopy(a, at + browsed, cut + "\0");
  }

  /** What follows the occurrence goes behind the replacement, or as much of its end as there is room for. */
  method PutWhole(a: array<char>, at: nat, browsed: nat, search: string, replace: string, size: nat, ghost text: string,
                  moveFrom: nat, bytesToCopy: nat)
    requires Holds(a[..], at, text) && MatchAt(text, browsed, search) && |text| <= size && Clean(replace)
    requires |text| - |search| + |replace| <= size || browsed + |replace| < size
    requires bytesToCopy - 1 == if |text| - |search| + |replace| <= size then |text| - browsed - |search|
             else size - browsed - |replace|
    requires moveFrom == at + |text| - (bytesToCopy - 1) && browsed + |search| <= |text|
    requires at + browsed + |replace| + bytesToCopy <= a.Length
    modifies a
    ensures Done(old(a[..]), a[..], at, text, browsed, search, replace, size)
  {
    ghost var keep := bytesToCopy - 1;
    hide Holds, Only, Clean, MatchAt, Replaced, Built;
    HeldFits(a[..], at, text);
    ReplacedCases(text, browsed, search, replace, size);
    BuiltHolds(a[..], at, text, browsed, replace, keep, size);
    Place(a, at + browsed, |search|, replace, moveFrom, bytesToCopy);
  }

  /** Puts the replacement over an occurrence at `browsed`. */
  method ReplaceHere(a: array<char>, at: nat, browsed: nat, search: string, replace: string, size: nat,
                     ghost text: string,
                     textLen: nat)
    returns (next: nat)
    requires Holds(a[..], at, text) && textLen == |text| && Clean(replace)
    requires MatchAt(text, browsed, search) && |text| <= size
    requires at + |Replaced(text, browsed, search, replace, size)| < a.Length
    modifies a
    ensures Done(old(a[..]), a[..], at, text, browsed, search, replace, size)
    ensures next == at + Behind(browsed, replace, size)
  {
    hide *;
    ReplacedCases(text, browsed, search, replace, size);
    BehindIs(browsed, replace, size);
    var replaceLen, searchLen := |replace|, |search|;
    if replaceLen > searchLen && size - textLen < replaceLen - searchLen {
      if browsed + replaceLen >= size {
        replaceLen := PutClipped(a, at, browsed, search, replace, size, text);
      } else {
        var origBytesToCopy := textLen - (browsed + searchLen) + 1;
        var realBytesToCopy := size - (browsed + replaceLen) + 1;
        PutWhole(a, at, browsed, search, replace, size, text,
                 at + browsed + searchLen + (origBytesToCopy - realBytesToCopy), realBytesToCopy);
      }
    } else {
      PutWhole(a, at, browsed, search, replace, size, text, at + browsed + searchLen,
               textLen - (browsed + searchLen) + 1);
    }
    next := at + browsed + replaceLen;
  }

  lemma BehindIs(i: nat, replace: string, size: nat)
    requires i <= size
    ensures Behind(i, replace, size) == if i + |replace| > size then size else i + |replace|
  {}

  lemma HeldFits(was: seq<char>, at: nat, text: string)
    requires Holds(was, at, text)
    ensures at + |text| < |was|
  {}

  lemma FindNext(text: string, i: nat, search: string)
    requires i + |search| <= |text|
    ensures MatchAt(text, i, search) ==> FindFrom(text, i, search) == Some(i)
    ensures !MatchAt(text, i, search) ==> FindFrom(text, i, search) == FindFrom(text, i + 1, search)
  {}

  lemma FindNowhere(text: string, i: nat, search: string)
    requires i + |search| > |text|
    ensures FindFrom(text, i, search) == None
  {}

  /** There is room for the text with its first occurrence replaced. */
  ghost predicate Room(text: string, search: string, replace: string, size: nat, length: int) {
    var f := FindFrom(text, 0, search);
    f.Some? && |text| <= size ==> |Replaced(text, f.value, search, replace, size)| < length
  }

  /** The first occurrence has been replaced, and `next` is behind it; or there is none. */
  ghost predicate FirstReplaced(was: seq<char>, mem: seq<char>, at: nat, text: string, search: string, replace: string,
                                size: nat,
                                next: Option<nat>) {
    match FindFrom(text, 0, search)
    case None => next == None && mem == was
    case Some(i) =>
      && Done(was, mem, at, text, i, search, replace, size)
      && i <= size && next == Some(at + Behind(i, replace, size))
  }

  /** The first occurrence is replaced. The result says where the caller goes on, if at all. */
  method ReplaceEx(a: array<char>, subject: nat, maxLen: nat, search: string, replace: string, ghost text: string)
    returns (next: Option<nat>)
    requires Holds(a[..], subject, text) && |text| < maxLen && search != "" && Clean(replace)
    requires Room(text, search, replace, maxLen - 1, a.Length - subject)
    modifies a
    ensures FirstReplaced(old(a[..]), a[..], subject, text, search, replace, maxLen - 1, next)
  {
    hide Replaced, MatchAt, Done, FindFrom, Holds;
    var textLen := StrLen(a, subject, text);
    HeldFits(a[..], subject, text);
    if |search| > textLen {
      FindNowhere(text, 0, search);
      return None;
    }
    if maxLen == 1 { return None; }
    var ptr, browsed := subject, 0;
    while a[ptr] != '\0' && browsed <= textLen - |search|
      invariant ptr == subject + browsed && browsed <= textLen && Holds(a[..], subject, text)
      invariant a[..] == old(a[..]) && FindFrom(text, browsed, search) == FindFrom(text, 0, search)
      decreases textLen - browsed
    {
      var same := Compare(a, ptr, search, text, browsed);
      FindNext(text, browsed, search);
      if same {
        var to := ReplaceHere(a, subject, browsed, search, replace, maxLen - 1, text, textLen);
        return Some(to);
      }
      ptr, browsed := ptr + 1, browsed + 1;
    }
    if browsed < |text| { HeldChar(a[..], subject, text, browsed); }
    FindNowhere(text, browsed, search);
    return None;
  }

  // ----- all occurrences

  /** The pieces of a text between the occurrences, left to right. */
  function Split(text: string, search: string): (ps: seq<string>)
    requires search != ""
    ensures |ps| > 0
    decreases |text|
  {
    match FindFrom(text, 0, search)
    case None => [text]
    case Some(i) => [text[..i]] + Split(text[i + |search|..], search)
  }

  function Join(ps: seq<string>, between: string): string {
    if |ps| == 0 then "" else if |ps| == 1 then ps[0] else ps[0] + between + Join(ps[1..], between)
  }

  /** The text with every occurrence replaced, left to right and without overlaps. */
  function All(text: string, search: string, replace: string): string
    requires search != ""
  {
    Join(Split(text, search), replace)
  }

  /** Putting the search back gives the text, and no piece holds an occurrence. */
  lemma {:induction false} SplitParts(text: string, search: string)
    requires search != ""
    ensures Join(Split(text, search), search) == text
    ensures forall p :: p in Split(text, search) ==> forall k: nat :: !MatchAt(p, k, search)
    decreases |text|
  {
    hide FindFrom, MatchAt;
    FindFromIsFirst(text, 0, search);
    match FindFrom(text, 0, search) {
      case None =>
      case Some(i) =>
        MatchFits(text, i, search);
        var rest := text[i + |search|..];
        SplitParts(rest, search);
        var ps := Split(rest, search);
        assert Split(text, search) == [text[..i]] + ps;
        hide Split;
        assert ([text[..i]] + ps)[1..] == ps;
        NoMatchBefore(text, i, search);
    }
  }

  lemma MatchFits(text: string, i: nat, search: string)
    requires MatchAt(text, i, search)
    ensures i + |search| <= |text| && text == text[..i] + search + text[i + |search|..]
  {}

  lemma NoMatchBefore(text: string, i: nat, search: string)
    requires i <= |text| && search != "" && forall k: nat :: k < i ==> !MatchAt(text, k, search)
    ensures forall k: nat :: !MatchAt(text[..i], k, search)
  {
    forall k: nat ensures !MatchAt(text[..i], k, search) {
      if MatchAt(text[..i], k, search) {
        assert text[..i][k..k + |search|] == text[k..k + |search|];
        assert MatchAt(text, k, search);
      }
    }
  }

  /** What replacing the first occurrence leaves to do. */
  lemma AllUnfolds(text: string, search: string, replace: string)
    requires search != ""
    ensures match FindFrom(text, 0, search)
            case None => All(text, search, replace) == text
            case Some(i) =>
              && All(text, search, replace) == text[..i] + replace + All(text[i + |search|..], search, replace)
              && |Split(text, search)| == 1 + |Split(text[i + |search|..], search)|
  {
    var f := FindFrom(text, 0, search);
    if f.Some? {
      var ps := Split(text[f.value + |search|..], search);
      assert ([text[..f.value]] + ps)[1..] == ps;
    }
  }

  lemma {:induction false} AllLength(text: string, search: string, replace: string)
    requires search != ""
    ensures |All(text, search, replace)| == |text| + (|Split(text, search)| - 1) * (|replace| - |search|)
    decreases |text|
  {
    AllUnfolds(text, search, replace);
    var f := FindFrom(text, 0, search);
    hide FindFrom, All;
    if f.Some? {
      var rest := text[f.value + |search|..];
      AllLength(rest, search, replace);
      TimesOneMore(|Split(rest, search)| - 1, |replace| - |search|);
      hide Split;
    }
  }

  lemma TimesOneMore(n: int, d: int)
    ensures (n + 1) * d == n * d + d
  {}

  lemma Product(n: int, d: int)
    requires n >= 0 && d >= 0
    ensures n * d >= 0
  {}

  lemma GrowingGrows(text: string, search: string, replace: string)
    requires search != ""
    ensures |replace| >= |search| ==> |All(text, search, replace)| >= |text|
  {
    AllLength(text, search, replace);
    if |replace| >= |search| { Product(|Split(text, search)| - 1, |replace| - |search|); }
  }

  /** What one turn of the loop makes final, and what the next turn is given. */
  function Turn(rest: string, i: nat, search: string, replace: string, size: nat): (t: (string, string))
    requires MatchAt(rest, i, search) && search != "" && |rest| <= size
    ensures t.0 + t.1 == Replaced(rest, i, search, replace, size) && |t.1| < |rest|
    ensures |t.0| == Behind(i, replace, size)
  {
    var r, b := Replaced(rest, i, search, replace, size), Behind(i, replace, size);
    (r[..b], r[b..])
  }

  /** What the loop makes of a text of at most `size` characters, when every turn is given the same
      `size`: a later turn may cut as if the whole buffer were still before it. */
  function Looped(rest: string, search: string, replace: string, size: nat): string
    requires search != "" && |rest| <= size
    decreases |rest|
  {
    match FindFrom(rest, 0, search)
    case None => rest
    case Some(i) =>
      var t := Turn(rest, i, search, replace, size);
      t.0 + Looped(t.1, search, replace, size)
  }

  function Turns(rest: string, search: string, replace: string, size: nat): nat
    requires search != "" && |rest| <= size
    decreases |rest|
  {
    match FindFrom(rest, 0, search)
    case None => 0
    case Some(i) => 1 + Turns(Turn(rest, i, search, replace, size).1, search, replace, size)
  }

  lemma TurnIs(rest: string, i: nat, search: string, replace: string, size: nat)
    requires MatchAt(rest, i, search) && search != "" && |rest| <= size
    ensures i + |search| <= |rest|
    ensures var t := Turn(rest, i, search, replace, size);
            if |rest| - |search| + |replace| <= size then t == (rest[..i] + replace, rest[i + |search|..])
            else |t.0| + |t.1| == size && |t.0| >= if |replace| < size then |replace| else size
  {
    var r, t := Replaced(rest, i, search, replace, size), Turn(rest, i, search, replace, size);
    CutToSize(rest, i, search, replace, size);
    if |rest| - |search| + |replace| <= size {
      assert r == (rest[..i] + replace) + rest[i + |search|..];
    } else {
      assert |t.0 + t.1| == size;
    }
  }

  /** A replacement that is no shorter makes no text shorter; a longer one makes every text longer in
      which it is made, unless that fills the buffer already. */
  lemma {:induction false} LoopedGrows(rest: string, search: string, replace: string, size: nat)
    requires search != "" && |rest| <= size && |replace| >= |search|
    ensures |Looped(rest, search, replace, size)| >= |rest|
    ensures |replace| > |search| && |rest| < size && FindFrom(rest, 0, search).Some? ==>
              |Looped(rest, search, replace, size)| > |rest|
    decreases |rest|
  {
    match FindFrom(rest, 0, search)
    case None =>
    case Some(i) =>
      TurnIs(rest, i, search, replace, size);
      LoopedGrows(Turn(rest, i, search, replace, size).1, search, replace, size);
      hide FindFrom, MatchAt, Turn, Replaced;
  }

  /** A result that fits is what the loop makes, whatever `size` is. */
  lemma {:induction false} LoopedFits(rest: string, search: string, replace: string, size: nat)
    requires search != "" && |rest| <= size
    requires |All(rest, search, replace)| <= size || |replace| <= |search|
    ensures Looped(rest, search, replace, size) == All(rest, search, replace)
    ensures Turns(rest, search, replace, size) == |Split(rest, search)| - 1
    decreases |rest|
  {
    hide FindFrom, MatchAt, Turn, Replaced, All, Split;
    AllUnfolds(rest, search, replace);
    match FindFrom(rest, 0, search)
    case None => NothingFound(rest, search);
    case Some(i) =>
      MatchFits(rest, i, search);
      var after := rest[i + |search|..];
      TurnIs(rest, i, search, replace, size);
      if |replace| >= |search| { GrowingGrows(after, search, replace); }
      LoopedFits(after, search, replace, size);
  }

  lemma NothingFound(text: string, search: string)
    requires search != "" && FindFrom(text, 0, search).None?
    ensures |Split(text, search)| == 1
  {}

  /** One that does not fit is never made shorter than the buffer. */
  lemma {:induction false} LoopedFills(rest: string, search: string, replace: string, size: nat)
    requires search != "" && |rest| <= size < |All(rest, search, replace)|
    ensures |Looped(rest, search, replace, size)| >= size
    decreases |rest|
  {
    AllLength(rest, search, replace);
    if |replace| <= |search| { Negative(|Split(rest, search)| - 1, |search| - |replace|); }
    AllUnfolds(rest, search, replace);
    var i := FindFrom(rest, 0, search).value;
    var t := Turn(rest, i, search, replace, size);
    TurnIs(rest, i, search, replace, size);
    hide FindFrom, MatchAt, Turn, Replaced, All, Split;
    if |rest| - |search| + |replace| > size {
      LoopedGrows(t.1, search, replace, size);
    } else if |All(t.1, search, replace)| > size {
      LoopedFills(t.1, search, replace, size);
    } else {
      LoopedFits(t.1, search, replace, size);
    }
  }

  lemma Negative(n: int, d: int)
    requires n >= 0 && d >= 0
    ensures n * -d <= 0
  {}

  /** The first replacement is cut already, and what is kept behind it holds no further occurrence. */
  predicate CutAtOnce(text: string, search: string, replace: string, size: nat)
    requires search != "" && |text| <= size
  {
    var f := FindFrom(text, 0, search);
    && f.Some? && |text| - |search| + |replace| > size
    && FindFrom(Turn(text, f.value, search, replace, size).1, 0, search).None?
  }

  /** The loop stays inside its buffer exactly when the whole result fits or the first replacement
      already cuts off all that is left to do. */
  lemma StaysInside(text: string, search: string, replace: string, size: nat)
    requires search != "" && |text| <= size
    ensures |Looped(text, search, replace, size)| <= size <==>
            |All(text, search, replace)| <= size || CutAtOnce(text, search, replace, size)
    ensures |replace| <= |search| ==> |All(text, search, replace)| <= size
  {
    if |replace| <= |search| {
      AllLength(text, search, replace);
      Negative(|Split(text, search)| - 1, |search| - |replace|);
    }
    if |All(text, search, replace)| <= size {
      LoopedFits(text, search, replace, size);
    } else {
      AllUnfolds(text, search, replace);
      Overflows(text, FindFrom(text, 0, search).value, search, replace, size);
    }
  }

  lemma Overflows(text: string, i: nat, search: string, replace: string, size: nat)
    requires search != "" && |replace| > |search| && |text| <= size < |All(text, search, replace)|
    requires FindFrom(text, 0, search) == Some(i)
    ensures |Looped(text, search, replace, size)| <= size <==> CutAtOnce(text, search, replace, size)
  {
    var t := Turn(text, i, search, replace, size);
    TurnIs(text, i, search, replace, size);
    AllUnfolds(text, search, replace);
    hide MatchAt, FindFrom, Turn, Replaced, All, Split;
    if |text| - |search| + |replace| > size {
      LoopedGrows(t.1, search, replace, size);
    } else if |All(t.1, search, replace)| > size {
      LoopedFills(t.1, search, replace, size);
    } else {
      LoopedFits(t.1, search, replace, size);
    }
  }

  /** One turn, computed. */
  lemma TurnGives(rest: string, i: nat, search: string, replace: string, size: nat, put: string, kept: string)
    requires MatchAt(rest, i, search) && search != "" && |rest| <= size
    requires Replaced(rest, i, search, replace, size) == put + kept && |put| == Behind(i, replace, size)
    ensures Turn(rest, i, search, replace, size) == (put, kept)
  {}

  /** Two letters replaced by two each in a buffer for three: a fourth letter and the NUL are written
      behind its end. */
  lemma DoublingOverflows()
    ensures Looped("aa", "a", "bb", 3) == "bbbb"
  {
    assert FindFrom("aa", 0, "a") == Some(0) by { assert MatchAt("aa", 0, "a"); }
    assert FindFrom("a", 0, "a") == Some(0) by { assert MatchAt("a", 0, "a"); }
    assert "aa"[..0] == "" && "aa"[1..] == "a" && "a"[..0] == "" && "a"[1..] == "";
    TurnGives("aa", 0, "a", "bb", 3, "bb", "a");
    TurnGives("a", 0, "a", "bb", 3, "bb", "");
    assert Looped("", "a", "bb", 3) == "" by { assert FindFrom("", 0, "a") == None; }
    hide FindFrom, Turn, Replaced, MatchAt;
    assert Looped("a", "a", "bb", 3) == "bb" + "";
  }

  /** The example in the program of a replacement that is cut: it stays inside although the whole
      result would not. */
  lemma LongReplacementIsCut()
    ensures var text, search, replace := "AABBBCCC", "BBB", "DDDDDDDDDD";
            Looped(text, search, replace, 11) == "AADDDDDDDDD" && |All(text, search, replace)| == 15
  {
    var text, search, replace := "AABBBCCC", "BBB", "DDDDDDDDDD";
    NextFound(text);
    assert text[..2] == "AA" && text[2 + |search|..] == "CCC" && replace[..11 - 2] == "DDDDDDDDD";
    TurnGives(text, 2, search, replace, 11, "AADDDDDDDDD", "");
    assert FindFrom("", 0, search) == None;
    assert FindFrom("CCC", 0, search) == None by {
      assert "CCC"[0..3] == "CCC" && FindFrom("CCC", 1, search) == None;
    }
    AllUnfolds("CCC", search, replace);
    AllUnfolds(text, search, replace);
    hide FindFrom, Turn, Replaced, MatchAt, Split, All;
  }

  lemma NextFound(text: string)
    requires text == "AABBBCCC"
    ensures FindFrom(text, 0, "BBB") == Some(2)
  {
    assert text[0..3][0] == 'A' && text[1..4][0] == 'A' && text[2..5] == "BBB";
    assert FindFrom(text, 2, "BBB") == Some(2);
    assert FindFrom(text, 1, "BBB") == Some(2);
  }

  /** How far up memory the loop ever writes. */
  function Highest(text: string, search: string, replace: string, size: nat): nat
    requires search != "" && |text| <= size
  {
    var n := |Looped(text, search, replace, size)|;
    if n > |text| then n else |text|
  }

  lemma TurnFits(rest: string, i: nat, search: string, replace: string, size: nat)
    requires search != "" && |rest| <= size && FindFrom(rest, 0, search) == Some(i)
    ensures MatchAt(rest, i, search)
    ensures |Replaced(rest, i, search, replace, size)| <= Highest(rest, search, replace, size)
  {
    TurnIs(rest, i, search, replace, size);
    var t := Turn(rest, i, search, replace, size);
    if |replace| >= |search| { LoopedGrows(t.1, search, replace, size); }
    ReplacedCases(rest, i, search, replace, size);
    hide FindFrom, MatchAt, Turn, Replaced;
  }

  /** What is held is held when something before it is taken off, or was left as it is. */
  lemma HoldsBehind(mem: seq<char>, at: nat, done: string, rest: string)
    requires Holds(mem, at, done + rest)
    ensures Holds(mem, at + |done|, rest)
  {
    var all := done + rest;
    assert mem[at + |done|..at + |done| + |rest|] == mem[at..at + |all|][|done|..];
    assert forall k :: 0 <= k < |rest| ==> rest[k] == all[|done| + k];
  }

  lemma HoldsInFront(was: seq<char>, mem: seq<char>, at: nat, done: string, rest: string, more: string, to: nat)
    requires Holds(was, at, done + rest) && Holds(mem, at + |done|, more) && Only(was, mem, at + |done|, to)
    ensures Holds(mem, at, done + more)
  {
    assert mem[at..at + |done|] == was[at..at + |done|] by {
      forall k | at <= k < at + |done| ensures mem[k] == was[k] {}
    }
    assert was[at..at + |done|] == done by { assert was[at..at + |done + rest|][..|done|] == (done + rest)[..|done|]; }
  }

  /** How far the loop has come: `done` is final, `rest` is still to be searched. */
  ghost predicate Under(was: seq<char>, mem: seq<char>, subject: nat, text: string, search: string, replace: string,
                        size: nat, done: string, rest: string, total: nat)
    requires search != "" && |text| <= size
  {
    && Holds(mem, subject, done + rest) && |rest| <= size
    && Looped(text, search, replace, size) == done + Looped(rest, search, replace, size)
    && total + Turns(rest, search, replace, size) == Turns(text, search, replace, size)
    && |done| + |rest| <= Highest(text, search, replace, size)
    && Only(was, mem, subject, subject + Highest(text, search, replace, size) + 1)
  }

  lemma UnderNext(was: seq<char>, mem: seq<char>, now: seq<char>, subject: nat, text: string, search: string,
                  replace: string, size: nat, done: string, rest: string, total: nat, i: nat)
    requires search != "" && |text| <= size && Under(was, mem, subject, text, search, replace, size, done, rest, total)
    requires |rest| <= size && FindFrom(rest, 0, search) == Some(i)
    requires Done(mem, now, subject + |done|, rest, i, search, replace, size)
    ensures var t := Turn(rest, i, search, replace, size);
            && Under(was, now, subject, text, search, replace, size, done + t.0, t.1, total + 1)
            && |t.1| < |rest| && |t.0| == Behind(i, replace, size)
  {
    var t, r := Turn(rest, i, search, replace, size), Replaced(rest, i, search, replace, size);
    TurnFits(rest, i, search, replace, size);
    var to := subject + |done| + |r| + 1;
    HoldsInFront(mem, now, subject, done, rest, r, to);
    OnlyTwice(was, mem, now, subject, subject + |done|, subject + Highest(text, search, replace, size) + 1, to);
    hide Holds, FindFrom, Only, Replaced, Turn, MatchAt, Behind;
    Reassociate(done, t.0, t.1);
    Reassociate(done, t.0, Looped(t.1, search, replace, size));
  }

  lemma OnlyTwice(was: seq<char>, mem: seq<char>, now: seq<char>, at: nat, from: nat, end: nat, to: nat)
    requires at <= from && Only(was, mem, at, end) && Only(mem, now, from, to) && to <= end
    ensures Only(was, now, at, end)
  {}

  lemma Reassociate(a: string, b: string, c: string)
    ensures a + (b + c) == a + b + c
  {}

  lemma UnderFits(was: seq<char>, mem: seq<char>, subject: nat, text: string, search: string, replace: string,
                  size: nat, done: string, rest: string, total: nat)
    requires search != "" && |text| <= size && Under(was, mem, subject, text, search, replace, size, done, rest, total)
    requires subject + Highest(text, search, replace, size) < |mem|
    ensures Holds(mem, subject + |done|, rest) && |rest| <= size
    ensures Room(rest, search, replace, size, |mem| - (subject + |done|))
  {
    HoldsBehind(mem, subject, done, rest);
    var f := FindFrom(rest, 0, search);
    if f.Some? { TurnFits(rest, f.value, search, replace, size); }
    hide Holds, FindFrom, Replaced, Only, Looped, Turns;
  }

  lemma UnderStarts(mem: seq<char>, subject: nat, text: string, search: string, replace: string, size: nat)
    requires Holds(mem, subject, text) && search != "" && |text| <= size
    ensures Under(mem, mem, subject, text, search, replace, size, "", text, 0)
  {
    assert "" + text == text;
    var looped := Looped(text, search, replace, size);
    assert "" + looped == looped;
  }

  lemma UnderEnds(was: seq<char>, mem: seq<char>, subject: nat, text: string, search: string, replace: string,
                  size: nat, done: string, rest: string, total: nat)
    requires search != "" && |text| <= size && Under(was, mem, subject, text, search, replace, size, done, rest, total)
    requires rest == "" || FindFrom(rest, 0, search).None?
    ensures Holds(mem, subject, Looped(text, search, replace, size)) && total == Turns(text, search, replace, size)
    ensures Only(was, mem, subject, subject + Highest(text, search, replace, size) + 1)
  {}

  /** Replaces every occurrence, turn by turn. What is written is what `Looped` says, and nothing
      outside it and the text that was there; `StaysInside` says when that is inside the `maxlength`
      characters of the buffer, and then all of `All` is there if that fits. */
  method ReplaceAll(a: array<char>, subject: nat, maxlength: nat, search: string, replace: string, ghost text: string)
    returns (total: nat)
    requires Holds(a[..], subject, text) && |text| < maxlength && search != "" && Clean(replace)
    requires subject + |Looped(text, search, replace, maxlength - 1)| < a.Length
    modifies a
    ensures Holds(a[..], subject, Looped(text, search, replace, maxlength - 1))
    ensures total == Turns(text, search, replace, maxlength - 1)
    ensures Only(old(a[..]), a[..], subject, subject + Highest(text, search, replace, maxlength - 1) + 1)
    ensures |All(text, search, replace)| < maxlength ==>
              Holds(a[..], subject, All(text, search, replace)) && total == |Split(text, search)| - 1
  {
    hide *;
    ghost var was, size := a[..], maxlength - 1;
    var ptr := subject;
    total := 0;
    ghost var done, rest := "", text;
    UnderStarts(was, subject, text, search, replace, size);
    HighestFits(was, subject, text, search, replace, size);
    while true
      invariant ptr == subject + |done|
      invariant Under(was, a[..], subject, text, search, replace, size, done, rest, total)
      decreases |rest|
    {
      var next: Option<nat>;
      next, total, done, rest := ReplaceNext(a, was, subject, ptr, maxlength, search, replace, text, done, rest, total);
      if next.None? { break; }
      ptr := next.value;
      UnderFits(was, a[..], subject, text, search, replace, size, done, rest, total);
      HeldEnd(a[..], ptr, rest);
      if a[ptr] == '\0' { break; }
    }
    UnderEnds(was, a[..], subject, text, search, replace, size, done, rest, total);
    WholeWhenFits(text, search, replace, size);
  }

  lemma WholeWhenFits(text: string, search: string, replace: string, size: nat)
    requires search != "" && |text| <= size
    ensures |All(text, search, replace)| <= size ==>
              Looped(text, search, replace, size) == All(text, search, replace)
              && Turns(text, search, replace, size) == |Split(text, search)| - 1
  {
    if |All(text, search, replace)| <= size { LoopedFits(text, search, replace, size); }
  }

  lemma HighestFits(mem: seq<char>, subject: nat, text: string, search: string, replace: string, size: nat)
    requires Holds(mem, subject, text) && search != "" && |text| <= size
    requires subject + |Looped(text, search, replace, size)| < |mem|
    ensures subject + Highest(text, search, replace, size) < |mem|
  {}

  /** One replacement, counted. */
  method ReplaceNext(a: array<char>, ghost was: seq<char>, ghost subject: nat, ptr: nat, maxlength: nat,
                     search: string, replace: string, ghost text: string, ghost done: string, ghost rest: string,
                     count: nat)
    returns (next: Option<nat>, total: nat, ghost done1: string, ghost rest1: string)
    requires search != "" && Clean(replace) && |text| < maxlength && ptr == subject + |done|
    requires subject + Highest(text, search, replace, maxlength - 1) < a.Length
    requires Under(was, a[..], subject, text, search, replace, maxlength - 1, done, rest, count)
    modifies a
    ensures Under(was, a[..], subject, text, search, replace, maxlength - 1, done1, rest1, total)
    ensures next.Some? ==> next.value == subject + |done1| && |rest1| < |rest|
    ensures next.None? ==> FindFrom(rest1, 0, search).None?
  {
    hide *;
    ghost var mem := a[..];
    total, done1, rest1 := count, done, rest;
    UnderFits(was, mem, subject, text, search, replace, maxlength - 1, done, rest, total);
    next := ReplaceEx(a, ptr, maxlength, search, replace, rest);
    done1, rest1 := UnderAdvances(was, mem, a[..], subject, text, search, replace, maxlength - 1, done, rest, total,
                                  next);
    if next.Some? { total := total + 1; }
  }

  lemma UnderAdvances(was: seq<char>, mem: seq<char>, now: seq<char>, subject: nat, text: string, search: string,
                      replace: string, size: nat, done: string, rest: string, total: nat, next: Option<nat>)
    returns (done1: string, rest1: string)
    requires search != "" && |text| <= size && |rest| <= size
    requires Under(was, mem, subject, text, search, replace, size, done, rest, total)
    requires FirstReplaced(mem, now, subject + |done|, rest, search, replace, size, next)
    ensures Under(was, now, subject, text, search, replace, size, done1, rest1, if next.Some? then total + 1 else total)
    ensures next.Some? ==> next.value == subject + |done1| && |rest1| < |rest|
    ensures next.None? ==> FindFrom(rest1, 0, search).None?
  {
    hide Under, Done, Holds, MatchAt, FindFrom, Replaced, Turn, Only, Behind;
    if next.None? { return done, rest; }
    var i := FindFrom(rest, 0, search).value;
    UnderNext(was, mem, now, subject, text, search, replace, size, done, rest, total, i);
    var t := Turn(rest, i, search, replace, size);
    done1, rest1 := done + t.0, t.1;
  }

  lemma HeldEnd(mem: seq<char>, at: nat, text: string)
    requires Holds(mem, at, text)
    ensures at < |mem| && (mem[at] == '\0' <==> text == "")
  {
    if text != "" { HeldChar(mem, at, text, 0); }
  }
}
