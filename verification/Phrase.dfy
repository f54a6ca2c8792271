/**
 Phrases: translations with `{n}` parameters, compiled to a format string and an order of
 arguments, and later run through the formatter with the arguments in that order.
 */
module Phrase {
  import opened Common
  import F = Format
  import PhraseFormat
  import opened Counting

  /** A compiled phrase, piece by piece: a character, or the place of a parameter. */
  datatype Piece = Lit(c: char) | Slot(index: nat)

  const MAX_TRANSLATE_PARAMS := 32

  // ----- reading a phrase

  predicate IsSpace(c: char) { c == ' ' || 9 as char <= c <= 13 as char }

  function DigitsValue(s: string, n: int): int {
    if s == "" || !IsDigit(s[0]) then n
    else DigitsValue(s[1..], 10 * n + (s[0] as int - '0' as int))
  }

  /** `strtol` in base 10. */
  function Strtol(s: string): int {
    if s != "" && IsSpace(s[0]) then Strtol(s[1..])
    else if s != "" && s[0] == '-' then -DigitsValue(s[1..], 0)
    else if s != "" && s[0] == '+' then DigitsValue(s[1..], 0)
    else DigitsValue(s, 0)
  }

  /** Where a parameter that opened before `i` ends: at a brace, or where none can follow. */
  function CloseAt(v: string, i: nat): (j: nat)
    requires i <= |v|
    ensures i <= j <= |v|
    decreases |v| - i
  {
    if i == |v| || v[i] == '}' || v[i] >= 128 as char then i else CloseAt(v, i + 1)
  }

  /** The parameter that opens at `i`, and the position behind it. None when the braces hold no
      index of this phrase, or one that has been used. */
  function ParamAt(v: string, i: nat, n: nat, used: set<nat>): (r: Option<(nat, nat)>)
    requires i < |v|
    ensures r.Some? ==> r.value.0 < n && r.value.0 !in used && i + 3 <= r.value.1 <= |v|
  {
    var j := CloseAt(v, i + 1);
    if j == |v| || v[j] != '}' || j == i + 1 then None
    else
      var idx := Strtol(v[i + 1..j]);
      if idx < 1 || idx > n || idx - 1 in used then None else Some((idx - 1, j + 1))
  }

  predicate Escapable(c: char) { c == '\n' || c == '\t' || c == '\r' || c == '{' }

  function Prepend(done: seq<Piece>, rest: Option<seq<Piece>>): Option<seq<Piece>> {
    match rest case None => None case Some(r) => Some(done + r)
  }

  /** The pieces of a phrase from `i` on, `used` being the parameters already placed. None when
      a backslash makes the reader run past the end. */
  function Pieces(v: string, i: nat, n: nat, used: set<nat>): Option<seq<Piece>>
    decreases |v| - i
  {
    if i > |v| then None
    else if i == |v| then Some([])
    else if v[i] == '\\' then
      if i + 1 < |v| && Escapable(v[i + 1]) then Prepend([Lit(v[i + 1])], Pieces(v, i + 2, n, used))
      else if i + 3 > |v| then None
      else Prepend([Lit('\\'), Lit(v[i + 1])], Pieces(v, i + 3, n, used))
    else if v[i] == '{' && ParamAt(v, i, n, used).Some? then
      var (k, next) := ParamAt(v, i, n, used).value;
      Prepend([Slot(k)], Pieces(v, next, n, used + {k}))
    else Prepend([Lit(v[i])], Pieces(v, i + 1, n, used))
  }

  function Order(ps: seq<Piece>): seq<nat> {
    if ps == [] then [] else (if ps[0].Slot? then [ps[0].index] else []) + Order(ps[1..])
  }

  /** The format string a phrase is compiled to, the specifiers being `table`. */
  function CompiledText(ps: seq<Piece>, table: seq<string>): string {
    if ps == [] then "" else PieceText(ps[0], table) + CompiledText(ps[1..], table)
  }

  function PieceText(p: Piece, table: seq<string>): string {
    match p
    case Lit(c) => [c]
    case Slot(k) => if k < |table| then table[k] else ""
  }

  lemma {:induction false} OrderAppends(a: seq<Piece>, b: seq<Piece>)
    ensures Order(a + b) == Order(a) + Order(b)
  {
    if a == [] {
      assert a + b == b;
    } else {
      OrderAppends(a[1..], b);
      assert (a + b)[1..] == a[1..] + b && (a + b)[0] == a[0];
      var first, x, y := if a[0].Slot? then [a[0].index] else [], Order(a[1..]), Order(b);
      assert first + (x + y) == (first + x) + y;
    }
  }

  lemma {:induction false} TextAppends(a: seq<Piece>, b: seq<Piece>, table: seq<string>)
    ensures CompiledText(a + b, table) == CompiledText(a, table) + CompiledText(b, table)
  {
    if a == [] {
      assert a + b == b;
    } else {
      TextAppends(a[1..], b, table);
      assert (a + b)[1..] == a[1..] + b && (a + b)[0] == a[0];
      var first := PieceText(a[0], table);
      hide PieceText;
      var x, y := CompiledText(a[1..], table), CompiledText(b, table);
      assert first + (x + y) == (first + x) + y;
    }
  }

  // ----- the size of the output

  /** The length of the specifiers not placed yet. */
  function Unused(table: seq<string>, used: set<nat>): nat {
    if table == [] then 0
    else Unused(table[..|table| - 1], used) + (if |table| - 1 in used then 0 else |table[|table| - 1]|)
  }

  lemma {:induction false} UnusedLess(table: seq<string>, used: set<nat>, k: nat)
    requires k < |table| && k !in used
    ensures Unused(table, used) == |table[k]| + Unused(table, used + {k})
  {
    var front := table[..|table| - 1];
    if k == |table| - 1 { UnusedSame(front, used, k); } else { UnusedLess(front, used, k); }
  }

  lemma {:induction false} UnusedSame(table: seq<string>, used: set<nat>, k: nat)
    requires k >= |table|
    ensures Unused(table, used) == Unused(table, used + {k})
  {
    if table != [] { UnusedSame(table[..|table| - 1], used, k); }
  }

  /** The outcome of compiling one translation. */
  datatype Compiled = Overrun | Done(text: string, order: seq<int>)

  /** The parameters placed so far, each once, are the `used` ones. */
  ghost predicate Placed(done: seq<Piece>, used: set<nat>, n: nat) {
    && (forall k :: k in used <==> k in Order(done))
    && Distinct(Order(done))
    && (forall k :: k in used ==> k < n)
  }

  /** Looks for the brace that ends a parameter. */
  method FindClose(v: string, start: nat) returns (j: nat)
    requires start <= |v|
    ensures j == CloseAt(v, start)
  {
    j := start;
    while j < |v| && v[j] != '}' && v[j] < 128 as char
      invariant start <= j <= |v| && CloseAt(v, j) == CloseAt(v, start)
    {
      j := j + 1;
    }
  }

  lemma PlaceLit(done: seq<Piece>, used: set<nat>, n: nat, c: char, table: seq<string>)
    requires Placed(done, used, n)
    ensures Placed(done + [Lit(c)], used, n) && Order(done + [Lit(c)]) == Order(done)
    ensures CompiledText(done + [Lit(c)], table) == CompiledText(done, table) + [c]
  {
    OrderAppends(done, [Lit(c)]);
    TextAppends(done, [Lit(c)], table);
    assert [Lit(c)][1..] == [];
    assert Order([Lit(c)]) == [] && CompiledText([Lit(c)], table) == [c];
  }

  lemma PlaceSlot(done: seq<Piece>, used: set<nat>, n: nat, k: nat, table: seq<string>)
    requires Placed(done, used, n) && k < n == |table| && k !in used
    ensures Placed(done + [Slot(k)], used + {k}, n) && Order(done + [Slot(k)]) == Order(done) + [k]
    ensures CompiledText(done + [Slot(k)], table) == CompiledText(done, table) + table[k]
  {
    OrderAppends(done, [Slot(k)]);
    TextAppends(done, [Slot(k)], table);
    assert [Slot(k)][1..] == [];
    assert Order([Slot(k)]) == [k] && CompiledText([Slot(k)], table) == table[k];
    var o := Order(done);
    hide Order, CompiledText;
    forall j | 0 <= j < |o| ensures o[j] != k { assert o[j] in o; }
  }

  lemma RoomInOrder(done: seq<Piece>, used: set<nat>, n: nat, k: nat)
    requires Placed(done, used, n) && k < n && k !in used
    ensures |Order(done)| < n
  {
    var o := Order(done);
    hide Order;
    forall i | 0 <= i < |o| ensures o[i] < n { assert o[i] in o; }
    RoomForOneMore(o, 0, n, k);
  }

  lemma PrependTwice(a: seq<Piece>, b: seq<Piece>, rest: Option<seq<Piece>>)
    ensures Prepend(a, Prepend(b, rest)) == Prepend(a + b, rest)
  {
    if rest.Some? { assert a + (b + rest.value) == a + b + rest.value; }
  }

  /** One round of the reader: the pieces it yields, where it goes on, and what it used up. */
  function Round(v: string, i: nat, n: nat, used: set<nat>): Option<(seq<Piece>, nat, set<nat>)>
    requires i < |v|
  {
    if v[i] == '\\' then
      if i + 1 < |v| && Escapable(v[i + 1]) then Some(([Lit(v[i + 1])], i + 2, used))
      else if i + 3 > |v| then None
      else Some(([Lit('\\'), Lit(v[i + 1])], i + 3, used))
    else if v[i] == '{' && ParamAt(v, i, n, used).Some? then
      var (k, next) := ParamAt(v, i, n, used).value;
      Some(([Slot(k)], next, used + {k}))
    else Some(([Lit(v[i])], i + 1, used))
  }

  lemma PiecesRound(v: string, i: nat, n: nat, used: set<nat>)
    requires i < |v|
    ensures match Round(v, i, n, used)
            case None => Pieces(v, i, n, used) == None
            case Some((ps, next, more)) =>
              i < next <= |v| && Pieces(v, i, n, used) == Prepend(ps, Pieces(v, next, n, more))
  {}

  /** Copies a specifier to the output, as the `sprintf` there does. */
  method CopyOut(out: array<char>, at: nat, s: string) returns (next: nat)
    requires at + |s| <= out.Length
    modifies out
    ensures next == at + |s| && out[..next] == old(out[..at]) + s
  {
    next := at;
    for k := 0 to |s|
      invariant next == at + k && out[..next] == old(out[..at]) + s[..k]
    {
      out[next] := s[k];
      assert out[..next + 1] == out[..next] + [s[k]];
      next := next + 1;
    }
  }

  // ----- which phrases overrun

  /** A backslash at the end that stands for nothing known: the reader skips the terminator. */
  predicate RunsOver(v: string, at: nat) {
    at < |v| && v[at] == '\\' && at + 3 > |v| && !(at + 1 < |v| && Escapable(v[at + 1]))
  }

  /** The reader, being at `i`, gets to look at `at` as the start of a piece. */
  ghost predicate Reached(v: string, i: nat, n: nat, used: set<nat>, at: nat)
    decreases |v| - i
  {
    && i < |v|
    && (at == i
        || match Round(v, i, n, used)
           case None => false
           case Some(p) => Reached(v, p.1, n, p.2, at))
  }

  /** The reader runs past the end exactly when it reaches such a backslash. */
  lemma {:induction false} OverrunsExactly(v: string, i: nat, n: nat, used: set<nat>)
    requires i <= |v|
    ensures Pieces(v, i, n, used) == None <==> exists at: nat :: Reached(v, i, n, used, at) && RunsOver(v, at)
    decreases |v| - i
  {
    if i < |v| {
      PiecesRound(v, i, n, used);
      RoundNone(v, i, n, used);
      hide Round, RunsOver, Pieces, Escapable;
      match Round(v, i, n, used)
      case None =>
        assert Reached(v, i, n, used, i);
      case Some(p) =>
        OverrunsExactly(v, p.1, n, p.2);
        if at: nat :| Reached(v, p.1, n, p.2, at) && RunsOver(v, at) {
          assert Reached(v, i, n, used, at);
        }
    }
  }

  lemma RoundNone(v: string, i: nat, n: nat, used: set<nat>)
    requires i < |v|
    ensures Round(v, i, n, used) == None <==> RunsOver(v, i)
    ensures Round(v, i, n, used).Some? ==> i < Round(v, i, n, used).value.1 <= |v|
  {}

  /** Every backslash is followed by a character it is known before. */
  predicate KnownEscapes(v: string) {
    forall i :: 0 <= i < |v| && v[i] == '\\' ==> i + 1 < |v| && Escapable(v[i + 1])
  }

  lemma KnownEscapesSuffice(v: string, n: nat)
    requires KnownEscapes(v)
    ensures Pieces(v, 0, n, {}).Some?
  {
    OverrunsExactly(v, 0, n, {});
  }

  /** A lone backslash overruns, and so does one before the last character if that is none of the four.
      With one character more the phrase is read to its end, though a character is lost. */
  lemma LastBackslashes(n: nat)
    ensures Pieces("\\", 0, n, {}) == None
    ensures Pieces("a\\n", 0, n, {}) == None
    ensures Pieces("\\nb", 0, n, {}) == Some([Lit('\\'), Lit('n')])
  {
    assert Pieces("a\\n", 1, n, {}) == None;
    assert Pieces("\\nb", 3, n, {}) == Some([]);
    assert [Lit('\\'), Lit('n')] + [] == [Lit('\\'), Lit('n')];
  }

  /** What the compiler has done when it stands at `i`. */
  ghost predicate Compiling(v: string, i: nat, table: seq<string>, done: seq<Piece>, used: set<nat>,
                            text: seq<char>, order: seq<int>) {
    && i <= |v|
    && Placed(done, used, |table|)
    && Pieces(v, 0, |table|, {}) == Prepend(done, Pieces(v, i, |table|, used))
    && text == CompiledText(done, table)
    && order == Order(done)
    && |text| + Unused(table, used) <= i + Unused(table, {})
  }

  lemma CompileChar(v: string, i: nat, table: seq<string>, done: seq<Piece>, used: set<nat>,
                    text: seq<char>, order: seq<int>, c: char, next: nat)
    requires Compiling(v, i, table, done, used, text, order) && i < |v|
    requires Round(v, i, |table|, used) == Some(([Lit(c)], next, used))
    ensures Compiling(v, next, table, done + [Lit(c)], used, text + [c], order)
    ensures next <= |v| && |text| + 1 <= |v| + Unused(table, {})
  {
    PiecesRound(v, i, |table|, used);
    PlaceLit(done, used, |table|, c, table);
    PrependTwice(done, [Lit(c)], Pieces(v, next, |table|, used));
    hide Pieces, Order, CompiledText, Unused, Placed;
  }

  lemma CompileBoth(v: string, i: nat, table: seq<string>, done: seq<Piece>, used: set<nat>,
                    text: seq<char>, order: seq<int>, c: char)
    requires Compiling(v, i, table, done, used, text, order) && i + 3 <= |v|
    requires Round(v, i, |table|, used) == Some(([Lit('\\'), Lit(c)], i + 3, used))
    ensures Compiling(v, i + 3, table, done + [Lit('\\')] + [Lit(c)], used, text + ['\\'] + [c], order)
    ensures |text| + 2 <= |v| + Unused(table, {})
  {
    PiecesRound(v, i, |table|, used);
    PlaceLit(done, used, |table|, '\\', table);
    PlaceLit(done + [Lit('\\')], used, |table|, c, table);
    PrependTwice(done, [Lit('\\'), Lit(c)], Pieces(v, i + 3, |table|, used));
    assert done + [Lit('\\')] + [Lit(c)] == done + [Lit('\\'), Lit(c)];
    hide Pieces, Order, CompiledText, Unused, Placed;
  }

  lemma CompileSlot(v: string, i: nat, table: seq<string>, done: seq<Piece>, used: set<nat>,
                    text: seq<char>, order: seq<int>, k: nat, next: nat)
    requires Compiling(v, i, table, done, used, text, order) && i < |v| && k < |table| && k !in used && i + 3 <= next
    requires Round(v, i, |table|, used) == Some(([Slot(k)], next, used + {k}))
    ensures Compiling(v, next, table, done + [Slot(k)], used + {k}, text + table[k], order + [k])
    ensures |order| < |table| && next <= |v| && |text| + |table[k]| <= |v| + Unused(table, {})
  {
    PiecesRound(v, i, |table|, used);
    PlaceSlot(done, used, |table|, k, table);
    RoomInOrder(done, used, |table|, k);
    PrependTwice(done, [Slot(k)], Pieces(v, next, |table|, used + {k}));
    UnusedLess(table, used, k);
    hide Pieces, Order, CompiledText, Unused, Placed;
  }

  /** The flags of the parameters placed so far. */
  ghost predicate Marked(params: seq<bool>, used: set<nat>) {
    forall k: nat :: k in used <==> k < |params| && params[k]
  }

  /** The order so far, and -1 in all the places behind it. */
  ghost predicate Ordered(slots: seq<int>, order: seq<int>) {
    && |order| <= |slots| && slots[..|order|] == order
    && forall k :: |order| <= k < |slots| ==> slots[k] == -1
  }

  method PutChar(v: string, ghost i: nat, table: seq<string>, out: array<char>, at: nat, c: char, ghost next: nat,
                 ghost done: seq<Piece>, ghost used: set<nat>, ghost order: seq<int>) returns (to: nat)
    requires at <= out.Length == |v| + Unused(table, {}) + 1 && i < |v|
    requires Compiling(v, i, table, done, used, out[..at], order)
    requires Round(v, i, |table|, used) == Some(([Lit(c)], next, used))
    modifies out
    ensures to <= out.Length && next <= |v| && Compiling(v, next, table, done + [Lit(c)], used, out[..to], order)
  {
    CompileChar(v, i, table, done, used, out[..at], order, c, next);
    hide *;
    to := CopyOut(out, at, [c]);
  }

  method PutBoth(v: string, ghost i: nat, table: seq<string>, out: array<char>, at: nat, c: char,
                 ghost done: seq<Piece>, ghost used: set<nat>, ghost order: seq<int>) returns (to: nat)
    requires at <= out.Length == |v| + Unused(table, {}) + 1 && i + 3 <= |v|
    requires Compiling(v, i, table, done, used, out[..at], order)
    requires Round(v, i, |table|, used) == Some(([Lit('\\'), Lit(c)], i + 3, used))
    modifies out
    ensures to <= out.Length
    ensures Compiling(v, i + 3, table, done + [Lit('\\')] + [Lit(c)], used, out[..to], order)
  {
    CompileBoth(v, i, table, done, used, out[..at], order, c);
    hide *;
    to := CopyOut(out, at, ['\\']);
    to := CopyOut(out, to, [c]);
  }

  method PutSlot(v: string, ghost i: nat, table: seq<string>, out: array<char>, at: nat, k: nat, ghost next: nat,
                 fmtOrder: array<int>, orderIdx: nat, params: array<bool>,
                 ghost done: seq<Piece>, ghost used: set<nat>, ghost order: seq<int>)
    returns (to: nat, nextOrder: nat)
    requires at <= out.Length == |v| + Unused(table, {}) + 1 && i < |v| && i + 3 <= next
    requires fmtOrder.Length == |table| && orderIdx == |order| && params.Length == MAX_TRANSLATE_PARAMS
    requires Compiling(v, i, table, done, used, out[..at], order) && Ordered(fmtOrder[..], order)
    requires Marked(params[..], used) && k < |table| <= MAX_TRANSLATE_PARAMS && k !in used
    requires Round(v, i, |table|, used) == Some(([Slot(k)], next, used + {k}))
    modifies out, fmtOrder, params
    ensures to <= out.Length && next <= |v| && nextOrder == |order| + 1
    ensures Compiling(v, next, table, done + [Slot(k)], used + {k}, out[..to], order + [k])
    ensures Ordered(fmtOrder[..], order + [k])
    ensures Marked(params[..], used + {k})
  {
    CompileSlot(v, i, table, done, used, out[..at], order, k, next);
    hide Compiling, Round, Unused;
    fmtOrder[orderIdx] := k;
    nextOrder := orderIdx + 1;
    assert Ordered(fmtOrder[..], order + [k]);
    hide Ordered;
    to := CopyOut(out, at, table[k]);
    params[k] := true;
  }

  /** Puts what a backslash stands for, or finds that it makes the reader run past the end. */
  method PutEscape(v: string, i: nat, table: seq<string>, out: array<char>, at: nat,
                   ghost done: seq<Piece>, ghost used: set<nat>, ghost order: seq<int>)
    returns (ok: bool, to: nat, next: nat, ghost more: seq<Piece>)
    requires at <= out.Length == |v| + Unused(table, {}) + 1 && i < |v| && v[i] == '\\'
    requires Compiling(v, i, table, done, used, out[..at], order)
    modifies out
    ensures !ok ==> Yields(v, table, Overrun)
    ensures ok ==> to <= out.Length && i < next <= |v| && Compiling(v, next, table, more, used, out[..to], order)
  {
    ok, to, next, more := true, at, i, done;
    hide Compiling, Pieces, Unused;
    RoundOfChar(v, i, |table|, used);
    if i + 1 < |v| && Escapable(v[i + 1]) {
      to := PutChar(v, i, table, out, at, v[i + 1], i + 2, done, used, order);
      next, more := i + 2, done + [Lit(v[i + 1])];
    } else if i + 3 > |v| {
      CompilingOverruns(v, i, table, done, used, out[..at], order);
      ok := false;
    } else {
      to := PutBoth(v, i, table, out, at, v[i + 1], done, used, order);
      next, more := i + 3, done + [Lit('\\')] + [Lit(v[i + 1])];
    }
  }

  /** Reads the braces that open at `i`: do they hold an index of this phrase, one not used yet? */
  method FindParameter(v: string, i: nat, n: nat, params: array<bool>, ghost used: set<nat>)
    returns (found: bool, k: nat, next: nat)
    requires i < |v| && v[i] == '{' && n <= params.Length && Marked(params[..], used)
    ensures found ==>
              k < n && k !in used && i + 3 <= next && Round(v, i, n, used) == Some(([Slot(k)], next, used + {k}))
    ensures !found ==> Round(v, i, n, used) == Some(([Lit('{')], i + 1, used))
  {
    found, k, next := false, 0, i + 1;
    var j := FindClose(v, i + 1);
    if j < |v| && v[j] == '}' && j != i + 1 {
      var idx := Strtol(v[i + 1..j]);
      if 1 <= idx <= n {
        MarkedMeans(params[..], used, idx - 1);
        if !params[idx - 1] {
          SlotFound(v, i, n, used, j, idx);
          return true, idx - 1, j + 1;
        }
      }
    }
    NoSlot(v, i, n, used);
  }

  /** What compiling a phrase comes to. */
  ghost predicate Yields(v: string, table: seq<string>, r: Compiled) {
    match Pieces(v, 0, |table|, {})
    case None => r == Overrun
    case Some(ps) =>
      && r.Done? && r.text == CompiledText(ps, table)
      && |r.order| == |table| && Ordered(r.order, Order(ps))
  }

  lemma NothingPlaced(params: seq<bool>, slots: seq<int>)
    requires forall k :: 0 <= k < |params| ==> !params[k]
    requires forall k :: 0 <= k < |slots| ==> slots[k] == -1
    ensures Marked(params, {}) && Ordered(slots, [])
  {}

  lemma OutcomeIs(v: string, table: seq<string>)
    ensures forall r :: Yields(v, table, r) ==>
              && (r.Overrun? <==> exists at: nat :: Reached(v, 0, |table|, {}, at) && RunsOver(v, at))
              && (KnownEscapes(v) ==> r.Done?)
  {
    OverrunsExactly(v, 0, |table|, {});
    if KnownEscapes(v) { KnownEscapesSuffice(v, |table|); }
    hide Reached, RunsOver, Pieces, KnownEscapes;
  }

  /** Compiles one translation, into an output of the phrase's length, its specifiers' length and
      one more: that always suffices, no write being checked against it. */
  method Compile(v: string, table: seq<string>) returns (r: Compiled)
    requires |table| <= MAX_TRANSLATE_PARAMS
    ensures Yields(v, table, r)
    ensures r.Done? ==> |r.text| <= |v| + Unused(table, {})
    ensures r.Overrun? <==> exists at: nat :: Reached(v, 0, |table|, {}, at) && RunsOver(v, at)
    ensures KnownEscapes(v) ==> r.Done?
  {
    hide *;
    var out := new char[|v| + Unused(table, {}) + 1];
    var fmtOrder := new int[|table|](_ => -1);
    var params := new bool[MAX_TRANSLATE_PARAMS](_ => false);
    var i: nat, at: nat, orderIdx: nat := 0, 0, 0;
    ghost var done: seq<Piece>, used: set<nat>, order: seq<int> := [], {}, [];
    CompilingStarts(v, table);
    OutcomeIs(v, table);
    NothingPlaced(params[..], fmtOrder[..]);
    while i < |v|
      invariant i <= |v| && at <= out.Length && orderIdx == |order|
      invariant Compiling(v, i, table, done, used, out[..at], order)
      invariant Ordered(fmtOrder[..], order) && Marked(params[..], used)
    {
      RoundOfChar(v, i, |table|, used);
      if v[i] == '\\' {
        var ok: bool;
        ok, at, i, done := PutEscape(v, i, table, out, at, done, used, order);
        if !ok { return Overrun; }
        continue;
      }
      if v[i] == '{' {
        var found, k, next := FindParameter(v, i, |table|, params, used);
        if found {
          at, orderIdx := PutSlot(v, i, table, out, at, k, next, fmtOrder, orderIdx, params, done, used, order);
          done, used, order := done + [Slot(k)], used + {k}, order + [k];
          i := next;
          continue;
        }
      }
      at := PutChar(v, i, table, out, at, v[i], i + 1, done, used, order);
      done := done + [Lit(v[i])];
      i := i + 1;
    }
    CompilingEnds(v, table, done, used, out[..at], order, fmtOrder[..]);
    r := Done(out[..at], fmtOrder[..]);
    out[at] := '\0';
  }

  lemma NothingBefore(rest: Option<seq<Piece>>)
    ensures Prepend([], rest) == rest
  {
    if rest.Some? { assert [] + rest.value == rest.value; }
  }

  lemma CompilingStarts(v: string, table: seq<string>)
    ensures Compiling(v, 0, table, [], {}, "", [])
  {
    NothingBefore(Pieces(v, 0, |table|, {}));
  }

  lemma CompilingEnds(v: string, table: seq<string>, done: seq<Piece>, used: set<nat>, text: seq<char>, order: seq<int>,
                      slots: seq<int>)
    requires Compiling(v, |v|, table, done, used, text, order) && Ordered(slots, order) && |slots| == |table|
    ensures Yields(v, table, Done(text, slots)) && |text| <= |v| + Unused(table, {})
  {
    PiecesEnd(v, |table|, used);
    assert done + [] == done;
  }

  /** A backslash that makes the reader run past the end. */
  lemma CompilingOverruns(v: string, i: nat, table: seq<string>, done: seq<Piece>, used: set<nat>, text: seq<char>,
                          order: seq<int>)
    requires Compiling(v, i, table, done, used, text, order) && i < |v| && Round(v, i, |table|, used) == None
    ensures Pieces(v, 0, |table|, {}) == None && Yields(v, table, Overrun)
  {
    PiecesRound(v, i, |table|, used);
  }

  lemma PiecesEnd(v: string, n: nat, used: set<nat>)
    ensures Pieces(v, |v|, n, used) == Some([])
  {}

  lemma MarkedMeans(params: seq<bool>, used: set<nat>, k: nat)
    requires Marked(params, used) && k < |params|
    ensures k in used <==> params[k]
  {}

  lemma RoundOfChar(v: string, i: nat, n: nat, used: set<nat>)
    requires i < |v|
    ensures v[i] == '\\' ==>
              if i + 1 < |v| && Escapable(v[i + 1]) then Round(v, i, n, used) == Some(([Lit(v[i + 1])], i + 2, used))
              else if i + 3 > |v| then Round(v, i, n, used) == None
              else Round(v, i, n, used) == Some(([Lit('\\'), Lit(v[i + 1])], i + 3, used))
    ensures v[i] != '\\' && v[i] != '{' ==> Round(v, i, n, used) == Some(([Lit(v[i])], i + 1, used))
  {}

  lemma SlotFound(v: string, i: nat, n: nat, used: set<nat>, j: nat, idx: int)
    requires i < |v| && v[i] == '{' && j == CloseAt(v, i + 1) && j < |v| && v[j] == '}' && j != i + 1
    requires idx == Strtol(v[i + 1..j]) && 1 <= idx <= n && idx - 1 !in used
    ensures Round(v, i, n, used) == Some(([Slot(idx - 1)], j + 1, used + {idx - 1}))
  {}

  lemma NoSlot(v: string, i: nat, n: nat, used: set<nat>)
    requires i < |v| && v[i] == '{'
    requires var j := CloseAt(v, i + 1);
             || j == |v| || v[j] != '}' || j == i + 1
             || (var idx := Strtol(v[i + 1..j]); idx < 1 || idx > n || idx - 1 in used)
    ensures Round(v, i, n, used) == Some(([Lit('{')], i + 1, used))
  {}
}
