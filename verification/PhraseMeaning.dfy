/**
 What a translated phrase says: running the compiled format with the arguments in the compiled
 order is the same as replacing each `{n}` by argument n under its own specifier.
 */
module PhraseMeaning {
  import opened Common
  import F = Format
  import opened Phrase
  import PhraseFormat
  import opened Counting

  // ----- formats that can be put side by side

  /** How many arguments a format takes. None when it ends inside a directive. */
  function Takes(fmt: string): Option<nat>
    decreases |fmt|
  {
    if fmt == "" then Some(0)
    else if fmt[0] != '%' then Takes(fmt[1..])
    else
      F.DirectiveShrinks(fmt[1..], F.PLAIN);
      var d := F.ReadDirective(fmt[1..], F.PLAIN);
      if d.conv.None? then None
      else
        match Takes(d.rest)
        case None => None
        case Some(n) => Some(if F.TakesArgument(d.conv.value) then n + 1 else n)
  }

  lemma {:induction false} NumberExtends(fmt: string, n: nat, more: string)
    ensures var (m, rest) := F.Number(fmt, n); rest != "" ==> F.Number(fmt + more, n) == (m, rest + more)
    decreases |fmt|
  {
    if fmt != "" {
      assert (fmt + more)[1..] == fmt[1..] + more;
      if IsDigit(fmt[0]) { NumberExtends(fmt[1..], 10 * n + (fmt[0] as int - '0' as int), more); }
    }
  }

  /** A directive that ends does not look at what comes after it. */
  lemma {:induction false} DirectiveExtends(fmt: string, d: F.Directive, more: string)
    requires F.ReadDirective(fmt, d).conv.Some?
    ensures var e := F.ReadDirective(fmt, d); F.ReadDirective(fmt + more, d) == e.(rest := e.rest + more)
    decreases |fmt|, 0
  {
    assert (fmt + more)[1..] == fmt[1..] + more;
    if fmt[0] == '-' {
      DirectiveExtends(fmt[1..], d.(left := true), more);
    } else if fmt[0] == '.' {
      NumberGoesOn(fmt[1..], 0, d, more, true);
    } else if fmt[0] == '0' {
      DirectiveExtends(fmt[1..], d.(zero := true), more);
    } else if IsDigit(fmt[0]) {
      NumberGoesOn(fmt[1..], fmt[0] as int - '0' as int, d, more, false);
    }
  }

  /** The same behind a precision or a width. */
  lemma {:induction false} NumberGoesOn(fmt: string, n: nat, d: F.Directive, more: string, precision: bool)
    requires var (m, rest) := F.Number(fmt, n);
             F.ReadDirective(rest, if precision then d.(prec := m) else d.(width := m)).conv.Some?
    ensures var (m, rest) := F.Number(fmt, n);
            var given := if precision then d.(prec := m) else d.(width := m);
            var e := F.ReadDirective(rest, given);
            F.Number(fmt + more, n) == (m, rest + more) &&
            F.ReadDirective(rest + more, given) == e.(rest := e.rest + more)
    decreases |fmt|, 1
  {
    F.NumberShrinks(fmt, n);
    var (m, rest) := F.Number(fmt, n);
    NumberExtends(fmt, n, more);
    DirectiveExtends(rest, if precision then d.(prec := m) else d.(width := m), more);
  }

  function Dropped(args: seq<F.Arg>, n: nat): seq<F.Arg> {
    if n == 0 then args else Dropped(F.Tail(args), n - 1)
  }

  lemma {:induction false} DroppedSlice(args: seq<F.Arg>, n: nat)
    requires n <= |args|
    ensures Dropped(args, n) == args[n..]
  {
    if n > 0 { DroppedSlice(args[1..], n - 1); assert args[1..][n - 1..] == args[n..]; }
  }

  /** A round on the first of two formats leaves the second alone. */
  lemma RoundSideBySide(a: string, b: string, args: seq<F.Arg>)
    requires a != "" && Takes(a).Some?
    ensures var (s, rest, more) := F.Round(a, args);
            && F.Round(a + b, args) == (s, rest + b, more) && |rest| < |a|
            && Takes(rest).Some? && Takes(rest).value <= Takes(a).value
            && more == (if Takes(rest).value < Takes(a).value then F.Tail(args) else args)
            && Takes(a).value <= Takes(rest).value + 1
  {
    TakesRound(a, args);
    TailOfJoin(a, b);
    if a[0] == '%' {
      RoundOfJoin(a, b, args);
    } else {
      hide F.ReadDirective, Takes, F.TakesArgument, F.Converted;
    }
  }

  lemma TailOfJoin(a: string, b: string)
    requires a != ""
    ensures (a + b)[0] == a[0] && (a + b)[1..] == a[1..] + b
  {}

  lemma RoundOfJoin(a: string, b: string, args: seq<F.Arg>)
    requires a != "" && a[0] == '%' && F.ReadDirective(a[1..], F.PLAIN).conv.Some?
    ensures var (s, rest, more) := F.Round(a, args); F.Round(a + b, args) == (s, rest + b, more)
  {
    TailOfJoin(a, b);
    DirectiveExtends(a[1..], F.PLAIN, b);
    var d := F.ReadDirective(a[1..], F.PLAIN);
    hide *;
    RoundOfDirective(a, args, d);
    RoundOfDirective(a + b, args, d.(rest := d.rest + b));
    if F.TakesArgument(d.conv.value) { ConvertedIgnoresRest(d, d.conv.value, F.Head(args), b); }
  }

  lemma RoundOfDirective(fmt: string, args: seq<F.Arg>, d: F.Directive)
    requires fmt != "" && fmt[0] == '%' && F.ReadDirective(fmt[1..], F.PLAIN) == d && d.conv.Some?
    ensures F.Round(fmt, args) == if F.TakesArgument(d.conv.value)
                                  then (F.Converted(d, d.conv.value, F.Head(args)), d.rest, F.Tail(args))
                                  else ([d.conv.value], d.rest, args)
  {
    hide F.ReadDirective, F.Converted, F.TakesArgument;
  }

  lemma ConvertedIgnoresRest(d: F.Directive, c: char, a: F.Arg, more: string)
    requires F.TakesArgument(c)
    ensures F.Converted(d.(rest := d.rest + more), c, a) == F.Converted(d, c, a)
  {
    hide F.Padded, F.Digits, F.StringField, F.SignedText;
  }

  lemma TakesRound(a: string, args: seq<F.Arg>)
    requires a != "" && Takes(a).Some?
    ensures var (s, rest, more) := F.Round(a, args);
            && |rest| < |a| && Takes(rest).Some? && Takes(rest).value <= Takes(a).value
            && more == (if Takes(rest).value < Takes(a).value then F.Tail(args) else args)
            && Takes(a).value <= Takes(rest).value + 1
    ensures a[0] == '%' ==> F.ReadDirective(a[1..], F.PLAIN).conv.Some?
  {
    hide F.ReadDirective, F.Converted, F.TakesArgument;
    F.FormattedRound(a, args);
  }

  /** Two formats side by side: the second starts on the arguments the first leaves. */
  lemma {:induction false} FormattedSideBySide(a: string, b: string, args: seq<F.Arg>)
    requires Takes(a).Some?
    ensures F.Formatted(a + b, args) == F.Formatted(a, args) + F.Formatted(b, Dropped(args, Takes(a).value))
    decreases |a|
  {
    if a == "" {
      assert a + b == b;
      assert F.Formatted("", args) == "";
    } else {
      RoundSideBySide(a, b, args);
      F.FormattedRound(a, args);
      F.FormattedRound(a + b, args);
      var (s, rest, more) := F.Round(a, args);
      hide F.Formatted, F.Round, Takes;
      FormattedSideBySide(rest, b, more);
      F.Join(s, F.Formatted(rest, more), F.Formatted(b, Dropped(more, Takes(rest).value)));
    }
  }

  /** A format looks at no more arguments than it takes. */
  lemma {:induction false} FormattedLooksAt(a: string, args: seq<F.Arg>, n: nat)
    requires Takes(a) == Some(n) && n <= |args|
    ensures F.Formatted(a, args) == F.Formatted(a, args[..n])
    decreases |a|
  {
    if a == "" {
    } else if a[0] != '%' {
      FormattedLooksAt(a[1..], args, n);
    } else {
      F.DirectiveShrinks(a[1..], F.PLAIN);
      var d := F.ReadDirective(a[1..], F.PLAIN);
      hide F.ReadDirective, F.Converted;
      if F.TakesArgument(d.conv.value) {
        FormattedLooksAt(d.rest, args[1..], n - 1);
        assert args[1..][..n - 1] == args[..n][1..];
      } else {
        FormattedLooksAt(d.rest, args, n);
      }
    }
  }

  lemma {:induction false} FloatFreeSideBySide(a: string, b: string)
    requires Takes(a).Some? && F.FloatFree(a) && F.FloatFree(b)
    ensures F.FloatFree(a + b)
    decreases |a|
  {
    if a == "" {
      assert a + b == b;
    } else if a[0] != '%' {
      assert (a + b)[1..] == a[1..] + b;
      FloatFreeSideBySide(a[1..], b);
    } else {
      assert (a + b)[1..] == a[1..] + b;
      F.DirectiveShrinks(a[1..], F.PLAIN);
      F.DirectiveShrinks((a + b)[1..], F.PLAIN);
      DirectiveExtends(a[1..], F.PLAIN, b);
      var d := F.ReadDirective(a[1..], F.PLAIN);
      hide F.ReadDirective;
      FloatFreeSideBySide(d.rest, b);
    }
  }

  // ----- meaning

  /** A specifier that converts one argument (and no float), and is not left open. */
  predicate Whole(spec: string) { Takes(spec) == Some(1) && F.FloatFree(spec) }

  /** The characters before the first parameter. */
  function Run(ps: seq<Piece>): string {
    if ps == [] || ps[0].Slot? then "" else [ps[0].c] + Run(ps[1..])
  }

  function AfterRun(ps: seq<Piece>): (rest: seq<Piece>)
    ensures |rest| <= |ps| && (ps != [] && ps[0].Lit? ==> |rest| < |ps|) && (rest == [] || rest[0].Slot?)
  {
    if ps == [] || ps[0].Slot? then ps else AfterRun(ps[1..])
  }

  /** Literal text asks for no arguments (a `%` in it is doubled), and specifiers are whole. */
  predicate Settled(ps: seq<Piece>, table: seq<string>)
    decreases |ps|
  {
    if ps == [] then true
    else if ps[0].Slot? then ps[0].index < |table| && Whole(table[ps[0].index]) && Settled(ps[1..], table)
    else Takes(Run(ps)) == Some(0) && F.FloatFree(Run(ps)) && Settled(AfterRun(ps), table)
  }

  /** The phrase with each parameter replaced by its own argument. */
  function Direct(ps: seq<Piece>, table: seq<string>, args: seq<F.Arg>): string
    decreases |ps|
  {
    if ps == [] then ""
    else if ps[0].Slot? then
      (if ps[0].index < |table| && ps[0].index < |args| then F.Formatted(table[ps[0].index], [args[ps[0].index]])
       else "")
      + Direct(ps[1..], table, args)
    else F.Formatted(Run(ps), []) + Direct(AfterRun(ps), table, args)
  }

  /** The arguments in the compiled order. */
  function Reordered(order: seq<int>, args: seq<F.Arg>): (r: seq<F.Arg>)
    requires forall i :: 0 <= i < |order| ==> 0 <= order[i] < |args|
    ensures |r| == |order| && forall i :: 0 <= i < |order| ==> r[i] == args[order[i]]
  {
    seq(|order|, i requires 0 <= i < |order| => args[order[i]])
  }

  lemma {:induction false} RunIsText(ps: seq<Piece>, table: seq<string>)
    ensures CompiledText(ps, table) == Run(ps) + CompiledText(AfterRun(ps), table)
    ensures Order(ps) == Order(AfterRun(ps))
  {
    if ps != [] && ps[0].Lit? { RunIsText(ps[1..], table); }
  }

  /** The compiled format, run on the arguments in the compiled order, says what the phrase says. */
  lemma {:induction false} Meaning(ps: seq<Piece>, table: seq<string>, args: seq<F.Arg>)
    requires Settled(ps, table) && |table| <= |args| && Within(Order(ps), 0, |args|)
    ensures F.Formatted(CompiledText(ps, table), Reordered(Order(ps), args)) == Direct(ps, table, args)
    decreases |ps|
  {
    var all := Reordered(Order(ps), args);
    if ps == [] {
    } else if ps[0].Slot? {
      MeaningOfSlot(ps, table, args);
    } else {
      var rest := AfterRun(ps);
      RunIsText(ps, table);
      Meaning(rest, table, args);
      FormattedSideBySide(Run(ps), CompiledText(rest, table), all);
      FormattedLooksAt(Run(ps), all, 0);
      assert all[..0] == [];
    }
  }

  lemma {:induction false} MeaningOfSlot(ps: seq<Piece>, table: seq<string>, args: seq<F.Arg>)
    requires Settled(ps, table) && |table| <= |args| && Within(Order(ps), 0, |args|)
    requires ps != [] && ps[0].Slot?
    ensures F.Formatted(CompiledText(ps, table), Reordered(Order(ps), args)) == Direct(ps, table, args)
    decreases |ps|, 0
  {
    var k, rest := ps[0].index, ps[1..];
    SlotFirst(ps, args);
    Meaning(rest, table, args);
    var all, text, more := Reordered(Order(ps), args), CompiledText(rest, table), Reordered(Order(rest), args);
    assert CompiledText(ps, table) == table[k] + text;
    assert Direct(ps, table, args) == F.Formatted(table[k], [args[k]]) + Direct(rest, table, args);
    hide *;
    FormattedSideBySide(table[k], text, all);
    DroppedSlice(all, 1);
    FormattedLooksAt(table[k], all, 1);
    assert all[..1] == [args[k]] && all[1..] == more;
  }

  lemma SlotFirst(ps: seq<Piece>, args: seq<F.Arg>)
    requires ps != [] && ps[0].Slot? && Within(Order(ps), 0, |args|)
    ensures ps[0].index < |args| && Within(Order(ps[1..]), 0, |args|)
    ensures Reordered(Order(ps), args) == [args[ps[0].index]] + Reordered(Order(ps[1..]), args)
  {
    var o, rest := Order(ps), Order(ps[1..]);
    assert o == [ps[0].index] + rest;
    hide Order;
    assert o[0] == ps[0].index;
    forall i | 0 <= i < |rest| ensures 0 <= rest[i] < |args| { assert o[i + 1] == rest[i]; }
  }

  lemma {:induction false} SettledIsFloatFree(ps: seq<Piece>, table: seq<string>)
    requires Settled(ps, table)
    ensures F.FloatFree(CompiledText(ps, table))
    decreases |ps|
  {
    if ps == [] {
    } else if ps[0].Slot? {
      SettledIsFloatFree(ps[1..], table);
      FloatFreeSideBySide(table[ps[0].index], CompiledText(ps[1..], table));
    } else {
      RunIsText(ps, table);
      SettledIsFloatFree(AfterRun(ps), table);
      FloatFreeSideBySide(Run(ps), CompiledText(AfterRun(ps), table));
    }
  }

  /** Text without a `%` stands for itself. */
  lemma {:induction false} PlainText(s: string, args: seq<F.Arg>)
    requires '%' !in s
    ensures Takes(s) == Some(0) && F.FloatFree(s) && F.Formatted(s, args) == s
  {
    if s != "" { PlainText(s[1..], args); }
  }

  // ----- the order

  ghost predicate Avoids(order: seq<nat>, used: set<nat>) {
    forall i :: 0 <= i < |order| ==> order[i] !in used
  }

  /** No parameter is placed twice, and none that the format does not declare. */
  lemma {:induction false} EachAtMostOnce(v: string, i: nat, n: nat, used: set<nat>)
    requires Pieces(v, i, n, used).Some?
    ensures var o := Order(Pieces(v, i, n, used).value); Within(o, 0, n) && Distinct(o) && Avoids(o, used)
    decreases |v| - i
  {
    if i < |v| {
      PiecesRound(v, i, n, used);
      var (ps, next, more) := Round(v, i, n, used).value;
      var rest := Pieces(v, next, n, more).value;
      EachAtMostOnce(v, next, n, more);
      OrderAppends(ps, rest);
      OrderOfRound(v, i, n, used);
      hide Pieces, Round, Order;
      OneMore(Order(ps), Order(rest), n, used, more);
    }
  }

  lemma OrderOfRound(v: string, i: nat, n: nat, used: set<nat>)
    requires i < |v| && Round(v, i, n, used).Some?
    ensures var (ps, next, more) := Round(v, i, n, used).value;
            || (Order(ps) == [] && more == used)
            || (exists k: nat :: Order(ps) == [k] && k < n && k !in used && more == used + {k})
  {
    var (ps, next, more) := Round(v, i, n, used).value;
    if ps[0].Slot? { assert ps[1..] == []; assert Order(ps) == [ps[0].index]; }
    else if |ps| == 2 { assert Order(ps[1..]) == [] by { assert ps[1..][1..] == []; } }
    else { assert ps[1..] == []; }
  }

  lemma OneMore(first: seq<nat>, rest: seq<nat>, n: nat, used: set<nat>, more: set<nat>)
    requires (first == [] && more == used) || exists k: nat :: first == [k] && k < n && k !in used && more == used + {k}
    requires Within(rest, 0, n) && Distinct(rest) && Avoids(rest, more)
    ensures Within(first + rest, 0, n) && Distinct(first + rest) && Avoids(first + rest, used)
  {
    if first == [] { assert first + rest == rest; }
  }

  /** Every index declared has its place in the phrase. */
  ghost predicate Named(ps: seq<Piece>, n: nat) {
    forall k: nat :: k < n ==> k in Order(ps)
  }

  /** The compiled order has an argument in every place exactly when every index is named, and
      then it is a permutation. */
  lemma OrderIsPermutation(v: string, table: seq<string>, r: Compiled)
    requires Yields(v, table, r) && r.Done?
    ensures var ps := Pieces(v, 0, |table|, {}).value;
            && ((forall i :: 0 <= i < |table| ==> r.order[i] >= 0) <==> Named(ps, |table|))
            && (Named(ps, |table|) ==> r.order == Order(ps) && Distinct(Order(ps)) && Within(Order(ps), 0, |table|))
  {
    var n := |table|;
    EachAtMostOnce(v, 0, n, {});
    var ps := Pieces(v, 0, n, {}).value;
    var o := Order(ps);
    var order: seq<int> := o;
    hide Order, Pieces;
    if |o| == n {
      forall k: nat | k < n ensures k in o {
        if k !in o { RoomForOneMore(o, 0, n, k); }
      }
      assert r.order[..n] == r.order;
    } else {
      assert r.order[|o|] == -1;
      if Named(ps, n) {
        forall x | 0 <= x < n ensures x in order { var k: nat := x; assert k in o; }
        PlacesForAll(order, 0, n);
      }
    }
  }

  // ----- translating

  /** Puts the arguments in the compiled order and runs the compiled format. None when the order
      has a place without an index: the program then reads before the arguments. */
  method Translate(buffer: array<char>, maxlength: nat, params: array<F.Arg>, phrase: string, fmtOrder: array<int>)
    returns (n: Option<nat>)
    requires 0 < maxlength <= buffer.Length && fmtOrder.Length <= MAX_TRANSLATE_PARAMS
    requires forall i :: 0 <= i < fmtOrder.Length ==> -1 <= fmtOrder[i] < params.Length
    requires F.FloatFree(phrase)
    modifies buffer
    ensures n.None? <==> exists i :: 0 <= i < fmtOrder.Length && fmtOrder[i] == -1
    ensures n.None? ==> buffer[..] == old(buffer[..])
    ensures n.Some? ==>
              && n.value < maxlength && buffer[n.value] == '\0'
              && buffer[..n.value] == F.Fitting(F.Formatted(phrase, Reordered(fmtOrder[..], params[..])), maxlength - 1)
              && forall k :: n.value < k < buffer.Length ==> buffer[k] == old(buffer[k])
  {
    var newParams := new F.Arg[MAX_TRANSLATE_PARAMS](_ => F.NO_ARG);
    for i := 0 to fmtOrder.Length
      invariant forall j :: 0 <= j < i ==> fmtOrder[j] >= 0 && newParams[j] == params[fmtOrder[j]]
      invariant buffer[..] == old(buffer[..])
    {
      if fmtOrder[i] < 0 { return None; }
      newParams[i] := params[fmtOrder[i]];
    }
    assert newParams[..fmtOrder.Length] == Reordered(fmtOrder[..], params[..]);
    var len := F.Gnprintf(buffer, maxlength, phrase, newParams[..fmtOrder.Length]);
    n := Some(len);
  }

  /** What `Compile` and `Translate` come to together, for a phrase that names every index. */
  lemma TranslationSaysThePhrase(v: string, table: seq<string>, r: Compiled, params: seq<F.Arg>)
    requires Yields(v, table, r) && r.Done? && |table| <= |params|
    requires var ps := Pieces(v, 0, |table|, {}).value; Named(ps, |table|) && Settled(ps, table)
    ensures F.FloatFree(r.text) && forall i :: 0 <= i < |r.order| ==> 0 <= r.order[i] < |params|
    ensures F.Formatted(r.text, Reordered(r.order, params)) == Direct(Pieces(v, 0, |table|, {}).value, table, params)
  {
    var ps := Pieces(v, 0, |table|, {}).value;
    OrderIsPermutation(v, table, r);
    assert Within(Order(ps), 0, |params|);
    SettledIsFloatFree(ps, table);
    Meaning(ps, table, params);
  }

  // ----- writing a phrase

  /** A phrase written out: parameters in braces, an open brace behind a backslash. */
  function Written(ps: seq<Piece>): string {
    if ps == [] then "" else WrittenPiece(ps[0]) + Written(ps[1..])
  }

  function WrittenPiece(p: Piece): string {
    match p
    case Lit(c) => if c == '{' then "\\{" else [c]
    case Slot(k) => "{" + F.Digits(k + 1, 10, false) + "}"
  }

  ghost predicate Writable(ps: seq<Piece>, n: nat, used: set<nat>) {
    ps == [] ||
    match ps[0]
    case Lit(c) => c != '\\' && Writable(ps[1..], n, used)
    case Slot(k) => k < n && k !in used && Writable(ps[1..], n, used + {k})
  }

  ghost predicate AllDigits(s: string) {
    forall i :: 0 <= i < |s| ==> IsDigit(s[i])
  }

  lemma {:induction false} DigitsAreDigits(n: nat)
    ensures AllDigits(F.Digits(n, 10, false))
  {
    if n >= 10 { DigitsAreDigits(n / 10); }
  }

  lemma {:induction false} DigitsValueAppends(s: string, c: char, n: int)
    requires AllDigits(s) && IsDigit(c)
    ensures DigitsValue(s + [c], n) == 10 * DigitsValue(s, n) + (c as int - '0' as int)
  {
    if s == "" {
      assert s + [c] == [c] && [c][1..] == "";
    } else {
      assert (s + [c])[1..] == s[1..] + [c];
      DigitsValueAppends(s[1..], c, 10 * n + (s[0] as int - '0' as int));
    }
  }

  lemma {:induction false} StrtolReadsDigits(n: nat)
    ensures DigitsValue(F.Digits(n, 10, false), 0) == n && Strtol(F.Digits(n, 10, false)) == n
  {
    var s := F.Digits(n, 10, false);
    DigitsAreDigits(n);
    assert IsDigit(s[0]);
    if n >= 10 {
      StrtolReadsDigits(n / 10);
      DigitsAreDigits(n / 10);
      DigitsValueAppends(F.Digits(n / 10, 10, false), F.Digit(n % 10, false), 0);
    } else {
      assert s[1..] == "" && DigitsValue(s, 0) == DigitsValue("", n);
    }
  }

  lemma {:induction false} CloseIsAt(v: string, i: nat, j: nat)
    requires i <= j < |v| && v[j] == '}' && forall k :: i <= k < j ==> IsDigit(v[k])
    ensures CloseAt(v, i) == j
    decreases j - i
  {
    if i < j { CloseIsAt(v, i + 1, j); }
  }

  /** A written piece is read as one round. */
  lemma WrittenRound(v: string, i: nat, n: nat, used: set<nat>, p: Piece)
    requires i + |WrittenPiece(p)| <= |v| && v[i..i + |WrittenPiece(p)|] == WrittenPiece(p)
    requires p.Lit? ==> p.c != '\\'
    requires p.Slot? ==> p.index < n && p.index !in used
    ensures i < |v| && Round(v, i, n, used) ==
              Some(([p], i + |WrittenPiece(p)|, if p.Slot? then used + {p.index} else used))
  {
    var w := WrittenPiece(p);
    assert forall k :: 0 <= k < |w| ==> v[i + k] == w[k];
    match p {
      case Lit(c) =>
        assert v[i] == w[0];
        if c == '{' { assert v[i + 1] == w[1]; }
      case Slot(k) =>
        assert v[i] == w[0];
        WrittenSlot(v, i, n, used, k);
    }
  }

  lemma WrittenSlot(v: string, i: nat, n: nat, used: set<nat>, k: nat)
    requires var w := WrittenPiece(Slot(k)); i + |w| <= |v| && forall m :: 0 <= m < |w| ==> v[i + m] == w[m]
    requires k < n && k !in used
    ensures i < |v| && Round(v, i, n, used) == Some(([Slot(k)], i + |WrittenPiece(Slot(k))|, used + {k}))
  {
    var d := F.Digits(k + 1, 10, false);
    var w := WrittenPiece(Slot(k));
    DigitsAreDigits(k + 1);
    StrtolReadsDigits(k + 1);
    hide F.Digits, Strtol, CloseAt, Round;
    var j := i + 1 + |d|;
    assert v[i + 0] == w[0] && v[i + (|d| + 1)] == w[|d| + 1] && w[|d| + 1] == '}';
    forall m | i + 1 <= m < j ensures v[m] == d[m - i - 1] {
      assert w[m - i] == d[m - i - 1];
      assert v[i + (m - i)] == w[m - i];
    }
    assert v[i + 1..j] == d;
    CloseIsAt(v, i + 1, j);
    SlotFound(v, i, n, used, j, k + 1);
  }

  /** Writing a phrase and reading it back gives the same phrase. */
  lemma {:induction false} WrittenReadsBack(ps: seq<Piece>, before: string, n: nat, used: set<nat>)
    requires Writable(ps, n, used)
    ensures Pieces(before + Written(ps), |before|, n, used) == Some(ps)
    decreases |ps|
  {
    hide Pieces, Round, ParamAt;
    if ps == [] {
      assert before + Written(ps) == before;
      PiecesEnd(before, n, used);
    } else {
      var w, more := WrittenPiece(ps[0]), Written(ps[1..]);
      var next := if ps[0].Slot? then used + {ps[0].index} else used;
      assert Written(ps) == w + more && Writable(ps[1..], n, next);
      assert (ps[0].Lit? ==> ps[0].c != '\\') && (ps[0].Slot? ==> ps[0].index < n && ps[0].index !in used);
      hide *;
      WrittenSplits(before, w, more);
      WrittenReadsBack(ps[1..], before + w, n, next);
      WrittenRound(before + w + more, |before|, n, used, ps[0]);
      PiecesRound(before + w + more, |before|, n, used);
      assert Pieces(before + w + more, |before| + |w|, n, next) == Some(ps[1..]);
      PrependRest(ps);
    }
  }

  lemma PrependRest(ps: seq<Piece>)
    requires ps != []
    ensures Prepend([ps[0]], Some(ps[1..])) == Some(ps)
  {
    assert [ps[0]] + ps[1..] == ps;
  }

  lemma WrittenSplits(before: string, w: string, more: string)
    ensures before + (w + more) == before + w + more
    ensures (before + w + more)[|before|..|before| + |w|] == w
  {}
}
