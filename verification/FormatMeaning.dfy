/**
 What a directive shows of its argument, said apart from how it is written: as something to be read.
 */
module FormatMeaning {
  import opened Common
  import opened Format

  const LOWER := "0123456789abcdef"
  const UPPER := "0123456789ABCDEF"

  // ----- numbers as they are read

  /** The numeral for `n`: digits of the base, in the case asked for, without a zero in front. */
  ghost predicate Numeral(s: string, n: int, base: nat, upper: bool)
    requires base <= 16
  {
    && s != "" && (forall k :: 0 <= k < |s| ==> s[k] in (if upper then UPPER else LOWER)[..base])
    && (|s| > 1 ==> s[0] != '0') && Value(s, base) == n
  }

  /** A decimal numeral, with a minus sign in front if the number is below zero. */
  ghost predicate SignedNumeral(s: string, v: int) {
    if v < 0 then s != "" && s[0] == '-' && Numeral(s[1..], -v, 10, false) else Numeral(s, v, 10, false)
  }

  lemma DigitIn(d: nat, base: nat, upper: bool)
    requires d < base <= 16
    ensures Digit(d, upper) in (if upper then UPPER else LOWER)[..base]
    ensures Digit(d, upper) == '0' <==> d == 0
  {
    var all := if upper then UPPER else LOWER;
    assert all[..base][d] == all[d];
    assert all[d] == Digit(d, upper);
  }

  lemma {:induction false} DigitsAreNumeral(n: nat, base: nat, upper: bool)
    requires 2 <= base <= 16
    ensures Numeral(Digits(n, base, upper), n, base, upper)
    ensures n > 0 ==> Digits(n, base, upper)[0] != '0'
    decreases n
  {
    hide Digit, DigitValue, Value;
    DigitsReadBack(n, base, upper);
    QuotientAndRest(n, base);
    DigitIn(n % base, base, upper);
    if n < base {
      DigitIn(n, base, upper);
    } else {
      var q := n / base;
      DigitsAreNumeral(q, base, upper);
      var s, c := Digits(q, base, upper), Digit(n % base, upper);
      assert q > 0 && Digits(n, base, upper) == s + [c];
      forall k | 0 <= k < |s| + 1 ensures (s + [c])[k] in (if upper then UPPER else LOWER)[..base] {
        if k < |s| { assert (s + [c])[k] == s[k]; }
      }
    }
  }

  lemma SignedIsNumeral(v: int)
    ensures SignedNumeral(SignedText(v), v)
  {
    DigitsAreNumeral(if v < 0 then -v else v, 10, false);
    hide Numeral, Digits;
    if v < 0 { assert ("-" + Digits(-v, 10, false))[1..] == Digits(-v, 10, false); }
  }

  // ----- fields

  /** The text at one end of its field, the rest of the field filled: at its right end, or to the left, where a text
      wider than the field is followed by nearly 2^32 fillers. */
  ghost predicate InField(field: string, text: string, width: nat, left: bool, fill: char) {
    && |field| == (if |text| <= width then width else if left then WORD + width else |text|)
    && |text| <= |field|
    && if left
       then field[..|text|] == text && forall k :: |text| <= k < |field| ==> field[k] == fill
       else field[|field| - |text|..] == text && forall k :: 0 <= k < |field| - |text| ==> field[k] == fill
  }

  lemma PaddedInField(text: string, width: nat, left: bool, zero: bool)
    requires |text| < WORD
    ensures InField(Padded(text, width, left, zero), text, width, left, if zero then '0' else ' ')
  {
    PaddedExactly(text, width, left, zero, 0);
    var w: int := width - |text|;
    assert w < 0 ==> w % WORD == w + WORD;
  }

  /** The bits of the cell as a number without a sign, and as one with. */
  predicate Unsigned(cell: int, n: int) {
    0 <= n < WORD && (n - cell) % WORD == 0
  }

  predicate Signed(cell: int, v: int) {
    -WORD / 2 <= v < WORD / 2 && (v - cell) % WORD == 0
  }

  lemma CellIsUnsigned(a: Arg)
    ensures Unsigned(a.cell, UnsignedCell(a))
  {}

  lemma CellIsSigned(a: Arg)
    ensures Signed(a.cell, SignedCell(a))
  {}

  ghost predicate ShowsUnsigned(field: string, d: Directive, cell: int, base: nat, upper: bool)
    requires base <= 16
  {
    exists text: string, n: int ::
      && Unsigned(cell, n) && Numeral(text, n, base, upper)
      && InField(field, text, d.width, d.left, if d.zero then '0' else ' ')
  }

  ghost predicate ShowsSigned(field: string, d: Directive, cell: int) {
    exists text: string, v: int ::
      && Signed(cell, v) && SignedNumeral(text, v)
      && InField(field, text, d.width, d.left, if d.zero then '0' else ' ')
  }

  /** A string is at the left end of its field whatever the flags say, cut to the precision if there is one. */
  ghost predicate ShowsString(field: string, d: Directive, text: Option<string>) {
    var s := if text.None? then "(null)" else text.value;
    var n := if text.Some? && 0 <= d.prec < |s| then d.prec else |s|;
    && |field| == (if n < d.width then d.width else n)
    && field[..n] == s[..n] && forall k :: n <= k < |field| ==> field[k] == ' '
  }

  /** What the field of a directive shows of its argument. */
  ghost predicate Shows(field: string, d: Directive, c: char, a: Arg) {
    match c
    case 'c' => |field| == 1 && (field[0] as int - a.cell) % 256 == 0 && field[0] as int < 256
    case 's' => ShowsString(field, d, a.text)
    case 'd' => ShowsSigned(field, d, a.cell)
    case 'i' => ShowsSigned(field, d, a.cell)
    case 'u' => ShowsUnsigned(field, d, a.cell, 10, false)
    case 'b' => ShowsUnsigned(field, d, a.cell, 2, false)
    case 'x' => ShowsUnsigned(field, d, a.cell, 16, false)
    case 'X' => ShowsUnsigned(field, d, a.cell, 16, true)
    case _ => true
  }

  lemma UnsignedShown(d: Directive, a: Arg, base: nat, upper: bool)
    requires 2 <= base <= 16
    ensures ShowsUnsigned(Padded(Digits(UnsignedCell(a), base, upper), d.width, d.left, d.zero), d, a.cell, base, upper)
  {
    hide Padded, Digits, Numeral, InField, Unsigned;
    var text, n := Digits(UnsignedCell(a), base, upper), UnsignedCell(a);
    CellIsUnsigned(a);
    DigitsAreNumeral(n, base, upper);
    AtMost32(n, base, upper);
    PaddedInField(text, d.width, d.left, d.zero);
  }

  lemma SignedShown(d: Directive, a: Arg)
    ensures ShowsSigned(Padded(SignedText(SignedCell(a)), d.width, d.left, d.zero), d, a.cell)
  {
    hide Padded, SignedText, SignedNumeral, InField, Signed;
    var v := SignedCell(a);
    CellIsSigned(a);
    SignedIsNumeral(v);
    SignedFits(v);
    PaddedInField(SignedText(v), d.width, d.left, d.zero);
  }

  lemma StringShown(d: Directive, text: Option<string>)
    ensures ShowsString(StringField(text, d.width, d.prec), d, text)
  {}

  lemma CharShown(a: Arg)
    ensures (CharCell(a) as int - a.cell) % 256 == 0 && CharCell(a) as int < 256
  {}

  lemma ConvertedShows(d: Directive, c: char, a: Arg)
    requires TakesArgument(c)
    ensures Shows(Converted(d, c, a), d, c, a)
  {
    hide Padded, Digits, SignedText, StringField, ShowsUnsigned, ShowsSigned, ShowsString;
    UnsignedShown(d, a, 2, false);
    UnsignedShown(d, a, 10, false);
    UnsignedShown(d, a, 16, false);
    UnsignedShown(d, a, 16, true);
    SignedShown(d, a);
    StringShown(d, a.text);
    CharShown(a);
  }

  // ----- directives as they are written

  /** Flags, width, precision and the conversion; a width or precision that is not there is 0 or below zero. */
  function Written(left: bool, zero: bool, width: nat, prec: int, c: char): string {
    (if left then "-" else "") + (if zero then "0" else "") +
    (if width > 0 then Digits(width, 10, false) else "") +
    (if prec >= 0 then "." + Digits(prec, 10, false) else "") + [c]
  }

  /** Not a flag, a point or a digit. */
  predicate Converts(c: char) {
    c != '-' && c != '.' && !IsDigit(c)
  }

  ghost predicate AllDigits(s: string) {
    forall i :: 0 <= i < |s| ==> IsDigit(s[i])
  }

  lemma DecimalDigits(n: nat)
    ensures AllDigits(Digits(n, 10, false))
    ensures n > 0 ==> Digits(n, 10, false)[0] != '0'
  {
    DigitsAreNumeral(n, 10, false);
    var s := Digits(n, 10, false);
    hide Digits, Value;
    forall i | 0 <= i < |s| ensures IsDigit(s[i]) {
      assert s[i] in LOWER[..10];
      assert forall k :: 0 <= k < 10 ==> IsDigit(LOWER[k]);
    }
  }

  /** Digits read after a number: each is one place more. */
  lemma {:induction false} NumberOn(s: string, t: string, n: nat)
    requires AllDigits(s) && (t != "" ==> !IsDigit(t[0])) && Value(s, 10) >= 0
    ensures Number(s + t, n) == (n * Power10(|s|) + Value(s, 10), t)
    decreases |s|
  {
    if s == "" {
      assert s + t == t;
    } else {
      var front, c := s[0] as int - '0' as int, s[1..];
      assert (s + t)[0] == s[0] && (s + t)[1..] == c + t;
      ValueInFront(s);
      NumberOn(c, t, 10 * n + front);
      Places(n, front, Power10(|c|));
    }
  }

  lemma Places(n: nat, d: nat, p: nat)
    ensures (10 * n + d) * p == n * (10 * p) + d * p
  {}

  function Power10(k: nat): nat {
    if k == 0 then 1 else 10 * Power10(k - 1)
  }

  /** The value of a numeral, its first digit taken apart. */
  lemma {:induction false} ValueInFront(s: string)
    requires s != "" && AllDigits(s)
    ensures Value(s[1..], 10) >= 0
    ensures Value(s, 10) == (s[0] as int - '0' as int) * Power10(|s| - 1) + Value(s[1..], 10)
    decreases |s|
  {
    var init, last := s[..|s| - 1], s[|s| - 1];
    assert DigitValue(last) == last as int - '0' as int;
    if |s| == 1 {
      assert s[1..] == "" && init == "";
    } else {
      ValueInFront(init);
      assert s[1..] == init[1..] + [last] && init[0] == s[0];
      ValueBehind(init[1..], last, 10);
      Places10(s[0] as int - '0' as int, Power10(|s| - 2), Value(init[1..], 10));
    }
  }

  lemma Places10(d: int, p: nat, v: int)
    ensures (d * p + v) * 10 == d * (10 * p) + v * 10
  {}

  lemma NumberReads(n: nat, t: string)
    requires t != "" ==> !IsDigit(t[0])
    ensures Number(Digits(n, 10, false) + t, 0) == (n, t)
  {
    DecimalDigits(n);
    DigitsReadBack(n, 10, false);
    NumberOn(Digits(n, 10, false), t, 0);
  }

  lemma ReadStep(fmt: string, d: Directive)
    requires fmt != ""
    ensures fmt[0] == '-' ==> ReadDirective(fmt, d) == ReadDirective(fmt[1..], d.(left := true))
    ensures fmt[0] == '0' ==> ReadDirective(fmt, d) == ReadDirective(fmt[1..], d.(zero := true))
    ensures fmt[0] == '.' ==>
              ReadDirective(fmt, d) == ReadDirective(Number(fmt[1..], 0).1, d.(prec := Number(fmt[1..], 0).0))
    ensures IsDigit(fmt[0]) && fmt[0] != '0' ==>
              ReadDirective(fmt, d) == ReadDirective(Number(fmt, 0).1, d.(width := Number(fmt, 0).0))
    ensures Converts(fmt[0]) ==> ReadDirective(fmt, d) == d.(conv := Some(fmt[0]), rest := fmt[1..])
  {
    hide Number;
    if IsDigit(fmt[0]) {
      assert Number(fmt, 0) == Number(fmt[1..], fmt[0] as int - '0' as int) by { NumberFirst(fmt); }
    }
  }

  lemma NumberFirst(fmt: string)
    requires fmt != "" && IsDigit(fmt[0])
    ensures Number(fmt, 0) == Number(fmt[1..], fmt[0] as int - '0' as int)
  {}

  lemma PrecisionReads(d: Directive, prec: int, c: char, more: string)
    requires Converts(c) && d.prec == -1 && (prec >= -1)
    ensures ReadDirective((if prec >= 0 then "." + Digits(prec, 10, false) else "") + ([c] + more), d) ==
            d.(prec := prec, conv := Some(c), rest := more)
  {
    hide ReadDirective, Number, Digits;
    var end := [c] + more;
    assert end[0] == c && end[1..] == more;
    ReadStep(end, d.(prec := prec));
    if prec >= 0 {
      NumberReads(prec, end);
      PointReads(d, Digits(prec, 10, false) + end);
      assert ("." + Digits(prec, 10, false)) + end == "." + (Digits(prec, 10, false) + end);
    } else {
      assert "" + end == end;
    }
  }

  lemma PointReads(d: Directive, tail: string)
    ensures ReadDirective("." + tail, d) == ReadDirective(Number(tail, 0).1, d.(prec := Number(tail, 0).0))
  {
    hide ReadDirective, Number;
    ReadStep("." + tail, d);
    assert ("." + tail)[1..] == tail;
  }

  lemma WidthReads(d: Directive, width: nat, tail: string)
    requires d.width == 0 && (tail != "" ==> !IsDigit(tail[0]))
    ensures ReadDirective((if width > 0 then Digits(width, 10, false) else "") + tail, d) ==
            ReadDirective(tail, d.(width := width))
  {
    hide ReadDirective, Number, Digits;
    if width > 0 {
      var s := Digits(width, 10, false);
      DecimalDigits(width);
      ReadStep(s + tail, d);
      NumberReads(width, tail);
    } else {
      assert "" + tail == tail;
    }
  }

  lemma Grouped(a: string, b: string, w: string, p: string, c: string, more: string)
    ensures a + b + w + p + c + more == a + (b + (w + (p + (c + more))))
  {}

  lemma FlagsRead(left: bool, zero: bool, tail: string)
    ensures ReadDirective((if left then "-" else "") + ((if zero then "0" else "") + tail), PLAIN) ==
            ReadDirective(tail, PLAIN.(left := left, zero := zero))
  {
    hide ReadDirective;
    var back := (if zero then "0" else "") + tail;
    if zero { ReadStep(back, PLAIN.(left := left)); assert back[1..] == tail; } else { assert back == tail; }
    if left { ReadStep("-" + back, PLAIN); assert ("-" + back)[1..] == back; } else { assert "" + back == back; }
  }

  /** A directive reads back as it was written. */
  lemma DirectiveReadsBack(left: bool, zero: bool, width: nat, prec: int, c: char, more: string)
    requires Converts(c) && prec >= -1
    ensures ReadDirective(Written(left, zero, width, prec, c) + more, PLAIN) ==
            Directive(left, zero, width, prec, Some(c), more)
  {
    hide ReadDirective, Digits;
    var w, p := if width > 0 then Digits(width, 10, false) else "", if prec >= 0 then "." + Digits(prec, 10, false)
        else "";
    var end := p + ([c] + more);
    Grouped(if left then "-" else "", if zero then "0" else "", w, p, [c], more);
    FlagsRead(left, zero, w + end);
    WidthReads(PLAIN.(left := left, zero := zero), width, end);
    PrecisionReads(PLAIN.(left := left, zero := zero, width := width), prec, c, more);
  }

  /** A directive stands for a field that shows its argument as it asks, and what follows it for what it would
      alone. */
  lemma DirectiveMeans(left: bool, zero: bool, width: nat, prec: int, c: char, more: string, a: Arg, args: seq<Arg>)
    returns (field: string)
    requires TakesArgument(c) && prec >= -1
    ensures Formatted("%" + Written(left, zero, width, prec, c) + more, [a] + args) == field + Formatted(more, args)
    ensures Shows(field, Directive(left, zero, width, prec, Some(c), more), c, a)
  {
    var d := Directive(left, zero, width, prec, Some(c), more);
    var w := Written(left, zero, width, prec, c) + more;
    var fmt := "%" + w;
    hide Converted, ReadDirective, Formatted, Written, Shows;
    assert "%" + Written(left, zero, width, prec, c) + more == fmt && fmt[1..] == w;
    DirectiveReadsBack(left, zero, width, prec, c, more);
    FormattedRound(fmt, [a] + args);
    assert Tail([a] + args) == args;
    field := Converted(d, c, a);
    ConvertedShows(d, c, a);
  }

  /** Any other character after a percent sign, with or without flags, stands for itself and takes no argument; a
      percent sign at the end of the format stands for itself too. */
  lemma OtherDirective(left: bool, zero: bool, width: nat, prec: int, c: char, more: string, args: seq<Arg>)
    requires Converts(c) && !TakesArgument(c) && c != 'f' && prec >= -1
    ensures Formatted("%" + Written(left, zero, width, prec, c) + more, args) == [c] + Formatted(more, args)
    ensures Formatted("%", args) == "%"
  {
    var w := Written(left, zero, width, prec, c) + more;
    var fmt := "%" + w;
    hide Converted, ReadDirective, Formatted, Written;
    assert "%" + Written(left, zero, width, prec, c) + more == fmt && fmt[1..] == w;
    DirectiveReadsBack(left, zero, width, prec, c, more);
    FormattedRound(fmt, args);
    LonePercent(args);
  }

  lemma LonePercent(args: seq<Arg>)
    ensures Formatted("%", args) == "%"
  {
    assert "%"[1..] == "";
  }

  /** The fill goes in front of a sign, zeros too. */
  lemma ZerosBeforeSign()
    ensures Formatted("%04d", [Arg(-5, None)]) == "00-5"
  {
    var a, d := Arg(-5, None), Directive(false, true, 4, -1, Some('d'), "");
    assert ReadDirective("04d", PLAIN) == d by { FourReads(); }
    assert "%04d"[1..] == "04d";
    FormattedRound("%04d", [a]);
    assert SignedCell(a) == -5 && SignedText(-5) == "-5";
    hide ReadDirective, SignedText, SignedCell;
    assert Padded("-5", 4, false, true) == "00-5";
    assert Formatted("", []) == "";
  }

  lemma FourReads()
    ensures ReadDirective("04d", PLAIN) == Directive(false, true, 4, -1, Some('d'), "")
  {
    hide ReadDirective;
    assert Digits(4, 10, false) == "4";
    assert Written(false, true, 4, -1, 'd') == "04d" && "04d" + "" == "04d";
    DirectiveReadsBack(false, true, 4, -1, 'd', "");
  }
}
