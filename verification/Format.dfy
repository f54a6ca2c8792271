/**
 `gnprintf`: the formatter for translated phrases, and the helpers that write numbers and strings.

 `Formatted` is the whole text a format string stands for. The formatter writes as much of it
 as the buffer holds, through helpers that each write as much as they have room for.
 Conversions of floats are not part of this model.
 */
module Format {
  import opened Common

  const WORD := 0x1_0000_0000

  /** What a parameter pointer refers to: a 32-bit cell, or a C string (possibly NULL). */
  datatype Arg = Arg(cell: int, text: Option<string>)

  const NO_ARG := Arg(0, None)

  function SignedCell(a: Arg): int {
    if a.cell % WORD >= WORD / 2 then a.cell % WORD - WORD else a.cell % WORD
  }

  function UnsignedCell(a: Arg): nat {
    a.cell % WORD
  }

  function CharCell(a: Arg): char {
    (a.cell % 256) as char
  }

  // ----- digits

  function Digit(d: nat, upper: bool): char
    requires d < 16
  {
    if d < 10 then ('0' as int + d) as char else ((if upper then 'A' as int else 'a' as int) + d - 10) as char
  }

  function Digits(n: nat, base: nat, upper: bool): (s: string)
    requires 2 <= base <= 16
    ensures |s| > 0
    decreases n
  {
    if n < base then [Digit(n, upper)] else Digits(n / base, base, upper) + [Digit(n % base, upper)]
  }

  function DigitValue(c: char): int {
    if '0' <= c <= '9' then c as int - '0' as int
    else if 'a' <= c <= 'f' then c as int - 'a' as int + 10
    else c as int - 'A' as int + 10
  }

  function Value(s: string, base: nat): int {
    if s == "" then 0 else Value(s[..|s| - 1], base) * base + DigitValue(s[|s| - 1])
  }

  lemma DigitReadsBack(d: nat, upper: bool)
    requires d < 16
    ensures DigitValue(Digit(d, upper)) == d
  {}

  lemma ValueBehind(s: string, c: char, base: nat)
    ensures Value(s + [c], base) == Value(s, base) * base + DigitValue(c)
  {
    assert (s + [c])[..|s|] == s;
  }

  lemma QuotientAndRest(n: nat, base: nat)
    requires base >= 2
    ensures n / base * base + n % base == n && 0 <= n % base < base && (n > 0 ==> n / base < n)
  {}

  lemma OneMoreDigit(q: nat, d: nat, base: nat, upper: bool)
    requires 2 <= base <= 16 && d < 16 && Value(Digits(q, base, upper), base) == q
    ensures Value(Digits(q, base, upper) + [Digit(d, upper)], base) == q * base + d
  {
    hide Digits, Value, Digit, DigitValue;
    ValueBehind(Digits(q, base, upper), Digit(d, upper), base);
    DigitReadsBack(d, upper);
  }

  lemma FirstDigit(d: nat, base: nat, upper: bool)
    requires d < 16
    ensures Value([Digit(d, upper)], base) == d
  {
    DigitReadsBack(d, upper);
    assert [Digit(d, upper)][..0] == "";
    hide Digit, DigitValue;
  }

  /** The digits written for a number read back as that number. */
  lemma {:induction false} DigitsReadBack(n: nat, base: nat, upper: bool)
    requires 2 <= base <= 16
    ensures Value(Digits(n, base, upper), base) == n
    decreases n
  {
    hide Digit, DigitValue, Value;
    QuotientAndRest(n, base);
    if n < base {
      FirstDigit(n, base, upper);
    } else {
      DigitsReadBack(n / base, base, upper);
      OneMoreDigit(n / base, n % base, base, upper);
    }
  }

  function Power2(k: nat): nat {
    if k == 0 then 1 else 2 * Power2(k - 1)
  }

  lemma {:induction false} DigitsFit(n: nat, base: nat, upper: bool, k: nat)
    requires 2 <= base <= 16 && k >= 1 && n < Power2(k)
    ensures |Digits(n, base, upper)| <= k
    decreases n
  {
    if n >= base {
      PowerOne();
      HalfBound(n, base, k);
      DigitsFit(n / base, base, upper, k - 1);
    }
  }

  lemma PowerOne()
    ensures Power2(1) == 2
  {}

  lemma HalfBound(n: nat, base: nat, k: nat)
    requires base >= 2 && k >= 1 && n < Power2(k)
    ensures n / base < Power2(k - 1)
  {
    var q := n / base;
    assert q * base <= n;
    assert q * base >= q * 2;
  }

  function Repeat(c: char, n: nat): (s: string)
    ensures |s| == n && forall i :: 0 <= i < n ==> s[i] == c
  {
    seq(n, _ => c)
  }

  /** What a width counter `w` still lets through: below zero it counts down past zero. */
  function PadCount(w: int): nat {
    if w >= 0 then w else w % WORD
  }

  /** A number in its field. To the left the field only grows to its width; to the right a
      number wider than its field is followed by padding without end. */
  function Padded(text: string, width: int, left: bool, zero: bool): string {
    var c := if zero then '0' else ' ';
    if left then text + Repeat(c, PadCount(width - |text|))
    else Repeat(c, if width > |text| then width - |text| else 0) + text
  }

  /** A field is as wide as its width or its text says, unless the text is wider and goes to the left:
      then the padding behind it fills all the room there is. */
  lemma PaddedExactly(text: string, width: nat, left: bool, zero: bool, room: nat)
    requires |text| < WORD
    ensures var n := |Padded(text, width, left, zero)|;
            && (n == (if width > |text| then width else |text|) <==> !(left && width < |text|))
            && (left && width < |text| ==> n == WORD + width)
    ensures left && width < |text| && room <= WORD + width ==>
              |Fitting(Padded(text, width, left, zero), room)| == room
  {
    if width < |text| {
      var w: int := width - |text|;
      assert w % WORD == w + WORD;
    }
  }

  function SignedText(v: int): string {
    if v < 0 then "-" + Digits(-v, 10, false) else Digits(v, 10, false)
  }

  /** The string a field shows, before padding. */
  function Shown(text: Option<string>, prec: int): string {
    if text.None? then "(null)" else if 0 <= prec < |text.value| then text.value[..prec] else text.value
  }

  /** A string in its field: cut to the precision, then padded on the right. */
  function StringField(text: Option<string>, width: int, prec: int): string {
    var s := Shown(text, prec);
    s + Repeat(' ', if width > |s| then width - |s| else 0)
  }

  // ----- directives

  /** A directive after its `%`: flags, width, precision, and the character that ends it
      (none when the format ends first). */
  datatype Directive = Directive(left: bool, zero: bool, width: nat, prec: int, conv: Option<char>, rest: string)

  /** A run of digits, and what follows it. */
  function Number(fmt: string, n: nat): (nat, string) {
    if fmt == "" || !IsDigit(fmt[0]) then (n, fmt)
    else Number(fmt[1..], 10 * n + (fmt[0] as int - '0' as int))
  }

  lemma {:induction false} NumberShrinks(fmt: string, n: nat)
    ensures |Number(fmt, n).1| <= |fmt|
  {
    if fmt != "" && IsDigit(fmt[0]) {
      NumberShrinks(fmt[1..], 10 * n + (fmt[0] as int - '0' as int));
    }
  }

  function ReadDirective(fmt: string, d: Directive): Directive
    decreases |fmt|
  {
    if fmt == "" then d.(conv := None, rest := "")
    else if fmt[0] == '-' then ReadDirective(fmt[1..], d.(left := true))
    else if fmt[0] == '.' then
      NumberShrinks(fmt[1..], 0);
      var (n, rest) := Number(fmt[1..], 0);
      ReadDirective(rest, d.(prec := n))
    else if fmt[0] == '0' then ReadDirective(fmt[1..], d.(zero := true))
    else if IsDigit(fmt[0]) then
      NumberShrinks(fmt[1..], fmt[0] as int - '0' as int);
      var (n, rest) := Number(fmt[1..], fmt[0] as int - '0' as int);
      ReadDirective(rest, d.(width := n))
    else d.(conv := Some(fmt[0]), rest := fmt[1..])
  }

  const PLAIN := Directive(false, false, 0, -1, None, "")

  lemma {:induction false} DirectiveShrinks(fmt: string, d: Directive)
    ensures |ReadDirective(fmt, d).rest| <= |fmt|
    ensures fmt != "" ==> |ReadDirective(fmt, d).rest| < |fmt|
    decreases |fmt|
  {
    if fmt == "" {
    } else if fmt[0] == '-' {
      DirectiveShrinks(fmt[1..], d.(left := true));
    } else if fmt[0] == '.' {
      NumberShrinks(fmt[1..], 0);
      var (n, rest) := Number(fmt[1..], 0);
      DirectiveShrinks(rest, d.(prec := n));
    } else if fmt[0] == '0' {
      DirectiveShrinks(fmt[1..], d.(zero := true));
    } else if IsDigit(fmt[0]) {
      NumberShrinks(fmt[1..], fmt[0] as int - '0' as int);
      var (n, rest) := Number(fmt[1..], fmt[0] as int - '0' as int);
      DirectiveShrinks(rest, d.(width := n));
    }
  }

  predicate TakesArgument(c: char) {
    c in "cbdiusXx"
  }

  function Converted(d: Directive, c: char, a: Arg): string
    requires TakesArgument(c)
  {
    match c
    case 'c' => [CharCell(a)]
    case 'b' => Padded(Digits(UnsignedCell(a), 2, false), d.width, d.left, d.zero)
    case 'u' => Padded(Digits(UnsignedCell(a), 10, false), d.width, d.left, d.zero)
    case 's' => StringField(a.text, d.width, d.prec)
    case 'X' => Padded(Digits(UnsignedCell(a), 16, true), d.width, d.left, d.zero)
    case 'x' => Padded(Digits(UnsignedCell(a), 16, false), d.width, d.left, d.zero)
    case _ => Padded(SignedText(SignedCell(a)), d.width, d.left, d.zero)
  }

  function Head(args: seq<Arg>): Arg {
    if args == [] then NO_ARG else args[0]
  }

  function Tail(args: seq<Arg>): seq<Arg> {
    if args == [] then [] else args[1..]
  }

  /** The whole text a format stands for. */
  function Formatted(fmt: string, args: seq<Arg>): string
    decreases |fmt|
  {
    if fmt == "" then ""
    else if fmt[0] != '%' then [fmt[0]] + Formatted(fmt[1..], args)
    else
      DirectiveShrinks(fmt[1..], PLAIN);
      var d := ReadDirective(fmt[1..], PLAIN);
      if d.conv.None? then "%"
      else if TakesArgument(d.conv.value) then
        Converted(d, d.conv.value, Head(args)) + Formatted(d.rest, Tail(args))
      else [d.conv.value] + Formatted(d.rest, args)
  }

  /** No directive of the format converts a float. */
  predicate FloatFree(fmt: string)
    decreases |fmt|
  {
    if fmt == "" then true
    else if fmt[0] != '%' then FloatFree(fmt[1..])
    else
      DirectiveShrinks(fmt[1..], PLAIN);
      var d := ReadDirective(fmt[1..], PLAIN);
      d.conv == None || (d.conv != Some('f') && FloatFree(d.rest))
  }

  // ----- writing

  /** As much of `s` as `room` allows. */
  function Fitting(s: string, room: nat): string {
    if |s| <= room then s else s[..room]
  }

  /** What a smaller buffer gets is the beginning of what a larger one gets. */
  lemma SmallerBufferGetsPrefix(fmt: string, args: seq<Arg>, small: nat, large: nat)
    requires small <= large
    ensures Fitting(Formatted(fmt, args), small) <= Fitting(Formatted(fmt, args), large)
  {
    var s := Formatted(fmt, args);
    if |s| > small { assert Fitting(s, large)[..small] == s[..small]; }
  }

  lemma FittingParts(a: string, b: string, room: nat)
    ensures |Fitting(a, room)| <= room
    ensures Fitting(a + b, room) == Fitting(a, room) + Fitting(b, room - |Fitting(a, room)|)
  {}

  /** One padding or copying loop: while the counter runs and there is room. Every writing
      helper leaves what was written before it, followed by as much of its own text as fits,
      touches nothing behind that, and keeps the sum of what is written and what is left. */
  method PutRepeated(buf: array<char>, from: nat, room: nat, c: char, count: nat) returns (to: nat, left: nat)
    requires from + room <= buf.Length
    modifies buf
    ensures to + left == from + room && to <= buf.Length
    ensures buf[..to] == old(buf[..from]) + Fitting(Repeat(c, count), room)
    ensures forall k :: to <= k < buf.Length ==> buf[k] == old(buf[k])
  {
    to, left := from, room;
    var width := count;
    while width > 0 && left > 0
      invariant to + left == from + room && 0 <= width && width + (to - from) == count && from <= to
      invariant buf[..to] == old(buf[..from]) + Repeat(c, to - from)
      invariant forall k :: to <= k < buf.Length ==> buf[k] == old(buf[k])
    {
      buf[to] := c;
      assert buf[..to + 1] == buf[..to] + [c];
      assert Repeat(c, to + 1 - from) == Repeat(c, to - from) + [c];
      to, left, width := to + 1, left - 1, width - 1;
    }
    RepeatTake(c, count, to - from);
  }

  lemma RepeatTake(c: char, n: nat, k: nat)
    requires k <= n
    ensures Repeat(c, n)[..k] == Repeat(c, k)
    ensures Repeat(c, n)[..n] == Repeat(c, n)
  {}

  method PutText(buf: array<char>, from: nat, room: nat, s: string) returns (to: nat, left: nat)
    requires from + room <= buf.Length
    modifies buf
    ensures to + left == from + room && to <= buf.Length
    ensures buf[..to] == old(buf[..from]) + Fitting(s, room)
    ensures forall k :: to <= k < buf.Length ==> buf[k] == old(buf[k])
  {
    to, left := from, room;
    var size := if |s| > room then room else |s|;
    left := left - size;
    var k := 0;
    while k < size
      invariant 0 <= k <= size && to == from + k
      invariant buf[..to] == old(buf[..from]) + s[..k]
      invariant forall i :: to <= i < buf.Length ==> buf[i] == old(buf[i])
    {
      buf[to] := s[k];
      assert buf[..to + 1] == buf[..to] + [s[k]];
      to, k := to + 1, k + 1;
    }
  }

  method MeasureString(text: Option<string>, prec: int) returns (s: string)
    ensures s == Shown(text, prec)
  {
    if text.None? { return "(null)"; }
    s := text.value;
    if prec >= 0 {
      var size := 0;
      while size < prec && size < |s|
        invariant 0 <= size <= |s| && size <= prec
      {
        size := size + 1;
      }
      assert s[..|s|] == s;
      s := s[..size];
    }
  }

  method AddString(buf: array<char>, from: nat, room: nat, text: Option<string>, width: int, prec: int)
    returns (to: nat, left: nat)
    requires from + room <= buf.Length
    modifies buf
    ensures to + left == from + room && to <= buf.Length
    ensures buf[..to] == old(buf[..from]) + Fitting(StringField(text, width, prec), room)
    ensures forall k :: to <= k < buf.Length ==> buf[k] == old(buf[k])
  {
    var s := MeasureString(text, prec);
    var pad := if width - |s| > 0 then width - |s| else 0;
    FittingParts(s, Repeat(' ', pad), room);
    assert StringField(text, width, prec) == s + Repeat(' ', pad);
    ghost var before := buf[..from];
    hide StringField, Repeat, Fitting, Shown;
    to, left := PutText(buf, from, room, s);
    assert left == room - |Fitting(s, room)|;
    to, left := PutRepeated(buf, to, left, ' ', pad);
    Join(before, Fitting(s, room), Fitting(Repeat(' ', pad), room - |Fitting(s, room)|));
  }

  lemma Join(a: string, b: string, c: string)
    ensures a + b + c == a + (b + c)
  {}

  /** The digits of a number, last digit first, as the `text` buffers of the helpers hold them. */
  method DigitsBackwards(text: array<char>, n: nat, base: nat, upper: bool) returns (digits: nat)
    requires text.Length == 32 && n < WORD && 2 <= base <= 16
    modifies text
    ensures 0 < digits <= 32 && digits == |Digits(n, base, upper)|
    ensures forall i :: 0 <= i < digits ==> text[i] == Digits(n, base, upper)[digits - 1 - i]
  {
    hide Digit, Digits;
    AtMost32(n, base, upper);
    ghost var all := Digits(n, base, upper);
    digits := 0;
    var val := n;
    while true
      invariant val >= 0 && digits + |Digits(val, base, upper)| == |all|
      invariant Digits(val, base, upper) == all[..|all| - digits]
      invariant forall i :: 0 <= i < digits ==> text[i] == all[|all| - 1 - i]
      decreases val
    {
      ghost var now := Digits(val, base, upper);
      LastDigit(val, base, upper);
      QuotientAndRest(val, base);
      var rest, digit := val / base, val % base;
      text[digits] := Digit(digit, upper);
      assert all[|all| - 1 - digits] == now[|now| - 1];
      digits := digits + 1;
      if val < base { break; }
      val := rest;
    }
  }

  lemma AtMost32(n: nat, base: nat, upper: bool)
    requires n < WORD && 2 <= base <= 16
    ensures |Digits(n, base, upper)| <= 32
  {
    WordIsPower();
    DigitsFit(n, base, upper, 32);
  }

  lemma LastDigit(n: nat, base: nat, upper: bool)
    requires 2 <= base <= 16
    ensures var s := Digits(n, base, upper);
            && s[|s| - 1] == Digit(n % base, upper)
            && (if n < base then |s| == 1 else s[..|s| - 1] == Digits(n / base, base, upper))
  {
    var s := Digits(n, base, upper);
    hide Digit;
    if n < base {
      assert n % base == n;
    } else {
      assert s == Digits(n / base, base, upper) + [Digit(n % base, upper)];
    }
  }

  lemma WordIsPower()
    ensures WORD == Power2(32)
  {
    assert Power2(8) == 256;
    assert Power2(16) == 0x1_0000;
    assert Power2(24) == 0x100_0000;
  }

  /** The text held backwards in the first `digits` places of a helper's buffer. */
  ghost function Backwards(text: array<char>, digits: nat): string
    requires digits <= text.Length
    reads text
  {
    seq(digits, i requires 0 <= i < digits reads text => text[digits - 1 - i])
  }

  /** The digit loop: copies the text out, first digit first, while there is room. */
  method PutBackwards(buf: array<char>, from: nat, room: nat, text: array<char>, digits: nat, ghost s: string)
    returns (to: nat, left: nat)
    requires from + room <= buf.Length && digits <= text.Length && text != buf && s == Backwards(text, digits)
    modifies buf
    ensures to + left == from + room && to <= buf.Length
    ensures buf[..to] == old(buf[..from]) + Fitting(s, room)
    ensures forall k :: to <= k < buf.Length ==> buf[k] == old(buf[k])
  {
    to, left := from, room;
    var k := digits;
    while k > 0 && left > 0
      invariant 0 <= k <= digits && to == from + (digits - k) && to + left == from + room
      invariant buf[..to] == old(buf[..from]) + s[..digits - k]
      invariant forall i :: to <= i < buf.Length ==> buf[i] == old(buf[i])
    {
      k := k - 1;
      buf[to] := text[k];
      assert buf[..to + 1] == buf[..to] + [s[digits - 1 - k]];
      to, left := to + 1, left - 1;
    }
  }

  /** The first two loops of the number helpers: padding, then digits. */
  method PutPaddedDigits(buf: array<char>, from: nat, room: nat, c: char, before: nat, text: array<char>, digits: nat,
                         ghost s: string)
    returns (to: nat, rest: nat)
    requires from + room <= buf.Length && digits <= text.Length && text != buf && s == Backwards(text, digits)
    modifies buf
    ensures to + rest == from + room && to <= buf.Length
    ensures buf[..to] == old(buf[..from]) + Fitting(Repeat(c, before) + s, room)
    ensures forall k :: to <= k < buf.Length ==> buf[k] == old(buf[k])
  {
    FittingParts(Repeat(c, before), s, room);
    ghost var start := buf[..from];
    ghost var f1 := Fitting(Repeat(c, before), room);
    hide Repeat, Fitting;
    to, rest := PutRepeated(buf, from, room, c, before);
    assert rest == room - |f1| && s == Backwards(text, digits);
    hide Backwards;
    to, rest := PutBackwards(buf, to, rest, text, digits, s);
    Join(start, f1, Fitting(s, room - |f1|));
  }

  /** The three loops shared by the number helpers: padding, digits, padding. */
  method PutNumber(buf: array<char>, from: nat, room: nat, text: array<char>, digits: nat, ghost s: string,
                   width: int, left: bool, zero: bool)
    returns (to: nat, rest: nat)
    requires from + room <= buf.Length && digits <= text.Length && text != buf && s == Backwards(text, digits)
    modifies buf
    ensures to + rest == from + room && to <= buf.Length
    ensures buf[..to] == old(buf[..from]) + Fitting(Padded(s, width, left, zero), room)
    ensures forall k :: to <= k < buf.Length ==> buf[k] == old(buf[k])
  {
    var c := if zero then '0' else ' ';
    var before := if !left && width > digits then width - digits else 0;
    var after := if left then PadCount(width - digits) else 0;
    ghost var start := buf[..from];
    ghost var f1 := Fitting(Repeat(c, before) + s, room);
    PaddedParts(s, width, left, zero);
    FittingParts(Repeat(c, before) + s, Repeat(c, after), room);
    hide Repeat, Fitting, Padded, PadCount, Backwards;
    to, rest := PutPaddedDigits(buf, from, room, c, before, text, digits, s);
    assert rest == room - |f1|;
    to, rest := PutRepeated(buf, to, rest, c, after);
    Join(start, f1, Fitting(Repeat(c, after), room - |f1|));
  }

  lemma PaddedParts(s: string, width: int, left: bool, zero: bool)
    ensures var c := if zero then '0' else ' ';
            Padded(s, width, left, zero) ==
            Repeat(c, if !left && width > |s| then width - |s| else 0) + s
              + Repeat(c, if left then PadCount(width - |s|) else 0)
  {}

  method AddUnsigned(buf: array<char>, from: nat, room: nat, val: nat, base: nat, upper: bool,
                     width: int, left: bool, zero: bool)
    returns (to: nat, rest: nat)
    requires from + room <= buf.Length && val < WORD && 2 <= base <= 16
    modifies buf
    ensures to + rest == from + room && to <= buf.Length
    ensures buf[..to] == old(buf[..from]) + Fitting(Padded(Digits(val, base, upper), width, left, zero), room)
    ensures forall k :: to <= k < buf.Length ==> buf[k] == old(buf[k])
  {
    var text := new char[32];
    var digits := DigitsBackwards(text, val, base, upper);
    ghost var s := Digits(val, base, upper);
    assert Backwards(text, digits) == s;
    hide Padded, Fitting, Digits, Backwards;
    to, rest := PutNumber(buf, from, room, text, digits, s, width, left, zero);
  }

  /** The digits of a signed number, last digit first, and then its sign. */
  method SignedBackwards(text: array<char>, val: int) returns (digits: nat)
    requires text.Length == 32 && -WORD / 2 <= val < WORD / 2
    modifies text
    ensures digits <= 32 && Backwards(text, digits) == SignedText(val)
  {
    var magnitude := if val < 0 then -val else val;
    digits := DigitsBackwards(text, magnitude, 10, false);
    DecimalFits(magnitude);
    ghost var s := Digits(magnitude, 10, false);
    hide Digits, Digit;
    if val < 0 {
      text[digits] := '-';
      digits := digits + 1;
      assert Backwards(text, digits) == "-" + s;
    } else {
      assert Backwards(text, digits) == s;
    }
  }

  method AddInt(buf: array<char>, from: nat, room: nat, val: int, width: int, left: bool, zero: bool)
    returns (to: nat, rest: nat)
    requires from + room <= buf.Length && -WORD / 2 <= val < WORD / 2
    modifies buf
    ensures to + rest == from + room && to <= buf.Length
    ensures buf[..to] == old(buf[..from]) + Fitting(Padded(SignedText(val), width, left, zero), room)
    ensures forall k :: to <= k < buf.Length ==> buf[k] == old(buf[k])
  {
    var text := new char[32];
    var digits := SignedBackwards(text, val);
    hide Padded, Fitting, SignedText, Backwards;
    to, rest := PutNumber(buf, from, room, text, digits, SignedText(val), width, left, zero);
  }

  lemma DecimalFits(n: nat)
    requires n <= WORD / 2
    ensures |Digits(n, 10, false)| < 32
  {
    assert Power2(8) == 256;
    assert Power2(16) == 0x1_0000;
    assert Power2(24) == 0x100_0000;
    assert Power2(31) == WORD / 2;
    if n < WORD / 2 { DigitsFit(n, 10, false, 31); } else { TopDigits(); }
  }

  lemma TopDigits()
    ensures |Digits(WORD / 2, 10, false)| < 32
  {
    DigitsFit(214748364, 10, false, 28) by {
      assert Power2(8) == 256;
      assert Power2(16) == 0x1_0000;
      assert Power2(24) == 0x100_0000;
    }
    assert Digits(WORD / 2, 10, false) == Digits(214748364, 10, false) + [Digit(8, false)];
  }

  /** One argument conversion, through the helper for its type. */
  method AddConverted(buf: array<char>, from: nat, room: nat, d: Directive, c: char, a: Arg)
    returns (to: nat, rest: nat)
    requires from + room <= buf.Length && room > 0 && TakesArgument(c)
    modifies buf
    ensures to + rest == from + room && to <= buf.Length
    ensures buf[..to] == old(buf[..from]) + Fitting(Converted(d, c, a), room)
    ensures forall k :: to <= k < buf.Length ==> buf[k] == old(buf[k])
  {
    hide Padded, Fitting, SignedText, Digits, StringField;
    if c == 'c' {
      to, rest := PutText(buf, from, room, [CharCell(a)]);
    } else if c == 'b' {
      to, rest := AddUnsigned(buf, from, room, UnsignedCell(a), 2, false, d.width, d.left, d.zero);
    } else if c == 'u' {
      to, rest := AddUnsigned(buf, from, room, UnsignedCell(a), 10, false, d.width, d.left, d.zero);
    } else if c == 's' {
      to, rest := AddString(buf, from, room, a.text, d.width, d.prec);
    } else if c == 'X' {
      to, rest := AddUnsigned(buf, from, room, UnsignedCell(a), 16, true, d.width, d.left, d.zero);
    } else if c == 'x' {
      to, rest := AddUnsigned(buf, from, room, UnsignedCell(a), 16, false, d.width, d.left, d.zero);
    } else {
      to, rest := AddInt(buf, from, room, SignedCell(a), d.width, d.left, d.zero);
    }
  }

  /** What one round of the formatter deals with: the text it stands for and what is left. */
  function Round(fmt: string, args: seq<Arg>): (string, string, seq<Arg>)
    requires fmt != ""
  {
    if fmt[0] != '%' then ([fmt[0]], fmt[1..], args)
    else
      var d := ReadDirective(fmt[1..], PLAIN);
      if d.conv.None? then ("%", "", args)
      else if TakesArgument(d.conv.value) then (Converted(d, d.conv.value, Head(args)), d.rest, Tail(args))
      else ([d.conv.value], d.rest, args)
  }

  lemma FormattedRound(fmt: string, args: seq<Arg>)
    requires fmt != ""
    ensures var (s, rest, more) := Round(fmt, args);
            |rest| < |fmt| && Formatted(fmt, args) == s + Formatted(rest, more)
  {
    hide Converted, ReadDirective;
    DirectiveShrinks(fmt[1..], PLAIN);
  }

  lemma FloatFreeRound(fmt: string, args: seq<Arg>)
    requires fmt != "" && FloatFree(fmt)
    ensures FloatFree(Round(fmt, args).1)
  {
    hide Converted, ReadDirective;
  }

  /** One round: a plain character, or a directive and what it converts. */
  method PutRound(buf: array<char>, from: nat, room: nat, fmt: string, args: seq<Arg>)
    returns (to: nat, left: nat, rest: string, more: seq<Arg>)
    requires from + room <= buf.Length && room > 0 && fmt != ""
    modifies buf
    ensures to + left == from + room && to <= buf.Length
    ensures rest == Round(fmt, args).1 && more == Round(fmt, args).2
    ensures buf[..to] == old(buf[..from]) + Fitting(Round(fmt, args).0, room)
    ensures forall k :: to <= k < buf.Length ==> buf[k] == old(buf[k])
  {
    hide Converted, ReadDirective, Fitting;
    if fmt[0] != '%' {
      to, left := PutText(buf, from, room, [fmt[0]]);
      rest, more := fmt[1..], args;
      return;
    }
    var d := ReadDirective(fmt[1..], PLAIN);
    if d.conv.None? {
      to, left := PutText(buf, from, room, "%");
      rest, more := "", args;
    } else if TakesArgument(d.conv.value) {
      to, left := AddConverted(buf, from, room, d, d.conv.value, Head(args));
      rest, more := d.rest, Tail(args);
    } else {
      to, left := PutText(buf, from, room, [d.conv.value]);
      rest, more := d.rest, args;
    }
  }

  /** Writes as much of the formatted text as the buffer holds before its terminator, and says
      how many characters that was. */
  method Gnprintf(buf: array<char>, maxlen: nat, format: string, args: seq<Arg>) returns (n: nat)
    requires maxlen <= buf.Length && FloatFree(format)
    modifies buf
    ensures maxlen == 0 ==> n == 0 && buf[..] == old(buf[..])
    ensures forall k :: n < k < buf.Length ==> buf[k] == old(buf[k])
    ensures maxlen > 0 ==>
              && n == |Fitting(Formatted(format, args), maxlen - 1)| < maxlen
              && buf[..n] == Fitting(Formatted(format, args), maxlen - 1) && buf[n] == '\0'
  {
    if maxlen == 0 { return 0; }
    hide Formatted, Fitting, Round, FloatFree;
    ghost var all := Formatted(format, args);
    var llen := maxlen - 1;
    var at := 0;
    var fmt, more := format, args;
    assert buf[..0] + Fitting(all, maxlen - 1) == Fitting(all, maxlen - 1);
    while fmt != "" && llen > 0
      invariant 0 <= at && 0 <= llen && at + llen == maxlen - 1 && FloatFree(fmt)
      invariant buf[..at] + Fitting(Formatted(fmt, more), llen) == Fitting(all, maxlen - 1)
      invariant forall k :: at <= k < buf.Length ==> buf[k] == old(buf[k])
      decreases |fmt|
    {
      FormattedRound(fmt, more);
      FloatFreeRound(fmt, more);
      ghost var before, room := buf[..at], llen;
      ghost var (s, r, m) := Round(fmt, more);
      FittingParts(s, Formatted(r, m), room);
      at, llen, fmt, more := PutRound(buf, at, llen, fmt, more);
      Join(before, Fitting(s, room), Fitting(Formatted(fmt, more), llen));
    }
    NothingFits(fmt, more, llen);
    buf[at] := '\0';
    assert buf[..at] == Fitting(all, maxlen - 1);
    n := maxlen - llen - 1;
  }

  /** A number to the left without a width fills the buffer, whatever the number. */
  lemma LeftWithoutWidthFills(a: Arg, room: nat)
    requires room <= WORD
    ensures |Fitting(Formatted("%-d", [a]), room)| == room
  {
    var text := SignedText(SignedCell(a));
    SignedFits(SignedCell(a));
    PaddedExactly(text, 0, true, false, room);
    var d := ReadDirective("-d", PLAIN);
    assert "%-d"[1..] == "-d" && "-d"[1..] == "d" && "d"[1..] == "";
    assert d == PLAIN.(left := true, conv := Some('d'), rest := "");
    assert Converted(d, 'd', a) == Padded(text, 0, true, false);
    FormattedRound("%-d", [a]);
    hide Converted, Padded, SignedText, ReadDirective;
    assert Formatted("", []) == "";
  }

  lemma SignedFits(v: int)
    requires -WORD / 2 <= v < WORD / 2
    ensures 0 < |SignedText(v)| < WORD
  {
    DecimalFits(if v < 0 then -v else v);
  }

  lemma NothingFits(fmt: string, args: seq<Arg>, room: nat)
    requires fmt == "" || room == 0
    ensures Fitting(Formatted(fmt, args), room) == ""
  {}
}
