/**
 Staged strings of the SMC parser: the token record, the three-slot staging
 area, and the in-place resolution of escapes.

 Pointers into the parse buffer are indices; NULL is -1.
 */
module SmcTokens {

  /** One staged string: where it starts, where it ends (exclusive), whether it was
      closed by a quote, and whether a backslash was seen inside it. */
  datatype Token = Token(ptr: int, end: int, quoted: bool, special: bool)

  const NULL := -1
  const EMPTY := Token(NULL, NULL, false, false)

  /** What the listener receives for a token. A token that no terminator was ever
      recorded for (it touches a brace) reads on past its own characters. */
  datatype Text = Text(chars: string) | Unterminated

  /** The three staging slots; `first` is the one being read. */
  datatype Staging = Staging(first: Token, second: Token, third: Token)

  const NOTHING_STAGED := Staging(EMPTY, EMPTY, EMPTY)

  /** Shifts the staged strings up by one slot; fails, changing nothing, when the last slot is taken. */
  function Rotate(g: Staging): (r: (bool, Staging))
    ensures r.0 <==> g.third.ptr == NULL
  {
    if g.third.ptr != NULL then (false, g)
    else if g.first.ptr != NULL then (true, Staging(EMPTY, g.first, g.second))
    else (true, g)
  }

  /** The oldest staged string is the one that starts lowest in the buffer. */
  function LowString(g: Staging): int {
    if g.third.ptr != NULL then g.third.ptr
    else if g.second.ptr != NULL then g.second.ptr
    else g.first.ptr
  }

  function Relocated(t: Token, bytes: int): Token {
    t.(ptr := if t.ptr != NULL then t.ptr - bytes else NULL,
       end := if t.end != NULL then t.end - bytes else NULL)
  }

  function RelocatedAll(g: Staging, bytes: int): Staging {
    Staging(Relocated(g.first, bytes), Relocated(g.second, bytes), Relocated(g.third, bytes))
  }

  // ----- escapes

  /** The character an escape letter stands for. */
  function Resolve(c: char): char {
    if c == 'n' then '\n' else if c == 't' then '\t' else if c == 'r' then '\r' else c
  }

  predicate IsEscapeLetter(c: char) {
    c == 'n' || c == 't' || c == 'r' || c == '\\' || c == '"'
  }

  /** A backslash before a known letter is resolved; any other backslash stands for itself. */
  function Unescape(s: string): string {
    if s == "" then ""
    else if s[0] == '\\' && |s| >= 2 && IsEscapeLetter(s[1]) then [Resolve(s[1])] + Unescape(s[2..])
    else [s[0]] + Unescape(s[1..])
  }

  /** Where the characters of a token start. */
  function StartOf(t: Token): int {
    if t.ptr == NULL then NULL else if t.quoted then t.ptr + 1 else t.ptr
  }

  /** What `FixupString` hands out for a token over the characters `win`. */
  function TokenText(win: string, t: Token): Text {
    var start := if t.quoted then t.ptr + 1 else t.ptr;
    if 0 <= start <= t.end <= |win| then
      var raw := win[start..t.end];
      Text(if t.special && |raw| >= 2 then Unescape(raw) else raw)
    else Unterminated
  }

  /** What is handed out for the value of a pair once its key has been terminated in the buffer too: a
      value that starts where its key ends, at a quote that is never closed, is cut off there. */
  function ValueText(win: string, key: Token, value: Token): Text {
    if key.end != NULL && key.end == StartOf(value) then Text("") else TokenText(win, value)
  }

  /** One round of the escape loop: the character produced at `i`, and where the next round starts. */
  function EscapeRound(raw: string, i: nat): (char, nat)
    requires i < |raw|
  {
    if raw[i] == '\\' && i < |raw| - 1 && IsEscapeLetter(raw[i + 1]) then (Resolve(raw[i + 1]), i + 2)
    else (raw[i], i + 1)
  }

  lemma UnescapeRound(raw: string, i: nat)
    requires i < |raw|
    ensures var (c, next) := EscapeRound(raw, i);
            next <= |raw| && Unescape(raw[i..]) == [c] + Unescape(raw[next..])
  {
    var s := raw[i..];
    assert s[1..] == raw[i + 1..];
    if |s| >= 2 { assert s[2..] == raw[i + 2..]; }
  }

  lemma UnescapeNothing()
    ensures Unescape("") == ""
  {}

  lemma OneMoreResolved(done: string, raw: string, i: nat)
    requires i < |raw|
    ensures var (c, next) := EscapeRound(raw, i);
            i < next <= |raw| && done + Unescape(raw[i..]) == (done + [c]) + Unescape(raw[next..])
  {
    hide Unescape;
    UnescapeRound(raw, i);
    var (c, next) := EscapeRound(raw, i);
    assert done + ([c] + Unescape(raw[next..])) == (done + [c]) + Unescape(raw[next..]);
  }

  /** The body of the escape loop up to the copy: resolves the character at `i` where it stands. */
  method ResolveOne(buf: array<char>, start: nat, len: nat, i: nat, ghost raw: string) returns (at: nat)
    requires start + len < buf.Length && i < len == |raw|
    requires forall j :: i <= j < len ==> buf[start + j] == raw[j]
    modifies buf
    ensures at + 1 == EscapeRound(raw, i).1 <= len
    ensures buf[start + at] == EscapeRound(raw, i).0
    ensures forall j :: 0 <= j < buf.Length && j != start + at ==> buf[j] == old(buf[j])
  {
    at := i;
    if buf[start + at] == '\\' && at < len - 1 {
      at := at + 1;
      if buf[start + at] == 'n' {
        buf[start + at] := '\n';
      } else if buf[start + at] == 't' {
        buf[start + at] := '\t';
      } else if buf[start + at] == 'r' {
        buf[start + at] := '\r';
      } else if buf[start + at] != '\\' && buf[start + at] != '"' {
        at := at - 1;
      }
    }
  }

  /** The escape loop: compacts the characters between `start` and `end` in place. */
  method ResolveEscapes(buf: array<char>, start: nat, end: nat) returns (outptr: nat)
    requires start <= end < buf.Length
    modifies buf
    ensures start <= outptr <= end
    ensures buf[start..outptr] == Unescape(old(buf[start..end]))
    ensures forall j :: 0 <= j < buf.Length && !(start <= j < end) ==> buf[j] == old(buf[j])
  {
    hide Unescape, EscapeRound, Resolve, IsEscapeLetter;
    ghost var raw := buf[start..end];
    ghost var done: string := [];
    outptr := start;
    var len := end - start;
    var i := 0;
    while i < len
      invariant 0 <= i <= len
      invariant outptr == start + |done| <= start + i
      invariant forall j :: i <= j < len ==> buf[start + j] == raw[j]
      invariant forall j :: 0 <= j < |done| ==> buf[start + j] == done[j]
      invariant done + Unescape(raw[i..]) == Unescape(raw)
      invariant forall j :: 0 <= j < buf.Length && !(start <= j < end) ==> buf[j] == old(buf[j])
    {
      ghost var (c, next) := EscapeRound(raw, i);
      OneMoreResolved(done, raw, i);
      i := ResolveOne(buf, start, len, i, raw);
      buf[outptr] := buf[start + i];
      done := done + [c];
      outptr := outptr + 1;
      i := i + 1;
    }
    assert raw[len..] == [];
    UnescapeNothing();
    assert buf[start..outptr] == done;
  }

  /** Resolves a token's escapes inside the buffer and terminates it there: afterwards the
      C string at `start` is the token's text, and nothing outside the token has changed. No token
      gives no string, and one without a recorded end is left as it is. */
  method FixupString(buf: array<char>, t: Token) returns (start: int)
    requires t.ptr != NULL ==> 0 <= t.ptr && if t.end == NULL then !t.special else StartOf(t) <= t.end < buf.Length
    modifies buf
    ensures start == StartOf(t)
    ensures t.ptr != NULL && t.end != NULL ==>
              var text := TokenText(old(buf[..]), t);
              && text.Text? && start + |text.chars| <= t.end
              && buf[start..start + |text.chars|] == text.chars
              && buf[start + |text.chars|] == '\0' && buf[t.end] == '\0'
    ensures t.ptr == NULL || t.end == NULL ==> buf[..] == old(buf[..])
    ensures forall j :: 0 <= j < buf.Length && !(start <= j <= t.end) ==> buf[j] == old(buf[j])
  {
    if t.ptr == NULL { return NULL; }
    start := StartOf(t);
    if t.end == NULL { return start; }
    EndToken(buf, t, start);
  }

  /** The two writing parts of it: the escape loop, and the terminator. */
  method EndToken(buf: array<char>, t: Token, start: nat)
    requires t.ptr != NULL && 0 <= t.ptr && start == StartOf(t) <= t.end < buf.Length
    modifies buf
    ensures var text := TokenText(old(buf[..]), t);
            && text.Text? && start + |text.chars| <= t.end
            && buf[start..start + |text.chars|] == text.chars
            && buf[start + |text.chars|] == '\0' && buf[t.end] == '\0'
    ensures forall j :: 0 <= j < buf.Length && !(start <= j <= t.end) ==> buf[j] == old(buf[j])
  {
    ghost var raw := buf[start..t.end];
    TextOf(buf[..], t, start);
    hide Unescape, TokenText, StartOf;
    assert raw == buf[..][start..t.end];
    if t.special && t.end - start >= 2 {
      var outptr := ResolveEscapes(buf, start, t.end);
      buf[outptr] := '\0';
    }
    buf[t.end] := '\0';
  }

  lemma TextOf(win: string, t: Token, start: nat)
    requires t.ptr != NULL && start == StartOf(t) <= t.end < |win|
    ensures var raw := win[start..t.end];
            TokenText(win, t) == Text(if t.special && t.end - start >= 2 then Unescape(raw) else raw)
  {
    hide Unescape;
  }
}
