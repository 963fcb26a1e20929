/** Text helpers shared by the readers: whitespace trimming and integer parsing. */
module Text {

  datatype Option<+T> = None | Some(value: T)

  predicate IsSpace(c: char) {
    c == ' ' || c == '\t' || c == '\n' || c == '\r' || c == '\U{b}' || c == '\U{c}'
  }

  function TrimStart(s: string): (r: string)
    ensures r == [] || !IsSpace(r[0])
    ensures |r| <= |s| && s[|s| - |r|..] == r
  {
    if s != [] && IsSpace(s[0]) then TrimStart(s[1..]) else s
  }

  function TrimEnd(s: string): (r: string)
    ensures r == [] || !IsSpace(r[|r| - 1])
    ensures |r| <= |s| && s[..|r|] == r
  {
    if s != [] && IsSpace(s[|s| - 1]) then TrimEnd(s[..|s| - 1]) else s
  }

  function Trim(s: string): (r: string)
    ensures Trimmed(r)
  {
    TrimEnd(TrimStart(s))
  }

  /** Neither end is whitespace. */
  predicate Trimmed(s: string) {
    s == [] || (!IsSpace(s[0]) && !IsSpace(s[|s| - 1]))
  }

  lemma TrimIdempotent(s: string)
    requires Trimmed(s)
    ensures Trim(s) == s
  {
  }

  /** Leading blanks in front of a trimmed text are what `Trim` removes. */
  lemma TrimLeadingSpace(s: string)
    requires Trimmed(s)
    ensures Trim([' '] + s) == s
  {
    assert ([' '] + s)[1..] == s;
    assert TrimStart([' '] + s) == TrimStart(s) == s;
  }

  /** Blanks, tabs, line ends and the two other ASCII spaces. */
  predicate Blanks(s: string) {
    forall i | 0 <= i < |s| :: s[i] in {' ', '\t', '\n', '\r', '\U{b}', '\U{c}'}
  }

  lemma {:induction false} TrimStartBlanks(a: string, s: string)
    requires Blanks(a) && (s == [] || !IsSpace(s[0]))
    ensures TrimStart(a + s) == s
  {
    if a == [] {
      assert a + s == s;
    } else {
      assert (a + s)[1..] == a[1..] + s;
      TrimStartBlanks(a[1..], s);
    }
  }

  lemma {:induction false} TrimEndBlanks(s: string, b: string)
    requires Blanks(b) && (s == [] || !IsSpace(s[|s| - 1]))
    ensures TrimEnd(s + b) == s
  {
    if b == [] {
      assert s + b == s;
    } else {
      assert (s + b)[..|s + b| - 1] == s + b[..|b| - 1];
      TrimEndBlanks(s, b[..|b| - 1]);
    }
  }

  lemma {:induction false} TrimBlanks(a: string)
    requires Blanks(a)
    ensures TrimStart(a) == []
  {
    if a != [] { TrimBlanks(a[1..]); }
  }

  /** Trimming takes the blanks off both ends, whatever they are, and nothing else. */
  lemma TrimExact(a: string, s: string, b: string)
    requires Blanks(a) && Blanks(b) && Trimmed(s)
    ensures Trim(a + s + b) == s
  {
    if s == [] {
      TrimBlanks(a + b);
      assert a + s + b == a + b;
    } else {
      assert a + s + b == a + (s + b);
      TrimStartBlanks(a, s + b);
      TrimEndBlanks(s, b);
    }
  }

  predicate AllDigits(s: string) {
    forall i | 0 <= i < |s| :: '0' <= s[i] <= '9'
  }

  function DigitsValue(s: string): (n: nat)
    requires AllDigits(s)
  {
    if s == [] then 0 else 10 * DigitsValue(s[..|s| - 1]) + (s[|s| - 1] as int - '0' as int)
  }

  /** A sign and at least one digit: the decimal grammar shared by Rust's integer types. */
  function ParseSigned(s: string): (r: Option<int>) {
    if s == [] then None
    else if s[0] == '-' then
      if |s| > 1 && AllDigits(s[1..]) then Some(0 - DigitsValue(s[1..]) as int) else None
    else
      var body := if s[0] == '+' then s[1..] else s;
      if body != [] && AllDigits(body) then Some(DigitsValue(body) as int) else None
  }

  const I64_MIN: int := -0x8000_0000_0000_0000
  const I64_MAX: int := 0x7fff_ffff_ffff_ffff

  /** Two's-complement wrap-around of 64-bit addition and multiplication. */
  function Wrap64(x: int): (r: int)
    ensures I64_MIN <= r <= I64_MAX
    ensures I64_MIN <= x <= I64_MAX ==> r == x
    ensures (r - x) % 0x1_0000_0000_0000_0000 == 0
  {
    (x - I64_MIN) % 0x1_0000_0000_0000_0000 + I64_MIN
  }

  function ParseI64(s: string): (r: Option<int>) {
    match ParseSigned(s)
    case Some(n) => if I64_MIN <= n <= I64_MAX then Some(n) else None
    case None => None
  }

  function ParseU16(s: string): (r: Option<int>)
    ensures r.Some? ==> 0 <= r.value <= 0xffff
  {
    if s != [] && s[0] == '-' then None
    else
      match ParseSigned(s)
      case Some(n) => if 0 <= n <= 0xffff then Some(n) else None
      case None => None
  }

  function Decimal(n: nat): (s: string) {
    if n < 10 then ['0' + n as char] else Decimal(n / 10) + ['0' + (n % 10) as char]
  }

  lemma {:induction false} DecimalParses(n: nat)
    ensures Decimal(n) != [] && AllDigits(Decimal(n)) && DigitsValue(Decimal(n)) == n
  {
    var s := Decimal(n);
    if n < 10 {
      assert s[..0] == [];
    } else {
      DecimalParses(n / 10);
      assert s[..|s| - 1] == Decimal(n / 10);
    }
  }

  /** The texts that read as a port are a decimal number that fits 16 bits, with an optional plus sign. */
  lemma PortsExactly(s: string, n: nat)
    ensures ParseU16(s) == Some(n)
       <==> n <= 65535 && exists digits ::
              digits != [] && AllDigits(digits) && DigitsValue(digits) == n && (s == digits || s == ['+'] + digits)
  {
    if digits :| digits != [] && AllDigits(digits) && DigitsValue(digits) == n && (s == digits || s == ['+'] + digits) {
      hide DigitsValue;
      assert s == digits || s[1..] == digits;
    }
    if ParseU16(s) == Some(n) {
      hide DigitsValue;
      var body := if s[0] == '+' then s[1..] else s;
      assert s[0] == '+' ==> s == ['+'] + body;
      assert body != [] && AllDigits(body) && DigitsValue(body) == n;
    }
  }

  lemma PortParses(n: nat)
    requires n <= 0xffff
    ensures ParseU16(Decimal(n)) == Some(n)
  {
    DecimalParses(n);
  }

  function LowerChar(c: char): (r: char) {
    if 'A' <= c <= 'Z' then (c as int + 32) as char else c
  }

  function Lower(s: string): (r: string)
    ensures |r| == |s|
  {
    seq(|s|, i requires 0 <= i < |s| => LowerChar(s[i]))
  }

  predicate NoneAre<T(==)>(s: seq<T>, c: T) {
    forall i | 0 <= i < |s| :: s[i] != c
  }

  /** The first position of `c`, or the length. */
  function Find<T(==)>(s: seq<T>, c: T): (n: nat)
    ensures n <= |s| && NoneAre(s[..n], c) && (n < |s| ==> s[n] == c)
  {
    if s == [] || s[0] == c then 0 else
      var n := 1 + Find(s[1..], c);
      assert forall i | 1 <= i < n :: s[i] == s[1..][..n - 1][i - 1];
      n
  }

  lemma {:induction false} FindIs<T>(s: seq<T>, c: T, n: nat)
    requires n <= |s| && NoneAre(s[..n], c) && (n < |s| ==> s[n] == c)
    ensures Find(s, c) == n
  {
    var m := Find(s, c);
    assert forall i | 0 <= i < n :: s[i] == s[..n][i];
    assert forall i | 0 <= i < m :: s[i] == s[..m][i];
  }

  // ---- lines ----

  /** The pieces between newlines; a text without a newline is one line. */
  function Lines(s: string): (r: seq<string>)
    ensures r != []
  {
    if s == [] then [[]]
    else
      var rest := Lines(s[1..]);
      if s[0] == '\n' then [[]] + rest else [[s[0]] + rest[0]] + rest[1..]
  }

  lemma {:induction false} LinesOfPlain(s: string)
    requires NoneAre(s, '\n')
    ensures Lines(s) == [s]
  {
    if s != [] {
      LinesOfPlain(s[1..]);
      assert [s[0]] + s[1..] == s;
    }
  }

  lemma {:induction false} LinesAppend(d: string, v: string)
    requires NoneAre(v, '\n')
    ensures Lines(d + ['\n'] + v) == Lines(d) + [v]
  {
    if d == [] {
      assert d + ['\n'] + v == ['\n'] + v;
      assert (['\n'] + v)[1..] == v;
      LinesOfPlain(v);
    } else {
      assert (d + ['\n'] + v)[1..] == d[1..] + ['\n'] + v;
      LinesAppend(d[1..], v);
    }
  }

  lemma {:induction false} LinesArePlain(d: string)
    ensures forall i | 0 <= i < |Lines(d)| :: NoneAre(Lines(d)[i], '\n')
  {
    if d != [] { LinesArePlain(d[1..]); }
  }

  /** Joining the lines back with newlines gives the text. */
  function Unlines(lines: seq<string>): (d: string)
    requires lines != []
  {
    if |lines| == 1 then lines[0] else Unlines(lines[..|lines| - 1]) + ['\n'] + lines[|lines| - 1]
  }

  lemma {:induction false} UnlinesCons(c: char, lines: seq<string>)
    requires lines != []
    ensures Unlines([[c] + lines[0]] + lines[1..]) == [c] + Unlines(lines)
    ensures Unlines([[]] + lines) == ['\n'] + Unlines(lines)
  {
    var a := [[c] + lines[0]] + lines[1..];
    var b := [[]] + lines;
    if |lines| == 1 {
      assert a == [[c] + lines[0]] && b[..1] == [[]];
      assert Unlines(b) == [] + ['\n'] + lines[0];
    } else {
      var front := lines[..|lines| - 1];
      UnlinesCons(c, front);
      assert a[..|a| - 1] == [[c] + front[0]] + front[1..];
      assert b[..|b| - 1] == [[]] + front;
      assert [c] + (Unlines(front) + ['\n'] + lines[|lines| - 1]) == [c] + Unlines(front) + ['\n'] + lines[|lines| - 1];
      assert ['\n'] + (Unlines(front) + ['\n'] + lines[|lines| - 1])
             == ['\n'] + Unlines(front) + ['\n'] + lines[|lines| - 1];
    }
  }

  lemma {:induction false} UnlinesOfLines(d: string)
    ensures Unlines(Lines(d)) == d
  {
    if d != [] {
      UnlinesOfLines(d[1..]);
      UnlinesCons(d[0], Lines(d[1..]));
      assert [d[0]] + d[1..] == d;
    }
  }

  lemma {:induction false} LinesConcat(a: string, b: string)
    ensures Lines(a + ['\n'] + b) == Lines(a) + Lines(b)
  {
    if a == [] {
      assert a + ['\n'] + b == ['\n'] + b;
      assert (['\n'] + b)[1..] == b;
    } else {
      assert (a + ['\n'] + b)[1..] == a[1..] + ['\n'] + b;
      LinesConcat(a[1..], b);
    }
  }
}
