/**
 Quoting an argv into one remote command line, and reading it back the way a POSIX shell does:
 quoting by backslash and single quotes (sections 2.2.1 and 2.2.2 of the Shell Command Language,
 POSIX.1-2017) and splitting into words at unquoted blanks (section 2.3).
 */
module Shell {
  import opened Text

  // ---- quoting ----

  predicate AsciiAlnum(c: char) {
    'a' <= c <= 'z' || 'A' <= c <= 'Z' || '0' <= c <= '9'
  }

  /** The bareword characters of the Rust `shell_quote`. */
  predicate RustSafe(c: char) {
    AsciiAlnum(c) || c in {'@', '%', '-', '_', '=', '+', ':', ',', '.', '/'}
  }

  /** The bareword characters of the Swift `shellQuote`, given what the platform calls a letter or number. */
  function SwiftSafe(letter: char -> bool): (safe: char -> bool) {
    (c: char) => letter(c) || c in {'-', '_', '.', '/', '@', ':'}
  }

  predicate All(s: string, p: char -> bool) {
    forall i | 0 <= i < |s| :: p(s[i])
  }

  /** Each `'` becomes `'\''`. */
  function EscapeQuotes(s: string): (r: string) {
    if s == [] then []
    else (if s[0] == '\'' then ['\'', '\\', '\'', '\''] else [s[0]]) + EscapeQuotes(s[1..])
  }

  function Quote(s: string, safe: char -> bool): (r: string) {
    if s != [] && All(s, safe) then s else ['\''] + EscapeQuotes(s) + ['\'']
  }

  /** The words quoted and joined by single spaces. */
  function Join(words: seq<string>, safe: char -> bool): (r: string) {
    if words == [] then []
    else if |words| == 1 then Quote(words[0], safe)
    else Quote(words[0], safe) + [' '] + Join(words[1..], safe)
  }

  // ---- the shell's side ----

  /** Characters with a meaning of their own when unquoted, other than the quoting and blank characters. */
  predicate Special(c: char) {
    c in {'|', '&', ';', '<', '>', '(', ')', '$', '`', '"', '\n', '*', '?', '[', '#', '~'}
  }

  predicate Blank(c: char) {
    c == ' ' || c == '\t'
  }

  /** A bareword set none of whose characters mean anything to the shell. */
  ghost predicate Harmless(safe: char -> bool) {
    forall c | safe(c) :: !Special(c) && !Blank(c) && c != '\'' && c != '\\'
  }

  datatype Mode = Bare | Single | Escaped

  /** The words finished so far, and the one under way if any. */
  datatype Lexer = Lexer(words: seq<string>, word: Option<string>, mode: Mode)

  function Append(l: Lexer, c: char): (r: Lexer) {
    l.(word := Some((if l.word.Some? then l.word.value else []) + [c]), mode := if l.mode.Single? then Single else Bare)
  }

  function CloseWord(l: Lexer): (r: Lexer) {
    if l.word.Some? then Lexer(l.words + [l.word.value], None, Bare) else l
  }

  /** One character of input; `None` where an unquoted special character would make the shell do more than split. */
  function LexChar(l: Lexer, c: char): (r: Option<Lexer>) {
    match l.mode
    case Single => if c == '\'' then Some(l.(mode := Bare)) else Some(Append(l, c))
    case Escaped => if c == '\n' then None else Some(Append(l, c))
    case Bare =>
      if c == '\'' then Some(l.(word := Some(if l.word.Some? then l.word.value else []), mode := Single))
      else if c == '\\' then Some(l.(mode := Escaped))
      else if Blank(c) then Some(CloseWord(l))
      else if Special(c) then None
      else Some(Append(l, c))
  }

  function Lex(l: Lexer, s: string): (r: Option<Lexer>)
    decreases |s|
  {
    if s == [] then Some(l)
    else
      match LexChar(l, s[0])
      case None => None
      case Some(l') => Lex(l', s[1..])
  }

  /** The words of a whole command line; `None` if it is not a plain list of words. */
  function Tokenize(s: string): (r: Option<seq<string>>) {
    match Lex(Lexer([], None, Bare), s)
    case None => None
    case Some(l) => if l.mode.Bare? then Some(CloseWord(l).words) else None
  }

  // ---- reading back what was quoted ----

  lemma {:induction false} LexConcat(l: Lexer, a: string, b: string)
    requires Lex(l, a).Some?
    ensures Lex(l, a + b) == Lex(Lex(l, a).value, b)
    decreases |a|
  {
    if a == [] {
      assert a + b == b;
    } else {
      assert (a + b)[1..] == a[1..] + b;
      LexConcat(LexChar(l, a[0]).value, a[1..], b);
    }
  }

  /** A bareword made of unspecial characters is read as itself. */
  lemma {:induction false} LexBare(words: seq<string>, word: string, s: string)
    requires forall i | 0 <= i < |s| :: !Special(s[i]) && !Blank(s[i]) && s[i] != '\'' && s[i] != '\\'
    ensures Lex(Lexer(words, Some(word), Bare), s) == Some(Lexer(words, Some(word + s), Bare))
    decreases |s|
  {
    if s == [] {
      assert word + s == word;
    } else {
      LexBare(words, word + [s[0]], s[1..]);
      assert word + [s[0]] + s[1..] == word + s;
    }
  }

  /** Inside single quotes, the escaped text is read as the text. */
  lemma {:induction false} LexEscaped(words: seq<string>, word: string, s: string)
    ensures Lex(Lexer(words, Some(word), Single), EscapeQuotes(s)) == Some(Lexer(words, Some(word + s), Single))
    decreases |s|
  {
    if s == [] {
      assert word + s == word;
    } else {
      LexEscaped(words, word + [s[0]], s[1..]);
      assert word + [s[0]] + s[1..] == word + s;
      var l := Lexer(words, Some(word), Single);
      if s[0] == '\'' {
        LexQuoteEscape(words, word);
        LexConcat(l, ['\'', '\\', '\'', '\''], EscapeQuotes(s[1..]));
      } else {
        assert EscapeQuotes(s)[1..] == EscapeQuotes(s[1..]);
      }
    }
  }

  /** `'\''` inside single quotes closes them, adds one quote character, and reopens them. */
  lemma LexQuoteEscape(words: seq<string>, word: string)
    ensures Lex(Lexer(words, Some(word), Single), ['\'', '\\', '\'', '\''])
            == Some(Lexer(words, Some(word + ['\'']), Single))
  {
    var q := ['\'', '\\', '\'', '\''];
    assert q[1..] == ['\\', '\'', '\''] && q[1..][1..] == ['\'', '\''] && q[1..][1..][1..] == ['\''];
    assert ['\''][1..] == [];
    var l0 := Lexer(words, Some(word), Bare);
    var l2 := Lexer(words, Some(word + ['\'']), Bare);
    assert Lex(l2, ['\'']) == Some(l2.(mode := Single));
    assert Lex(l0.(mode := Escaped), ['\'', '\'']) == Lex(l2, ['\'']);
    assert Lex(l0, ['\\', '\'', '\'']) == Lex(l0.(mode := Escaped), ['\'', '\'']);
  }

  /** A quoted word is read as that word, at the start of a word. */
  lemma LexQuoted(words: seq<string>, s: string, safe: char -> bool)
    requires Harmless(safe)
    ensures Lex(Lexer(words, None, Bare), Quote(s, safe)) == Some(Lexer(words, Some(s), Bare))
  {
    var l := Lexer(words, None, Bare);
    if s != [] && All(s, safe) {
      assert safe(s[0]);
      assert [] + [s[0]] == [s[0]];
      assert LexChar(l, s[0]) == Some(Lexer(words, Some([s[0]]), Bare));
      LexBare(words, [s[0]], s[1..]);
      assert [s[0]] + s[1..] == s;
    } else {
      var q := Quote(s, safe);
      assert q[1..] == EscapeQuotes(s) + ['\''];
      assert LexChar(l, '\'') == Some(Lexer(words, Some([]), Single));
      LexEscaped(words, [], s);
      assert [] + s == s;
      LexConcat(Lexer(words, Some([]), Single), EscapeQuotes(s), ['\'']);
      assert ['\''][1..] == [];
    }
  }

  /** An unquoted space ends the word. */
  lemma LexSpace(words: seq<string>, word: string, rest: string)
    ensures Lex(Lexer(words, Some(word), Bare), [' '] + rest) == Lex(Lexer(words + [word], None, Bare), rest)
  {
    assert ([' '] + rest)[1..] == rest;
    assert LexChar(Lexer(words, Some(word), Bare), ' ') == Some(Lexer(words + [word], None, Bare));
  }

  lemma {:induction false} LexJoined(words: seq<string>, argv: seq<string>, safe: char -> bool)
    requires Harmless(safe)
    requires argv != []
    ensures Lex(Lexer(words, None, Bare), Join(argv, safe))
            == Some(Lexer(words + argv[..|argv| - 1], Some(argv[|argv| - 1]), Bare))
    decreases |argv|
  {
    hide Lex, Quote, Harmless;
    LexQuoted(words, argv[0], safe);
    if |argv| == 1 {
      assert words + argv[..0] == words;
    } else {
      var rest := [' '] + Join(argv[1..], safe);
      assert Join(argv, safe) == Quote(argv[0], safe) + rest;
      LexConcat(Lexer(words, None, Bare), Quote(argv[0], safe), rest);
      LexSpace(words, argv[0], Join(argv[1..], safe));
      LexJoined(words + [argv[0]], argv[1..], safe);
      AllButLast(words, argv);
    }
  }

  /** Quoting and joining any argv gives a command line the shell splits back into exactly that argv. */
  lemma QuotedArgvReadsBack(argv: seq<string>, safe: char -> bool)
    requires Harmless(safe)
    ensures Tokenize(Join(argv, safe)) == Some(argv)
  {
    if argv != [] {
      hide Lex, Join, Harmless;
      LexJoined([], argv, safe);
      assert [] + argv[..|argv| - 1] + [argv[|argv| - 1]] == argv;
    }
  }

  lemma RustSafeIsHarmless()
    ensures Harmless(RustSafe)
  {
  }

  lemma RustQuotingReadsBack(argv: seq<string>)
    ensures Tokenize(Join(argv, RustSafe)) == Some(argv)
  {
    hide Tokenize, Join;
    RustSafeIsHarmless();
    QuotedArgvReadsBack(argv, RustSafe);
  }

  /** The Swift quoting reads back for every notion of letter that leaves out the shell's own characters. */
  lemma SwiftQuotingReadsBack(argv: seq<string>, letter: char -> bool)
    requires Harmless(letter)
    ensures Tokenize(Join(argv, SwiftSafe(letter))) == Some(argv)
  {
    assert Harmless(SwiftSafe(letter));
    hide Tokenize, Join;
    QuotedArgvReadsBack(argv, SwiftSafe(letter));
  }

  lemma {:induction false} EscapedIsLonger(s: string)
    ensures |EscapeQuotes(s)| >= |s|
  {
    if s != [] { EscapedIsLonger(s[1..]); }
  }

  /** Left bare exactly when it is made of letters, digits and the ten harmless signs, and quoted otherwise. */
  lemma BareExactly(s: string)
    ensures var bare := s != "" && forall i | 0 <= i < |s| ::
                          || 'a' <= s[i] <= 'z' || 'A' <= s[i] <= 'Z' || '0' <= s[i] <= '9'
                          || s[i] in {'@', '%', '-', '_', '=', '+', ':', ',', '.', '/'};
            && (bare <==> Quote(s, RustSafe) == s)
            && (!bare ==> Quote(s, RustSafe)[0] == '\'')
  {
    EscapedIsLonger(s);
  }

  /** A bareword followed by an unquoted character of the shell's own is no plain list of words. */
  lemma SpecialStops(word: string, c: char, rest: string)
    requires forall i | 0 <= i < |word| :: RustSafe(word[i])
    requires c in {'|', '&', ';', '<', '>', '(', ')', '$', '`', '"', '\n', '*', '?', '[', '#', '~'}
    ensures Tokenize(word + [c] + rest) == None
  {
    var l := Lexer([], None, Bare);
    var s := [c] + rest;
    assert s[1..] == rest;
    assert word + [c] + rest == word + s;
    if word == [] {
      assert word + s == s;
    } else {
      RustSafeIsHarmless();
      assert Quote(word, RustSafe) == word;
      LexQuoted([], word, RustSafe);
      LexConcat(l, word, s);
    }
  }

  /** And by the Swift function exactly when it is made of letters and the six signs. */
  lemma SwiftBareExactly(s: string, letter: char -> bool)
    ensures var bare := s != "" && forall i | 0 <= i < |s| :: letter(s[i]) || s[i] in {'-', '_', '.', '/', '@', ':'};
            && (bare <==> Quote(s, SwiftSafe(letter)) == s)
            && (!bare ==> Quote(s, SwiftSafe(letter))[0] == '\'')
  {
    EscapedIsLonger(s);
  }

  /** Two words are joined by one space. */
  lemma JoinedBySpace(a: string, b: string, safe: char -> bool)
    ensures Join([a, b], safe) == Quote(a, safe) + " " + Quote(b, safe)
  {
    assert [a, b][1..] == [b];
  }

  /** Different argument lists never share a command line. */
  lemma QuotingIsInjective(a: seq<string>, b: seq<string>)
    requires Join(a, RustSafe) == Join(b, RustSafe)
    ensures a == b
  {
    RustQuotingReadsBack(a);
    RustQuotingReadsBack(b);
  }

  // ---- raw words ----

  /** The tokenizer with the words as they were written, quotes included. */
  datatype Raw = Raw(l: Lexer, done: seq<string>, text: string)

  function RawChar(r: Raw, c: char): (n: Option<Raw>) {
    match LexChar(r.l, c)
    case None => None
    case Some(l) =>
      if r.l.mode.Bare? && Blank(c) then
        (if r.l.word.Some? then Some(Raw(l, r.done + [r.text], [])) else Some(r.(l := l)))
      else Some(Raw(l, r.done, r.text + [c]))
  }

  function RawLex(r: Raw, s: string): (n: Option<Raw>)
    decreases |s|
  {
    if s == [] then Some(r)
    else
      match RawChar(r, s[0])
      case None => None
      case Some(r') => RawLex(r', s[1..])
  }

  /** The written words of a command line; `None` where it is not a plain list of words. */
  function RawWords(s: string): (r: Option<seq<string>>) {
    match RawLex(Raw(Lexer([], None, Bare), [], []), s)
    case None => None
    case Some(r) =>
      if !r.l.mode.Bare? then None else Some(if r.l.word.Some? then r.done + [r.text] else r.done)
  }

  lemma {:induction false} WordsGrow(l: Lexer, s: string)
    requires Lex(l, s).Some?
    ensures |Lex(l, s).value.words| >= |l.words|
    decreases |s|
  {
    if s != [] { WordsGrow(LexChar(l, s[0]).value, s[1..]); }
  }

  /** While no word ends, the written text is just what was read. */
  lemma {:induction false} RawFollows(r: Raw, s: string)
    requires Lex(r.l, s).Some? && |Lex(r.l, s).value.words| == |r.l.words|
    requires r.l.word.Some? || r.l.mode.Escaped? || (r.l.mode.Bare? && (s == [] || !Blank(s[0])))
    ensures RawLex(r, s) == Some(Raw(Lex(r.l, s).value, r.done, r.text + s))
    decreases |s|
  {
    if s == [] {
      assert r.text + s == r.text;
    } else {
      var l' := LexChar(r.l, s[0]).value;
      WordsGrow(l', s[1..]);
      RawFollows(Raw(l', r.done, r.text + [s[0]]), s[1..]);
      assert r.text + [s[0]] + s[1..] == r.text + s;
    }
  }

  lemma {:induction false} RawConcat(r: Raw, a: string, b: string)
    requires RawLex(r, a).Some?
    ensures RawLex(r, a + b) == RawLex(RawLex(r, a).value, b)
    decreases |a|
  {
    hide RawChar;
    if a == [] {
      assert a + b == b;
    } else {
      assert (a + b)[1..] == a[1..] + b;
      RawConcat(RawChar(r, a[0]).value, a[1..], b);
    }
  }

  function Quotes(words: seq<string>, safe: char -> bool): (r: seq<string>)
    ensures |r| == |words| && forall i | 0 <= i < |words| :: r[i] == Quote(words[i], safe)
  {
    seq(|words|, i requires 0 <= i < |words| => Quote(words[i], safe))
  }

  lemma RawQuoted(words: seq<string>, done: seq<string>, s: string, safe: char -> bool)
    requires Harmless(safe)
    ensures RawLex(Raw(Lexer(words, None, Bare), done, []), Quote(s, safe))
            == Some(Raw(Lexer(words, Some(s), Bare), done, Quote(s, safe)))
  {
    LexQuoted(words, s, safe);
    QuoteStarts(s, safe);
    hide Lex, Quote, RawLex;
    RawFollows(Raw(Lexer(words, None, Bare), done, []), Quote(s, safe));
    assert [] + Quote(s, safe) == Quote(s, safe);
  }

  lemma QuoteStarts(s: string, safe: char -> bool)
    requires Harmless(safe)
    ensures Quote(s, safe) != [] && !Blank(Quote(s, safe)[0])
  {
    if s != [] && All(s, safe) { assert safe(s[0]); }
  }

  lemma RawSpace(words: seq<string>, word: string, done: seq<string>, text: string, rest: string)
    ensures RawLex(Raw(Lexer(words, Some(word), Bare), done, text), [' '] + rest)
            == RawLex(Raw(Lexer(words + [word], None, Bare), done + [text], []), rest)
  {
    assert ([' '] + rest)[1..] == rest;
    assert LexChar(Lexer(words, Some(word), Bare), ' ') == Some(Lexer(words + [word], None, Bare));
  }

  lemma AllButLast(front: seq<string>, s: seq<string>)
    requires |s| > 1
    ensures front + [s[0]] + s[1..][..|s| - 2] == front + s[..|s| - 1]
  {
  }

  lemma {:induction false} RawJoined(words: seq<string>, done: seq<string>, argv: seq<string>, safe: char -> bool)
    requires Harmless(safe) && argv != []
    ensures var n, qs := |argv| - 1, Quotes(argv, safe);
            RawLex(Raw(Lexer(words, None, Bare), done, []), Join(argv, safe))
            == Some(Raw(Lexer(words + argv[..n], Some(argv[n]), Bare), done + qs[..n], qs[n]))
    decreases |argv|
  {
    hide RawLex, Quote, Harmless, RawChar, Lex, LexChar;
    var qs := Quotes(argv, safe);
    RawQuoted(words, done, argv[0], safe);
    if |argv| == 1 {
      assert words + argv[..0] == words && done + qs[..0] == done;
    } else {
      var tail := argv[1..];
      var rest := [' '] + Join(tail, safe);
      assert Join(argv, safe) == Quote(argv[0], safe) + rest;
      RawConcat(Raw(Lexer(words, None, Bare), done, []), Quote(argv[0], safe), rest);
      RawSpace(words, argv[0], done, Quote(argv[0], safe), Join(tail, safe));
      RawJoined(words + [argv[0]], done + [qs[0]], tail, safe);
      assert Quotes(tail, safe) == qs[1..];
      AllButLast(words, argv);
      AllButLast(done, qs);
    }
  }

  /** Written, a joined command line is its quoted words. */
  lemma {:induction false} JoinedWords(argv: seq<string>, safe: char -> bool)
    requires Harmless(safe)
    ensures RawWords(Join(argv, safe)) == Some(Quotes(argv, safe))
  {
    hide Harmless, Quote, RawChar, Lex;
    if argv == [] {
      assert Join(argv, safe) == [];
    } else {
      hide RawLex, Join;
      RawJoined([], [], argv, safe);
      LastWord(Quotes(argv, safe));
    }
  }

  lemma LastWord(qs: seq<string>)
    requires qs != []
    ensures [] + qs[..|qs| - 1] + [qs[|qs| - 1]] == qs
  {
  }

  // ---- assignments before the command ----

  predicate NameStart(c: char) { 'a' <= c <= 'z' || 'A' <= c <= 'Z' || c == '_' }
  predicate NameChar(c: char) { NameStart(c) || '0' <= c <= '9' }

  /** A written word the grammar (section 2.10.2, rule 7) takes for `NAME=value` when it comes before the command. */
  ghost predicate AssignmentWord(raw: string) {
    exists n :: 0 < n < |raw| && raw[n] == '=' && NameStart(raw[0]) && forall i | 0 <= i < n :: NameChar(raw[i])
  }

  /** Which word is the command: the first that is not an assignment; the number of words if all are. */
  ghost function CommandAt(raws: seq<string>): (n: nat)
    ensures n <= |raws| && (forall i | 0 <= i < n :: AssignmentWord(raws[i]))
            && (n < |raws| ==> !AssignmentWord(raws[n]))
  {
    if raws == [] || !AssignmentWord(raws[0]) then 0 else 1 + CommandAt(raws[1..])
  }

  /**
   The reserved words (section 2.4), recognized where none of a word's characters is quoted and it is the first word
   of a command: the listed ones, four that some implementations have, and a name followed by a colon.
   */
  predicate Reserved(raw: string) {
    || raw in {"!", "{", "}", "case", "do", "done", "elif", "else", "esac", "fi", "for", "if", "in", "then", "until"}
    || raw in {"while", "[[", "]]", "function", "select"}
    || (|raw| > 1 && NameStart(raw[0]) && raw[|raw| - 1] == ':' && forall i | 0 <= i < |raw| - 1 :: NameChar(raw[i]))
  }

  /** Which word of a line the shell runs as a simple command, if it is one at all. */
  ghost function CommandOf(line: string): (n: Option<nat>)
    requires RawWords(line).Some?
  {
    var raws := RawWords(line).value;
    if raws != [] && Reserved(raws[0]) then None
    else if CommandAt(raws) < |raws| then Some(CommandAt(raws))
    else None
  }

  /** A word left bare by the quoting that the shell takes for an assignment, or for a reserved word. */
  ghost predicate BareAssignment(s: string, safe: char -> bool) {
    All(s, safe) && AssignmentWord(s)
  }

  predicate BareReserved(s: string, safe: char -> bool) {
    All(s, safe) && Reserved(s)
  }

  /** A quoted word is taken for either exactly when it is a bareword of that kind. */
  lemma QuotedAssignment(s: string, safe: char -> bool)
    ensures AssignmentWord(Quote(s, safe)) <==> BareAssignment(s, safe)
    ensures Reserved(Quote(s, safe)) <==> BareReserved(s, safe)
  {
    if !(s != [] && All(s, safe)) {
      assert Quote(s, safe)[0] == '\'';
    }
  }

  /** How many words of an argv are left as assignments in front. */
  ghost function Assignments(argv: seq<string>, safe: char -> bool): (n: nat)
    ensures n <= |argv| && (forall i | 0 <= i < n :: BareAssignment(argv[i], safe))
    ensures n < |argv| ==> !BareAssignment(argv[n], safe)
  {
    if argv == [] || !BareAssignment(argv[0], safe) then 0 else 1 + Assignments(argv[1..], safe)
  }

  lemma CommandAtIs(raws: seq<string>, n: nat)
    requires n <= |raws| && (forall i | 0 <= i < n :: AssignmentWord(raws[i]))
    requires n < |raws| ==> !AssignmentWord(raws[n])
    ensures CommandAt(raws) == n
  {
    hide AssignmentWord;
    assert !(CommandAt(raws) < n) && !(n < CommandAt(raws));
  }

  /**
   The command a shell runs from a joined argv: none if its first word is a bare reserved word, and else its first
   word that is not a bare assignment. So it is the first word, as meant, exactly when that is neither.
   */
  lemma JoinedRuns(argv: seq<string>, safe: char -> bool)
    requires Harmless(safe)
    ensures RawWords(Join(argv, safe)).Some?
    ensures var run, n := CommandOf(Join(argv, safe)), Assignments(argv, safe);
            && run == (if (argv != [] && BareReserved(argv[0], safe)) || n == |argv| then None else Some(n))
            && (run == Some(0) <==> argv != [] && !BareAssignment(argv[0], safe) && !BareReserved(argv[0], safe))
  {
    hide Join, RawWords, AssignmentWord, Quote, All, Harmless, Reserved;
    JoinedWords(argv, safe);
    forall i | 0 <= i < |argv|
      ensures AssignmentWord(Quotes(argv, safe)[i]) <==> BareAssignment(argv[i], safe)
      ensures Reserved(Quotes(argv, safe)[i]) <==> BareReserved(argv[i], safe)
    {
      QuotedAssignment(argv[i], safe);
    }
    CommandAtIs(Quotes(argv, safe), Assignments(argv, safe));
  }

  lemma JoinedCommand(argv: seq<string>)
    ensures RawWords(Join(argv, RustSafe)).Some?
    ensures CommandOf(Join(argv, RustSafe)) == Some(0)
       <==> argv != [] && !BareAssignment(argv[0], RustSafe) && !BareReserved(argv[0], RustSafe)
  {
    RustSafeIsHarmless();
    hide Join, RawWords, CommandOf, BareAssignment, BareReserved;
    JoinedRuns(argv, RustSafe);
  }

  /** Read back as the one word `A=b`, run as an assignment and no command at all. */
  lemma AssignmentIsNoCommand()
    ensures Tokenize(Join(["A=b"], RustSafe)) == Some(["A=b"])
    ensures RawWords(Join(["A=b"], RustSafe)).Some? && CommandOf(Join(["A=b"], RustSafe)) == None
  {
    var s := "A=b";
    assert s[1] == '=' && NameStart(s[0]);
    assert AssignmentWord(s);
    assert BareAssignment(s, RustSafe);
    RustQuotingReadsBack([s]);
    RustSafeIsHarmless();
    hide Join, RawWords, AssignmentWord, Tokenize, CommandOf;
    JoinedRuns([s], RustSafe);
  }

  /** Read back as the one word `if`, run as the start of a compound command. */
  lemma ReservedIsNoCommand()
    ensures Tokenize(Join(["if"], RustSafe)) == Some(["if"])
    ensures RawWords(Join(["if"], RustSafe)).Some? && CommandOf(Join(["if"], RustSafe)) == None
  {
    var s := "if";
    assert BareReserved(s, RustSafe);
    RustQuotingReadsBack([s]);
    RustSafeIsHarmless();
    hide Join, RawWords, AssignmentWord, Tokenize, CommandOf, Reserved;
    JoinedRuns([s], RustSafe);
  }

  lemma SwiftQuotedIsNoAssignment(s: string, letter: char -> bool)
    requires !letter('=')
    ensures !AssignmentWord(Quote(s, SwiftSafe(letter)))
  {
    if s != [] && All(s, SwiftSafe(letter)) {
      assert forall i | 0 <= i < |s| :: SwiftSafe(letter)(s[i]);
    } else {
      assert Quote(s, SwiftSafe(letter))[0] == '\'';
    }
  }

  /** Quoted by the Swift function, the first word is the command exactly when it is no bare reserved word. */
  lemma SwiftJoinedCommand(argv: seq<string>, letter: char -> bool)
    requires Harmless(letter) && !letter('=')
    ensures RawWords(Join(argv, SwiftSafe(letter))).Some?
    ensures CommandOf(Join(argv, SwiftSafe(letter))) == Some(0)
       <==> argv != [] && !BareReserved(argv[0], SwiftSafe(letter))
  {
    assert Harmless(SwiftSafe(letter));
    hide Join, RawWords, AssignmentWord, Quote, Harmless, CommandOf, BareReserved;
    JoinedRuns(argv, SwiftSafe(letter));
    if argv != [] {
      SwiftQuotedIsNoAssignment(argv[0], letter);
      QuotedAssignment(argv[0], SwiftSafe(letter));
    }
  }

  // ---- the ssh argv ----

  /**
   The non-interactive ssh argv: fixed options, the target, `--`, and one last argument that the remote
   shell reads back as exactly the remote argv.
   */
  method SshArgv(user: string, host: string, port: nat, knownHosts: string, remote: seq<string>, timeout: nat)
    returns (argv: seq<string>)
    ensures |argv| == 14
    ensures argv[..7] == ["ssh", "-o", "BatchMode=yes", "-o", "StrictHostKeyChecking=yes",
                          "-o", "UserKnownHostsFile=" + knownHosts]
    ensures argv[7..13] == ["-o", "ConnectTimeout=" + Decimal(timeout), "-p", Decimal(port), user + "@" + host, "--"]
    ensures Tokenize(argv[13]) == Some(remote)
  {
    RustQuotingReadsBack(remote);
    argv := ["ssh", "-o", "BatchMode=yes"];
    argv := argv + ["-o", "StrictHostKeyChecking=yes", "-o", "UserKnownHostsFile=" + knownHosts];
    argv := argv + ["-o", "ConnectTimeout=" + Decimal(timeout), "-p", Decimal(port)];
    argv := argv + [user + "@" + host, "--", Join(remote, RustSafe)];
  }
}
