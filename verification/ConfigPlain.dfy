/**
 The config file as it is usually written: keys and values without quotes, with blanks and comments around them, and
 settings left out that have a default.
 */
module ConfigPlain {
  import opened Text
  import opened Config

  // ---- one line ----

  /** A text in one pair of like quotes stands for what is inside; any other for itself. */
  ghost function Bare(s: string): (r: string) {
    if QuotedText(s) then s[1..|s| - 1] else s
  }

  predicate QuotedText(s: string) {
    |s| >= 2 && s[0] == s[|s| - 1] && s[0] in {'"', '\''}
  }

  lemma BareIsUnquoted(s: string)
    ensures Unquote(s) == Bare(s)
    ensures Bare(s) == s <==> !QuotedText(s)
  {
  }

  /** A comment, or nothing. */
  predicate CommentOrNothing(c: string) {
    c == [] || c[0] == '#'
  }

  /**
   The parts of a significant line: its indentation (spaces, then perhaps other blanks that do not count), the key, the
   value, blanks around them and a comment.
   */
  datatype Parts = Parts(indent: nat, tabs: string, key: string, afterKey: string, before: string, value: string,
                         after: string, comment: string)

  predicate Proper(p: Parts) {
    && Blanks(p.tabs) && (p.tabs == [] || p.tabs[0] != ' ')
    && Trimmed(p.key) && NoneAre(p.key, ':') && (p.key == [] || p.key[0] != '#')
    && Blanks(p.afterKey) && (p.key == [] ==> p.afterKey == [])
    && Blanks(p.before) && Blanks(p.after)
    && Trimmed(p.value) && NoneAre(p.value, '#') && CommentOrNothing(p.comment)
  }

  function Written(p: Parts): (raw: string) {
    Spaces(p.indent) + p.tabs + p.key + p.afterKey + [':'] + p.before + p.value + p.after + p.comment
  }

  lemma SpacesAreBlanks(n: nat)
    ensures Blanks(Spaces(n))
  {
  }

  lemma BlanksConcat(a: string, b: string)
    requires Blanks(a) && Blanks(b)
    ensures Blanks(a + b) && NoneAre(a, ':') && NoneAre(a, '#')
  {
  }

  /** What is left of a value with its comment. */
  lemma ValueRead(before: string, value: string, after: string, comment: string)
    requires Blanks(before) && Blanks(after) && Trimmed(value) && NoneAre(value, '#') && CommentOrNothing(comment)
    ensures ValueOf(Trim(before + value + after + comment))
            == if value == "" || value == "{}" then None else Some(Bare(value))
  {
    hide Unquote, Trim, Find;
    BareIsUnquoted(value);
    if comment == [] {
      TrimExact(before, value, after);
      assert before + value + after + comment == before + value + after;
      FindIs(value, '#', |value|);
    } else {
      CommentCut(before, value, after, comment);
    }
  }

  lemma CommentCut(before: string, value: string, after: string, comment: string)
    requires Blanks(before) && Blanks(after) && Trimmed(value) && NoneAre(value, '#')
    requires comment != [] && comment[0] == '#'
    ensures var rest := Trim(before + value + after + comment);
            Find(rest, '#') < |rest| && Trim(rest[..Find(rest, '#')]) == value
  {
    hide Trim, TrimEnd, Find;
    var inner := if value == [] then [] else value + after;
    var tail := TrimEnd(comment);
    CommentKeepsHash(comment);
    TrimmedWithComment(before, value, after, comment);
    InnerReads(value, after);
    var rest := inner + tail;
    assert rest[..|inner|] == inner && rest[|inner|] == '#';
    FindIs(rest, '#', |inner|);
  }

  lemma BlanksHaveNoHash(s: string)
    requires Blanks(s)
    ensures NoneAre(s, '#')
  {
  }

  lemma {:induction false} InnerReads(value: string, after: string)
    requires Blanks(after) && Trimmed(value) && NoneAre(value, '#')
    ensures var inner := if value == [] then [] else value + after; NoneAre(inner, '#') && Trim(inner) == value
  {
    BlanksHaveNoHash(after);
    assert NoneAre(value + after, '#');
    hide Trim, Trimmed, Blanks, NoneAre;
    if value == [] {
      assert Trimmed([]);
      TrimIdempotent([]);
    } else {
      TrimExact([], value, after);
      assert [] + value + after == value + after;
    }
  }

  lemma {:induction false} CommentKeepsHash(comment: string)
    requires comment != [] && comment[0] == '#'
    ensures TrimEnd(comment) != [] && TrimEnd(comment)[0] == '#'
    decreases |comment|
  {
    if IsSpace(comment[|comment| - 1]) { CommentKeepsHash(comment[..|comment| - 1]); }
  }

  lemma {:induction false} TrimEndConcat(a: string, b: string)
    requires TrimEnd(b) != []
    ensures TrimEnd(a + b) == a + TrimEnd(b)
    decreases |b|
  {
    assert b != [];
    assert (a + b)[|a + b| - 1] == b[|b| - 1];
    if IsSpace(b[|b| - 1]) {
      assert (a + b)[..|a + b| - 1] == a + b[..|b| - 1];
      TrimEndConcat(a, b[..|b| - 1]);
    }
  }

  lemma {:induction false} TrimmedComment(lead: string, comment: string)
    requires Blanks(lead) && comment != [] && comment[0] == '#'
    ensures Trim(lead + comment) == TrimEnd(comment)
  {
    TrimStartBlanks(lead, comment);
  }

  lemma {:induction false} TrimmedBody(before: string, value: string, after: string, comment: string)
    requires Blanks(before) && value != [] && Trimmed(value) && comment != [] && comment[0] == '#'
    ensures Trim(before + (value + after + comment)) == value + after + TrimEnd(comment)
  {
    StartOfBody(value, after, comment);
    CommentKeepsHash(comment);
    TrimStartBlanks(before, value + after + comment);
    TrimEndConcat(value + after, comment);
  }

  lemma {:induction false} TrimmedWithComment(before: string, value: string, after: string, comment: string)
    requires Blanks(before) && Blanks(after) && Trimmed(value)
    requires comment != [] && comment[0] == '#'
    ensures Trim(before + value + after + comment)
            == (if value == [] then [] else value + after) + TrimEnd(comment)
  {
    hide Trim, TrimEnd, Blanks;
    if value == [] {
      BlanksConcat(before, after);
      TrimmedComment(before + after, comment);
      assert before + value + after + comment == (before + after) + comment;
      assert [] + TrimEnd(comment) == TrimEnd(comment);
    } else {
      TrimmedBody(before, value, after, comment);
      assert before + value + after + comment == before + (value + after + comment);
    }
  }

  lemma StartOfBody(value: string, after: string, comment: string)
    requires value != [] && Trimmed(value)
    ensures var body := value + after + comment; body != [] && !IsSpace(body[0])
  {
  }

  /** Any such line reads as its indentation, its key and its value, no value standing for a nested block. */
  lemma LineReads(p: Parts)
    requires Proper(p)
    ensures ReadLine(Written(p))
            == Some(Line(p.indent, Bare(p.key), if p.value == "" || p.value == "{}" then None else Some(Bare(p.value))))
  {
    hide Trim, Unquote, ValueOf, Find, LeadingSpaces;
    var raw, lead := Written(p), Spaces(p.indent) + p.tabs;
    var name, rest := lead + p.key + p.afterKey, p.before + p.value + p.after + p.comment;
    assert raw == name + [':'] + rest;
    SpacesAreBlanks(p.indent);
    BlanksConcat(Spaces(p.indent), p.tabs);
    BlanksConcat(p.afterKey, p.afterKey);
    BlanksConcat(lead, lead);
    assert raw[..|name|] == name && raw[|name|] == ':' && raw[|name| + 1..] == rest;
    assert NoneAre(name, ':');
    FindIs(raw, ':', |name|);
    TrimExact(lead, p.key, p.afterKey);
    BareIsUnquoted(p.key);
    ValueRead(p.before, p.value, p.after, p.comment);
    IndentRead(p);
    IsSignificant(p);
  }

  lemma IndentRead(p: Parts)
    requires Proper(p)
    ensures LeadingSpaces(Written(p)) == p.indent
  {
    var raw := Written(p);
    assert p.tabs == [] && p.key != [] ==> p.key[0] != ' ';
    assert raw[p.indent] == if p.tabs != [] then p.tabs[0] else if p.key != [] then p.key[0] else ':';
    LeadingIs(raw, p.indent);
  }

  lemma {:induction false} TrimStartsWith(a: string, s: string)
    requires Blanks(a) && s != [] && !IsSpace(s[0])
    ensures Trim(a + s) != [] && Trim(a + s)[0] == s[0]
  {
    TrimStartBlanks(a, s);
    TrimEndKeepsFirst(s);
  }

  lemma {:induction false} TrimEndKeepsFirst(s: string)
    requires s != [] && !IsSpace(s[0])
    ensures TrimEnd(s) != [] && TrimEnd(s)[0] == s[0]
    decreases |s|
  {
    if IsSpace(s[|s| - 1]) { TrimEndKeepsFirst(s[..|s| - 1]); }
  }

  lemma IsSignificant(p: Parts)
    requires Proper(p)
    ensures Trim(Written(p)) != [] && Trim(Written(p))[0] != '#'
  {
    hide Trim, Spaces, Bare;
    var lead := Spaces(p.indent) + p.tabs;
    var s := p.key + p.afterKey + [':'] + p.before + p.value + p.after + p.comment;
    SpacesAreBlanks(p.indent);
    BlanksConcat(Spaces(p.indent), p.tabs);
    assert Written(p) == lead + s;
    assert s[0] == if p.key != [] then p.key[0] else ':';
    TrimStartsWith(lead, s);
  }

  /** Blank lines, comment lines and lines without a colon are skipped. */
  lemma SkippedLines(a: string, comment: string, text: string)
    requires Blanks(a) && CommentOrNothing(comment) && NoneAre(text, ':')
    ensures ReadLine(a + comment).None? && ReadLine(text).None?
  {
    FindIs(text, ':', |text|);
    if comment == [] {
      TrimBlanks(a);
      assert a + comment == a;
    } else {
      TrimStartsWith(a, comment);
    }
  }

  // ---- plain lines ----

  /** A key that can stand without quotes. */
  predicate PlainKey(k: string) {
    Trimmed(k) && NoneAre(k, ':') && (k == [] || k[0] != '#') && !QuotedText(k)
  }

  /** A value that can. */
  predicate PlainValue(v: string) {
    Trimmed(v) && v != "" && v != "{}" && NoneAre(v, '#') && !QuotedText(v)
  }

  function PlainLine(l: Line): (raw: string) {
    Spaces(l.indent) + l.key + [':'] + (if l.value.Some? then [' '] + l.value.value else [])
  }

  lemma PlainIsWritten(l: Line, v: string)
    requires v == (if l.value.Some? then l.value.value else [])
    ensures PlainLine(l) == Written(Parts(l.indent, [], l.key, [], if l.value.Some? then [' '] else [], v, [], []))
  {
  }

  /** Without quotes, a line with a plain key reads back exactly when it has no value or a plain one. */
  lemma PlainLineExact(l: Line)
    requires PlainKey(l.key)
    ensures ReadLine(PlainLine(l)) == Some(l) <==> (l.value.Some? ==> PlainValue(l.value.value))
  {
    if l.value.None? || PlainValue(l.value.value) {
      hide ReadLine, Written, PlainLine;
      var v := if l.value.Some? then l.value.value else [];
      PlainIsWritten(l, v);
      LineReads(Parts(l.indent, [], l.key, [], if l.value.Some? then [' '] else [], v, [], []));
    } else {
      PlainPrefix(l);
      OnlyPlainComesBack(l.value.value);
    }
  }

  /** Whatever the value, the line's value is what is read after the colon. */
  lemma PlainPrefix(l: Line)
    requires PlainKey(l.key) && l.value.Some?
    ensures ReadLine(PlainLine(l)).Some? && ReadLine(PlainLine(l)).value.value == ValueOf(Trim([' '] + l.value.value))
  {
    hide Trim, Unquote, ValueOf, LeadingSpaces, Find;
    var raw, name := PlainLine(l), Spaces(l.indent) + l.key;
    var rest := [' '] + l.value.value;
    assert raw == name + [':'] + rest;
    SpacesAreBlanks(l.indent);
    BlanksConcat(Spaces(l.indent), []);
    assert raw[..|name|] == name && raw[|name|] == ':' && raw[|name| + 1..] == rest;
    FindIs(raw, ':', |name|);
    var tail := l.key + [':'] + rest;
    assert raw == Spaces(l.indent) + tail && tail[0] == if l.key != [] then l.key[0] else ':';
    TrimStartsWith(Spaces(l.indent), tail);
  }

  lemma TrimShortens(s: string)
    ensures |Trim(s)| <= |s|
  {
  }

  lemma OnlyPlainComesBack(v: string)
    ensures ValueOf(Trim([' '] + v)) == Some(v) ==> PlainValue(v)
  {
    var rest := Trim([' '] + v);
    LeadingBlankGoes(v);
    ValueHasNoHash(rest);
    var cut := Find(rest, '#');
    var core := if cut < |rest| then Trim(rest[..cut]) else rest;
    if cut < |rest| { TrimShortens(rest[..cut]); }
    BareIsUnquoted(core);
    hide Trim, Find;
  }

  lemma LeadingBlankGoes(v: string)
    ensures |Trim([' '] + v)| <= |v|
  {
    assert ([' '] + v)[1..] == v;
    assert TrimStart([' '] + v) == TrimStart(v);
  }

  // ---- whole texts ----

  /** Any way of writing the lines of a tree, one that reads as them line by line, reads as the tree. */
  lemma AnyWritingReads(es: seq<Entry>, step: nat, raws: seq<string>)
    requires step > 0 && |raws| == |Render(es, 0, step)|
    requires forall i | 0 <= i < |raws| :: NoneAre(raws[i], '\n') && ReadLine(raws[i]) == Some(Render(es, 0, step)[i])
    ensures Parse(if raws == [] then [] else Unlines(raws)) == Map(ToMap(es))
  {
    hide ReadLine, NoneAre;
    var ls := Render(es, 0, step);
    AllRead(raws, ls);
    BlockRendered([], es, [], 0, step, -1);
    assert [] + ls + [] == ls;
    if raws == [] {
      EmptyTextHasNoLines();
    } else {
      LinesOfUnlines(raws);
    }
  }

  lemma {:induction false} AllRead(raws: seq<string>, ls: seq<Line>)
    requires |raws| == |ls| && forall i | 0 <= i < |raws| :: ReadLine(raws[i]) == Some(ls[i])
    ensures ReadLines(raws) == ls
  {
    hide ReadLine;
    if raws != [] {
      AllRead(raws[1..], ls[1..]);
      assert [ls[0]] + ls[1..] == ls;
    }
  }

  function PlainText(es: seq<Entry>, step: nat): (text: string) {
    var ls := Render(es, 0, step);
    var raws := seq(|ls|, i requires 0 <= i < |ls| => PlainLine(ls[i]));
    if raws == [] then [] else Unlines(raws)
  }

  predicate PlainEntry(e: Entry) {
    && PlainKey(e.key) && NoneAre(e.key, '\n')
    && match e.tree
       case Leaf(text) => PlainValue(text) && NoneAre(text, '\n')
       case Branch(es) => forall f | f in es :: PlainEntry(f)
  }

  predicate PlainReads(l: Line) {
    && PlainKey(l.key) && NoneAre(l.key, '\n')
    && (l.value.Some? ==> PlainValue(l.value.value) && NoneAre(l.value.value, '\n'))
  }

  lemma {:induction false} RenderPlain(es: seq<Entry>, indent: nat, step: nat)
    requires forall e | e in es :: PlainEntry(e)
    ensures forall l | l in Render(es, indent, step) :: PlainReads(l)
    decreases es
  {
    hide PlainKey, PlainValue, NoneAre;
    if es != [] {
      assert es[0] in es && PlainEntry(es[0]);
      assert forall e | e in es[1..] :: e in es;
      RenderPlain(es[1..], indent, step);
      if es[0].tree.Branch? {
        RenderPlain(es[0].tree.entries, indent + step, step);
        assert PlainReads(Line(indent, es[0].key, None));
      } else {
        assert PlainReads(Line(indent, es[0].key, Some(es[0].tree.text)));
      }
    }
  }

  lemma PlainLineIsPlain(l: Line)
    requires PlainReads(l)
    ensures NoneAre(PlainLine(l), '\n') && ReadLine(PlainLine(l)) == Some(l)
  {
    NoLineEnd(l);
    hide ReadLine, PlainLine, PlainKey, PlainValue, NoneAre;
    PlainLineExact(l);
  }

  lemma NoLineEnd(l: Line)
    requires NoneAre(l.key, '\n') && (l.value.Some? ==> NoneAre(l.value.value, '\n'))
    ensures NoneAre(PlainLine(l), '\n')
  {
  }

  /** Every tree of plain keys and values survives being written without quotes and read back. */
  lemma PlainTreeRoundTrip(es: seq<Entry>, step: nat)
    requires step > 0 && forall e | e in es :: PlainEntry(e)
    ensures Parse(PlainText(es, step)) == Map(ToMap(es))
  {
    hide ReadLine, PlainEntry, PlainLine, PlainReads, Parse, Unlines;
    var ls := Render(es, 0, step);
    var raws := seq(|ls|, i requires 0 <= i < |ls| => PlainLine(ls[i]));
    RenderPlain(es, 0, step);
    forall i | 0 <= i < |ls|
      ensures NoneAre(raws[i], '\n') && ReadLine(raws[i]) == Some(ls[i])
    {
      assert ls[i] in ls;
      PlainLineIsPlain(ls[i]);
    }
    AnyWritingReads(es, step, raws);
  }

  // ---- settings left out ----

  /** `text` with its capitals `A` to `Z` made small. */
  ghost predicate IsLowered(low: string, text: string) {
    && |low| == |text|
    && forall i | 0 <= i < |text| ::
         if 'A' <= text[i] <= 'Z' then low[i] == "abcdefghijklmnopqrstuvwxyz"[text[i] as int - 65]
         else low[i] == text[i]
  }

  lemma LowerIsLowered(text: string)
    ensures IsLowered(Lower(text), text)
  {
    var small := "abcdefghijklmnopqrstuvwxyz";
    assert forall n | 0 <= n < 26 :: small[n] as int == 97 + n;
  }

  function Unless(default: bool, key: string, text: string): (es: seq<Entry>) {
    if default then [] else [Entry(key, Leaf(text))]
  }

  /** A server's block with everything left out that reads so by default. */
  function ShortFields(s: Server): (es: seq<Entry>) {
    Unless(s.host == s.name, "host", s.host)
    + Unless(s.httpPort == 8080, "http_port", Decimal(s.httpPort))
    + Unless(s.sshPort == 22, "ssh_port", Decimal(s.sshPort))
    + Unless(s.controlToken == "", "control_token", s.controlToken)
    + Unless(s.apiUrl == "", "api_url", s.apiUrl)
    + Unless(s.tlsCertFingerprint == "", "tls_cert_fingerprint", s.tlsCertFingerprint)
  }

  lemma {:induction false} ToMapStep(es: seq<Entry>)
    requires es != []
    ensures ToMap(es) == map[es[0].key := ToNode(es[0].tree)] + ToMap(es[1..])
  {
    hide ToNode;
  }

  lemma Reassociate(a: map<string, Node>, b: map<string, Node>, c: map<string, Node>)
    ensures a + (b + c) == a + b + c
  {
  }

  lemma {:induction false} ToMapConcat(a: seq<Entry>, b: seq<Entry>)
    ensures ToMap(a + b) == ToMap(a) + ToMap(b)
  {
    hide ToNode;
    if a == [] {
      assert a + b == b;
    } else {
      assert (a + b)[1..] == a[1..] + b;
      hide ToMap;
      ToMapConcat(a[1..], b);
      ToMapStep(a);
      ToMapStep(a + b);
      Reassociate(map[a[0].key := ToNode(a[0].tree)], ToMap(a[1..]), ToMap(b));
    }
  }

  /** One more setting decides its own key and leaves the others. */
  lemma UnlessReads(es: seq<Entry>, default: bool, key: string, text: string, k: string)
    ensures ScalarAt(ToMap(es + Unless(default, key, text)), k)
            == if !default && k == key then Some(text) else ScalarAt(ToMap(es), k)
  {
    if default {
      assert es + Unless(default, key, text) == es;
    } else {
      var one := [Entry(key, Leaf(text))];
      assert one[1..] == [] && ToMap(one) == map[key := Scalar(text)];
      hide ToMap;
      ToMapConcat(es, one);
    }
  }

  ghost function Setting(s: Server, k: string): (r: Option<string>) {
    if s.tlsCertFingerprint != "" && k == "tls_cert_fingerprint" then Some(s.tlsCertFingerprint)
    else if s.apiUrl != "" && k == "api_url" then Some(s.apiUrl)
    else if s.controlToken != "" && k == "control_token" then Some(s.controlToken)
    else if s.sshPort != 22 && k == "ssh_port" then Some(Decimal(s.sshPort))
    else if s.httpPort != 8080 && k == "http_port" then Some(Decimal(s.httpPort))
    else if s.host != s.name && k == "host" then Some(s.host)
    else None
  }

  lemma SettingReads(s: Server, k: string)
    ensures ScalarAt(ToMap(ShortFields(s)), k) == Setting(s, k)
  {
    hide ToMap, Decimal, Unless, ScalarAt;
    var a := Unless(s.host == s.name, "host", s.host);
    var b := a + Unless(s.httpPort == 8080, "http_port", Decimal(s.httpPort));
    var c := b + Unless(s.sshPort == 22, "ssh_port", Decimal(s.sshPort));
    var d := c + Unless(s.controlToken == "", "control_token", s.controlToken);
    var e := d + Unless(s.apiUrl == "", "api_url", s.apiUrl);
    UnlessReads([], s.host == s.name, "host", s.host, k);
    assert [] + a == a;
    NothingSet(k);
    UnlessReads(a, s.httpPort == 8080, "http_port", Decimal(s.httpPort), k);
    UnlessReads(b, s.sshPort == 22, "ssh_port", Decimal(s.sshPort), k);
    UnlessReads(c, s.controlToken == "", "control_token", s.controlToken, k);
    UnlessReads(d, s.apiUrl == "", "api_url", s.apiUrl, k);
    UnlessReads(e, s.tlsCertFingerprint == "", "tls_cert_fingerprint", s.tlsCertFingerprint, k);
  }

  lemma NothingSet(k: string)
    ensures ScalarAt(ToMap([]), k) == None
  {
  }

  /** What is left out reads as its default: the name as host, ports 8080 and 22, nothing for the rest. */
  lemma ShortFieldsRead(s: Server)
    requires s.httpPort <= 65535 && s.sshPort <= 65535
    ensures ServerOf(s.name, ToMap(ShortFields(s))) == s.(tlsCertFingerprint := Lower(s.tlsCertFingerprint))
  {
    PortParses(s.httpPort);
    PortParses(s.sshPort);
    LowerOfNothing();
    SettingIs(s);
    hide Lower, Decimal, ParseU16, ToMap, ShortFields, ScalarAt, Setting;
    SettingReads(s, "host");
    SettingReads(s, "http_port");
    SettingReads(s, "ssh_port");
    SettingReads(s, "control_token");
    SettingReads(s, "api_url");
    SettingReads(s, "tls_cert_fingerprint");
  }

  lemma SettingIs(s: Server)
    ensures Setting(s, "host") == (if s.host == s.name then None else Some(s.host))
    ensures Setting(s, "http_port") == (if s.httpPort == 8080 then None else Some(Decimal(s.httpPort)))
    ensures Setting(s, "ssh_port") == (if s.sshPort == 22 then None else Some(Decimal(s.sshPort)))
    ensures Setting(s, "control_token") == (if s.controlToken == "" then None else Some(s.controlToken))
    ensures Setting(s, "api_url") == (if s.apiUrl == "" then None else Some(s.apiUrl))
    ensures Setting(s, "tls_cert_fingerprint")
            == (if s.tlsCertFingerprint == "" then None else Some(s.tlsCertFingerprint))
  {
    assert |"host"| == 4 && |"http_port"| == 9 && |"ssh_port"| == 8 && |"control_token"| == 13 && |"api_url"| == 7;
    assert |"tls_cert_fingerprint"| == 20;
  }

  lemma LowerOfNothing()
    ensures Lower("") == ""
  {
  }

  function ShortEntries(servers: seq<Server>): (es: seq<Entry>)
    ensures |es| == |servers|
    ensures forall i | 0 <= i < |servers| :: es[i] == Entry(servers[i].name, Branch(ShortFields(servers[i])))
  {
    seq(|servers|, i requires 0 <= i < |servers| => Entry(servers[i].name, Branch(ShortFields(servers[i]))))
  }

  function ShortConfig(c: ShedConfig): (es: seq<Entry>) {
    [Entry("servers", Branch(ShortEntries(c.servers)))]
    + if c.defaultServer.Some? then [Entry("default_server", Leaf(c.defaultServer.value))] else []
  }

  predicate Writable(default: bool, text: string) {
    default || (PlainValue(text) && NoneAre(text, '\n'))
  }

  /** A server that can be written without quotes: 16-bit ports, a plain name, each text plain or its default. */
  predicate PlainServer(s: Server) {
    && s.httpPort <= 65535 && s.sshPort <= 65535 && PlainKey(s.name) && NoneAre(s.name, '\n')
    && Writable(s.host == s.name, s.host) && Writable(s.controlToken == "", s.controlToken)
    && Writable(s.apiUrl == "", s.apiUrl) && Writable(s.tlsCertFingerprint == "", s.tlsCertFingerprint)
  }

  predicate PlainConfig(c: ShedConfig) {
    && Sorted(c.servers) && (forall i | 0 <= i < |c.servers| :: PlainServer(c.servers[i]))
    && (c.defaultServer.Some? ==> Writable(false, c.defaultServer.value))
  }

  ghost function Read(servers: seq<Server>): (r: seq<Server>)
    ensures |r| == |servers|
    ensures forall i | 0 <= i < |servers| ::
              r[i] == servers[i].(tlsCertFingerprint := Lower(servers[i].tlsCertFingerprint))
  {
    seq(|servers|, i requires 0 <= i < |servers| =>
      servers[i].(tlsCertFingerprint := Lower(servers[i].tlsCertFingerprint)))
  }

  lemma DecimalIsPlain(n: nat)
    ensures Writable(false, Decimal(n))
  {
    DecimalParses(n);
    hide Decimal, DigitsValue;
    var s := Decimal(n);
    assert '0' <= s[0] <= '9' && '0' <= s[|s| - 1] <= '9' && "{}"[0] == '{';
  }

  lemma PlainLeaf(default: bool, key: string, text: string)
    requires Writable(default, text) && PlainKey(key) && NoneAre(key, '\n')
    ensures forall e | e in Unless(default, key, text) :: PlainEntry(e)
  {
  }

  lemma WordIsPlain(k: string)
    requires k != [] && forall i | 0 <= i < |k| :: k[i] == '_' || 'a' <= k[i] <= 'z'
    ensures PlainKey(k) && NoneAre(k, '\n')
  {
  }

  lemma PlainFieldKeys()
    ensures forall k | k in {"host", "http_port", "ssh_port", "control_token", "api_url", "tls_cert_fingerprint",
                             "servers", "default_server"} :: PlainKey(k) && NoneAre(k, '\n')
  {
    hide PlainKey, NoneAre;
    WordIsPlain("host");
    WordIsPlain("http_port");
    WordIsPlain("ssh_port");
    WordIsPlain("control_token");
    WordIsPlain("api_url");
    WordIsPlain("tls_cert_fingerprint");
    WordIsPlain("servers");
    WordIsPlain("default_server");
  }

  lemma PlainFields(s: Server)
    requires PlainServer(s)
    ensures forall e | e in ShortFields(s) :: PlainEntry(e)
  {
    PlainFieldKeys();
    DecimalIsPlain(s.httpPort);
    DecimalIsPlain(s.sshPort);
    hide Decimal, PlainKey, PlainValue, NoneAre, PlainEntry, Unless;
    PlainLeaf(s.host == s.name, "host", s.host);
    PlainLeaf(s.httpPort == 8080, "http_port", Decimal(s.httpPort));
    PlainLeaf(s.sshPort == 22, "ssh_port", Decimal(s.sshPort));
    PlainLeaf(s.controlToken == "", "control_token", s.controlToken);
    PlainLeaf(s.apiUrl == "", "api_url", s.apiUrl);
    PlainLeaf(s.tlsCertFingerprint == "", "tls_cert_fingerprint", s.tlsCertFingerprint);
  }

  lemma PlainBlocks(servers: seq<Server>)
    requires forall i | 0 <= i < |servers| :: PlainServer(servers[i])
    ensures forall e | e in ShortEntries(servers) :: PlainEntry(e)
  {
    var es := ShortEntries(servers);
    forall e | e in es
      ensures PlainEntry(e)
    {
      hide PlainKey, Writable, ShortFields;
      var i :| 0 <= i < |es| && es[i] == e;
      PlainFields(servers[i]);
    }
  }

  lemma PlainConfigEntries(c: ShedConfig)
    requires PlainConfig(c)
    ensures forall e | e in ShortConfig(c) :: PlainEntry(e)
  {
    PlainFieldKeys();
    hide PlainKey, PlainValue, NoneAre, ShortEntries, Sorted, PlainServer;
    PlainBlocks(c.servers);
    assert PlainEntry(Entry("servers", Branch(ShortEntries(c.servers))));
  }

  lemma ReadStaysSorted(servers: seq<Server>)
    requires Sorted(servers)
    ensures Sorted(Read(servers))
  {
    hide Less;
  }

  lemma ShortServersRead(servers: seq<Server>)
    requires Sorted(servers) && forall i | 0 <= i < |servers| :: PlainServer(servers[i])
    ensures IsServerList(Read(servers), ToMap(ShortEntries(servers)))
  {
    var es, list := ShortEntries(servers), Read(servers);
    var blocks := ToMap(es);
    ReadStaysSorted(servers);
    ShortNamesDistinct(servers);
    hide ToMap, DistinctKeys, ServerOf, ShortFields, Sorted, PlainKey, Writable;
    forall i | 0 <= i < |servers|
      ensures Reads(list[i], blocks) && ServerOf(servers[i].name, blocks[servers[i].name].entries) == list[i]
    {
      ToMapHas(es, i);
      ShortFieldsRead(servers[i]);
    }
    forall name | name in blocks && blocks[name].Map?
      ensures ServerOf(name, blocks[name].entries) in list
    {
      ToMapKeys(es, name);
      var i :| 0 <= i < |es| && es[i].key == name;
      assert servers[i].name == name;
    }
  }

  lemma ShortNamesDistinct(servers: seq<Server>)
    requires Sorted(servers)
    ensures DistinctKeys(ShortEntries(servers))
  {
    hide Less, ShortFields;
    forall i, j | 0 <= i < j < |servers|
      ensures servers[i].name != servers[j].name
    {
      LessTotal(servers[i].name, servers[j].name);
    }
  }

  lemma ShortConfigRead(c: ShedConfig)
    requires PlainConfig(c)
    ensures IsConfig(ShedConfig(Read(c.servers), c.defaultServer), ToMap(ShortConfig(c)))
  {
    var es := ShortConfig(c);
    ShortServersRead(c.servers);
    assert |"servers"| == 7 && |"default_server"| == 14;
    assert DistinctKeys(es);
    ToMapKeys(es, "default_server");
    hide ToMap, DistinctKeys, IsServerList, PlainConfig;
    ToMapHas(es, 0);
    if c.defaultServer.Some? { ToMapHas(es, 1); }
  }

  /**
   A config written plainly, with every default left out, reads back as itself: the servers in order, each with its
   fields, the pin in small letters.
   */
  lemma PlainConfigRoundTrip(c: ShedConfig, step: nat, d: ShedConfig)
    requires PlainConfig(c) && step > 0 && IsConfig(d, Parse(PlainText(ShortConfig(c), step)).entries)
    ensures d.defaultServer == c.defaultServer && |d.servers| == |c.servers|
    ensures forall i | 0 <= i < |c.servers| ::
              var s, t := c.servers[i], d.servers[i];
              && t == s.(tlsCertFingerprint := t.tlsCertFingerprint)
              && IsLowered(t.tlsCertFingerprint, s.tlsCertFingerprint)
  {
    hide PlainConfig, IsConfig, Parse, PlainText, PlainEntry, ToMap, ShortConfig, Lower, IsLowered;
    PlainConfigEntries(c);
    PlainTreeRoundTrip(ShortConfig(c), step);
    ShortConfigRead(c);
    ConfigIsUnique(ShedConfig(Read(c.servers), c.defaultServer), d, ToMap(ShortConfig(c)));
    forall i | 0 <= i < |c.servers|
      ensures IsLowered(d.servers[i].tlsCertFingerprint, c.servers[i].tlsCertFingerprint)
    {
      LowerIsLowered(c.servers[i].tlsCertFingerprint);
    }
  }
}
