/**
 The host-discovery config reader: a tiny indentation-based reader of nested maps and scalars, and the
 server list read off the resulting tree.
 */
module Config {
  import opened Text

  datatype Node = Map(entries: map<string, Node>) | Scalar(text: string)

  /** A significant line; no value means a nested block follows. */
  datatype Line = Line(indent: nat, key: string, value: Option<string>)

  // ---- lines of text ----

  function Unquote(s: string): (r: string) {
    if |s| >= 2 && ((s[0] == '"' && s[|s| - 1] == '"') || (s[0] == '\'' && s[|s| - 1] == '\''))
    then s[1..|s| - 1] else s
  }

  function LeadingSpaces(s: string): (n: nat)
    ensures n <= |s| && (forall i | 0 <= i < n :: s[i] == ' ') && (n < |s| ==> s[n] != ' ')
  {
    if s != [] && s[0] == ' ' then 1 + LeadingSpaces(s[1..]) else 0
  }

  function ValueOf(rest0: string): (v: Option<string>) {
    var rest := if Find(rest0, '#') < |rest0| then Trim(rest0[..Find(rest0, '#')]) else rest0;
    if rest == [] || rest == "{}" then None else Some(Unquote(rest))
  }

  /** Blank lines, comment lines and lines without a colon are not significant. */
  function ReadLine(raw: string): (l: Option<Line>) {
    var trimmed := Trim(raw);
    if trimmed == [] || trimmed[0] == '#' then None
    else
      var colon := Find(raw, ':');
      if colon == |raw| then None
      else Some(Line(LeadingSpaces(raw), Unquote(Trim(raw[..colon])), ValueOf(Trim(raw[colon + 1..]))))
  }

  function ReadLines(raws: seq<string>): (ls: seq<Line>) {
    if raws == [] then []
    else
      var rest := ReadLines(raws[1..]);
      match ReadLine(raws[0])
      case None => rest
      case Some(l) => [l] + rest
  }

  // ---- the tree ----

  datatype Built = Built(entries: map<string, Node>, next: nat)

  /** Reads the block at `index`, down to the first line at or below the parent's indent. */
  function Build(lines: seq<Line>, index: nat, parent: int): (b: Built)
    requires index <= |lines|
    ensures index <= b.next <= |lines|
    ensures b.next < |lines| ==> lines[b.next].indent <= parent
    decreases |lines| - index, 1
  {
    if index == |lines| then Built(map[], index) else BuildRest(lines, index, parent, lines[index].indent, map[])
  }

  function BuildRest(lines: seq<Line>, index: nat, parent: int, child: int, acc: map<string, Node>): (b: Built)
    requires index <= |lines|
    ensures index <= b.next <= |lines|
    ensures b.next < |lines| ==> lines[b.next].indent <= parent
    decreases |lines| - index, 0
  {
    if index == |lines| || lines[index].indent <= parent then Built(acc, index)
    else if lines[index].indent != child then BuildRest(lines, index + 1, parent, child, acc)
    else
      match lines[index].value
      case Some(v) => BuildRest(lines, index + 1, parent, child, acc[lines[index].key := Scalar(v)])
      case None =>
        var b := Build(lines, index + 1, child);
        BuildRest(lines, b.next, parent, child, acc[lines[index].key := Map(b.entries)])
  }

  function Parse(text: string): (n: Node)
    ensures n.Map?
  {
    Map(Build(ReadLines(Lines(text)), 0, -1).entries)
  }

  /** The reader's loop: a shared index that only moves forward, a map filled as it goes. */
  method BuildBlock(lines: seq<Line>, start: nat, parent: int) returns (entries: map<string, Node>, index: nat)
    requires start <= |lines|
    ensures Built(entries, index) == Build(lines, start, parent)
    ensures start <= index <= |lines|
    decreases |lines| - start
  {
    entries, index := map[], start;
    if index < |lines| {
      var child := lines[index].indent;
      while index < |lines|
        invariant start <= index <= |lines|
        invariant index == start ==> entries == map[]
        invariant BuildRest(lines, index, parent, child, entries) == Build(lines, start, parent)
        decreases |lines| - index
      {
        var indent := lines[index].indent;
        if indent <= parent {
          break;
        }
        if indent != child {
          index := index + 1;
          continue;
        }
        var key := lines[index].key;
        match lines[index].value {
          case Some(v) =>
            entries := entries[key := Scalar(v)];
            index := index + 1;
          case None =>
            var block, next := BuildBlock(lines, index + 1, child);
            entries := entries[key := Map(block)];
            index := next;
        }
      }
    }
  }

  // ---- rendering ----

  datatype Tree = Leaf(text: string) | Branch(entries: seq<Entry>)
  datatype Entry = Entry(key: string, tree: Tree)

  /** The tree a list of entries stands for; a later entry with the same key wins. */
  function ToMap(es: seq<Entry>): (m: map<string, Node>) {
    if es == [] then map[] else map[es[0].key := ToNode(es[0].tree)] + ToMap(es[1..])
  }

  function ToNode(t: Tree): (n: Node) {
    match t
    case Leaf(text) => Scalar(text)
    case Branch(es) => Map(ToMap(es))
  }

  /** One line per entry, nested blocks indented by `step` more. */
  function Render(es: seq<Entry>, indent: nat, step: nat): (ls: seq<Line>) {
    if es == [] then []
    else
      (match es[0].tree
       case Leaf(text) => [Line(indent, es[0].key, Some(text))]
       case Branch(sub) => [Line(indent, es[0].key, None)] + Render(sub, indent + step, step))
      + Render(es[1..], indent, step)
  }

  /** What follows the block: the end, or a line at or below the parent's indent. */
  predicate Ends(rest: seq<Line>, parent: int) {
    rest == [] || rest[0].indent <= parent
  }

  lemma RenderStarts(es: seq<Entry>, indent: nat, step: nat)
    requires es != []
    ensures Render(es, indent, step) != [] && Render(es, indent, step)[0].indent == indent
  {
  }

  lemma ReadLeaf(lines: seq<Line>, index: nat, parent: int, child: int, acc: map<string, Node>)
    requires index < |lines| && lines[index].indent == child > parent && lines[index].value.Some?
    ensures BuildRest(lines, index, parent, child, acc)
            == BuildRest(lines, index + 1, parent, child, acc[lines[index].key := Scalar(lines[index].value.value)])
  {
  }

  lemma ReadBranch(lines: seq<Line>, index: nat, parent: int, child: int, acc: map<string, Node>, b: Built)
    requires index < |lines| && lines[index].indent == child > parent && lines[index].value.None?
    requires Build(lines, index + 1, child) == b
    ensures BuildRest(lines, index, parent, child, acc)
            == BuildRest(lines, b.next, parent, child, acc[lines[index].key := Map(b.entries)])
  {
  }

  lemma AddEntry(acc: map<string, Node>, es: seq<Entry>)
    requires es != []
    ensures acc[es[0].key := ToNode(es[0].tree)] + ToMap(es[1..]) == acc + ToMap(es)
  {
    hide ToNode;
  }

  lemma NothingMore(lines: seq<Line>, index: nat, parent: int, child: int, acc: map<string, Node>)
    requires index <= |lines| && Ends(lines[index..], parent)
    ensures BuildRest(lines, index, parent, child, acc) == Built(acc, index)
  {
  }

  lemma SiblingsEnd(more: seq<Entry>, rest: seq<Line>, indent: nat, step: nat, parent: int)
    requires parent < indent && Ends(rest, parent)
    ensures Ends(Render(more, indent, step) + rest, indent)
  {
    if more != [] {
      RenderStarts(more, indent, step);
    } else {
      assert Render(more, indent, step) + rest == rest;
    }
  }

  lemma {:induction false} RestRendered(pre: seq<Line>, es: seq<Entry>, rest: seq<Line>,
                                        indent: nat, step: nat, parent: int, acc: map<string, Node>)
    requires step > 0 && parent < indent && Ends(rest, parent)
    ensures BuildRest(pre + Render(es, indent, step) + rest, |pre|, parent, indent, acc)
            == Built(acc + ToMap(es), |pre| + |Render(es, indent, step)|)
    decreases es, 0
  {
    hide BuildRest, Build, ToMap, Ends, Render;
    var lines := pre + Render(es, indent, step) + rest;
    if es == [] {
      RenderNothing(indent, step);
      assert lines == pre + rest && lines[|pre|..] == rest;
      EmptyMap(acc);
      NothingMore(lines, |pre|, parent, indent, acc);
    } else {
      AddEntry(acc, es);
      if es[0].tree.Leaf? {
        LeafRendered(pre, es, rest, indent, step, parent, acc);
        RestRendered(pre + [Line(indent, es[0].key, Some(es[0].tree.text))], es[1..], rest, indent, step, parent,
                     acc[es[0].key := Scalar(es[0].tree.text)]);
      } else {
        var sub := es[0].tree.entries;
        var upTo := pre + [Line(indent, es[0].key, None)];
        SiblingsEnd(es[1..], rest, indent, step, parent);
        BlockRendered(upTo, sub, Render(es[1..], indent, step) + rest, indent + step, step, indent);
        BranchRendered(pre, es, rest, indent, step, parent, acc);
        RestRendered(upTo + Render(sub, indent + step, step), es[1..], rest, indent, step, parent,
                     acc[es[0].key := Map(ToMap(sub))]);
      }
    }
  }

  lemma RenderNothing(indent: nat, step: nat)
    ensures Render([], indent, step) == []
  {
  }

  lemma LeafRendered(pre: seq<Line>, es: seq<Entry>, rest: seq<Line>,
                     indent: nat, step: nat, parent: int, acc: map<string, Node>)
    requires es != [] && es[0].tree.Leaf? && parent < indent
    ensures var head := [Line(indent, es[0].key, Some(es[0].tree.text))];
            var lines := pre + head + Render(es[1..], indent, step) + rest;
            && |Render(es, indent, step)| == 1 + |Render(es[1..], indent, step)|
            && pre + Render(es, indent, step) + rest == lines
            && BuildRest(lines, |pre|, parent, indent, acc)
               == BuildRest(lines, |pre + head|, parent, indent, acc[es[0].key := Scalar(es[0].tree.text)])
  {
    hide BuildRest;
    var head := [Line(indent, es[0].key, Some(es[0].tree.text))];
    var lines := pre + head + Render(es[1..], indent, step) + rest;
    assert Render(es, indent, step) == head + Render(es[1..], indent, step);
    assert lines[|pre|] == head[0];
    ReadLeaf(lines, |pre|, parent, indent, acc);
  }

  lemma RenderBranch(es: seq<Entry>, indent: nat, step: nat)
    requires es != [] && es[0].tree.Branch?
    ensures Render(es, indent, step)
            == [Line(indent, es[0].key, None)] + Render(es[0].tree.entries, indent + step, step)
               + Render(es[1..], indent, step)
  {
  }

  lemma Regroup(a: seq<Line>, b: seq<Line>, c: seq<Line>, d: seq<Line>, e: seq<Line>)
    ensures a + (b + c + d) + e == a + b + c + d + e == a + b + c + (d + e)
    ensures |b| > 0 ==> (a + b + c + d + e)[|a|] == b[0]
  {
  }

  lemma BranchRendered(pre: seq<Line>, es: seq<Entry>, rest: seq<Line>,
                       indent: nat, step: nat, parent: int, acc: map<string, Node>)
    requires es != [] && es[0].tree.Branch? && parent < indent
    requires var upTo := pre + [Line(indent, es[0].key, None)];
             var block := Render(es[0].tree.entries, indent + step, step);
             Build(upTo + block + (Render(es[1..], indent, step) + rest), |upTo|, indent)
             == Built(ToMap(es[0].tree.entries), |upTo| + |block|)
    ensures var upTo := pre + [Line(indent, es[0].key, None)];
            var block := Render(es[0].tree.entries, indent + step, step);
            var lines := upTo + block + Render(es[1..], indent, step) + rest;
            && |Render(es, indent, step)| == 1 + |block| + |Render(es[1..], indent, step)|
            && pre + Render(es, indent, step) + rest == lines
            && BuildRest(lines, |pre|, parent, indent, acc)
               == BuildRest(lines, |upTo + block|, parent, indent, acc[es[0].key := Map(ToMap(es[0].tree.entries))])
  {
    hide BuildRest, Build, ToMap, Render;
    var head := [Line(indent, es[0].key, None)];
    var block, tail := Render(es[0].tree.entries, indent + step, step), Render(es[1..], indent, step);
    var lines := pre + head + block + tail + rest;
    RenderBranch(es, indent, step);
    Regroup(pre, head, block, tail, rest);
    ReadBranch(lines, |pre|, parent, indent, acc, Built(ToMap(es[0].tree.entries), |pre + head| + |block|));
  }

  lemma EmptyMap(acc: map<string, Node>)
    ensures acc + ToMap([]) == acc
  {
  }

  /** A rendered block is consumed exactly, whatever follows it, and rebuilt as its tree. */
  lemma {:induction false} BlockRendered(pre: seq<Line>, es: seq<Entry>, rest: seq<Line>, indent: nat, step: nat,
                                         parent: int)
    requires step > 0 && parent < indent && Ends(rest, parent)
    ensures Build(pre + Render(es, indent, step) + rest, |pre|, parent)
            == Built(ToMap(es), |pre| + |Render(es, indent, step)|)
    decreases es, 1
  {
    var lines := pre + Render(es, indent, step) + rest;
    if es == [] {
      assert lines == pre + rest;
      if rest != [] { assert lines[|pre|] == rest[0]; }
    } else {
      RenderStarts(es, indent, step);
      assert lines[|pre|] == Render(es, indent, step)[0];
      RestRendered(pre, es, rest, indent, step, parent, map[]);
      assert map[] + ToMap(es) == ToMap(es);
    }
  }

  // ---- one line of text ----

  function Spaces(n: nat): (s: string)
    ensures |s| == n && forall i | 0 <= i < n :: s[i] == ' '
  {
    seq(n, i => ' ')
  }

  function Quoted(s: string): (r: string) {
    ['"'] + s + ['"']
  }

  /** A line with its key and value in double quotes. */
  function RawLine(l: Line): (raw: string) {
    Spaces(l.indent) + Quoted(l.key) + [':'] + (if l.value.Some? then [' '] + Quoted(l.value.value) else [])
  }

  lemma {:induction false} TrimStartSpaces(n: nat, s: string)
    requires s != [] && !IsSpace(s[0])
    ensures TrimStart(Spaces(n) + s) == s
  {
    var t := Spaces(n) + s;
    if n > 0 {
      assert t[1..] == Spaces(n - 1) + s;
      TrimStartSpaces(n - 1, s);
    }
  }

  lemma TrimSpaces(n: nat, s: string)
    requires s != [] && Trimmed(s)
    ensures Trim(Spaces(n) + s) == s
  {
    TrimStartSpaces(n, s);
  }

  lemma QuotedReads(s: string)
    ensures Trimmed(Quoted(s)) && Unquote(Quoted(s)) == s
  {
    assert Quoted(s)[1..|Quoted(s)| - 1] == s;
  }

  lemma PartOfTrim(s: string, c: char)
    requires NoneAre(s, c)
    ensures NoneAre(Trim(s), c) && NoneAre(Unquote(Trim(s)), c)
  {
    var t := TrimStart(s);
    assert t == s[|s| - |t|..];
    assert Trim(s) == t[..|Trim(s)|];
  }

  /** A value never contains the comment character. */
  lemma ValueHasNoHash(rest: string)
    ensures ValueOf(rest).Some? ==> NoneAre(ValueOf(rest).value, '#')
  {
    var h := Find(rest, '#');
    if h < |rest| {
      PartOfTrim(rest[..h], '#');
    } else {
      assert rest[..h] == rest;
    }
  }

  lemma ReadRawLine(l: Line)
    requires NoneAre(l.key, ':')
    ensures ReadLine(RawLine(l))
            == Some(Line(l.indent, l.key, ValueOf(if l.value.Some? then Quoted(l.value.value) else [])))
  {
    hide Trim, Unquote, ValueOf;
    var lead, name := Spaces(l.indent), Quoted(l.key);
    var after := if l.value.Some? then [' '] + Quoted(l.value.value) else [];
    var raw := RawLine(l);
    assert raw == lead + name + [':'] + after;
    var colon := |lead| + |name|;
    assert raw[..colon] == lead + name && raw[colon + 1..] == after && raw[colon] == ':';
    assert NoneAre(raw[..colon], ':');
    FindIs(raw, ':', colon);
    LeadingIs(raw, l.indent);
    QuotedReads(l.key);
    TrimSpaces(l.indent, name);
    RawIsSignificant(l);
    if l.value.Some? {
      QuotedReads(l.value.value);
      TrimLeadingSpace(Quoted(l.value.value));
    } else {
      TrimIdempotent([]);
    }
  }

  lemma LeadingIs(s: string, n: nat)
    requires n < |s| && s[n] != ' ' && forall i | 0 <= i < n :: s[i] == ' '
    ensures LeadingSpaces(s) == n
  {
  }

  lemma RawIsSignificant(l: Line)
    ensures Trim(RawLine(l)) != [] && Trim(RawLine(l))[0] == '"'
  {
    var body := Quoted(l.key) + [':'] + (if l.value.Some? then [' '] + Quoted(l.value.value) else []);
    assert RawLine(l) == Spaces(l.indent) + body;
    assert body[|body| - 1] == ':' || body[|body| - 1] == '"';
    TrimSpaces(l.indent, body);
  }

  lemma QuotedValueReads(v: string)
    ensures ValueOf(Quoted(v)) == Some(v) <==> NoneAre(v, '#')
  {
    var q := Quoted(v);
    if NoneAre(v, '#') {
      FindIs(q, '#', |q|);
      QuotedReads(v);
      assert q[0] == '"' && "{}"[0] == '{';
    } else {
      ValueHasNoHash(q);
    }
  }

  /** A key never contains the separator. */
  lemma KeyHasNoColon(raw: string)
    ensures ReadLine(raw).Some? ==> NoneAre(ReadLine(raw).value.key, ':')
  {
    hide Trim, Unquote, ValueOf;
    PartOfTrim(raw[..Find(raw, ':')], ':');
  }

  /** A rendered line reads back exactly when its key has no colon and its value no `#`. */
  lemma LineRoundTrip(l: Line)
    ensures ReadLine(RawLine(l)) == Some(l)
       <==> NoneAre(l.key, ':') && (l.value.Some? ==> NoneAre(l.value.value, '#'))
  {
    hide ReadLine, RawLine, ValueOf, Quoted, NoneAre;
    KeyHasNoColon(RawLine(l));
    if NoneAre(l.key, ':') {
      ReadRawLine(l);
      if l.value.Some? {
        QuotedValueReads(l.value.value);
      } else {
        EmptyValue();
      }
    }
  }

  lemma EmptyValue()
    ensures ValueOf([]) == None
  {
    FindIs([], '#', 0);
  }

  // ---- whole texts ----

  predicate CleanLine(l: Line) {
    && NoneAre(l.key, ':') && NoneAre(l.key, '\n')
    && (l.value.Some? ==> NoneAre(l.value.value, '#') && NoneAre(l.value.value, '\n'))
  }

  /** Keys without colons, scalars without `#`, neither with newlines. */
  predicate CleanTree(t: Tree) {
    match t
    case Leaf(text) => NoneAre(text, '#') && NoneAre(text, '\n')
    case Branch(es) => forall e | e in es :: CleanEntry(e)
  }

  predicate CleanEntry(e: Entry) {
    NoneAre(e.key, ':') && NoneAre(e.key, '\n') && CleanTree(e.tree)
  }

  function RawLines(ls: seq<Line>): (raws: seq<string>)
    ensures |raws| == |ls|
  {
    if ls == [] then [] else [RawLine(ls[0])] + RawLines(ls[1..])
  }

  function RenderText(es: seq<Entry>, step: nat): (text: string) {
    var raws := RawLines(Render(es, 0, step));
    if raws == [] then [] else Unlines(raws)
  }

  lemma {:induction false} RenderClean(es: seq<Entry>, indent: nat, step: nat)
    requires CleanTree(Branch(es))
    ensures forall l | l in Render(es, indent, step) :: CleanLine(l)
    decreases es
  {
    if es != [] {
      assert es[0] in es && CleanEntry(es[0]);
      assert forall e | e in es[1..] :: e in es;
      RenderClean(es[1..], indent, step);
      assert CleanTree(es[0].tree);
      if es[0].tree.Branch? {
        assert es[0].tree == Branch(es[0].tree.entries);
        RenderClean(es[0].tree.entries, indent + step, step);
        assert CleanLine(Line(indent, es[0].key, None));
      } else {
        assert CleanLine(Line(indent, es[0].key, Some(es[0].tree.text)));
      }
    }
  }

  lemma {:induction false} RawLinesRead(ls: seq<Line>)
    requires forall l | l in ls :: CleanLine(l)
    ensures ReadLines(RawLines(ls)) == ls
    ensures forall i | 0 <= i < |ls| :: NoneAre(RawLines(ls)[i], '\n')
  {
    hide ReadLine;
    if ls != [] {
      assert ls[0] in ls;
      assert forall l | l in ls[1..] :: l in ls;
      RawLinesRead(ls[1..]);
      LineRoundTrip(ls[0]);
      RawIsPlain(ls[0]);
      assert RawLines(ls)[1..] == RawLines(ls[1..]);
      assert [ls[0]] + ls[1..] == ls;
    }
  }

  lemma RawIsPlain(l: Line)
    requires CleanLine(l)
    ensures NoneAre(RawLine(l), '\n')
  {
  }

  lemma {:induction false} LinesOfUnlines(raws: seq<string>)
    requires raws != [] && forall i | 0 <= i < |raws| :: NoneAre(raws[i], '\n')
    ensures Lines(Unlines(raws)) == raws
  {
    if |raws| == 1 {
      LinesOfPlain(raws[0]);
    } else {
      LinesOfUnlines(raws[..|raws| - 1]);
      LinesAppend(Unlines(raws[..|raws| - 1]), raws[|raws| - 1]);
      assert raws[..|raws| - 1] + [raws[|raws| - 1]] == raws;
    }
  }

  /** Every tree of maps and scalars survives being rendered as text and read back. */
  lemma TreeRoundTrip(es: seq<Entry>, step: nat)
    requires step > 0 && CleanTree(Branch(es))
    ensures Parse(RenderText(es, step)) == Map(ToMap(es))
  {
    hide CleanTree, CleanLine, ReadLine, RawLine;
    var ls := Render(es, 0, step);
    RenderClean(es, 0, step);
    RawLinesRead(ls);
    BlockRendered([], es, [], 0, step, -1);
    assert [] + ls + [] == ls;
    if ls == [] {
      EmptyTextHasNoLines();
    } else {
      LinesOfUnlines(RawLines(ls));
    }
  }

  lemma EmptyTextHasNoLines()
    ensures ReadLines(Lines([])) == []
  {
    assert Trim([]) == [];
    assert Lines([]) == [[]];
    var one: seq<string> := [[]];
    assert one[1..] == [];
  }

  // ---- insignificant lines ----

  lemma {:induction false} ReadLinesConcat(a: seq<string>, b: seq<string>)
    ensures ReadLines(a + b) == ReadLines(a) + ReadLines(b)
  {
    hide ReadLine;
    if a == [] {
      assert a + b == b;
    } else {
      assert (a + b)[1..] == a[1..] + b;
      ReadLinesConcat(a[1..], b);
    }
  }

  /** A blank line or a comment line, anywhere, does not change what is read. */
  lemma InsignificantLine(a: string, junk: string, b: string)
    requires NoneAre(junk, '\n') && (Trim(junk) == [] || Trim(junk)[0] == '#')
    ensures Parse(a + ['\n'] + junk + ['\n'] + b) == Parse(a + ['\n'] + b)
    ensures Parse(junk + ['\n'] + b) == Parse(b)
    ensures Parse(a + ['\n'] + junk) == Parse(a)
  {
    JunkReads(junk);
    hide ReadLine, ReadLines, Build, Trim, Lines, NoneAre;
    LinesConcat(a, junk);
    LinesConcat(a, b);
    LinesConcat(junk, b);
    LinesConcat(a + ['\n'] + junk, b);
    ReadLinesConcat(Lines(a) + [junk], Lines(b));
    ReadLinesConcat(Lines(a), [junk]);
    ReadLinesConcat(Lines(a), Lines(b));
    ReadLinesConcat([junk], Lines(b));
    assert ReadLines(Lines(a)) + [] == ReadLines(Lines(a));
    assert [] + ReadLines(Lines(b)) == ReadLines(Lines(b));
  }

  lemma JunkReads(junk: string)
    requires NoneAre(junk, '\n') && (Trim(junk) == [] || Trim(junk)[0] == '#')
    ensures Lines(junk) == [junk] && ReadLines([junk]) == []
  {
    assert ReadLine(junk).None?;
    hide ReadLine, Trim;
    LinesOfPlain(junk);
    assert [junk][1..] == [];
  }

  // ---- reordering ----

  predicate DistinctKeys(es: seq<Entry>) {
    forall i, j | 0 <= i < j < |es| :: es[i].key != es[j].key
  }

  /** The same tree up to the order of the entries, at every depth. */
  predicate Shuffled(t: Tree, u: Tree) {
    match t
    case Leaf(text) => u == t
    case Branch(es) =>
      && u.Branch?
      && DistinctKeys(es) && DistinctKeys(u.entries)
      && (forall e | e in es :: HasPartner(e, u.entries))
      && (forall f | f in u.entries :: exists e | e in es :: e.key == f.key)
  }

  predicate HasPartner(e: Entry, fs: seq<Entry>) {
    exists j | 0 <= j < |fs| :: fs[j].key == e.key && Shuffled(e.tree, fs[j].tree)
  }

  lemma {:induction false} ToMapKeys(es: seq<Entry>, k: string)
    ensures k in ToMap(es) <==> exists i | 0 <= i < |es| :: es[i].key == k
  {
    hide ToNode;
    if es != [] {
      ToMapKeys(es[1..], k);
      assert forall i | 1 <= i < |es| :: es[i] == es[1..][i - 1];
      assert forall i | 0 <= i < |es[1..]| :: es[1..][i] == es[i + 1];
    }
  }

  lemma {:induction false} ToMapHas(es: seq<Entry>, i: nat)
    requires DistinctKeys(es) && i < |es|
    ensures es[i].key in ToMap(es) && ToMap(es)[es[i].key] == ToNode(es[i].tree)
  {
    hide ToNode;
    if i > 0 {
      ToMapHas(es[1..], i - 1);
    } else {
      ToMapKeys(es[1..], es[0].key);
      assert forall j | 0 <= j < |es[1..]| :: es[1..][j] == es[j + 1];
    }
  }

  lemma Partner(es: seq<Entry>, fs: seq<Entry>, i: nat) returns (j: nat)
    requires Shuffled(Branch(es), Branch(fs)) && i < |es|
    ensures j < |fs| && fs[j].key == es[i].key && Shuffled(es[i].tree, fs[j].tree)
  {
    AllHavePartners(es, fs, es[i]);
    hide Shuffled;
    j :| 0 <= j < |fs| && fs[j].key == es[i].key && Shuffled(es[i].tree, fs[j].tree);
  }

  lemma AllHavePartners(es: seq<Entry>, fs: seq<Entry>, e: Entry)
    requires Shuffled(Branch(es), Branch(fs)) && e in es
    ensures HasPartner(e, fs)
  {
    hide HasPartner;
  }

  lemma Origin(es: seq<Entry>, fs: seq<Entry>, j: nat) returns (i: nat)
    requires Shuffled(Branch(es), Branch(fs)) && j < |fs|
    ensures i < |es| && es[i].key == fs[j].key
  {
    assert fs[j] in fs;
    var e :| e in es && e.key == fs[j].key;
    i :| 0 <= i < |es| && es[i] == e;
  }

  lemma ShuffledDistinct(es: seq<Entry>, fs: seq<Entry>)
    requires Shuffled(Branch(es), Branch(fs))
    ensures DistinctKeys(es) && DistinctKeys(fs)
  {
  }

  lemma ShuffledEntries(es: seq<Entry>, fs: seq<Entry>)
    requires Shuffled(Branch(es), Branch(fs))
    requires forall i, j | 0 <= i < |es| && 0 <= j < |fs| && Shuffled(es[i].tree, fs[j].tree) ::
               ToNode(es[i].tree) == ToNode(fs[j].tree)
    ensures ToMap(es) == ToMap(fs)
  {
    hide ToMap, ToNode, DistinctKeys, Shuffled;
    ShuffledDistinct(es, fs);
    forall k | k in ToMap(es)
      ensures k in ToMap(fs) && ToMap(fs)[k] == ToMap(es)[k]
    {
      ToMapKeys(es, k);
      var i :| 0 <= i < |es| && es[i].key == k;
      var j := Partner(es, fs, i);
      ToMapHas(es, i);
      ToMapHas(fs, j);
    }
    forall k | k in ToMap(fs)
      ensures k in ToMap(es)
    {
      ToMapKeys(fs, k);
      var j :| 0 <= j < |fs| && fs[j].key == k;
      var i := Origin(es, fs, j);
      ToMapKeys(es, k);
    }
  }

  lemma {:induction false} ShuffledIsSame(t: Tree, u: Tree)
    requires Shuffled(t, u)
    ensures ToNode(t) == ToNode(u)
  {
    hide DistinctKeys, ToMap;
    if t.Branch? {
      var es, fs := t.entries, u.entries;
      forall i, j | 0 <= i < |es| && 0 <= j < |fs| && Shuffled(es[i].tree, fs[j].tree)
        ensures ToNode(es[i].tree) == ToNode(fs[j].tree)
      {
        ShuffledIsSame(es[i].tree, fs[j].tree);
      }
      ShuffledEntries(t.entries, u.entries);
    }
  }

  /** Reordering blocks, at any depth and with any indentation width, does not change what is read. */
  lemma ReorderedReadsTheSame(es: seq<Entry>, fs: seq<Entry>, step: nat, step': nat)
    requires step > 0 && step' > 0 && CleanTree(Branch(es)) && CleanTree(Branch(fs))
    requires Shuffled(Branch(es), Branch(fs))
    ensures Parse(RenderText(es, step)) == Parse(RenderText(fs, step'))
  {
    hide Parse, RenderText, Shuffled, CleanTree;
    ShuffledIsSame(Branch(es), Branch(fs));
    TreeRoundTrip(es, step);
    TreeRoundTrip(fs, step');
  }

  // ---- the server list ----

  datatype Server = Server(name: string, host: string, httpPort: nat, sshPort: nat,
                           controlToken: string, apiUrl: string, tlsCertFingerprint: string)
  datatype ShedConfig = ShedConfig(servers: seq<Server>, defaultServer: Option<string>)

  function ScalarAt(fields: map<string, Node>, k: string): (s: Option<string>) {
    if k in fields && fields[k].Scalar? then Some(fields[k].text) else None
  }

  function TextOr(s: Option<string>, default: string): (r: string) {
    if s.Some? then s.value else default
  }

  function PortOr(s: Option<string>, default: nat): (r: nat) {
    if s.Some? && ParseU16(s.value).Some? then ParseU16(s.value).value else default
  }

  function ServerOf(name: string, fields: map<string, Node>): (s: Server) {
    Server(name,
           TextOr(ScalarAt(fields, "host"), name),
           PortOr(ScalarAt(fields, "http_port"), 8080),
           PortOr(ScalarAt(fields, "ssh_port"), 22),
           TextOr(ScalarAt(fields, "control_token"), ""),
           TextOr(ScalarAt(fields, "api_url"), ""),
           Lower(TextOr(ScalarAt(fields, "tls_cert_fingerprint"), "")))
  }

  /** The order of names: by code point, a proper prefix first. */
  predicate Less(a: string, b: string) {
    b != [] && (a == [] || a[0] < b[0] || (a[0] == b[0] && Less(a[1..], b[1..])))
  }

  lemma {:induction false} LessTransitive(a: string, b: string, c: string)
    requires Less(a, b) && Less(b, c)
    ensures Less(a, c)
  {
    if a != [] && a[0] == b[0] == c[0] { LessTransitive(a[1..], b[1..], c[1..]); }
  }

  lemma {:induction false} LessTotal(a: string, b: string)
    ensures (Less(a, b) || Less(b, a)) <==> a != b
    ensures !(Less(a, b) && Less(b, a))
  {
    if a != [] && b != [] {
      LessTotal(a[1..], b[1..]);
      assert a == [a[0]] + a[1..] && b == [b[0]] + b[1..];
    }
  }

  /** Names compare at the first place they differ, and a name comes before its continuations. */
  lemma {:induction false} LessExact(p: string, x: char, a: string, y: char, b: string)
    ensures x < y ==> Less(p + [x] + a, p + [y] + b)
    ensures Less(p, p + [x] + a)
  {
    if p != [] {
      assert (p + [x] + a)[1..] == p[1..] + [x] + a && (p + [y] + b)[1..] == p[1..] + [y] + b;
      LessExact(p[1..], x, a, y, b);
    }
  }

  predicate Sorted(list: seq<Server>) {
    forall i, j | 0 <= i < j < |list| :: Less(list[i].name, list[j].name)
  }

  /** `s` is the entry of a server block of the map. */
  predicate Reads(s: Server, blocks: map<string, Node>) {
    s.name in blocks && blocks[s.name].Map? && s == ServerOf(s.name, blocks[s.name].entries)
  }

  /** Sorted by name, without repetition, and exactly the entries of the map's blocks. */
  predicate IsServerList(list: seq<Server>, blocks: map<string, Node>) {
    && Sorted(list)
    && (forall s | s in list :: Reads(s, blocks))
    && (forall name | name in blocks && blocks[name].Map? :: ServerOf(name, blocks[name].entries) in list)
  }

  predicate IsConfig(c: ShedConfig, top: map<string, Node>) {
    && IsServerList(c.servers, if "servers" in top && top["servers"].Map? then top["servers"].entries else map[])
    && c.defaultServer == ScalarAt(top, "default_server")
  }

  lemma {:induction false} SortedIsUnique(a: seq<Server>, b: seq<Server>)
    requires Sorted(a) && Sorted(b) && forall s :: s in a <==> s in b
    ensures a == b
  {
    assert b == [] || b[0] in a;
    if a != [] {
      assert a[0] in b;
      FirstIsLeast(a, b);
      var x := a[0];
      forall s
        ensures s in a[1..] <==> s in b[1..]
      {
        TailHas(a, s);
        TailHas(b, s);
      }
      SortedIsUnique(a[1..], b[1..]);
      assert a == [x] + a[1..] && b == [x] + b[1..];
    }
  }

  lemma TailHas(a: seq<Server>, s: Server)
    requires a != [] && Sorted(a)
    ensures s in a[1..] <==> s in a && s != a[0]
  {
    if s in a[1..] {
      var i :| 0 <= i < |a[1..]| && a[1..][i] == s;
      LessTotal(a[0].name, a[i + 1].name);
    }
  }

  lemma FirstIsLeast(a: seq<Server>, b: seq<Server>)
    requires a != [] && b != [] && Sorted(a) && Sorted(b) && a[0] in b && b[0] in a
    ensures a[0] == b[0]
  {
    var i :| 0 <= i < |b| && b[i] == a[0];
    var j :| 0 <= j < |a| && a[j] == b[0];
    if i > 0 && j > 0 {
      LessTotal(a[0].name, b[0].name);
    }
  }

  /** What is read off a tree is determined by the tree, whatever the order its maps are walked in. */
  lemma ConfigIsUnique(c: ShedConfig, d: ShedConfig, top: map<string, Node>)
    requires IsConfig(c, top) && IsConfig(d, top)
    ensures c == d
  {
    hide Sorted, ServerOf, ScalarAt;
    SortedIsUnique(c.servers, d.servers);
  }

  lemma InsertKeepsSorted(list: seq<Server>, k: nat, s: Server)
    requires Sorted(list) && k <= |list|
    requires k > 0 ==> Less(list[k - 1].name, s.name)
    requires k < |list| ==> Less(s.name, list[k].name)
    ensures Sorted(list[..k] + [s] + list[k..])
  {
    hide Less;
    forall i | 0 <= i < k
      ensures Less(list[i].name, s.name)
    {
      if i < k - 1 { LessTransitive(list[i].name, list[k - 1].name, s.name); }
    }
    forall i | k <= i < |list|
      ensures Less(s.name, list[i].name)
    {
      if k < i { LessTransitive(s.name, list[k].name, list[i].name); }
    }
  }

  /** The place of a server with a new name in a list sorted by name. */
  method InsertByName(list: seq<Server>, s: Server) returns (r: seq<Server>)
    requires Sorted(list) && forall t | t in list :: t.name != s.name
    ensures Sorted(r) && multiset(r) == multiset(list) + multiset{s}
  {
    hide Less;
    var k := |list|;
    while k > 0 && Less(s.name, list[k - 1].name)
      invariant 0 <= k <= |list|
      invariant k < |list| ==> Less(s.name, list[k].name)
    {
      k := k - 1;
    }
    if k > 0 {
      assert list[k - 1] in list;
      LessTotal(list[k - 1].name, s.name);
    }
    InsertKeepsSorted(list, k, s);
    assert list == list[..k] + list[k..];
    r := list[..k] + [s] + list[k..];
  }

  /** The blocks walked in any order, scalars among them skipped, the entries ordered by name. */
  method ReadServers(blocks: map<string, Node>) returns (servers: seq<Server>)
    ensures IsServerList(servers, blocks)
  {
    hide Sorted, ServerOf, Less;
    servers := [];
    NothingIsSorted();
    var todo := blocks.Keys;
    while todo != {}
      invariant todo <= blocks.Keys && Sorted(servers)
      invariant forall s | s in servers :: Reads(s, blocks) && s.name !in todo
      invariant forall name | name in blocks && name !in todo && blocks[name].Map? ::
                  ServerOf(name, blocks[name].entries) in servers
      decreases |todo|
    {
      var name :| name in todo;
      todo := todo - {name};
      if blocks[name].Map? {
        var s := ServerOf(name, blocks[name].entries);
        ServerHasItsName(name, blocks[name].entries);
        ghost var before := servers;
        servers := InsertByName(servers, s);
        Inserted(before, s, servers);
      }
    }
  }

  lemma NothingIsSorted()
    ensures Sorted([])
  {
  }

  lemma ServerHasItsName(name: string, fields: map<string, Node>)
    ensures ServerOf(name, fields).name == name
  {
  }

  lemma Inserted(list: seq<Server>, s: Server, r: seq<Server>)
    requires multiset(r) == multiset(list) + multiset{s}
    ensures forall t :: t in r <==> t in list || t == s
  {
    forall t
      ensures t in r <==> t in list || t == s
    {
      assert t in r <==> t in multiset(r);
      assert t in list <==> t in multiset(list);
    }
  }

  method ReadConfig(text: string) returns (c: ShedConfig)
    ensures IsConfig(c, Parse(text).entries)
  {
    hide IsServerList;
    var lines := ReadLines(Lines(text));
    var top, end := BuildBlock(lines, 0, -1);
    var servers := [];
    if "servers" in top && top["servers"].Map? {
      servers := ReadServers(top["servers"].entries);
    } else {
      servers := ReadServers(map[]);
    }
    c := ShedConfig(servers, ScalarAt(top, "default_server"));
  }

  /** Two texts that differ in the order of their blocks give the same config. */
  lemma ReorderedConfig(es: seq<Entry>, fs: seq<Entry>, step: nat, step': nat, c: ShedConfig, d: ShedConfig)
    requires step > 0 && step' > 0 && CleanTree(Branch(es)) && CleanTree(Branch(fs))
    requires Shuffled(Branch(es), Branch(fs))
    requires IsConfig(c, Parse(RenderText(es, step)).entries) && IsConfig(d, Parse(RenderText(fs, step')).entries)
    ensures c == d
  {
    hide Parse, RenderText, Shuffled, CleanTree, IsConfig;
    ReorderedReadsTheSame(es, fs, step, step');
    ConfigIsUnique(c, d, Parse(RenderText(es, step)).entries);
  }

  // ---- writing a config and reading it back ----

  function Fields(s: Server): (es: seq<Entry>) {
    [Entry("host", Leaf(s.host)),
     Entry("http_port", Leaf(Decimal(s.httpPort))), Entry("ssh_port", Leaf(Decimal(s.sshPort))),
     Entry("control_token", Leaf(s.controlToken)), Entry("api_url", Leaf(s.apiUrl)),
     Entry("tls_cert_fingerprint", Leaf(s.tlsCertFingerprint))]
  }

  predicate CleanText(s: string) {
    NoneAre(s, '#') && NoneAre(s, '\n')
  }

  /** A server as the file can hold it: 16-bit ports, a lower-case pin, no comment characters or line breaks. */
  predicate CleanServer(s: Server) {
    && s.httpPort <= 0xffff && s.sshPort <= 0xffff && Lower(s.tlsCertFingerprint) == s.tlsCertFingerprint
    && NoneAre(s.name, ':') && NoneAre(s.name, '\n')
    && CleanText(s.host) && CleanText(s.controlToken) && CleanText(s.apiUrl) && CleanText(s.tlsCertFingerprint)
  }

  predicate CleanConfig(c: ShedConfig) {
    && Sorted(c.servers) && (forall i | 0 <= i < |c.servers| :: CleanServer(c.servers[i]))
    && (c.defaultServer.Some? ==> CleanText(c.defaultServer.value))
  }

  function ServerEntries(servers: seq<Server>): (es: seq<Entry>)
    ensures |es| == |servers|
    ensures forall i | 0 <= i < |servers| :: es[i] == Entry(servers[i].name, Branch(Fields(servers[i])))
  {
    seq(|servers|, i requires 0 <= i < |servers| => Entry(servers[i].name, Branch(Fields(servers[i]))))
  }

  function ConfigEntries(c: ShedConfig): (es: seq<Entry>) {
    [Entry("servers", Branch(ServerEntries(c.servers)))]
    + if c.defaultServer.Some? then [Entry("default_server", Leaf(c.defaultServer.value))] else []
  }

  lemma FieldsRead(s: Server)
    requires CleanServer(s)
    ensures ServerOf(s.name, ToMap(Fields(s))) == s
  {
    var es := Fields(s);
    PortParses(s.httpPort);
    PortParses(s.sshPort);
    FieldKeysDistinct(s);
    hide ToMap, DistinctKeys, Lower, Decimal, ParseU16, CleanText, NoneAre;
    ToMapHas(es, 0);
    ToMapHas(es, 1);
    ToMapHas(es, 2);
    ToMapHas(es, 3);
    ToMapHas(es, 4);
    ToMapHas(es, 5);
  }

  lemma FieldKeysDistinct(s: Server)
    ensures DistinctKeys(Fields(s))
  {
    hide Decimal;
    var es := Fields(s);
    assert |es[0].key| == 4 && |es[1].key| == 9 && |es[2].key| == 8 && |es[3].key| == 13 && |es[4].key| == 7
           && |es[5].key| == 20;
  }

  lemma ServerNamesDistinct(servers: seq<Server>)
    requires Sorted(servers)
    ensures DistinctKeys(ServerEntries(servers))
  {
    hide Less, Fields;
    forall i, j | 0 <= i < j < |servers|
      ensures servers[i].name != servers[j].name
    {
      LessTotal(servers[i].name, servers[j].name);
    }
  }

  lemma ServersReadBack(servers: seq<Server>)
    requires Sorted(servers) && forall i | 0 <= i < |servers| :: CleanServer(servers[i])
    ensures IsServerList(servers, ToMap(ServerEntries(servers)))
  {
    var es := ServerEntries(servers);
    var blocks := ToMap(es);
    ServerNamesDistinct(servers);
    hide ToMap, DistinctKeys, CleanServer, ServerOf, Fields, Sorted;
    forall i | 0 <= i < |servers|
      ensures Reads(servers[i], blocks) && ServerOf(servers[i].name, blocks[servers[i].name].entries) == servers[i]
    {
      ToMapHas(es, i);
      FieldsRead(servers[i]);
    }
    forall name | name in blocks && blocks[name].Map?
      ensures ServerOf(name, blocks[name].entries) in servers
    {
      ToMapKeys(es, name);
      var i :| 0 <= i < |es| && es[i].key == name;
      assert servers[i].name == name;
    }
  }

  lemma CleanLeaf(key: string, text: string)
    requires NoneAre(key, ':') && NoneAre(key, '\n') && CleanText(text)
    ensures CleanEntry(Entry(key, Leaf(text)))
  {
  }

  lemma DecimalIsClean(n: nat)
    ensures CleanText(Decimal(n))
  {
    DecimalParses(n);
  }

  lemma CleanFields(s: Server)
    requires CleanServer(s)
    ensures CleanTree(Branch(Fields(s)))
  {
    DecimalIsClean(s.httpPort);
    DecimalIsClean(s.sshPort);
    hide Lower, Decimal, CleanText, CleanEntry;
    CleanLeaf("host", s.host);
    CleanLeaf("http_port", Decimal(s.httpPort));
    CleanLeaf("ssh_port", Decimal(s.sshPort));
    CleanLeaf("control_token", s.controlToken);
    CleanLeaf("api_url", s.apiUrl);
    CleanLeaf("tls_cert_fingerprint", s.tlsCertFingerprint);
  }

  lemma CleanBlocks(servers: seq<Server>)
    requires forall i | 0 <= i < |servers| :: CleanServer(servers[i])
    ensures CleanTree(Branch(ServerEntries(servers)))
  {
    hide CleanTree, Fields;
    var blocks := ServerEntries(servers);
    forall i | 0 <= i < |servers|
      ensures CleanEntry(blocks[i])
    {
      CleanFields(servers[i]);
    }
    AllClean(blocks);
  }

  lemma AllClean(es: seq<Entry>)
    requires forall i | 0 <= i < |es| :: CleanEntry(es[i])
    ensures CleanTree(Branch(es))
  {
    hide CleanEntry;
  }

  lemma CleanEntries(c: ShedConfig)
    requires CleanConfig(c)
    ensures CleanTree(Branch(ConfigEntries(c)))
  {
    hide CleanTree, CleanServer, ServerEntries, Sorted;
    CleanBlocks(c.servers);
    assert CleanEntry(Entry("servers", Branch(ServerEntries(c.servers))));
    if c.defaultServer.Some? { CleanLeaf("default_server", c.defaultServer.value); }
    AllClean(ConfigEntries(c));
  }

  lemma ConfigEntriesRead(c: ShedConfig)
    requires CleanConfig(c)
    ensures IsConfig(c, ToMap(ConfigEntries(c)))
  {
    var es := ConfigEntries(c);
    ServersReadBack(c.servers);
    assert |"servers"| == 7 && |"default_server"| == 14;
    assert DistinctKeys(es);
    ToMapKeys(es, "default_server");
    hide ToMap, DistinctKeys, IsServerList, CleanConfig;
    ToMapHas(es, 0);
    if c.defaultServer.Some? { ToMapHas(es, 1); }
  }

  /** A config written out, with any indentation, reads back as itself: every server, every field, in order. */
  lemma ConfigRoundTrip(c: ShedConfig, step: nat, d: ShedConfig)
    requires CleanConfig(c) && step > 0 && IsConfig(d, Parse(RenderText(ConfigEntries(c), step)).entries)
    ensures d == c
  {
    hide CleanConfig, IsConfig, Parse, RenderText, CleanTree, ToMap;
    CleanEntries(c);
    TreeRoundTrip(ConfigEntries(c), step);
    ConfigEntriesRead(c);
    ConfigIsUnique(c, d, ToMap(ConfigEntries(c)));
  }
}
