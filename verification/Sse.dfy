/**
 The server-sent-events reader: bytes arrive in arbitrary pieces, lines are cut at newlines, and a
 blank line dispatches the fields gathered so far. Text is modelled as characters.
 */
module Sse {
  import opened Text

  datatype Event = Event(event: string, data: string)

  /** The parser's fields. */
  datatype State = State(event: string, data: string, lineBuf: string)

  datatype Out = Out(st: State, events: seq<Event>)

  const EVENT_PREFIX := "event:"
  const DATA_PREFIX := "data:"

  function StripReturn(raw: string): (line: string) {
    if raw != [] && raw[|raw| - 1] == '\r' then raw[..|raw| - 1] else raw
  }

  predicate StartsWith(s: string, prefix: string) {
    |prefix| <= |s| && s[..|prefix|] == prefix
  }

  function Flush(s: State): (o: Out) {
    if s.event == [] && s.data == [] then Out(s, []) else Out(s.(event := [], data := []), [Event(s.event, s.data)])
  }

  function PushLine(s: State, raw: string): (o: Out) {
    var line := StripReturn(raw);
    if line == [] then Flush(s)
    else if line[0] == ':' then Out(s, [])
    else if StartsWith(line, EVENT_PREFIX) then Out(s.(event := Trim(line[|EVENT_PREFIX|..])), [])
    else if StartsWith(line, DATA_PREFIX) then
      var v := Trim(line[|DATA_PREFIX|..]);
      Out(s.(data := if s.data == [] then v else s.data + ['\n'] + v), [])
    else Out(s, [])
  }

  function TakeLine(s: State): (o: Out) {
    PushLine(s.(lineBuf := []), s.lineBuf)
  }

  function FeedChar(s: State, c: char): (o: Out) {
    if c == '\n' then TakeLine(s) else Out(s.(lineBuf := s.lineBuf + [c]), [])
  }

  function Feed(s: State, chunk: string): (o: Out) {
    if chunk == [] then Out(s, [])
    else
      var o := Feed(s, chunk[..|chunk| - 1]);
      var last := FeedChar(o.st, chunk[|chunk| - 1]);
      Out(last.st, o.events + last.events)
  }

  function Finish(s: State): (o: Out) {
    var o := if s.lineBuf != [] then TakeLine(s) else Out(s, []);
    var f := Flush(o.st);
    Out(f.st, o.events + f.events)
  }

  const FRESH := State([], [], [])

  /** All the events of one whole stream. */
  function Parse(text: string): (events: seq<Event>) {
    var o := Feed(FRESH, text);
    o.events + Finish(o.st).events
  }

  // ---- the parser object ----

  class Parser {
    var event: string
    var data: string
    var lineBuf: string

    ghost function Now(): State
      reads this
    {
      State(event, data, lineBuf)
    }

    constructor ()
      ensures Now() == FRESH
    {
      event, data, lineBuf := [], [], [];
    }

    method FlushEvent() returns (out: seq<Event>)
      modifies this
      ensures Out(Now(), out) == Flush(old(Now()))
    {
      if event == [] && data == [] {
        return [];
      }
      out := [Event(event, data)];
      event, data := [], [];
    }

    method HandleLine() returns (out: seq<Event>)
      modifies this
      ensures Out(Now(), out) == TakeLine(old(Now()))
    {
      hide Trim;
      var line := StripReturn(lineBuf);
      lineBuf := [];
      out := [];
      if line == [] {
        out := FlushEvent();
      } else if line[0] == ':' {
      } else if StartsWith(line, EVENT_PREFIX) {
        event := Trim(line[|EVENT_PREFIX|..]);
      } else if StartsWith(line, DATA_PREFIX) {
        var v := Trim(line[|DATA_PREFIX|..]);
        data := if data == [] then v else data + ['\n'] + v;
      }
    }

    method FeedChunk(chunk: string) returns (out: seq<Event>)
      modifies this
      ensures Out(Now(), out) == Feed(old(Now()), chunk)
    {
      hide PushLine;
      out := [];
      var k := 0;
      while k < |chunk|
        invariant 0 <= k <= |chunk|
        invariant Out(Now(), out) == Feed(old(Now()), chunk[..k])
      {
        assert chunk[..k + 1][..k] == chunk[..k];
        if chunk[k] == '\n' {
          var more := HandleLine();
          out := out + more;
        } else {
          lineBuf := lineBuf + [chunk[k]];
        }
        k := k + 1;
      }
      assert chunk[..k] == chunk;
    }

    method FinishStream() returns (out: seq<Event>)
      modifies this
      ensures Out(Now(), out) == Finish(old(Now()))
    {
      hide PushLine;
      out := [];
      if lineBuf != [] {
        out := HandleLine();
      }
      var more := FlushEvent();
      out := out + more;
    }
  }

  // ---- chunking does not matter ----

  lemma {:induction false} FeedConcat(s: State, a: string, b: string)
    ensures var first := Feed(s, a);
            var second := Feed(first.st, b);
            Feed(s, a + b) == Out(second.st, first.events + second.events)
  {
    hide FeedChar;
    if b == [] {
      assert a + b == a;
    } else {
      assert (a + b)[..|a + b| - 1] == a + b[..|b| - 1];
      FeedConcat(s, a, b[..|b| - 1]);
    }
  }

  function Concat(chunks: seq<string>): (r: string) {
    if chunks == [] then [] else Concat(chunks[..|chunks| - 1]) + chunks[|chunks| - 1]
  }

  function FeedAll(s: State, chunks: seq<string>): (o: Out) {
    if chunks == [] then Out(s, [])
    else
      var o := FeedAll(s, chunks[..|chunks| - 1]);
      var last := Feed(o.st, chunks[|chunks| - 1]);
      Out(last.st, o.events + last.events)
  }

  /** However the bytes are cut, the events and the parser's state are those of one whole feed. */
  lemma {:induction false} ChunkingIrrelevant(s: State, chunks: seq<string>)
    ensures FeedAll(s, chunks) == Feed(s, Concat(chunks))
  {
    if chunks != [] {
      ChunkingIrrelevant(s, chunks[..|chunks| - 1]);
      FeedConcat(s, Concat(chunks[..|chunks| - 1]), chunks[|chunks| - 1]);
    }
  }

  // ---- whole lines ----

  lemma {:induction false} FeedPlain(s: State, line: string)
    requires NoneAre(line, '\n')
    ensures Feed(s, line) == Out(s.(lineBuf := s.lineBuf + line), [])
  {
    if line == [] {
      assert s.lineBuf + line == s.lineBuf;
    } else {
      FeedPlain(s, line[..|line| - 1]);
      assert s.lineBuf + line == s.lineBuf + line[..|line| - 1] + [line[|line| - 1]];
    }
  }

  /** At a line boundary, one whole line is one `PushLine`. */
  lemma FeedLine(s: State, line: string)
    requires s.lineBuf == [] && NoneAre(line, '\n')
    ensures Feed(s, line + ['\n']) == PushLine(s, line)
  {
    hide PushLine;
    FeedPlain(s, line);
    assert (line + ['\n'])[..|line|] == line;
    assert [] + line == line;
    assert s.(lineBuf := line).(lineBuf := []) == s;
  }

  /** A comment line at a line boundary changes nothing, whatever follows it. */
  lemma CommentsChangeNothing(s: State, comment: string, rest: string)
    requires s.lineBuf == [] && NoneAre(comment, '\n')
    ensures Feed(s, [':'] + comment + ['\n'] + rest) == Feed(s, rest)
  {
    hide Feed, Trim, StartsWith;
    var line := [':'] + comment;
    FeedLine(s, line);
    assert StripReturn(line)[0] == ':';
    FeedConcat(s, line + ['\n'], rest);
    assert [] + Feed(s, rest).events == Feed(s, rest).events;
  }

  // ---- what can come out ----

  /** Trimmed lines, and no empty first line in front of others. */
  ghost predicate WellFormedData(d: string) {
    && (forall i | 0 <= i < |Lines(d)| :: Trimmed(Lines(d)[i]))
    && (d == [] || d[0] != '\n')
  }

  ghost predicate WellFormed(e: Event) {
    && Trimmed(e.event) && NoneAre(e.event, '\n')
    && WellFormedData(e.data)
    && !(e.event == [] && e.data == [])
  }

  ghost predicate StateInv(s: State) {
    Trimmed(s.event) && NoneAre(s.event, '\n') && WellFormedData(s.data) && NoneAre(s.lineBuf, '\n')
  }

  lemma TrimmedPart(s: string)
    requires NoneAre(s, '\n')
    ensures NoneAre(Trim(s), '\n')
  {
    var t := TrimStart(s);
    assert t == s[|s| - |t|..];
    assert Trim(s) == t[..|Trim(s)|];
  }

  lemma DataGrows(d: string, v: string)
    requires WellFormedData(d) && Trimmed(v) && NoneAre(v, '\n')
    ensures WellFormedData(if d == [] then v else d + ['\n'] + v)
  {
    if d == [] {
      LinesOfPlain(v);
    } else {
      LinesAppend(d, v);
    }
  }

  lemma PushLineKeeps(s: State, raw: string)
    requires StateInv(s) && NoneAre(raw, '\n')
    ensures StateInv(PushLine(s, raw).st)
    ensures forall e | e in PushLine(s, raw).events :: WellFormed(e)
  {
    hide WellFormedData, Trim, Trimmed;
    var line := StripReturn(raw);
    EmptyIsFine();
    if StartsWith(line, EVENT_PREFIX) {
      TrimmedPart(line[|EVENT_PREFIX|..]);
    } else if StartsWith(line, DATA_PREFIX) {
      var v := Trim(line[|DATA_PREFIX|..]);
      TrimmedPart(line[|DATA_PREFIX|..]);
      DataGrows(s.data, v);
    }
  }

  lemma EmptyIsFine()
    ensures WellFormedData([]) && Trimmed([])
  {
    assert Lines([]) == [[]];
  }

  lemma {:induction false} FeedKeeps(s: State, text: string)
    requires StateInv(s)
    ensures StateInv(Feed(s, text).st)
    ensures forall e | e in Feed(s, text).events :: WellFormed(e)
  {
    hide StateInv, WellFormed;
    if text != [] {
      FeedKeeps(s, text[..|text| - 1]);
      FeedCharKeeps(Feed(s, text[..|text| - 1]).st, text[|text| - 1]);
    }
  }

  lemma FeedCharKeeps(s: State, c: char)
    requires StateInv(s)
    ensures StateInv(FeedChar(s, c).st)
    ensures forall e | e in FeedChar(s, c).events :: WellFormed(e)
  {
    if c == '\n' { PushLineKeeps(s.(lineBuf := []), s.lineBuf); }
  }

  lemma FreshIsFine()
    ensures StateInv(FRESH)
  {
    assert Lines([]) == [[]];
  }

  /** Whatever bytes arrive, every event that comes out is well formed. */
  lemma EmittedAreWellFormed(text: string)
    ensures forall e | e in Parse(text) :: WellFormed(e)
  {
    FreshIsFine();
    FeedKeeps(FRESH, text);
    var s := Feed(FRESH, text).st;
    PushLineKeeps(s.(lineBuf := []), s.lineBuf);
    assert Lines([]) == [[]];
  }

  // ---- printing and reading back ----

  function PrintData(lines: seq<string>): (r: string) {
    if lines == [] then [] else PrintData(lines[..|lines| - 1]) + DATA_PREFIX + [' '] + lines[|lines| - 1] + ['\n']
  }

  function Print(e: Event): (r: string) {
    EVENT_PREFIX + [' '] + e.event + ['\n'] + PrintData(Lines(e.data)) + ['\n']
  }

  function PrintAll(es: seq<Event>): (r: string) {
    if es == [] then [] else PrintAll(es[..|es| - 1]) + Print(es[|es| - 1])
  }

  lemma FieldLine(prefix: string, value: string)
    requires prefix != [] && prefix[0] != ':' && NoneAre(prefix, '\n') && Trimmed(value) && NoneAre(value, '\n')
    ensures var line := prefix + [' '] + value;
            && NoneAre(line, '\n') && StripReturn(line) == line && line != [] && line[0] != ':'
            && StartsWith(line, prefix) && Trim(line[|prefix|..]) == value
  {
    hide Trim;
    var line := prefix + [' '] + value;
    assert line[|prefix|..] == [' '] + value;
    TrimLeadingSpace(value);
    assert value == [] ==> line[|line| - 1] == ' ';
    assert value != [] ==> line[|line| - 1] == value[|value| - 1];
  }

  lemma DataIsNotEvent(line: string)
    requires StartsWith(line, DATA_PREFIX)
    ensures !StartsWith(line, EVENT_PREFIX)
  {
    assert line[0] == line[..|DATA_PREFIX|][0] == 'd';
    if |EVENT_PREFIX| <= |line| {
      assert line[..|EVENT_PREFIX|][0] == 'd';
    }
  }

  /** The data a sequence of data lines leaves, from empty. */
  function Gather(lines: seq<string>): (d: string) {
    if lines == [] then []
    else
      var d := Gather(lines[..|lines| - 1]);
      var v := lines[|lines| - 1];
      if d == [] then v else d + ['\n'] + v
  }

  lemma FeedDataLine(s: State, v: string)
    requires s.lineBuf == [] && Trimmed(v) && NoneAre(v, '\n')
    ensures Feed(s, DATA_PREFIX + [' '] + v + ['\n'])
            == Out(s.(data := if s.data == [] then v else s.data + ['\n'] + v), [])
  {
    hide Feed, Trim, StartsWith;
    FieldLine(DATA_PREFIX, v);
    DataIsNotEvent(DATA_PREFIX + [' '] + v);
    FeedLine(s, DATA_PREFIX + [' '] + v);
  }

  lemma FeedEventLine(s: State, v: string)
    requires s.lineBuf == [] && Trimmed(v) && NoneAre(v, '\n')
    ensures Feed(s, EVENT_PREFIX + [' '] + v + ['\n']) == Out(s.(event := v), [])
  {
    hide Feed, Trim, StartsWith;
    FieldLine(EVENT_PREFIX, v);
    FeedLine(s, EVENT_PREFIX + [' '] + v);
  }

  lemma FeedBlankLine(s: State)
    requires s.lineBuf == []
    ensures Feed(s, ['\n']) == Flush(s)
  {
    FeedLine(s, []);
    assert [] + ['\n'] == ['\n'];
  }

  lemma FeedNothing(s: State)
    ensures Feed(s, []) == Out(s, [])
  {
  }

  lemma {:induction false} FeedDataLines(ev: string, lines: seq<string>)
    requires forall i | 0 <= i < |lines| :: Trimmed(lines[i]) && NoneAre(lines[i], '\n')
    ensures Feed(State(ev, [], []), PrintData(lines)) == Out(State(ev, Gather(lines), []), [])
  {
    hide Feed, Trimmed, NoneAre;
    if lines == [] {
      FeedNothing(State(ev, [], []));
    } else {
      var front, v := lines[..|lines| - 1], lines[|lines| - 1];
      FeedDataLines(ev, front);
      FeedDataLine(State(ev, Gather(front), []), v);
      var line := DATA_PREFIX + [' '] + v + ['\n'];
      assert PrintData(lines) == PrintData(front) + line;
      FeedConcat(State(ev, [], []), PrintData(front), line);
    }
  }

  lemma {:induction false} GatherIsUnlines(lines: seq<string>)
    requires lines != [] && (|lines| > 1 ==> lines[0] != [])
    ensures Gather(lines) == Unlines(lines)
    ensures |lines| > 1 ==> Gather(lines) != []
  {
    if |lines| == 1 {
      assert lines[..0] == [] && Gather([]) == [];
    } else {
      var front := lines[..|lines| - 1];
      GatherIsUnlines(front);
      if |front| == 1 { assert front == [lines[0]]; }
      assert Gather(front) != [];
    }
  }

  lemma FirstLine(d: string)
    requires d != [] && d[0] != '\n'
    ensures Lines(d)[0] != []
  {
  }

  lemma SingleLineOfEmpty(d: string)
    requires |Lines(d)| > 1
    ensures d != []
  {
  }

  lemma GatheredData(d: string)
    requires WellFormedData(d)
    ensures forall i | 0 <= i < |Lines(d)| :: Trimmed(Lines(d)[i]) && NoneAre(Lines(d)[i], '\n')
    ensures Gather(Lines(d)) == d
  {
    LinesArePlain(d);
    if |Lines(d)| > 1 { SingleLineOfEmpty(d); FirstLine(d); }
    GatherIsUnlines(Lines(d));
    UnlinesOfLines(d);
  }

  /** Printing a well-formed event at a line boundary and feeding it yields exactly that event. */
  lemma PrintedEventReads(e: Event)
    requires WellFormed(e)
    ensures Feed(FRESH, Print(e)) == Out(FRESH, [e])
  {
    hide Feed, Lines, PrintData, Gather, Trimmed, NoneAre, WellFormedData;
    var eventLine := EVENT_PREFIX + [' '] + e.event + ['\n'];
    var dataLines := PrintData(Lines(e.data));
    FeedEventLine(FRESH, e.event);
    GatheredData(e.data);
    FeedDataLines(e.event, Lines(e.data));
    FeedBlankLine(State(e.event, e.data, []));
    FeedConcat(FRESH, eventLine, dataLines);
    FeedConcat(FRESH, eventLine + dataLines, ['\n']);
    assert Print(e) == eventLine + dataLines + ['\n'];
  }

  lemma {:induction false} PrintedEventsFeed(es: seq<Event>)
    requires forall i | 0 <= i < |es| :: WellFormed(es[i])
    ensures Feed(FRESH, PrintAll(es)) == Out(FRESH, es)
  {
    hide WellFormed, Print, Feed;
    if es == [] {
      FeedNothing(FRESH);
    } else {
      PrintedEventsFeed(es[..|es| - 1]);
      PrintedEventReads(es[|es| - 1]);
      FeedConcat(FRESH, PrintAll(es[..|es| - 1]), Print(es[|es| - 1]));
      assert es == es[..|es| - 1] + [es[|es| - 1]];
    }
  }

  /** Printing events and parsing the stream returns them exactly when every one of them is well formed. */
  lemma RoundTrip(es: seq<Event>)
    ensures Parse(PrintAll(es)) == es <==> forall i | 0 <= i < |es| :: WellFormed(es[i])
  {
    hide WellFormed, PrintAll, Feed;
    if forall i | 0 <= i < |es| :: WellFormed(es[i]) {
      PrintedEventsFeed(es);
      assert es + [] == es;
    }
    if Parse(PrintAll(es)) == es {
      EmittedAreWellFormed(PrintAll(es));
      forall i | 0 <= i < |es| ensures WellFormed(es[i]) {
        assert es[i] in Parse(PrintAll(es));
      }
    }
  }

  // ---- the end of the stream and carriage returns ----

  lemma FlushTwice(s: State)
    requires s.lineBuf == []
    ensures Flush(Flush(s).st) == Out(Flush(s).st, []) && Flush(s).st.lineBuf == []
  {
  }

  lemma PushKeepsBuffer(s: State, raw: string)
    ensures PushLine(s, raw).st.lineBuf == s.lineBuf
  {
    hide Trim, StartsWith;
  }

  /** What feeding a blank line's worth of newlines does from any state is what `Finish` does. */
  lemma FinishIsBlankLine(s: State)
    ensures var o := Feed(s, ['\n', '\n']);
            o.events == Finish(s).events && Finish(o.st).events == []
  {
    hide PushLine;
    PushKeepsBuffer(s.(lineBuf := []), s.lineBuf);
    var o := TakeLine(s);
    FeedConcat(s, ['\n'], ['\n']);
    assert ['\n'] + ['\n'] == ['\n', '\n'];
    FeedOne(s, '\n');
    FeedBlankLine(o.st);
    FlushTwice(o.st);
    if s.lineBuf == [] {
      assert s.(lineBuf := []) == s;
      BlankIsFlush(s);
      FlushTwice(s);
    }
  }

  lemma BlankIsFlush(s: State)
    ensures PushLine(s, []) == Flush(s)
  {
  }

  lemma FeedOne(s: State, c: char)
    ensures Feed(s, [c]) == FeedChar(s, c)
  {
    assert [c][..0] == [];
    assert [] + FeedChar(s, c).events == FeedChar(s, c).events;
  }

  /** A stream that ends without its last blank line, or in the middle of a line, reads as if it had both. */
  lemma EndIsBlankLine(text: string)
    ensures Parse(text + ['\n', '\n']) == Parse(text)
  {
    hide Feed, Finish;
    var o := Feed(FRESH, text);
    FeedConcat(FRESH, text, ['\n', '\n']);
    FinishIsBlankLine(o.st);
  }

  /** The same text with every newline preceded by a carriage return. */
  function WithReturns(text: string): (r: string) {
    if text == [] then []
    else
      var last := text[|text| - 1];
      WithReturns(text[..|text| - 1]) + if last == '\n' then ['\r', '\n'] else [last]
  }

  lemma ReturnThenNewline(s: State)
    requires NoneAre(s.lineBuf, '\r')
    ensures Feed(s, ['\r', '\n']) == FeedChar(s, '\n')
  {
    hide PushLine;
    assert ['\r'] + ['\n'] == ['\r', '\n'];
    FeedConcat(s, ['\r'], ['\n']);
    FeedOne(s, '\r');
    var t := s.(lineBuf := s.lineBuf + ['\r']);
    FeedOne(t, '\n');
    assert t.(lineBuf := []) == s.(lineBuf := []);
    ReturnIsStripped(s.(lineBuf := []), s.lineBuf);
  }

  lemma ReturnIsStripped(s: State, raw: string)
    requires NoneAre(raw, '\r')
    ensures PushLine(s, raw + ['\r']) == PushLine(s, raw)
  {
    hide Trim, StartsWith;
    assert StripReturn(raw + ['\r']) == raw == StripReturn(raw);
  }

  lemma {:induction false} ReturnsFeed(text: string)
    requires NoneAre(text, '\r')
    ensures Feed(FRESH, WithReturns(text)) == Feed(FRESH, text)
    ensures NoneAre(Feed(FRESH, text).st.lineBuf, '\r')
  {
    if text != [] {
      hide PushLine;
      var front, last := text[..|text| - 1], text[|text| - 1];
      ReturnsFeed(front);
      var o := Feed(FRESH, front);
      FeedConcat(FRESH, WithReturns(front), if last == '\n' then ['\r', '\n'] else [last]);
      if last == '\n' {
        ReturnThenNewline(o.st);
        PushKeepsBuffer(o.st.(lineBuf := []), o.st.lineBuf);
      } else {
        FeedOne(o.st, last);
      }
    }
  }

  /** Line ends written as carriage return and newline read the same as newlines alone. */
  lemma ReturnsChangeNothing(text: string)
    requires NoneAre(text, '\r')
    ensures Parse(WithReturns(text)) == Parse(text)
  {
    hide Feed, Finish;
    ReturnsFeed(text);
  }

  // ---- the lines of a stream, as texts ----

  lemma StripOne(s: string)
    ensures StripReturn(s + ['\r']) == s
  {
  }

  lemma LastOf(front: string, back: string, c: char)
    requires back != [] && back[|back| - 1] == c
    ensures front + back == front + back[..|back| - 1] + [c]
  {
  }

  /** Where the carriage return of a line end is cut off from: the blanks after the value, or those before none. */
  lemma CutReturn(front: string, a: string, v: string, b: string) returns (a': string, b': string)
    requires Blanks(a) && Blanks(b) && Trimmed(v) && front != [] && front[|front| - 1] == ':'
    ensures Blanks(a') && Blanks(b') && StripReturn(front + a + v + b) == front + a' + v + b'
  {
    a', b' := a, b;
    hide Trim;
    if b != [] {
      if b[|b| - 1] == '\r' {
        b' := b[..|b| - 1];
        LastOf(front + a + v, b, '\r');
        StripOne(front + a + v + b');
      }
    } else if v != [] {
      assert front + a + v + b == front + a + v;
    } else if a != [] && a[|a| - 1] == '\r' {
      a' := a[..|a| - 1];
      assert front + a + v + b == front + a && front + a' + v + b' == front + a';
      LastOf(front, a, '\r');
      StripOne(front + a');
    } else {
      assert front + a + v + b == front + a;
    }
  }

  /** A field's value between blanks, with the carriage return of its line end or without it. */
  lemma ValueIsTrimmed(prefix: string, a: string, v: string, b: string)
    requires prefix != [] && prefix[|prefix| - 1] == ':' && Blanks(a) && Blanks(b) && Trimmed(v)
    ensures var line := StripReturn(prefix + a + v + b);
            StartsWith(line, prefix) && Trim(line[|prefix|..]) == v
  {
    hide Trim, StripReturn, Blanks, Trimmed, StartsWith;
    var a', b' := CutReturn(prefix, a, v, b);
    FieldValue(prefix, a', v, b');
  }

  lemma FieldValue(prefix: string, a: string, v: string, b: string)
    requires Blanks(a) && Blanks(b) && Trimmed(v)
    ensures var line := prefix + a + v + b; StartsWith(line, prefix) && Trim(line[|prefix|..]) == v
  {
    hide Trim, Blanks, Trimmed;
    var line := prefix + a + v + b;
    assert line[..|prefix|] == prefix && line[|prefix|..] == a + v + b;
    TrimExact(a, v, b);
  }

  lemma PushField(s: State, raw: string, v: string)
    ensures var l := StripReturn(raw);
            && (StartsWith(l, "event:") && Trim(l[|"event:"|..]) == v ==>
                  PushLine(s, raw) == Out(s.(event := v), []))
            && (StartsWith(l, "data:") && Trim(l[|"data:"|..]) == v ==>
                  PushLine(s, raw) == Out(s.(data := if s.data == "" then v else s.data + "\n" + v), []))
  {
    hide Trim, StripReturn;
    var l := StripReturn(raw);
    if StartsWith(l, "event:") { FieldStart(l); }
    if StartsWith(l, "data:") {
      FieldStart(l);
      DataIsNotEvent(l);
    }
  }

  lemma PushedField(s: State, prefix: string, a: string, v: string, b: string)
    requires s.lineBuf == [] && Blanks(a) && Blanks(b) && Trimmed(v)
    requires prefix != [] && prefix[|prefix| - 1] == ':' && NoneAre(prefix, '\n')
    requires NoneAre(a, '\n') && NoneAre(v, '\n') && NoneAre(b, '\n')
    ensures var raw := prefix + a + v + b;
            && Feed(s, raw + "\n") == PushLine(s, raw)
            && StartsWith(StripReturn(raw), prefix) && Trim(StripReturn(raw)[|prefix|..]) == v
  {
    hide Feed, Trim, Trimmed, StartsWith, StripReturn, Blanks, PushLine;
    ValueIsTrimmed(prefix, a, v, b);
    assert "\n" == ['\n'];
    FeedLine(s, prefix + a + v + b);
  }

  /** A line `event:` sets the kind to its value without the blanks around it. */
  lemma EventLineReads(s: State, a: string, v: string, b: string)
    requires s.lineBuf == [] && Blanks(a) && Blanks(b) && Trimmed(v)
    requires NoneAre(a, '\n') && NoneAre(v, '\n') && NoneAre(b, '\n')
    ensures Feed(s, "event:" + a + v + b + "\n") == Out(State(v, s.data, []), [])
  {
    hide *;
    Colons();
    PushedField(s, "event:", a, v, b);
    PushField(s, "event:" + a + v + b, v);
  }

  /** A line `data:` adds its value as one more line of data. */
  lemma DataLineReads(s: State, a: string, v: string, b: string)
    requires s.lineBuf == [] && Blanks(a) && Blanks(b) && Trimmed(v)
    requires NoneAre(a, '\n') && NoneAre(v, '\n') && NoneAre(b, '\n')
    ensures Feed(s, "data:" + a + v + b + "\n")
            == Out(State(s.event, if s.data == "" then v else s.data + "\n" + v, []), [])
  {
    hide *;
    Colons();
    PushedField(s, "data:", a, v, b);
    PushField(s, "data:" + a + v + b, v);
  }

  lemma Colons()
    ensures NoneAre("event:", '\n') && "event:"[5] == ':' && NoneAre("data:", '\n') && "data:"[4] == ':'
  {
  }

  lemma FieldStart(line: string)
    requires StartsWith(line, "event:") || StartsWith(line, "data:")
    ensures line != [] && line[0] != ':'
  {
    if StartsWith(line, "event:") {
      assert line[..|"event:"|][0] == 'e';
    } else {
      assert line[..|"data:"|][0] == 'd';
    }
  }

  /** Any other line is skipped, and a blank one dispatches what was gathered, if anything was. */
  lemma OtherLines(s: State, line: string)
    requires s.lineBuf == [] && NoneAre(line, '\n') && !("event:" <= line) && !("data:" <= line)
    ensures line != "" && line != "\r" ==> Feed(s, line + "\n") == Out(s, [])
    ensures line == "" || line == "\r" ==>
              Feed(s, line + "\n")
              == if s.event == "" && s.data == "" then Out(s, []) else Out(State("", "", ""), [Event(s.event, s.data)])
  {
    hide Feed, Trim;
    FeedLine(s, line);
    var l := StripReturn(line);
    NotItsStart(l, line, "event:");
    NotItsStart(l, line, "data:");
  }

  lemma NotItsStart(l: string, line: string, prefix: string)
    requires l <= line && !(prefix <= line)
    ensures !StartsWith(l, prefix)
  {
    assert |prefix| <= |l| ==> l[..|prefix|] == line[..|prefix|];
  }

  /** One event written out, its two values between any blanks. */
  lemma EventReads(x: string, y: string, a: string, b: string, c: string, d: string)
    requires Trimmed(x) && Trimmed(y) && Blanks(a + b + c + d)
    requires NoneAre(x + y + a + b + c + d, '\n') && !(x == "" && y == "")
    ensures Parse("event:" + a + x + b + "\n" + "data:" + c + y + d + "\n" + "\n") == [Event(x, y)]
  {
    Pieces(x, y, a, b, c, d);
    hide Feed, Trim, Trimmed, Blanks, NoneAre;
    var first, second := "event:" + a + x + b + "\n", "data:" + c + y + d + "\n";
    assert first + "data:" + c + y + d + "\n" + "\n" == first + second + "\n";
    EventLineReads(FRESH, a, x, b);
    DataLineReads(State(x, "", ""), c, y, d);
    FeedBlankLine(State(x, y, ""));
    FeedConcat(FRESH, first, second);
    FeedConcat(FRESH, first + second, "\n");
    assert "\n" == ['\n'];
  }

  lemma Pieces(x: string, y: string, a: string, b: string, c: string, d: string)
    requires Blanks(a + b + c + d) && NoneAre(x + y + a + b + c + d, '\n')
    ensures Blanks(a) && Blanks(b) && Blanks(c) && Blanks(d)
    ensures NoneAre(x, '\n') && NoneAre(y, '\n') && NoneAre(a, '\n') && NoneAre(b, '\n') && NoneAre(c, '\n')
    ensures NoneAre(d, '\n')
  {
    assert a + b + c + d == a + (b + (c + d));
    assert x + y + a + b + c + d == x + (y + (a + (b + (c + d))));
    BlankParts(a, b + (c + d));
    BlankParts(b, c + d);
    BlankParts(c, d);
    PlainParts(x, y + (a + (b + (c + d))));
    PlainParts(y, a + (b + (c + d)));
    PlainParts(a, b + (c + d));
    PlainParts(b, c + d);
    PlainParts(c, d);
  }

  lemma BlankParts(a: string, b: string)
    requires Blanks(a + b)
    ensures Blanks(a) && Blanks(b)
  {
    assert forall i | 0 <= i < |a| :: (a + b)[i] == a[i];
    assert forall i | 0 <= i < |b| :: (a + b)[|a| + i] == b[i];
  }

  lemma PlainParts(a: string, b: string)
    requires NoneAre(a + b, '\n')
    ensures NoneAre(a, '\n') && NoneAre(b, '\n')
  {
    assert forall i | 0 <= i < |a| :: (a + b)[i] == a[i];
    assert forall i | 0 <= i < |b| :: (a + b)[|a| + i] == b[i];
  }
}
