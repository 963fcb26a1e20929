/**
 Newline-delimited frames over a stream that arrives in arbitrary pieces: the capped reader of the host-agent
 client and the line reader of the app's own socket, against a specification on the whole byte stream.
 */
module Frames {
  import opened Text

  type byte = b: int | 0 <= b < 256

  /** What one read returns; an empty read is the end of the stream. */
  type Chunk = c: seq<byte> | c != [] witness [0]

  const NL: byte := 0x0a

  function Flatten(chunks: seq<Chunk>): (bytes: seq<byte>) {
    if chunks == [] then [] else chunks[0] + Flatten(chunks[1..])
  }

  // ---- the whole-stream specification ----

  /** The contents of the newline-terminated lines. */
  function Terminated(s: seq<byte>): (lines: seq<seq<byte>>)
    decreases |s|
  {
    var p := Find(s, NL);
    if p == |s| then [] else [s[..p]] + Terminated(s[p + 1..])
  }

  /** The unterminated rest. */
  function Tail(s: seq<byte>): (t: seq<byte>)
    decreases |s|
  {
    var p := Find(s, NL);
    if p == |s| then s else Tail(s[p + 1..])
  }

  /** The lines up to the first one over the cap. */
  function WithinCap(lines: seq<seq<byte>>, max: nat): (r: seq<seq<byte>>)
    ensures |r| <= |lines| && r == lines[..|r|]
    ensures r == lines <==> AllWithin(lines, max)
  {
    if lines == [] || |lines[0]| > max then [] else [lines[0]] + WithinCap(lines[1..], max)
  }

  predicate AllWithin(lines: seq<seq<byte>>, max: nat) {
    forall l | l in lines :: |l| <= max
  }

  lemma AllWithinRest(lines: seq<seq<byte>>, max: nat)
    requires lines != []
    ensures AllWithin(lines, max) <==> |lines[0]| <= max && AllWithin(lines[1..], max)
  {
    assert lines == [lines[0]] + lines[1..];
  }

  datatype Outcome = Frame(bytes: seq<byte>) | Eof | TooLarge

  /** What a stream yields before the reader gives up, and why it did. */
  datatype Frames = Frames(lines: seq<seq<byte>>, end: Outcome)

  function After(lines: seq<seq<byte>>, f: Frames): (r: Frames) {
    Frames(lines + f.lines, f.end)
  }

  lemma AfterBoth(a: seq<seq<byte>>, b: seq<seq<byte>>, f: Frames)
    ensures After(a, After(b, f)) == After(a + b, f)
  {
    assert a + (b + f.lines) == a + b + f.lines;
  }

  lemma NothingBefore(f: Frames)
    ensures After([], f) == f
  {
  }

  lemma AfterNothing(a: seq<seq<byte>>, end: Outcome)
    ensures After(a, Frames([], end)) == Frames(a, end)
  {
  }

  /** A frame without its newline. */
  function Content(frame: seq<byte>): (line: seq<byte>) {
    if frame == [] then [] else frame[..|frame| - 1]
  }

  // ---- the capped reader of the host-agent client ----

  /** The reader's buffered bytes, and the reads still to come. */
  datatype Source = Source(avail: seq<byte>, upcoming: seq<Chunk>)

  function Bytes(src: Source): (s: seq<byte>) {
    src.avail + Flatten(src.upcoming)
  }

  /** Fetches one more chunk if nothing is buffered. */
  function Fill(src: Source): (r: Source)
    ensures Bytes(r) == Bytes(src)
    ensures r.avail == [] <==> Bytes(src) == []
    ensures |r.upcoming| <= |src.upcoming|
  {
    if src.avail == [] && src.upcoming != [] then
      assert Flatten(src.upcoming) == src.upcoming[0] + Flatten(src.upcoming[1..]);
      Source(src.upcoming[0], src.upcoming[1..])
    else src
  }

  datatype Read = Read(out: Outcome, buf: seq<byte>, src: Source)

  /** One frame: `buf` grows by whole buffered pieces, and its size is looked at only when no newline was found. */
  function ReadFrame(src: Source, buf: seq<byte>, max: nat): (r: Read)
    ensures r.out.Frame? ==> |Bytes(r.src)| < |Bytes(src)| && r.out.bytes == r.buf
    ensures r.out.Frame? ==> r.buf != [] && r.buf[|r.buf| - 1] == NL
    decreases |Bytes(src)|
  {
    var s := Fill(src);
    if s.avail == [] then Read(Eof, buf, s)
    else
      var p := Find(s.avail, NL);
      if p < |s.avail| then
        var buf' := buf + s.avail[..p + 1];
        Read(Frame(buf'), buf', Source(s.avail[p + 1..], s.upcoming))
      else if |buf + s.avail| > max then Read(TooLarge, buf + s.avail, Source([], s.upcoming))
      else ReadFrame(Source([], s.upcoming), buf + s.avail, max)
  }

  /** The frames of a whole connection, without their newlines. */
  function RustFrames(src: Source, max: nat): (r: Frames)
    decreases |Bytes(src)|
  {
    var r := ReadFrame(src, [], max);
    match r.out
    case Frame(f) =>
      var rest := RustFrames(r.src, max);
      After([Content(f)], rest)
    case _ => Frames([], r.out)
  }

  lemma FramesStep(src: Source, max: nat)
    ensures var r, f := ReadFrame(src, [], max), RustFrames(src, max);
            if r.out.Frame? then
              var rest := RustFrames(r.src, max);
              |Bytes(r.src)| < |Bytes(src)| && f == After([Content(r.out.bytes)], rest)
            else f == Frames([], r.out)
  {
    hide ReadFrame;
  }

  /** The bytes that arrive in pieces before the one holding the first newline. */
  function Early(src: Source): (s: seq<byte>)
    decreases |Bytes(src)|
  {
    var f := Fill(src);
    if f.avail == [] || Find(f.avail, NL) < |f.avail| then [] else f.avail + Early(Source([], f.upcoming))
  }

  lemma FindConcat(a: seq<byte>, b: seq<byte>)
    ensures Find(a + b, NL) == if Find(a, NL) < |a| then Find(a, NL) else |a| + Find(b, NL)
  {
    var p, q := Find(a, NL), Find(b, NL);
    if p < |a| {
      assert (a + b)[..p] == a[..p];
      FindIs(a + b, NL, p);
    } else {
      assert (a + b)[..|a| + q] == a[..p] + b[..q];
      FindIs(a + b, NL, |a| + q);
    }
  }

  /**
   What one call does, in terms of the bytes and of how many came before the newline's own piece: it returns
   the first line exactly when those were within the cap.
   */
  predicate ReadsExactly(src: Source, buf: seq<byte>, max: nat) {
    var r, all, early := ReadFrame(src, buf, max), Bytes(src), |buf| + |Early(src)|;
    var p := Find(all, NL);
    && (p < |all| && early <= max ==> r.out.Frame? && r.buf == buf + all[..p + 1] && Bytes(r.src) == all[p + 1..])
    && (p < |all| && early > max ==> r.out == TooLarge)
    && (p == |all| ==> r.out == if |buf| + |all| <= max then Eof else TooLarge)
  }

  lemma {:induction false} EarlyIsBeforeNewline(src: Source)
    ensures |Early(src)| <= Find(Bytes(src), NL)
    decreases |Bytes(src)|
  {
    hide Find;
    var s := Fill(src);
    if s.avail != [] && Find(s.avail, NL) == |s.avail| {
      FindConcat(s.avail, Flatten(s.upcoming));
      EarlyIsBeforeNewline(Source([], s.upcoming));
      assert [] + Flatten(s.upcoming) == Flatten(s.upcoming);
    }
  }

  lemma ReadHit(src: Source, buf: seq<byte>, max: nat)
    requires |buf| <= max && Find(Fill(src).avail, NL) < |Fill(src).avail|
    ensures ReadsExactly(src, buf, max)
  {
    var s, all, p := Fill(src), Bytes(src), Find(Fill(src).avail, NL);
    FindConcat(s.avail, Flatten(s.upcoming));
    hide Fill, Find, Flatten;
    assert all[..p + 1] == s.avail[..p + 1];
    assert all[p + 1..] == s.avail[p + 1..] + Flatten(s.upcoming);
  }

  lemma MissSteps(src: Source, buf: seq<byte>, max: nat)
    requires Fill(src).avail != [] && Find(Fill(src).avail, NL) == |Fill(src).avail|
    ensures var s := Fill(src);
            && Early(src) == s.avail + Early(Source([], s.upcoming))
            && (|buf + s.avail| <= max ==>
               ReadFrame(src, buf, max) == ReadFrame(Source([], s.upcoming), buf + s.avail, max))
            && (|buf + s.avail| > max ==> ReadFrame(src, buf, max).out == TooLarge)
  {
  }

  lemma ReadMiss(src: Source, buf: seq<byte>, max: nat)
    requires |buf| <= max && Fill(src).avail != [] && Find(Fill(src).avail, NL) == |Fill(src).avail|
    requires var s := Fill(src); |buf + s.avail| <= max ==> ReadsExactly(Source([], s.upcoming), buf + s.avail, max)
    ensures ReadsExactly(src, buf, max)
  {
    hide Fill, Find, Flatten, ReadFrame, Early, Bytes;
    var s, all := Fill(src), Bytes(src);
    var rest := Bytes(Source([], s.upcoming));
    BytesSplit(s);
    MissSteps(src, buf, max);
    FindConcat(s.avail, rest);
    var q := Find(rest, NL);
    if q < |rest| {
      assert all[..|s.avail| + q + 1] == s.avail + rest[..q + 1];
      assert buf + s.avail + rest[..q + 1] == buf + (s.avail + rest[..q + 1]);
      assert all[|s.avail| + q + 1..] == rest[q + 1..];
    }
  }

  lemma BytesSplit(src: Source)
    ensures Bytes(src) == src.avail + Bytes(Source([], src.upcoming))
  {
  }

  lemma {:induction false} ReadFrameExact(src: Source, buf: seq<byte>, max: nat)
    requires |buf| <= max
    ensures ReadsExactly(src, buf, max)
    decreases |Bytes(src)|
  {
    var s := Fill(src);
    if s.avail != [] {
      if Find(s.avail, NL) < |s.avail| {
        ReadHit(src, buf, max);
      } else {
        hide ReadsExactly, ReadFrame;
        if |buf + s.avail| <= max { ReadFrameExact(Source([], s.upcoming), buf + s.avail, max); }
        ReadMiss(src, buf, max);
      }
    }
  }

  /** How much one call may hold: the cap and one piece more. */
  lemma {:induction false} BufferBounded(src: Source, buf: seq<byte>, max: nat, piece: nat)
    requires |buf| <= max && |src.avail| <= piece && forall c | c in src.upcoming :: |c| <= piece
    ensures |ReadFrame(src, buf, max).buf| <= max + piece
    decreases |Bytes(src)|
  {
    var s := Fill(src);
    if s.avail != [] && Find(s.avail, NL) == |s.avail| && |buf + s.avail| <= max {
      BufferBounded(Source([], s.upcoming), buf + s.avail, max, piece);
    }
  }

  /** A first line within the cap is delivered however the bytes were cut. */
  lemma FirstLineWithin(src: Source, max: nat)
    requires Find(Bytes(src), NL) <= max
    ensures var all, r := Bytes(src), ReadFrame(src, [], max);
            var p := Find(all, NL);
            if p < |all| then
              r.out == Frame(all[..p + 1]) && Content(r.out.bytes) == all[..p] && Bytes(r.src) == all[p + 1..]
            else r.out == Eof
  {
    var all := Bytes(src);
    var p := Find(all, NL);
    ReadFrameExact(src, [], max);
    EarlyIsBeforeNewline(src);
    hide Find, Flatten, Early, ReadFrame, Bytes;
    if p < |all| {
      assert [] + all[..p + 1] == all[..p + 1];
      assert all[..p + 1][..p] == all[..p];
    }
  }

  lemma {:induction false} LinesStep(s: seq<byte>)
    ensures var p := Find(s, NL);
            if p == |s| then Terminated(s) == [] && Tail(s) == s
            else Terminated(s) == [s[..p]] + Terminated(s[p + 1..]) && Tail(s) == Tail(s[p + 1..])
  {
    hide Find;
  }

  /** A line ends at the byte 10, and a text without one is all rest. */
  lemma LinesAreCut(line: seq<byte>, rest: seq<byte>)
    requires NoneAre(line, 10)
    ensures Terminated(line + [10] + rest) == [line] + Terminated(rest) && Tail(line + [10] + rest) == Tail(rest)
    ensures Terminated(line) == [] && Tail(line) == line
  {
    var s := line + [10] + rest;
    assert s[..|line|] == line && s[|line| + 1..] == rest && line[..|line|] == line;
    FindIs(s, 10, |line|);
    FindIs(line, 10, |line|);
    LinesStep(s);
    LinesStep(line);
  }

  /** With every line within the cap, the frames are the terminated lines, however the bytes were cut. */
  lemma {:induction false} RustFramesAreLines(src: Source, max: nat)
    requires AllWithin(Terminated(Bytes(src)), max)
    ensures RustFrames(src, max).lines == Terminated(Bytes(src))
    ensures RustFrames(src, max).end == if |Tail(Bytes(src))| <= max then Eof else TooLarge
    decreases |Bytes(src)|
  {
    var all := Bytes(src);
    LinesStep(all);
    FramesStep(src, max);
    hide Find, AllWithin, ReadFrame, Bytes, RustFrames, Terminated, Tail, ReadsExactly;
    if Find(all, NL) < |all| {
      AllWithinRest(Terminated(all), max);
      FirstLineWithin(src, max);
      RustFramesAreLines(ReadFrame(src, [], max).src, max);
    } else {
      NoLine(src, max);
    }
  }

  lemma NoLine(src: Source, max: nat)
    requires Find(Bytes(src), NL) == |Bytes(src)|
    ensures ReadFrame(src, [], max).out == if |Bytes(src)| <= max then Eof else TooLarge
  {
    ReadFrameExact(src, [], max);
  }

  // ---- lines over the cap ----

  const MAX_FRAME_BYTES: nat := 0x10_0000
  /** What the buffered reader hands out at most at a time. */
  const READ_BYTES: nat := 8192

  /** The stream brings exactly this line, in reads of at most `piece` bytes. */
  ghost predicate Carries(src: Source, line: seq<byte>, piece: nat) {
    && |src.avail| <= piece && (forall c | c in src.upcoming :: |c| <= piece)
    && Bytes(src) == line + [10]
  }

  predicate Delivers(src: Source, line: seq<byte>, max: nat) {
    ReadFrame(src, [], max).out == Frame(line + [NL])
  }

  lemma {:induction false} FillsFirst(c: Chunk, rest: seq<Chunk>)
    ensures Fill(Source([], [c] + rest)) == Source(c, rest)
    ensures Bytes(Source([], [c] + rest)) == c + Bytes(Source([], rest))
  {
    hide Find, Early;
    assert ([c] + rest)[1..] == rest;
    assert Flatten([c] + rest) == c + Flatten(rest);
  }

  lemma {:induction false} FirstChunk(c: Chunk, rest: seq<Chunk>)
    ensures Early(Source([], [c] + rest)) == if Find(c, NL) < |c| then [] else c + Early(Source([], rest))
  {
    hide Find, Flatten, Fill, Bytes;
    FillsFirst(c, rest);
  }

  lemma NotInPiece(c: seq<byte>)
    requires NoneAre(c, NL)
    ensures Find(c, NL) == |c|
  {
    assert c[..|c|] == c;
    FindIs(c, NL, |c|);
  }

  lemma {:induction false} PrependedBytes(c: Chunk, src: Source, line: seq<byte>)
    requires src.avail == [] && Bytes(src) == line + [NL]
    ensures Bytes(Source([], [c] + src.upcoming)) == c + line + [NL]
  {
    hide Flatten, Fill, Bytes;
    FillsFirst(c, src.upcoming);
    assert src == Source([], src.upcoming);
    assert c + (line + [NL]) == c + line + [NL];
  }

  lemma {:induction false} PrependedEarly(c: Chunk, src: Source)
    requires src.avail == [] && Find(c, NL) == |c|
    ensures |Early(Source([], [c] + src.upcoming))| == |c| + |Early(src)|
  {
    hide Find, Flatten, Fill, Bytes, Early;
    FirstChunk(c, src.upcoming);
    assert src == Source([], src.upcoming);
  }

  /** One more read in front, without a newline. */
  lemma {:induction false} Prepended(c: Chunk, src: Source, line: seq<byte>, piece: nat)
    requires src.avail == [] && NoneAre(c, NL) && |c| <= piece && Carries(src, line, piece)
    ensures var more := Source([], [c] + src.upcoming);
            Carries(more, c + line, piece) && |Early(more)| == |c| + |Early(src)|
  {
    hide Find, Flatten, Fill, Bytes, Early, NoneAre;
    NotInPiece(c);
    PrependedBytes(c, src, line);
    PrependedEarly(c, src);
  }

  lemma WholeLine(line: seq<byte>, piece: nat)
    requires NoneAre(line, NL) && |line| + 1 <= piece
    ensures var src := Source([], [line + [NL]]); Carries(src, line, piece) && Early(src) == []
  {
    var all := line + [NL];
    assert all[..|line|] == line;
    FindIs(all, NL, |line|);
    FillsFirst(all, []);
    FirstChunk(all, []);
    assert [all] + [] == [all];
    assert Bytes(Source([], [])) == [];
    hide Find, Flatten, Fill, Bytes, Early, NoneAre;
    assert all + [] == all;
  }

  /** A line can be cut so that exactly `e` of its bytes come before its newline's own read. */
  lemma {:induction false} CutAt(line: seq<byte>, e: nat, piece: nat) returns (src: Source)
    requires NoneAre(line, NL) && e <= |line| && |line| - e + 1 <= piece
    ensures src.avail == [] && Carries(src, line, piece) && |Early(src)| == e
    decreases e
  {
    hide Early, Carries;
    if e == 0 {
      WholeLine(line, piece);
      src := Source([], [line + [NL]]);
    } else {
      var k := if e <= piece then e else piece;
      var rest := CutAt(line[k..], e - k, piece);
      Prepended(line[..k], rest, line[k..], piece);
      assert line[..k] + line[k..] == line;
      src := Source([], [line[..k]] + rest.upcoming);
    }
  }

  /** The line is delivered exactly when the bytes before its newline's own read fit the cap. */
  lemma {:induction false} DeliversExactly(src: Source, line: seq<byte>, piece: nat, max: nat)
    requires NoneAre(line, NL) && Carries(src, line, piece)
    ensures Delivers(src, line, max) <==> |Early(src)| <= max
  {
    var all := line + [NL];
    assert all[..|line|] == line;
    FindIs(all, NL, |line|);
    ReadFrameExact(src, [], max);
    hide ReadFrame, Bytes, Early, Find, Flatten, NoneAre;
    assert all[..|line| + 1] == all;
    assert [] + all[..|line| + 1] == all;
  }

  /** A line is delivered under every cutting into reads exactly when it is within the cap. */
  lemma AcceptedUnderEveryCutting(line: seq<byte>, max: nat, piece: nat)
    requires NoneAre(line, NL) && piece > 0
    ensures (forall src | Carries(src, line, piece) :: Delivers(src, line, max)) <==> |line| <= max
  {
    hide Carries, Delivers, Early;
    if |line| <= max {
      forall src | Carries(src, line, piece)
        ensures Delivers(src, line, max)
      {
        WithinIsAccepted(src, line, piece, max);
      }
    } else {
      var src := CutAt(line, |line|, piece);
      DeliversExactly(src, line, piece, max);
    }
  }

  /** And under some cutting exactly when it is no longer than the cap and one read, newline included. */
  lemma AcceptedUnderSomeCutting(line: seq<byte>, max: nat, piece: nat)
    requires NoneAre(line, NL) && piece > 0
    ensures (exists src | Carries(src, line, piece) :: Delivers(src, line, max)) <==> |line| + 1 <= max + piece
  {
    hide Early;
    if |line| + 1 <= max + piece {
      var src := CutAt(line, if |line| + 1 <= piece then 0 else |line| + 1 - piece, piece);
      DeliversExactly(src, line, piece, max);
    } else {
      forall src | Carries(src, line, piece)
        ensures !Delivers(src, line, max)
      {
        BufferBounded(src, [], max, piece);
        hide ReadFrame;
      }
    }
  }

  /** So how it is cut decides exactly for the lines between the two. */
  lemma OverCapDependsOnCutting(line: seq<byte>, max: nat, piece: nat)
    requires NoneAre(line, NL) && piece > 0
    ensures (&& (exists src | Carries(src, line, piece) :: Delivers(src, line, max))
             && (exists src | Carries(src, line, piece) :: !Delivers(src, line, max)))
       <==> max < |line| < max + piece
  {
    hide Carries, Delivers;
    AcceptedUnderEveryCutting(line, max, piece);
    AcceptedUnderSomeCutting(line, max, piece);
  }

  /** At the client's own cap and read size: a line one byte over the cap. */
  lemma OverCapAtTheDefaults()
    ensures exists line, src, other ::
              && |line| == 1048577 && Carries(src, line, 8192) && Carries(other, line, 8192)
              && Delivers(src, line, MAX_FRAME_BYTES) && !Delivers(other, line, MAX_FRAME_BYTES)
  {
    hide Carries, Delivers;
    var line: seq<byte> := seq(MAX_FRAME_BYTES + 1, i => 0x61);
    OverCapDependsOnCutting(line, MAX_FRAME_BYTES, READ_BYTES);
    var src :| Carries(src, line, READ_BYTES) && Delivers(src, line, MAX_FRAME_BYTES);
    var other :| Carries(other, line, READ_BYTES) && !Delivers(other, line, MAX_FRAME_BYTES);
  }

  lemma WithinIsAccepted(src: Source, line: seq<byte>, piece: nat, max: nat)
    requires NoneAre(line, NL) && |line| <= max && Carries(src, line, piece)
    ensures Delivers(src, line, max)
  {
    var all := line + [NL];
    assert all[..|line|] == line;
    FindIs(all, NL, |line|);
    EarlyIsBeforeNewline(src);
    hide ReadFrame, Early, Find, Flatten, Bytes, Delivers;
    DeliversExactly(src, line, piece, max);
  }

  // ---- the line reader of the app's socket ----

  datatype LineReader = LineReader(pending: seq<byte>, upcoming: seq<Chunk>)
  datatype LineRead = LineRead(out: Outcome, reader: LineReader)

  function Unread(r: LineReader): (s: seq<byte>) {
    r.pending + Flatten(r.upcoming)
  }

  function ReadLine(r: LineReader, max: nat): (o: LineRead)
    ensures o.out.Frame? ==> |Unread(o.reader)| < |Unread(r)|
    decreases |r.upcoming|
  {
    var p := Find(r.pending, NL);
    if p < |r.pending| then
      LineRead(if p > max then TooLarge else Frame(r.pending[..p]), r.(pending := r.pending[p + 1..]))
    else if |r.pending| > max then LineRead(TooLarge, r)
    else if r.upcoming == [] then LineRead(Eof, r)
    else ReadLine(LineReader(r.pending + r.upcoming[0], r.upcoming[1..]), max)
  }

  function SwiftFrames(r: LineReader, max: nat): (f: Frames)
    decreases |Unread(r)|
  {
    var o := ReadLine(r, max);
    match o.out
    case Frame(line) => var rest := SwiftFrames(o.reader, max); After([line], rest)
    case _ => Frames([], o.out)
  }

  /** A line comes back exactly when it is within the cap, however the bytes were cut. */
  lemma {:induction false} ReadLineExact(r: LineReader, max: nat)
    ensures var all, o := Unread(r), ReadLine(r, max);
            var p := Find(all, NL);
            if p < |all| && p <= max then o.out == Frame(all[..p]) && Unread(o.reader) == all[p + 1..]
            else o.out == if p <= max then Eof else TooLarge
    decreases |r.upcoming|
  {
    hide Find;
    var all := Unread(r);
    FindConcat(r.pending, Flatten(r.upcoming));
    var p := Find(r.pending, NL);
    if p < |r.pending| {
      assert all[..p] == r.pending[..p];
      assert all[p + 1..] == r.pending[p + 1..] + Flatten(r.upcoming);
    } else if |r.pending| <= max && r.upcoming != [] {
      var next := LineReader(r.pending + r.upcoming[0], r.upcoming[1..]);
      assert Unread(next) == all;
      ReadLineExact(next, max);
    } else {
      assert r.pending + [] == r.pending;
    }
  }

  /** The frames of a whole stream depend on its bytes only: the lines up to the first over the cap. */
  lemma {:induction false} SwiftFramesExact(r: LineReader, max: nat)
    ensures var all, f := Unread(r), SwiftFrames(r, max);
            && f.lines == WithinCap(Terminated(all), max)
            && (f.end == Eof <==> AllWithin(Terminated(all), max) && |Tail(all)| <= max)
            && (f.end == Eof || f.end == TooLarge)
    decreases |Unread(r)|
  {
    var all := Unread(r);
    var p := Find(all, NL);
    ReadLineExact(r, max);
    hide Flatten, ReadLine, Find, Unread;
    if p < |all| {
      AllWithinRest(Terminated(all), max);
      if p <= max {
        SwiftFramesExact(ReadLine(r, max).reader, max);
      }
    }
  }

  /** On the same bytes, cut in any two ways, what one reader delivers is where the other starts. */
  lemma {:induction false} SwiftIsPrefixOfRust(r: LineReader, src: Source, max: nat)
    requires Unread(r) == Bytes(src)
    ensures SwiftFrames(r, max).lines <= RustFrames(src, max).lines
    decreases |Unread(r)|
  {
    var all := Unread(r);
    var p := Find(all, NL);
    ReadLineExact(r, max);
    FramesStep(src, max);
    hide Flatten, ReadLine, ReadFrame, Find, Unread, Bytes, Early, RustFrames;
    if p < |all| && p <= max {
      FirstLineWithin(src, max);
      SwiftIsPrefixOfRust(ReadLine(r, max).reader, ReadFrame(src, [], max).src, max);
    }
  }

  // ---- what is handed to the decoder ----

  predicate LineEnd(b: byte) {
    b == NL || b == 0x0d
  }

  /** Without the newlines and carriage returns at its end. */
  function Stripped(line: seq<byte>): (r: seq<byte>)
    ensures |r| <= |line| && r == line[..|r|] && (r != [] ==> !LineEnd(r[|r| - 1]))
    ensures forall i | |r| <= i < |line| :: LineEnd(line[i])
  {
    if line != [] && LineEnd(line[|line| - 1]) then Stripped(line[..|line| - 1]) else line
  }

  /** Stripping takes the bytes 10 and 13 off the end, however many there are, and nothing else. */
  lemma {:induction false} StrippedExact(line: seq<byte>, ends: seq<byte>)
    requires (forall i | 0 <= i < |ends| :: ends[i] in {10, 13}) && (line == [] || line[|line| - 1] !in {10, 13})
    ensures Stripped(line + ends) == line
  {
    if ends == [] {
      assert line + ends == line;
    } else {
      assert (line + ends)[..|line + ends| - 1] == line + ends[..|ends| - 1];
      StrippedExact(line, ends[..|ends| - 1]);
    }
  }

  /** The lines that are not blank, stripped. */
  function Handed(lines: seq<seq<byte>>): (r: seq<seq<byte>>)
    ensures forall f | f in r :: f != []
  {
    if lines == [] then []
    else
      var last := Stripped(lines[|lines| - 1]);
      Handed(lines[..|lines| - 1]) + if last == [] then [] else [last]
  }

  lemma NothingHanded()
    ensures Handed([]) == []
  {
  }

  lemma HandedSnoc(lines: seq<seq<byte>>, frame: seq<byte>)
    requires frame != [] && frame[|frame| - 1] == NL
    ensures Handed(lines + [Content(frame)])
            == Handed(lines) + if Stripped(frame) == [] then [] else [Stripped(frame)]
  {
    assert (lines + [Content(frame)])[..|lines|] == lines;
    assert Stripped(frame) == Stripped(Content(frame));
  }

  // ---- the readers themselves ----

  /** The host-agent client's buffered reader. */
  class FrameReader {
    var avail: seq<byte>
    var upcoming: seq<Chunk>

    constructor (upcoming: seq<Chunk>)
      ensures Contents() == Source([], upcoming)
    {
      this.avail, this.upcoming := [], upcoming;
    }

    function Contents(): (src: Source)
      reads this
    {
      Source(avail, upcoming)
    }

    method FillBuf() returns (available: seq<byte>)
      modifies this
      ensures Contents() == Fill(old(Contents())) && available == avail
    {
      if avail == [] && upcoming != [] {
        avail, upcoming := upcoming[0], upcoming[1..];
      }
      available := avail;
    }

    method Consume(n: nat)
      requires n <= |avail|
      modifies this
      ensures Contents() == Source(old(avail)[n..], old(upcoming))
    {
      avail := avail[n..];
    }

    method ReadFrameCapped(start: seq<byte>, max: nat) returns (out: Outcome, buf: seq<byte>)
      modifies this
      ensures Read(out, buf, Contents()) == ReadFrame(old(Contents()), start, max)
    {
      hide Find, Flatten;
      buf := start;
      while true
        invariant ReadFrame(Contents(), buf, max) == ReadFrame(old(Contents()), start, max)
        decreases |Bytes(Contents())|
      {
        ghost var before := Contents();
        var available := FillBuf();
        if available == [] {
          return Eof, buf;
        }
        var p := Find(available, NL);
        if p < |available| {
          buf := buf + available[..p + 1];
          Consume(p + 1);
          return Frame(buf), buf;
        }
        buf := buf + available;
        Consume(|available|);
        if |buf| > max {
          return TooLarge, buf;
        }
        BytesSplit(Fill(before));
      }
    }

    method StripTrailingNewline(line: seq<byte>) returns (r: seq<byte>)
      ensures r == Stripped(line)
    {
      var end := |line|;
      while end > 0 && LineEnd(line[end - 1])
        invariant 0 <= end <= |line| && Stripped(line[..end]) == Stripped(line)
      {
        assert line[..end][..end - 1] == line[..end - 1];
        end := end - 1;
      }
      r := line[..end];
    }

    /** Frames until the stream ends or one is refused; each is stripped, and blank ones are skipped. */
    method ReadFrames(max: nat) returns (frames: seq<seq<byte>>, end: Outcome)
      modifies this
      ensures frames == Handed(RustFrames(old(Contents()), max).lines) && end == RustFrames(old(Contents()), max).end
      ensures AllWithin(Terminated(Bytes(old(Contents()))), max) ==>
              frames == Handed(Terminated(Bytes(old(Contents()))))
    {
      ghost var lines := [];
      frames := [];
      NothingHanded();
      ghost var whole := RustFrames(Contents(), max);
      if AllWithin(Terminated(Bytes(Contents())), max) {
        RustFramesAreLines(Contents(), max);
      }
      hide Bytes, ReadFrame, RustFrames, AllWithin, Terminated, After, Stripped, Content, Handed;
      NothingBefore(whole);
      while true
        invariant After(lines, RustFrames(Contents(), max)) == whole && frames == Handed(lines)
        decreases |Bytes(Contents())|
      {
        FramesStep(Contents(), max);
        var out, buf := ReadFrameCapped([], max);
        match out {
          case Frame(f) =>
            AfterBoth(lines, [Content(f)], RustFrames(Contents(), max));
            HandedSnoc(lines, f);
            lines := lines + [Content(f)];
            var stripped := StripTrailingNewline(f);
            if stripped != [] {
              frames := frames + [stripped];
            }
          case _ =>
            AfterNothing(lines, out);
            return frames, out;
        }
      }
    }
  }

  /** The line reader over a socket descriptor. */
  class LineFrameReader {
    const maxBytes: nat
    var pending: seq<byte>
    var upcoming: seq<Chunk>

    constructor (upcoming: seq<Chunk>, maxBytes: nat)
      ensures Contents() == LineReader([], upcoming) && this.maxBytes == maxBytes
    {
      this.maxBytes, this.pending, this.upcoming := maxBytes, [], upcoming;
    }

    function Contents(): (r: LineReader)
      reads this
    {
      LineReader(pending, upcoming)
    }

    method Next() returns (out: Outcome)
      modifies this
      ensures LineRead(out, Contents()) == ReadLine(old(Contents()), maxBytes)
      ensures var all := Unread(old(Contents()));
              out.Frame? <==> Find(all, NL) < |all| && Find(all, NL) <= maxBytes
    {
      ReadLineExact(Contents(), maxBytes);
      ghost var goal := ReadLine(Contents(), maxBytes);
      hide Find, Flatten, Unread;
      while true
        invariant ReadLine(Contents(), maxBytes) == goal
        decreases |upcoming|
      {
        var p := Find(pending, NL);
        if p < |pending| {
          var line := pending[..p];
          pending := pending[p + 1..];
          if |line| > maxBytes {
            return TooLarge;
          }
          return Frame(line);
        }
        if |pending| > maxBytes {
          return TooLarge;
        }
        if upcoming == [] {
          return Eof;
        }
        pending, upcoming := pending + upcoming[0], upcoming[1..];
      }
    }
  }
}
