/**
 Reordering the blocks of a config file, whoever wrote it: the blocks of a row, such as the servers, can stand in any
 order in any well-indented file.
 */
module ConfigRows {
  import opened Text
  import opened Config
  import opened ConfigOrder

  // ---- rows of blocks ----

  /** Neighbouring blocks at one depth, no two with the same key. */
  predicate Siblings(bs: seq<seq<Line>>, d: nat) {
    && (forall i | 0 <= i < |bs| :: IsBlock(bs[i], d))
    && (forall i, j | 0 <= i < j < |bs| :: bs[i][0].key != bs[j][0].key)
  }

  function Cat(bs: seq<seq<Line>>): (lines: seq<Line>) {
    if bs == [] then [] else bs[0] + Cat(bs[1..])
  }

  function Laid(pre: seq<Line>, bs: seq<seq<Line>>, post: seq<Line>): (lines: seq<Line>) {
    pre + Cat(bs) + post
  }

  lemma {:induction false} CatSplit(bs: seq<seq<Line>>, p: nat)
    requires p <= |bs|
    ensures Cat(bs) == Cat(bs[..p]) + Cat(bs[p..])
  {
    if p == 0 {
      assert bs[..0] == [] && bs[0..] == bs;
    } else {
      CatSplit(bs[1..], p - 1);
      assert bs[..p][1..] == bs[1..][..p - 1] && bs[p..] == bs[1..][p - 1..];
    }
  }

  /** Two neighbours of a row of blocks, and the lines around them. */
  lemma LaidAround(pre: seq<Line>, bs: seq<seq<Line>>, p: nat, post: seq<Line>, d: nat)
    requires p + 1 < |bs| && Siblings(bs, d) && Ends(post, d)
    ensures Laid(pre, bs, post) == Whole(pre + Cat(bs[..p]), bs[p], bs[p + 1], Cat(bs[p + 2..]) + post)
    ensures Swappable(bs[p], bs[p + 1], Cat(bs[p + 2..]) + post, d)
  {
    CatSplit(bs, p);
    assert bs[p..][1..] == bs[p + 1..] && bs[p + 1..][1..] == bs[p + 2..];
    assert Cat(bs[p..]) == bs[p] + (bs[p + 1] + Cat(bs[p + 2..]));
    var rest := bs[p + 2..];
    if rest != [] { assert rest[0] == bs[p + 2] && (Cat(rest) + post)[0] == bs[p + 2][0]; }
    else { assert Cat(rest) + post == post; }
    hide Cat;
    var front, x, y, z := Cat(bs[..p]), bs[p], bs[p + 1], Cat(rest);
    assert pre + (front + (x + (y + z))) + post == (pre + front) + x + y + (z + post);
  }

  function Swapped(bs: seq<seq<Line>>, p: nat): (r: seq<seq<Line>>)
    requires p + 1 < |bs|
  {
    bs[..p] + [bs[p + 1], bs[p]] + bs[p + 2..]
  }

  /** Reads the same, and stays well indented. */
  predicate SameReading(one: seq<Line>, two: seq<Line>) {
    WellIndented(one) && WellIndented(two) && Build(one, 0, -1) == Build(two, 0, -1)
  }

  lemma SwapNeighbours(pre: seq<Line>, bs: seq<seq<Line>>, p: nat, post: seq<Line>, d: nat)
    requires p + 1 < |bs| && Siblings(bs, d) && Ends(post, d) && WellIndented(Laid(pre, bs, post))
    ensures Siblings(Swapped(bs, p), d) && SameReading(Laid(pre, bs, post), Laid(pre, Swapped(bs, p), post))
  {
    hide Build, WellIndented, Laid, Cat, IsBlock, Swappable;
    var cs := Swapped(bs, p);
    SwappedSiblings(bs, p, d);
    LaidAround(pre, bs, p, post, d);
    LaidAround(pre, cs, p, post, d);
    assert cs[..p] == bs[..p] && cs[p + 2..] == bs[p + 2..];
    SwapKeepsTree(pre + Cat(bs[..p]), bs[p], bs[p + 1], Cat(bs[p + 2..]) + post, d);
    SwapKeepsIndent(pre + Cat(bs[..p]), bs[p], bs[p + 1], Cat(bs[p + 2..]) + post, d);
  }

  lemma SwappedSiblings(bs: seq<seq<Line>>, p: nat, d: nat)
    requires p + 1 < |bs| && Siblings(bs, d)
    ensures Siblings(Swapped(bs, p), d)
  {
    hide IsBlock;
    var cs := Swapped(bs, p);
    var at := (i: int) => if i == p then p + 1 else if i == p + 1 then p else i;
    assert forall i | 0 <= i < |cs| :: 0 <= at(i) < |bs| && cs[i] == bs[at(i)];
  }

  function Fronted(bs: seq<seq<Line>>, p: nat): (r: seq<seq<Line>>)
    requires p < |bs|
  {
    [bs[p]] + bs[..p] + bs[p + 1..]
  }

  /** Any block of a row can come first. */
  lemma {:induction false} BringToFront(pre: seq<Line>, bs: seq<seq<Line>>, p: nat, post: seq<Line>, d: nat)
    requires p < |bs| && Siblings(bs, d) && Ends(post, d) && WellIndented(Laid(pre, bs, post))
    ensures Siblings(Fronted(bs, p), d) && SameReading(Laid(pre, bs, post), Laid(pre, Fronted(bs, p), post))
    decreases p
  {
    hide Build, WellIndented, Laid, Siblings;
    if p == 0 {
      assert Fronted(bs, 0) == bs;
    } else {
      SwapNeighbours(pre, bs, p - 1, post, d);
      var cs := Swapped(bs, p - 1);
      BringToFront(pre, cs, p - 1, post, d);
      assert Fronted(cs, p - 1) == Fronted(bs, p);
    }
  }

  /** The blocks of a row can stand in any order. */
  lemma {:induction false} AnyOrder(pre: seq<Line>, bs: seq<seq<Line>>, cs: seq<seq<Line>>, post: seq<Line>, d: nat)
    requires multiset(bs) == multiset(cs) && Siblings(bs, d) && Ends(post, d) && WellIndented(Laid(pre, bs, post))
    ensures SameReading(Laid(pre, bs, post), Laid(pre, cs, post))
    decreases |bs|
  {
    hide Build, WellIndented, Laid, Siblings, Fronted;
    SameLength(bs, cs);
    if bs != [] {
      var p := FindBlock(bs, cs);
      BringToFront(pre, bs, p, post, d);
      FrontedIs(bs, p);
      RestMatches(bs, cs, p);
      LaidFirst(pre, Fronted(bs, p), post);
      LaidFirst(pre, cs, post);
      TailSiblings(Fronted(bs, p), d);
      AnyOrder(pre + cs[0], bs[..p] + bs[p + 1..], cs[1..], post, d);
    }
  }

  lemma FrontedIs(bs: seq<seq<Line>>, p: nat)
    requires p < |bs|
    ensures Fronted(bs, p) != [] && Fronted(bs, p)[0] == bs[p] && Fronted(bs, p)[1..] == bs[..p] + bs[p + 1..]
  {
  }

  lemma LaidFirst(pre: seq<Line>, bs: seq<seq<Line>>, post: seq<Line>)
    requires bs != []
    ensures Laid(pre, bs, post) == Laid(pre + bs[0], bs[1..], post)
  {
  }

  lemma TailSiblings(bs: seq<seq<Line>>, d: nat)
    requires Siblings(bs, d) && bs != []
    ensures Siblings(bs[1..], d)
  {
    hide IsBlock;
  }

  lemma FindBlock<T>(bs: seq<T>, cs: seq<T>) returns (p: nat)
    requires multiset(bs) == multiset(cs) && cs != []
    ensures p < |bs| && bs[p] == cs[0]
  {
    assert cs[0] in multiset(cs) && cs[0] in multiset(bs);
    p :| 0 <= p < |bs| && bs[p] == cs[0];
  }

  lemma RestMatches<T>(bs: seq<T>, cs: seq<T>, p: nat)
    requires p < |bs| && cs != [] && bs[p] == cs[0] && multiset(bs) == multiset(cs)
    ensures multiset(bs[..p] + bs[p + 1..]) == multiset(cs[1..])
  {
    WithoutOne(bs, p);
    WithoutOne(cs, 0);
    assert cs[..0] + cs[1..] == cs[1..];
    CancelOne(multiset(bs[..p] + bs[p + 1..]), multiset(cs[1..]), cs[0]);
  }

  lemma WithoutOne<T>(s: seq<T>, p: nat)
    requires p < |s|
    ensures multiset(s) == multiset(s[..p] + s[p + 1..]) + multiset{s[p]}
  {
    assert s == s[..p] + [s[p]] + s[p + 1..];
  }

  lemma CancelOne<T>(a: multiset<T>, b: multiset<T>, x: T)
    requires a + multiset{x} == b + multiset{x}
    ensures a == b
  {
    assert a == a + multiset{x} - multiset{x};
    assert b == b + multiset{x} - multiset{x};
  }

  // ---- whole files ----

  predicate Plain(raws: seq<string>) {
    forall i | 0 <= i < |raws| :: NoneAre(raws[i], '\n')
  }

  function CatRaw(bs: seq<seq<string>>): (raws: seq<string>) {
    if bs == [] then [] else bs[0] + CatRaw(bs[1..])
  }

  /** The significant lines of each block. */
  function Significant(bs: seq<seq<string>>): (r: seq<seq<Line>>)
    ensures |r| == |bs| && forall i | 0 <= i < |bs| :: r[i] == ReadLines(bs[i])
  {
    seq(|bs|, i requires 0 <= i < |bs| => ReadLines(bs[i]))
  }

  function FileOf(pre: seq<string>, bs: seq<seq<string>>, post: seq<string>): (raws: seq<string>) {
    pre + CatRaw(bs) + post
  }

  /**
   The lines of a file around a row of blocks, with whatever blank and comment lines and indentation they have: the
   blocks are at one depth, no two have the same key, what follows closes them, and the file is well indented.
   */
  predicate Reorderable(pre: seq<string>, bs: seq<seq<string>>, post: seq<string>, d: nat) {
    && FileOf(pre, bs, post) != [] && Plain(FileOf(pre, bs, post))
    && Siblings(Significant(bs), d) && Ends(ReadLines(post), d)
    && WellIndented(ReadLines(FileOf(pre, bs, post)))
  }

  lemma {:induction false} CatReads(bs: seq<seq<string>>)
    ensures ReadLines(CatRaw(bs)) == Cat(Significant(bs))
  {
    hide ReadLines;
    if bs == [] {
      NoLinesOfNone();
    } else {
      CatReads(bs[1..]);
      ReadLinesConcat(bs[0], CatRaw(bs[1..]));
      assert Significant(bs)[1..] == Significant(bs[1..]);
    }
  }

  lemma NoLinesOfNone()
    ensures ReadLines([]) == []
  {
  }

  lemma FileLines(pre: seq<string>, bs: seq<seq<string>>, post: seq<string>)
    ensures ReadLines(FileOf(pre, bs, post)) == Laid(ReadLines(pre), Significant(bs), ReadLines(post))
  {
    hide ReadLines, Cat, CatRaw;
    ReadLinesConcat(pre + CatRaw(bs), post);
    ReadLinesConcat(pre, CatRaw(bs));
    CatReads(bs);
  }

  lemma FileReads(raws: seq<string>)
    requires raws != [] && Plain(raws)
    ensures Parse(Unlines(raws)) == Map(Build(ReadLines(raws), 0, -1).entries)
  {
    hide Build, ReadLines;
    LinesOfUnlines(raws);
  }

  lemma {:induction false} SameBlocks(bs: seq<seq<string>>, cs: seq<seq<string>>)
    requires multiset(bs) == multiset(cs)
    ensures multiset(Significant(bs)) == multiset(Significant(cs)) && multiset(CatRaw(bs)) == multiset(CatRaw(cs))
    decreases |bs|
  {
    hide ReadLines, Significant, CatRaw;
    SameLength(bs, cs);
    if bs != [] {
      var p := FindBlock(bs, cs);
      RestMatches(bs, cs, p);
      SameBlocks(bs[..p] + bs[p + 1..], cs[1..]);
      TakenOut(bs, p);
      FirstTakenOut(cs);
    }
  }

  lemma SameLength<T>(bs: seq<T>, cs: seq<T>)
    requires multiset(bs) == multiset(cs)
    ensures |bs| == |cs| && (bs == [] ==> cs == [])
  {
    assert |multiset(bs)| == |bs| && |multiset(cs)| == |cs|;
  }

  lemma {:induction false} FirstTakenOut(bs: seq<seq<string>>)
    requires bs != []
    ensures multiset(Significant(bs)) == multiset{ReadLines(bs[0])} + multiset(Significant(bs[1..]))
    ensures multiset(CatRaw(bs)) == multiset(bs[0]) + multiset(CatRaw(bs[1..]))
  {
    hide ReadLines, Significant, CatRaw;
    var rest := bs[..0] + bs[1..];
    assert rest == bs[1..];
    TakenOut(bs, 0);
  }

  /** A row is one of its blocks and the others. */
  lemma {:induction false} TakenOut(bs: seq<seq<string>>, p: nat)
    requires p < |bs|
    ensures var rest := bs[..p] + bs[p + 1..];
            && multiset(Significant(bs)) == multiset{ReadLines(bs[p])} + multiset(Significant(rest))
            && multiset(CatRaw(bs)) == multiset(bs[p]) + multiset(CatRaw(rest))
  {
    hide ReadLines;
    var rest := bs[..p] + bs[p + 1..];
    var sig := Significant(bs);
    assert sig == sig[..p] + [sig[p]] + sig[p + 1..];
    assert Significant(rest) == sig[..p] + sig[p + 1..];
    TakenOutRaw(bs, p);
  }

  lemma {:induction false} TakenOutRaw(bs: seq<seq<string>>, p: nat)
    requires p < |bs|
    ensures multiset(CatRaw(bs)) == multiset(bs[p]) + multiset(CatRaw(bs[..p] + bs[p + 1..]))
  {
    var rest := bs[..p] + bs[p + 1..];
    if p == 0 {
      assert rest == bs[1..];
    } else {
      TakenOutRaw(bs[1..], p - 1);
      assert rest[0] == bs[0] && rest[1..] == bs[1..][..p - 1] + bs[1..][p..];
      assert bs[1..][p - 1 + 1..] == bs[1..][p..];
    }
  }

  /** Every such row of lines occurs in a file: written out, it is one. */
  lemma WrittenIsReorderable(pre: seq<Line>, bs: seq<seq<Line>>, post: seq<Line>, d: nat)
    requires Siblings(bs, d) && Ends(post, d) && WellIndented(Laid(pre, bs, post)) && Laid(pre, bs, post) != []
    requires forall l | l in Laid(pre, bs, post) :: CleanLine(l)
    ensures Reorderable(RawLines(pre), Written(bs), RawLines(post), d)
  {
    hide ReadLines, RawLines, CleanLine, WellIndented, IsBlock, NoneAre, Cat, CatRaw;
    LaidClean(pre, bs, post);
    RawLinesRead(pre);
    RawLinesRead(post);
    WrittenReads(bs);
    FileLines(RawLines(pre), Written(bs), RawLines(post));
    NoLinesOfNone();
    assert Significant(Written(bs)) == bs;
  }

  function Written(bs: seq<seq<Line>>): (r: seq<seq<string>>)
    ensures |r| == |bs| && forall i | 0 <= i < |bs| :: r[i] == RawLines(bs[i])
  {
    seq(|bs|, i requires 0 <= i < |bs| => RawLines(bs[i]))
  }

  lemma LaidClean(pre: seq<Line>, bs: seq<seq<Line>>, post: seq<Line>)
    requires forall l | l in Laid(pre, bs, post) :: CleanLine(l)
    ensures (forall l | l in pre :: CleanLine(l)) && (forall l | l in post :: CleanLine(l))
    ensures forall l | l in Cat(bs) :: CleanLine(l)
  {
    hide CleanLine, Cat;
    assert forall l | l in pre || l in Cat(bs) || l in post :: l in Laid(pre, bs, post);
  }

  lemma {:induction false} WrittenReads(bs: seq<seq<Line>>)
    requires forall l | l in Cat(bs) :: CleanLine(l)
    ensures forall i | 0 <= i < |bs| :: ReadLines(RawLines(bs[i])) == bs[i]
    ensures Plain(CatRaw(Written(bs)))
  {
    hide ReadLines, RawLines, CleanLine, NoneAre;
    if bs != [] {
      assert forall l | l in bs[0] || l in Cat(bs[1..]) :: l in Cat(bs);
      RawLinesRead(bs[0]);
      WrittenReads(bs[1..]);
      assert Written(bs)[1..] == Written(bs[1..]);
      forall i | 0 <= i < |bs|
        ensures ReadLines(RawLines(bs[i])) == bs[i]
      {
        if i > 0 { assert bs[i] == bs[1..][i - 1]; }
      }
    }
  }

  /** The blocks of a row of a file can stand in any order without changing what is read from it. */
  lemma ReorderedFile(pre: seq<string>, bs: seq<seq<string>>, cs: seq<seq<string>>, post: seq<string>, d: nat)
    requires Reorderable(pre, bs, post, d) && multiset(bs) == multiset(cs)
    ensures FileOf(pre, cs, post) != []
    ensures Parse(Unlines(FileOf(pre, bs, post))) == Parse(Unlines(FileOf(pre, cs, post)))
  {
    SameBlocks(bs, cs);
    SameFile(pre, bs, cs, post);
    hide Build, ReadLines, Parse, WellIndented, Siblings, Unlines, Plain, FileOf;
    FileLines(pre, bs, post);
    FileLines(pre, cs, post);
    FileReads(FileOf(pre, bs, post));
    FileReads(FileOf(pre, cs, post));
    AnyOrder(ReadLines(pre), Significant(bs), Significant(cs), ReadLines(post), d);
  }

  lemma SameFile(pre: seq<string>, bs: seq<seq<string>>, cs: seq<seq<string>>, post: seq<string>)
    requires multiset(CatRaw(bs)) == multiset(CatRaw(cs)) && FileOf(pre, bs, post) != [] && Plain(FileOf(pre, bs, post))
    ensures FileOf(pre, cs, post) != [] && Plain(FileOf(pre, cs, post))
  {
    hide NoneAre, CatRaw;
    var one, two := FileOf(pre, bs, post), FileOf(pre, cs, post);
    assert multiset(one) == multiset(two);
    assert |multiset(one)| == |one| && |multiset(two)| == |two|;
    forall i | 0 <= i < |two|
      ensures NoneAre(two[i], '\n')
    {
      assert two[i] in multiset(one);
    }
  }

  /** And so without changing the server list and the default server. */
  lemma ReorderedFileConfig(pre: seq<string>, bs: seq<seq<string>>, cs: seq<seq<string>>, post: seq<string>, d: nat,
                            one: ShedConfig, two: ShedConfig)
    requires Reorderable(pre, bs, post, d) && multiset(bs) == multiset(cs)
    requires FileOf(pre, bs, post) != [] && FileOf(pre, cs, post) != []
    requires IsConfig(one, Parse(Unlines(FileOf(pre, bs, post))).entries)
    requires IsConfig(two, Parse(Unlines(FileOf(pre, cs, post))).entries)
    ensures one == two
  {
    hide Reorderable, Parse, Unlines, IsConfig, FileOf;
    ReorderedFile(pre, bs, cs, post, d);
    ConfigIsUnique(one, two, Parse(Unlines(FileOf(pre, bs, post))).entries);
  }
}
