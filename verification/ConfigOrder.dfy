/**
 Reordering the blocks of a config file, whoever wrote it: two neighbouring blocks of any well-indented text can
 change places without changing what is read.
 */
module ConfigOrder {
  import opened Text
  import opened Config

  // ---- blocks and indentation ----

  /** A line and the deeper lines under it. */
  predicate IsBlock(r: seq<Line>, d: nat) {
    r != [] && r[0].indent == d && forall i | 1 <= i < |r| :: r[i].indent > d
  }

  /** The last line up to `k` that is less indented than `indent`, or -1. */
  function Opener(lines: seq<Line>, k: int, indent: int): (r: int)
    requires -1 <= k < |lines|
    ensures -1 <= r <= k && (r >= 0 ==> lines[r].indent < indent)
    ensures forall i | r < i <= k :: lines[i].indent >= indent
    decreases k + 1
  {
    if k < 0 || lines[k].indent < indent then k else Opener(lines, k - 1, indent)
  }

  /** What the opener of a line is, by what it must satisfy. */
  lemma OpenerIs(lines: seq<Line>, k: int, indent: int, o: int)
    requires -1 <= o <= k < |lines| && (o >= 0 ==> lines[o].indent < indent)
    requires forall i | o < i <= k :: lines[i].indent >= indent
    ensures Opener(lines, k, indent) == o
  {
  }

  /** Siblings are indented alike: every line as much as the first line under its opener. */
  predicate WellIndented(lines: seq<Line>) {
    forall j | 0 <= j < |lines| :: AlignedAt(lines, j)
  }

  predicate AlignedAt(lines: seq<Line>, j: nat)
    requires j < |lines|
  {
    lines[Opener(lines, j - 1, lines[j].indent) + 1].indent == lines[j].indent
  }

  /** A level under way at `k`: it started at `s`, right under its opener, and no line since has closed it. */
  predicate UnderWay(lines: seq<Line>, s: nat, k: nat, parent: int, child: int) {
    && s <= k <= |lines| && s < |lines| && lines[s].indent == child
    && (forall j | s <= j < k :: lines[j].indent > parent)
    && (if s == 0 then parent == -1 else lines[s - 1].indent == parent)
  }

  function FirstBelow(lines: seq<Line>, s: nat, k: nat, child: int): (m: nat)
    requires s <= k < |lines| && lines[k].indent < child
    ensures s <= m <= k && lines[m].indent < child && forall j | s <= j < m :: lines[j].indent >= child
    decreases k - s
  {
    if lines[s].indent < child then s else FirstBelow(lines, s + 1, k, child)
  }

  lemma FirstBelowIsMisaligned(lines: seq<Line>, s: nat, m: nat, parent: int, child: int)
    requires UnderWay(lines, s, m, parent, child) && s < m < |lines| && parent < lines[m].indent < child
    requires forall j | s <= j < m :: lines[j].indent >= child
    ensures !AlignedAt(lines, m)
  {
    OpenerIs(lines, m - 1, lines[m].indent, s - 1);
  }

  /** In a well-indented text, a line that does not close a level is at least as deep as its first line. */
  lemma NoneBetween(lines: seq<Line>, s: nat, k: nat, parent: int, child: int)
    requires WellIndented(lines) && UnderWay(lines, s, k, parent, child) && k < |lines| && lines[k].indent > parent
    ensures lines[k].indent >= child
  {
    if lines[k].indent < child {
      var m := FirstBelow(lines, s, k, child);
      FirstBelowIsMisaligned(lines, s, m, parent, child);
    }
  }

  // ---- what a block contributes on its own ----

  lemma {:induction false} Consumed(lines: seq<Line>, index: nat, parent: int)
    requires index <= |lines|
    ensures forall j | index <= j < Build(lines, index, parent).next :: lines[j].indent > parent
    decreases |lines| - index, 1
  {
    if index < |lines| { ConsumedRest(lines, index, parent, lines[index].indent, map[]); }
  }

  lemma {:induction false} ConsumedRest(lines: seq<Line>, index: nat, parent: int, child: int, acc: map<string, Node>)
    requires index <= |lines|
    ensures forall j | index <= j < BuildRest(lines, index, parent, child, acc).next :: lines[j].indent > parent
    decreases |lines| - index, 0
  {
    if index < |lines| && lines[index].indent > parent {
      if lines[index].indent != child {
        ConsumedRest(lines, index + 1, parent, child, acc);
      } else if lines[index].value.Some? {
        ConsumedRest(lines, index + 1, parent, child, acc[lines[index].key := Scalar(lines[index].value.value)]);
      } else {
        var b := Build(lines, index + 1, child);
        Consumed(lines, index + 1, child);
        ConsumedRest(lines, b.next, parent, child, acc[lines[index].key := Map(b.entries)]);
      }
    }
  }

  function Moved(b: Built, n: nat): (r: Built) {
    Built(b.entries, b.next + n)
  }

  /** Lines after a region that close every level inside it. */
  predicate Closes(r: seq<Line>, post: seq<Line>, d: nat) {
    Ends(post, d) && forall i | 0 <= i < |r| :: r[i].indent >= d
  }

  lemma ReadStray(lines: seq<Line>, index: nat, parent: int, child: int, acc: map<string, Node>)
    requires index < |lines| && lines[index].indent > parent && lines[index].indent != child
    ensures BuildRest(lines, index, parent, child, acc) == BuildRest(lines, index + 1, parent, child, acc)
  {
  }

  lemma BuildStarts(lines: seq<Line>, index: nat, parent: int)
    requires index <= |lines|
    ensures Build(lines, index, parent)
            == if index == |lines| then Built(map[], index)
               else BuildRest(lines, index, parent, lines[index].indent, map[])
  {
    hide BuildRest;
  }

  lemma At(pre: seq<Line>, r: seq<Line>, post: seq<Line>, i: nat)
    requires i <= |r|
    ensures var lines := pre + r + post;
            && (i < |r| ==> lines[|pre| + i] == r[i])
            && (i == |r| ==> lines[|pre| + i..] == post && |lines| - (|pre| + i) == |post|)
  {
  }

  /** A level inside a region is read from the region alone. */
  lemma {:induction false} LocalBuild(pre: seq<Line>, r: seq<Line>, post: seq<Line>, i: nat, q: int, d: nat)
    requires i <= |r| && Closes(r, post, d) && d <= q
    ensures Build(pre + r + post, |pre| + i, q) == Moved(Build(r, i, q), |pre|)
    decreases |r| - i, 1
  {
    hide Build, BuildRest;
    var lines := pre + r + post;
    At(pre, r, post, i);
    BuildStarts(lines, |pre| + i, q);
    BuildStarts(r, i, q);
    if i < |r| {
      LocalRest(pre, r, post, i, q, r[i].indent, map[], d);
    } else if post != [] {
      assert lines[|pre| + i] == lines[|pre| + i..][0];
      NothingMore(lines, |pre| + i, q, post[0].indent, map[]);
    }
  }

  lemma {:induction false} LocalRest(pre: seq<Line>, r: seq<Line>, post: seq<Line>, i: nat, q: int, c: int,
                                     acc: map<string, Node>, d: nat)
    requires i <= |r| && Closes(r, post, d) && d <= q
    ensures BuildRest(pre + r + post, |pre| + i, q, c, acc) == Moved(BuildRest(r, i, q, c, acc), |pre|)
    decreases |r| - i, 0
  {
    hide Build, BuildRest, Closes, Ends;
    var lines, k := pre + r + post, |pre| + i;
    At(pre, r, post, i);
    if i == |r| || r[i].indent <= q {
      LocalEnd(pre, r, post, i, q, c, acc, d);
    } else if r[i].indent != c {
      ReadStray(lines, k, q, c, acc);
      ReadStray(r, i, q, c, acc);
      LocalRest(pre, r, post, i + 1, q, c, acc, d);
    } else if r[i].value.Some? {
      ReadLeaf(lines, k, q, c, acc);
      ReadLeaf(r, i, q, c, acc);
      LocalRest(pre, r, post, i + 1, q, c, acc[r[i].key := Scalar(r[i].value.value)], d);
    } else {
      LocalBuild(pre, r, post, i + 1, c, d);
      var b := Build(r, i + 1, c);
      ReadBranch(lines, k, q, c, acc, Moved(b, |pre|));
      ReadBranch(r, i, q, c, acc, b);
      LocalRest(pre, r, post, b.next, q, c, acc[r[i].key := Map(b.entries)], d);
    }
  }

  lemma LocalEnd(pre: seq<Line>, r: seq<Line>, post: seq<Line>, i: nat, q: int, c: int, acc: map<string, Node>, d: nat)
    requires i <= |r| && Closes(r, post, d) && d <= q && (i < |r| ==> r[i].indent <= q)
    ensures BuildRest(pre + r + post, |pre| + i, q, c, acc) == Moved(BuildRest(r, i, q, c, acc), |pre|)
  {
    hide Build, BuildRest;
    At(pre, r, post, i);
    NothingMore(pre + r + post, |pre| + i, q, c, acc);
    NothingMore(r, i, q, c, acc);
  }

  /** A level around a region reads the region's own entries, and goes on after it. */
  lemma {:induction false} OuterRest(pre: seq<Line>, r: seq<Line>, post: seq<Line>, i: nat, p: int, c: int,
                                     acc: map<string, Node>, d: nat)
    requires i <= |r| && Closes(r, post, d) && p < d
    ensures BuildRest(pre + r + post, |pre| + i, p, c, acc)
            == BuildRest(pre + r + post, |pre| + |r|, p, c, BuildRest(r, i, p, c, acc).entries)
    decreases |r| - i
  {
    hide Build, BuildRest;
    var lines, k := pre + r + post, |pre| + i;
    At(pre, r, post, i);
    if i == |r| {
      NothingMore(r, i, p, c, acc);
    } else if r[i].indent != c {
      ReadStray(lines, k, p, c, acc);
      ReadStray(r, i, p, c, acc);
      OuterRest(pre, r, post, i + 1, p, c, acc, d);
    } else if r[i].value.Some? {
      ReadLeaf(lines, k, p, c, acc);
      ReadLeaf(r, i, p, c, acc);
      OuterRest(pre, r, post, i + 1, p, c, acc[r[i].key := Scalar(r[i].value.value)], d);
    } else {
      LocalBuild(pre, r, post, i + 1, c, d);
      var b := Build(r, i + 1, c);
      ReadBranch(lines, k, p, c, acc, Moved(b, |pre|));
      ReadBranch(r, i, p, c, acc, b);
      OuterRest(pre, r, post, b.next, p, c, acc[r[i].key := Map(b.entries)], d);
    }
  }

  /** The entries read are added to those already there. */
  lemma {:induction false} Accumulates(r: seq<Line>, i: nat, p: int, c: int, acc: map<string, Node>)
    requires i <= |r|
    ensures var own := BuildRest(r, i, p, c, map[]); BuildRest(r, i, p, c, acc) == Built(acc + own.entries, own.next)
    decreases |r| - i, 0
  {
    hide Build, BuildRest;
    if i == |r| || r[i].indent <= p {
      assert Ends(r[i..], p);
      NothingMore(r, i, p, c, acc);
      NothingMore(r, i, p, c, map[]);
      assert acc + map[] == acc;
    } else if r[i].indent != c {
      ReadStray(r, i, p, c, acc);
      ReadStray(r, i, p, c, map[]);
      Accumulates(r, i + 1, p, c, acc);
    } else if r[i].value.Some? {
      ReadLeaf(r, i, p, c, acc);
      ReadLeaf(r, i, p, c, map[]);
      AccumulatesEntry(r, i + 1, p, c, acc, r[i].key, Scalar(r[i].value.value));
    } else {
      var b := Build(r, i + 1, c);
      ReadBranch(r, i, p, c, acc, b);
      ReadBranch(r, i, p, c, map[], b);
      AccumulatesEntry(r, b.next, p, c, acc, r[i].key, Map(b.entries));
    }
  }

  lemma {:induction false} AccumulatesEntry(r: seq<Line>, i: nat, p: int, c: int, acc: map<string, Node>,
                                            key: string, v: Node)
    requires i <= |r|
    ensures var own := BuildRest(r, i, p, c, map[][key := v]);
            BuildRest(r, i, p, c, acc[key := v]) == Built(acc + own.entries, own.next)
    decreases |r| - i, 1
  {
    hide Build, BuildRest;
    Accumulates(r, i, p, c, acc[key := v]);
    Accumulates(r, i, p, c, map[][key := v]);
    var rest := BuildRest(r, i, p, c, map[]).entries;
    assert acc[key := v] + rest == acc + (map[][key := v] + rest);
  }

  function Own(r: seq<Line>, p: int, c: int): (m: map<string, Node>) {
    BuildRest(r, 0, p, c, map[]).entries
  }

  lemma {:induction false} Skipped(r: seq<Line>, i: nat, p: int, c: int, acc: map<string, Node>)
    requires i <= |r| && forall j | i <= j < |r| :: r[j].indent > c
    ensures BuildRest(r, i, p, c, acc).entries == acc
    decreases |r| - i
  {
    if i < |r| && r[i].indent > p { Skipped(r, i + 1, p, c, acc); }
  }

  /** To a level as deep as the block, one entry under the block's key; to a shallower one, nothing. */
  lemma OwnKey(r: seq<Line>, d: nat, p: int, c: int)
    requires IsBlock(r, d) && p < d && c <= d
    ensures Own(r, p, c).Keys <= {r[0].key}
  {
    if c < d {
      Skipped(r, 0, p, c, map[]);
    } else if r[0].value.Some? {
      Skipped(r, 1, p, c, map[r[0].key := Scalar(r[0].value.value)]);
    } else {
      var b := Build(r, 1, c);
      assert b.next == |r|;
      hide Build, BuildRest;
      ReadBranch(r, 0, p, c, map[], b);
      NothingMore(r, |r|, p, c, map[r[0].key := Map(b.entries)]);
    }
  }

  // ---- swapping ----

  lemma SameSuffix(a: seq<Line>, b: seq<Line>, rest: seq<Line>, p: int, c: int, acc: map<string, Node>)
    requires |a| == |b|
    ensures BuildRest(a + rest, |a|, p, c, acc) == BuildRest(b + rest, |b|, p, c, acc)
  {
    FromSuffix(a, rest, 0, p, c, acc);
    FromSuffix(b, rest, 0, p, c, acc);
  }

  lemma {:induction false} FromSuffix(a: seq<Line>, rest: seq<Line>, i: nat, p: int, c: int, acc: map<string, Node>)
    requires i <= |rest|
    ensures BuildRest(a + rest, |a| + i, p, c, acc) == Moved(BuildRest(rest, i, p, c, acc), |a|)
    decreases |rest| - i, 0
  {
    hide Build, BuildRest;
    var lines, k := a + rest, |a| + i;
    if i < |rest| { assert lines[k] == rest[i]; }
    if i == |rest| || rest[i].indent <= p {
      assert Ends(rest[i..], p) && lines[k..] == rest[i..];
      NothingMore(lines, k, p, c, acc);
      NothingMore(rest, i, p, c, acc);
    } else if rest[i].indent != c {
      ReadStray(lines, k, p, c, acc);
      ReadStray(rest, i, p, c, acc);
      FromSuffix(a, rest, i + 1, p, c, acc);
    } else if rest[i].value.Some? {
      ReadLeaf(lines, k, p, c, acc);
      ReadLeaf(rest, i, p, c, acc);
      FromSuffix(a, rest, i + 1, p, c, acc[rest[i].key := Scalar(rest[i].value.value)]);
    } else {
      BuildFromSuffix(a, rest, i + 1, c);
      var b := Build(rest, i + 1, c);
      ReadBranch(lines, k, p, c, acc, Moved(b, |a|));
      ReadBranch(rest, i, p, c, acc, b);
      FromSuffix(a, rest, b.next, p, c, acc[rest[i].key := Map(b.entries)]);
    }
  }

  lemma {:induction false} BuildFromSuffix(a: seq<Line>, rest: seq<Line>, i: nat, p: int)
    requires i <= |rest|
    ensures Build(a + rest, |a| + i, p) == Moved(Build(rest, i, p), |a|)
    decreases |rest| - i, 1
  {
    hide Build, BuildRest;
    BuildStarts(a + rest, |a| + i, p);
    BuildStarts(rest, i, p);
    if i < |rest| {
      assert (a + rest)[|a| + i] == rest[i];
      FromSuffix(a, rest, i, p, rest[i].indent, map[]);
    }
  }

  /** Two neighbouring blocks at one depth, and what follows them. */
  predicate Adjacent(a: seq<Line>, b: seq<Line>, post: seq<Line>, d: nat) {
    IsBlock(a, d) && IsBlock(b, d) && Ends(post, d)
  }

  /** With different keys. */
  predicate Swappable(a: seq<Line>, b: seq<Line>, post: seq<Line>, d: nat) {
    Adjacent(a, b, post, d) && a[0].key != b[0].key
  }

  function Whole(pre: seq<Line>, a: seq<Line>, b: seq<Line>, post: seq<Line>): (lines: seq<Line>) {
    pre + a + b + post
  }

  lemma OneBlock(pre: seq<Line>, r: seq<Line>, post: seq<Line>, d: nat, p: int, c: int, acc: map<string, Node>)
    requires IsBlock(r, d) && Ends(post, d) && p < d
    ensures BuildRest(pre + r + post, |pre|, p, c, acc)
            == BuildRest(pre + r + post, |pre + r|, p, c, acc + Own(r, p, c))
  {
    hide Build, BuildRest;
    OuterRest(pre, r, post, 0, p, c, acc, d);
    Accumulates(r, 0, p, c, acc);
  }

  lemma Regrouped(pre: seq<Line>, a: seq<Line>, b: seq<Line>, post: seq<Line>, d: nat)
    requires Adjacent(a, b, post, d)
    ensures Whole(pre, a, b, post) == pre + a + (b + post) == (pre + a) + b + post
    ensures Ends(b + post, d)
  {
  }

  lemma TwoBlocks(pre: seq<Line>, a: seq<Line>, b: seq<Line>, post: seq<Line>, d: nat, p: int, c: int,
                  acc: map<string, Node>)
    requires Adjacent(a, b, post, d) && p < d
    ensures BuildRest(Whole(pre, a, b, post), |pre|, p, c, acc)
            == BuildRest(Whole(pre, a, b, post), |pre + a + b|, p, c, acc + Own(a, p, c) + Own(b, p, c))
  {
    hide Build, BuildRest, Own, Whole, Ends, IsBlock;
    Regrouped(pre, a, b, post, d);
    OneBlock(pre, a, b + post, d, p, c, acc);
    OneBlock(pre + a, b, post, d, p, c, acc + Own(a, p, c));
  }

  /** Where the blocks come up, to a level that is not deeper than they are. */
  lemma SwapHere(pre: seq<Line>, a: seq<Line>, b: seq<Line>, post: seq<Line>, d: nat, p: int, c: int,
                 acc: map<string, Node>)
    requires Swappable(a, b, post, d) && (p < d ==> c <= d)
    ensures BuildRest(Whole(pre, a, b, post), |pre|, p, c, acc) == BuildRest(Whole(pre, b, a, post), |pre|, p, c, acc)
  {
    hide Build, BuildRest, Own;
    if p < d {
      TwoBlocks(pre, a, b, post, d, p, c, acc);
      TwoBlocks(pre, b, a, post, d, p, c, acc);
      OwnKey(a, d, p, c);
      OwnKey(b, d, p, c);
      assert acc + Own(a, p, c) + Own(b, p, c) == acc + Own(b, p, c) + Own(a, p, c);
      SameSuffix(pre + a + b, pre + b + a, post, p, c, acc + Own(a, p, c) + Own(b, p, c));
    } else {
      assert Whole(pre, a, b, post)[|pre|] == a[0] && Whole(pre, b, a, post)[|pre|] == b[0];
      NothingMore(Whole(pre, a, b, post), |pre|, p, c, acc);
      NothingMore(Whole(pre, b, a, post), |pre|, p, c, acc);
    }
  }

  /** Where the entries two blocks give a level contend for a key, a later line of the level has the last word. */
  predicate Settled(a: seq<Line>, b: seq<Line>, post: seq<Line>, p: int, c: int) {
    forall k | k in Own(a, p, c) && k in Own(b, p, c) && Own(a, p, c)[k] != Own(b, p, c)[k] :: k in Own(post, p, c)
  }

  lemma AfterBlocks(pre: seq<Line>, a: seq<Line>, b: seq<Line>, post: seq<Line>, d: nat, p: int, c: int,
                    acc: map<string, Node>)
    requires Adjacent(a, b, post, d) && p < d
    ensures BuildRest(Whole(pre, a, b, post), |pre|, p, c, acc)
            == Built(acc + Own(a, p, c) + Own(b, p, c) + Own(post, p, c),
                     |pre| + |a| + |b| + BuildRest(post, 0, p, c, map[]).next)
  {
    hide Build, BuildRest, Own, Adjacent;
    TwoBlocks(pre, a, b, post, d, p, c, acc);
    AfterFront(pre + a + b, post, p, c, acc + Own(a, p, c) + Own(b, p, c));
  }

  /** What follows is read on its own and added. */
  lemma AfterFront(front: seq<Line>, post: seq<Line>, p: int, c: int, acc: map<string, Node>)
    ensures BuildRest(front + post, |front|, p, c, acc)
            == Built(acc + Own(post, p, c), |front| + BuildRest(post, 0, p, c, map[]).next)
  {
    hide Build, BuildRest, Own;
    FromSuffix(front, post, 0, p, c, acc);
    AddsOwn(post, p, c, acc);
  }

  lemma AddsOwn(r: seq<Line>, p: int, c: int, acc: map<string, Node>)
    ensures BuildRest(r, 0, p, c, acc) == Built(acc + Own(r, p, c), BuildRest(r, 0, p, c, map[]).next)
  {
    hide BuildRest;
    Accumulates(r, 0, p, c, acc);
  }

  /** A level that a block closes gets nothing from it. */
  lemma ClosedByBlock(pre: seq<Line>, r: seq<Line>, rest: seq<Line>, d: nat, p: int, c: int, acc: map<string, Node>)
    requires IsBlock(r, d) && d <= p
    ensures BuildRest(pre + r + rest, |pre|, p, c, acc) == Built(acc, |pre|) && Own(r, p, c) == map[]
  {
    hide Build, BuildRest;
    assert (pre + r + rest)[|pre|] == r[0];
    NothingMore(pre + r + rest, |pre|, p, c, acc);
    NothingMore(r, 0, p, c, map[]);
  }

  /**
   Where two neighbouring blocks come up, to whatever level is under way there, their order makes no difference
   exactly when every key they contend for is settled by a later line of the level.
   */
  lemma SwapHereExact(pre: seq<Line>, a: seq<Line>, b: seq<Line>, post: seq<Line>, d: nat, p: int, c: int,
                      acc: map<string, Node>)
    requires Adjacent(a, b, post, d)
    ensures BuildRest(Whole(pre, a, b, post), |pre|, p, c, acc) == BuildRest(Whole(pre, b, a, post), |pre|, p, c, acc)
       <==> Settled(a, b, post, p, c)
  {
    hide Build, BuildRest, Own;
    if p < d {
      AfterBlocks(pre, a, b, post, d, p, c, acc);
      AfterBlocks(pre, b, a, post, d, p, c, acc);
      OrderMatters(acc, Own(a, p, c), Own(b, p, c), Own(post, p, c));
    } else {
      Regrouped(pre, a, b, post, d);
      Regrouped(pre, b, a, post, d);
      ClosedByBlock(pre, a, b + post, d, p, c, acc);
      ClosedByBlock(pre, b, a + post, d, p, c, acc);
    }
  }

  lemma OrderMatters(acc: map<string, Node>, x: map<string, Node>, y: map<string, Node>, z: map<string, Node>)
    ensures acc + x + y + z == acc + y + x + z <==> forall k | k in x && k in y && x[k] != y[k] :: k in z
  {
    var one, two := acc + x + y + z, acc + y + x + z;
    assert one.Keys == two.Keys;
    if one == two {
      forall k | k in x && k in y && x[k] != y[k]
        ensures k in z
      {
        assert one[k] == two[k];
      }
    }
  }

  /** A level that reads into the two blocks reads past both. */
  lemma ReadsPastBoth(pre: seq<Line>, a: seq<Line>, b: seq<Line>, post: seq<Line>, d: nat, index: nat, q: int)
    requires Swappable(a, b, post, d) && index <= |pre|
    requires Build(Whole(pre, a, b, post), index, q).next > |pre|
    ensures Build(Whole(pre, a, b, post), index, q).next >= |pre| + |a| + |b|
  {
    hide Build;
    var lines := Whole(pre, a, b, post);
    Consumed(lines, index, q);
    BlocksAreDeep(pre, a, b, post, d);
    hide Whole, Swappable;
  }

  lemma BlocksAreDeep(pre: seq<Line>, a: seq<Line>, b: seq<Line>, post: seq<Line>, d: nat)
    requires Swappable(a, b, post, d)
    ensures var lines := Whole(pre, a, b, post);
            && |lines| == |pre| + |a| + |b| + |post| && |a| > 0 && |b| > 0 && lines[|pre|].indent == d
            && forall j | |pre| <= j < |pre| + |a| + |b| :: lines[j].indent >= d
  {
    var lines := Whole(pre, a, b, post);
    forall j | |pre| <= j < |pre| + |a| + |b|
      ensures lines[j].indent >= d
    {
      assert lines[j] == if j < |pre| + |a| then a[j - |pre|] else b[j - |pre| - |a|];
    }
  }

  /** Two texts that differ only in the order of two blocks, read from the same place in front of them. */
  predicate Apart(one: seq<Line>, two: seq<Line>, pre: seq<Line>, a: seq<Line>, b: seq<Line>, post: seq<Line>, d: nat) {
    one == Whole(pre, a, b, post) && two == Whole(pre, b, a, post) && Swappable(a, b, post, d) && WellIndented(one)
  }

  lemma SameInFront(one: seq<Line>, two: seq<Line>, pre: seq<Line>, a: seq<Line>, b: seq<Line>, post: seq<Line>,
                    d: nat, k: nat)
    requires Apart(one, two, pre, a, b, post, d) && k <= |pre|
    ensures |one| == |two| && |one| > |pre| && one[|pre|].indent == d && two[|pre|].indent == d
    ensures k < |pre| ==> one[k] == two[k]
  {
  }

  lemma {:induction false} SwapBuild(one: seq<Line>, two: seq<Line>, pre: seq<Line>, a: seq<Line>, b: seq<Line>,
                                     post: seq<Line>, d: nat, k: nat, p: int)
    requires Apart(one, two, pre, a, b, post, d) && k <= |pre| < |one| == |two|
    requires UnderWay(one, k, k, p, one[k].indent)
    ensures Build(one, k, p) == Build(two, k, p)
    decreases |pre| - k, 1
  {
    hide Build, BuildRest, Apart;
    SameInFront(one, two, pre, a, b, post, d, k);
    BuildStarts(one, k, p);
    BuildStarts(two, k, p);
    SwapRest(one, two, pre, a, b, post, d, k, k, p, one[k].indent, map[]);
  }

  lemma {:induction false} SwapRest(one: seq<Line>, two: seq<Line>, pre: seq<Line>, a: seq<Line>, b: seq<Line>,
                                    post: seq<Line>, d: nat, s: nat, k: nat, p: int, c: int, acc: map<string, Node>)
    requires Apart(one, two, pre, a, b, post, d) && k <= |pre| < |one| == |two|
    requires UnderWay(one, s, k, p, c)
    ensures BuildRest(one, k, p, c, acc) == BuildRest(two, k, p, c, acc)
    decreases |pre| - k, 0
  {
    hide Build, BuildRest, Apart, WellIndented;
    SameInFront(one, two, pre, a, b, post, d, k);
    if k == |pre| {
      AtTheBlocks(one, two, pre, a, b, post, d, s, p, c, acc);
    } else if one[k].indent <= p {
      NothingMore(one, k, p, c, acc);
      NothingMore(two, k, p, c, acc);
    } else if one[k].indent != c {
      ReadStray(one, k, p, c, acc);
      ReadStray(two, k, p, c, acc);
      SwapRest(one, two, pre, a, b, post, d, s, k + 1, p, c, acc);
    } else if one[k].value.Some? {
      ReadLeaf(one, k, p, c, acc);
      ReadLeaf(two, k, p, c, acc);
      SwapRest(one, two, pre, a, b, post, d, s, k + 1, p, c, acc[one[k].key := Scalar(one[k].value.value)]);
    } else {
      SwapBuild(one, two, pre, a, b, post, d, k + 1, c);
      var bt := Build(one, k + 1, c);
      var acc' := acc[one[k].key := Map(bt.entries)];
      ReadBranch(one, k, p, c, acc, bt);
      ReadBranch(two, k, p, c, acc, bt);
      Consumed(one, k + 1, c);
      if bt.next <= |pre| {
        SwapRest(one, two, pre, a, b, post, d, s, bt.next, p, c, acc');
      } else {
        BeyondTheBlocks(one, two, pre, a, b, post, d, k + 1, c, p, acc');
      }
    }
  }

  lemma AtTheBlocks(one: seq<Line>, two: seq<Line>, pre: seq<Line>, a: seq<Line>, b: seq<Line>, post: seq<Line>,
                    d: nat, s: nat, p: int, c: int, acc: map<string, Node>)
    requires Apart(one, two, pre, a, b, post, d) && |pre| < |one| == |two| && UnderWay(one, s, |pre|, p, c)
    ensures BuildRest(one, |pre|, p, c, acc) == BuildRest(two, |pre|, p, c, acc)
  {
    hide Build, BuildRest;
    SameInFront(one, two, pre, a, b, post, d, |pre|);
    if p < d { NoneBetween(one, s, |pre|, p, c); }
    hide WellIndented, UnderWay, Whole;
    SwapHere(pre, a, b, post, d, p, c, acc);
  }

  lemma BeyondTheBlocks(one: seq<Line>, two: seq<Line>, pre: seq<Line>, a: seq<Line>, b: seq<Line>, post: seq<Line>,
                        d: nat, k: nat, q: int, p: int, acc: map<string, Node>)
    requires Apart(one, two, pre, a, b, post, d) && k <= |pre| < |one| == |two|
    requires Build(one, k, q).next > |pre|
    ensures var n := Build(one, k, q).next; BuildRest(one, n, p, q, acc) == BuildRest(two, n, p, q, acc)
  {
    hide Build, BuildRest, WellIndented, Swappable;
    ReadsPastBoth(pre, a, b, post, d, k, q);
    var n, e := Build(one, k, q).next, |pre| + |a| + |b|;
    assert one == (pre + a + b) + post && two == (pre + b + a) + post;
    FromSuffix(pre + a + b, post, n - e, p, q, acc);
    FromSuffix(pre + b + a, post, n - e, p, q, acc);
  }

  /** Two neighbouring blocks of a well-indented text, with different keys, can change places. */
  lemma SwapKeepsTree(pre: seq<Line>, a: seq<Line>, b: seq<Line>, post: seq<Line>, d: nat)
    requires Swappable(a, b, post, d) && WellIndented(Whole(pre, a, b, post))
    ensures Build(Whole(pre, a, b, post), 0, -1) == Build(Whole(pre, b, a, post), 0, -1)
  {
    hide Build, BuildRest;
    var one, two := Whole(pre, a, b, post), Whole(pre, b, a, post);
    SameInFront(one, two, pre, a, b, post, d, 0);
    SwapBuild(one, two, pre, a, b, post, d, 0, -1);
  }

  // ---- indentation after a swap ----

  /** Alignment depends on the lines from one less indented on, wherever they stand. */
  lemma {:induction false} AlignedInside(pre: seq<Line>, r: seq<Line>, post: seq<Line>, i: nat)
    requires 0 < i < |r| && r[0].indent < r[i].indent
    ensures AlignedAt(pre + r + post, |pre| + i) <==> AlignedAt(r, i)
  {
    var lines, o := pre + r + post, Opener(r, i - 1, r[i].indent);
    assert forall n | 0 <= n < |r| :: lines[|pre| + n] == r[n];
    assert o >= 0;
    forall n | |pre| + o < n <= |pre| + i - 1
      ensures lines[n].indent >= r[i].indent
    {
      assert lines[n] == r[n - |pre|];
    }
    OpenerIs(lines, |pre| + i - 1, r[i].indent, |pre| + o);
  }

  /** The opener of a line at the blocks' depth, or of a shallower one after them, is in front of them. */
  lemma {:induction false} OpenedInFront(pre: seq<Line>, rest: seq<Line>, j: nat, d: nat)
    requires j < |rest| && rest[j].indent <= d && forall i | 0 <= i < j :: rest[i].indent >= rest[j].indent
    requires rest[0].indent == d
    ensures AlignedAt(pre + rest, |pre| + j)
       <==> var o := Opener(pre, |pre| - 1, rest[j].indent);
            (if o + 1 < |pre| then pre[o + 1].indent else d) == rest[j].indent
  {
    OpenerInFront(pre, rest, j);
    hide Opener;
    var lines, o := pre + rest, Opener(pre, |pre| - 1, rest[j].indent);
    assert lines[|pre| + j] == rest[j];
    assert lines[o + 1] == if o + 1 < |pre| then pre[o + 1] else rest[0];
  }

  lemma {:induction false} OpenerInFront(pre: seq<Line>, rest: seq<Line>, j: nat)
    requires j < |rest| && forall i | 0 <= i < j :: rest[i].indent >= rest[j].indent
    ensures Opener(pre + rest, |pre| + j - 1, rest[j].indent) == Opener(pre, |pre| - 1, rest[j].indent)
  {
    var lines, indent := pre + rest, rest[j].indent;
    var o := Opener(pre, |pre| - 1, indent);
    hide Opener;
    forall i | o < i <= |pre| + j - 1
      ensures lines[i].indent >= indent
    {
      assert lines[i] == if i < |pre| then pre[i] else rest[i - |pre|];
    }
    OpenerIs(lines, |pre| + j - 1, indent, o);
  }

  lemma {:induction false} AlignedInFront(pre: seq<Line>, rest: seq<Line>, j: nat)
    requires j < |pre|
    ensures AlignedAt(pre + rest, j) <==> AlignedAt(pre, j)
  {
    var lines, o := pre + rest, Opener(pre, j - 1, pre[j].indent);
    assert forall i | 0 <= i < |pre| :: lines[i] == pre[i];
    OpenerIs(lines, j - 1, pre[j].indent, o);
  }

  lemma {:induction false} AlignedHeads(pre: seq<Line>, a: seq<Line>, b: seq<Line>, post: seq<Line>, d: nat)
    requires Swappable(a, b, post, d)
    ensures var one, two := Whole(pre, a, b, post), Whole(pre, b, a, post);
            && |one| == |two| == |pre| + |a| + |b| + |post|
            && (AlignedAt(one, |pre|) <==> AlignedAt(two, |pre|))
            && (AlignedAt(one, |pre|) <==> AlignedAt(two, |pre| + |b|))
  {
    hide AlignedAt, Opener;
    var ab, ba := a + b + post, b + a + post;
    assert Whole(pre, a, b, post) == pre + ab && Whole(pre, b, a, post) == pre + ba;
    assert ab[0] == a[0] && ba[0] == b[0] && ba[|b|] == a[0];
    assert forall i | 0 <= i < |b| :: ba[i] == b[i];
    OpenedInFront(pre, ab, 0, d);
    OpenedInFront(pre, ba, 0, d);
    OpenedInFront(pre, ba, |b|, d);
  }

  lemma {:induction false} AlignedBodies(pre: seq<Line>, a: seq<Line>, b: seq<Line>, post: seq<Line>, d: nat, i: nat)
    requires Swappable(a, b, post, d) && 0 < i
    ensures var one, two := Whole(pre, a, b, post), Whole(pre, b, a, post);
            && |one| == |two| == |pre| + |a| + |b| + |post|
            && (i < |b| ==> (AlignedAt(two, |pre| + i) <==> AlignedAt(one, |pre| + |a| + i)))
            && (i < |a| ==> (AlignedAt(two, |pre| + |b| + i) <==> AlignedAt(one, |pre| + i)))
  {
    hide AlignedAt, Opener;
    assert Whole(pre, a, b, post) == pre + a + (b + post) == (pre + a) + b + post;
    assert Whole(pre, b, a, post) == pre + b + (a + post) == (pre + b) + a + post;
    if i < |b| {
      AlignedInside(pre, b, a + post, i);
      AlignedInside(pre + a, b, post, i);
    }
    if i < |a| {
      AlignedInside(pre, a, b + post, i);
      AlignedInside(pre + b, a, post, i);
    }
  }

  /** A line after the blocks, opened among the lines after them. */
  lemma {:induction false} AlignedAmong(front: seq<Line>, post: seq<Line>, i: nat, o: nat)
    requires o < i < |post| && post[o].indent < post[i].indent
    ensures AlignedAt(front + post, |front| + i) <==> AlignedAt(post[o..], i - o)
  {
    hide AlignedAt, Opener;
    assert front + post == (front + post[..o]) + post[o..] + [];
    AlignedInside(front + post[..o], post[o..], [], i - o);
  }

  lemma {:induction false} AlignedAfter(pre: seq<Line>, a: seq<Line>, b: seq<Line>, post: seq<Line>, d: nat, i: nat)
    requires Swappable(a, b, post, d) && i < |post|
    ensures var one, two, j := Whole(pre, a, b, post), Whole(pre, b, a, post), |pre| + |a| + |b| + i;
            && |one| == |two| == |pre| + |a| + |b| + |post|
            && (AlignedAt(two, j) <==> AlignedAt(one, j))
  {
    var o := Opener(post, i - 1, post[i].indent);
    hide AlignedAt, Opener, Swappable;
    if o >= 0 {
      AlignedAmong(pre + a + b, post, i, o);
      AlignedAmong(pre + b + a, post, i, o);
    } else {
      ShallowAfter(pre, a, b, post, d, i);
      ShallowAfter(pre, b, a, post, d, i);
    }
  }

  lemma {:induction false} ShallowAfter(pre: seq<Line>, a: seq<Line>, b: seq<Line>, post: seq<Line>, d: nat, i: nat)
    requires (Swappable(a, b, post, d) || Swappable(b, a, post, d)) && i < |post|
    requires forall n | 0 <= n < i :: post[n].indent >= post[i].indent
    ensures |Whole(pre, a, b, post)| == |pre| + |a| + |b| + |post|
    ensures AlignedAt(Whole(pre, a, b, post), |pre| + |a| + |b| + i)
       <==> var o := Opener(pre, |pre| - 1, post[i].indent);
            (if o + 1 < |pre| then pre[o + 1].indent else d) == post[i].indent
  {
    hide AlignedAt, Opener;
    var rest, j := a + b + post, |a| + |b| + i;
    assert post[i].indent <= d;
    assert Whole(pre, a, b, post) == pre + rest && rest[j] == post[i] && rest[0] == a[0];
    forall n | 0 <= n < j
      ensures rest[n].indent >= post[i].indent
    {
      assert rest[n] == if n < |a| then a[n] else if n < |a| + |b| then b[n - |a|] else post[n - |a| - |b|];
    }
    OpenedInFront(pre, rest, j, d);
  }

  /** Swapping two blocks keeps a text well indented. */
  lemma {:induction false} SwapKeepsIndent(pre: seq<Line>, a: seq<Line>, b: seq<Line>, post: seq<Line>, d: nat)
    requires Swappable(a, b, post, d) && WellIndented(Whole(pre, a, b, post))
    ensures WellIndented(Whole(pre, b, a, post))
  {
    var one, two := Whole(pre, a, b, post), Whole(pre, b, a, post);
    AlignedHeads(pre, a, b, post, d);
    forall j | 0 <= j < |two|
      ensures AlignedAt(two, j)
    {
      SwapKeepsAligned(pre, a, b, post, d, j);
    }
  }

  lemma {:induction false} SwapKeepsAligned(pre: seq<Line>, a: seq<Line>, b: seq<Line>, post: seq<Line>, d: nat, j: nat)
    requires Swappable(a, b, post, d) && WellIndented(Whole(pre, a, b, post)) && j < |Whole(pre, b, a, post)|
    ensures AlignedAt(Whole(pre, b, a, post), j)
  {
    hide AlignedAt, Opener;
    var one, two := Whole(pre, a, b, post), Whole(pre, b, a, post);
    AlignedHeads(pre, a, b, post, d);
    if j < |pre| {
      assert one == pre + (a + b + post) && two == pre + (b + a + post);
      AlignedInFront(pre, a + b + post, j);
      AlignedInFront(pre, b + a + post, j);
    } else if j < |pre| + |b| {
      if j > |pre| { AlignedBodies(pre, a, b, post, d, j - |pre|); }
    } else if j < |pre| + |b| + |a| {
      if j > |pre| + |b| { AlignedBodies(pre, a, b, post, d, j - |pre| - |b|); }
    } else {
      AlignedAfter(pre, a, b, post, d, j - |pre| - |a| - |b|);
    }
  }

  // ---- blocks out of line ----

  /** Good indentation is needed: under a deeper first line, the fields of two shallower blocks run together. */
  lemma MisalignedBlocksDiffer()
    ensures exists pre, a, b, d :: Swappable(a, b, [], d)
              && Build(Whole(pre, a, b, []), 0, -1) != Build(Whole(pre, b, a, []), 0, -1)
  {
    var pre := [Line(8, "x", Some("0"))];
    var a, b := [Line(4, "p", None), Line(8, "k", Some("1"))], [Line(4, "q", None), Line(8, "k", Some("2"))];
    assert "p"[0] != "q"[0];
    assert Swappable(a, b, [], 4);
    LastWins(pre[0], a, b, "1", "2");
    LastWins(pre[0], b, a, "2", "1");
    assert "1"[0] != "2"[0];
    assert Build(Whole(pre, a, b, []), 0, -1).entries["k"] != Build(Whole(pre, b, a, []), 0, -1).entries["k"];
  }

  lemma LastWins(first: Line, a: seq<Line>, b: seq<Line>, v: string, w: string)
    requires first.indent == 8 && first.value.Some? && first.key == "x"
    requires |a| == |b| == 2 && a[0].indent == b[0].indent == 4
    requires a[1] == Line(8, "k", Some(v)) && b[1] == Line(8, "k", Some(w))
    ensures var r := Build(Whole([first], a, b, []), 0, -1).entries; "k" in r && r["k"] == Scalar(w)
  {
    hide Build, BuildRest;
    var lines := Whole([first], a, b, []);
    assert lines == [first, a[0], a[1], b[0], b[1]];
    var m1: map<string, Node> := map["x" := Scalar(first.value.value)];
    var m2 := m1["k" := Scalar(v)];
    BuildStarts(lines, 0, -1);
    ReadLeaf(lines, 0, -1, 8, map[]);
    ReadStray(lines, 1, -1, 8, m1);
    ReadLeaf(lines, 2, -1, 8, m1);
    ReadStray(lines, 3, -1, 8, m2);
    ReadLeaf(lines, 4, -1, 8, m2);
    NothingMore(lines, 5, -1, 8, m2["k" := Scalar(w)]);
    assert map[]["x" := Scalar(first.value.value)] == m1;
  }

  /** Different keys are needed: of two lines with one key, the later wins. */
  lemma SameKeyBlocksDiffer(key: string, v: string, w: string, d: nat)
    requires v != w
    ensures var a, b := [Line(d, key, Some(v))], [Line(d, key, Some(w))];
            && Adjacent(a, b, [], d) && WellIndented(Whole([], a, b, []))
            && Build(Whole([], a, b, []), 0, -1) != Build(Whole([], b, a, []), 0, -1)
  {
    var a, b := [Line(d, key, Some(v))], [Line(d, key, Some(w))];
    SecondWins(key, v, w, d);
    SecondWins(key, w, v, d);
    hide Build;
    assert Whole([], a, b, []) == a + b && Opener(a + b, 0, d) == Opener(a + b, -1, d) == -1;
    assert Build(Whole([], a, b, []), 0, -1).entries[key] != Build(Whole([], b, a, []), 0, -1).entries[key];
  }

  lemma SecondWins(key: string, v: string, w: string, d: nat)
    ensures Build(Whole([], [Line(d, key, Some(v))], [Line(d, key, Some(w))], []), 0, -1).entries
            == map[key := Scalar(w)]
  {
    hide Build, BuildRest;
    var lines := Whole([], [Line(d, key, Some(v))], [Line(d, key, Some(w))], []);
    assert lines == [Line(d, key, Some(v)), Line(d, key, Some(w))];
    BuildStarts(lines, 0, -1);
    ReadLeaf(lines, 0, -1, d, map[]);
    ReadLeaf(lines, 1, -1, d, map[][key := Scalar(v)]);
    NothingMore(lines, 2, -1, d, map[][key := Scalar(v)][key := Scalar(w)]);
  }
}
