/** How large the log's files get, and how much of the log they keep. */
module LogSizes {
  import opened LogRotation

  lemma {:induction false} SizeConcat(a: File, b: File)
    ensures Size(a + b) == Size(a) + Size(b)
  {
    if a == [] {
      assert a + b == b;
    } else {
      assert (a + b)[1..] == a[1..] + b;
      SizeConcat(a[1..], b);
    }
  }

  /** The file's text: its writes one after the other. */
  function Text(f: File): (s: string) {
    if f == [] then "" else Text(f[..|f| - 1]) + f[|f| - 1]
  }

  lemma {:induction false} SizeIsLength(f: File)
    ensures Size(f) == |Text(f)|
  {
    if f != [] {
      var front, last := f[..|f| - 1], f[|f| - 1];
      assert f == front + [last];
      SizeConcat(front, [last]);
      SizeOfOne(last);
      SizeIsLength(front);
    }
  }

  function Longest(lines: seq<string>): (n: nat)
    ensures forall l | l in lines :: |l| <= n
    ensures lines != [] ==> exists l | l in lines :: |l| == n
  {
    if lines == [] then 0
    else
      var n, last := Longest(lines[..|lines| - 1]), lines[|lines| - 1];
      assert forall l | l in lines :: l in lines[..|lines| - 1] || l == last;
      if |last| >= n then |last| else n
  }

  predicate AllBelow(d: Disk, bound: int) {
    forall i | i in d :: Size(d[i]) < bound
  }

  lemma LoggedBelow(d: Disk, maxBytes: int, keep: nat, line: string, longest: nat)
    requires maxBytes >= 1 && |line| <= longest && AllBelow(d, maxBytes + longest)
    ensures AllBelow(Logged(d, maxBytes, keep, line), maxBytes + longest)
  {
    var m, r := Rotated(d, maxBytes, keep), Logged(d, maxBytes, keep, line);
    SizeConcat(FileAt(m, 0), [line]);
    SizeOfOne(line);
    hide Size;
    if Full(d, maxBytes) {
      forall i | i in m
        ensures Size(m[i]) < maxBytes + longest
      {
        assert At(m, i) == Source(d, keep, i);
      }
      assert At(m, 0) == Source(d, keep, 0);
      SizeOfNone();
    } else if 0 !in d {
      SizeOfNone();
    }
  }

  lemma SizeOfOne(line: string)
    ensures Size([line]) == |line|
  {
    assert [line][1..] == [];
  }

  lemma SizeOfNone()
    ensures Size([]) == 0
  {
  }

  lemma {:induction false} RunBelow(lines: seq<string>, maxBytes: int, keep: nat)
    requires maxBytes >= 1
    ensures AllBelow(Exec(lines, maxBytes, keep), maxBytes + Longest(lines))
  {
    if lines != [] {
      var n := |lines| - 1;
      RunBelow(lines[..n], maxBytes, keep);
      assert Longest(lines[..n]) <= Longest(lines) && |lines[n]| <= Longest(lines);
      LoggedBelow(Exec(lines[..n], maxBytes, keep), maxBytes, keep, lines[n], Longest(lines));
    }
  }

  /** Every file stays below the limit plus the longest line, on every run, exactly when the limit is positive. */
  lemma FilesAreBounded(maxBytes: int, keep: nat)
    ensures (forall lines :: AllBelow(Exec(lines, maxBytes, keep), maxBytes + Longest(lines))) <==> maxBytes >= 1
  {
    hide Exec, Longest, AllBelow;
    if maxBytes >= 1 {
      forall lines
        ensures AllBelow(Exec(lines, maxBytes, keep), maxBytes + Longest(lines))
      {
        RunBelow(lines, maxBytes, keep);
      }
    } else {
      OneLineTooBig(maxBytes, keep, []);
    }
  }

  /** With a limit of zero or less, any single line is already over. */
  lemma OneLineTooBig(maxBytes: int, keep: nat, line: string)
    requires maxBytes <= 0
    ensures !AllBelow(Exec([line], maxBytes, keep), maxBytes + Longest([line]))
  {
    var d := Exec([line], maxBytes, keep);
    assert [line][..0] == [] && Exec([], maxBytes, keep) == map[];
    var none: Disk := map[];
    assert d == Logged(none, maxBytes, keep, line) == Appended(none, line);
    assert [] + [line] == [line];
    SizeOfOne(line);
    assert Longest([line]) == |line|;
    assert 0 in d && Size(d[0]) == |line|;
  }

  lemma {:induction false} RotatedFilesWeigh(d: Disk, maxBytes: int, keep: nat, n: nat)
    requires Fits(d, maxBytes, keep) && n in d
    ensures Size(Contents(d, n)) >= n * maxBytes + Size(d[0])
  {
    if n > 0 {
      assert n - 1 in d;
      RotatedFilesWeigh(d, maxBytes, keep, n - 1);
      SizeConcat(d[n], Contents(d, n - 1));
      assert (n - 1) * maxBytes + maxBytes == n * maxBytes;
    } else {
      assert d[0] + [] == d[0];
    }
  }

  /** Once a line has been dropped, at least `keep * maxBytes` bytes remain. */
  lemma EnoughRemains(lines: seq<string>, maxBytes: int, keep: nat)
    requires keep >= 1
    ensures var d := Exec(lines, maxBytes, keep);
            Contents(d, keep) != lines ==> Size(Contents(d, keep)) >= keep * maxBytes
  {
    var d := Exec(lines, maxBytes, keep);
    RunFits(lines, maxBytes, keep);
    DiskIsSuffix(lines, maxBytes, keep);
    if keep in d { RotatedFilesWeigh(d, maxBytes, keep, keep); }
  }

  /** Nothing is dropped before `(keep + 1) * maxBytes` bytes have been logged. */
  lemma {:induction false} NothingDroppedEarly(lines: seq<string>, maxBytes: int, keep: nat)
    requires keep >= 1 && Size(lines) < (keep + 1) * maxBytes
    ensures Contents(Exec(lines, maxBytes, keep), keep) == lines
  {
    if lines == [] {
      NothingOnDisk(keep);
    } else {
      var n := |lines| - 1;
      var d := Exec(lines[..n], maxBytes, keep);
      assert lines == lines[..n] + [lines[n]];
      SizeConcat(lines[..n], [lines[n]]);
      NothingDroppedEarly(lines[..n], maxBytes, keep);
      RunFits(lines[..n], maxBytes, keep);
      ContentsLogged(d, maxBytes, keep, lines[n]);
      KeepsOldest(d, maxBytes, keep);
    }
  }

  lemma KeepsOldest(d: Disk, maxBytes: int, keep: nat)
    requires keep >= 1 && Fits(d, maxBytes, keep) && Size(Contents(d, keep)) < (keep + 1) * maxBytes
    ensures Full(d, maxBytes) ==> Contents(d, keep - 1) == Contents(d, keep)
  {
    if keep in d {
      RotatedFilesWeigh(d, maxBytes, keep, keep);
      assert (keep + 1) * maxBytes == keep * maxBytes + maxBytes;
    } else {
      assert [] + Contents(d, keep - 1) == Contents(d, keep - 1);
    }
  }
}
