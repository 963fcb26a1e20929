/**
 The size-rotated diagnostic log: a base file (index 0) and numbered older ones, shifted up by one when the base
 file has reached its limit. A file is the sequence of writes that made it up. File operations succeed where the
 file system lets them: a move needs its source to exist and its target not to.
 */
module LogRotation {
  import opened Text

  type File = seq<string>
  type Disk = map<nat, File>

  function Size(f: File): (n: nat) {
    if f == [] then 0 else |f[0]| + Size(f[1..])
  }

  function At(d: Disk, i: nat): (f: Option<File>) {
    if i in d then Some(d[i]) else None
  }

  function Kept(keep: int): (n: nat)
    ensures n >= 1
  {
    if keep < 1 then 1 else keep
  }

  // ---- one append ----

  predicate Full(d: Disk, maxBytes: int) {
    0 in d && Size(d[0]) >= maxBytes
  }

  /** What ends up at index `i` of a shift. */
  function Source(d: Disk, keep: nat, i: nat): (f: Option<File>) {
    if i > keep then At(d, i) else if i == 0 then None else At(d, i - 1)
  }

  /** Every file up to the limit moved up by one; the oldest gone, anything beyond the limit untouched. */
  function Shifted(d: Disk, keep: nat): (r: Disk)
    ensures forall i: nat :: At(r, i) == Source(d, keep, i)
  {
    var beyond := map i | i in d && i > keep :: d[i];
    var moved := map i: nat | i <= keep && Source(d, keep, i).Some? :: Source(d, keep, i).value;
    assert forall i: nat :: i in moved <==> i <= keep && Source(d, keep, i).Some?;
    beyond + moved
  }

  function Rotated(d: Disk, maxBytes: int, keep: nat): (r: Disk) {
    if Full(d, maxBytes) then Shifted(d, keep) else d
  }

  function Appended(d: Disk, line: string): (r: Disk) {
    d[0 := (if 0 in d then d[0] else []) + [line]]
  }

  function Logged(d: Disk, maxBytes: int, keep: nat, line: string): (r: Disk) {
    Appended(Rotated(d, maxBytes, keep), line)
  }

  function Exec(lines: seq<string>, maxBytes: int, keep: nat): (d: Disk) {
    if lines == [] then map[]
    else Logged(Exec(lines[..|lines| - 1], maxBytes, keep), maxBytes, keep, lines[|lines| - 1])
  }

  // ---- the writer ----

  function Halfway(was: Disk, keep: nat, i: nat, j: nat): (f: Option<File>) {
    if i + 1 < j then Source(was, keep, j) else if j == i + 1 && j <= keep then None else At(was, j)
  }

  class Log {
    const maxBytes: int
    const keep: nat
    var disk: Disk

    constructor (maxBytes: int, keep: int)
      ensures disk == map[] && this.maxBytes == maxBytes && this.keep == (if keep < 1 then 1 else keep)
    {
      this.maxBytes, this.keep, this.disk := maxBytes, Kept(keep), map[];
    }

    method Remove(i: nat)
      modifies this
      ensures disk == old(disk) - {i}
    {
      disk := disk - {i};
    }

    /** Fails quietly without a source or over an existing target. */
    method Move(from: nat, to: nat)
      modifies this
      ensures disk == if from in old(disk) && to !in old(disk) then (old(disk) - {from})[to := old(disk)[from]]
                      else old(disk)
    {
      if from in disk && to !in disk {
        disk := (disk - {from})[to := disk[from]];
      }
    }

    /** Where each file is while the loop counts down: those above `i + 1` are already moved up. */
    ghost predicate Shifting(was: Disk, i: nat)
      reads this
    {
      forall j: nat :: At(disk, j) == Halfway(was, keep, i, j)
    }

    method RotateIfNeeded()
      requires keep >= 1
      modifies this
      ensures disk == Rotated(old(disk), maxBytes, keep)
    {
      if 0 !in disk || Size(disk[0]) < maxBytes {
        return;
      }
      hide Size;
      Remove(keep);
      var i := keep - 1;
      assert forall j: nat :: At(disk, j) == Halfway(old(disk), keep, i, j);
      while i >= 1
        invariant 0 <= i < keep
        invariant Shifting(old(disk), i)
      {
        assert At(disk, i) == Halfway(old(disk), keep, i, i) && At(disk, i + 1) == Halfway(old(disk), keep, i, i + 1);
        ghost var before := disk;
        if i in disk {
          Move(i, i + 1);
        }
        assert forall j: nat | j != i && j != i + 1 :: At(disk, j) == At(before, j);
        i := i - 1;
      }
      assert At(disk, 0) == Halfway(old(disk), keep, 0, 0) && At(disk, 1) == Halfway(old(disk), keep, 0, 1);
      ghost var before := disk;
      Move(0, 1);
      assert forall j: nat | j > 1 :: At(disk, j) == At(before, j) == Halfway(old(disk), keep, 0, j);
      Pointwise(disk, Shifted(old(disk), keep));
    }

    method AppendLocked(line: string)
      requires keep >= 1
      modifies this
      ensures disk == Logged(old(disk), maxBytes, keep, line)
    {
      RotateIfNeeded();
      if 0 in disk {
        disk := disk[0 := disk[0] + [line]];
      } else {
        assert [] + [line] == [line];
        disk := disk[0 := [line]];
      }
    }
  }

  lemma Pointwise(d: Disk, e: Disk)
    ensures (forall j: nat :: At(d, j) == At(e, j)) ==> d == e
  {
    if forall j: nat :: At(d, j) == At(e, j) {
      assert forall j: nat :: (j in d <==> At(d, j).Some?) && (j in e <==> At(e, j).Some?);
      assert forall j | j in d :: At(d, j) == Some(d[j]) && At(e, j) == Some(e[j]);
    }
  }

  // ---- what is on disk ----

  function FileAt(d: Disk, i: nat): (f: File) {
    if i in d then d[i] else []
  }

  /** The writes of the files `n` down to 0, oldest first. */
  function Contents(d: Disk, n: nat): (f: File) {
    FileAt(d, n) + if n == 0 then [] else Contents(d, n - 1)
  }

  lemma {:induction false} ContentsShifted(d: Disk, keep: nat, n: nat)
    requires 1 <= n <= keep
    ensures Contents(Shifted(d, keep), n) == Contents(d, n - 1)
  {
    var r := Shifted(d, keep);
    assert At(r, n) == Source(d, keep, n) && At(r, 0) == Source(d, keep, 0);
    if n > 1 {
      ContentsShifted(d, keep, n - 1);
    } else {
      assert Contents(r, 0) == [];
    }
  }

  lemma {:induction false} ContentsAppended(d: Disk, line: string, n: nat)
    ensures Contents(Appended(d, line), n) == Contents(d, n) + [line]
  {
    if n > 0 { ContentsAppended(d, line, n - 1); }
  }

  lemma ContentsLogged(d: Disk, maxBytes: int, keep: nat, line: string)
    requires keep >= 1
    ensures Contents(Logged(d, maxBytes, keep, line), keep)
            == (if Full(d, maxBytes) then Contents(d, keep - 1) else Contents(d, keep)) + [line]
  {
    if Full(d, maxBytes) { ContentsShifted(d, keep, keep); }
    ContentsAppended(Rotated(d, maxBytes, keep), line, keep);
  }

  // ---- every run ----

  /** No gaps below a file, no file beyond the limit, and every rotated file reached the limit. */
  predicate Fits(d: Disk, maxBytes: int, keep: nat) {
    && (forall i | i in d :: i <= keep && 0 in d)
    && (forall i | i in d && i > 0 :: Size(d[i]) >= maxBytes)
    && (forall i, j: nat | i in d && j <= i :: j in d)
  }

  lemma LoggedFits(d: Disk, maxBytes: int, keep: nat, line: string)
    requires keep >= 1 && Fits(d, maxBytes, keep)
    ensures Fits(Logged(d, maxBytes, keep, line), maxBytes, keep)
  {
    hide Size;
    var r := Logged(d, maxBytes, keep, line);
    if Full(d, maxBytes) {
      var m := Shifted(d, keep);
      forall i | i in r && i > 0
        ensures i <= keep && i - 1 in d && r[i] == d[i - 1]
      {
        assert At(m, i) == Source(d, keep, i) && r[i] == m[i];
      }
      forall i, j: nat | i in r && j <= i
        ensures j in r
      {
        if j > 0 {
          assert j - 1 in d;
          assert At(m, j) == Source(d, keep, j);
        }
      }
    }
  }

  lemma {:induction false} RunFits(lines: seq<string>, maxBytes: int, keep: nat)
    requires keep >= 1
    ensures Fits(Exec(lines, maxBytes, keep), maxBytes, keep)
  {
    if lines != [] {
      RunFits(lines[..|lines| - 1], maxBytes, keep);
      LoggedFits(Exec(lines[..|lines| - 1], maxBytes, keep), maxBytes, keep, lines[|lines| - 1]);
    }
  }

  predicate IsSuffix(a: File, lines: seq<string>) {
    |a| <= |lines| && a == lines[|lines| - |a|..]
  }

  /** The files, oldest to newest, are the last lines logged; and once one is missing, every file is there. */
  lemma {:induction false} DiskIsSuffix(lines: seq<string>, maxBytes: int, keep: nat)
    requires keep >= 1
    ensures var d := Exec(lines, maxBytes, keep);
            IsSuffix(Contents(d, keep), lines) && (Contents(d, keep) != lines ==> keep in d)
  {
    if lines == [] {
      NothingOnDisk(keep);
    } else {
      var n := |lines| - 1;
      var d := Exec(lines[..n], maxBytes, keep);
      DiskIsSuffix(lines[..n], maxBytes, keep);
      RunFits(lines[..n], maxBytes, keep);
      ContentsLogged(d, maxBytes, keep, lines[n]);
      SuffixStep(d, lines, maxBytes, keep);
    }
  }

  lemma {:induction false} NothingOnDisk(n: nat)
    ensures Contents(map[], n) == []
  {
    if n > 0 { NothingOnDisk(n - 1); }
  }

  lemma SuffixStep(d: Disk, lines: seq<string>, maxBytes: int, keep: nat)
    requires keep >= 1 && lines != [] && Fits(d, maxBytes, keep)
    requires var was := lines[..|lines| - 1];
             IsSuffix(Contents(d, keep), was) && (Contents(d, keep) != was ==> keep in d)
    requires Contents(Logged(d, maxBytes, keep, lines[|lines| - 1]), keep)
             == (if Full(d, maxBytes) then Contents(d, keep - 1) else Contents(d, keep)) + [lines[|lines| - 1]]
    ensures var r := Logged(d, maxBytes, keep, lines[|lines| - 1]);
            IsSuffix(Contents(r, keep), lines) && (Contents(r, keep) != lines ==> keep in r)
  {
    var was, last := lines[..|lines| - 1], lines[|lines| - 1];
    assert lines == was + [last];
    assert Contents(d, keep) == FileAt(d, keep) + Contents(d, keep - 1);
    hide Size, Contents, IsSuffix, Shifted;
    if keep in d { OldestStays(d, maxBytes, keep, last); }
    SuffixSnoc(Contents(d, keep), was, last);
    if Full(d, maxBytes) {
      SuffixTail(FileAt(d, keep), Contents(d, keep - 1), was);
      SuffixSnoc(Contents(d, keep - 1), was, last);
      if keep !in d {
        assert [] + Contents(d, keep - 1) == Contents(d, keep - 1);
      }
    }
  }

  /** The oldest place, once taken, stays taken. */
  lemma OldestStays(d: Disk, maxBytes: int, keep: nat, line: string)
    requires keep >= 1 && Fits(d, maxBytes, keep) && keep in d
    ensures keep in Logged(d, maxBytes, keep, line)
  {
    assert keep - 1 in d && At(Shifted(d, keep), keep) == Source(d, keep, keep);
  }

  lemma SuffixSnoc(a: File, lines: seq<string>, line: string)
    ensures IsSuffix(a, lines) ==> IsSuffix(a + [line], lines + [line])
  {
  }

  lemma SuffixTail(a: File, b: File, lines: seq<string>)
    requires IsSuffix(a + b, lines)
    ensures IsSuffix(b, lines)
  {
  }
}
