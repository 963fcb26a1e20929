/** The audit log: the file and the bounded in-memory tail, against the full history of appended entries. */
module AuditStore {

  function Last<T>(s: seq<T>, n: nat): (r: seq<T>) {
    if |s| <= n then s else s[|s| - n..]
  }

  function Reversed<T>(s: seq<T>): (r: seq<T>)
    ensures |r| == |s| && forall i | 0 <= i < |s| :: r[i] == s[|s| - 1 - i]
  {
    seq(|s|, i requires 0 <= i < |s| => s[|s| - 1 - i])
  }

  lemma LastOfLast<T>(s: seq<T>, m: nat, n: nat)
    ensures Last(Last(s, m), n) == Last(s, if m < n then m else n)
  {
  }

  lemma PushedBack<T>(h: seq<T>, limit: nat, entry: T)
    ensures var t := Last(h, limit) + [entry];
            t == Last(h + [entry], if |t| > limit then limit + 1 else limit)
  {
    if |h| > limit {
      assert (h + [entry])[|h| - limit..] == h[|h| - limit..] + [entry];
    }
  }

  lemma PoppedFront<T>(h: seq<T>, limit: nat)
    requires |Last(h, limit + 1)| > limit
    ensures |Last(h, limit + 1)| == limit + 1 && Last(h, limit + 1)[1..] == Last(h, limit)
  {
  }

  /** `a` is `b` with some elements left out, the others in order. */
  ghost predicate Within<T(!new)>(a: seq<T>, b: seq<T>) {
    if a == [] then true
    else if b == [] then false
    else
      || (a[|a| - 1] == b[|b| - 1] && Within(a[..|a| - 1], b[..|b| - 1]))
      || Within(a, b[..|b| - 1])
  }

  lemma WithinGrows<T(!new)>(a: seq<T>, b: seq<T>, x: T)
    requires Within(a, b)
    ensures Within(a, b + [x]) && Within(a + [x], b + [x])
  {
    assert (b + [x])[..|b|] == b && (a + [x])[..|a|] == a;
  }

  class Store<T(!new)> {
    const limit: nat
    var tail: seq<T>
    /** The entries whose lines reached the disk. */
    var file: seq<T>
    ghost var history: seq<T>

    ghost predicate Valid()
      reads this
    {
      tail == Last(history, limit) && Within(file, history)
    }

    constructor (limit: nat)
      ensures Valid() && history == [] && file == [] && this.limit == limit
    {
      this.limit, this.tail, this.file, this.history := limit, [], [], [];
    }

    /**
     Written to the file if that works, and recorded whether or not it did: pushed at the back of the tail, which
     is then popped from the front down to the limit.
     */
    method Append(entry: T, written: bool)
      requires Valid()
      modifies this
      ensures Valid() && history == old(history) + [entry]
      ensures file == if written then old(file) + [entry] else old(file)
    {
      hide Last, Within;
      WithinGrows(file, history, entry);
      PushedBack(history, limit, entry);
      if written {
        file := file + [entry];
      }
      tail, history := tail + [entry], history + [entry];
      DropOldest();
    }

    method DropOldest()
      requires tail == Last(history, if |tail| > limit then limit + 1 else limit)
      modifies this`tail
      ensures tail == Last(history, limit)
    {
      hide Last;
      while |tail| > limit
        invariant tail == Last(history, if |tail| > limit then limit + 1 else limit)
        decreases |tail|
      {
        PoppedFront(history, limit);
        tail := tail[1..];
      }
    }

    /** Most recent first: the reversed last entries of the history, as many as asked for and kept. */
    method Recent(n: nat) returns (r: seq<T>)
      requires Valid()
      ensures r == Reversed(Last(history, if n < limit then n else limit))
    {
      LastOfLast(history, limit, n);
      r := [];
      var k := |tail|;
      while k > 0 && |r| < n
        invariant 0 <= k <= |tail| && |r| == |tail| - k && |r| <= n
        invariant forall i | 0 <= i < |r| :: r[i] == tail[|tail| - 1 - i]
      {
        k := k - 1;
        r := r + [tail[k]];
      }
    }
  }
}
