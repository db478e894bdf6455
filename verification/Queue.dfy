/** The queue of internal/queue/queue.go: a bounded list of tasks with deadlines, kept as a slice of a
    backing array that is appended to, taken from at the front, and filtered in place. */
module Queue {

  datatype Task = Task(id: nat, deadline: int, enqueued: int)

  /** What the pool was built with. `waits` is the full-queue mode that makes a submitter wait. */
  datatype Config = Config(workers: nat, depth: nat, reserve: int, minBudget: int, waits: bool)

  /** The time a task still has for its evaluation. */
  function Left(c: Config, t: Task, now: int): int {
    t.deadline - (now - t.enqueued) - c.reserve
  }

  predicate Late(c: Config, t: Task, now: int) {
    Left(c, t, now) < c.minBudget
  }

  /** The tasks of a list that are still in time, and those that are not, each in their order. */
  function Kept(c: Config, now: int, s: seq<Task>): (r: seq<Task>)
    ensures |r| <= |s|
    ensures forall i :: 0 <= i < |r| ==> !Late(c, r[i], now)
  {
    if s == [] then []
    else
      var t := s[|s| - 1];
      var front := Kept(c, now, s[..|s| - 1]);
      if Late(c, t, now) then front else front + [t]
  }

  function Dead(c: Config, now: int, s: seq<Task>): (r: seq<Task>)
    ensures forall i :: 0 <= i < |r| ==> Late(c, r[i], now)
  {
    if s == [] then []
    else
      var t := s[|s| - 1];
      var front := Dead(c, now, s[..|s| - 1]);
      if Late(c, t, now) then front + [t] else front
  }

  /** Both lists together are the list: nothing is lost or duplicated. */
  lemma {:induction false} Partition(c: Config, now: int, s: seq<Task>)
    ensures multiset(Kept(c, now, s)) + multiset(Dead(c, now, s)) == multiset(s)
    ensures |Kept(c, now, s)| + |Dead(c, now, s)| == |s|
  {
    if s != [] {
      var front := s[..|s| - 1];
      Partition(c, now, front);
      assert s == front + [s[|s| - 1]];
    }
  }

  /** `a` is `b` with some elements left out. */
  predicate Subsequence(a: seq<Task>, b: seq<Task>) {
    if a == [] then true
    else if b == [] then false
    else if a[|a| - 1] == b[|b| - 1] then
      Subsequence(a[..|a| - 1], b[..|b| - 1])
    else Subsequence(a, b[..|b| - 1])
  }

  /** The partition is stable: what is kept, and what is dead, keeps its order. */
  lemma {:induction false} PartitionStable(c: Config, now: int, s: seq<Task>)
    ensures Subsequence(Kept(c, now, s), s) && Subsequence(Dead(c, now, s), s)
  {
    if s != [] {
      var front, t := s[..|s| - 1], s[|s| - 1];
      var kept, dead := Kept(c, now, front), Dead(c, now, front);
      PartitionStable(c, now, front);
      assert s == front + [t];
      if Late(c, t, now) {
        SubsequenceWeaken(kept, front, t);
        SubsequenceSnoc(dead, front, t);
      } else {
        SubsequenceSnoc(kept, front, t);
        SubsequenceWeaken(dead, front, t);
      }
    }
  }

  lemma SubsequenceSnoc(a: seq<Task>, b: seq<Task>, t: Task)
    requires Subsequence(a, b)
    ensures Subsequence(a + [t], b + [t])
  {
    assert (a + [t])[..|a|] == a && (b + [t])[..|b|] == b;
  }

  lemma {:induction false} SubsequenceWeaken(a: seq<Task>, b: seq<Task>, t: Task)
    requires Subsequence(a, b)
    ensures Subsequence(a, b + [t])
    decreases |b|, 1
  {
    var b' := b + [t];
    assert b'[..|b|] == b;
    if a != [] && a[|a| - 1] == t {
      SubsequenceFront(a, b);
    }
  }

  lemma {:induction false} SubsequenceFront(a: seq<Task>, b: seq<Task>)
    requires a != [] && Subsequence(a, b)
    ensures Subsequence(a[..|a| - 1], b)
    decreases |b|, 0
  {
    if a[|a| - 1] == b[|b| - 1] {
      SubsequenceWeaken(a[..|a| - 1], b[..|b| - 1], b[|b| - 1]);
      assert b == b[..|b| - 1] + [b[|b| - 1]];
    } else {
      SubsequenceFront(a, b[..|b| - 1]);
      SubsequenceWeaken(a[..|a| - 1], b[..|b| - 1], b[|b| - 1]);
      assert b == b[..|b| - 1] + [b[|b| - 1]];
    }
  }

  lemma {:induction false} SubsequenceTrans(a: seq<Task>, b: seq<Task>, d: seq<Task>)
    requires Subsequence(a, b) && Subsequence(b, d)
    ensures Subsequence(a, d)
    decreases |b| + |d|
  {
    if a != [] {
      var d' := d[..|d| - 1];
      assert d == d' + [d[|d| - 1]];
      if b[|b| - 1] == d[|d| - 1] {
        var b' := b[..|b| - 1];
        if a[|a| - 1] == b[|b| - 1] {
          SubsequenceTrans(a[..|a| - 1], b', d');
        } else {
          SubsequenceTrans(a, b', d');
          SubsequenceWeaken(a, d', d[|d| - 1]);
        }
      } else {
        SubsequenceTrans(a, b, d');
        SubsequenceWeaken(a, d', d[|d| - 1]);
      }
    }
  }

  lemma {:induction false} SubsequenceSelf(a: seq<Task>)
    ensures Subsequence(a, a)
  {
    if a != [] {
      SubsequenceSelf(a[..|a| - 1]);
    }
  }

  /** Leaving elements out after a common beginning. */
  lemma {:induction false} SubsequencePrefixed(p: seq<Task>, a: seq<Task>, b: seq<Task>)
    requires Subsequence(a, b)
    ensures Subsequence(p + a, p + b)
    decreases |b|
  {
    if b == [] {
      assert a == [];
      assert p + a == p == p + b;
      SubsequenceSelf(p);
    } else {
      var b' := b[..|b| - 1];
      var t := b[|b| - 1];
      assert p + b == (p + b') + [t];
      if a != [] && a[|a| - 1] == t {
        var a' := a[..|a| - 1];
        SubsequencePrefixed(p, a', b');
        assert p + a == (p + a') + [t];
        SubsequenceSnoc(p + a', p + b', t);
      } else {
        SubsequencePrefixed(p, a, b');
        SubsequenceWeaken(p + a, p + b', t);
      }
    }
  }

  lemma SplitStep(c: Config, now: int, s: seq<Task>, i: nat)
    requires i < |s|
    ensures Kept(c, now, s[..i + 1]) == Kept(c, now, s[..i]) + (if Late(c, s[i], now) then [] else [s[i]])
    ensures Dead(c, now, s[..i + 1]) == Dead(c, now, s[..i]) + (if Late(c, s[i], now) then [s[i]] else [])
  {
    assert s[..i + 1][..i] == s[..i];
  }

  /** The loop of `takeExpiredLocked` on the backing array: the kept tasks are written over the front of
      the very stretch being read. */
  method Compact(c: Config, now: int, b: array<Task>, off: nat, n: nat) returns (k: nat, dead: seq<Task>)
    requires off + n <= b.Length
    modifies b
    ensures k <= n && b[off..off + k] == Kept(c, now, old(b[off..off + n]))
    ensures dead == Dead(c, now, old(b[off..off + n]))
  {
    ghost var s := b[off..off + n];
    ghost var kept: seq<Task> := [];
    k, dead := 0, [];
    for i := 0 to n
      invariant k == |kept| <= i
      invariant kept == Kept(c, now, s[..i]) && dead == Dead(c, now, s[..i])
      invariant forall p :: off <= p < off + k ==> b[p] == kept[p - off]
      invariant forall p :: off + i <= p < off + n ==> b[p] == s[p - off]
    {
      var t := b[off + i];
      SplitStep(c, now, s, i);
      if Late(c, t, now) {
        dead := dead + [t];
      } else {
        b[off + k] := t;
        kept := kept + [t];
        k := k + 1;
      }
    }
    assert s[..n] == s;
    assert b[off..off + k] == kept;
  }

  class Slice {
    var buf: array<Task>
    var off: nat
    var len: nat

    ghost predicate Valid()
      reads this
    {
      off + len <= buf.Length
    }

    ghost function Contents(): seq<Task>
      requires Valid()
      reads this, buf
    {
      buf[off..off + len]
    }

    constructor (depth: nat)
      ensures Valid() && Contents() == [] && fresh(buf)
    {
      buf := new Task[depth];
      off, len := 0, 0;
    }

    /** `append`: in place while there is room behind the slice, into a larger array otherwise. */
    method Append(t: Task)
      requires Valid()
      modifies this, buf
      ensures Valid() && (buf == old(buf) || fresh(buf))
      ensures Contents() == old(Contents()) + [t]
    {
      if off + len == buf.Length {
        var larger := new Task[2 * len + 1];
        for i := 0 to len
          invariant larger[..i] == old(Contents())[..i]
          invariant unchanged(this) && unchanged(buf)
        {
          larger[i] := buf[off + i];
        }
        buf, off := larger, 0;
      }
      buf[off + len] := t;
      len := len + 1;
    }

    /** `q[0]` and `q[1:]`. */
    method PopFront() returns (t: Task)
      requires Valid() && len > 0
      modifies this
      ensures Valid() && buf == old(buf)
      ensures [t] + Contents() == old(Contents())
    {
      t := buf[off];
      off, len := off + 1, len - 1;
    }

    /** `takeExpiredLocked`: the kept tasks are written over the front of the very slice being read. */
    method TakeExpired(c: Config, now: int) returns (dead: seq<Task>)
      requires Valid()
      modifies this, buf
      ensures Valid() && buf == old(buf)
      ensures Contents() == Kept(c, now, old(Contents()))
      ensures dead == Dead(c, now, old(Contents()))
    {
      len, dead := Compact(c, now, buf, off, len);
    }
  }
}
