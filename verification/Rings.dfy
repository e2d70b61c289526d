/** Circular doubly-linked lists through the fd and bk words of chunks (and of bin headers). */
module Rings {
  import opened Words

  const FD := 8
  const BK := 12

  /** Two nodes whose link words do not overlap. */
  ghost predicate Apart(x: int, y: int) { x + 8 <= y || y + 8 <= x }

  ghost predicate Spaced(s: seq<int>) {
    forall i, j :: 0 <= i < j < |s| ==> Apart(s[i], s[j])
  }

  function Next(n: int, k: int): int { if k + 1 == n then 0 else k + 1 }

  function Prev(n: int, k: int): int { if k == 0 then n - 1 else k - 1 }

  ghost predicate Linked(m: Mem, s: seq<int>, k: int)
    requires 0 <= k < |s|
  {
    Rd(m, s[k] + FD) == s[Next(|s|, k)] && Rd(m, s[Next(|s|, k)] + BK) == s[k]
  }

  /** Following fd from s[0] visits s in order and returns; bk is its inverse. */
  ghost predicate Ring(m: Mem, s: seq<int>) {
    |s| > 0 && forall k {:trigger Linked(m, s, k)} :: 0 <= k < |s| ==> Linked(m, s, k)
  }

  lemma RingKeep(m: Mem, m': Mem, s: seq<int>)
    requires Ring(m, s)
    requires forall k :: 0 <= k < |s| ==> Rd(m', s[k] + FD) == Rd(m, s[k] + FD) && Rd(m', s[k] + BK) == Rd(m, s[k] + BK)
    ensures Ring(m', s)
  {
    forall k {:trigger Linked(m', s, k)} | 0 <= k < |s| ensures Linked(m', s, k) {
      assert Linked(m, s, k);
    }
  }

  /** Link `x` in just after the head. */
  ghost function Inserted(m: Mem, s: seq<int>, x: int): Mem
    requires |s| > 0
  {
    m[s[0] + FD := x][s[Next(|s|, 0)] + BK := x][x + FD := s[Next(|s|, 0)]][x + BK := s[0]]
  }

  lemma RingInsert(m: Mem, s: seq<int>, x: int)
    requires |s| == 1 || Ring(m, s)
    requires |s| > 0 && Spaced(s) && forall k :: 0 <= k < |s| ==> Apart(x, s[k])
    ensures Ring(Inserted(m, s, x), [s[0], x] + s[1..])
  {
    var m', t := Inserted(m, s, x), [s[0], x] + s[1..];
    forall k {:trigger Linked(m', t, k)} | 0 <= k < |t| ensures Linked(m', t, k) {
      if k >= 2 {
        assert t[k] == s[k - 1];
        assert Linked(m, s, k - 1);
      }
    }
  }

  /** Unlink the node at `k`. */
  ghost function Removed(m: Mem, s: seq<int>, k: int): Mem
    requires 0 <= k < |s|
  {
    m[s[Next(|s|, k)] + BK := s[Prev(|s|, k)]][s[Prev(|s|, k)] + FD := s[Next(|s|, k)]]
  }

  lemma RingRemove(m: Mem, s: seq<int>, k: int)
    requires Ring(m, s) && Spaced(s) && 0 <= k < |s| && |s| >= 2
    ensures Ring(Removed(m, s, k), s[..k] + s[k + 1..])
  {
    var m', t := Removed(m, s, k), s[..k] + s[k + 1..];
    forall j {:trigger Linked(m', t, j)} | 0 <= j < |t| ensures Linked(m', t, j) {
      var i := if j < k then j else j + 1;
      assert Linked(m, s, i) && Linked(m, s, Next(|s|, i));
    }
  }

  /** The neighbours of a node are what its links say. */
  lemma RingNeighbours(m: Mem, s: seq<int>, k: int)
    requires Ring(m, s) && 0 <= k < |s|
    ensures Rd(m, s[k] + FD) == s[Next(|s|, k)] && Rd(m, s[k] + BK) == s[Prev(|s|, k)]
  {
    assert Linked(m, s, k) && Linked(m, s, Prev(|s|, k));
  }

  /** A ring may be read off from any of its nodes: here from the last. */
  lemma RingRotate(m: Mem, s: seq<int>)
    requires Ring(m, s)
    ensures Ring(m, [s[|s| - 1]] + s[..|s| - 1])
  {
    var t := [s[|s| - 1]] + s[..|s| - 1];
    forall k {:trigger Linked(m, t, k)} | 0 <= k < |t| ensures Linked(m, t, k) {
      assert Linked(m, s, Prev(|s|, k));
    }
  }

  /** Both neighbours of a node point back at it; they are one node only in a ring of two. */
  lemma RingBackLinks(m: Mem, s: seq<int>, k: int)
    requires Ring(m, s) && Spaced(s) && 0 <= k < |s| && |s| >= 2
    ensures Rd(m, s[Next(|s|, k)] + BK) == s[k] && Rd(m, s[Prev(|s|, k)] + FD) == s[k]
    ensures s[Next(|s|, k)] == s[Prev(|s|, k)] <==> |s| == 2
  {
    assert Linked(m, s, k) && Linked(m, s, Prev(|s|, k));
    var i, j := Next(|s|, k), Prev(|s|, k);
    if i < j { assert Apart(s[i], s[j]); }
    if j < i { assert Apart(s[j], s[i]); }
  }
}
