/** The index of free chunks: small-bin rings, tree bins with rings of equal sizes, and the two bit maps. */
module Bins {
  import opened Words
  import opened Rings
  import opened TreeIndex
  import opened SizeTrie
  import opened TreeLinks
  import BM = BinMaps

  /** Binned chunks: address and size. */
  type Binned = map<int, int>

  /** Ghost view of the links. lists: the chunks of each size, in ring order, the tree node first for large sizes;
      nodes and at: place and address of each tree node; roots: root place of each non-empty tree bin;
      smalls: the non-empty small bins. */
  datatype Index = Index(lists: map<int, seq<int>>, nodes: Nodes, at: map<int, Pos>, roots: map<int, Pos>, smalls: set<int>)

  /** `smallbin_at(M, i)`: the header of small bin i, whose fd and bk words are smallbins[2i+2] and [2i+3]. */
  function Header(gm: int, i: int): int { gm + 8 * i }

  predicate IsSmall(s: int) { s < MIN_LARGE_SIZE }

  ghost predicate Away(b: Binned, p: int, q: int)
    requires p in b && q in b
  {
    p + b[p] <= q || q + b[q] <= p
  }

  ghost predicate Sized(p: int, s: int, lo: int, hi: int) {
    lo <= p && p % 8 == 0 && 16 <= s && s % 8 == 0 && p + s <= hi
  }

  /** Binned chunks lie in the segment and do not overlap; the segment is clear of the bin arrays. */
  ghost predicate Separate(gm: int, lo: int, hi: int, b: Binned) {
    && 0 < gm && 0 < lo && hi <= WORD && (gm + 392 <= lo || hi <= gm)
    && (forall p :: p in b ==> Sized(p, b[p], lo, hi))
    && (forall p, q {:trigger Away(b, p, q)} :: p in b && q in b && p != q ==> Away(b, p, q))
  }

  /** The nodes of the ring for size s: small rings include the bin header. */
  ghost function RingOf(gm: int, lists: map<int, seq<int>>, s: int): seq<int>
    requires s in lists
  {
    if IsSmall(s) then [Header(gm, s / 8)] + lists[s] else lists[s]
  }

  ghost predicate NoDup(s: seq<int>) { forall j, k :: 0 <= j < k < |s| ==> s[j] != s[k] }

  /** Exactly the binned chunks are listed, once, under their size. */
  ghost predicate Listed(b: Binned, lists: map<int, seq<int>>) {
    && (forall s :: s in lists ==> |lists[s]| > 0)
    && (forall s, k :: s in lists && 0 <= k < |lists[s]| ==> lists[s][k] in b && b[lists[s][k]] == s)
    && (forall s :: s in lists ==> NoDup(lists[s]))
    && (forall p :: p in b ==> b[p] in lists && p in lists[b[p]])
  }

  ghost predicate RingAt(m: Mem, gm: int, lists: map<int, seq<int>>, s: int)
    requires s in lists
  {
    Ring(m, RingOf(gm, lists, s))
  }

  ghost predicate AllRings(m: Mem, gm: int, lists: map<int, seq<int>>) {
    forall s {:trigger RingAt(m, gm, lists, s)} :: s in lists ==> RingAt(m, gm, lists, s)
  }

  /** A large chunk knows its bin; if it only hangs off a tree node of its size, its tree words are null. */
  ghost predicate Tagged(m: Mem, b: Binned, at: map<int, Pos>, p: int)
    requires p in b
  {
    && InBin(b[p], Rd(m, p + INDEX))
    && (p !in at ==> Rd(m, p + LEFT) == 0 && Rd(m, p + RIGHT) == 0 && Rd(m, p + PARENT) == 0)
  }

  ghost predicate AllTagged(m: Mem, b: Binned, at: map<int, Pos>) {
    forall p {:trigger Tagged(m, b, at, p)} :: p in b && !IsSmall(b[p]) ==> Tagged(m, b, at, p)
  }

  function SizeIn(b: Binned, x: int): int { if x in b then b[x] else 0 }

  /** The size at each place of the trees. */
  ghost function Sizes(nodes: Nodes, b: Binned): map<Pos, int> {
    map q | q in nodes :: if q in nodes then SizeIn(b, nodes[q]) else 0
  }

  /** Each large size has one tree node, the first of its list. */
  ghost predicate Seated(b: Binned, ix: Index) {
    && (forall q :: q in ix.nodes ==> ix.nodes[q] in ix.at && ix.at[ix.nodes[q]] == q)
    && (forall x :: x in ix.at ==> x in b && !IsSmall(b[x]) && ix.at[x] in ix.nodes && ix.nodes[ix.at[x]] == x)
    && (forall x :: x in ix.at ==> b[x] in ix.lists && |ix.lists[b[x]]| > 0 && ix.lists[b[x]][0] == x)
    && (forall s :: s in ix.lists && !IsSmall(s) ==> |ix.lists[s]| > 0 && ix.lists[s][0] in ix.at)
  }

  ghost predicate Maps(ix: Index, smallmap: int, treemap: int) {
    && 0 <= smallmap < WORD && 0 <= treemap < WORD
    && BM.Shows(smallmap, ix.smalls) && BM.Shows(treemap, ix.roots.Keys)
    && (forall i :: i in ix.smalls ==> 0 <= i < 32 && 8 * i in ix.lists)
    && (forall s :: s in ix.lists && IsSmall(s) ==> s % 8 == 0 && s / 8 in ix.smalls)
  }

  /** Rings, tries and maps agree with the binned chunks, as the debug build's `check_malloc_state` checks them. */
  ghost predicate Indexed(m: Mem, gm: int, lo: int, hi: int, b: Binned, ix: Index, smallmap: int, treemap: int) {
    && Separate(gm, lo, hi, b)
    && Listed(b, ix.lists)
    && AllRings(m, gm, ix.lists)
    && AllTagged(m, b, ix.at)
    && Seated(b, ix)
    && Trees(m, gm, ix.nodes, ix.roots)
    && Trie(Sizes(ix.nodes, b))
    && Maps(ix, smallmap, treemap)
  }

  // ---- Writes to ring words ----

  /** A ring node for size s: a binned chunk of that size or the header of its small bin. */
  ghost predicate NodeFor(gm: int, b: Binned, s: int, x: int) {
    (x in b && b[x] == s) || (IsSmall(s) && x == Header(gm, s / 8))
  }

  /** Nodes of different sizes do not share words. */
  lemma NodesApart(gm: int, lo: int, hi: int, b: Binned, s: int, x: int, s': int, y: int)
    requires Separate(gm, lo, hi, b) && 16 <= s && 16 <= s' && s % 8 == 0 && s' % 8 == 0
    requires NodeFor(gm, b, s, x) && NodeFor(gm, b, s', y) && s != s'
    ensures Apart(x, y)
  {
    if x in b && y in b { assert Away(b, x, y); }
  }

  /** At most the links into and out of one place of a ring change. */
  ghost predicate Relinked(m: Mem, m': Mem, x1: int, x2: int, x3: int) {
    Only(m, m', {x1 + FD, x2 + BK, x3 + FD, x3 + BK})
  }

  lemma OtherRing(m: Mem, m': Mem, gm: int, lo: int, hi: int, b: Binned, lists: map<int, seq<int>>,
                  s: int, x1: int, x2: int, x3: int, s': int)
    requires Separate(gm, lo, hi, b) && 16 <= s && s % 8 == 0
    requires NodeFor(gm, b, s, x1) && NodeFor(gm, b, s, x2) && NodeFor(gm, b, s, x3) && Relinked(m, m', x1, x2, x3)
    requires s' in lists && s' != s && RingAt(m, gm, lists, s') && 16 <= s' && s' % 8 == 0
    requires forall k :: 0 <= k < |lists[s']| ==> lists[s'][k] in b && b[lists[s'][k]] == s'
    ensures RingAt(m', gm, lists, s')
  {
    var r := RingOf(gm, lists, s');
    forall k | 0 <= k < |r|
      ensures Rd(m', r[k] + FD) == Rd(m, r[k] + FD) && Rd(m', r[k] + BK) == Rd(m, r[k] + BK)
    {
      assert NodeFor(gm, b, s', r[k]);
      NodesApart(gm, lo, hi, b, s, x1, s', r[k]);
      NodesApart(gm, lo, hi, b, s, x2, s', r[k]);
      NodesApart(gm, lo, hi, b, s, x3, s', r[k]);
    }
    RingKeep(m, m', r);
  }

  lemma ListedSizes(gm: int, lo: int, hi: int, b: Binned, lists: map<int, seq<int>>, s: int)
    requires Separate(gm, lo, hi, b) && Listed(b, lists) && s in lists
    ensures 16 <= s && s % 8 == 0 && lists[s][0] in b
  {
    assert lists[s][0] in b && Sized(lists[s][0], b[lists[s][0]], lo, hi);
  }

  /** Relinking one ring leaves the others alone. */
  lemma OtherRings(m: Mem, m': Mem, gm: int, lo: int, hi: int, b: Binned, b': Binned, lists: map<int, seq<int>>,
                   lists': map<int, seq<int>>, s: int, x1: int, x2: int, x3: int)
    requires Separate(gm, lo, hi, b) && Listed(b, lists) && AllRings(m, gm, lists) && Separate(gm, lo, hi, b')
    requires Listed(b', lists')
    requires 16 <= s && s % 8 == 0 && Relinked(m, m', x1, x2, x3)
    requires forall s' :: s' in lists' && s' != s ==> s' in lists && lists'[s'] == lists[s']
    requires (NodeFor(gm, b, s, x1) && NodeFor(gm, b, s, x2) && NodeFor(gm, b, s, x3) && forall x :: x in b' ==> x in b && b[x] == b'[x])
          || (NodeFor(gm, b', s, x1) && NodeFor(gm, b', s, x2) && NodeFor(gm, b', s, x3))
    requires s in lists' ==> RingAt(m', gm, lists', s)
    ensures AllRings(m', gm, lists')
  {
    forall s' {:trigger RingAt(m', gm, lists', s')} | s' in lists' ensures RingAt(m', gm, lists', s') {
      if s' != s {
        assert RingAt(m, gm, lists, s');
        ListedSizes(gm, lo, hi, b', lists', s');
        if NodeFor(gm, b', s, x1) && NodeFor(gm, b', s, x2) && NodeFor(gm, b', s, x3) {
          OtherRing(m, m', gm, lo, hi, b', lists', s, x1, x2, x3, s');
        } else {
          OtherRing(m, m', gm, lo, hi, b, lists', s, x1, x2, x3, s');
        }
      }
    }
  }

  /** Ring words are not tree words. */
  lemma RingWordsMissTree(m: Mem, m': Mem, gm: int, lo: int, hi: int, b: Binned, s: int, x1: int, x2: int, x3: int,
                          y: int)
    requires Separate(gm, lo, hi, b) && 16 <= s && s % 8 == 0 && Relinked(m, m', x1, x2, x3)
    requires NodeFor(gm, b, s, x1) && NodeFor(gm, b, s, x2) && NodeFor(gm, b, s, x3)
    requires y in b && !IsSmall(b[y])
    ensures Rd(m', y + LEFT) == Rd(m, y + LEFT) && Rd(m', y + RIGHT) == Rd(m, y + RIGHT)
    ensures Rd(m', y + PARENT) == Rd(m, y + PARENT) && Rd(m', y + INDEX) == Rd(m, y + INDEX)
  {
    if x1 in b && x1 != y { assert Away(b, x1, y); }
    if x2 in b && x2 != y { assert Away(b, x2, y); }
    if x3 in b && x3 != y { assert Away(b, x3, y); }
  }

  /** Relinking a ring leaves the trees and the tags of large chunks alone. */
  lemma RelinkKeepsTrees(m: Mem, m': Mem, gm: int, lo: int, hi: int, b: Binned, ix: Index, s: int, x1: int, x2: int,
                         x3: int)
    requires Separate(gm, lo, hi, b) && 16 <= s && s % 8 == 0 && Relinked(m, m', x1, x2, x3)
    requires NodeFor(gm, b, s, x1) && NodeFor(gm, b, s, x2) && NodeFor(gm, b, s, x3)
    requires Trees(m, gm, ix.nodes, ix.roots)
    requires forall q :: q in ix.nodes ==> ix.nodes[q] in b && !IsSmall(b[ix.nodes[q]])
    ensures Trees(m', gm, ix.nodes, ix.roots)
  {
    forall q | q in ix.nodes
      ensures Rd(m', ix.nodes[q] + LEFT) == Rd(m, ix.nodes[q] + LEFT)
      ensures Rd(m', ix.nodes[q] + RIGHT) == Rd(m, ix.nodes[q] + RIGHT)
      ensures Rd(m', ix.nodes[q] + PARENT) == Rd(m, ix.nodes[q] + PARENT)
      ensures Rd(m', ix.nodes[q] + INDEX) == Rd(m, ix.nodes[q] + INDEX)
    {
      RingWordsMissTree(m, m', gm, lo, hi, b, s, x1, x2, x3, ix.nodes[q]);
    }
    RingWordsMissRoots(m, m', gm, lo, hi, b, s, x1, x2, x3);
    TreesKeep(m, m', gm, ix.nodes, ix.roots);
  }

  lemma RingWordsMissRoots(m: Mem, m': Mem, gm: int, lo: int, hi: int, b: Binned, s: int, x1: int, x2: int, x3: int)
    requires Separate(gm, lo, hi, b) && 16 <= s && s % 8 == 0 && Relinked(m, m', x1, x2, x3)
    requires NodeFor(gm, b, s, x1) && NodeFor(gm, b, s, x2) && NodeFor(gm, b, s, x3)
    ensures forall i :: 0 <= i < 32 ==> Rd(m', TreeBin(gm, i)) == Rd(m, TreeBin(gm, i))
  {
  }

  lemma RelinkKeepsTags(m: Mem, m': Mem, gm: int, lo: int, hi: int, b: Binned, at: map<int, Pos>, s: int, x1: int,
                        x2: int, x3: int)
    requires Separate(gm, lo, hi, b) && 16 <= s && s % 8 == 0 && Relinked(m, m', x1, x2, x3)
    requires NodeFor(gm, b, s, x1) && NodeFor(gm, b, s, x2) && NodeFor(gm, b, s, x3)
    requires AllTagged(m, b, at)
    ensures AllTagged(m', b, at)
  {
    forall p {:trigger Tagged(m', b, at, p)} | p in b && !IsSmall(b[p]) ensures Tagged(m', b, at, p) {
      assert Tagged(m, b, at, p);
      RingWordsMissTree(m, m', gm, lo, hi, b, s, x1, x2, x3, p);
    }
  }

  // ---- Lists ----

  lemma ListedInsert(b: Binned, lists: map<int, seq<int>>, p: int, s: int, l: seq<int>)
    requires Listed(b, lists) && p !in b && NoDup(l)
    requires forall x :: x in l <==> x == p || (s in lists && x in lists[s])
    ensures Listed(b[p := s], lists[s := l])
  {
    assert p in l;
    forall k | 0 <= k < |l| ensures l[k] in b[p := s] && b[p := s][l[k]] == s {
      assert l[k] in l;
    }
  }

  ghost function Shorter(lists: map<int, seq<int>>, s: int, l: seq<int>): map<int, seq<int>> {
    if l == [] then lists - {s} else lists[s := l]
  }

  lemma ListedRemove(b: Binned, lists: map<int, seq<int>>, p: int, l: seq<int>)
    requires Listed(b, lists) && p in b && NoDup(l)
    requires forall x :: x in l <==> x != p && x in lists[b[p]]
    ensures Listed(b - {p}, Shorter(lists, b[p], l))
  {
    var s := b[p];
    var b', lists' := b - {p}, Shorter(lists, s, l);
    forall t, k | t in lists' && 0 <= k < |lists'[t]| ensures lists'[t][k] in b' && b'[lists'[t][k]] == t {
      if t == s { assert l[k] in l; }
    }
    forall q | q in b' ensures b'[q] in lists' && q in lists'[b'[q]] {
      if b[q] == s { assert q in l; }
    }
  }

  lemma NodesSpaced(gm: int, lo: int, hi: int, b: Binned, s: int, l: seq<int>)
    requires Separate(gm, lo, hi, b) && NoDup(l) && forall k :: 0 <= k < |l| ==> NodeFor(gm, b, s, l[k])
    requires 0 <= s
    ensures Spaced(l)
  {
    forall j, k | 0 <= j < k < |l| ensures Apart(l[j], l[k]) {
      if l[j] in b && l[k] in b { assert Away(b, l[j], l[k]); }
    }
  }

  ghost function ListOf(lists: map<int, seq<int>>, s: int): seq<int> { if s in lists then lists[s] else [] }

  // ---- Small bins: link in ----

  ghost function SmallRing(gm: int, lists: map<int, seq<int>>,
                           s: int): seq<int> { [Header(gm, s / 8)] + ListOf(lists, s) }

  /** The bins after p of size s is linked in at the front of its small bin. */
  ghost function SmallIndex(ix: Index, p: int, s: int): Index {
    ix.(lists := ix.lists[s := [p] + ListOf(ix.lists, s)], smalls := ix.smalls + {s / 8})
  }

  lemma SmallNodes(gm: int, lo: int, hi: int, b: Binned, lists: map<int, seq<int>>, p: int, s: int)
    requires Separate(gm, lo, hi, b[p := s]) && Listed(b, lists) && p !in b && IsSmall(s)
    ensures var r := SmallRing(gm, lists, s); Spaced(r) && forall k :: 0 <= k < |r| ==> Apart(p, r[k])
  {
    var r := SmallRing(gm, lists, s);
    var l := [p] + r;
    assert Sized(p, b[p := s][p], lo, hi);
    forall k | 0 <= k < |l| ensures NodeFor(gm, b[p := s], s, l[k]) {}
    forall j, k | 0 <= j < k < |l| ensures l[j] != l[k] {
      if j == 1 && s in lists { assert Sized(lists[s][k - 2], b[lists[s][k - 2]], lo, hi) by { assert b[p := s][lists[s][k - 2]] == s; } }
    }
    NodesSpaced(gm, lo, hi, b[p := s], s, l);
    forall k | 0 <= k < |r| ensures Apart(p, r[k]) { assert Apart(l[0], l[k + 1]); }
    forall j, k | 0 <= j < k < |r| ensures Apart(r[j], r[k]) { assert Apart(l[j + 1], l[k + 1]); }
  }

  lemma InsertSmallRings(m: Mem, gm: int, lo: int, hi: int, b: Binned, lists: map<int, seq<int>>, p: int, s: int)
    requires Separate(gm, lo, hi, b) && Listed(b, lists) && AllRings(m, gm, lists)
    requires p !in b && IsSmall(s) && Separate(gm, lo, hi, b[p := s])
    ensures var r := SmallRing(gm, lists, s); var m' := Inserted(m, r, p); var x2 := r[Next(|r|, 0)];
            && AllRings(m', gm, lists[s := [p] + ListOf(lists, s)])
            && Relinked(m, m', r[0], x2, p) && NodeFor(gm, b[p := s], s, r[0]) && NodeFor(gm, b[p := s], s, x2)
  {
    var r, l, b' := SmallRing(gm, lists, s), [p] + ListOf(lists, s), b[p := s];
    var m' := Inserted(m, r, p);
    assert Sized(p, b'[p], lo, hi);
    SmallNodes(gm, lo, hi, b, lists, p, s);
    assert Ring(m', [Header(gm, s / 8)] + l) by {
      if s in lists { assert RingAt(m, gm, lists, s); }
      RingInsert(m, r, p);
      assert [r[0], p] + r[1..] == [Header(gm, s / 8)] + l;
    }
    SmallListed(b, lists, p, s);
    OtherRings(m, m', gm, lo, hi, b, b', lists, lists[s := l], s, r[0], r[Next(|r|, 0)], p);
  }

  lemma InsertSmallSeats(b: Binned, ix: Index, p: int, s: int)
    requires Seated(b, ix) && p !in b && IsSmall(s)
    ensures Seated(b[p := s], SmallIndex(ix, p, s)) && Sizes(ix.nodes, b[p := s]) == Sizes(ix.nodes, b)
  {
  }

  lemma InsertSmallMaps(ix: Index, smallmap: int, treemap: int, p: int, s: int, smallmap': int)
    requires Maps(ix, smallmap, treemap) && IsSmall(s) && 0 <= s && s % 8 == 0
    requires 0 <= smallmap' < WORD && BM.Shows(smallmap', ix.smalls + {s / 8})
    ensures Maps(SmallIndex(ix, p, s), smallmap', treemap)
  {
    assert 8 * (s / 8) == s;
  }

  lemma InsertSmall(m: Mem, gm: int, lo: int, hi: int, b: Binned, ix: Index, smallmap: int, treemap: int,
                    p: int, s: int, smallmap': int)
    requires Indexed(m, gm, lo, hi, b, ix, smallmap, treemap)
    requires p !in b && IsSmall(s) && Separate(gm, lo, hi, b[p := s])
    requires 0 <= smallmap' < WORD && BM.Shows(smallmap', ix.smalls + {s / 8})
    ensures Indexed(Inserted(m, SmallRing(gm, ix.lists, s), p), gm, lo, hi, b[p := s], SmallIndex(ix, p, s),
                      smallmap', treemap)
  {
    var r, b' := SmallRing(gm, ix.lists, s), b[p := s];
    var m', x2 := Inserted(m, r, p), r[Next(|r|, 0)];
    assert Sized(p, b'[p], lo, hi);
    InsertSmallRings(m, gm, lo, hi, b, ix.lists, p, s);
    SmallListed(b, ix.lists, p, s);
    RelinkKeepsTrees(m, m', gm, lo, hi, b', ix, s, r[0], x2, p);
    SmallTags(m, m', gm, lo, hi, b, ix.at, p, s, r[0], x2);
    InsertSmallSeats(b, ix, p, s);
    InsertSmallMaps(ix, smallmap, treemap, p, s, smallmap');
    assert Indexed(Inserted(m, SmallRing(gm, ix.lists, s), p), gm, lo, hi, b[p := s], SmallIndex(ix, p, s), smallmap',
                   treemap);
  }

  lemma SmallListed(b: Binned, lists: map<int, seq<int>>, p: int, s: int)
    requires Listed(b, lists) && p !in b
    ensures Listed(b[p := s], lists[s := [p] + ListOf(lists, s)])
  {
    var l := [p] + ListOf(lists, s);
    ListedInsert(b, lists, p, s, l);
  }

  lemma SmallTags(m: Mem, m': Mem, gm: int, lo: int, hi: int, b: Binned, at: map<int, Pos>, p: int, s: int, x1: int,
                  x2: int)
    requires Separate(gm, lo, hi, b[p := s]) && p !in b && IsSmall(s) && Relinked(m, m', x1, x2, p)
    requires NodeFor(gm, b[p := s], s, x1) && NodeFor(gm, b[p := s], s, x2) && AllTagged(m, b, at)
    ensures AllTagged(m', b[p := s], at)
  {
    var b' := b[p := s];
    assert Sized(p, b'[p], lo, hi);
    forall q {:trigger Tagged(m, b', at, q)} | q in b' && !IsSmall(b'[q]) ensures Tagged(m, b', at, q) {
      assert Tagged(m, b, at, q);
    }
    RelinkKeepsTags(m, m', gm, lo, hi, b', at, s, x1, x2, p);
  }

  // ---- Small bins: take out ----

  ghost function Without(l: seq<int>, k: int): seq<int>
    requires 0 <= k < |l|
  {
    l[..k] + l[k + 1..]
  }

  lemma WithoutMembers(l: seq<int>, k: int)
    requires 0 <= k < |l| && NoDup(l)
    ensures NoDup(Without(l, k)) && forall x :: x in Without(l, k) <==> x != l[k] && x in l
  {
    var w := Without(l, k);
    forall x | x != l[k] && x in l ensures x in w {
      var j :| 0 <= j < |l| && l[j] == x;
      if j < k { assert w[j] == x; } else { assert w[j - 1] == x; }
    }
  }

  /** Memory after the chunk at index k of the list for s is unlinked: a bin left empty keeps its stale header links. */
  ghost function SmallUnlinked(m: Mem, gm: int, lists: map<int, seq<int>>, s: int, k: int): Mem
    requires s in lists && 0 <= k < |lists[s]|
  {
    if |lists[s]| == 1 then m else Removed(m, SmallRing(gm, lists, s), k + 1)
  }

  ghost function SmallIndexLess(ix: Index, s: int, l: seq<int>): Index {
    ix.(lists := Shorter(ix.lists, s, l), smalls := if l == [] then ix.smalls - {s / 8} else ix.smalls)
  }

  lemma SmallRingSpaced(gm: int, lo: int, hi: int, b: Binned, lists: map<int, seq<int>>, s: int)
    requires Separate(gm, lo, hi, b) && Listed(b, lists) && s in lists && IsSmall(s)
    ensures Spaced(SmallRing(gm, lists, s))
  {
    var r := SmallRing(gm, lists, s);
    ListedSizes(gm, lo, hi, b, lists, s);
    forall j | 0 <= j < |r| ensures NodeFor(gm, b, s, r[j]) {}
    forall i, j | 0 <= i < j < |r| ensures r[i] != r[j] {
      if i == 0 { assert Sized(lists[s][j - 1], b[lists[s][j - 1]], lo, hi); }
    }
    NodesSpaced(gm, lo, hi, b, s, r);
  }

  lemma HeadedRemove(m: Mem, h: int, l: seq<int>, k: int)
    requires Ring(m, [h] + l) && Spaced([h] + l) && 0 <= k < |l| && |l| >= 2
    ensures Ring(Removed(m, [h] + l, k + 1), [h] + Without(l, k))
  {
    var r := [h] + l;
    assert r[..k + 1] + r[k + 2..] == [h] + Without(l, k);
    RingRemove(m, r, k + 1);
  }

  lemma RemoveSmallRings(m: Mem, gm: int, lo: int, hi: int, b: Binned, lists: map<int, seq<int>>, s: int, k: int)
    requires Separate(gm, lo, hi, b) && Listed(b, lists) && AllRings(m, gm, lists)
    requires s in lists && IsSmall(s) && 0 <= k < |lists[s]|
    requires Separate(gm, lo, hi, b - {lists[s][k]})
    ensures var r := SmallRing(gm, lists, s); var m' := SmallUnlinked(m, gm, lists, s, k);
            var l := Without(lists[s], k); var x1, x2 := r[Prev(|r|, k + 1)], r[Next(|r|, k + 1)];
            && AllRings(m', gm, Shorter(lists, s, l)) && Listed(b - {lists[s][k]}, Shorter(lists, s, l))
            && Relinked(m, m', x1, x2, x1) && NodeFor(gm, b, s, x1) && NodeFor(gm, b, s, x2)
  {
    var r, l, p := SmallRing(gm, lists, s), Without(lists[s], k), lists[s][k];
    var m', lists' := SmallUnlinked(m, gm, lists, s, k), Shorter(lists, s, l);
    var x1, x2 := r[Prev(|r|, k + 1)], r[Next(|r|, k + 1)];
    ListedSizes(gm, lo, hi, b, lists, s);
    WithoutMembers(lists[s], k);
    ListedRemove(b, lists, p, l);
    assert RingAt(m, gm, lists, s);
    if |lists[s]| >= 2 {
      SmallRingSpaced(gm, lo, hi, b, lists, s);
      HeadedRemove(m, Header(gm, s / 8), lists[s], k);
    }
    OtherRings(m, m', gm, lo, hi, b, b - {p}, lists, lists', s, x1, x2, x1);
  }

  lemma RemoveSmallSeats(b: Binned, ix: Index, p: int, l: seq<int>)
    requires Seated(b, ix) && p in b && IsSmall(b[p])
    ensures Seated(b - {p}, SmallIndexLess(ix, b[p], l)) && Sizes(ix.nodes, b - {p}) == Sizes(ix.nodes, b)
  {
  }

  lemma RemoveSmallMaps(ix: Index, smallmap: int, treemap: int, s: int, l: seq<int>, smallmap': int)
    requires Maps(ix, smallmap, treemap) && IsSmall(s) && 0 <= s && s % 8 == 0 && s in ix.lists
    requires 0 <= smallmap' < WORD && BM.Shows(smallmap', if l == [] then ix.smalls - {s / 8} else ix.smalls)
    ensures Maps(SmallIndexLess(ix, s, l), smallmap', treemap)
  {
    assert 8 * (s / 8) == s;
    var ix' := SmallIndexLess(ix, s, l);
    forall i | i in ix'.smalls ensures 0 <= i < 32 && 8 * i in ix'.lists { assert l == [] ==> 8 * i != s; }
    forall t | t in ix'.lists && IsSmall(t) ensures t % 8 == 0 && t / 8 in ix'.smalls {
      assert t in ix.lists && 8 * (t / 8) == t;
    }
  }

  lemma LessTags(m: Mem, m': Mem, gm: int, lo: int, hi: int, b: Binned, at: map<int, Pos>, p: int, x1: int, x2: int)
    requires Separate(gm, lo, hi, b) && p in b && Relinked(m, m', x1, x2, x1) && AllTagged(m, b, at)
    requires NodeFor(gm, b, b[p], x1) && NodeFor(gm, b, b[p], x2)
    ensures AllTagged(m', b - {p}, at)
  {
    var b' := b - {p};
    assert Sized(p, b[p], lo, hi);
    RelinkKeepsTags(m, m', gm, lo, hi, b, at, b[p], x1, x2, x1);
    forall q {:trigger Tagged(m', b', at, q)} | q in b' && !IsSmall(b'[q]) ensures Tagged(m', b', at, q) {
      assert Tagged(m', b, at, q);
    }
  }

  lemma SeparateLess(gm: int, lo: int, hi: int, b: Binned, p: int)
    requires Separate(gm, lo, hi, b)
    ensures Separate(gm, lo, hi, b - {p})
  {
    var b' := b - {p};
    forall q, r {:trigger Away(b', q, r)} | q in b' && r in b' && q != r ensures Away(b', q, r) {
      assert Away(b, q, r);
    }
  }

  lemma RemoveSmall(m: Mem, gm: int, lo: int, hi: int, b: Binned, ix: Index, smallmap: int, treemap: int,
                    p: int, k: int, smallmap': int)
    requires Indexed(m, gm, lo, hi, b, ix, smallmap, treemap)
    requires p in b && IsSmall(b[p]) && 0 <= k < |ix.lists[b[p]]| && ix.lists[b[p]][k] == p
    requires 0 <= smallmap' < WORD
    requires BM.Shows(smallmap', if |ix.lists[b[p]]| == 1 then ix.smalls - {b[p] / 8} else ix.smalls)
    ensures Indexed(SmallUnlinked(m, gm, ix.lists, b[p], k), gm, lo, hi, b - {p},
                 SmallIndexLess(ix, b[p], Without(ix.lists[b[p]], k)), smallmap', treemap)
  {
    var s := b[p];
    var r, l, m' := SmallRing(gm, ix.lists, s), Without(ix.lists[s], k), SmallUnlinked(m, gm, ix.lists, s, k);
    var x1, x2 := r[Prev(|r|, k + 1)], r[Next(|r|, k + 1)];
    SeparateLess(gm, lo, hi, b, p);
    ListedSizes(gm, lo, hi, b, ix.lists, s);
    RemoveSmallRings(m, gm, lo, hi, b, ix.lists, s, k);
    RelinkKeepsTrees(m, m', gm, lo, hi, b, ix, s, x1, x2, x1);
    LessTags(m, m', gm, lo, hi, b, ix.at, p, x1, x2);
    RemoveSmallSeats(b, ix, p, l);
    assert l == [] <==> |ix.lists[s]| == 1;
    RemoveSmallMaps(ix, smallmap, treemap, s, l, smallmap');
    assert Indexed(SmallUnlinked(m, gm, ix.lists, b[p], k), gm, lo, hi, b - {p},
                   SmallIndexLess(ix, b[p], Without(ix.lists[b[p]], k)), smallmap', treemap);
  }

  // ---- Which words the index may touch ----

  /** A word neither in the bin arrays nor inside a binned chunk behind its head word. */
  ghost predicate Outside(gm: int, b: Binned, w: int) {
    (w < gm || gm + 392 <= w) && forall p :: p in b ==> w < p + 8 || p + b[p] <= w
  }

  ghost predicate Touches(m: Mem, m': Mem, gm: int, b: Binned) {
    forall w {:trigger Rd(m', w)} :: Outside(gm, b, w) ==> Rd(m', w) == Rd(m, w)
  }

  /** All words of the segment and of the bin arrays are mapped. */
  ghost predicate Mapped(m: Mem, gm: int, lo: int, hi: int) {
    gm % 4 == 0 && forall a {:trigger a in m} :: a % 4 == 0 && (lo <= a < hi || gm <= a < gm + 392) ==> a in m
  }

  // ---- What the code reads ----

  lemma WordAt(m: Mem, gm: int, lo: int, hi: int, p: int, d: int)
    requires Mapped(m, gm, lo, hi) && p % 4 == 0 && d % 4 == 0
    requires (lo <= p && 0 <= d && p + d < hi) || (gm <= p && 0 <= d && p + d < gm + 392)
    ensures p + d in m
  {
    assert (p + d) % 4 == 0;
  }

  lemma MappedMore(m: Mem, m': Mem, gm: int, lo: int, hi: int)
    requires Mapped(m, gm, lo, hi) && forall a {:trigger a in m'} :: a in m ==> a in m'
    ensures Mapped(m', gm, lo, hi)
  {
  }

  lemma Quad(p: int)
    requires p % 8 == 0
    ensures p % 4 == 0
  {
  }

  lemma MappedChunk(m: Mem, gm: int, lo: int, hi: int, p: int, s: int)
    requires Mapped(m, gm, lo, hi) && Sized(p, s, lo, hi)
    ensures p + FD in m && p + BK in m
    ensures !IsSmall(s) ==> p + LEFT in m && p + RIGHT in m && p + PARENT in m && p + INDEX in m
  {
    Quad(p);
    hide Mapped;
    WordAt(m, gm, lo, hi, p, FD);
    WordAt(m, gm, lo, hi, p, BK);
    if !IsSmall(s) {
      WordAt(m, gm, lo, hi, p, LEFT);
      WordAt(m, gm, lo, hi, p, RIGHT);
      WordAt(m, gm, lo, hi, p, PARENT);
      WordAt(m, gm, lo, hi, p, INDEX);
    }
  }

  lemma MappedHeader(m: Mem, gm: int, lo: int, hi: int, s: int)
    requires Mapped(m, gm, lo, hi) && 0 <= s && IsSmall(s)
    ensures Header(gm, s / 8) + FD in m && Header(gm, s / 8) + BK in m
  {
    WordAt(m, gm, lo, hi, gm, 8 * (s / 8) + FD);
    WordAt(m, gm, lo, hi, gm, 8 * (s / 8) + BK);
  }

  /** The stores of `insert_small_chunk`, with `f` the old front of the bin. */
  function Pushed(m: Mem, bin: int, f: int, p: int): Mem { m[bin + FD := p][f + BK := p][p + FD := f][p + BK := bin] }

  /** The front of a small bin, as the code finds it: the header's fd if the bin is marked, else the header. */
  lemma SmallFront(m: Mem, gm: int, lo: int, hi: int, b: Binned, ix: Index, smallmap: nat, treemap: int, p: int,
                   s: int) returns (f: int)
    requires Indexed(m, gm, lo, hi, b, ix, smallmap, treemap) && Mapped(m, gm, lo, hi)
    requires 16 <= s && s % 8 == 0 && IsSmall(s)
    ensures Header(gm, s / 8) + FD in m && f + BK in m && smallmap < WORD && BM.Shows(smallmap, ix.smalls)
    ensures if BM.Bit(smallmap, s / 8) then f == m[Header(gm, s / 8) + FD] && f in b && b[f] == s && Sized(f, b[f], lo, hi)
            else f == Header(gm, s / 8)
    ensures Inserted(m, SmallRing(gm, ix.lists, s), p) == Pushed(m, Header(gm, s / 8), f, p)
  {
    hide AllTagged; hide Trees; hide Trie; hide Seated;
    var r := SmallRing(gm, ix.lists, s);
    f := r[Next(|r|, 0)];
    MappedHeader(m, gm, lo, hi, s);
    assert 8 * (s / 8) == s;
    assert BM.Bit(smallmap, s / 8) == (s in ix.lists);
    if s in ix.lists {
      assert RingAt(m, gm, ix.lists, s);
      RingNeighbours(m, r, 0);
      assert f == ix.lists[s][0];
      MappedChunk(m, gm, lo, hi, f, s);
    }
  }

  lemma InsertTouches(m: Mem, gm: int, lo: int, hi: int, b: Binned, p: int, s: int, f: int)
    requires p in b && b[p] == s && Sized(p, s, lo, hi) && IsSmall(s)
    requires f == Header(gm, s / 8) || (f in b && Sized(f, b[f], lo, hi))
    ensures Touches(m, m[Header(gm, s / 8) + FD := p][f + BK := p][p + FD := f][p + BK := Header(gm, s / 8)], gm, b)
  {
  }

  /** `insert_small_chunk`: what the macro may read, and that its writes keep the index. */
  lemma InsertSmallStep(m: Mem, gm: int, lo: int, hi: int, b: Binned, ix: Index, smallmap: nat, treemap: int, p: int,
                        s: int)
    returns (f: int, map': nat)
    requires Indexed(m, gm, lo, hi, b, ix, smallmap, treemap) && Mapped(m, gm, lo, hi)
    requires p !in b && IsSmall(s) && Separate(gm, lo, hi, b[p := s])
    ensures 16 <= s && s % 8 == 0 && Header(gm, s / 8) + FD in m && f + BK in m && p + FD in m && p + BK in m
    ensures if BM.And(smallmap, Pow2(s / 8)) == 0 then f == Header(gm, s / 8) && map' == BM.Mark(smallmap, s / 8)
            else f == m[Header(gm, s / 8) + FD] && map' == smallmap
    ensures Indexed(Pushed(m, Header(gm, s / 8), f, p), gm, lo, hi, b[p := s], SmallIndex(ix, p, s), map',
                      treemap)
    ensures Mapped(Pushed(m, Header(gm, s / 8), f, p), gm, lo, hi)
    ensures Touches(m, Pushed(m, Header(gm, s / 8), f, p), gm, b[p := s])
  {
    hide Indexed; hide Mapped; hide BM.Shows;
    assert Sized(p, b[p := s][p], lo, hi);
    f := SmallFront(m, gm, lo, hi, b, ix, smallmap, treemap, p, s);
    MappedChunk(m, gm, lo, hi, p, s);
    BM.Tested(smallmap, s / 8);
    BM.MarkSet(smallmap, ix.smalls, s / 8);
    map' := if BM.And(smallmap, Pow2(s / 8)) == 0 then BM.Mark(smallmap, s / 8) else smallmap;
    InsertSmall(m, gm, lo, hi, b, ix, smallmap, treemap, p, s, map');
    InsertTouches(m, gm, lo, hi, b[p := s], p, s, f);
    MappedMore(m, Pushed(m, Header(gm, s / 8), f, p), gm, lo, hi);
  }

  // ---- The index depends only on the words it owns ----

  ghost predicate SameInside(m: Mem, m': Mem, gm: int, b: Binned) {
    && (forall w {:trigger Rd(m', w)} :: gm <= w < gm + 392 ==> Rd(m', w) == Rd(m, w))
    && (forall p, w {:trigger p in b, Rd(m', w)} :: p in b && p + 8 <= w < p + b[p] ==> Rd(m', w) == Rd(m, w))
  }

  lemma KeepRings(m: Mem, m': Mem, gm: int, lo: int, hi: int, b: Binned, lists: map<int, seq<int>>)
    requires Separate(gm, lo, hi, b) && Listed(b, lists) && AllRings(m, gm, lists) && SameInside(m, m', gm, b)
    ensures AllRings(m', gm, lists)
  {
    forall s {:trigger RingAt(m', gm, lists, s)} | s in lists ensures RingAt(m', gm, lists, s) {
      assert RingAt(m, gm, lists, s);
      ListedSizes(gm, lo, hi, b, lists, s);
      var r := RingOf(gm, lists, s);
      forall k | 0 <= k < |r|
        ensures Rd(m', r[k] + FD) == Rd(m, r[k] + FD) && Rd(m', r[k] + BK) == Rd(m, r[k] + BK)
      {
        assert NodeFor(gm, b, s, r[k]);
      }
      RingKeep(m, m', r);
    }
  }

  lemma KeepTags(m: Mem, m': Mem, gm: int, lo: int, hi: int, b: Binned, at: map<int, Pos>)
    requires AllTagged(m, b, at) && SameInside(m, m', gm, b)
    ensures AllTagged(m', b, at)
  {
    forall p {:trigger Tagged(m', b, at, p)} | p in b && !IsSmall(b[p]) ensures Tagged(m', b, at, p) {
      assert Tagged(m, b, at, p);
      assert Rd(m', p + INDEX) == Rd(m, p + INDEX);
    }
  }

  lemma KeepTrees(m: Mem, m': Mem, gm: int, lo: int, hi: int, b: Binned, ix: Index)
    requires Trees(m, gm, ix.nodes, ix.roots) && Seated(b, ix) && SameInside(m, m', gm, b)
    ensures Trees(m', gm, ix.nodes, ix.roots)
  {
    forall q | q in ix.nodes ensures ix.nodes[q] in b && !IsSmall(b[ix.nodes[q]]) {}
    TreesKeep(m, m', gm, ix.nodes, ix.roots);
  }

  lemma KeepIndex(m: Mem, m': Mem, gm: int, lo: int, hi: int, b: Binned, ix: Index, smallmap: int, treemap: int)
    requires Indexed(m, gm, lo, hi, b, ix, smallmap, treemap) && SameInside(m, m', gm, b)
    ensures Indexed(m', gm, lo, hi, b, ix, smallmap, treemap)
  {
    KeepRings(m, m', gm, lo, hi, b, ix.lists);
    KeepTags(m, m', gm, lo, hi, b, ix.at);
    KeepTrees(m, m', gm, lo, hi, b, ix);
    assert Indexed(m', gm, lo, hi, b, ix, smallmap, treemap);
  }

  // ---- `unlink_small_chunk`, `unlink_first_small_chunk` ----

  /** The stores that take a node out of its ring. */
  function Bypassed(m: Mem, f: int, k: int): Mem { m[f + BK := k][k + FD := f] }

  /** In a ring with a header, the neighbours of a node point back at it and are one node only if it is alone. */
  lemma HeadedLinks(m: Mem, h: int, l: seq<int>, j: int, p: int)
    requires Ring(m, [h] + l) && Spaced([h] + l) && 0 <= j < |l| && l[j] == p
    ensures var f, k := Rd(m, p + FD), Rd(m, p + BK);
            && Rd(m, f + BK) == p && Rd(m, k + FD) == p && (f == k <==> |l| == 1)
            && (f == h || f in l) && (k == h || k in l)
            && Removed(m, [h] + l, j + 1) == Bypassed(m, f, k)
  {
    var r := [h] + l;
    RingNeighbours(m, r, j + 1);
    RingBackLinks(m, r, j + 1);
    var i, n := Next(|r|, j + 1), Prev(|r|, j + 1);
    if i > 0 { assert r[i] == l[i - 1]; }
    if n > 0 { assert r[n] == l[n - 1]; }
  }

  lemma UnlinkedIs(m: Mem, gm: int, lists: map<int, seq<int>>, s: int, j: int, p: int)
    requires s in lists && 0 <= j < |lists[s]| && lists[s][j] == p
    requires Ring(m, [Header(gm, s / 8)] + lists[s]) && Spaced([Header(gm, s / 8)] + lists[s])
    ensures SmallUnlinked(m, gm, lists, s, j) ==
              if Rd(m, p + FD) == Rd(m, p + BK) then m else Bypassed(m, Rd(m, p + FD), Rd(m, p + BK))
  {
    HeadedLinks(m, Header(gm, s / 8), lists[s], j, p);
  }

  lemma UnlinkSmallReads(m: Mem, gm: int, lo: int, hi: int, b: Binned, ix: Index, smallmap: nat, treemap: int,
                         p: int) returns (k: int)
    requires Indexed(m, gm, lo, hi, b, ix, smallmap, treemap) && Mapped(m, gm, lo, hi) && p in b
    requires IsSmall(b[p])
    ensures Sized(p, b[p], lo, hi) && b[p] in ix.lists && 0 <= k < |ix.lists[b[p]]| && ix.lists[b[p]][k] == p
    ensures Separate(gm, lo, hi, b) && smallmap < WORD && BM.Shows(smallmap, ix.smalls)
    ensures p + FD in m && p + BK in m && (Rd(m, p + FD) == Rd(m, p + BK) <==> |ix.lists[b[p]]| == 1)
    ensures NodeFor(gm, b, b[p], Rd(m, p + FD)) && NodeFor(gm, b, b[p], Rd(m, p + BK))
    ensures Rd(m, Rd(m, p + FD) + BK) == p && Rd(m, Rd(m, p + BK) + FD) == p
    ensures SmallUnlinked(m, gm, ix.lists, b[p], k) ==
              if Rd(m, p + FD) == Rd(m, p + BK) then m else Bypassed(m, Rd(m, p + FD), Rd(m, p + BK))
  {
    hide Indexed; hide Separate; hide BM.Shows; hide Ring; hide Spaced;
    k := SmallPlace(m, gm, lo, hi, b, ix, smallmap, treemap, p);
    HeadedLinks(m, Header(gm, b[p] / 8), ix.lists[b[p]], k, p);
    UnlinkedIs(m, gm, ix.lists, b[p], k, p);
    MappedChunk(m, gm, lo, hi, p, b[p]);
  }

  lemma SmallPlace(m: Mem, gm: int, lo: int, hi: int, b: Binned, ix: Index, smallmap: nat, treemap: int,
                   p: int) returns (k: int)
    requires Indexed(m, gm, lo, hi, b, ix, smallmap, treemap) && p in b && IsSmall(b[p])
    ensures Sized(p, b[p], lo, hi) && b[p] in ix.lists && 0 <= k < |ix.lists[b[p]]| && ix.lists[b[p]][k] == p
    ensures Separate(gm, lo, hi, b) && smallmap < WORD && BM.Shows(smallmap, ix.smalls)
    ensures Ring(m, [Header(gm, b[p] / 8)] + ix.lists[b[p]]) && Spaced([Header(gm, b[p] / 8)] + ix.lists[b[p]])
    ensures forall x :: x in ix.lists[b[p]] ==> x in b && b[x] == b[p]
  {
    hide AllTagged; hide Trees; hide Trie; hide Seated;
    var s := b[p];
    assert Sized(p, s, lo, hi);
    k :| 0 <= k < |ix.lists[s]| && ix.lists[s][k] == p;
    assert RingAt(m, gm, ix.lists, s);
    SmallRingSpaced(gm, lo, hi, b, ix.lists, s);
  }

  /** `unlink_small_chunk`: the run-time checks hold, and its writes keep the index. */
  lemma UnlinkSmallStep(m: Mem, gm: int, lo: int, hi: int, b: Binned, ix: Index, smallmap: nat, treemap: int, p: int)
    returns (f: int, k: int, ix': Index)
    requires Indexed(m, gm, lo, hi, b, ix, smallmap, treemap) && Mapped(m, gm, lo, hi) && p in b
    requires IsSmall(b[p])
    ensures 16 <= b[p] && b[p] % 8 == 0 && p + FD in m && p + BK in m && f == m[p + FD] && k == m[p + BK]
    ensures f + BK in m && k + FD in m && m[f + BK] == p && m[k + FD] == p
    ensures f == k ==> Indexed(m, gm, lo, hi, b - {p}, ix', BM.Clear(smallmap, b[p] / 8), treemap)
    ensures f != k ==> Indexed(Bypassed(m, f, k), gm, lo, hi, b - {p}, ix', smallmap, treemap)
    ensures Mapped(Bypassed(m, f, k), gm, lo, hi) && Touches(m, Bypassed(m, f, k), gm, b)
  {
    hide Indexed; hide Mapped; hide BM.Shows;
    var s := b[p];
    var j := UnlinkSmallReads(m, gm, lo, hi, b, ix, smallmap, treemap, p);
    f, k := Rd(m, p + FD), Rd(m, p + BK);
    MappedNode(m, gm, lo, hi, b, s, f);
    MappedNode(m, gm, lo, hi, b, s, k);
    ix' := SmallIndexLess(ix, s, Without(ix.lists[s], j));
    BM.ClearSet(smallmap, ix.smalls, s / 8);
    RemoveSmall(m, gm, lo, hi, b, ix, smallmap, treemap, p, j, if f == k then BM.Clear(smallmap, s / 8) else smallmap);
    RelinkTouches(m, gm, lo, hi, b, s, f, k);
    MappedMore(m, Bypassed(m, f, k), gm, lo, hi);
  }

  lemma MappedNode(m: Mem, gm: int, lo: int, hi: int, b: Binned, s: int, x: int)
    requires Mapped(m, gm, lo, hi) && Separate(gm, lo, hi, b) && NodeFor(gm, b, s, x) && 0 <= s
    ensures x + FD in m && x + BK in m
  {
    if x in b { MappedChunk(m, gm, lo, hi, x, b[x]); } else { MappedHeader(m, gm, lo, hi, s); }
  }

  lemma RelinkTouches(m: Mem, gm: int, lo: int, hi: int, b: Binned, s: int, f: int, k: int)
    requires Separate(gm, lo, hi, b) && NodeFor(gm, b, s, f) && NodeFor(gm, b, s, k) && 0 <= s
    ensures Touches(m, m[f + BK := k][k + FD := f], gm, b)
  {
    if f in b { assert Sized(f, b[f], lo, hi); }
    if k in b { assert Sized(k, b[k], lo, hi); }
  }

  lemma FirstList(m: Mem, gm: int, lo: int, hi: int, b: Binned, ix: Index, smallmap: int, treemap: int, i: int)
    requires Indexed(m, gm, lo, hi, b, ix, smallmap, treemap) && i in ix.smalls
    ensures 2 <= i < 32 && 8 * i in ix.lists && |ix.lists[8 * i]| > 0
    ensures var p := ix.lists[8 * i][0]; p in b && b[p] == 8 * i && Ring(m, [Header(gm, i)] + ix.lists[8 * i])
  {
    hide AllTagged; hide Trees; hide Trie; hide Seated; hide Ring; hide BM.Shows;
    var p := ix.lists[8 * i][0];
    assert Sized(p, b[p], lo, hi);
    assert RingAt(m, gm, ix.lists, 8 * i);
    assert 8 * i / 8 == i;
  }

  /** The first chunk of a marked small bin: its bk is the header. */
  lemma FirstSmall(m: Mem, gm: int, lo: int, hi: int, b: Binned, ix: Index, smallmap: int, treemap: int, i: int)
    requires Indexed(m, gm, lo, hi, b, ix, smallmap, treemap) && Mapped(m, gm, lo, hi) && i in ix.smalls
    ensures Header(gm, i) + FD in m && 2 <= i < 32
    ensures var p := m[Header(gm, i) + FD]; p in b && b[p] == 8 * i && Rd(m, p + BK) == Header(gm, i)
  {
    hide Indexed; hide Mapped; hide Ring;
    FirstList(m, gm, lo, hi, b, ix, smallmap, treemap, i);
    MappedHeader(m, gm, lo, hi, 8 * i);
    assert 8 * i / 8 == i;
    var r := [Header(gm, i)] + ix.lists[8 * i];
    RingNeighbours(m, r, 0);
    RingNeighbours(m, r, 1);
  }

  lemma SmallFacts(m: Mem, gm: int, lo: int, hi: int, b: Binned, ix: Index, smallmap: nat, treemap: int)
    requires Indexed(m, gm, lo, hi, b, ix, smallmap, treemap)
    ensures smallmap < WORD && BM.Shows(smallmap, ix.smalls) && forall i :: i in ix.smalls ==> 0 <= i < 32
    ensures forall p :: p in b && IsSmall(b[p]) ==> b[p] % 8 == 0 && b[p] / 8 in ix.smalls
  {
    hide AllTagged; hide Trees; hide Trie; hide Seated; hide AllRings;
  }
}
