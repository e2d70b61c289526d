/** Tree bins: linking a large chunk in and taking it out keeps the whole index consistent. */
module LargeBins {
  import opened Words
  import opened Rings
  import opened TreeIndex
  import opened SizeTrie
  import opened TreeLinks
  import opened Bins
  import BM = BinMaps

  /** A word that only the tree structure uses: a root pointer or a tree word of a large binned chunk. */
  ghost predicate TreeSpot(gm: int, b: Binned, w: int) {
    || gm + 264 <= w < gm + 392
    || (exists y :: y in b && !IsSmall(b[y]) && y + LEFT <= w <= y + INDEX)
  }

  ghost predicate OnlyTree(m: Mem, m': Mem, gm: int, b: Binned) {
    forall w {:trigger Rd(m', w)} :: !TreeSpot(gm, b, w) ==> Rd(m', w) == Rd(m, w)
  }

  lemma RingWordsNotTree(gm: int, lo: int, hi: int, b: Binned, s: int, x: int)
    requires Separate(gm, lo, hi, b) && 16 <= s && NodeFor(gm, b, s, x)
    ensures !TreeSpot(gm, b, x + FD) && !TreeSpot(gm, b, x + BK)
  {
    forall y | y in b && !IsSmall(b[y])
      ensures !(y + LEFT <= x + FD <= y + INDEX) && !(y + LEFT <= x + BK <= y + INDEX)
    {
      assert Sized(y, b[y], lo, hi);
      if x in b && x != y { assert Away(b, x, y); }
    }
  }

  /** Tree words are not ring words. */
  lemma TreeWritesKeepRing(m: Mem, m': Mem, gm: int, lo: int, hi: int, b: Binned, lists: map<int, seq<int>>, s: int)
    requires Separate(gm, lo, hi, b) && OnlyTree(m, m', gm, b)
    requires s in lists && RingAt(m, gm, lists, s) && 16 <= s
    requires forall k :: 0 <= k < |lists[s]| ==> lists[s][k] in b && b[lists[s][k]] == s
    ensures RingAt(m', gm, lists, s)
  {
    var r := RingOf(gm, lists, s);
    forall k | 0 <= k < |r|
      ensures Rd(m', r[k] + FD) == Rd(m, r[k] + FD) && Rd(m', r[k] + BK) == Rd(m, r[k] + BK)
    {
      assert NodeFor(gm, b, s, r[k]);
      RingWordsNotTree(gm, lo, hi, b, s, r[k]);
    }
    RingKeep(m, m', r);
  }

  lemma TreeWritesKeepRings(m: Mem, m': Mem, gm: int, lo: int, hi: int, b: Binned, b': Binned, lists: map<int,
                            seq<int>>)
    requires Separate(gm, lo, hi, b) && Separate(gm, lo, hi, b') && Listed(b, lists) && OnlyTree(m, m', gm, b')
    requires AllRings(m, gm, lists) && forall x :: x in b ==> x in b' && b'[x] == b[x]
    ensures AllRings(m', gm, lists)
  {
    forall s {:trigger RingAt(m', gm, lists, s)} | s in lists ensures RingAt(m', gm, lists, s) {
      assert RingAt(m, gm, lists, s);
      ListedSizes(gm, lo, hi, b, lists, s);
      TreeWritesKeepRing(m, m', gm, lo, hi, b', lists, s);
    }
  }

  // ---- A size not yet in the trees ----

  ghost function PlantIndex(ix: Index, q: Pos, x: int, s: int): Index {
    ix.(lists := ix.lists[s := [x]], nodes := ix.nodes[q := x], at := ix.at[x := q], roots := WithRoot(ix.roots, q))
  }

  lemma PlantOnlyTree(m: Mem, m': Mem, gm: int, b: Binned, ix: Index, q: Pos, x: int, s: int)
    requires Seated(b, ix) && Planted(m, m', gm, ix.nodes, q, x) && !IsSmall(s)
    requires if q.Kid? then q.up in ix.nodes else 0 <= q.bin < 32
    ensures OnlyTree(m, m', gm, b[x := s])
  {
    var b' := b[x := s];
    assert forall w :: x + LEFT <= w <= x + INDEX ==> TreeSpot(gm, b', w) by { assert x in b' && b'[x] == s; }
    assert TreeSpot(gm, b', Slot(gm, ix.nodes, q)) by {
      if q.Kid? {
        var y := ix.nodes[q.up];
        assert y in b' && !IsSmall(b'[y]) && y + LEFT <= Slot(gm, ix.nodes, q) <= y + INDEX;
      }
    }
  }

  lemma PlantRings(m: Mem, m1: Mem, m': Mem, gm: int, lo: int, hi: int, b: Binned, ix: Index, q: Pos, x: int, s: int)
    requires Separate(gm, lo, hi, b) && Separate(gm, lo, hi, b[x := s]) && x !in b && !IsSmall(s) && s !in ix.lists
    requires Listed(b, ix.lists) && AllRings(m, gm, ix.lists) && OnlyTree(m, m1, gm, b[x := s])
    requires m' == m1[x + FD := x][x + BK := x]
    ensures AllRings(m', gm, ix.lists[s := [x]]) && Listed(b[x := s], ix.lists[s := [x]])
  {
    var b', lists' := b[x := s], ix.lists[s := [x]];
    assert Sized(x, b'[x], lo, hi);
    TreeWritesKeepRings(m, m1, gm, lo, hi, b, b', ix.lists);
    ListedInsert(b, ix.lists, x, s, [x]);
    assert Relinked(m1, m', x, x, x);
    assert Linked(m', [x], 0);
    assert RingAt(m', gm, lists', s);
    OtherRings(m1, m', gm, lo, hi, b, b', ix.lists, lists', s, x, x, x);
  }

  lemma PlantTag(m: Mem, m1: Mem, gm: int, b: Binned, ix: Index, q: Pos, x: int, p: int)
    requires Planted(m, m1, gm, ix.nodes, q, x) && p in b && !IsSmall(b[p]) && Tagged(m, b, ix.at, p)
    requires Clear(x, p) && (p + 32 <= gm || gm + 392 <= p)
    requires if q.Kid? then q.up in ix.nodes && ix.nodes[q.up] in ix.at && (ix.nodes[q.up] == p || Clear(ix.nodes[q.up], p))
             else 0 <= q.bin < 32
    ensures InBin(b[p], Rd(m1, p + INDEX))
    ensures p !in ix.at ==> Rd(m1, p + LEFT) == 0 && Rd(m1, p + RIGHT) == 0 && Rd(m1, p + PARENT) == 0
  {
    assert Rd(m1, p + INDEX) == Rd(m, p + INDEX);
  }

  /** Large binned chunks leave room for the tree words between them. */
  lemma LargeClear(gm: int, lo: int, hi: int, b: Binned, x: int, p: int)
    requires Separate(gm, lo, hi, b) && x in b && p in b && !IsSmall(b[x]) && !IsSmall(b[p])
    ensures OffBins(gm, p) && (x != p ==> Clear(x, p))
  {
    assert Sized(p, b[p], lo, hi) && Sized(x, b[x], lo, hi);
    if x != p { assert Away(b, x, p); }
  }

  lemma PlantTags(m: Mem, m1: Mem, gm: int, lo: int, hi: int, b: Binned, ix: Index, q: Pos, x: int, s: int)
    requires Separate(gm, lo, hi, b[x := s]) && x !in b && !IsSmall(s) && Seated(b, ix) && AllTagged(m, b, ix.at)
    requires Planted(m, m1, gm, ix.nodes, q, x) && InBin(s, Bin(q))
    requires if q.Kid? then q.up in ix.nodes else 0 <= q.bin < 32
    ensures AllTagged(m1, b[x := s], ix.at[x := q])
  {
    var b', at' := b[x := s], ix.at[x := q];
    forall p {:trigger Tagged(m1, b', at', p)} | p in b' && !IsSmall(b'[p]) ensures Tagged(m1, b', at', p) {
      if p != x {
        assert Tagged(m, b, ix.at, p);
        LargeClear(gm, lo, hi, b', x, p);
        if q.Kid? { LargeClear(gm, lo, hi, b', ix.nodes[q.up], p); }
        PlantTag(m, m1, gm, b, ix, q, x, p);
      }
    }
  }

  lemma PlantSeats(b: Binned, ix: Index, q: Pos, x: int, s: int)
    requires Seated(b, ix) && x !in b && !IsSmall(s) && s !in ix.lists && q !in ix.nodes
    ensures Seated(b[x := s], PlantIndex(ix, q, x, s))
  {
    var b', ix' := b[x := s], PlantIndex(ix, q, x, s);
    forall r | r in ix'.nodes ensures ix'.nodes[r] in ix'.at && ix'.at[ix'.nodes[r]] == r {
      if r != q { assert ix.nodes[r] in ix.at; }
    }
    forall y | y in ix'.at ensures b'[y] in ix'.lists && |ix'.lists[b'[y]]| > 0 && ix'.lists[b'[y]][0] == y {
      if y != x { assert b[y] in ix.lists; }
    }
  }

  lemma PlantSizes(b: Binned, ix: Index, q: Pos, x: int, s: int)
    requires Seated(b, ix) && x !in b
    ensures Sizes(ix.nodes[q := x], b[x := s]) == Sizes(ix.nodes, b)[q := s]
  {
    forall r | r in ix.nodes && r != q ensures SizeIn(b[x := s], ix.nodes[r]) == SizeIn(b, ix.nodes[r]) {
      assert ix.nodes[r] in ix.at;
    }
  }

  lemma PlantTrie(gm: int, b: Binned, ix: Index, q: Pos, x: int, s: int)
    requires Seated(b, ix) && Listed(b, ix.lists) && Trie(Sizes(ix.nodes, b)) && x !in b && s !in ix.lists
    requires q !in ix.nodes
    requires SizeAt(s, q) && (if q.Kid? then q.up in ix.nodes else IsRoot(q)) && !IsSmall(s)
    ensures Trie(Sizes(ix.nodes[q := x], b[x := s]))
  {
    PlantSizes(b, ix, q, x, s);
    TrieInsert(Sizes(ix.nodes, b), q, s);
  }

  lemma PlantMaps(ix: Index, smallmap: int, treemap: int, q: Pos, x: int, s: int, treemap': int)
    requires Maps(ix, smallmap, treemap) && !IsSmall(s)
    requires 0 <= treemap' < WORD && BM.Shows(treemap', WithRoot(ix.roots, q).Keys)
    ensures Maps(PlantIndex(ix, q, x, s), smallmap, treemap')
  {
  }

  lemma PlantLarge(m: Mem, m1: Mem, m': Mem, gm: int, lo: int, hi: int, b: Binned, ix: Index, smallmap: int,
                   treemap: int,
                   q: Pos, x: int, s: int, treemap': int)
    requires Indexed(m, gm, lo, hi, b, ix, smallmap, treemap)
    requires x !in b && !IsSmall(s) && s !in ix.lists && Separate(gm, lo, hi, b[x := s])
    requires CanPlant(gm, ix.nodes, ix.roots, q, x) && SizeAt(s, q) && (q.Root? ==> IsRoot(q))
    requires Planted(m, m1, gm, ix.nodes, q, x) && m' == m1[x + FD := x][x + BK := x]
    requires 0 <= treemap' < WORD && BM.Shows(treemap', WithRoot(ix.roots, q).Keys)
    ensures Indexed(m', gm, lo, hi, b[x := s], PlantIndex(ix, q, x, s), smallmap, treemap')
  {
    var b', ix' := b[x := s], PlantIndex(ix, q, x, s);
    assert Sized(x, b'[x], lo, hi);
    PlantOnlyTree(m, m1, gm, b, ix, q, x, s);
    PlantRings(m, m1, m', gm, lo, hi, b, ix, q, x, s);
    PlantTags(m, m1, gm, lo, hi, b, ix, q, x, s);
    assert Relinked(m1, m', x, x, x);
    RelinkKeepsTags(m1, m', gm, lo, hi, b', ix'.at, s, x, x, x);
    PlantSeats(b, ix, q, x, s);
    Plant(m, m1, gm, ix.nodes, ix.roots, q, x);
    RelinkKeepsTrees(m1, m', gm, lo, hi, b', ix', s, x, x, x);
    PlantTrie(gm, b, ix, q, x, s);
    PlantMaps(ix, smallmap, treemap, q, x, s, treemap');
    assert Indexed(m', gm, lo, hi, b[x := s], PlantIndex(ix, q, x, s), smallmap, treemap');
  }

  // ---- Another chunk of a size already in the trees ----

  ghost function Chain(l: seq<int>, x: int): seq<int>
    requires |l| > 0
  {
    [l[0], x] + l[1..]
  }

  ghost function ChainIndex(ix: Index, x: int, s: int): Index
    requires s in ix.lists && |ix.lists[s]| > 0
  {
    ix.(lists := ix.lists[s := Chain(ix.lists[s], x)])
  }

  /** The tree words of a chunk that hangs off a tree node of its size. */
  ghost predicate Hangs(m: Mem, x: int, i: int) {
    Rd(m, x + LEFT) == 0 && Rd(m, x + RIGHT) == 0 && Rd(m, x + PARENT) == 0 && Rd(m, x + INDEX) == i
  }

  ghost function TreeWords(x: int): set<int> { {x + LEFT, x + RIGHT, x + PARENT, x + INDEX} }

  lemma ChainListed(b: Binned, lists: map<int, seq<int>>, x: int, s: int)
    requires Listed(b, lists) && x !in b && s in lists
    ensures Listed(b[x := s], lists[s := Chain(lists[s], x)])
  {
    var l := Chain(lists[s], x);
    assert lists[s] == [lists[s][0]] + lists[s][1..];
    ListedInsert(b, lists, x, s, l);
  }

  lemma ChainRings(m: Mem, gm: int, lo: int, hi: int, b: Binned, lists: map<int, seq<int>>, x: int, s: int)
    requires Separate(gm, lo, hi, b) && Separate(gm, lo, hi, b[x := s]) && Listed(b, lists) && AllRings(m, gm, lists)
    requires x !in b && !IsSmall(s) && s in lists
    ensures var m' := Inserted(m, lists[s], x); var x2 := lists[s][Next(|lists[s]|, 0)];
            && AllRings(m', gm, lists[s := Chain(lists[s], x)]) && Relinked(m, m', lists[s][0], x2, x)
            && NodeFor(gm, b[x := s], s, lists[s][0]) && NodeFor(gm, b[x := s], s, x2) && 16 <= s && s % 8 == 0
  {
    var l, b' := lists[s], b[x := s];
    var m', lists' := Inserted(m, l, x), lists[s := Chain(l, x)];
    assert Sized(x, b'[x], lo, hi);
    assert RingAt(m, gm, lists, s);
    NodesSpaced(gm, lo, hi, b, s, l);
    forall k | 0 <= k < |l| ensures Apart(x, l[k]) { assert Away(b', x, l[k]) && Sized(l[k], b'[l[k]], lo, hi); }
    RingInsert(m, l, x);
    ChainListed(b, lists, x, s);
    assert RingAt(m', gm, lists', s);
    OtherRings(m, m', gm, lo, hi, b, b', lists, lists', s, l[0], l[Next(|l|, 0)], x);
  }

  /** Tree words of a chunk that is not a tree node change no tree. */
  lemma HangKeepsTrees(m: Mem, m': Mem, gm: int, lo: int, hi: int, b: Binned, ix: Index, x: int)
    requires Separate(gm, lo, hi, b) && x in b && !IsSmall(b[x]) && Only(m, m', TreeWords(x))
    requires Trees(m, gm, ix.nodes, ix.roots)
    requires forall q :: q in ix.nodes ==> ix.nodes[q] in b && !IsSmall(b[ix.nodes[q]]) && ix.nodes[q] != x
    ensures Trees(m', gm, ix.nodes, ix.roots)
  {
    forall q | q in ix.nodes
      ensures Rd(m', ix.nodes[q] + LEFT) == Rd(m, ix.nodes[q] + LEFT)
      ensures Rd(m', ix.nodes[q] + RIGHT) == Rd(m, ix.nodes[q] + RIGHT)
      ensures Rd(m', ix.nodes[q] + PARENT) == Rd(m, ix.nodes[q] + PARENT)
      ensures Rd(m', ix.nodes[q] + INDEX) == Rd(m, ix.nodes[q] + INDEX)
    {
      LargeClear(gm, lo, hi, b, x, ix.nodes[q]);
    }
    LargeClear(gm, lo, hi, b, x, x);
    TreesKeep(m, m', gm, ix.nodes, ix.roots);
  }

  lemma ChainTags(m: Mem, mi: Mem, m': Mem, gm: int, lo: int, hi: int, b: Binned, at: map<int, Pos>,
                  x: int, s: int, i: int, x1: int, x2: int)
    requires Separate(gm, lo, hi, b[x := s]) && x !in b && !IsSmall(s) && AllTagged(m, b, at) && 16 <= s && s % 8 == 0
    requires Relinked(m, mi, x1, x2, x) && NodeFor(gm, b[x := s], s, x1) && NodeFor(gm, b[x := s], s, x2)
    requires Only(mi, m', TreeWords(x)) && Hangs(m', x, i) && InBin(s, i)
    ensures AllTagged(m', b[x := s], at)
  {
    var b' := b[x := s];
    forall p {:trigger Tagged(m', b', at, p)} | p in b' && !IsSmall(b'[p]) ensures Tagged(m', b', at, p) {
      if p != x {
        assert Tagged(m, b, at, p);
        RingWordsMissTree(m, mi, gm, lo, hi, b', s, x1, x2, x, p);
        LargeClear(gm, lo, hi, b', x, p);
      }
    }
  }

  lemma ChainSeats(b: Binned, ix: Index, x: int, s: int)
    requires Seated(b, ix) && Listed(b, ix.lists) && x !in b && !IsSmall(s) && s in ix.lists
    ensures Seated(b[x := s], ChainIndex(ix, x, s)) && Sizes(ix.nodes, b[x := s]) == Sizes(ix.nodes, b)
  {
  }

  lemma WriteOnlyTree(m: Mem, m': Mem, gm: int, b: Binned, x: int)
    requires x in b && !IsSmall(b[x]) && Only(m, m', TreeWords(x))
    ensures OnlyTree(m, m', gm, b)
  {
    forall w {:trigger Rd(m', w)} | !TreeSpot(gm, b, w) ensures Rd(m', w) == Rd(m, w) {
      assert !(x + LEFT <= w <= x + INDEX);
    }
  }

  lemma ChainLarge(m: Mem, m': Mem, gm: int, lo: int, hi: int, b: Binned, ix: Index, smallmap: int, treemap: int,
                   x: int, s: int, i: int)
    requires Indexed(m, gm, lo, hi, b, ix, smallmap, treemap)
    requires x !in b && !IsSmall(s) && s in ix.lists && Separate(gm, lo, hi, b[x := s])
    requires Only(Inserted(m, ix.lists[s], x), m', TreeWords(x)) && Hangs(m', x, i) && InBin(s, i)
    ensures Indexed(m', gm, lo, hi, b[x := s], ChainIndex(ix, x, s), smallmap, treemap)
  {
    var b', ix', mi := b[x := s], ChainIndex(ix, x, s), Inserted(m, ix.lists[s], x);
    var x1, x2 := ix.lists[s][0], ix.lists[s][Next(|ix.lists[s]|, 0)];
    ChainRings(m, gm, lo, hi, b, ix.lists, x, s);
    ChainListed(b, ix.lists, x, s);
    WriteOnlyTree(mi, m', gm, b', x);
    TreeWritesKeepRings(mi, m', gm, lo, hi, b', b', ix'.lists);
    ChainTags(m, mi, m', gm, lo, hi, b, ix.at, x, s, i, x1, x2);
    ChainSeats(b, ix, x, s);
    RelinkKeepsTrees(m, mi, gm, lo, hi, b', ix, s, x1, x2, x);
    HangKeepsTrees(mi, m', gm, lo, hi, b', ix, x);
    assert Indexed(m', gm, lo, hi, b[x := s], ChainIndex(ix, x, s), smallmap, treemap);
  }

  // ---- Taking out a chunk that is not a tree node ----

  ghost function UnchainIndex(ix: Index, s: int, k: int): Index
    requires s in ix.lists && 0 <= k < |ix.lists[s]|
  {
    ix.(lists := ix.lists[s := Without(ix.lists[s], k)])
  }

  lemma UnchainRings(m: Mem, gm: int, lo: int, hi: int, b: Binned, lists: map<int, seq<int>>, s: int, k: int)
    requires Separate(gm, lo, hi, b) && Listed(b, lists) && AllRings(m, gm, lists)
    requires s in lists && !IsSmall(s) && 0 <= k < |lists[s]| && |lists[s]| >= 2
    ensures var l := lists[s]; var m' := Removed(m, l, k); var w := Without(l, k);
            var x1, x2 := l[Prev(|l|, k)], l[Next(|l|, k)];
            && Listed(b - {l[k]}, lists[s := w]) && AllRings(m', gm, lists[s := w])
            && Relinked(m, m', x1, x2, x1) && NodeFor(gm, b, s, x1) && NodeFor(gm, b, s, x2) && 16 <= s && s % 8 == 0
  {
    var l, p := lists[s], lists[s][k];
    var m', w := Removed(m, l, k), Without(l, k);
    ListedSizes(gm, lo, hi, b, lists, s);
    SeparateLess(gm, lo, hi, b, p);
    WithoutMembers(l, k);
    ListedRemove(b, lists, p, w);
    assert RingAt(m, gm, lists, s);
    NodesSpaced(gm, lo, hi, b, s, l);
    RingRemove(m, l, k);
    assert RingAt(m', gm, lists[s := w], s);
    OtherRings(m, m', gm, lo, hi, b, b - {p}, lists, lists[s := w], s, l[Prev(|l|, k)], l[Next(|l|, k)],
               l[Prev(|l|, k)]);
  }

  lemma UnchainSeats(b: Binned, ix: Index, s: int, k: int)
    requires Seated(b, ix) && Listed(b, ix.lists) && !IsSmall(s) && s in ix.lists && 1 <= k < |ix.lists[s]|
    ensures ix.lists[s][k] !in ix.at
    ensures Seated(b - {ix.lists[s][k]}, UnchainIndex(ix, s, k))
    ensures Sizes(ix.nodes, b - {ix.lists[s][k]}) == Sizes(ix.nodes, b)
  {
    assert Without(ix.lists[s], k)[0] == ix.lists[s][0];
  }

  lemma UnchainLarge(m: Mem, gm: int, lo: int, hi: int, b: Binned, ix: Index, smallmap: int, treemap: int, p: int,
                     k: int)
    requires Indexed(m, gm, lo, hi, b, ix, smallmap, treemap)
    requires p in b && !IsSmall(b[p]) && 1 <= k < |ix.lists[b[p]]| && ix.lists[b[p]][k] == p
    ensures Indexed(Removed(m, ix.lists[b[p]], k), gm, lo, hi, b - {p}, UnchainIndex(ix, b[p], k), smallmap,
                      treemap)
  {
    var s := b[p];
    var l, m' := ix.lists[s], Removed(m, ix.lists[s], k);
    var x1, x2 := l[Prev(|l|, k)], l[Next(|l|, k)];
    SeparateLess(gm, lo, hi, b, p);
    UnchainRings(m, gm, lo, hi, b, ix.lists, s, k);
    UnchainSeats(b, ix, s, k);
    RelinkKeepsTrees(m, m', gm, lo, hi, b, ix, s, x1, x2, x1);
    LessTags(m, m', gm, lo, hi, b, ix.at, p, x1, x2);
    assert Indexed(Removed(m, ix.lists[b[p]], k), gm, lo, hi, b - {p}, UnchainIndex(ix, b[p], k), smallmap, treemap);
  }

  // ---- Writes of a swap ----

  /** The neighbours of place q are large chunks of b. */
  ghost predicate Around(b: Binned, nodes: Nodes, q: Pos) {
    && (if q.Kid? then q.up in nodes && nodes[q.up] in b && !IsSmall(b[nodes[q.up]]) else 0 <= q.bin < 32)
    && (Kid(q, false) in nodes ==> nodes[Kid(q, false)] in b && !IsSmall(b[nodes[Kid(q, false)]]))
    && (Kid(q, true) in nodes ==> nodes[Kid(q, true)] in b && !IsSmall(b[nodes[Kid(q, true)]]))
  }

  lemma SpotOf(gm: int, b: Binned, x: int, w: int)
    requires x in b && !IsSmall(b[x]) && x + LEFT <= w <= x + INDEX
    ensures TreeSpot(gm, b, w)
  {
  }

  lemma SwapOnlyTree(m: Mem, m': Mem, gm: int, b: Binned, nodes: Nodes, q: Pos, y: int)
    requires Swapped(m, m', gm, nodes, q, y) && y in b && !IsSmall(b[y]) && Around(b, nodes, q)
    ensures OnlyTree(m, m', gm, b)
  {
    var c0, c1 := NodeAt(nodes, Kid(q, false)), NodeAt(nodes, Kid(q, true));
    var ws := {y + LEFT, y + RIGHT, y + PARENT, Slot(gm, nodes, q)} + KidWords(c0) + KidWords(c1);
    forall w | w in ws ensures TreeSpot(gm, b, w) {
      if w == y + LEFT || w == y + RIGHT || w == y + PARENT { SpotOf(gm, b, y, w); }
      else if w == Slot(gm, nodes, q) { if q.Kid? { SpotOf(gm, b, nodes[q.up], w); } }
      else if w in KidWords(c0) { SpotOf(gm, b, c0, w); }
      else { SpotOf(gm, b, c1, w); }
    }
  }

  /** A swap writes no index word, and no other tree word of a chunk outside the tree. */
  lemma SwapMisses(m: Mem, m': Mem, gm: int, lo: int, hi: int, b: Binned, nodes: Nodes, q: Pos, y: int, p: int)
    requires Separate(gm, lo, hi, b) && Swapped(m, m', gm, nodes, q, y) && y in b && !IsSmall(b[y])
    requires Around(b, nodes, q)
    requires p in b && !IsSmall(b[p])
    ensures Rd(m', p + INDEX) == Rd(m, p + INDEX)
    ensures p != y && (forall r :: r in nodes ==> nodes[r] != p) ==>
              Rd(m', p + LEFT) == Rd(m, p + LEFT) && Rd(m', p + RIGHT) == Rd(m, p + RIGHT) && Rd(m', p + PARENT) == Rd(m, p + PARENT)
  {
    LargeClear(gm, lo, hi, b, y, p);
    if q.Kid? { LargeClear(gm, lo, hi, b, nodes[q.up], p); }
    if Kid(q, false) in nodes { LargeClear(gm, lo, hi, b, nodes[Kid(q, false)], p); }
    if Kid(q, true) in nodes { LargeClear(gm, lo, hi, b, nodes[Kid(q, true)], p); }
  }

  lemma SwapTags(m: Mem, m': Mem, gm: int, lo: int, hi: int, b: Binned, at: map<int, Pos>, nodes: Nodes, q: Pos, y: int)
    requires Separate(gm, lo, hi, b) && Swapped(m, m', gm, nodes, q, y) && y in b && !IsSmall(b[y])
    requires Around(b, nodes, q)
    requires AllTagged(m, b, at) && forall r :: r in nodes ==> nodes[r] !in b || nodes[r] in at
    ensures AllTagged(m', b, at[y := q])
  {
    var at' := at[y := q];
    forall p {:trigger Tagged(m', b, at', p)} | p in b && !IsSmall(b[p]) ensures Tagged(m', b, at', p) {
      assert Tagged(m, b, at, p);
      SwapMisses(m, m', gm, lo, hi, b, nodes, q, y, p);
    }
  }

  // ---- Taking out a tree node whose size has other chunks: the last of its ring takes its place ----

  ghost function Promoted(l: seq<int>): seq<int>
    requires |l| >= 2
  {
    [l[|l| - 1]] + l[1..|l| - 1]
  }

  ghost function PromoteIndex(ix: Index, s: int, q: Pos): Index
    requires s in ix.lists && |ix.lists[s]| >= 2
  {
    var l := ix.lists[s];
    var y := l[|l| - 1];
    ix.(lists := ix.lists[s := Promoted(l)], nodes := ix.nodes[q := y], at := (ix.at - {l[0]})[y := q])
  }

  lemma PromotedMembers(l: seq<int>)
    requires |l| >= 2 && NoDup(l)
    ensures NoDup(Promoted(l)) && forall x :: x in Promoted(l) <==> x != l[0] && x in l
  {
    var w := Promoted(l);
    forall x | x != l[0] && x in l ensures x in w {
      var j :| 0 <= j < |l| && l[j] == x;
      if j < |l| - 1 { assert w[j] == x; }
    }
  }

  lemma PromoteRing(m: Mem, l: seq<int>)
    requires Ring(m, l) && Spaced(l) && |l| >= 2
    ensures Ring(Removed(m, l, 0), Promoted(l))
  {
    var m', w := Removed(m, l, 0), l[..0] + l[1..];
    RingRemove(m, l, 0);
    assert w == l[1..];
    RingRotate(m', w);
    assert [w[|w| - 1]] + w[..|w| - 1] == Promoted(l);
  }

  lemma PromoteRings(m: Mem, gm: int, lo: int, hi: int, b: Binned, lists: map<int, seq<int>>, s: int)
    requires Separate(gm, lo, hi, b) && Listed(b, lists) && AllRings(m, gm, lists)
    requires s in lists && !IsSmall(s) && |lists[s]| >= 2
    ensures var l := lists[s]; var m' := Removed(m, l, 0); var w := Promoted(l);
            var x1, x2 := l[|l| - 1], l[1];
            && Listed(b - {l[0]}, lists[s := w]) && AllRings(m', gm, lists[s := w])
            && Relinked(m, m', x1, x2, x1) && NodeFor(gm, b, s, x1) && NodeFor(gm, b, s, x2) && 16 <= s && s % 8 == 0
  {
    var l, p := lists[s], lists[s][0];
    var m', w := Removed(m, l, 0), Promoted(l);
    ListedSizes(gm, lo, hi, b, lists, s);
    SeparateLess(gm, lo, hi, b, p);
    PromotedMembers(l);
    ListedRemove(b, lists, p, w);
    assert RingAt(m, gm, lists, s);
    NodesSpaced(gm, lo, hi, b, s, l);
    PromoteRing(m, l);
    assert RingAt(m', gm, lists[s := w], s);
    OtherRings(m, m', gm, lo, hi, b, b - {p}, lists, lists[s := w], s, l[|l| - 1], l[1], l[|l| - 1]);
  }

  lemma PromoteSeats(b: Binned, ix: Index, s: int)
    requires Seated(b, ix) && Listed(b, ix.lists) && !IsSmall(s) && s in ix.lists && |ix.lists[s]| >= 2
    ensures ix.lists[s][0] in ix.at && ix.lists[s][|ix.lists[s]| - 1] !in ix.at
    ensures Seated(b - {ix.lists[s][0]}, PromoteIndex(ix, s, ix.at[ix.lists[s][0]]))
  {
    var l := ix.lists[s];
    var x, y := l[0], l[|l| - 1];
    assert x != y && y !in ix.at;
  }

  lemma PromoteSizes(b: Binned, ix: Index, s: int)
    requires Seated(b, ix) && Listed(b, ix.lists) && !IsSmall(s) && s in ix.lists && |ix.lists[s]| >= 2
    ensures ix.lists[s][0] in ix.at
    ensures Sizes(ix.nodes[ix.at[ix.lists[s][0]] := ix.lists[s][|ix.lists[s]| - 1]], b - {ix.lists[s][0]}) == Sizes(ix.nodes, b)
  {
    var l := ix.lists[s];
    var x, y := l[0], l[|l| - 1];
    assert x != y && b[x] == s && b[y] == s;
    forall r | r in ix.nodes && r != ix.at[x] ensures ix.nodes[r] != x {}
  }

  /** A chained chunk carries the bin of the tree node of its size. */
  lemma ChainedBin(m: Mem, b: Binned, ix: Index, x: int, y: int)
    requires Seated(b, ix) && AllTagged(m, b, ix.at) && Trie(Sizes(ix.nodes, b))
    requires x in ix.at && y in b && b[y] == b[x]
    ensures Rd(m, y + INDEX) == Bin(ix.at[x])
  {
    var q, t := ix.at[x], Sizes(ix.nodes, b);
    assert Tagged(m, b, ix.at, y);
    assert t[q] == b[x] && SizeAt(t[q], q);
    BinsOrdered(b[x], Rd(m, y + INDEX), b[x], Bin(q));
  }

  lemma AroundNode(gm: int, b: Binned, ix: Index, x: int)
    requires Seated(b, ix) && Shape(gm, ix.nodes, ix.roots) && x in ix.at
    ensures Around(b - {x}, ix.nodes, ix.at[x])
  {
    var q := ix.at[x];
    assert Exp(Kid(q, false)) != Exp(q) && Exp(Kid(q, true)) != Exp(q) && (q.Kid? ==> Exp(q.up) != Exp(q));
  }

  lemma CanSwapIn(m: Mem, gm: int, lo: int, hi: int, b: Binned, nodes: Nodes, q: Pos, y: int)
    requires Separate(gm, lo, hi, b) && q in nodes && y in b && !IsSmall(b[y]) && Rd(m, y + INDEX) == Bin(q)
    requires forall r :: r in nodes ==> nodes[r] in b && !IsSmall(b[nodes[r]]) && nodes[r] != y
    ensures CanSwap(m, gm, nodes, q, y)
  {
    forall r {:trigger Clear(y, nodes[r])} | r in nodes ensures Clear(y, nodes[r]) {
      LargeClear(gm, lo, hi, b, y, nodes[r]);
    }
    LargeClear(gm, lo, hi, b, y, y);
    assert Sized(y, b[y], lo, hi);
  }

  lemma PromoteTrees(m: Mem, m1: Mem, m': Mem, gm: int, lo: int, hi: int, b: Binned, ix: Index, x: int, y: int, z: int)
    requires Separate(gm, lo, hi, b) && Seated(b, ix) && Trees(m, gm, ix.nodes, ix.roots)
    requires x in ix.at && y in b && z in b && b[y] == b[x] && b[z] == b[x] && y !in ix.at
    requires Rd(m, y + INDEX) == Bin(ix.at[x])
    requires Relinked(m, m1, y, z, y) && Swapped(m1, m', gm, ix.nodes, ix.at[x], y)
    ensures Trees(m', gm, ix.nodes[ix.at[x] := y], ix.roots)
  {
    assert Sized(x, b[x], lo, hi);
    RelinkKeepsTrees(m, m1, gm, lo, hi, b, ix, b[x], y, z, y);
    RingWordsMissTree(m, m1, gm, lo, hi, b, b[x], y, z, y, y);
    CanSwapIn(m1, gm, lo, hi, b, ix.nodes, ix.at[x], y);
    Swap(m1, m', gm, ix.nodes, ix.roots, ix.at[x], y);
  }

  lemma PromoteLarge(m: Mem, m1: Mem, m': Mem, gm: int, lo: int, hi: int, b: Binned, ix: Index, smallmap: int,
                     treemap: int, x: int)
    requires Indexed(m, gm, lo, hi, b, ix, smallmap, treemap)
    requires x in ix.at && x in b && |ix.lists[b[x]]| >= 2
    requires m1 == Removed(m, ix.lists[b[x]], 0)
    requires Swapped(m1, m', gm, ix.nodes, ix.at[x], ix.lists[b[x]][|ix.lists[b[x]]| - 1])
    ensures Indexed(m', gm, lo, hi, b - {x}, PromoteIndex(ix, b[x], ix.at[x]), smallmap, treemap)
  {
    var s, q, b' := b[x], ix.at[x], b - {x};
    var l := ix.lists[s];
    var y, z := l[|l| - 1], l[1];
    assert l[0] == x && y != x && b[y] == s && b[z] == s;
    SeparateLess(gm, lo, hi, b, x);
    PromoteRings(m, gm, lo, hi, b, ix.lists, s);
    PromoteSeats(b, ix, s);
    PromoteSizes(b, ix, s);
    ChainedBin(m, b, ix, x, y);
    PromoteTrees(m, m1, m', gm, lo, hi, b, ix, x, y, z);
    AroundNode(gm, b, ix, x);
    SwapOnlyTree(m1, m', gm, b', ix.nodes, q, y);
    TreeWritesKeepRings(m1, m', gm, lo, hi, b', b', PromoteIndex(ix, s, q).lists);
    LessTags(m, m1, gm, lo, hi, b, ix.at, x, y, z);
    PromoteTags(m1, m', gm, lo, hi, b, b', ix, x, q, y);
    assert Indexed(m', gm, lo, hi, b - {x}, PromoteIndex(ix, b[x], ix.at[x]), smallmap, treemap);
  }

  lemma PromoteTags(m1: Mem, m': Mem, gm: int, lo: int, hi: int, b: Binned, b': Binned, ix: Index, x: int, q: Pos,
                    y: int)
    requires Separate(gm, lo, hi, b') && b' == b - {x} && AllTagged(m1, b', ix.at) && Seated(b, ix)
    requires Swapped(m1, m', gm, ix.nodes, q, y) && y in b' && !IsSmall(b'[y]) && Around(b', ix.nodes, q)
    ensures AllTagged(m', b', (ix.at - {x})[y := q])
  {
    var at' := (ix.at - {x})[y := q];
    SwapTags(m1, m', gm, lo, hi, b', ix.at, ix.nodes, q, y);
    forall p {:trigger Tagged(m', b', at', p)} | p in b' && !IsSmall(b'[p]) ensures Tagged(m', b', at', p) {
      assert Tagged(m', b', ix.at[y := q], p);
    }
  }

  // ---- Taking out the only chunk of its size: a leaf ----

  lemma DropRings(m: Mem, gm: int, lo: int, hi: int, b: Binned, ix: Index, x: int)
    requires Separate(gm, lo, hi, b) && Listed(b, ix.lists) && AllRings(m, gm, ix.lists) && Seated(b, ix)
    requires x in ix.at && |ix.lists[b[x]]| == 1
    ensures Listed(b - {x}, ix.lists - {b[x]}) && AllRings(m, gm, ix.lists - {b[x]})
  {
    var s := b[x];
    var lists' := ix.lists - {s};
    assert ix.lists[s] == [x];
    ListedRemove(b, ix.lists, x, []);
    forall t {:trigger RingAt(m, gm, lists', t)} | t in lists' ensures RingAt(m, gm, lists', t) {
      assert RingAt(m, gm, ix.lists, t);
    }
  }

  lemma PluckOnlyTree(m: Mem, m': Mem, gm: int, b: Binned, nodes: Nodes, q: Pos)
    requires Plucked(m, m', gm, nodes, q)
    requires if q.Kid? then q.up in nodes && nodes[q.up] in b && !IsSmall(b[nodes[q.up]]) else 0 <= q.bin < 32
    ensures OnlyTree(m, m', gm, b)
  {
    if q.Kid? { SpotOf(gm, b, nodes[q.up], Slot(gm, nodes, q)); }
  }

  lemma PluckTags(m: Mem, m': Mem, gm: int, lo: int, hi: int, b: Binned, at: map<int, Pos>, nodes: Nodes, q: Pos)
    requires Separate(gm, lo, hi, b) && Plucked(m, m', gm, nodes, q) && AllTagged(m, b, at)
    requires if q.Kid? then q.up in nodes && nodes[q.up] in b && !IsSmall(b[nodes[q.up]]) && nodes[q.up] in at else 0 <= q.bin < 32
    ensures AllTagged(m', b, at)
  {
    forall p {:trigger Tagged(m', b, at, p)} | p in b && !IsSmall(b[p]) ensures Tagged(m', b, at, p) {
      assert Tagged(m, b, at, p);
      if q.Kid? { LargeClear(gm, lo, hi, b, nodes[q.up], p); } else { LargeClear(gm, lo, hi, b, p, p); }
      assert Rd(m', p + INDEX) == Rd(m, p + INDEX);
    }
  }

  lemma TagsLess(m: Mem, b: Binned, at: map<int, Pos>, x: int)
    requires AllTagged(m, b, at)
    ensures AllTagged(m, b - {x}, at - {x})
  {
    var b', at' := b - {x}, at - {x};
    forall p {:trigger Tagged(m, b', at', p)} | p in b' && !IsSmall(b'[p]) ensures Tagged(m, b', at', p) {
      assert Tagged(m, b, at, p);
    }
  }

  ghost function LeafIndex(ix: Index, s: int, x: int, q: Pos): Index {
    ix.(lists := ix.lists - {s}, nodes := ix.nodes - {q}, at := ix.at - {x}, roots := WithoutRoot(ix.roots, q))
  }

  lemma LeafSeats(b: Binned, ix: Index, x: int)
    requires Seated(b, ix) && Listed(b, ix.lists) && x in ix.at && |ix.lists[b[x]]| == 1
    ensures Seated(b - {x}, LeafIndex(ix, b[x], x, ix.at[x]))
  {
    var b', ix' := b - {x}, LeafIndex(ix, b[x], x, ix.at[x]);
    assert ix.lists[b[x]] == [x];
    forall y | y in ix'.at ensures b'[y] in ix'.lists {
      assert ix.lists[b[y]][0] == y;
    }
    forall r | r in ix'.nodes ensures ix'.nodes[r] in ix'.at && ix'.at[ix'.nodes[r]] == r {
      assert ix.nodes[r] != x;
    }
  }

  lemma LeafSizes(b: Binned, ix: Index, x: int)
    requires Seated(b, ix) && x in ix.at
    ensures Sizes(ix.nodes - {ix.at[x]}, b - {x}) == Sizes(ix.nodes, b) - {ix.at[x]}
  {
    forall r | r in ix.nodes && r != ix.at[x] ensures ix.nodes[r] != x {}
  }

  lemma LeafMaps(ix: Index, smallmap: int, treemap: int, s: int, x: int, q: Pos, treemap': int)
    requires Maps(ix, smallmap, treemap) && !IsSmall(s)
    requires 0 <= treemap' < WORD && BM.Shows(treemap', WithoutRoot(ix.roots, q).Keys)
    ensures Maps(LeafIndex(ix, s, x, q), smallmap, treemap')
  {
    forall i | i in ix.smalls ensures 8 * i != s {}
  }

  lemma LeafLarge(m: Mem, m': Mem, gm: int, lo: int, hi: int, b: Binned, ix: Index, smallmap: int, treemap: int, x: int,
                  treemap': int)
    requires Indexed(m, gm, lo, hi, b, ix, smallmap, treemap)
    requires x in ix.at && x in b && |ix.lists[b[x]]| == 1
    requires Kid(ix.at[x], false) !in ix.nodes && Kid(ix.at[x], true) !in ix.nodes
    requires Plucked(m, m', gm, ix.nodes, ix.at[x])
    requires 0 <= treemap' < WORD && BM.Shows(treemap', WithoutRoot(ix.roots, ix.at[x]).Keys)
    ensures Indexed(m', gm, lo, hi, b - {x}, LeafIndex(ix, b[x], x, ix.at[x]), smallmap, treemap')
  {
    var s, q, b' := b[x], ix.at[x], b - {x};
    SeparateLess(gm, lo, hi, b, x);
    DropRings(m, gm, lo, hi, b, ix, x);
    AroundNode(gm, b, ix, x);
    PluckOnlyTree(m, m', gm, b', ix.nodes, q);
    TreeWritesKeepRings(m, m', gm, lo, hi, b', b', ix.lists - {s});
    PluckTags(m, m', gm, lo, hi, b, ix.at, ix.nodes, q);
    TagsLess(m', b, ix.at, x);
    LeafSeats(b, ix, x);
    Pluck(m, m', gm, ix.nodes, ix.roots, q);
    LeafSizes(b, ix, x);
    TrieRemoveLeaf(Sizes(ix.nodes, b), q);
    LeafMaps(ix, smallmap, treemap, s, x, q, treemap');
    assert Indexed(m', gm, lo, hi, b - {x}, LeafIndex(ix, b[x], x, ix.at[x]), smallmap, treemap');
  }

  // ---- Taking out the only chunk of its size: an interior node, replaced by a leaf below it ----

  ghost function LiftIndex(ix: Index, s: int, x: int, q: Pos, leaf: Pos): Index
    requires leaf in ix.nodes
  {
    var y := ix.nodes[leaf];
    ix.(lists := ix.lists - {s}, nodes := (ix.nodes - {leaf})[q := y], at := (ix.at - {x})[y := q])
  }

  lemma LiftSeats(b: Binned, ix: Index, x: int, leaf: Pos)
    requires Seated(b, ix) && Listed(b, ix.lists) && x in ix.at && |ix.lists[b[x]]| == 1 && leaf in ix.nodes
    requires leaf != ix.at[x]
    ensures Seated(b - {x}, LiftIndex(ix, b[x], x, ix.at[x], leaf))
  {
    var b', ix', y := b - {x}, LiftIndex(ix, b[x], x, ix.at[x], leaf), ix.nodes[leaf];
    assert ix.lists[b[x]] == [x];
    forall z | z in ix'.at ensures z in b' && b'[z] in ix'.lists && ix'.at[z] in ix'.nodes && ix'.nodes[ix'.at[z]] == z {
      assert z in ix.at && ix.lists[b[z]][0] == z;
    }
    forall r | r in ix'.nodes ensures ix'.nodes[r] in ix'.at && ix'.at[ix'.nodes[r]] == r {
      if r != ix.at[x] { assert ix.nodes[r] != x && ix.nodes[r] != y; }
    }
  }

  lemma LiftSizes(b: Binned, ix: Index, x: int, leaf: Pos)
    requires Seated(b, ix) && x in ix.at && leaf in ix.nodes && leaf != ix.at[x]
    ensures ix.at[x] in Sizes(ix.nodes, b) && leaf in Sizes(ix.nodes, b)
    ensures Sizes((ix.nodes - {leaf})[ix.at[x] := ix.nodes[leaf]], b - {x})
            == (Sizes(ix.nodes, b) - {leaf})[ix.at[x] := Sizes(ix.nodes, b)[leaf]]
  {
    var q, y := ix.at[x], ix.nodes[leaf];
    assert y != x;
    forall r | r in ix.nodes && r != q ensures ix.nodes[r] != x {}
  }

  lemma LiftTrees(m: Mem, m1: Mem, m': Mem, gm: int, lo: int, hi: int, b: Binned, ix: Index, x: int, leaf: Pos)
    requires Separate(gm, lo, hi, b) && Seated(b, ix) && Trees(m, gm, ix.nodes, ix.roots)
    requires x in ix.at && leaf in ix.nodes && leaf != ix.at[x] && leaf.Kid? && Bin(leaf) == Bin(ix.at[x])
    requires Kid(leaf, false) !in ix.nodes && Kid(leaf, true) !in ix.nodes
    requires Plucked(m, m1, gm, ix.nodes, leaf) && Swapped(m1, m', gm, ix.nodes - {leaf}, ix.at[x], ix.nodes[leaf])
    ensures Trees(m', gm, (ix.nodes - {leaf})[ix.at[x] := ix.nodes[leaf]], ix.roots)
  {
    var y, nodes' := ix.nodes[leaf], ix.nodes - {leaf};
    Pluck(m, m1, gm, ix.nodes, ix.roots, leaf);
    PluckedIndex(m, m1, gm, ix.nodes, ix.roots, leaf);
    forall r | r in nodes' ensures nodes'[r] in b && !IsSmall(b[nodes'[r]]) && nodes'[r] != y {
      assert ix.at[ix.nodes[r]] == r;
    }
    CanSwapIn(m1, gm, lo, hi, b, nodes', ix.at[x], y);
    Swap(m1, m', gm, nodes', ix.roots, ix.at[x], y);
  }

  lemma PluckedIndex(m: Mem, m1: Mem, gm: int, nodes: Nodes, roots: map<int, Pos>, leaf: Pos)
    requires Trees(m, gm, nodes, roots) && leaf in nodes && leaf.Kid? && Plucked(m, m1, gm, nodes, leaf)
    ensures Rd(m1, nodes[leaf] + INDEX) == Bin(leaf)
  {
    assert Placed(m, gm, nodes, leaf);
    assert Exp(leaf.up) != Exp(leaf);
    assert Clear(nodes[leaf.up], nodes[leaf]);
  }

  lemma AroundLess(b: Binned, nodes: Nodes, q: Pos, leaf: Pos)
    requires Around(b, nodes, q) && (q.Kid? ==> q.up != leaf)
    ensures Around(b, nodes - {leaf}, q)
  {
  }

  lemma LiftTags(m: Mem, m1: Mem, m': Mem, gm: int, lo: int, hi: int, b: Binned, ix: Index, x: int, leaf: Pos)
    requires Separate(gm, lo, hi, b) && Separate(gm, lo, hi, b - {x}) && Seated(b, ix) && AllTagged(m, b, ix.at)
    requires x in ix.at && leaf in ix.nodes && leaf != ix.at[x] && leaf.Kid? && leaf.up in ix.nodes
    requires Around(b - {x}, ix.nodes - {leaf}, ix.at[x])
    requires Plucked(m, m1, gm, ix.nodes, leaf) && Swapped(m1, m', gm, ix.nodes - {leaf}, ix.at[x], ix.nodes[leaf])
    ensures AllTagged(m', b - {x}, (ix.at - {x})[ix.nodes[leaf] := ix.at[x]])
  {
    var b', y := b - {x}, ix.nodes[leaf];
    assert y != x && y in b';
    PluckTags(m, m1, gm, lo, hi, b, ix.at, ix.nodes, leaf);
    TagsLess(m1, b, ix.at, x);
    SwapTags(m1, m', gm, lo, hi, b', ix.at - {x}, ix.nodes - {leaf}, ix.at[x], y);
  }

  lemma LiftRings(m: Mem, m1: Mem, m': Mem, gm: int, lo: int, hi: int, b: Binned, ix: Index, x: int, leaf: Pos)
    requires Separate(gm, lo, hi, b) && Separate(gm, lo, hi, b - {x}) && Listed(b, ix.lists)
    requires AllRings(m, gm, ix.lists) && Seated(b, ix)
    requires x in ix.at && |ix.lists[b[x]]| == 1 && leaf in ix.nodes && leaf != ix.at[x] && leaf.Kid?
    requires leaf.up in ix.nodes
    requires Around(b - {x}, ix.nodes - {leaf}, ix.at[x])
    requires Plucked(m, m1, gm, ix.nodes, leaf) && Swapped(m1, m', gm, ix.nodes - {leaf}, ix.at[x], ix.nodes[leaf])
    ensures Listed(b - {x}, ix.lists - {b[x]}) && AllRings(m', gm, ix.lists - {b[x]})
  {
    var b', y := b - {x}, ix.nodes[leaf];
    assert y != x && y in b';
    DropRings(m, gm, lo, hi, b, ix, x);
    PluckOnlyTree(m, m1, gm, b, ix.nodes, leaf);
    TreeWritesKeepRings(m, m1, gm, lo, hi, b', b, ix.lists - {b[x]});
    SwapOnlyTree(m1, m', gm, b', ix.nodes - {leaf}, ix.at[x], y);
    TreeWritesKeepRings(m1, m', gm, lo, hi, b', b', ix.lists - {b[x]});
  }

  lemma LiftLarge(m: Mem, m1: Mem, m': Mem, gm: int, lo: int, hi: int, b: Binned, ix: Index, smallmap: int,
                  treemap: int,
                  x: int, leaf: Pos)
    requires Indexed(m, gm, lo, hi, b, ix, smallmap, treemap)
    requires x in ix.at && x in b && |ix.lists[b[x]]| == 1
    requires leaf in ix.nodes && leaf != ix.at[x] && Under(leaf, ix.at[x])
    requires Kid(leaf, false) !in ix.nodes && Kid(leaf, true) !in ix.nodes
    requires Plucked(m, m1, gm, ix.nodes, leaf) && Swapped(m1, m', gm, ix.nodes - {leaf}, ix.at[x], ix.nodes[leaf])
    ensures Indexed(m', gm, lo, hi, b - {x}, LiftIndex(ix, b[x], x, ix.at[x], leaf), smallmap, treemap)
  {
    var s, q, b', t := b[x], ix.at[x], b - {x}, Sizes(ix.nodes, b);
    SeparateLess(gm, lo, hi, b, x);
    assert Bin(leaf) == Bin(q) && Exp(leaf) < Exp(q) by { UnderDeeper(leaf, q); }
    AroundNode(gm, b, ix, x);
    AroundLess(b', ix.nodes, q, leaf);
    LiftRings(m, m1, m', gm, lo, hi, b, ix, x, leaf);
    LiftTags(m, m1, m', gm, lo, hi, b, ix, x, leaf);
    LiftSeats(b, ix, x, leaf);
    LiftTrees(m, m1, m', gm, lo, hi, b, ix, x, leaf);
    LiftSizes(b, ix, x, leaf);
    TrieReplace(t, q, leaf);
    LeafMaps(ix, smallmap, treemap, s, x, leaf, treemap);
    assert Indexed(m', gm, lo, hi, b - {x}, LiftIndex(ix, b[x], x, ix.at[x], leaf), smallmap, treemap);
  }

  lemma {:induction false} UnderDeeper(u: Pos, q: Pos)
    requires Under(u, q) && u != q
    ensures Bin(u) == Bin(q) && Exp(u) < Exp(q)
    decreases u
  {
    if u.up != q { UnderDeeper(u.up, q); }
  }
}
