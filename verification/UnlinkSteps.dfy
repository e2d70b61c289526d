/** The four ways `unlink_large_chunk` takes a chunk out of its tree bin. */
module UnlinkSteps {
  import opened Words
  import opened Rings
  import opened TreeIndex
  import opened SizeTrie
  import opened TreeLinks
  import opened Bins
  import opened LargeBins
  import opened LargeSteps
  import BM = BinMaps

  /** Tree writes stay inside large chunks and the array of roots. */
  lemma TreeTouches(m: Mem, m': Mem, gm: int, lo: int, hi: int, b: Binned)
    requires Separate(gm, lo, hi, b) && OnlyTree(m, m', gm, b)
    ensures Touches(m, m', gm, b)
  {
    forall w {:trigger Rd(m', w)} | Outside(gm, b, w) ensures Rd(m', w) == Rd(m, w) {
      assert !TreeSpot(gm, b, w);
    }
  }

  lemma TouchesTwice(m: Mem, m1: Mem, m2: Mem, gm: int, b: Binned)
    requires Touches(m, m1, gm, b) && Touches(m1, m2, gm, b)
    ensures Touches(m, m2, gm, b)
  {
  }

  /** Where a large chunk stands in the ring of its size, and what its link words say. */
  lemma LargePlace(m: Mem, gm: int, lo: int, hi: int, b: Binned, ix: Index, smallmap: int, treemap: int,
                   x: int) returns (k: int)
    requires Indexed(m, gm, lo, hi, b, ix, smallmap, treemap) && x in b && !IsSmall(b[x])
    ensures b[x] in ix.lists && 0 <= k < |ix.lists[b[x]]| && ix.lists[b[x]][k] == x && (k == 0 <==> x in ix.at)
    ensures forall j :: 0 <= j < |ix.lists[b[x]]| ==> ix.lists[b[x]][j] in b && b[ix.lists[b[x]][j]] == b[x]
    ensures Ring(m, ix.lists[b[x]]) && Spaced(ix.lists[b[x]]) && Separate(gm, lo, hi, b) && Sized(x, b[x], lo, hi)
  {
    hide AllTagged; hide Trees; hide Trie; hide Maps;
    var s := b[x];
    k :| 0 <= k < |ix.lists[s]| && ix.lists[s][k] == x;
    assert RingAt(m, gm, ix.lists, s);
    assert ix.lists[s][0] in ix.at;
    NodesSpaced(gm, lo, hi, b, s, ix.lists[s]);
  }

  lemma LargeLinks(m: Mem, l: seq<int>, k: int, x: int)
    requires Ring(m, l) && Spaced(l) && 0 <= k < |l| && l[k] == x
    ensures Rd(m, x + BK) == x <==> |l| == 1
    ensures var f, r := Rd(m, x + FD), Rd(m, x + BK);
            && f == l[Next(|l|, k)] && r == l[Prev(|l|, k)] && Removed(m, l, k) == Bypassed(m, f, r)
            && Rd(m, f + BK) == x && Rd(m, r + FD) == x
  {
    RingNeighbours(m, l, k);
    assert Linked(m, l, k) && Linked(m, l, Prev(|l|, k));
    var j := Prev(|l|, k);
    if j < k { assert Apart(l[j], l[k]); }
    if k < j { assert Apart(l[k], l[j]); }
  }

  /** What the macro reads first: the chunk's place in its ring, and whether it is a tree node. */
  ghost predicate UnlinkView(m: Mem, gm: int, b: Binned, ix: Index, x: int, k: int) {
    && x in b && b[x] in ix.lists && 0 <= k < |ix.lists[b[x]]| && ix.lists[b[x]][k] == x && (k == 0 <==> x in ix.at)
    && x + FD in m && x + BK in m && x + PARENT in m
    && (m[x + BK] == x <==> |ix.lists[b[x]]| == 1) && (m[x + PARENT] == 0 <==> x !in ix.at)
    && (x in ix.at ==> ix.at[x] in ix.nodes && ix.nodes[ix.at[x]] == x && m[x + PARENT] == ParentOf(gm, ix.nodes, ix.at[x]))
  }

  /** Its ring neighbours point back at it; unlinking it writes only their link words. */
  ghost predicate Neighbours(m: Mem, gm: int, lo: int, hi: int, b: Binned, ix: Index, x: int, k: int, f: int, r: int) {
    && x in b && f in b && r in b && b[f] == b[x] && b[r] == b[x]
    && f + BK in m && r + FD in m && m[f + BK] == x && m[r + FD] == x
    && b[x] in ix.lists && 0 <= k < |ix.lists[b[x]]| && r == ix.lists[b[x]][Prev(|ix.lists[b[x]]|, k)]
    && Bypassed(m, f, r) == Removed(m, ix.lists[b[x]], k)
    && Touches(m, Bypassed(m, f, r), gm, b) && Mapped(Bypassed(m, f, r), gm, lo, hi)
  }

  lemma UnlinkReads(m: Mem, gm: int, lo: int, hi: int, b: Binned, ix: Index, smallmap: int, treemap: int, x: int)
    returns (k: int)
    requires Indexed(m, gm, lo, hi, b, ix, smallmap, treemap) && Mapped(m, gm, lo, hi) && x in b
    requires !IsSmall(b[x])
    ensures UnlinkView(m, gm, b, ix, x, k) && Neighbours(m, gm, lo, hi, b, ix, x, k, Rd(m, x + FD), Rd(m, x + BK))
  {
    hide Indexed; hide Separate; hide Touches; hide Ring; hide Spaced;
    k := LargePlace(m, gm, lo, hi, b, ix, smallmap, treemap, x);
    LargeLinks(m, ix.lists[b[x]], k, x);
    MappedChunk(m, gm, lo, hi, x, b[x]);
    var f, r := m[x + FD], m[x + BK];
    RelinkTouches(m, gm, lo, hi, b, b[x], f, r);
    MappedMore(m, Bypassed(m, f, r), gm, lo, hi);
    MappedNode(m, gm, lo, hi, b, b[x], f);
    MappedNode(m, gm, lo, hi, b, b[x], r);
    ParentRead(m, gm, lo, hi, b, ix, smallmap, treemap, x);
  }

  lemma ParentRead(m: Mem, gm: int, lo: int, hi: int, b: Binned, ix: Index, smallmap: int, treemap: int, x: int)
    requires Indexed(m, gm, lo, hi, b, ix, smallmap, treemap) && Mapped(m, gm, lo, hi) && x in b
    requires !IsSmall(b[x])
    ensures Rd(m, x + PARENT) == 0 <==> x !in ix.at
    ensures x in ix.at ==> ix.at[x] in ix.nodes && ix.nodes[ix.at[x]] == x
    ensures x in ix.at ==> Rd(m, x + PARENT) == ParentOf(gm, ix.nodes, ix.at[x])
  {
    hide Indexed; hide Mapped;
    Hanging(m, gm, lo, hi, b, ix, smallmap, treemap, x);
    if x in ix.at {
      NodeReads(m, gm, lo, hi, b, ix, smallmap, treemap, ix.at[x]);
      if ix.at[x].Kid? { NodeReads(m, gm, lo, hi, b, ix, smallmap, treemap, ix.at[x].up); }
    }
  }

  lemma Hanging(m: Mem, gm: int, lo: int, hi: int, b: Binned, ix: Index, smallmap: int, treemap: int, x: int)
    requires Indexed(m, gm, lo, hi, b, ix, smallmap, treemap) && x in b && !IsSmall(b[x])
    ensures x !in ix.at ==> Rd(m, x + PARENT) == 0 && Rd(m, x + LEFT) == 0 && Rd(m, x + RIGHT) == 0
    ensures x in ix.at ==> ix.at[x] in ix.nodes && ix.nodes[ix.at[x]] == x
    ensures x in ix.at ==> (ix.at[x].Root? ==> 0 <= ix.at[x].bin < 32 && gm > 0)
  {
    hide Listed; hide AllRings; hide Trie; hide Maps; hide Placed;
    assert Tagged(m, b, ix.at, x);
    if x in ix.at && ix.at[x].Root? { assert ix.at[x].bin in ix.roots; }
  }

  // ---- A tree node with others of its size: the last of the ring takes its place ----

  lemma PromoteFacts(m: Mem, gm: int, lo: int, hi: int, b: Binned, ix: Index, smallmap: int, treemap: int, x: int,
                     y: int)
    requires Indexed(m, gm, lo, hi, b, ix, smallmap, treemap) && x in b && x in ix.at && b[x] in ix.lists
    requires |ix.lists[b[x]]| >= 2
    requires y == ix.lists[b[x]][|ix.lists[b[x]]| - 1]
    ensures var z := ix.lists[b[x]][1]; y in b && z in b && y != x && b[y] == b[x] && b[z] == b[x] && y !in ix.at
    ensures Separate(gm, lo, hi, b) && Seated(b, ix) && Trees(m, gm, ix.nodes, ix.roots) && AllTagged(m, b, ix.at)
    ensures Trie(Sizes(ix.nodes, b))
    ensures 16 <= b[x] && b[x] % 8 == 0 && !IsSmall(b[x]) && ix.lists[b[x]][0] == x && ix.at[x] in ix.nodes
  {
    hide AllRings; hide Maps; hide Trees; hide AllTagged; hide Trie;
    assert Sized(x, b[x], lo, hi);
  }

  lemma PromoteStart(m: Mem, m1: Mem, gm: int, lo: int, hi: int, b: Binned, ix: Index, smallmap: int, treemap: int,
                     x: int, y: int)
    requires Indexed(m, gm, lo, hi, b, ix, smallmap, treemap) && x in b && x in ix.at && b[x] in ix.lists
    requires |ix.lists[b[x]]| >= 2
    requires y == ix.lists[b[x]][|ix.lists[b[x]]| - 1] && m1 == Removed(m, ix.lists[b[x]], 0)
    ensures Trees(m1, gm, ix.nodes, ix.roots) && CanSwap(m1, gm, ix.nodes, ix.at[x], y) && Rd(m1, y + LEFT) == 0
    ensures Rd(m1, y + RIGHT) == 0
    ensures Separate(gm, lo, hi, b) && Around(b - {x}, ix.nodes, ix.at[x]) && y in b && y != x && !IsSmall(b[y])
  {
    hide Indexed; hide AllTagged; hide Trees; hide Trie; hide Separate; hide CanSwap; hide Around;
    var z := ix.lists[b[x]][1];
    PromoteFacts(m, gm, lo, hi, b, ix, smallmap, treemap, x, y);
    LeafFacts(m, gm, lo, hi, b, ix, smallmap, treemap, x);
    ChainedBin(m, b, ix, x, y);
    Hanging(m, gm, lo, hi, b, ix, smallmap, treemap, y);
    assert Relinked(m, m1, y, z, y);
    RelinkKeepsTrees(m, m1, gm, lo, hi, b, ix, b[x], y, z, y);
    RingWordsMissTree(m, m1, gm, lo, hi, b, b[x], y, z, y, y);
    forall r | r in ix.nodes ensures ix.nodes[r] != y { assert ix.nodes[r] in ix.at; }
    CanSwapIn(m1, gm, lo, hi, b, ix.nodes, ix.at[x], y);
  }

  lemma SwapTouches(m: Mem, m': Mem, gm: int, lo: int, hi: int, b: Binned, nodes: Nodes, q: Pos, x: int, y: int)
    requires Separate(gm, lo, hi, b) && Around(b - {x}, nodes, q) && y in b && y != x && !IsSmall(b[y])
    requires Swapped(m, m', gm, nodes, q, y)
    ensures Touches(m, m', gm, b)
  {
    SeparateLess(gm, lo, hi, b, x);
    SwapOnlyTree(m, m', gm, b - {x}, nodes, q, y);
    TreeTouches(m, m', gm, lo, hi, b - {x});
    TouchesMore(m, m', gm, b, x);
  }

  lemma TouchesMore(m: Mem, m': Mem, gm: int, b: Binned, x: int)
    requires Touches(m, m', gm, b - {x})
    ensures Touches(m, m', gm, b)
  {
    forall w {:trigger Rd(m', w)} | Outside(gm, b, w) ensures Rd(m', w) == Rd(m, w) {
      assert Outside(gm, b - {x}, w);
    }
  }

  lemma HandOverMaps(m: Mem, gm: int, lo: int, hi: int, slot: int, xp: int, x: int, r: int)
    requires Mapped(m, gm, lo, hi)
    ensures Mapped(HandOver(m, slot, xp, x, r), gm, lo, hi)
  {
    MappedMore(m, HandOver(m, slot, xp, x, r), gm, lo, hi);
  }

  lemma PromoteStep(m: Mem, m1: Mem, m': Mem, gm: int, lo: int, hi: int, b: Binned, ix: Index, smallmap: int,
                    treemap: int, x: int, y: int)
    requires Indexed(m, gm, lo, hi, b, ix, smallmap, treemap) && x in b && x in ix.at && b[x] in ix.lists
    requires |ix.lists[b[x]]| >= 2
    requires y == ix.lists[b[x]][|ix.lists[b[x]]| - 1] && m1 == Removed(m, ix.lists[b[x]], 0)
    requires Touches(m, m1, gm, b) && Mapped(m1, gm, lo, hi)
    requires ix.at[x] in ix.nodes
    requires m' == HandOver(m1, Slot(gm, ix.nodes, ix.at[x]), ParentOf(gm, ix.nodes, ix.at[x]), ix.nodes[ix.at[x]], y)
    ensures Indexed(m', gm, lo, hi, b - {x}, PromoteIndex(ix, b[x], ix.at[x]), smallmap, treemap)
    ensures Touches(m, m', gm, b) && Mapped(m', gm, lo, hi)
  {
    hide Indexed; hide Touches; hide Mapped; hide HandOver; hide Trees; hide Swapped; hide CanSwap; hide Around;
    hide Separate;
    var q := ix.at[x];
    PromoteStart(m, m1, gm, lo, hi, b, ix, smallmap, treemap, x, y);
    HandOverSwaps(m1, gm, ix.nodes, ix.roots, q, y);
    PromoteLarge(m, m1, m', gm, lo, hi, b, ix, smallmap, treemap, x);
    SwapTouches(m1, m', gm, lo, hi, b, ix.nodes, q, x, y);
    TouchesTwice(m, m1, m', gm, b);
    HandOverMaps(m1, gm, lo, hi, Slot(gm, ix.nodes, q), ParentOf(gm, ix.nodes, q), ix.nodes[q], y);
  }

  // ---- A leaf of its own size: its slot is cleared ----

  lemma LeafStep(m: Mem, gm: int, lo: int, hi: int, b: Binned, ix: Index, smallmap: int, treemap: nat, x: int,
                 treemap': int)
    requires Indexed(m, gm, lo, hi, b, ix, smallmap, treemap) && Mapped(m, gm, lo, hi)
    requires x in b && x in ix.at && b[x] in ix.lists && |ix.lists[b[x]]| == 1
    requires Kid(ix.at[x], false) !in ix.nodes && Kid(ix.at[x], true) !in ix.nodes
    requires treemap' == if ix.at[x].Root? then BM.Clear(treemap, ix.at[x].bin) else treemap
    ensures Indexed(m[Slot(gm, ix.nodes, ix.at[x]) := 0], gm, lo, hi, b - {x}, LeafIndex(ix, b[x], x, ix.at[x]),
                      smallmap, treemap')
    ensures Touches(m, m[Slot(gm, ix.nodes, ix.at[x]) := 0], gm, b)
    ensures Mapped(m[Slot(gm, ix.nodes, ix.at[x]) := 0], gm, lo, hi)
  {
    hide Indexed; hide Touches; hide Separate; hide Around;
    var q, m' := ix.at[x], m[Slot(gm, ix.nodes, ix.at[x]) := 0];
    LeafFacts(m, gm, lo, hi, b, ix, smallmap, treemap, x);
    TreemapMark(m, gm, lo, hi, b, ix, smallmap, treemap, if q.Root? then q.bin else 0);
    LeafLarge(m, m', gm, lo, hi, b, ix, smallmap, treemap, x, treemap');
    PluckTouches(m, m', gm, lo, hi, b, ix.nodes, q, x);
    MappedMore(m, m', gm, lo, hi);
  }

  lemma LeafFacts(m: Mem, gm: int, lo: int, hi: int, b: Binned, ix: Index, smallmap: int, treemap: int, x: int)
    requires Indexed(m, gm, lo, hi, b, ix, smallmap, treemap) && x in ix.at
    ensures Separate(gm, lo, hi, b) && Around(b - {x}, ix.nodes, ix.at[x])
    ensures (ix.at[x].Root? ==> 0 <= ix.at[x].bin < 32)
    ensures Trees(m, gm, ix.nodes, ix.roots) && Seated(b, ix)
  {
    hide Listed; hide AllRings; hide AllTagged; hide Trie; hide Maps; hide Placed;
    AroundNode(gm, b, ix, x);
  }

  lemma PluckTouches(m: Mem, m': Mem, gm: int, lo: int, hi: int, b: Binned, nodes: Nodes, q: Pos, x: int)
    requires Separate(gm, lo, hi, b) && Around(b - {x}, nodes, q) && Plucked(m, m', gm, nodes, q)
    ensures Touches(m, m', gm, b)
  {
    SeparateLess(gm, lo, hi, b, x);
    PluckOnlyTree(m, m', gm, b - {x}, nodes, q);
    TreeTouches(m, m', gm, lo, hi, b - {x});
    TouchesMore(m, m', gm, b, x);
  }

  // ---- An inner node of its own size: the rightmost leaf below takes its place ----

  lemma LiftStart(m: Mem, m1: Mem, gm: int, lo: int, hi: int, b: Binned, ix: Index, smallmap: int, treemap: int, x: int,
                  leaf: Pos)
    requires Indexed(m, gm, lo, hi, b, ix, smallmap, treemap) && Mapped(m, gm, lo, hi) && x in ix.at
    requires leaf in ix.nodes && leaf != ix.at[x] && Under(leaf, ix.at[x])
    requires Kid(leaf, false) !in ix.nodes && Kid(leaf, true) !in ix.nodes
    requires m1 == m[Slot(gm, ix.nodes, leaf) := 0]
    ensures Trees(m1, gm, ix.nodes - {leaf}, ix.roots) && CanSwap(m1, gm, ix.nodes - {leaf}, ix.at[x], ix.nodes[leaf])
    ensures Rd(m1, ix.nodes[leaf] + LEFT) == 0 && Rd(m1, ix.nodes[leaf] + RIGHT) == 0
    ensures Separate(gm, lo, hi, b) && Around(b - {x}, ix.nodes - {leaf}, ix.at[x]) && Touches(m, m1, gm, b)
    ensures ix.nodes[leaf] in b && ix.nodes[leaf] != x && !IsSmall(b[ix.nodes[leaf]])
    ensures Slot(gm, ix.nodes - {leaf}, ix.at[x]) == Slot(gm, ix.nodes, ix.at[x])
            && ParentOf(gm, ix.nodes - {leaf}, ix.at[x]) == ParentOf(gm, ix.nodes, ix.at[x])
  {
    hide Indexed; hide Mapped; hide Touches; hide Separate; hide Around; hide Trees; hide CanSwap;
    var q, y := ix.at[x], ix.nodes[leaf];
    UnderDeeper(leaf, q);
    LeafFacts(m, gm, lo, hi, b, ix, smallmap, treemap, x);
    LeafFacts(m, gm, lo, hi, b, ix, smallmap, treemap, y);
    NodeReads(m, gm, lo, hi, b, ix, smallmap, treemap, leaf);
    NodeReads(m, gm, lo, hi, b, ix, smallmap, treemap, q);
    assert leaf.Kid?;
    assert q.Kid? ==> q.up != leaf by { if q.Kid? { assert Exp(q.up) == Exp(q) + 1; } }
    AroundLess(b - {x}, ix.nodes, q, leaf);
    Pluck(m, m1, gm, ix.nodes, ix.roots, leaf);
    PluckTouches(m, m1, gm, lo, hi, b, ix.nodes, leaf, y);
    LiftSwaps(m, m1, gm, lo, hi, b, ix, x, leaf);
  }

  lemma LiftSwaps(m: Mem, m1: Mem, gm: int, lo: int, hi: int, b: Binned, ix: Index, x: int, leaf: Pos)
    requires Separate(gm, lo, hi, b) && Seated(b, ix) && Trees(m, gm, ix.nodes, ix.roots) && x in ix.at
    requires leaf in ix.nodes && leaf != ix.at[x] && leaf.Kid? && Bin(leaf) == Bin(ix.at[x])
    requires Kid(leaf, false) !in ix.nodes && Kid(leaf, true) !in ix.nodes
    requires m1 == m[Slot(gm, ix.nodes, leaf) := 0]
    ensures CanSwap(m1, gm, ix.nodes - {leaf}, ix.at[x], ix.nodes[leaf])
    ensures Rd(m1, ix.nodes[leaf] + LEFT) == 0 && Rd(m1, ix.nodes[leaf] + RIGHT) == 0
  {
    var y, nodes' := ix.nodes[leaf], ix.nodes - {leaf};
    PluckedWords(m, m1, gm, ix.nodes, ix.roots, leaf);
    hide Trees; hide Slot; hide CanSwap; hide Separate;
    forall r | r in nodes' ensures nodes'[r] in b && !IsSmall(b[nodes'[r]]) && nodes'[r] != y {
      assert ix.at[ix.nodes[r]] == r;
    }
    CanSwapIn(m1, gm, lo, hi, b, nodes', ix.at[x], y);
  }

  lemma PluckedWords(m: Mem, m1: Mem, gm: int, nodes: Nodes, roots: map<int, Pos>, leaf: Pos)
    requires Trees(m, gm, nodes, roots) && leaf in nodes && leaf.Kid? && Kid(leaf, false) !in nodes
    requires Kid(leaf, true) !in nodes
    requires m1 == m[Slot(gm, nodes, leaf) := 0]
    ensures Rd(m1, nodes[leaf] + LEFT) == 0 && Rd(m1, nodes[leaf] + RIGHT) == 0
    ensures Rd(m1, nodes[leaf] + INDEX) == Bin(leaf)
  {
    assert Placed(m, gm, nodes, leaf) && Exp(leaf.up) != Exp(leaf);
    assert Clear(nodes[leaf.up], nodes[leaf]);
  }

  lemma LiftStep(m: Mem, m1: Mem, m': Mem, gm: int, lo: int, hi: int, b: Binned, ix: Index, smallmap: int, treemap: int,
                 x: int, leaf: Pos)
    requires Indexed(m, gm, lo, hi, b, ix, smallmap, treemap) && Mapped(m, gm, lo, hi)
    requires x in b && x in ix.at && b[x] in ix.lists && |ix.lists[b[x]]| == 1
    requires leaf in ix.nodes && leaf != ix.at[x] && Under(leaf, ix.at[x])
    requires Kid(leaf, false) !in ix.nodes && Kid(leaf, true) !in ix.nodes
    requires m1 == m[Slot(gm, ix.nodes, leaf) := 0] && ix.at[x] in ix.nodes
    requires m' == HandOver(m1, Slot(gm, ix.nodes, ix.at[x]), ParentOf(gm, ix.nodes, ix.at[x]), ix.nodes[ix.at[x]], ix.nodes[leaf])
    ensures Indexed(m', gm, lo, hi, b - {x}, LiftIndex(ix, b[x], x, ix.at[x], leaf), smallmap, treemap)
    ensures Touches(m, m', gm, b) && Mapped(m', gm, lo, hi)
  {
    hide Indexed; hide Touches; hide Mapped; hide HandOver; hide Trees; hide Swapped; hide CanSwap; hide Around;
    hide Separate; hide Under; hide LiftIndex;
    var q, y, nodes' := ix.at[x], ix.nodes[leaf], ix.nodes - {leaf};
    LiftStart(m, m1, gm, lo, hi, b, ix, smallmap, treemap, x, leaf);
    HandOverSwaps(m1, gm, nodes', ix.roots, q, y);
    LiftLarge(m, m1, m', gm, lo, hi, b, ix, smallmap, treemap, x, leaf);
    SwapTouches(m1, m', gm, lo, hi, b, nodes', q, x, y);
    TouchesTwice(m, m1, m', gm, b);
    assert Mapped(m1, gm, lo, hi) by { MappedMore(m, m1, gm, lo, hi); }
    HandOverMaps(m1, gm, lo, hi, Slot(gm, ix.nodes, q), ParentOf(gm, ix.nodes, q), ix.nodes[q], y);
  }

  // ---- What the macro may read on each path ----

  lemma NeighbourReads(m: Mem, gm: int, lo: int, hi: int, b: Binned, ix: Index, x: int, k: int, f: int, r: int)
    requires Neighbours(m, gm, lo, hi, b, ix, x, k, f, r)
    ensures f + BK in m && r + FD in m && m[f + BK] == x && m[r + FD] == x
    ensures Mapped(m[f + BK := r][r + FD := f], gm, lo, hi)
    ensures m[f + BK := r][r + FD := f] == Removed(m, ix.lists[b[x]], k)
    ensures Touches(m, m[f + BK := r][r + FD := f], gm, b)
    ensures r == ix.lists[b[x]][Prev(|ix.lists[b[x]]|, k)]
  {
  }

  lemma PromoteReads(m: Mem, m1: Mem, gm: int, lo: int, hi: int, b: Binned, ix: Index, smallmap: int, treemap: int,
                     x: int, y: int)
    requires Indexed(m, gm, lo, hi, b, ix, smallmap, treemap) && Mapped(m, gm, lo, hi)
    requires x in b && x in ix.at && ix.at[x] in ix.nodes && ix.nodes[ix.at[x]] == x && b[x] in ix.lists
    requires |ix.lists[b[x]]| >= 2
    requires y == ix.lists[b[x]][|ix.lists[b[x]]| - 1] && m1 == Removed(m, ix.lists[b[x]], 0)
    ensures Trees(m1, gm, ix.nodes, ix.roots) && 0 <= Bin(ix.at[x]) < 32 && TreeBin(gm, Bin(ix.at[x])) in m1 && y != 0
    ensures x + INDEX in m1 && x + LEFT in m1 && x + RIGHT in m1
    ensures ix.at[x].Kid? ==> ParentOf(gm, ix.nodes, ix.at[x]) + LEFT in m1
  {
    hide Indexed; hide Mapped; hide Trees; hide Separate; hide Around;
    PromoteStart(m, m1, gm, lo, hi, b, ix, smallmap, treemap, x, y);
    SlotMapped(m, gm, lo, hi, b, ix, smallmap, treemap, ix.at[x]);
  }

  lemma LiftReads(m: Mem, m1: Mem, gm: int, lo: int, hi: int, b: Binned, ix: Index, smallmap: int, treemap: int, x: int,
                  leaf: Pos)
    requires Indexed(m, gm, lo, hi, b, ix, smallmap, treemap) && Mapped(m, gm, lo, hi)
    requires x in ix.at && ix.at[x] in ix.nodes && ix.nodes[ix.at[x]] == x
    requires leaf in ix.nodes && leaf != ix.at[x] && Under(leaf, ix.at[x]) && Kid(leaf, false) !in ix.nodes
    requires Kid(leaf, true) !in ix.nodes
    requires m1 == m[Slot(gm, ix.nodes, leaf) := 0]
    ensures Trees(m1, gm, ix.nodes - {leaf}, ix.roots) && 0 <= Bin(ix.at[x]) < 32 && TreeBin(gm, Bin(ix.at[x])) in m1
    ensures x + INDEX in m1 && x + LEFT in m1 && x + RIGHT in m1
    ensures ix.at[x].Kid? ==> ParentOf(gm, ix.nodes, ix.at[x]) + LEFT in m1
    ensures Slot(gm, ix.nodes - {leaf}, ix.at[x]) == Slot(gm, ix.nodes, ix.at[x])
            && ParentOf(gm, ix.nodes - {leaf}, ix.at[x]) == ParentOf(gm, ix.nodes, ix.at[x])
  {
    hide Indexed; hide Mapped; hide Trees; hide Separate; hide Around; hide Under; hide Touches;
    LiftStart(m, m1, gm, lo, hi, b, ix, smallmap, treemap, x, leaf);
    SlotMapped(m, gm, lo, hi, b, ix, smallmap, treemap, ix.at[x]);
  }
}
