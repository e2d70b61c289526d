/** What the allocator's invariant and the effects of its operations amount to, over whole runs. */
module HeapTheorems {
  import opened Words
  import opened Tiling
  import opened SizeTrie
  import opened TreeLinks
  import opened Bins
  import opened LargeSteps
  import opened BoundaryTags
  import opened AllocSteps
  import opened FreeSteps
  import opened ResizeSteps
  import opened ClientSteps
  import opened BestFit
  import opened TreeIndex
  import BM = BinMaps

  /** Blocks in use are aligned, lie in the segment below the top and do not overlap each other. */
  lemma LiveDisjoint(m: Mem, gm: int, lo: int, hi: int, top: int, topsize: int, h: Chunks,
                     b: Binned, ix: Index, smallmap: int, treemap: int, out: set<int>, p: int, q: int)
    requires Sound(m, gm, lo, hi, top, topsize, h, b, ix, smallmap, treemap, out) && p in Live(h) && q in Live(h)
    requires p < q
    ensures p % 8 == 0 && 16 <= Live(h)[p] && lo <= p && p + Live(h)[p] <= q && q + Live(h)[q] <= top
  {
    hide Indexed; hide Mapped; hide Heads; hide FreeBut; hide Tags; hide Coalesced;
    assert WellSized(p, h[p], lo, top) && WellSized(q, h[q], lo, top);
  }

  /** Chunks, top and the segment's foot add up to the segment: nothing is lost. */
  lemma Conserved(m: Mem, gm: int, lo: int, hi: int, top: int, topsize: int, h: Chunks,
                  b: Binned, ix: Index, smallmap: int, treemap: int, out: set<int>)
    requires Sound(m, gm, lo, hi, top, topsize, h, b, ix, smallmap, treemap, out)
    ensures Tiled(h, lo, top) && Edge(h, lo, top) && Total(h, lo, top, lo) + topsize + TOP_FOOT_SIZE == hi - lo
  {
    hide Indexed; hide Mapped; hide Heads; hide FreeBut; hide Tags; hide Coalesced;
    TotalIsExtent(h, lo, top, lo);
  }

  /** However blocks were freed (`dlfree`, `dispose_chunk`, in any order), the same live blocks mean the same chunks
      and the same top. */
  lemma SameHeap(m: Mem, gm: int, lo: int, hi: int, top: int, topsize: int, h: Chunks, b: Binned, ix: Index,
                 smallmap: int, treemap: int, out: set<int>,
                 m': Mem, hi': int, top': int, topsize': int, h': Chunks, b': Binned, ix': Index, smallmap': int, treemap': int, out': set<int>)
    requires Sound(m, gm, lo, hi, top, topsize, h, b, ix, smallmap, treemap, out)
    requires Sound(m', gm, lo, hi', top', topsize', h', b', ix', smallmap', treemap', out') && Live(h) == Live(h')
    ensures h == h' && top == top' && (hi == hi' ==> topsize == topsize')
  {
    hide Indexed; hide Mapped; hide Heads; hide FreeBut; hide Tags;
    CanonicalHeap(h, top, h', top', lo);
  }

  /** A small-bin bit is set exactly if a free chunk of that size is binned. */
  lemma SmallBit(m: Mem, gm: int, lo: int, hi: int, top: int, topsize: int, h: Chunks,
                 b: Binned, ix: Index, smallmap: nat, treemap: int, out: set<int>, i: nat)
    requires Sound(m, gm, lo, hi, top, topsize, h, b, ix, smallmap, treemap, out) && i < 32
    ensures BM.Bit(smallmap, i) <==> exists p :: p in h && h[p] == Chunk(8 * i, false) && p !in out
  {
    hide HeapTags; hide Mapped; hide Heads; hide AllRings; hide AllTagged; hide Trees; hide Trie; hide Seated;
    assert BM.Bit(smallmap, i) <==> i in ix.smalls;
    if i in ix.smalls {
      var p := ix.lists[8 * i][0];
      assert p in b && b[p] == 8 * i;
    }
    if p :| p in h && h[p] == Chunk(8 * i, false) && p !in out {
      assert p in b && b[p] == 8 * i && 8 * i in ix.lists;
    }
  }

  /** A tree-bin bit is set exactly if a free chunk of a size of that bin is binned. */
  lemma TreeBit(m: Mem, gm: int, lo: int, hi: int, top: int, topsize: int, h: Chunks,
                b: Binned, ix: Index, smallmap: int, treemap: nat, out: set<int>, i: nat)
    requires Sound(m, gm, lo, hi, top, topsize, h, b, ix, smallmap, treemap, out) && i < 32
    ensures BM.Bit(treemap, i) <==> exists p :: p in h && !h[p].inuse && p !in out && !IsSmall(h[p].size) && InBin(h[p].size, i)
  {
    hide HeapTags; hide Indexed; hide Mapped; hide InBin; hide Trie; hide Seated; hide Listed; hide RootOf;
    hide Shape; hide BM.Bit;
    TrieFacts(m, gm, lo, hi, b, ix, smallmap, treemap);
    MapFacts(m, gm, lo, hi, b, ix, smallmap, treemap);
    assert BM.Bit(treemap, i) <==> i in ix.roots;
    RootPlaces(m, gm, lo, hi, b, ix, smallmap, treemap);
    if i in ix.roots {
      NodeSize(m, gm, lo, hi, b, ix, smallmap, treemap, RootOf(i));
      RootBin(i);
      var p := ix.nodes[RootOf(i)];
      assert p in h && !h[p].inuse && p !in out && !IsSmall(h[p].size) && InBin(h[p].size, i);
    }
    if p :| p in h && !h[p].inuse && p !in out && !IsSmall(h[p].size) && InBin(h[p].size, i) {
      assert p in b && b[p] == h[p].size;
      InRoots(b, ix, p, i);
    }
  }

  lemma RootBin(i: int)
    ensures Bin(RootOf(i)) == i
  {
  }

  lemma InRoots(b: Binned, ix: Index, p: int, i: int)
    requires Seated(b, ix) && Listed(b, ix.lists) && Trie(Sizes(ix.nodes, b)) && p in b && !IsSmall(b[p])
    requires InBin(b[p], i)
    ensures RootOf(i) in ix.nodes
  {
    var x := ix.lists[b[p]][0];
    assert x in ix.at && ix.at[x] in Sizes(ix.nodes, b);
    PlaceSize(Sizes(ix.nodes, b), ix.at[x]);
    BinsOrdered(b[p], i, b[x], Bin(ix.at[x]));
    BinsOrdered(b[x], Bin(ix.at[x]), b[p], i);
    UnderRoot(Sizes(ix.nodes, b), ix.at[x]);
  }
}
