/** Growing and shrinking the segment at its end, and setting it up. */
module Segments {
  import opened Words
  import opened Tiling
  import opened SizeTrie
  import opened TreeLinks
  import opened Bins
  import opened LargeSteps
  import opened BoundaryTags
  import opened Retags
  import opened AllocSteps
  import BM = BinMaps

  /** `init_top(m, p, psize)` for an aligned p. */
  function TopInit(m: Mem, p: int, psize: int): Mem { m[p + 4 := FreeHead(psize)][p + psize + 4 := TOP_FOOT_SIZE] }

  lemma MoveEnd(m: Mem, gm: int, lo: int, hi: int, b: Binned, ix: Index, smallmap: int, treemap: int, hi': int)
    requires Indexed(m, gm, lo, hi, b, ix, smallmap, treemap) && Separate(gm, lo, hi', b)
    ensures Indexed(m, gm, lo, hi', b, ix, smallmap, treemap)
  {
    hide Listed; hide AllRings; hide AllTagged; hide Maps; hide Seated; hide Separate; hide Trees; hide Trie;
  }

  lemma EndSeparate(m: Mem, gm: int, lo: int, hi: int, top: int, topsize: int, h: Chunks,
                    b: Binned, ix: Index, smallmap: int, treemap: int, out: set<int>, hi': int)
    requires Sound(m, gm, lo, hi, top, topsize, h, b, ix, smallmap, treemap, out)
    requires top < hi' <= WORD && (gm + 392 <= lo || hi' <= gm)
    ensures Separate(gm, lo, hi', b)
  {
    hide Listed; hide AllRings; hide AllTagged; hide Maps; hide Seated; hide Trees; hide Trie; hide Mapped; hide Heads;
    hide Tags; hide Coalesced;
    forall p | p in b ensures Sized(p, b[p], lo, hi') { assert WellSized(p, h[p], lo, top); }
    forall p, q {:trigger Away(b, p, q)} | p in b && q in b && p != q ensures Away(b, p, q) {}
  }

  lemma TopInitInside(m: Mem, gm: int, lo: int, hi: int, top: int, topsize: int, h: Chunks,
                      b: Binned, ix: Index, smallmap: int, treemap: int, out: set<int>, topsize': int)
    requires Sound(m, gm, lo, hi, top, topsize, h, b, ix, smallmap, treemap, out)
    requires 0 < topsize' && (gm + 392 <= lo || top + topsize' + TOP_FOOT_SIZE <= gm)
    ensures SameInside(m, TopInit(m, top, topsize'), gm, b) && PayloadKept(m, TopInit(m, top, topsize'), Live(h))
  {
    hide Listed; hide AllRings; hide AllTagged; hide Maps; hide Seated; hide Trees; hide Trie; hide Mapped; hide Heads;
    hide Tags; hide Coalesced;
    var m' := TopInit(m, top, topsize');
    forall p, w {:trigger p in b, Rd(m', w)} | p in b && p + 8 <= w < p + b[p] ensures Rd(m', w) == Rd(m, w) {
      assert WellSized(p, h[p], lo, top);
    }
    forall q, w {:trigger InBlock(Live(h), q, w), Rd(m', w)} | q in Live(h) && InBlock(Live(h), q, w) ensures Rd(m', w) == Rd(m, w) {
      assert WellSized(q, h[q], lo, top);
    }
  }

  lemma TopInitTags(m: Mem, lo: int, hi: int, top: int, topsize: int, h: Chunks, topsize': int)
    requires HeapTags(m, lo, hi, top, topsize, h) && 0 < topsize' && topsize' % 8 == 0
    requires top + topsize' + TOP_FOOT_SIZE <= WORD
    ensures HeapTags(TopInit(m, top, topsize'), lo, top + topsize' + TOP_FOOT_SIZE, top, topsize', h)
  {
    var m' := TopInit(m, top, topsize');
    FreeHeadPin(topsize);
    FreeHeadPin(topsize');
    forall p {:trigger Tag(m', p, h[p])} | p in h ensures Tag(m', p, h[p]) {
      assert Tag(m, p, h[p]) && WellSized(p, h[p], lo, top);
    }
    assert lo < top ==> WellSized(lo, h[lo], lo, top);
    assert HeapTags(m', lo, top + topsize' + TOP_FOOT_SIZE, top, topsize', h);
  }

  /** The end of the segment moves with the top's size. */
  lemma ResizeTop(m: Mem, gm: int, lo: int, hi: int, top: int, topsize: int, h: Chunks,
                  b: Binned, ix: Index, smallmap: int, treemap: int, out: set<int>, topsize': int)
    requires Sound(m, gm, lo, hi, top, topsize, h, b, ix, smallmap, treemap, out)
    requires 0 < topsize' && topsize' % 8 == 0 && top + topsize' + TOP_FOOT_SIZE <= WORD
    requires (gm + 392 <= lo || top + topsize' + TOP_FOOT_SIZE <= gm)
    requires Mapped(m, gm, lo, top + topsize' + TOP_FOOT_SIZE)
    ensures Sound(TopInit(m, top, topsize'), gm, lo, top + topsize' + TOP_FOOT_SIZE, top, topsize', h, b, ix, smallmap,
                  treemap, out)
    ensures PayloadKept(m, TopInit(m, top, topsize'), Live(h))
  {
    hide Indexed; hide HeapTags; hide Mapped; hide Heads; hide PayloadKept; hide FreeBut; hide Live; hide SameInside;
    hide Separate;
    var m', hi' := TopInit(m, top, topsize'), top + topsize' + TOP_FOOT_SIZE;
    TopInitInside(m, gm, lo, hi, top, topsize, h, b, ix, smallmap, treemap, out, topsize');
    EndSeparate(m, gm, lo, hi, top, topsize, h, b, ix, smallmap, treemap, out, hi');
    MoveEnd(m, gm, lo, hi, b, ix, smallmap, treemap, hi');
    KeepIndex(m, m', gm, lo, hi', b, ix, smallmap, treemap);
    TopInitTags(m, lo, hi, top, topsize, h, topsize');
    HeapHeads(m', lo, hi', top, topsize', h, out);
    MappedMore(m, m', gm, lo, hi');
  }

  // ---- First use ----

  /** All tree bins are empty in the array of roots. */
  ghost predicate RootsNull(m: Mem, gm: int) { forall i :: 0 <= i < 32 ==> Rd(m, TreeBin(gm, i)) == 0 }

  lemma NullRoots(m: Mem, gm: int)
    requires RootsNull(m, gm)
    ensures forall i :: 0 <= i < 32 ==> Rd(m, TreeBin(gm, i)) == 0
  {
  }

  ghost function NoIndex(): Index { Index(map[], map[], map[], map[], {}) }

  /** Bins of a zeroed `malloc_state`. */
  lemma EmptyBins(m: Mem, gm: int, lo: int, hi: int)
    requires 0 < gm && 0 < lo && hi <= WORD && (gm + 392 <= lo || hi <= gm)
    requires forall i :: 0 <= i < 32 ==> Rd(m, TreeBin(gm, i)) == 0
    ensures Indexed(m, gm, lo, hi, map[], NoIndex(), 0, 0)
  {
    var ix := NoIndex();
    forall j: nat | j < 32 ensures !BM.Bit(0, j) { BM.ZeroBit(j); }
    assert Sizes(ix.nodes, map[]) == map[];
    assert Trees(m, gm, ix.nodes, ix.roots);
    assert Indexed(m, gm, lo, hi, map[], ix, 0, 0);
  }

  /** A segment that is all top. */
  lemma FirstSegment(m: Mem, gm: int, lo: int, topsize: int)
    requires 0 < gm && 0 < lo && lo % 8 == 0 && 0 < topsize && topsize % 8 == 0 && lo + topsize + TOP_FOOT_SIZE <= WORD
    requires gm + 392 <= lo || lo + topsize + TOP_FOOT_SIZE <= gm
    requires Mapped(m, gm, lo, lo + topsize + TOP_FOOT_SIZE) && forall i :: 0 <= i < 32 ==> Rd(m, TreeBin(gm, i)) == 0
    ensures Sound(TopInit(m, lo, topsize), gm, lo, lo + topsize + TOP_FOOT_SIZE, lo, topsize, map[], map[], NoIndex(),
                  0, 0, {0})
  {
    var m', hi := TopInit(m, lo, topsize), lo + topsize + TOP_FOOT_SIZE;
    hide BM.Shows; hide Indexed;
    FreeHeadPin(topsize);
    EmptyBins(m', gm, lo, hi);
    MappedMore(m, m', gm, lo, hi);
    assert HeapTags(m', lo, hi, lo, topsize, map[]);
  }

  lemma ShrinkTop(m: Mem, gm: int, lo: int, hi: int, top: int, topsize: int, h: Chunks,
                  b: Binned, ix: Index, smallmap: int, treemap: int, out: set<int>, topsize': int)
    requires Sound(m, gm, lo, hi, top, topsize, h, b, ix, smallmap, treemap, out) && 0 < topsize' <= topsize
    requires topsize' % 8 == 0
    ensures Sound(TopInit(m, top, topsize'), gm, lo, top + topsize' + TOP_FOOT_SIZE, top, topsize', h, b, ix, smallmap,
                  treemap, out)
    ensures PayloadKept(m, TopInit(m, top, topsize'), Live(h))
  {
    hide Sound; hide PayloadKept; hide Live;
    Inner(m, gm, lo, hi, top, topsize, h, b, ix, smallmap, treemap, out, topsize');
    ResizeTop(m, gm, lo, hi, top, topsize, h, b, ix, smallmap, treemap, out, topsize');
  }

  lemma Inner(m: Mem, gm: int, lo: int, hi: int, top: int, topsize: int, h: Chunks,
              b: Binned, ix: Index, smallmap: int, treemap: int, out: set<int>, topsize': int)
    requires Sound(m, gm, lo, hi, top, topsize, h, b, ix, smallmap, treemap, out) && 0 < topsize' <= topsize
    ensures top + topsize' + TOP_FOOT_SIZE <= WORD && (gm + 392 <= lo || top + topsize' + TOP_FOOT_SIZE <= gm)
    ensures Mapped(m, gm, lo, top + topsize' + TOP_FOOT_SIZE)
  {
    hide Listed; hide AllRings; hide AllTagged; hide Maps; hide Seated; hide Trees; hide Trie; hide Heads; hide Tags;
    hide Coalesced;
  }

  /** `(x / u - 1) * u` is the last multiple of u not above x - u. */
  lemma WholeUnits(x: int, u: int)
    requires 0 < u
    ensures x - 2 * u < (x / u - 1) * u <= x - u
  {
    assert x == x / u * u + x % u;
    assert (x / u - 1) * u == x / u * u - u;
  }
}
