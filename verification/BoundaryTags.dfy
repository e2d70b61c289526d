/** Boundary tags: what head and foot words say about the tiling, and which writes keep that. */
module BoundaryTags {
  import opened Words
  import opened Tiling
  import opened Bins
  import opened LargeSteps

  const TOP_FOOT_SIZE := 40

  /** The head, the foot and the next chunk's pinuse bit agree with chunk `c` at `p`. */
  ghost predicate Tag(m: Mem, p: int, c: Chunk) {
    && SizeOf(Rd(m, p + 4)) == c.size && Cinuse(Rd(m, p + 4)) == c.inuse
    && Pinuse(Rd(m, p + c.size + 4)) == c.inuse
    && (!c.inuse ==> Rd(m, p + c.size) == c.size)
  }

  ghost predicate Tags(m: Mem, h: Chunks) {
    forall p {:trigger Tag(m, p, h[p])} :: p in h ==> Tag(m, p, h[p])
  }

  /** The top chunk: its head, and the fencepost head behind it that ends the segment at `hi`. */
  ghost predicate TopTag(m: Mem, lo: int, hi: int, top: int, topsize: int) {
    && 0 < lo && hi <= WORD && 0 < topsize && topsize % 8 == 0 && top + topsize + TOP_FOOT_SIZE == hi
    && Rd(m, top + 4) == topsize + 1 && Rd(m, top + topsize + 4) == TOP_FOOT_SIZE
  }

  /** Every head, foot and in-use bit is right, and free chunks are coalesced. */
  ghost predicate HeapTags(m: Mem, lo: int, hi: int, top: int, topsize: int, h: Chunks) {
    && Tiled(h, lo, top)
    && Coalesced(h)
    && Tags(m, h)
    && TopTag(m, lo, hi, top, topsize)
    && Pinuse(Rd(m, lo + 4))
  }

  /** The free chunks of `h` that are not in `out`, as they should be binned. */
  ghost function FreeBut(h: Chunks, out: set<int>): Binned {
    map p | p in h && !h[p].inuse && p !in out :: if p in h && !h[p].inuse && p !in out then h[p].size else 0
  }

  /** The bytes handed out to callers: words behind the head up to and including the next chunk's foot word. */
  ghost predicate InBlock(live: map<int, int>, q: int, w: int)
    requires q in live
  {
    q + 8 <= w < q + live[q] + 4
  }

  ghost predicate PayloadKept(m: Mem, m': Mem, live: map<int, int>) {
    forall q, w {:trigger InBlock(live, q, w), Rd(m', w)} :: q in live && InBlock(live, q, w) ==> Rd(m', w) == Rd(m, w)
  }

  lemma PayloadTwice(m: Mem, m1: Mem, m2: Mem, live: map<int, int>)
    requires PayloadKept(m, m1, live) && PayloadKept(m1, m2, live)
    ensures PayloadKept(m, m2, live)
  {
    forall q, w {:trigger InBlock(live, q, w), Rd(m2, w)} | q in live && InBlock(live, q, w) ensures Rd(m2, w) == Rd(m, w) {
      assert Rd(m1, w) == Rd(m, w);
    }
  }

  // ---- Index writes ----

  /** A word of the segment that lies in no binned chunk's link area. */
  lemma TagWordOutside(gm: int, lo: int, hi: int, top: int, h: Chunks, out: set<int>, w: int, p: int)
    requires Tiled(h, lo, top) && Separate(gm, lo, hi, FreeBut(h, out)) && lo <= w < hi
    requires (p in h && p !in FreeBut(h, out) && p + 8 <= w < p + h[p].size + 4) || (Edge(h, p, top) && p <= w <= p + 4) || top <= w
    ensures Outside(gm, FreeBut(h, out), w)
  {
  }

  lemma IndexKeepsTags(m: Mem, m': Mem, gm: int, lo: int, hi: int, top: int, h: Chunks, out: set<int>)
    requires Tiled(h, lo, top) && top + 4 < hi && Separate(gm, lo, hi, FreeBut(h, out))
    requires Touches(m, m', gm, FreeBut(h, out)) && Tags(m, h)
    ensures Tags(m', h)
  {
    forall p {:trigger Tag(m', p, h[p])} | p in h ensures Tag(m', p, h[p]) {
      var n := p + h[p].size;
      assert Tag(m, p, h[p]) && WellSized(p, h[p], lo, top) && NextIn(h, p, top);
      TagWordOutside(gm, lo, hi, top, h, out, p + 4, p);
      TagWordOutside(gm, lo, hi, top, h, out, n, n);
      TagWordOutside(gm, lo, hi, top, h, out, n + 4, n);
    }
  }

  /** Writes inside the index leave every tag and every block alone. */
  lemma IndexKeepsHeap(m: Mem, m': Mem, gm: int, lo: int, hi: int, top: int, topsize: int, h: Chunks, out: set<int>)
    requires HeapTags(m, lo, hi, top, topsize, h)
    requires Separate(gm, lo, hi, FreeBut(h, out)) && Touches(m, m', gm, FreeBut(h, out))
    ensures HeapTags(m', lo, hi, top, topsize, h) && PayloadKept(m, m', Live(h))
  {
    IndexKeepsTags(m, m', gm, lo, hi, top, h, out);
    TagWordOutside(gm, lo, hi, top, h, out, top + 4, top);
    TagWordOutside(gm, lo, hi, top, h, out, top + topsize + 4, top);
    TagWordOutside(gm, lo, hi, top, h, out, lo + 4, lo);
    IndexKeepsBlocks(m, m', gm, lo, hi, top, h, out);
    assert HeapTags(m', lo, hi, top, topsize, h);
  }

  lemma IndexKeepsBlocks(m: Mem, m': Mem, gm: int, lo: int, hi: int, top: int, h: Chunks, out: set<int>)
    requires Tiled(h, lo, top) && top + 4 < hi && Separate(gm, lo, hi, FreeBut(h, out))
    requires Touches(m, m', gm, FreeBut(h, out))
    ensures PayloadKept(m, m', Live(h))
  {
    forall q, w {:trigger InBlock(Live(h), q, w), Rd(m', w)} | q in Live(h) && InBlock(Live(h), q, w) ensures Rd(m', w) == Rd(m, w) {
      assert WellSized(q, h[q], lo, top);
      TagWordOutside(gm, lo, hi, top, h, out, w, q);
    }
  }

  // ---- Tag writes ----

  /** `m'` re-tags the chunks of [a, e) as `piece`; outside, only the pinuse bit at `e` may change,
      unless `e` is the top, which then moves to the end of `piece`. */
  ghost predicate Retagged(m: Mem, m': Mem, h: Chunks, top: int, a: int, e: int, piece: Chunks, top': int) {
    var u := if e == top then top' else e;
    && (forall w {:trigger Rd(m', w)} :: w < a + 4 || (u + 4 < w && e + 4 < w) ==> Rd(m', w) == Rd(m, w))
    && Tags(m', piece)
    && Pinuse(Rd(m', a + 4)) == Pinuse(Rd(m, a + 4))
    && (e != top ==> SizeOf(Rd(m', e + 4)) == SizeOf(Rd(m, e + 4)) && Cinuse(Rd(m', e + 4)) == Cinuse(Rd(m, e + 4)))
  }

  lemma SpliceTags(m: Mem, m': Mem, h: Chunks, lo: int, top: int, a: int, e: int, piece: Chunks, e': int, top': int)
    requires Fits(h, lo, top, a, e, piece, e', top') && Tags(m, h) && Retagged(m, m', h, top, a, e, piece, top')
    ensures Tags(m', Splice(h, a, e, piece))
  {
    var s := Splice(h, a, e, piece);
    forall p {:trigger Tag(m', p, s[p])} | p in s ensures Tag(m', p, s[p]) {
      if p in piece {
        assert Tag(m', p, piece[p]);
      } else {
        assert Tag(m, p, h[p]) && WellSized(p, h[p], lo, top);
        if p < a && a in h { assert p + h[p].size <= a; }
      }
    }
  }

  /** The chunk just below `a`, if free, meets an in-use chunk. */
  ghost predicate LowerOk(h: Chunks, a: int, piece: Chunks) {
    forall p :: p in h && p < a && p + h[p].size == a ==> h[p].inuse || (a in piece && piece[a].inuse)
  }

  ghost predicate PieceOk(h: Chunks, a: int, e: int, piece: Chunks) {
    forall p {:trigger piece[p]} :: p in piece && !piece[p].inuse ==> NextUsed(Splice(h, a, e, piece), p)
  }

  /** A chunk address of the piece that was one before lies in the region. */
  ghost predicate KeysApart(h: Chunks, a: int, e: int, piece: Chunks) {
    forall p :: p in piece && p in h ==> a <= p < e
  }

  lemma PieceKeys(h: Chunks, lo: int, top: int, a: int, e: int, piece: Chunks, e': int, top': int)
    requires Fits(h, lo, top, a, e, piece, e', top')
    ensures KeysApart(h, a, e, piece)
  {
    forall p | p in piece && p in h ensures a <= p < e { assert WellSized(p, piece[p], a, e') && WellSized(p, h[p], lo, top); }
  }

  lemma SpliceNextUsed(h: Chunks, lo: int, top: int, a: int, e: int, piece: Chunks, e': int, top': int, p: int)
    requires Fits(h, lo, top, a, e, piece, e', top') && LowerOk(h, a, piece)
    requires p in h && (p < a || e <= p) && p !in piece && !h[p].inuse && NextUsed(h, p)
    ensures NextUsed(Splice(h, a, e, piece), p)
  {
    PieceKeys(h, lo, top, a, e, piece, e', top');
    var n := p + h[p].size;
    assert n <= a || e <= n by { FreeBefore(h, lo, top, a, e, p); }
    hide Fits;
  }

  lemma FreeBefore(h: Chunks, lo: int, top: int, a: int, e: int, p: int)
    requires Tiled(h, lo, top) && lo <= a <= e <= top && Edge(h, a, top) && p in h && (p < a || e <= p)
    ensures p + h[p].size <= a || e <= p + h[p].size
  {
    assert WellSized(p, h[p], lo, top);
  }

  lemma SpliceCoalesced(h: Chunks, lo: int, top: int, a: int, e: int, piece: Chunks, e': int, top': int)
    requires Fits(h, lo, top, a, e, piece, e', top') && Coalesced(h) && LowerOk(h, a, piece) && PieceOk(h, a, e, piece)
    ensures Coalesced(Splice(h, a, e, piece))
  {
    var s := Splice(h, a, e, piece);
    forall p {:trigger NextUsed(s, p)} | p in s && !s[p].inuse ensures NextUsed(s, p) {
      if p !in piece {
        assert NextUsed(h, p);
        SpliceNextUsed(h, lo, top, a, e, piece, e', top', p);
      }
    }
  }

  // ---- What re-tagging leaves alone ----

  /** The live blocks outside [a, e). */
  ghost function LiveOut(h: Chunks, a: int, e: int): map<int, int> {
    map q | q in h && h[q].inuse && (q < a || e <= q) :: if q in h && h[q].inuse && (q < a || e <= q) then h[q].size else 0
  }

  lemma LiveSplice(h: Chunks, lo: int, top: int, a: int, e: int, piece: Chunks, e': int, top': int)
    requires Fits(h, lo, top, a, e, piece, e', top')
    ensures Live(Splice(h, a, e, piece)) == LiveOut(h, a, e) + Live(piece)
  {
    PieceKeys(h, lo, top, a, e, piece, e', top');
    hide Fits;
    var l, r := Live(Splice(h, a, e, piece)), LiveOut(h, a, e) + Live(piece);
    forall q ensures q in l <==> q in r {}
    forall q | q in l ensures l[q] == r[q] {}
  }

  lemma RetagKeepsBlocks(m: Mem, m': Mem, h: Chunks, lo: int, top: int, a: int, e: int, piece: Chunks, e': int,
                         top': int)
    requires Fits(h, lo, top, a, e, piece, e', top') && Retagged(m, m', h, top, a, e, piece, top')
    ensures PayloadKept(m, m', LiveOut(h, a, e))
  {
    var live := LiveOut(h, a, e);
    forall q, w {:trigger InBlock(live, q, w), Rd(m', w)} | q in live && InBlock(live, q, w) ensures Rd(m', w) == Rd(m, w) {
      assert WellSized(q, h[q], lo, top);
      if q < a && a in h { assert q + h[q].size <= a; }
    }
  }

  lemma RetagKeepsInside(m: Mem, m': Mem, gm: int, lo: int, hi: int, h: Chunks, top: int, a: int, e: int, piece: Chunks,
                         e': int, top': int, b: Binned)
    requires Fits(h, lo, top, a, e, piece, e', top') && Retagged(m, m', h, top, a, e, piece, top') && top + 4 < hi
    requires top' + 4 < hi
    requires Separate(gm, lo, hi, b) && forall p :: p in b ==> p in h && h[p].size == b[p] && (p < a || e <= p)
    ensures SameInside(m, m', gm, b)
  {
    forall p, w {:trigger p in b, Rd(m', w)} | p in b && p + 8 <= w < p + b[p] ensures Rd(m', w) == Rd(m, w) {
      assert WellSized(p, h[p], lo, top);
      if p < a && a in h { assert p + h[p].size <= a; }
    }
  }

  /** Which free chunks are kept out of the bins before and after the re-tagging. */
  ghost predicate OutOk(h: Chunks, a: int, e: int, piece: Chunks, out: set<int>, out': set<int>) {
    && (forall p :: p in h && a <= p < e && !h[p].inuse ==> p in out)
    && (forall p :: p in piece && !piece[p].inuse ==> p in out')
    && (forall p :: p in h && (p < a || e <= p) ==> (p in out <==> p in out'))
  }

  lemma RetagFree(h: Chunks, lo: int, top: int, a: int, e: int, piece: Chunks, e': int, top': int, out: set<int>,
                  out': set<int>)
    requires Fits(h, lo, top, a, e, piece, e', top') && OutOk(h, a, e, piece, out, out')
    ensures FreeBut(Splice(h, a, e, piece), out') == FreeBut(h, out)
  {
    PieceKeys(h, lo, top, a, e, piece, e', top');
    hide Fits;
    var l, r := FreeBut(Splice(h, a, e, piece), out'), FreeBut(h, out);
    forall p ensures p in l <==> p in r {}
    forall p | p in l ensures l[p] == r[p] {}
  }

  lemma TagsGiveHeads(m: Mem, h: Chunks, out: set<int>)
    requires Tags(m, h)
    ensures Heads(m, FreeBut(h, out))
  {
    forall p | p in FreeBut(h, out) ensures SizeOf(Rd(m, p + 4)) == FreeBut(h, out)[p] { assert Tag(m, p, h[p]); }
  }

  lemma RetagHeap(m: Mem, m': Mem, lo: int, hi: int, top: int, topsize: int, h: Chunks,
                  a: int, e: int, piece: Chunks, e': int, top': int, topsize': int)
    requires HeapTags(m, lo, hi, top, topsize, h)
    requires Fits(h, lo, top, a, e, piece, e', top') && Retagged(m, m', h, top, a, e, piece, top')
    requires LowerOk(h, a, piece) && PieceOk(h, a, e, piece)
    requires top + topsize == top' + topsize' && 0 < topsize' && topsize' % 8 == 0
    requires (e == top ==> Rd(m', top' + 4) == topsize' + 1)
    ensures HeapTags(m', lo, hi, top', topsize', Splice(h, a, e, piece))
  {
    var s := Splice(h, a, e, piece);
    SpliceTiled(h, lo, top, a, e, piece, e', top');
    SpliceTags(m, m', h, lo, top, a, e, piece, e', top');
    SpliceCoalesced(h, lo, top, a, e, piece, e', top');
    RetagEnds(m, m', lo, hi, top, topsize, h, a, e, piece, e', top', topsize');
    hide Tiled; hide Coalesced; hide Tags; hide Splice; hide LowerOk; hide PieceOk; hide Pinuse; hide Fits;
    hide Retagged; hide TopTag;
    assert HeapTags(m', lo, hi, top', topsize', s);
  }

  lemma RetagEnds(m: Mem, m': Mem, lo: int, hi: int, top: int, topsize: int, h: Chunks,
                  a: int, e: int, piece: Chunks, e': int, top': int, topsize': int)
    requires TopTag(m, lo, hi, top, topsize) && Pinuse(Rd(m, lo + 4))
    requires Fits(h, lo, top, a, e, piece, e', top') && Retagged(m, m', h, top, a, e, piece, top')
    requires top + topsize == top' + topsize' && 0 < topsize' && topsize' % 8 == 0
    requires (e == top ==> Rd(m', top' + 4) == topsize' + 1)
    ensures TopTag(m', lo, hi, top', topsize') && Pinuse(Rd(m', lo + 4))
  {
    hide Tags; hide Pinuse; hide SizeOf; hide Cinuse;
    assert top' >= a && top' % 8 == 0;
    assert Rd(m', top + topsize + 4) == Rd(m, top + topsize + 4);
    assert e != top ==> Rd(m', top + 4) == Rd(m, top + 4);
  }

  /** Re-tagging a region whose free chunks are unbinned: the bins, the rest of the heap and all other blocks stay as
      they are. */
  lemma Retile(m: Mem, m': Mem, gm: int, lo: int, hi: int, top: int, topsize: int, h: Chunks,
               b: Binned, ix: Index, smallmap: int, treemap: int, out: set<int>,
               a: int, e: int, piece: Chunks, e': int, top': int, topsize': int, out': set<int>)
    requires Indexed(m, gm, lo, hi, b, ix, smallmap, treemap)
    requires HeapTags(m, lo, hi, top, topsize, h) && b == FreeBut(h, out)
    requires Fits(h, lo, top, a, e, piece, e', top') && Retagged(m, m', h, top, a, e, piece, top')
    requires LowerOk(h, a, piece) && PieceOk(h, a, e, piece)
    requires top + topsize == top' + topsize' && 0 < topsize' && topsize' % 8 == 0
    requires (e == top ==> Rd(m', top' + 4) == topsize' + 1)
    requires OutOk(h, a, e, piece, out, out')
    ensures Indexed(m', gm, lo, hi, b, ix, smallmap, treemap)
    ensures HeapTags(m', lo, hi, top', topsize', Splice(h, a, e, piece))
    ensures Heads(m', b) && b == FreeBut(Splice(h, a, e, piece), out')
    ensures PayloadKept(m, m', LiveOut(h, a, e)) && Live(Splice(h, a, e, piece)) == LiveOut(h, a, e) + Live(piece)
  {
    hide Indexed; hide HeapTags; hide Fits; hide Retagged; hide Splice; hide LowerOk; hide PieceOk; hide OutOk;
    RetagHeap(m, m', lo, hi, top, topsize, h, a, e, piece, e', top', topsize');
    RetagFree(h, lo, top, a, e, piece, e', top', out, out');
    RetagBins(m, m', gm, lo, hi, top, topsize, h, b, ix, smallmap, treemap, out, a, e, piece, e', top', topsize', out');
    RetagKeepsBlocks(m, m', h, lo, top, a, e, piece, e', top');
    LiveSplice(h, lo, top, a, e, piece, e', top');
    HeapHeads(m', lo, hi, top', topsize', Splice(h, a, e, piece), out');
  }

  lemma HeapHeads(m: Mem, lo: int, hi: int, top: int, topsize: int, h: Chunks, out: set<int>)
    requires HeapTags(m, lo, hi, top, topsize, h)
    ensures Heads(m, FreeBut(h, out))
  {
    TagsGiveHeads(m, h, out);
  }

  lemma RetagBins(m: Mem, m': Mem, gm: int, lo: int, hi: int, top: int, topsize: int, h: Chunks,
                  b: Binned, ix: Index, smallmap: int, treemap: int, out: set<int>,
                  a: int, e: int, piece: Chunks, e': int, top': int, topsize': int, out': set<int>)
    requires Indexed(m, gm, lo, hi, b, ix, smallmap, treemap)
    requires HeapTags(m, lo, hi, top, topsize, h) && b == FreeBut(h, out)
    requires Fits(h, lo, top, a, e, piece, e', top') && Retagged(m, m', h, top, a, e, piece, top')
    requires top + topsize == top' + topsize' && 0 < topsize' && OutOk(h, a, e, piece, out, out')
    ensures Indexed(m', gm, lo, hi, b, ix, smallmap, treemap)
  {
    hide Listed; hide AllRings; hide AllTagged; hide Maps; hide Seated;
    RetagKeepsInside(m, m', gm, lo, hi, h, top, a, e, piece, e', top', b);
    KeepIndex(m, m', gm, lo, hi, b, ix, smallmap, treemap);
  }
}
