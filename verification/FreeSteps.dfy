/** Taking blocks back: what consolidation does to the heap as a whole. */
module FreeSteps {
  import opened Words
  import opened Tiling
  import opened Bins
  import opened LargeSteps
  import opened BoundaryTags
  import opened Retags
  import opened AllocSteps

  /** Block `p` with its free neighbours fills exactly [a, e). */
  ghost predicate Around(h: Chunks, top: int, a: int, p: int, e: int) {
    && p in h && h[p].inuse && a in h
    && (a == p || (a < p && !h[a].inuse && a + h[a].size == p))
    && (p + h[p].size == e || (e != top && p + h[p].size in h && !h[p + h[p].size].inuse && p + h[p].size + h[p + h[p].size].size == e))
  }

  /** The chunks that start in [a, e) are `p` and its free neighbours. */
  lemma AroundOnly(h: Chunks, lo: int, top: int, a: int, p: int, e: int, q: int)
    requires Tiled(h, lo, top) && Around(h, top, a, p, e) && q in h && a <= q < e
    ensures q == a || q == p || q == p + h[p].size
    ensures h[q].inuse ==> q == p
  {
  }

  /** The effect of taking back block `p`: its space is part of the free chunk at `a`, or of the top. */
  ghost predicate Returned(m: Mem, m': Mem, h: Chunks, h': Chunks, p: int) {
    && p in Live(h) && Live(h') == Live(h) - {p} && PayloadKept(m, m', Live(h'))
  }

  lemma ReturnedFrom(m: Mem, m': Mem, h: Chunks, lo: int, top: int, a: int, p: int, e: int, piece: Chunks)
    requires Tiled(h, lo, top) && Around(h, top, a, p, e) && a < e
    requires PayloadKept(m, m', LiveOut(h, a, e)) && Live(Splice(h, a, e, piece)) == LiveOut(h, a, e) + Live(piece)
    requires forall q :: q in piece ==> !piece[q].inuse
    ensures Returned(m, m', h, Splice(h, a, e, piece), p)
  {
    OneLive(h, lo, top, a, p, e);
    LessOne(h, a, p, e, piece);
  }

  lemma OneLive(h: Chunks, lo: int, top: int, a: int, p: int, e: int)
    requires Tiled(h, lo, top) && Around(h, top, a, p, e)
    ensures a <= p < e && p in h && h[p].inuse && forall q :: q in h && h[q].inuse && a <= q < e ==> q == p
  {
    forall q | q in h && h[q].inuse && a <= q < e ensures q == p { AroundOnly(h, lo, top, a, p, e, q); }
    var n := p + h[p].size;
    assert WellSized(p, h[p], lo, top);
    if n != e { assert WellSized(n, h[n], lo, top); }
  }

  lemma LessOne(h: Chunks, a: int, p: int, e: int, piece: Chunks)
    requires a <= p < e && p in h && h[p].inuse && (forall q :: q in h && h[q].inuse && a <= q < e ==> q == p)
    requires forall q :: q in piece ==> !piece[q].inuse
    ensures LiveOut(h, a, e) + Live(piece) == Live(h) - {p} == LiveOut(h, a, e) && p in Live(h)
  {
    var live := Live(piece);
    forall q ensures q !in live { assert q in piece ==> !piece[q].inuse; }
    assert LiveOut(h, a, e) == Live(h) - {p};
    assert LiveOut(h, a, e) + live == LiveOut(h, a, e);
  }

  /** What the writes that end a consolidation have done. */
  ghost predicate FreeTagged(m: Mem, m': Mem, a: int, e: int) {
    && Only(m, m', {a + 4, e, e + 4}) && m.Keys <= m'.Keys && Rd(m', a + 4) == FreeHead(e - a) && Rd(m', e) == e - a
    && PinIs(Rd(m, e + 4), Rd(m', e + 4), false)
  }

  /** Which free chunks are unbinned afterwards. */
  ghost predicate OutAfter(h: Chunks, a: int, p: int, e: int, out: set<int>, out': set<int>) {
    && (forall q :: q in h && a <= q < e && !h[q].inuse ==> q in out) && a in out'
    && (forall q :: q in h && (q < a || e <= q) ==> (q in out <==> q in out'))
  }

  /** Chunks outside [a, e) stay. */
  ghost predicate Beyond(h: Chunks, h': Chunks, a: int, e: int) {
    forall q :: q in h && (q < a || e <= q) ==> q in h' && h'[q] == h[q]
  }

  lemma AroundFacts(m: Mem, lo: int, hi: int, top: int, topsize: int, h: Chunks, a: int, p: int, e: int)
    requires HeapTags(m, lo, hi, top, topsize, h) && Around(h, top, a, p, e)
    requires (a == p ==> Pinuse(Rd(m, p + 4)))
    ensures Pinuse(Rd(m, a + 4)) && a < e && (e - a) % 8 == 0 && Tiled(h, lo, top) && a > 0 && Edge(h, e, top)
    ensures p + h[p].size != e ==> e in h && h[e].inuse
  {
    if a != p { PrevUsed(m, lo, hi, top, topsize, h, a); }
    hide Tags; hide Pinuse;
    AroundEnd(h, lo, top, a, p, e);
  }

  lemma AroundEnd(h: Chunks, lo: int, top: int, a: int, p: int, e: int)
    requires Tiled(h, lo, top) && Coalesced(h) && 0 < lo && Around(h, top, a, p, e)
    ensures a < e && (e - a) % 8 == 0 && a > 0 && Edge(h, e, top) && (p + h[p].size != e ==> e in h && h[e].inuse)
  {
    var n := p + h[p].size;
    assert WellSized(a, h[a], lo, top) && WellSized(p, h[p], lo, top) && NextIn(h, p, top);
    if n != e { assert NextUsed(h, n) && WellSized(n, h[n], lo, top); }
    assert e == top || WellSized(e, h[e], lo, top);
  }

  lemma FreeStep(m: Mem, m': Mem, gm: int, lo: int, hi: int, top: int, topsize: int, h: Chunks,
                 b: Binned, ix: Index, smallmap: int, treemap: int, out: set<int>, a: int, p: int, e: int, out': set<int>) returns (h': Chunks)
    requires Sound(m, gm, lo, hi, top, topsize, h, b, ix, smallmap, treemap, out)
    requires Around(h, top, a, p, e) && e in h && h[e].inuse && (a == p ==> Pinuse(Rd(m, p + 4)))
    requires FreeTagged(m, m', a, e) && OutAfter(h, a, p, e, out, out')
    ensures Sound(m', gm, lo, hi, top, topsize, h', b, ix, smallmap, treemap, out')
    ensures Returned(m, m', h, h', p) && a in h' && h'[a] == Chunk(e - a, false) && Beyond(h, h', a, e)
    ensures forall q :: q in h' ==> q in h
  {
    hide Indexed; hide HeapTags; hide Mapped; hide Heads; hide Recut; hide FreeBut; hide PayloadKept; hide Live;
    hide LiveOut; hide Tiled; hide SizeOf; hide Cinuse; hide Pinuse; hide Returned;
    var piece := One(a, e - a, false);
    h' := Splice(h, a, e, piece);
    AroundFacts(m, lo, hi, top, topsize, h, a, p, e);
    Heads3(e - a);
    RecutFree(m, m', lo, hi, top, topsize, h, a, e);
    ApplyRecut(m, m', gm, lo, hi, top, topsize, h, b, ix, smallmap, treemap, out, a, e, piece, e, top, topsize, out');
    ReturnedFrom(m, m', h, lo, top, a, p, e, piece);
  }

  /** The writes that end a consolidation with the top. */
  ghost predicate TopTagged(m: Mem, m': Mem, a: int, tsize: int) {
    Only(m, m', {a + 4}) && m.Keys <= m'.Keys && Rd(m', a + 4) == FreeHead(tsize)
  }

  lemma JoinTop(m: Mem, m': Mem, gm: int, lo: int, hi: int, top: int, topsize: int, h: Chunks,
                b: Binned, ix: Index, smallmap: int, treemap: int, out: set<int>, a: int, p: int, out': set<int>) returns (h': Chunks)
    requires Sound(m, gm, lo, hi, top, topsize, h, b, ix, smallmap, treemap, out)
    requires Around(h, top, a, p, top) && (a == p ==> Pinuse(Rd(m, p + 4)))
    requires TopTagged(m, m', a, top + topsize - a)
    requires (forall q :: q in h && a <= q < top && !h[q].inuse ==> q in out)
    requires (forall q :: q in h && q < a ==> (q in out <==> q in out'))
    ensures Sound(m', gm, lo, hi, a, top + topsize - a, h', b, ix, smallmap, treemap, out')
    ensures Returned(m, m', h, h', p) && (forall q :: q in h && q < a ==> q in h' && h'[q] == h[q])
  {
    hide Indexed; hide HeapTags; hide Mapped; hide Heads; hide Recut; hide FreeBut; hide PayloadKept; hide Live;
    hide LiveOut; hide Tiled; hide SizeOf; hide Cinuse; hide Pinuse; hide Returned;
    var piece := map[];
    h' := Splice(h, a, top, piece);
    AroundFacts(m, lo, hi, top, topsize, h, a, p, top);
    TopEnd(m, lo, hi, top, topsize, h, a);
    RecutTop(m, m', lo, hi, top, topsize, h, a, a);
    ApplyRecut(m, m', gm, lo, hi, top, topsize, h, b, ix, smallmap, treemap, out, a, top, piece, a, a,
               top + topsize - a, out');
    ReturnedFrom(m, m', h, lo, top, a, p, top, piece);
  }

  lemma TopEnd(m: Mem, lo: int, hi: int, top: int, topsize: int, h: Chunks, a: int)
    requires HeapTags(m, lo, hi, top, topsize, h) && a in h
    ensures a % 8 == 0 && a < top < top + topsize && forall q :: q in h ==> q < top
  {
    forall q | q in h ensures q < top { assert WellSized(q, h[q], lo, top); }
    assert WellSized(a, h[a], lo, top);
  }

  // ---- What the code reads ----

  /** The chunk behind a block in use. */
  lemma NextRead(m: Mem, lo: int, hi: int, top: int, topsize: int, h: Chunks, p: int)
    requires HeapTags(m, lo, hi, top, topsize, h) && p in h && h[p].inuse
    ensures var n := p + h[p].size;
            && Edge(h, n, top) && p < n && Pinuse(Rd(m, n + 4)) && (n == top ==> !Cinuse(Rd(m, n + 4)) && n !in h)
            && (n != top ==> n in h && Cinuse(Rd(m, n + 4)) == h[n].inuse && SizeOf(Rd(m, n + 4)) == h[n].size)
  {
    var n := p + h[p].size;
    assert NextIn(h, p, top) && Tag(m, p, h[p]) && WellSized(p, h[p], lo, top);
    assert n in h ==> WellSized(n, h[n], lo, top) && Tag(m, n, h[n]);
    HeadFields(topsize, false, true);
  }

  /** The writes of `set_free_with_pinuse(p, s, n)`. */
  function FreeWithPinuse(m: Mem, p: int, s: int, n: int): Mem {
    m[n + 4 := WithoutPinuse(Rd(m, n + 4))][p + 4 := FreeHead(s)][p + s := s]
  }

  /** The writes of `set_size_and_pinuse_of_free_chunk(p, s)`. */
  function FreeSized(m: Mem, p: int, s: int): Mem { m[p + 4 := FreeHead(s)][p + s := s] }

  lemma FreeWithPinuseTags(m: Mem, a: int, e: int)
    requires a + 16 <= e
    ensures FreeTagged(m, FreeWithPinuse(m, a, e - a, e), a, e)
  {
    PinuseBitOnly(Rd(m, e + 4));
    hide SizeOf; hide Cinuse; hide Pinuse; hide WithoutPinuse;
  }

  /** Merging with a free chunk that ends at `e`: the pinuse bit there is clear already. */
  lemma FreeSizedTags(m: Mem, lo: int, hi: int, top: int, topsize: int, h: Chunks, a: int, n: int, e: int)
    requires HeapTags(m, lo, hi, top, topsize, h) && n in h && !h[n].inuse && n + h[n].size == e
    requires a + 16 <= n
    ensures FreeTagged(m, FreeSized(m, a, e - a), a, e)
  {
    assert Tag(m, n, h[n]) && WellSized(n, h[n], lo, top);
    hide SizeOf; hide Cinuse; hide Pinuse; hide Tags; hide Coalesced; hide Tiled;
  }

  lemma Region2(m: Mem, gm: int, lo: int, hi: int, top: int, topsize: int, h: Chunks,
                b: Binned, ix: Index, smallmap: int, treemap: int, out: set<int>, a: int, p: int, e: int)
    requires Sound(m, gm, lo, hi, top, topsize, h, b, ix, smallmap, treemap, out) && Around(h, top, a, p, e)
    ensures HeapTags(m, lo, hi, top, topsize, h) && a + 16 <= e && e + 4 in m && a + 16 <= p + h[p].size
    ensures p + h[p].size != e ==> e in h && h[e].inuse
  {
    hide Indexed; hide HeapTags; hide Mapped; hide Heads; hide FreeBut;
    AroundRegion(m, lo, hi, top, topsize, h, a, p, e);
    EdgeMapped(m, gm, lo, hi, top, topsize, h, e);
  }

  lemma AroundRegion(m: Mem, lo: int, hi: int, top: int, topsize: int, h: Chunks, a: int, p: int, e: int)
    requires HeapTags(m, lo, hi, top, topsize, h) && Around(h, top, a, p, e)
    ensures a + 16 <= p + h[p].size <= e && Edge(h, e, top) && (p + h[p].size != e ==> e in h && h[e].inuse)
  {
    hide Tags;
    AroundEnd(h, lo, top, a, p, e);
    var n := p + h[p].size;
    assert WellSized(a, h[a], lo, top) && WellSized(p, h[p], lo, top);
    if n != e { assert WellSized(n, h[n], lo, top); }
  }

  lemma ReturnedThen(m: Mem, m1: Mem, m2: Mem, m3: Mem, h: Chunks, h': Chunks, p: int)
    requires PayloadKept(m, m1, Live(h)) && Returned(m1, m2, h, h', p) && PayloadKept(m2, m3, Live(h'))
    ensures Returned(m, m3, h, h', p)
  {
    PayloadLess(m, m1, Live(h'), Live(h));
    PayloadTwice(m, m1, m2, Live(h'));
    PayloadTwice(m, m2, m3, Live(h'));
  }

  /** The unbinned chunks after a step backward: the designated victim, and the chunk below if it was unlinked. */
  ghost function Held(dv: int, a: int, p: int): set<int> { if a == p || a == dv then {dv} else {dv} + {a} }

  lemma NotBlock(m: Mem, gm: int, lo: int, hi: int, top: int, topsize: int, h: Chunks,
                 b: Binned, ix: Index, smallmap: int, treemap: int, out: set<int>, a: int, p: int, e: int, dv: int)
    requires Sound(m, gm, lo, hi, top, topsize, h, b, ix, smallmap, treemap, out) && Around(h, top, a, p, e)
    requires dv == 0 || (dv in h && !h[dv].inuse)
    ensures dv == a || dv == p + h[p].size || dv < a || e <= dv
    ensures 0 !in h && a > 0 && (forall q :: q in h && a <= q < e ==> q == a || q == p || q == p + h[p].size)
    ensures forall q :: q in h ==> q < top
  {
    hide Indexed; hide Mapped; hide Heads; hide FreeBut; hide Tags; hide Coalesced;
    forall q | q in h && a <= q < e ensures q == a || q == p || q == p + h[p].size { AroundOnly(h, lo, top, a, p, e, q); }
    assert WellSized(a, h[a], lo, top);
    assert 0 in h ==> WellSized(0, h[0], lo, top);
    forall q | q in h ensures q < top { assert WellSized(q, h[q], lo, top); }
  }

  lemma FreeIsBinned(m: Mem, gm: int, lo: int, hi: int, top: int, topsize: int, h: Chunks,
                     b: Binned, ix: Index, smallmap: int, treemap: int, out: set<int>, p: int)
    requires Sound(m, gm, lo, hi, top, topsize, h, b, ix, smallmap, treemap, out) && p in h && !h[p].inuse && p !in out
    ensures p in b && b[p] == h[p].size
  {
    hide Indexed; hide HeapTags; hide Mapped; hide Heads;
  }

  /** What a block's own head, its foot word and the next head say. */
  lemma BlockReads(m: Mem, gm: int, lo: int, hi: int, top: int, topsize: int, h: Chunks,
                   b: Binned, ix: Index, smallmap: int, treemap: int, out: set<int>, p: int)
    requires Sound(m, gm, lo, hi, top, topsize, h, b, ix, smallmap, treemap, out) && p in h && h[p].inuse
    ensures p > 0 && p in m && p + 4 in m && p + h[p].size + 4 in m && SizeOf(m[p + 4]) == h[p].size && Cinuse(m[p + 4])
    ensures !Pinuse(m[p + 4]) ==> var q := p - m[p]; q in h && 0 < q < p && h[q] == Chunk(m[p], false)
    ensures var n := p + h[p].size;
            && p < n && Pinuse(m[n + 4]) && (n == top ==> !Cinuse(m[n + 4]) && n !in h)
            && (n != top ==> n in h && Cinuse(m[n + 4]) == h[n].inuse && SizeOf(m[n + 4]) == h[n].size)
  {
    hide Indexed; hide HeapTags; hide Mapped; hide Heads; hide FreeBut;
    OwnHead(m, lo, hi, top, topsize, h, p);
    NextRead(m, lo, hi, top, topsize, h, p);
    PrevRead(m, lo, hi, top, topsize, h, p);
    EdgeMapped(m, gm, lo, hi, top, topsize, h, p);
    EdgeMapped(m, gm, lo, hi, top, topsize, h, p + h[p].size);
    if !Pinuse(Rd(m, p + 4)) { EdgeMapped(m, gm, lo, hi, top, topsize, h, p - Rd(m, p)); }
  }

  lemma OwnHead(m: Mem, lo: int, hi: int, top: int, topsize: int, h: Chunks, p: int)
    requires HeapTags(m, lo, hi, top, topsize, h) && p in h
    ensures SizeOf(Rd(m, p + 4)) == h[p].size && Cinuse(Rd(m, p + 4)) == h[p].inuse
  {
    assert Tag(m, p, h[p]);
  }

  /** The pinuse bit of a chunk only depends on the chunks. */
  lemma SamePin(m: Mem, m': Mem, gm: int, lo: int, hi: int, top: int, topsize: int, h: Chunks,
                b: Binned, ix: Index, smallmap: int, treemap: int, out: set<int>,
                b': Binned, ix': Index, smallmap': int, treemap': int, out': set<int>, p: int)
    requires Sound(m, gm, lo, hi, top, topsize, h, b, ix, smallmap, treemap, out)
    requires Sound(m', gm, lo, hi, top, topsize, h, b', ix', smallmap', treemap', out') && p in h
    ensures Pinuse(Rd(m', p + 4)) == Pinuse(Rd(m, p + 4))
  {
    hide Indexed; hide HeapTags; hide Mapped; hide Heads; hide FreeBut; hide Pinuse;
    PinOf(m, lo, hi, top, topsize, h, p);
    PinOf(m', lo, hi, top, topsize, h, p);
  }

  lemma PinOf(m: Mem, lo: int, hi: int, top: int, topsize: int, h: Chunks, p: int)
    requires HeapTags(m, lo, hi, top, topsize, h) && p in h
    ensures Pinuse(Rd(m, p + 4)) <==> !(exists q :: q in h && !h[q].inuse && q + h[q].size == p)
  {
    PrevRead(m, lo, hi, top, topsize, h, p);
    if Pinuse(Rd(m, p + 4)) {
      forall q | q in h && q + h[q].size == p ensures h[q].inuse { assert WellSized(q, h[q], lo, top); }
    }
  }

  /** A free chunk ends at a chunk in use. */
  lemma FreeEnd(m: Mem, gm: int, lo: int, hi: int, top: int, topsize: int, h: Chunks,
                b: Binned, ix: Index, smallmap: int, treemap: int, out: set<int>, n: int)
    requires Sound(m, gm, lo, hi, top, topsize, h, b, ix, smallmap, treemap, out) && n in h && !h[n].inuse
    ensures var e := n + h[n].size; e in h && h[e].inuse && e != top && n + 16 <= e
  {
    hide Indexed; hide HeapTags; hide Mapped; hide Heads; hide FreeBut; hide Tag;
    AfterFree(m, lo, hi, top, topsize, h, n);
  }
}
