/** The tag-writing macros of the allocator, each as a re-tiling of the chunks it covers. */
module Retags {
  import opened Words
  import opened Tiling
  import opened Bins
  import opened BoundaryTags

  /** `s | PINUSE_BIT | CINUSE_BIT` and `s | PINUSE_BIT` for a size s. */
  function UsedHead(s: int): int { s + 3 }
  function FreeHead(s: int): int { s + 1 }

  lemma Heads3(s: int)
    requires s % 8 == 0
    ensures SizeOf(UsedHead(s)) == s && Cinuse(UsedHead(s)) && Pinuse(UsedHead(s))
    ensures SizeOf(FreeHead(s)) == s && !Cinuse(FreeHead(s)) && Pinuse(FreeHead(s))
  {
    HeadFields(s, true, true);
    HeadFields(s, false, true);
  }

  /** The chunk below a free chunk is in use. */
  lemma PrevUsed(m: Mem, lo: int, hi: int, top: int, topsize: int, h: Chunks, p: int)
    requires HeapTags(m, lo, hi, top, topsize, h) && p in h && !h[p].inuse
    ensures Pinuse(Rd(m, p + 4)) && forall q :: q in h && q < p && q + h[q].size == p ==> h[q].inuse
  {
    assert WellSized(p, h[p], lo, top);
    forall q | q in h && q < p && q + h[q].size == p ensures h[q].inuse { assert !h[q].inuse ==> NextUsed(h, q); }
    if p != lo {
      var q := Before(h, lo, top, lo, p);
      assert WellSized(q, h[q], lo, top) && Tag(m, q, h[q]);
    }
  }

  /** `pinuse(p)` tells whether the chunk below is in use, and if not `prev_foot` finds it. */
  lemma PrevRead(m: Mem, lo: int, hi: int, top: int, topsize: int, h: Chunks, p: int)
    requires HeapTags(m, lo, hi, top, topsize, h) && Edge(h, p, top)
    ensures Pinuse(Rd(m, p + 4)) ==> forall q :: q in h && q < p && q + h[q].size == p ==> h[q].inuse
    ensures !Pinuse(Rd(m, p + 4)) ==>
              var q := p - Rd(m, p); q in h && q < p && !h[q].inuse && h[q].size == Rd(m, p)
  {
    forall q | q in h && q < p && q + h[q].size == p && Pinuse(Rd(m, p + 4)) ensures h[q].inuse { assert Tag(m, q, h[q]); }
    if !Pinuse(Rd(m, p + 4)) {
      assert p == top || WellSized(p, h[p], lo, top);
      var q := Before(h, lo, top, lo, p);
      assert WellSized(q, h[q], lo, top) && Tag(m, q, h[q]);
    }
  }

  ghost function One(p: int, s: int, inuse: bool): Chunks { map[p := Chunk(s, inuse)] }

  ghost function Two(p: int, s: int, u: bool, r: int, t: int,
                     v: bool): Chunks { map[p := Chunk(s, u), r := Chunk(t, v)] }

  lemma OneTiled(p: int, s: int, inuse: bool)
    requires p % 8 == 0 && s % 8 == 0 && MIN_CHUNK_SIZE <= s
    ensures Tiled(One(p, s, inuse), p, p + s)
  {
  }

  lemma TwoTiled(p: int, s: int, u: bool, t: int, v: bool)
    requires p % 8 == 0 && s % 8 == 0 && MIN_CHUNK_SIZE <= s && t % 8 == 0 && MIN_CHUNK_SIZE <= t
    ensures Tiled(Two(p, s, u, p + s, t, v), p, p + s + t)
  {
    var h := Two(p, s, u, p + s, t, v);
    assert h[p] == Chunk(s, u) && h[p + s] == Chunk(t, v);
    assert NextIn(h, p, p + s + t) && NextIn(h, p + s, p + s + t);
  }

  /** Everything Retile asks of a re-tagging. */
  ghost predicate Recut(m: Mem, m': Mem, h: Chunks, lo: int, top: int, topsize: int, a: int, e: int, piece: Chunks,
                        e': int, top': int, topsize': int) {
    && Fits(h, lo, top, a, e, piece, e', top') && Retagged(m, m', h, top, a, e, piece, top') && LowerOk(h, a, piece) && PieceOk(h, a, e, piece)
    && top + topsize == top' + topsize' && 0 < topsize' && topsize' % 8 == 0 && (e == top ==> Rd(m', top' + 4) == topsize' + 1)
  }

  /** Head word `w'` has this size and in-use bit, and the pinuse bit of `w`. */
  ghost predicate HeadIs(w: int, w': int, s: int, inuse: bool) {
    SizeOf(w') == s && Cinuse(w') == inuse && Pinuse(w') == Pinuse(w)
  }

  /** Head word `w'` is `w` with this pinuse bit. */
  ghost predicate PinIs(w: int, w': int, pinuse: bool) {
    SizeOf(w') == SizeOf(w) && Cinuse(w') == Cinuse(w) && Pinuse(w') == pinuse
  }

  ghost predicate SameTop(m': Mem, top: int, topsize: int, e: int) { e == top ==> Rd(m', top + 4) == topsize + 1 }

  lemma Region(h: Chunks, lo: int, top: int, a: int, e: int)
    requires Tiled(h, lo, top) && a in h && a < e && Edge(h, e, top)
    ensures lo <= a && e <= top && a % 8 == 0 && e % 8 == 0 && a + h[a].size <= e && 16 <= e - a
    ensures e != top ==> e in h
  {
    assert WellSized(a, h[a], lo, top);
    if e in h { assert WellSized(e, h[e], lo, top); }
  }

  /** The chunks from `a` to `e` become one in-use chunk. */
  lemma RecutUsed(m: Mem, m': Mem, lo: int, hi: int, top: int, topsize: int, h: Chunks, a: int, e: int)
    requires HeapTags(m, lo, hi, top, topsize, h) && a in h && a < e && Edge(h, e, top)
    requires Only(m, m', {a + 4, e + 4}) && HeadIs(Rd(m, a + 4), Rd(m', a + 4), e - a, true)
    requires PinIs(Rd(m, e + 4), Rd(m', e + 4), true)
    requires SameTop(m', top, topsize, e)
    ensures Recut(m, m', h, lo, top, topsize, a, e, One(a, e - a, true), e, top, topsize)
  {
    hide Tags; hide Coalesced; hide Pinuse; hide SizeOf; hide Cinuse; hide PieceOk;
    var piece := One(a, e - a, true);
    Region(h, lo, top, a, e);
    OneTiled(a, e - a, true);
    assert Tags(m', piece) by { OneTag(m', a, e - a, true); }
    NoneFree(h, a, e, piece);
  }

  lemma OneTag(m: Mem, a: int, s: int, inuse: bool)
    requires Tag(m, a, Chunk(s, inuse))
    ensures Tags(m, One(a, s, inuse))
  {
  }

  lemma LowerUsed(m: Mem, lo: int, hi: int, top: int, topsize: int, h: Chunks, a: int, piece: Chunks)
    requires HeapTags(m, lo, hi, top, topsize, h) && Edge(h, a, top) && Pinuse(Rd(m, a + 4))
    ensures LowerOk(h, a, piece)
  {
    PrevRead(m, lo, hi, top, topsize, h, a);
  }

  /** The chunks from `a` to `e` become one free chunk, between chunks in use. */
  lemma RecutFree(m: Mem, m': Mem, lo: int, hi: int, top: int, topsize: int, h: Chunks, a: int, e: int)
    requires HeapTags(m, lo, hi, top, topsize, h) && a in h && a < e && e in h && h[e].inuse
    requires Pinuse(Rd(m, a + 4))
    requires Only(m, m', {a + 4, e, e + 4}) && HeadIs(Rd(m, a + 4), Rd(m', a + 4), e - a, false)
    requires PinIs(Rd(m, e + 4), Rd(m', e + 4), false) && Rd(m', e) == e - a
    ensures Recut(m, m', h, lo, top, topsize, a, e, One(a, e - a, false), e, top, topsize)
  {
    var piece := One(a, e - a, false);
    LowerUsed(m, lo, hi, top, topsize, h, a, piece);
    hide LowerOk; hide Tags; hide Coalesced; hide Pinuse; hide SizeOf; hide Cinuse; hide PieceOk;
    Region(h, lo, top, a, e);
    assert WellSized(e, h[e], lo, top);
    OneTiled(a, e - a, false);
    assert Tags(m', piece) by { OneTag(m', a, e - a, false); }
    LastFree(h, lo, top, a, e, piece, a);
  }

  /** The chunks from `a` to `e` become an in-use chunk up to `r` and another chunk behind it. */
  lemma RecutTwo(m: Mem, m': Mem, lo: int, hi: int, top: int, topsize: int, h: Chunks, a: int, r: int, e: int, v: bool)
    requires HeapTags(m, lo, hi, top, topsize, h) && a in h && Edge(h, e, top) && r % 8 == 0
    requires a + 16 <= r <= e - 16
    requires Only(m, m', {a + 4, r + 4, e, e + 4}) && (v ==> Rd(m', e) == Rd(m, e))
    requires HeadIs(Rd(m, a + 4), Rd(m', a + 4), r - a, true) && SizeOf(Rd(m', r + 4)) == e - r
    requires Cinuse(Rd(m', r + 4)) == v && Pinuse(Rd(m', r + 4))
    requires PinIs(Rd(m, e + 4), Rd(m', e + 4), v) && SameTop(m', top, topsize, e)
    requires !v ==> Rd(m', e) == e - r && e in h && h[e].inuse
    ensures Recut(m, m', h, lo, top, topsize, a, e, Two(a, r - a, true, r, e - r, v), e, top, topsize)
  {
    hide Tags; hide Coalesced; hide Pinuse; hide SizeOf; hide Cinuse; hide PieceOk;
    var piece := Two(a, r - a, true, r, e - r, v);
    Region(h, lo, top, a, e);
    TwoTiled(a, r - a, true, e - r, v);
    assert Tags(m', piece) by { TwoTag(m', a, r - a, true, r, e - r, v); }
    if v { NoneFree(h, a, e, piece); } else { LastFree(h, lo, top, a, e, piece, r); }
  }

  lemma TwoTag(m: Mem, a: int, s: int, u: bool, r: int, t: int, v: bool)
    requires Tag(m, a, Chunk(s, u)) && Tag(m, r, Chunk(t, v)) && a != r
    ensures Tags(m, Two(a, s, u, r, t, v))
  {
  }

  /** The chunks from `a` up join the top, which now starts at `t`; below it an in-use chunk may remain. */
  lemma RecutTop(m: Mem, m': Mem, lo: int, hi: int, top: int, topsize: int, h: Chunks, a: int, t: int)
    requires HeapTags(m, lo, hi, top, topsize, h) && Edge(h, a, top) && a <= t < top + topsize
    requires t % 8 == 0
    requires Only(m, m', {a + 4, t + 4}) && Rd(m', t + 4) == top + topsize - t + 1
    requires if a == t then Pinuse(Rd(m, a + 4)) else 16 <= t - a && HeadIs(Rd(m, a + 4), Rd(m', a + 4), t - a, true)
    ensures Recut(m, m', h, lo, top, topsize, a, top, if a == t then map[] else One(a, t - a, true), t, t,
                  top + topsize - t)
  {
    if a == t { RecutJoin(m, m', lo, hi, top, topsize, h, a); } else { RecutRaise(m, m', lo, hi, top, topsize, h, a, t); }
  }

  lemma RecutJoin(m: Mem, m': Mem, lo: int, hi: int, top: int, topsize: int, h: Chunks, a: int)
    requires HeapTags(m, lo, hi, top, topsize, h) && Edge(h, a, top) && a < top + topsize && a % 8 == 0
    requires Only(m, m', {a + 4}) && Rd(m', a + 4) == top + topsize - a + 1 && Pinuse(Rd(m, a + 4))
    ensures Recut(m, m', h, lo, top, topsize, a, top, map[], a, a, top + topsize - a)
  {
    TopEdge(m, lo, hi, top, topsize, h, a);
    hide HeapTags;
    EightSum(top, topsize);
    EightSum(top + topsize, a);
    TopLower(m, lo, hi, top, topsize, h, a, a, map[]);
    FreeHeadPin(top + topsize - a);
    NoneFree(h, a, top, map[]);
    NoTags(m');
    hide Tags; hide Coalesced; hide Pinuse; hide SizeOf; hide Cinuse; hide PieceOk; hide LowerOk;
  }

  lemma RecutRaise(m: Mem, m': Mem, lo: int, hi: int, top: int, topsize: int, h: Chunks, a: int, t: int)
    requires HeapTags(m, lo, hi, top, topsize, h) && Edge(h, a, top) && a + 16 <= t < top + topsize
    requires t % 8 == 0
    requires Only(m, m', {a + 4, t + 4}) && Rd(m', t + 4) == top + topsize - t + 1
    requires HeadIs(Rd(m, a + 4), Rd(m', a + 4), t - a, true)
    ensures Recut(m, m', h, lo, top, topsize, a, top, One(a, t - a, true), t, t, top + topsize - t)
  {
    var piece := One(a, t - a, true);
    TopEdge(m, lo, hi, top, topsize, h, a);
    hide HeapTags;
    EightSum(top, topsize);
    EightSum(top + topsize, t);
    EightSum(t, a);
    TopLower(m, lo, hi, top, topsize, h, a, t, piece);
    FreeHeadPin(top + topsize - t);
    NoneFree(h, a, top, piece);
    OneTiled(a, t - a, true);
    hide Tags; hide Coalesced; hide Pinuse; hide SizeOf; hide Cinuse; hide PieceOk; hide LowerOk; hide Tiled;
    assert Tags(m', piece) by { OneTag(m', a, t - a, true); }
  }

  lemma NoTags(m: Mem)
    ensures Tags(m, map[])
  {
  }

  lemma TopEdge(m: Mem, lo: int, hi: int, top: int, topsize: int, h: Chunks, a: int)
    requires HeapTags(m, lo, hi, top, topsize, h) && Edge(h, a, top)
    ensures Tiled(h, lo, top) && lo <= a <= top && a % 8 == 0 && topsize % 8 == 0 && top % 8 == 0
  {
    assert a == top || WellSized(a, h[a], lo, top);
  }

  lemma TopLower(m: Mem, lo: int, hi: int, top: int, topsize: int, h: Chunks, a: int, t: int, piece: Chunks)
    requires HeapTags(m, lo, hi, top, topsize, h) && Edge(h, a, top)
    requires if a == t then Pinuse(Rd(m, a + 4)) else a in piece && piece[a].inuse
    ensures LowerOk(h, a, piece)
  {
    if a == t { LowerUsed(m, lo, hi, top, topsize, h, a, piece); }
  }

  lemma FreeHeadPin(s: int)
    requires s % 8 == 0
    ensures Pinuse(s + 1)
  {
    HeadFields(s, false, true);
  }

  /** A piece that ends in a free chunk before a chunk in use. */
  lemma LastFree(h: Chunks, lo: int, top: int, a: int, e: int, piece: Chunks, r: int)
    requires Tiled(h, lo, top) && Tiled(piece, a, e) && e in h && h[e].inuse && r in piece && r + piece[r].size == e
    requires forall p :: p in piece && p != r ==> piece[p].inuse
    ensures PieceOk(h, a, e, piece)
  {
    assert e in piece ==> WellSized(e, piece[e], a, e);
    assert NextUsed(Splice(h, a, e, piece), r);
  }

  lemma NoneFree(h: Chunks, a: int, e: int, piece: Chunks)
    requires forall p :: p in piece ==> piece[p].inuse
    ensures PieceOk(h, a, e, piece)
  {
  }

  // ---- Keeping tags and bins in step ----

  lemma FreeSeparate(m: Mem, gm: int, lo: int, hi: int, top: int, topsize: int, h: Chunks,
                     b: Binned, ix: Index, smallmap: int, treemap: int, out: set<int>)
    requires Indexed(m, gm, lo, hi, b, ix, smallmap, treemap)
    requires HeapTags(m, lo, hi, top, topsize, h)
    ensures Separate(gm, lo, hi, FreeBut(h, out))
  {
    hide Listed; hide AllRings; hide AllTagged; hide Maps; hide Seated; hide Tags; hide Coalesced;
    var f := FreeBut(h, out);
    forall p | p in f ensures Sized(p, f[p], lo, hi) { assert WellSized(p, h[p], lo, top); }
    forall p, q {:trigger Away(f, p, q)} | p in f && q in f && p != q ensures Away(f, p, q) {}
  }

  /** After an unlink: tags and blocks as before, one more free chunk out of the bins. */
  lemma UnlinkKeeps(m: Mem, m': Mem, gm: int, lo: int, hi: int, top: int, topsize: int, h: Chunks,
                    b: Binned, ix: Index, smallmap: int, treemap: int, out: set<int>, p: int)
    requires Indexed(m, gm, lo, hi, b, ix, smallmap, treemap)
    requires HeapTags(m, lo, hi, top, topsize, h)
    requires b == FreeBut(h, out) && Touches(m, m', gm, b)
    ensures HeapTags(m', lo, hi, top, topsize, h) && PayloadKept(m, m', Live(h))
    ensures b - {p} == FreeBut(h, out + {p})
  {
    hide HeapTags; hide Indexed; hide Touches;
    FreeSeparate(m, gm, lo, hi, top, topsize, h, b, ix, smallmap, treemap, out);
    IndexKeepsHeap(m, m', gm, lo, hi, top, topsize, h, out);
  }

  /** Before an insert: the chunk may be binned. */
  lemma InsertReady(m: Mem, gm: int, lo: int, hi: int, top: int, topsize: int, h: Chunks,
                    b: Binned, ix: Index, smallmap: int, treemap: int, out: set<int>, p: int)
    requires Indexed(m, gm, lo, hi, b, ix, smallmap, treemap)
    requires HeapTags(m, lo, hi, top, topsize, h)
    requires b == FreeBut(h, out) && p in h && !h[p].inuse && p in out
    ensures p !in b && b[p := h[p].size] == FreeBut(h, out - {p}) && Separate(gm, lo, hi, b[p := h[p].size])
    ensures SizeOf(Rd(m, p + 4)) == h[p].size
  {
    FreeSeparate(m, gm, lo, hi, top, topsize, h, b, ix, smallmap, treemap, out - {p});
    hide Indexed; hide Separate;
    assert Tag(m, p, h[p]);
    assert b[p := h[p].size] == FreeBut(h, out - {p});
  }
}
