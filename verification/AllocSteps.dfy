/** Handing out chunks: what the tag writes of an allocation do to the heap as a whole. */
module AllocSteps {
  import opened Words
  import opened Tiling
  import opened Bins
  import opened LargeSteps
  import opened BoundaryTags
  import opened Retags

  /** Chunks other than the one at `p` are chunks of the new heap too. */
  ghost predicate Others(h: Chunks, h': Chunks, p: int) {
    forall q :: q in h && q != p ==> q in h' && h'[q] == h[q]
  }

  /** Heap and bins with the free chunks `out` unbinned; the value behind the class's invariant. */
  ghost predicate Sound(m: Mem, gm: int, lo: int, hi: int, top: int, topsize: int, h: Chunks,
                          b: Binned, ix: Index, smallmap: int, treemap: int, out: set<int>) {
    && Indexed(m, gm, lo, hi, b, ix, smallmap, treemap) && Mapped(m, gm, lo, hi) && Heads(m, b)
    && HeapTags(m, lo, hi, top, topsize, h) && b == FreeBut(h, out)
  }

  lemma EdgeFacts(m: Mem, lo: int, hi: int, top: int, topsize: int, h: Chunks, p: int)
    requires HeapTags(m, lo, hi, top, topsize, h) && Edge(h, p, top)
    ensures lo <= p <= top && top + 8 < hi && p % 8 == 0 && p > 0
  {
    if p in h { assert WellSized(p, h[p], lo, top); }
  }

  lemma Word8(p: int)
    requires p % 8 == 0
    ensures p % 4 == 0
  {
  }

  /** A chunk boundary's head and foot words are mapped. */
  lemma EdgeMapped(m: Mem, gm: int, lo: int, hi: int, top: int, topsize: int, h: Chunks, p: int)
    requires HeapTags(m, lo, hi, top, topsize, h) && Mapped(m, gm, lo, hi) && Edge(h, p, top)
    ensures p in m && p + 4 in m && lo <= p <= top && p > 0
  {
    hide HeapTags; hide Mapped;
    EdgeFacts(m, lo, hi, top, topsize, h, p);
    Word8(p);
    WordAt(m, gm, lo, hi, p, 0);
    WordAt(m, gm, lo, hi, p, 4);
  }

  /** Apply a re-tagging that is a valid recut. */
  lemma ApplyRecut(m: Mem, m': Mem, gm: int, lo: int, hi: int, top: int, topsize: int, h: Chunks,
                   b: Binned, ix: Index, smallmap: int, treemap: int, out: set<int>,
                   a: int, e: int, piece: Chunks, e': int, top': int, topsize': int, out': set<int>)
    requires Sound(m, gm, lo, hi, top, topsize, h, b, ix, smallmap, treemap, out)
    requires Recut(m, m', h, lo, top, topsize, a, e, piece, e', top', topsize') && OutOk(h, a, e, piece, out, out')
    requires m.Keys <= m'.Keys
    ensures Sound(m', gm, lo, hi, top', topsize', Splice(h, a, e, piece), b, ix, smallmap, treemap, out')
    ensures PayloadKept(m, m', LiveOut(h, a, e)) && Live(Splice(h, a, e, piece)) == LiveOut(h, a, e) + Live(piece)
  {
    hide Indexed; hide HeapTags; hide Mapped; hide Heads; hide Fits; hide Retagged; hide LowerOk; hide PieceOk;
    hide OutOk;
    hide PayloadKept; hide Live; hide LiveOut; hide FreeBut; hide Splice;
    Retile(m, m', gm, lo, hi, top, topsize, h, b, ix, smallmap, treemap, out, a, e, piece, e', top', topsize', out');
    MappedMore(m, m', gm, lo, hi);
  }

  // ---- A whole free chunk ----

  /** `set_inuse_and_pinuse(M, p, s)` */
  function MadeUsed(m: Mem, p: int, s: int): Mem { m[p + 4 := UsedHead(s)][p + s + 4 := WithPinuse(Rd(m, p + s + 4))] }

  /** The effect of handing out chunk `p` as a block of `s` bytes. */
  ghost predicate Handed(m: Mem, m': Mem, h: Chunks, h': Chunks, p: int, s: int) {
    && p !in Live(h) && Live(h') == Live(h)[p := s] && PayloadKept(m, m', Live(h)) && Others(h, h', p) && p in h' && h'[p] == Chunk(s, true)
  }

  /** `next` of a free chunk is a chunk in use. */
  lemma AfterFree(m: Mem, lo: int, hi: int, top: int, topsize: int, h: Chunks, p: int)
    requires HeapTags(m, lo, hi, top, topsize, h) && p in h && !h[p].inuse
    ensures var e := p + h[p].size; e in h && h[e].inuse && e != top && Tag(m, p, h[p]) && WellSized(p, h[p], lo, top)
  {
    assert NextUsed(h, p) && Tag(m, p, h[p]) && WellSized(p, h[p], lo, top);
    assert WellSized(p + h[p].size, h[p + h[p].size], lo, top);
  }

  lemma TakeRecut(m: Mem, lo: int, hi: int, top: int, topsize: int, h: Chunks, p: int)
    requires HeapTags(m, lo, hi, top, topsize, h) && p in h && !h[p].inuse
    ensures var e := p + h[p].size;
            Recut(m, MadeUsed(m, p, h[p].size), h, lo, top, topsize, p, e, One(p, h[p].size, true), e, top, topsize)
  {
    hide HeapTags; hide Recut; hide SizeOf; hide Cinuse; hide Pinuse; hide WithPinuse;
    var s, e := h[p].size, p + h[p].size;
    AfterFree(m, lo, hi, top, topsize, h, p);
    PrevUsed(m, lo, hi, top, topsize, h, p);
    Heads3(s);
    PinuseBitOnly(Rd(m, e + 4));
    RecutUsed(m, MadeUsed(m, p, s), lo, hi, top, topsize, h, p, e);
  }

  lemma TakeStep(m: Mem, gm: int, lo: int, hi: int, top: int, topsize: int, h: Chunks,
                 b: Binned, ix: Index, smallmap: int, treemap: int, out: set<int>, p: int, s: int) returns (h': Chunks)
    requires Sound(m, gm, lo, hi, top, topsize, h, b, ix, smallmap, treemap, out) && p in out && p in h
    requires h[p] == Chunk(s, false)
    ensures p + s + 4 in m
    ensures Sound(MadeUsed(m, p, s), gm, lo, hi, top, topsize, h', b, ix, smallmap, treemap, out - {p})
    ensures Handed(m, MadeUsed(m, p, s), h, h', p, s)
  {
    hide Indexed; hide HeapTags; hide Mapped; hide Heads; hide Recut; hide FreeBut; hide PayloadKept; hide Handed;
    hide Live; hide LiveOut;
    var e, piece := p + s, One(p, s, true);
    h' := Splice(h, p, e, piece);
    AfterFree(m, lo, hi, top, topsize, h, p);
    EdgeMapped(m, gm, lo, hi, top, topsize, h, e);
    TakeRecut(m, lo, hi, top, topsize, h, p);
    Inside(m, lo, hi, top, topsize, h, p);
    ApplyRecut(m, MadeUsed(m, p, s), gm, lo, hi, top, topsize, h, b, ix, smallmap, treemap, out, p, e, piece, e, top,
               topsize, out - {p});
    HandedOut(m, MadeUsed(m, p, s), h, p, e, piece, s);
  }

  /** No other chunk starts inside a chunk. */
  lemma Inside(m: Mem, lo: int, hi: int, top: int, topsize: int, h: Chunks, p: int)
    requires HeapTags(m, lo, hi, top, topsize, h) && p in h
    ensures forall q :: q in h && p <= q < p + h[p].size ==> q == p
  {
  }

  // ---- A free chunk split in two ----

  /** `set_size_and_pinuse_of_inuse_chunk(M, p, nb)` and `set_size_and_pinuse_of_free_chunk(p + nb, rs)` */
  function SplitOff(m: Mem, p: int, nb: int, rs: int): Mem {
    m[p + 4 := UsedHead(nb)][p + nb + 4 := FreeHead(rs)][p + nb + rs := rs]
  }

  lemma SplitRecut(m: Mem, lo: int, hi: int, top: int, topsize: int, h: Chunks, p: int, nb: int, rs: int)
    requires HeapTags(m, lo, hi, top, topsize, h) && p in h && h[p] == Chunk(nb + rs, false)
    requires 16 <= nb && 16 <= rs && nb % 8 == 0 && rs % 8 == 0
    ensures var e := p + nb + rs;
            Recut(m, SplitOff(m, p, nb, rs), h, lo, top, topsize, p, e, Two(p, nb, true, p + nb, rs, false), e, top, topsize)
  {
    hide HeapTags; hide Recut; hide SizeOf; hide Cinuse; hide Pinuse;
    var r, e, m' := p + nb, p + nb + rs, SplitOff(m, p, nb, rs);
    AfterFree(m, lo, hi, top, topsize, h, p);
    PrevUsed(m, lo, hi, top, topsize, h, p);
    Heads3(nb);
    Heads3(rs);
    RecutTwo(m, m', lo, hi, top, topsize, h, p, r, e, false);
  }

  /** Re-tiling one unused region so that its first chunk is handed out. */
  lemma HandedOut(m: Mem, m': Mem, h: Chunks, p: int, e: int, piece: Chunks, s: int)
    requires forall q :: q in h && p <= q < e ==> q == p && !h[q].inuse
    requires p in h ==> !h[p].inuse
    requires p in piece && piece[p] == Chunk(s, true)
    requires (forall q :: q in piece && q != p ==> !piece[q].inuse && q !in h)
    requires PayloadKept(m, m', LiveOut(h, p, e)) && Live(Splice(h, p, e, piece)) == LiveOut(h, p, e) + Live(piece)
    ensures Handed(m, m', h, Splice(h, p, e, piece), p, s)
  {
    assert LiveOut(h, p, e) == Live(h);
    forall q | q in Live(piece) ensures q == p {}
    assert p in Live(piece) && Live(piece)[p] == s;
  }

  lemma SplitStep(m: Mem, gm: int, lo: int, hi: int, top: int, topsize: int, h: Chunks,
                  b: Binned, ix: Index, smallmap: int, treemap: int, out: set<int>, p: int, nb: int, rs: int) returns (h': Chunks)
    requires Sound(m, gm, lo, hi, top, topsize, h, b, ix, smallmap, treemap, out) && p in out && p in h
    requires h[p] == Chunk(nb + rs, false)
    requires 16 <= nb && 16 <= rs && nb % 8 == 0 && rs % 8 == 0
    ensures Sound(SplitOff(m, p, nb, rs), gm, lo, hi, top, topsize, h', b, ix, smallmap, treemap, out - {p} + {p + nb})
    ensures Handed(m, SplitOff(m, p, nb, rs), h, h', p, nb)
    ensures p + nb in h' && h'[p + nb] == Chunk(rs, false) && p + nb !in h
  {
    hide Indexed; hide HeapTags; hide Mapped; hide Heads; hide Recut; hide FreeBut; hide PayloadKept; hide Handed;
    hide Live; hide LiveOut;
    var r, e, piece := p + nb, p + nb + rs, Two(p, nb, true, p + nb, rs, false);
    h' := Splice(h, p, e, piece);
    SplitRecut(m, lo, hi, top, topsize, h, p, nb, rs);
    Inside(m, lo, hi, top, topsize, h, p);
    ApplyRecut(m, SplitOff(m, p, nb, rs), gm, lo, hi, top, topsize, h, b, ix, smallmap, treemap, out, p, e, piece, e,
               top, topsize, out - {p} + {r});
    HandedOut(m, SplitOff(m, p, nb, rs), h, p, e, piece, nb);
  }

  // ---- The top chunk split ----

  /** Splitting top: head of the new top, then head of the block. */
  function TopOff(m: Mem, p: int, nb: int, rs: int): Mem { m[p + nb + 4 := FreeHead(rs)][p + 4 := UsedHead(nb)] }

  lemma TopRecut(m: Mem, lo: int, hi: int, top: int, topsize: int, h: Chunks, nb: int)
    requires HeapTags(m, lo, hi, top, topsize, h) && 16 <= nb < topsize && nb % 8 == 0
    ensures Recut(m, TopOff(m, top, nb, topsize - nb), h, lo, top, topsize, top, top, One(top, nb, true), top + nb,
                  top + nb, topsize - nb)
  {
    assert top % 8 == 0 && Pinuse(Rd(m, top + 4)) by { FreeHeadPin(topsize); }
    Heads3(nb);
    EightSum(top, nb);
    hide HeapTags; hide Recut; hide SizeOf; hide Cinuse; hide Pinuse;
    RecutTop(m, TopOff(m, top, nb, topsize - nb), lo, hi, top, topsize, h, top, top + nb);
  }

  lemma TopStep(m: Mem, gm: int, lo: int, hi: int, top: int, topsize: int, h: Chunks,
                b: Binned, ix: Index, smallmap: int, treemap: int, out: set<int>, nb: int) returns (h': Chunks)
    requires Sound(m, gm, lo, hi, top, topsize, h, b, ix, smallmap, treemap, out) && 16 <= nb < topsize && nb % 8 == 0
    ensures Sound(TopOff(m, top, nb, topsize - nb), gm, lo, hi, top + nb, topsize - nb, h', b, ix, smallmap, treemap,
                  out)
    ensures Handed(m, TopOff(m, top, nb, topsize - nb), h, h', top, nb) && top !in h
  {
    hide Indexed; hide HeapTags; hide Mapped; hide Heads; hide Recut; hide FreeBut; hide PayloadKept; hide Handed;
    hide Live; hide LiveOut;
    var piece := One(top, nb, true);
    h' := Splice(h, top, top, piece);
    TopRecut(m, lo, hi, top, topsize, h, nb);
    TopFresh(m, lo, hi, top, topsize, h);
    ApplyRecut(m, TopOff(m, top, nb, topsize - nb), gm, lo, hi, top, topsize, h, b, ix, smallmap, treemap, out, top,
               top, piece, top + nb, top + nb, topsize - nb, out);
    HandedOut(m, TopOff(m, top, nb, topsize - nb), h, top, top, piece, nb);
  }

  lemma TopFresh(m: Mem, lo: int, hi: int, top: int, topsize: int, h: Chunks)
    requires HeapTags(m, lo, hi, top, topsize, h)
    ensures top !in h && top % 8 == 0
  {
    assert top in h ==> WellSized(top, h[top], lo, top);
  }

  /** An address that is no chunk may be left out of the exceptions. */
  lemma DropOut(m: Mem, gm: int, lo: int, hi: int, top: int, topsize: int, h: Chunks,
                b: Binned, ix: Index, smallmap: int, treemap: int, out: set<int>, out': set<int>)
    requires Sound(m, gm, lo, hi, top, topsize, h, b, ix, smallmap, treemap, out) && out' <= out <= out' + {0}
    requires 0 !in out'
    ensures Sound(m, gm, lo, hi, top, topsize, h, b, ix, smallmap, treemap, out')
  {
    hide Indexed; hide HeapTags; hide Mapped; hide Heads;
    assert 0 !in h by { NotNull(m, lo, hi, top, topsize, h); }
  }

  lemma NotNull(m: Mem, lo: int, hi: int, top: int, topsize: int, h: Chunks)
    requires HeapTags(m, lo, hi, top, topsize, h)
    ensures 0 !in h
  {
    assert 0 in h ==> WellSized(0, h[0], lo, top);
  }

  lemma KeptAll(m: Mem, live: map<int, int>)
    ensures PayloadKept(m, m, live)
  {
  }

  /** A binned chunk is a free chunk of the heap. */
  lemma BinnedChunk(m: Mem, gm: int, lo: int, hi: int, top: int, topsize: int, h: Chunks,
                    b: Binned, ix: Index, smallmap: int, treemap: int, out: set<int>, p: int)
    requires Sound(m, gm, lo, hi, top, topsize, h, b, ix, smallmap, treemap, out) && p in b
    ensures p in h && h[p] == Chunk(b[p], false) && p !in out && p > 0 && b[p] % 8 == 0 && 16 <= b[p]
  {
    hide Indexed; hide Mapped; hide Heads;
    assert WellSized(p, h[p], lo, top);
  }

  /** Any chunk of the heap. */
  lemma HeapChunk(m: Mem, gm: int, lo: int, hi: int, top: int, topsize: int, h: Chunks,
                  b: Binned, ix: Index, smallmap: int, treemap: int, out: set<int>, p: int)
    requires Sound(m, gm, lo, hi, top, topsize, h, b, ix, smallmap, treemap, out) && p in h
    ensures p > 0 && p % 8 == 0 && h[p].size % 8 == 0 && 16 <= h[p].size && p + h[p].size <= top < top + topsize < WORD
  {
    hide Indexed; hide Mapped; hide Heads;
    assert WellSized(p, h[p], lo, top);
  }

  /** Handing out keeps blocks, and later index writes keep them too. */
  lemma HandedThen(m: Mem, m1: Mem, m2: Mem, m3: Mem, h: Chunks, h': Chunks, p: int, s: int)
    requires PayloadKept(m, m1, Live(h)) && Handed(m1, m2, h, h', p, s) && PayloadKept(m2, m3, Live(h'))
    ensures Handed(m, m3, h, h', p, s)
  {
    PayloadLess(m2, m3, Live(h), Live(h'));
    PayloadTwice(m, m1, m2, Live(h));
    PayloadTwice(m, m2, m3, Live(h));
  }

  lemma PayloadLess(m: Mem, m': Mem, live: map<int, int>, live': map<int, int>)
    requires PayloadKept(m, m', live') && forall q :: q in live ==> q in live' && live'[q] == live[q]
    ensures PayloadKept(m, m', live)
  {
    forall q, w {:trigger InBlock(live, q, w), Rd(m', w)} | q in live && InBlock(live, q, w) ensures Rd(m', w) == Rd(m, w) {
      assert InBlock(live', q, w);
    }
  }

  lemma Parts(m: Mem, gm: int, lo: int, hi: int, top: int, topsize: int, h: Chunks,
              b: Binned, ix: Index, smallmap: int, treemap: int, out: set<int>)
    requires Sound(m, gm, lo, hi, top, topsize, h, b, ix, smallmap, treemap, out)
    ensures Indexed(m, gm, lo, hi, b, ix, smallmap, treemap) && Mapped(m, gm, lo, hi) && Heads(m, b)
    ensures HeapTags(m, lo, hi, top, topsize, h) && b == FreeBut(h, out)
  {
  }

  lemma AddOut(m: Mem, gm: int, lo: int, hi: int, top: int, topsize: int, h: Chunks,
               b: Binned, ix: Index, smallmap: int, treemap: int, out: set<int>, out': set<int>)
    requires Sound(m, gm, lo, hi, top, topsize, h, b, ix, smallmap, treemap, out) && out' == out + {0}
    ensures Sound(m, gm, lo, hi, top, topsize, h, b, ix, smallmap, treemap, out')
  {
    hide Indexed; hide HeapTags; hide Mapped; hide Heads;
    assert 0 !in h by { NotNull(m, lo, hi, top, topsize, h); }
  }

  lemma TopFacts(m: Mem, gm: int, lo: int, hi: int, top: int, topsize: int, h: Chunks,
                 b: Binned, ix: Index, smallmap: int, treemap: int, out: set<int>)
    requires Sound(m, gm, lo, hi, top, topsize, h, b, ix, smallmap, treemap, out)
    ensures 0 < top && top % 8 == 0 && 0 < topsize && topsize % 8 == 0 && top + topsize + TOP_FOOT_SIZE == hi
    ensures top !in h && lo <= top
  {
    hide Indexed; hide Mapped; hide Heads;
    assert top in h ==> WellSized(top, h[top], lo, top);
  }

  lemma EndBound(m: Mem, gm: int, lo: int, hi: int, top: int, topsize: int, h: Chunks,
                 b: Binned, ix: Index, smallmap: int, treemap: int, out: set<int>)
    requires Sound(m, gm, lo, hi, top, topsize, h, b, ix, smallmap, treemap, out)
    ensures hi <= WORD && 0 < lo
  {
    hide Indexed; hide Mapped; hide Heads;
  }
}
