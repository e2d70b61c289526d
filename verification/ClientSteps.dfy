/** Stores of the program into its own blocks. */
module ClientSteps {
  import opened Words
  import opened Tiling
  import opened Bins
  import opened LargeSteps
  import opened BoundaryTags
  import opened AllocSteps

  /** Only words of block `p` change. */
  ghost predicate InsideBlock(m: Mem, m': Mem, p: int, s: int) {
    m.Keys <= m'.Keys && forall w {:trigger Rd(m', w)} :: w < p + 8 || p + s + 4 <= w ==> Rd(m', w) == Rd(m, w)
  }

  lemma StoreTags(m: Mem, m': Mem, lo: int, hi: int, top: int, topsize: int, h: Chunks, p: int)
    requires HeapTags(m, lo, hi, top, topsize, h) && p in h && h[p].inuse
    requires InsideBlock(m, m', p, h[p].size)
    ensures HeapTags(m', lo, hi, top, topsize, h)
  {
    assert WellSized(p, h[p], lo, top);
    forall q {:trigger Tag(m', q, h[q])} | q in h ensures Tag(m', q, h[q]) {
      assert Tag(m, q, h[q]) && WellSized(q, h[q], lo, top) && NextIn(h, q, top);
      var n := q + h[q].size;
      assert n in h ==> WellSized(n, h[n], lo, top);
    }
    assert WellSized(lo, h[lo], lo, top);
    assert HeapTags(m', lo, hi, top, topsize, h);
  }

  lemma StoreInside(m: Mem, m': Mem, gm: int, lo: int, hi: int, top: int, topsize: int, h: Chunks, out: set<int>,
                    p: int)
    requires HeapTags(m, lo, hi, top, topsize, h) && p in h && h[p].inuse
    requires InsideBlock(m, m', p, h[p].size)
    requires Separate(gm, lo, hi, FreeBut(h, out))
    ensures SameInside(m, m', gm, FreeBut(h, out)) && PayloadKept(m, m', Live(h) - {p})
  {
    var b, live := FreeBut(h, out), Live(h) - {p};
    assert WellSized(p, h[p], lo, top);
    forall q, w {:trigger q in b, Rd(m', w)} | q in b && q + 8 <= w < q + b[q] ensures Rd(m', w) == Rd(m, w) {
      assert WellSized(q, h[q], lo, top);
    }
    forall q, w {:trigger InBlock(live, q, w), Rd(m', w)} | q in live && InBlock(live, q, w) ensures Rd(m', w) == Rd(m, w) {
      assert WellSized(q, h[q], lo, top);
    }
  }

  /** What a program stores into its own block cannot harm the heap or another block. */
  lemma StoreKeeps(m: Mem, m': Mem, gm: int, lo: int, hi: int, top: int, topsize: int, h: Chunks,
                   b: Binned, ix: Index, smallmap: int, treemap: int, out: set<int>, p: int)
    requires Sound(m, gm, lo, hi, top, topsize, h, b, ix, smallmap, treemap, out) && p in h && h[p].inuse
    requires InsideBlock(m, m', p, h[p].size)
    ensures Sound(m', gm, lo, hi, top, topsize, h, b, ix, smallmap, treemap, out) && PayloadKept(m, m', Live(h) - {p})
  {
    hide Indexed; hide HeapTags; hide Mapped; hide Heads; hide FreeBut; hide PayloadKept; hide SameInside;
    hide Separate; hide Live;
    StoreTags(m, m', lo, hi, top, topsize, h, p);
    BinsSeparate(m, gm, lo, hi, b, ix, smallmap, treemap);
    StoreInside(m, m', gm, lo, hi, top, topsize, h, out, p);
    KeepIndex(m, m', gm, lo, hi, b, ix, smallmap, treemap);
    HeapHeads(m', lo, hi, top, topsize, h, out);
    MappedMore(m, m', gm, lo, hi);
  }

  lemma BinsSeparate(m: Mem, gm: int, lo: int, hi: int, b: Binned, ix: Index, smallmap: int, treemap: int)
    requires Indexed(m, gm, lo, hi, b, ix, smallmap, treemap)
    ensures Separate(gm, lo, hi, b)
  {
  }

  /** The words of a block are mapped. */
  lemma BlockMapped(m: Mem, gm: int, lo: int, hi: int, top: int, topsize: int, h: Chunks,
                    b: Binned, ix: Index, smallmap: int, treemap: int, out: set<int>, p: int, w: int)
    requires Sound(m, gm, lo, hi, top, topsize, h, b, ix, smallmap, treemap, out) && p in h
    requires p <= w < p + h[p].size + 4 && w % 4 == 0
    ensures w in m
  {
    hide Indexed; hide Heads; hide FreeBut; hide Tags; hide Coalesced;
    assert WellSized(p, h[p], lo, top);
  }

  /** Two blocks do not overlap. */
  lemma BlocksApart(m: Mem, gm: int, lo: int, hi: int, top: int, topsize: int, h: Chunks,
                    b: Binned, ix: Index, smallmap: int, treemap: int, out: set<int>, p: int, q: int)
    requires Sound(m, gm, lo, hi, top, topsize, h, b, ix, smallmap, treemap, out) && p in h && q in h && p != q
    ensures p + h[p].size <= q || q + h[q].size <= p
  {
    hide Indexed; hide Heads; hide FreeBut; hide Tags; hide Coalesced; hide Mapped;
  }

  /** The first `n` bytes at `r` are the same as those at `r0` before. */
  ghost predicate Copied(m: Mem, m': Mem, r0: int, r: int, n: int) {
    forall w {:trigger Rd(m', w)} :: r <= w < r + n && (w - r) % 4 == 0 ==> Rd(m', w) == Rd(m, r0 + (w - r))
  }

  ghost predicate OnlyRange(m: Mem, m': Mem, r: int, n: int) {
    forall w {:trigger Rd(m', w)} :: w < r || r + n <= w ==> Rd(m', w) == Rd(m, w)
  }

  lemma CopyWord(m0: Mem, m1: Mem, m2: Mem, r0: int, r: int, i: int, n: int)
    requires Copied(m0, m1, r0, r, i) && OnlyRange(m0, m1, r, n) && 0 <= i < n && i % 4 == 0
    requires m2 == m1[r + i := Rd(m0, r0 + i)]
    ensures Copied(m0, m2, r0, r, i + 4) && OnlyRange(m0, m2, r, n)
  {
    forall w {:trigger Rd(m2, w)} | r <= w < r + i + 4 && (w - r) % 4 == 0 ensures Rd(m2, w) == Rd(m0, r0 + (w - r)) {
      if w != r + i { assert Rd(m2, w) == Rd(m1, w); }
    }
    forall w {:trigger Rd(m2, w)} | w < r || r + n <= w ensures Rd(m2, w) == Rd(m0, w) { assert Rd(m2, w) == Rd(m1, w); }
  }

  lemma CopyNone(m: Mem, r0: int, r: int)
    ensures Copied(m, m, r0, r, 0)
  {
  }
}
