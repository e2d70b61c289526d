/** The heap as a tiling: chunks laid end to end between two addresses. */
module Tiling {

  datatype Chunk = Chunk(size: int, inuse: bool)

  /** Chunk at each chunk address. */
  type Chunks = map<int, Chunk>

  const MIN_CHUNK_SIZE := 16

  ghost predicate WellSized(p: int, c: Chunk, lo: int, hi: int) {
    lo <= p && p % 8 == 0 && c.size % 8 == 0 && MIN_CHUNK_SIZE <= c.size && p + c.size <= hi
  }

  /** The chunk after `p` exists, or `p` is the last one. */
  ghost predicate NextIn(h: Chunks, p: int, hi: int)
    requires p in h
  {
    p + h[p].size == hi || p + h[p].size in h
  }

  ghost predicate Tiled(h: Chunks, lo: int, hi: int) {
    && lo <= hi && lo % 8 == 0 && hi % 8 == 0
    && (lo < hi ==> lo in h)
    && (forall p :: p in h ==> WellSized(p, h[p], lo, hi))
    && (forall p {:trigger NextIn(h, p, hi)} :: p in h ==> NextIn(h, p, hi))
    && (forall p, q :: p in h && q in h && p < q ==> p + h[p].size <= q)
  }

  /** `a` is a chunk boundary of the tiling. */
  ghost predicate Edge(h: Chunks, a: int, hi: int) {
    a == hi || a in h
  }

  /** Replace the chunks of `[a, b)` by `piece`. */
  ghost function Splice(h: Chunks, a: int, b: int, piece: Chunks): Chunks {
    (h - set p | p in h && a <= p < b) + piece
  }

  /** The region `[a, b)` of a tiling is re-tiled by `piece`; at the upper end the bound may move along. */
  ghost predicate Fits(h: Chunks, lo: int, hi: int, a: int, b: int, piece: Chunks, b': int, hi': int) {
    && Tiled(h, lo, hi) && lo <= a <= b <= hi && Edge(h, a, hi) && Edge(h, b, hi)
    && Tiled(piece, a, b')
    && ((b == b' && hi == hi') || (b == hi && b' == hi'))
  }

  lemma SpliceSized(h: Chunks, lo: int, hi: int, a: int, b: int, piece: Chunks, b': int, hi': int)
    requires Fits(h, lo, hi, a, b, piece, b', hi')
    ensures var s := Splice(h, a, b, piece); forall p :: p in s ==> WellSized(p, s[p], lo, hi')
  {
    var s := Splice(h, a, b, piece);
    forall p | p in s ensures WellSized(p, s[p], lo, hi') {
      if p !in piece && p < a {
        assert WellSized(p, h[p], lo, hi);
        if a in h { assert p + h[p].size <= a; }
      }
    }
  }

  lemma SpliceDisjoint(h: Chunks, lo: int, hi: int, a: int, b: int, piece: Chunks, b': int, hi': int, p: int, q: int)
    requires Fits(h, lo, hi, a, b, piece, b', hi')
    requires p in Splice(h, a, b, piece) && q in Splice(h, a, b, piece) && p < q
    ensures p + Splice(h, a, b, piece)[p].size <= q
  {
    if p in piece {
      assert WellSized(p, piece[p], a, b');
      if q !in piece { assert q < a || b <= q; }
    } else if q in piece {
      assert WellSized(q, piece[q], a, b') && WellSized(p, h[p], lo, hi);
      assert p < a || b <= p;
      if p < a && a in h { assert p + h[p].size <= a; }
    }
  }

  lemma SpliceNext(h: Chunks, lo: int, hi: int, a: int, b: int, piece: Chunks, b': int, hi': int, p: int)
    requires Fits(h, lo, hi, a, b, piece, b', hi') && p in Splice(h, a, b, piece)
    ensures NextIn(Splice(h, a, b, piece), p, hi')
  {
    if p in piece {
      assert NextIn(piece, p, b') && WellSized(p, piece[p], a, b');
    } else {
      assert NextIn(h, p, hi) && WellSized(p, h[p], lo, hi);
      assert p < a || b <= p;
      if p < a && a in h { assert p + h[p].size <= a; }
      if p + h[p].size == a && a != b' { assert a in piece; }
    }
  }

  lemma SpliceTiled(h: Chunks, lo: int, hi: int, a: int, b: int, piece: Chunks, b': int, hi': int)
    requires Fits(h, lo, hi, a, b, piece, b', hi')
    ensures Tiled(Splice(h, a, b, piece), lo, hi')
  {
    var s := Splice(h, a, b, piece);
    SpliceSized(h, lo, hi, a, b, piece, b', hi');
    forall p, q | p in s && q in s && p < q ensures p + s[p].size <= q {
      SpliceDisjoint(h, lo, hi, a, b, piece, b', hi', p, q);
    }
    forall p {:trigger NextIn(s, p, hi')} | p in s ensures NextIn(s, p, hi') {
      SpliceNext(h, lo, hi, a, b, piece, b', hi', p);
    }
  }

  /** Walking the chunks from a boundary reaches every later boundary: the chunk just before `q`. */
  lemma {:induction false} Before(h: Chunks, lo: int, hi: int, from: int, q: int) returns (p: int)
    requires Tiled(h, lo, hi) && from in h && from < q && Edge(h, q, hi)
    ensures p in h && from <= p && p + h[p].size == q
    decreases q - from
  {
    assert NextIn(h, from, hi) && WellSized(from, h[from], lo, hi);
    if from + h[from].size == q {
      p := from;
    } else {
      p := Before(h, lo, hi, from + h[from].size, q);
    }
  }

  /** The bytes of the chunks from `a` on, as `traverse_and_check` adds them up. */
  ghost function Total(h: Chunks, lo: int, hi: int, a: int): int
    requires Tiled(h, lo, hi) && Edge(h, a, hi)
    decreases hi - a
  {
    if a == hi then 0
    else
      assert NextIn(h, a, hi) && WellSized(a, h[a], lo, hi);
      h[a].size + Total(h, lo, hi, a + h[a].size)
  }

  /** No byte of the segment is lost or counted twice. */
  lemma {:induction false} TotalIsExtent(h: Chunks, lo: int, hi: int, a: int)
    requires Tiled(h, lo, hi) && Edge(h, a, hi)
    ensures Total(h, lo, hi, a) == hi - a
    decreases hi - a
  {
    if a != hi {
      assert NextIn(h, a, hi) && WellSized(a, h[a], lo, hi);
      TotalIsExtent(h, lo, hi, a + h[a].size);
    }
  }

  /** The blocks handed out to callers, with their chunk sizes. Comprehensions here give 0 off their domain, so that
      equal maps have equal value expressions everywhere. */
  ghost function Live(h: Chunks): map<int, int> {
    map p | p in h && h[p].inuse :: if p in h && h[p].inuse then h[p].size else 0
  }

  /** The chunk after `p` exists and is in use. */
  ghost predicate NextUsed(h: Chunks, p: int)
    requires p in h
  {
    p + h[p].size in h && h[p + h[p].size].inuse
  }

  /** No free chunk touches another free chunk or the top. */
  ghost predicate Coalesced(h: Chunks) {
    forall p {:trigger NextUsed(h, p)} :: p in h && !h[p].inuse ==> NextUsed(h, p)
  }

  /** One step of the canonical-form argument: at a common boundary both heaps have the same chunk. */
  lemma SameChunk(h: Chunks, top: int, h': Chunks, top': int, lo: int, a: int)
    requires Tiled(h, lo, top) && Coalesced(h) && Tiled(h', lo, top') && Coalesced(h') && Live(h) == Live(h')
    requires a in h && Edge(h', a, top')
    ensures a in h' && h[a] == h'[a]
  {
    assert WellSized(a, h[a], lo, top);
    if h[a].inuse {
      assert a in Live(h);
    } else {
      assert NextUsed(h, a);
      var n := a + h[a].size;
      assert n in Live(h) && n in Live(h');
      assert WellSized(n, h'[n], lo, top');
      assert a !in Live(h');
      assert NextUsed(h', a);
      var n' := a + h'[a].size;
      assert n' in Live(h') && n' in Live(h);
    }
  }

  /** A coalesced heap is determined by its live blocks: all operations that free a block must agree. */
  lemma {:induction false} LiveDetermines(h: Chunks, top: int, h': Chunks, top': int, lo: int, a: int)
    requires Tiled(h, lo, top) && Coalesced(h) && Tiled(h', lo, top') && Coalesced(h') && Live(h) == Live(h')
    requires Edge(h, a, top) && Edge(h', a, top')
    ensures top == top'
    ensures forall p :: a <= p ==> (p in h <==> p in h') && (p in h ==> h[p] == h'[p])
    decreases top - a
  {
    if a in h {
      SameChunk(h, top, h', top', lo, a);
      assert WellSized(a, h[a], lo, top) && WellSized(a, h'[a], lo, top');
      assert NextIn(h, a, top) && NextIn(h', a, top');
      LiveDetermines(h, top, h', top', lo, a + h[a].size);
      forall p | a < p < a + h[a].size ensures p !in h && p !in h' {}
    } else {
      if a in h' {
        SameChunk(h', top', h, top, lo, a);
      }
      forall p | p in h ensures p < top { assert WellSized(p, h[p], lo, top); }
      forall p | p in h' ensures p < top' { assert WellSized(p, h'[p], lo, top'); }
    }
  }

  /** Two coalesced heaps with the same live blocks are the same heap, with the same top. */
  lemma CanonicalHeap(h: Chunks, top: int, h': Chunks, top': int, lo: int)
    requires Tiled(h, lo, top) && Coalesced(h) && Tiled(h', lo, top') && Coalesced(h') && Live(h) == Live(h')
    ensures h == h' && top == top'
  {
    LiveDetermines(h, top, h', top', lo, lo);
    forall p | p in h ensures lo <= p { assert WellSized(p, h[p], lo, top); }
    forall p | p in h' ensures lo <= p { assert WellSized(p, h'[p], lo, top'); }
  }
}
