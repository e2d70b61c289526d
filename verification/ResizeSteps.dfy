/** Resizing a block in place: what the tag writes of `try_realloc_chunk` and `internal_memalign` do to the heap as a
    whole. */
module ResizeSteps {
  import opened Words
  import opened Tiling
  import opened Bins
  import opened LargeSteps
  import opened BoundaryTags
  import opened Retags
  import opened AllocSteps
  import opened FreeSteps

  function Min(a: int, b: int): int { if a < b then a else b }

  /** `set_inuse`'s new head: size `s`, in use, pinuse as before. */
  function UsedAs(w: int, s: int): int { s + 2 + w % 2 }

  lemma UsedAsIs(w: int, s: int)
    requires s % 8 == 0
    ensures HeadIs(w, UsedAs(w, s), s, true)
  {
    HeadFields(s, true, Pinuse(w));
  }

  /** Block `p` is now `s` bytes; other blocks, and what fits of its own content, are as before. */
  ghost predicate Resized(m: Mem, m': Mem, h: Chunks, h': Chunks, p: int, s: int) {
    p in Live(h) && Live(h') == Live(h)[p := s] && PayloadKept(m, m', Live(h)[p := Min(Live(h)[p], s)])
  }

  /** [p, e) is block `p`, possibly with the free chunk behind it. */
  ghost predicate Space(h: Chunks, p: int, e: int) {
    && p in h && h[p].inuse
    && (e == p + h[p].size || (p + h[p].size in h && !h[p + h[p].size].inuse && e == p + h[p].size + h[p + h[p].size].size))
  }

  lemma SpaceOnly(h: Chunks, lo: int, top: int, p: int, e: int)
    requires Tiled(h, lo, top) && Space(h, p, e)
    ensures p + 16 <= p + h[p].size <= e && Edge(h, e, top)
    ensures forall q :: q in h && p <= q < e ==> q == p || q == p + h[p].size
  {
    var n := p + h[p].size;
    assert WellSized(p, h[p], lo, top) && NextIn(h, p, top);
    if e != n { assert WellSized(n, h[n], lo, top) && NextIn(h, n, top); }
  }

  /** The live blocks after [p, e) has been cut anew, starting with an in-use chunk at `p`. */
  lemma SpaceLive(h: Chunks, p: int, e: int)
    requires Space(h, p, e) && p < e && (forall q :: q in h && p <= q < e ==> q == p || q == p + h[p].size)
    ensures LiveOut(h, p, e) == Live(h) - {p} && p in Live(h) && Live(h)[p] == h[p].size
  {
    forall q | q in h && p <= q < e && h[q].inuse ensures q == p {}
  }

  /** Writes behind the kept part of a block, or to its head, leave the kept part alone. */
  lemma OwnKept(m: Mem, m': Mem, live: map<int, int>, ws: set<int>, p: int, k: int)
    requires PayloadKept(m, m', live - {p}) && Only(m, m', ws) && forall w :: w in ws ==> w < p + 8 || p + k + 4 <= w
    ensures PayloadKept(m, m', live[p := k])
  {
    var live' := live[p := k];
    forall q, w {:trigger InBlock(live', q, w), Rd(m', w)} | q in live' && InBlock(live', q, w) ensures Rd(m', w) == Rd(m, w) {
      if q != p { assert InBlock(live - {p}, q, w); }
    }
  }

  /** Cutting the space of block `p` anew. */
  lemma CutStep(m: Mem, m': Mem, gm: int, lo: int, hi: int, top: int, topsize: int, h: Chunks,
                b: Binned, ix: Index, smallmap: int, treemap: int, out: set<int>,
                p: int, e: int, piece: Chunks, e': int, top': int, topsize': int, out': set<int>, ws: set<int>, k: int)
    requires Sound(m, gm, lo, hi, top, topsize, h, b, ix, smallmap, treemap, out) && Space(h, p, e)
    requires Recut(m, m', h, lo, top, topsize, p, e, piece, e', top', topsize') && OutOk(h, p, e, piece, out, out')
    requires m.Keys <= m'.Keys
    requires Only(m, m', ws) && forall w :: w in ws ==> w < p + 8 || p + k + 4 <= w
    ensures Sound(m', gm, lo, hi, top', topsize', Splice(h, p, e, piece), b, ix, smallmap, treemap, out')
    ensures p in Live(h) && Live(h)[p] == h[p].size && Live(Splice(h, p, e, piece)) == (Live(h) - {p}) + Live(piece)
    ensures PayloadKept(m, m', Live(h)[p := k])
  {
    hide Indexed; hide HeapTags; hide Mapped; hide Heads; hide Recut; hide FreeBut; hide PayloadKept; hide Live;
    hide LiveOut; hide OutOk; hide Splice; hide Only;
    ApplyRecut(m, m', gm, lo, hi, top, topsize, h, b, ix, smallmap, treemap, out, p, e, piece, e', top', topsize',
               out');
    SpaceFacts(m, lo, hi, top, topsize, h, p, e);
    SpaceLive(h, p, e);
    OwnKept(m, m', Live(h), ws, p, k);
  }

  lemma SpaceFacts(m: Mem, lo: int, hi: int, top: int, topsize: int, h: Chunks, p: int, e: int)
    requires HeapTags(m, lo, hi, top, topsize, h) && Space(h, p, e)
    ensures p in h && p + 16 <= p + h[p].size <= e && Edge(h, e, top) && p % 8 == 0 && e % 8 == 0 && p > 0 && e <= top
    ensures forall q :: q in h && p <= q < e ==> q == p || q == p + h[p].size
    ensures e != p + h[p].size ==> e != top && e in h && h[e].inuse && !Pinuse(Rd(m, e + 4))
    ensures e == p + h[p].size ==> Pinuse(Rd(m, e + 4))
    ensures e == top ==> Rd(m, e + 4) == topsize + 1
  {
    var n := p + h[p].size;
    SpaceOnly(h, lo, top, p, e);
    assert WellSized(p, h[p], lo, top) && Tag(m, p, h[p]);
    if e != n { assert NextUsed(h, n) && Tag(m, n, h[n]) && WellSized(n, h[n], lo, top) && WellSized(e, h[e], lo, top); }
    if e in h { assert WellSized(e, h[e], lo, top); }
  }

  // ---- The whole space ----

  /** `set_inuse(M, p, s)` */
  function SetInuse(m: Mem, p: int, s: int): Mem {
    m[p + 4 := UsedAs(Rd(m, p + 4), s)][p + s + 4 := WithPinuse(Rd(m, p + s + 4))]
  }

  lemma KeepTopHead(topsize: int)
    requires topsize % 8 == 0
    ensures WithPinuse(topsize + 1) == topsize + 1
  {
    HeadFields(topsize, false, true);
  }

  lemma WholeStep(m: Mem, gm: int, lo: int, hi: int, top: int, topsize: int, h: Chunks,
                  b: Binned, ix: Index, smallmap: int, treemap: int, out: set<int>, p: int, e: int, out': set<int>) returns (h': Chunks)
    requires Sound(m, gm, lo, hi, top, topsize, h, b, ix, smallmap, treemap, out) && Space(h, p, e)
    requires OutOk(h, p, e, One(p, e - p, true), out, out')
    ensures p + 4 in m && e + 4 in m
    ensures Sound(SetInuse(m, p, e - p), gm, lo, hi, top, topsize, h', b, ix, smallmap, treemap, out')
    ensures Resized(m, SetInuse(m, p, e - p), h, h', p, e - p)
    ensures forall q :: q in h && (q < p || e <= q) ==> q in h' && h'[q] == h[q]
  {
    hide Indexed; hide Mapped; hide Heads; hide Recut; hide FreeBut; hide PayloadKept; hide Live; hide OutOk;
    hide SizeOf; hide Cinuse; hide Pinuse; hide UsedAs; hide WithPinuse; hide HeapTags; hide Space;
    var s, piece, m' := e - p, One(p, e - p, true), SetInuse(m, p, e - p);
    h' := Splice(h, p, e, piece);
    SpaceFacts(m, lo, hi, top, topsize, h, p, e);
    TopSize(m, lo, hi, top, topsize, h);
    UsedAsIs(Rd(m, p + 4), s);
    PinuseBitOnly(Rd(m, e + 4));
    KeepTopHead(topsize);
    EdgeMapped(m, gm, lo, hi, top, topsize, h, p);
    EdgeMapped(m, gm, lo, hi, top, topsize, h, e);
    RecutUsed(m, m', lo, hi, top, topsize, h, p, e);
    CutStep(m, m', gm, lo, hi, top, topsize, h, b, ix, smallmap, treemap, out, p, e, piece, e, top, topsize, out',
            {p + 4, e + 4}, h[p].size);
    OneLiveAt(h, p, s);
  }

  lemma TopSize(m: Mem, lo: int, hi: int, top: int, topsize: int, h: Chunks)
    requires HeapTags(m, lo, hi, top, topsize, h)
    ensures topsize % 8 == 0 && 0 < topsize && top % 8 == 0
  {
  }

  lemma OneLiveAt(h: Chunks, p: int, s: int)
    requires p in Live(h)
    ensures (Live(h) - {p}) + Live(One(p, s, true)) == Live(h)[p := s]
  {
  }

  // ---- The space in two ----

  /** `set_inuse(M, p, s)` then `set_inuse(M, p + s, t)` */
  function SetInuse2(m: Mem, p: int, s: int, t: int): Mem { SetInuse(SetInuse(m, p, s), p + s, t) }

  lemma SetInuse2Words(m: Mem, p: int, s: int, t: int)
    requires 16 <= s && 16 <= t && s % 8 == 0 && t % 8 == 0
    ensures var m', r, e := SetInuse2(m, p, s, t), p + s, p + s + t;
            && Only(m, m', {p + 4, r + 4, e + 4}) && HeadIs(Rd(m, p + 4), Rd(m', p + 4), s, true)
            && SizeOf(Rd(m', r + 4)) == t && Cinuse(Rd(m', r + 4)) && Pinuse(Rd(m', r + 4)) && Rd(m', e + 4) == WithPinuse(Rd(m, e + 4))
  {
    hide SizeOf; hide Cinuse; hide Pinuse; hide UsedAs; hide WithPinuse;
    UsedAsIs(Rd(m, p + 4), s);
    PinuseBitOnly(Rd(m, p + s + 4));
    UsedAsIs(WithPinuse(Rd(m, p + s + 4)), t);
  }

  lemma SplitUsedStep(m: Mem, gm: int, lo: int, hi: int, top: int, topsize: int, h: Chunks,
                      b: Binned, ix: Index, smallmap: int, treemap: int, out: set<int>, p: int, s: int, t: int, out': set<int>) returns (h': Chunks)
    requires Sound(m, gm, lo, hi, top, topsize, h, b, ix, smallmap, treemap, out) && Space(h, p, p + s + t)
    requires 16 <= s && 16 <= t && s % 8 == 0 && t % 8 == 0
    requires OutOk(h, p, p + s + t, Two(p, s, true, p + s, t, true), out, out')
    ensures p + 4 in m && p + s + 4 in m && p + s + t + 4 in m
    ensures Sound(SetInuse2(m, p, s, t), gm, lo, hi, top, topsize, h', b, ix, smallmap, treemap, out')
    ensures p in Live(h) && Live(h') == Live(h)[p := s][p + s := t]
    ensures PayloadKept(m, SetInuse2(m, p, s, t), Live(h)[p := Min(Live(h)[p], s)])
    ensures p + s in h' && h'[p + s] == Chunk(t, true) && p in h' && h'[p] == Chunk(s, true)
    ensures forall q :: q in h && (q < p || p + s + t <= q) ==> q in h' && h'[q] == h[q]
  {
    hide Indexed; hide Mapped; hide Heads; hide Recut; hide FreeBut; hide PayloadKept; hide Live; hide OutOk;
    hide SizeOf; hide Cinuse; hide Pinuse; hide UsedAs; hide WithPinuse; hide HeapTags; hide Space; hide SetInuse2;
    var r, e, piece, m' := p + s, p + s + t, Two(p, s, true, p + s, t, true), SetInuse2(m, p, s, t);
    h' := Splice(h, p, e, piece);
    SpaceFacts(m, lo, hi, top, topsize, h, p, e);
    TopSize(m, lo, hi, top, topsize, h);
    SetInuse2Words(m, p, s, t);
    PinuseBitOnly(Rd(m, e + 4));
    KeepTopHead(topsize);
    EdgeMapped(m, gm, lo, hi, top, topsize, h, p);
    EdgeMapped(m, gm, lo, hi, top, topsize, h, e);
    InnerMapped(m, gm, lo, hi, top, topsize, h, p, r, e);
    RecutTwo(m, m', lo, hi, top, topsize, h, p, r, e, true);
    KeysKept(m, p, s, t);
    CutStep(m, m', gm, lo, hi, top, topsize, h, b, ix, smallmap, treemap, out, p, e, piece, e, top, topsize, out',
            {p + 4, r + 4, e + 4}, Min(h[p].size, s));
    TwoLiveAt(h, p, s, t);
  }

  lemma KeysKept(m: Mem, p: int, s: int, t: int)
    ensures m.Keys <= SetInuse2(m, p, s, t).Keys
  {
  }

  lemma InnerMapped(m: Mem, gm: int, lo: int, hi: int, top: int, topsize: int, h: Chunks, p: int, r: int, e: int)
    requires HeapTags(m, lo, hi, top, topsize, h) && Mapped(m, gm, lo, hi) && p in h && Edge(h, e, top)
    requires p <= r <= e && r % 8 == 0
    ensures r + 4 in m
  {
    hide HeapTags; hide Mapped;
    EdgeFacts(m, lo, hi, top, topsize, h, p);
    EdgeFacts(m, lo, hi, top, topsize, h, e);
    Word8(r);
    WordAt(m, gm, lo, hi, r, 4);
  }

  lemma TwoLiveAt(h: Chunks, p: int, s: int, t: int)
    requires p in Live(h) && s > 0
    ensures (Live(h) - {p}) + Live(Two(p, s, true, p + s, t, true)) == Live(h)[p := s][p + s := t]
  {
  }

  // ---- Growing into the designated victim, keeping a remainder ----

  /** `set_inuse(M, p, s)`, `set_size_and_pinuse_of_free_chunk(r, t)`, `clear_pinuse(n)` */
  function GrowDv(m: Mem, p: int, s: int, t: int): Mem {
    var m1 := SetInuse(m, p, s)[p + s + 4 := FreeHead(t)][p + s + t := t];
    m1[p + s + t + 4 := WithoutPinuse(Rd(m1, p + s + t + 4))]
  }

  lemma GrowDvWords(m: Mem, p: int, s: int, t: int)
    requires 16 <= s && 16 <= t && s % 8 == 0 && t % 8 == 0
    ensures var m', r, e := GrowDv(m, p, s, t), p + s, p + s + t;
            && Only(m, m', {p + 4, r + 4, e, e + 4}) && m.Keys <= m'.Keys && HeadIs(Rd(m, p + 4), Rd(m', p + 4), s, true)
            && SizeOf(Rd(m', r + 4)) == t && !Cinuse(Rd(m', r + 4)) && Pinuse(Rd(m', r + 4)) && Rd(m', e) == t
            && PinIs(Rd(m, e + 4), Rd(m', e + 4), false)
  {
    hide SizeOf; hide Cinuse; hide Pinuse; hide UsedAs; hide WithPinuse; hide WithoutPinuse;
    UsedAsIs(Rd(m, p + 4), s);
    Heads3(t);
    PinuseBitOnly(Rd(m, p + s + t + 4));
  }

  lemma GrowDvStep(m: Mem, gm: int, lo: int, hi: int, top: int, topsize: int, h: Chunks,
                   b: Binned, ix: Index, smallmap: int, treemap: int, out: set<int>, p: int, s: int, t: int, out': set<int>) returns (h': Chunks)
    requires Sound(m, gm, lo, hi, top, topsize, h, b, ix, smallmap, treemap, out) && Space(h, p, p + s + t)
    requires p + s + t != p + h[p].size
    requires h[p].size <= s
    requires 16 <= s && 16 <= t && s % 8 == 0 && t % 8 == 0
    requires OutOk(h, p, p + s + t, Two(p, s, true, p + s, t, false), out, out')
    ensures p + 4 in m && p + s + 4 in m && p + s + t + 4 in m
    ensures Sound(GrowDv(m, p, s, t), gm, lo, hi, top, topsize, h', b, ix, smallmap, treemap, out')
    ensures Resized(m, GrowDv(m, p, s, t), h, h', p, s) && p + s in h' && h'[p + s] == Chunk(t, false)
  {
    hide Indexed; hide Mapped; hide Heads; hide Recut; hide FreeBut; hide PayloadKept; hide Live; hide OutOk;
    hide SizeOf; hide Cinuse; hide Pinuse; hide UsedAs; hide WithPinuse; hide HeapTags; hide Space; hide GrowDv;
    var r, e, piece, m' := p + s, p + s + t, Two(p, s, true, p + s, t, false), GrowDv(m, p, s, t);
    h' := Splice(h, p, e, piece);
    SpaceFacts(m, lo, hi, top, topsize, h, p, e);
    GrowDvWords(m, p, s, t);
    EdgeMapped(m, gm, lo, hi, top, topsize, h, p);
    EdgeMapped(m, gm, lo, hi, top, topsize, h, e);
    InnerMapped(m, gm, lo, hi, top, topsize, h, p, r, e);
    RecutTwo(m, m', lo, hi, top, topsize, h, p, r, e, false);
    CutStep(m, m', gm, lo, hi, top, topsize, h, b, ix, smallmap, treemap, out, p, e, piece, e, top, topsize, out',
            {p + 4, r + 4, e, e + 4}, h[p].size);
    FirstLiveAt(h, p, s, t);
  }

  lemma FirstLiveAt(h: Chunks, p: int, s: int, t: int)
    requires p in Live(h) && s > 0
    ensures (Live(h) - {p}) + Live(Two(p, s, true, p + s, t, false)) == Live(h)[p := s]
  {
    var live := Live(Two(p, s, true, p + s, t, false));
    assert forall q :: q in live <==> q == p;
  }

  // ---- Growing into the top ----

  /** `set_inuse(M, p, s)`, then the head of the new top. */
  function GrowTop(m: Mem, p: int, s: int, tsize: int): Mem { SetInuse(m, p, s)[p + s + 4 := FreeHead(tsize)] }

  lemma GrowTopStep(m: Mem, gm: int, lo: int, hi: int, top: int, topsize: int, h: Chunks,
                    b: Binned, ix: Index, smallmap: int, treemap: int, out: set<int>, p: int, s: int) returns (h': Chunks)
    requires Sound(m, gm, lo, hi, top, topsize, h, b, ix, smallmap, treemap, out) && p in h && h[p].inuse
    requires p + h[p].size == top
    requires h[p].size < s < h[p].size + topsize && s % 8 == 0
    ensures p + 4 in m && p + s + 4 in m
    ensures Sound(GrowTop(m, p, s, top + topsize - p - s), gm, lo, hi, p + s, top + topsize - p - s, h', b, ix,
                  smallmap, treemap, out)
    ensures Resized(m, GrowTop(m, p, s, top + topsize - p - s), h, h', p, s)
    ensures forall q :: q in h && q < p ==> q in h' && h'[q] == h[q]
  {
    hide Indexed; hide Mapped; hide Heads; hide Recut; hide FreeBut; hide PayloadKept; hide Live; hide SizeOf;
    hide Cinuse; hide Pinuse; hide UsedAs; hide WithPinuse; hide HeapTags;
    var piece, t, m' := One(p, s, true), p + s, GrowTop(m, p, s, top + topsize - p - s);
    h' := Splice(h, p, top, piece);
    SpaceFacts(m, lo, hi, top, topsize, h, p, top);
    TopSize(m, lo, hi, top, topsize, h);
    UsedAsIs(Rd(m, p + 4), s);
    EdgeMapped(m, gm, lo, hi, top, topsize, h, p);
    AboveMapped(m, gm, lo, hi, top, topsize, h, t);
    RecutTop(m, m', lo, hi, top, topsize, h, p, t);
    CutStep(m, m', gm, lo, hi, top, topsize, h, b, ix, smallmap, treemap, out, p, top, piece, t, t, top + topsize - t,
            out, {p + 4, t + 4}, h[p].size);
    OneLiveAt(h, p, s);
  }

  lemma AboveMapped(m: Mem, gm: int, lo: int, hi: int, top: int, topsize: int, h: Chunks, t: int)
    requires HeapTags(m, lo, hi, top, topsize, h) && Mapped(m, gm, lo, hi) && top <= t < top + topsize
    requires t % 8 == 0
    ensures t + 4 in m
  {
    hide Mapped; hide Tags; hide Coalesced;
    Word8(t);
    WordAt(m, gm, lo, hi, t, 4);
  }

  // ---- Composing ----

  lemma SpaceOutOk(m: Mem, gm: int, lo: int, hi: int, top: int, topsize: int, h: Chunks,
                   b: Binned, ix: Index, smallmap: int, treemap: int, out: set<int>, p: int, e: int, piece: Chunks, out': set<int>)
    requires Sound(m, gm, lo, hi, top, topsize, h, b, ix, smallmap, treemap, out) && Space(h, p, e)
    requires (e != p + h[p].size ==> p + h[p].size in out) && (forall q :: q in piece && !piece[q].inuse ==> q in out')
    requires forall q :: q in h && (q < p || e <= q) ==> (q in out <==> q in out')
    ensures OutOk(h, p, e, piece, out, out')
  {
    hide Indexed; hide HeapTags; hide Mapped; hide Heads; hide FreeBut; hide Pinuse;
    SpaceFacts(m, lo, hi, top, topsize, h, p, e);
  }

  /** Bytes kept in longer blocks are kept in shorter ones. */
  lemma PayloadShorter(m: Mem, m': Mem, live: map<int, int>, live': map<int, int>)
    requires PayloadKept(m, m', live') && forall q :: q in live ==> q in live' && live[q] <= live'[q]
    ensures PayloadKept(m, m', live)
  {
    forall q, w {:trigger InBlock(live, q, w), Rd(m', w)} | q in live && InBlock(live, q, w) ensures Rd(m', w) == Rd(m, w) {
      assert InBlock(live', q, w);
    }
  }

  /** Unlinking first does not change what a resize keeps. */
  lemma ResizedAfter(m: Mem, m1: Mem, m2: Mem, h: Chunks, h': Chunks, p: int, s: int)
    requires PayloadKept(m, m1, Live(h)) && Resized(m1, m2, h, h', p, s)
    ensures Resized(m, m2, h, h', p, s)
  {
    var live := Live(h)[p := Min(Live(h)[p], s)];
    PayloadShorter(m, m1, live, Live(h));
    PayloadTwice(m, m1, m2, live);
  }

  /** Splitting off a remainder and giving it back. */
  lemma ResizedBack(m: Mem, m1: Mem, m2: Mem, h: Chunks, h1: Chunks, h2: Chunks, p: int, s: int, t: int)
    requires p in Live(h) && p + s !in Live(h) && s > 0 && Live(h1) == Live(h)[p := s][p + s := t]
    requires PayloadKept(m, m1, Live(h)[p := Min(Live(h)[p], s)]) && Returned(m1, m2, h1, h2, p + s)
    ensures Resized(m, m2, h, h2, p, s)
  {
    var live := Live(h)[p := Min(Live(h)[p], s)];
    assert Live(h2) == Live(h)[p := s];
    PayloadShorter(m1, m2, live, Live(h2));
    PayloadTwice(m, m1, m2, live);
  }

  /** A remainder inside the space of `p` is no block yet. */
  lemma InsideSpace(m: Mem, gm: int, lo: int, hi: int, top: int, topsize: int, h: Chunks,
                    b: Binned, ix: Index, smallmap: int, treemap: int, out: set<int>, p: int, e: int, r: int)
    requires Sound(m, gm, lo, hi, top, topsize, h, b, ix, smallmap, treemap, out) && Space(h, p, e) && p < r < e
    ensures r !in Live(h) && p in Live(h) && Live(h)[p] == h[p].size && (r in h ==> r == p + h[p].size)
  {
    hide Indexed; hide HeapTags; hide Mapped; hide Heads; hide FreeBut; hide Pinuse;
    SpaceFacts(m, lo, hi, top, topsize, h, p, e);
  }

  /** A free chunk other than the next one lies outside the space of `p`. */
  lemma OutOfBlock(m: Mem, gm: int, lo: int, hi: int, top: int, topsize: int, h: Chunks,
                   b: Binned, ix: Index, smallmap: int, treemap: int, out: set<int>, p: int, e: int, dv: int)
    requires Sound(m, gm, lo, hi, top, topsize, h, b, ix, smallmap, treemap, out) && Space(h, p, e)
    requires dv == 0 || (dv in h && !h[dv].inuse && (dv != p + h[p].size || e == p + h[p].size))
    ensures dv < p || (e <= dv && e < top)
  {
    hide Indexed; hide Mapped; hide Heads; hide FreeBut; hide Pinuse; hide Tags; hide Coalesced;
    SpaceFacts(m, lo, hi, top, topsize, h, p, e);
    if dv in h { assert WellSized(dv, h[dv], lo, top); }
  }

  lemma NoChunkAtNull(m: Mem, gm: int, lo: int, hi: int, top: int, topsize: int, h: Chunks,
                      b: Binned, ix: Index, smallmap: int, treemap: int, out: set<int>)
    requires Sound(m, gm, lo, hi, top, topsize, h, b, ix, smallmap, treemap, out)
    ensures 0 !in h
  {
    hide Indexed; hide HeapTags; hide Mapped; hide Heads; hide FreeBut;
    NotNull(m, lo, hi, top, topsize, h);
  }

  // ---- Giving back the front of a block ----

  /** Block `p` of `s` bytes is new; all others are as before. */
  ghost predicate Given(m: Mem, m': Mem, h: Chunks, h': Chunks, p: int, s: int) {
    p !in Live(h) && Live(h') == Live(h)[p := s] && PayloadKept(m, m', Live(h))
  }

  /** `set_inuse` on the rear part first, then on the front. */
  lemma RearFirst(m: Mem, p: int, s: int, t: int)
    requires 16 <= s && 16 <= t && s % 8 == 0 && t % 8 == 0
    ensures SetInuse(SetInuse(m, p + s, t), p, s) == SetInuse2(m, p, s, t)
  {
    hide UsedAs; hide WithPinuse;
    EitherOrder(Rd(m, p + s + 4), t);
  }

  lemma EitherOrder(w: int, t: int)
    requires t % 8 == 0
    ensures WithPinuse(UsedAs(w, t)) == UsedAs(WithPinuse(w), t)
  {
    HeadFields(t, true, Pinuse(w));
    PinuseBitOnly(w);
    assert UsedAs(WithPinuse(w), t) == t + 3;
    var v := UsedAs(w, t);
    assert v == t + 2 || v == t + 3;
  }

  /** A fresh block loses its front, which is given back. */
  lemma GivenRear(m: Mem, m1: Mem, m2: Mem, m3: Mem, h: Chunks, h1: Chunks, h2: Chunks, h3: Chunks, p: int, s: int,
                  t: int)
    requires Given(m, m1, h, h1, p, s + t) && s > 0 && p + s !in Live(h1)
    requires Live(h2) == Live(h1)[p := s][p + s := t] && PayloadKept(m1, m2, Live(h1)[p := Min(s + t, s)])
    requires Returned(m2, m3, h2, h3, p)
    ensures Given(m, m3, h, h3, p + s, t)
  {
    PayloadLess(m1, m2, Live(h), Live(h1)[p := Min(s + t, s)]);
    assert Live(h3) == Live(h)[p + s := t];
    PayloadLess(m2, m3, Live(h), Live(h3));
    PayloadTwice(m, m1, m2, Live(h));
    PayloadTwice(m, m2, m3, Live(h));
  }

  /** A fresh block is shortened. */
  lemma GivenShort(m: Mem, m1: Mem, m2: Mem, h: Chunks, h1: Chunks, h2: Chunks, p: int, s: int, t: int)
    requires Given(m, m1, h, h1, p, s) && Resized(m1, m2, h1, h2, p, t)
    ensures Given(m, m2, h, h2, p, t)
  {
    PayloadLess(m1, m2, Live(h), Live(h1)[p := Min(Live(h1)[p], t)]);
    PayloadTwice(m, m1, m2, Live(h));
    assert Live(h2) == Live(h)[p := t];
  }
}
