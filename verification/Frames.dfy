/** Which words the allocator writes at all: those of its segment and of its bin arrays. */
module Frames {
  import opened Words
  import opened Tiling
  import opened Bins
  import opened LargeSteps
  import opened BoundaryTags
  import opened AllocSteps
  import opened ResizeSteps

  /** Bytes of the bin arrays. */
  const BINS_SIZE := 392

  /** Since memory was `m0`, only words of [lo, peak) and of the bin arrays have been written, and no word has been
      unmapped. */
  ghost predicate Confined(m0: Mem, m: Mem, gm: int, lo: int, peak: int) {
    && (forall a {:trigger a in m} :: a in m0 ==> a in m)
    && (forall w {:trigger Rd(m, w)} :: (w < lo || peak <= w) && (w < gm || gm + BINS_SIZE <= w) ==> Rd(m, w) == Rd(m0, w))
  }

  ghost predicate StillMapped(m: Mem, m': Mem) { forall a {:trigger a in m'} :: a in m ==> a in m' }

  lemma WritesInside(m0: Mem, m: Mem, m': Mem, gm: int, lo: int, peak: int, ws: set<int>)
    requires Confined(m0, m, gm, lo, peak) && Only(m, m', ws) && StillMapped(m, m')
    requires forall w :: w in ws ==> lo <= w < peak || gm <= w < gm + BINS_SIZE
    ensures Confined(m0, m', gm, lo, peak)
  {
  }

  /** Operations on the bins write inside free chunks. */
  lemma TouchesInside(m0: Mem, m: Mem, m': Mem, gm: int, lo: int, hi: int, peak: int, b: Binned)
    requires Confined(m0, m, gm, lo, peak) && Touches(m, m', gm, b) && StillMapped(m, m') && Separate(gm, lo, hi, b)
    requires hi <= peak
    ensures Confined(m0, m', gm, lo, peak)
  {
    forall w {:trigger Rd(m', w)} | (w < lo || peak <= w) && (w < gm || gm + BINS_SIZE <= w) ensures Rd(m', w) == Rd(m0, w) {
      forall p | p in b ensures w < p + 8 || p + b[p] <= w { assert Sized(p, b[p], lo, hi); }
      assert Outside(gm, b, w);
      assert Rd(m', w) == Rd(m, w);
      assert Rd(m, w) == Rd(m0, w);
    }
  }

  lemma Widened(m0: Mem, m: Mem, gm: int, lo: int, peak: int, lo': int, peak': int)
    requires Confined(m0, m, gm, lo, peak) && (lo == peak || (lo' <= lo && peak <= peak'))
    ensures Confined(m0, m, gm, lo', peak')
  {
  }

  /** Heads and feet of chunks lie in the segment. */
  lemma ChunkInside(m: Mem, gm: int, lo: int, hi: int, top: int, topsize: int, h: Chunks,
                    b: Binned, ix: Index, smallmap: int, treemap: int, out: set<int>, p: int)
    requires Sound(m, gm, lo, hi, top, topsize, h, b, ix, smallmap, treemap, out) && Edge(h, p, top)
    ensures lo <= p <= top && top + topsize + TOP_FOOT_SIZE == hi && 0 < topsize
    ensures (p in h ==> 16 <= h[p].size && p + h[p].size <= top)
  {
    hide Indexed; hide Mapped; hide Heads; hide Tags; hide Coalesced; hide FreeBut;
    if p in h { assert WellSized(p, h[p], lo, top); }
  }

  /** Two `set_inuse`, the rear part first. */
  lemma FrontWrites(m: Mem, p: int, s: int, t: int)
    ensures var m' := SetInuse(SetInuse(m, p + s, t), p, s);
            Only(m, m', {p + 4, p + s + 4, p + s + t + 4}) && StillMapped(m, m')
  {
    hide UsedAs; hide WithPinuse;
  }

  /** Growth into the designated victim. */
  lemma VictimWrites(m: Mem, p: int, s: int, t: int)
    ensures var m' := GrowDv(m, p, s, t);
            Only(m, m', {p + 4, p + s + 4, p + s + t, p + s + t + 4}) && StillMapped(m, m')
  {
    hide UsedAs; hide WithPinuse; hide WithoutPinuse;
  }
}
