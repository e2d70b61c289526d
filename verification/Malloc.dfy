/** The allocator: `struct malloc_state` and the operations that update it in place. */
module Malloc {
  import opened Words
  import opened Tiling
  import opened Rings
  import opened TreeIndex
  import opened SizeTrie
  import opened TreeLinks
  import opened Bins
  import opened LargeSteps
  import opened UnlinkSteps
  import opened BoundaryTags
  import opened Retags
  import opened AllocSteps
  import opened BestFit
  import opened Segments
  import opened FreeSteps
  import opened ResizeSteps
  import opened ClientSteps
  import opened Frames
  import opened HeapEvents
  import LB = LargeBins
  import BM = BinMaps

  const MIN_REQUEST := 11
  const MAX_SMALL_REQUEST := 244
  const MAX_REQUEST := WORD - 64
  const SYS_ALLOC_PADDING := 48

  /** `pad_request` */
  function PadRequest(bytes: int): int { var x := (bytes + 11) % WORD; x - x % 8 }

  lemma Padded(bytes: int)
    requires MIN_REQUEST <= bytes < MAX_REQUEST
    ensures var nb := PadRequest(bytes);
            bytes + CHUNK_OVERHEAD <= nb < bytes + CHUNK_OVERHEAD + 8 && nb % 8 == 0 && 16 <= nb < WORD - 48
  {
  }

  /** The chunk size that serves a request. */
  function RequestSize(bytes: int): int { if bytes < MIN_REQUEST then MIN_CHUNK_SIZE else PadRequest(bytes) }

  lemma RequestPadded(bytes: int)
    requires 0 <= bytes < WORD
    ensures bytes < MAX_REQUEST ==> var nb := RequestSize(bytes); bytes + CHUNK_OVERHEAD <= nb && nb % 8 == 0 && 16 <= nb < WORD - 48
    ensures bytes <= MAX_SMALL_REQUEST ==> RequestSize(bytes) <= 248
    ensures MAX_SMALL_REQUEST < bytes < MAX_REQUEST ==> MIN_LARGE_SIZE <= RequestSize(bytes)
  {
    if MIN_REQUEST <= bytes < MAX_REQUEST { Padded(bytes); }
  }

  /** The copy of a moving `realloc` is the whole old block, hence whole words. */
  lemma WholeWords(oc: int, bytes: int)
    requires 0 <= bytes < MAX_REQUEST && oc + CHUNK_OVERHEAD < RequestSize(bytes) && (oc + CHUNK_OVERHEAD) % 8 == 0
    requires 12 <= oc
    ensures oc < bytes && oc % 4 == 0
  {
    hide PadRequest;
    RequestPadded(bytes);
    EightApart(oc + CHUNK_OVERHEAD, RequestSize(bytes));
    if MIN_REQUEST <= bytes { Padded(bytes); }
  }

  /** Different multiples of 8 are 8 apart; four less than one is a multiple of 4. */
  lemma EightApart(x: int, y: int)
    requires x % 8 == 0 && y % 8 == 0 && x < y
    ensures x + 8 <= y && (x - 4) % 4 == 0
  {
    var i, j := x / 8, y / 8;
    assert x == 8 * i && y == 8 * j;
    assert x - 4 == 4 * (2 * i - 1);
  }

  /** What MORECORE answers: nothing, or a range that extends the segment (or starts it). */
  datatype Core = NoCore | Core(base: int, size: int)

  /** No binned chunk that fits `nb` is smaller than `s`. */
  ghost predicate BestOf(b: Binned, nb: int, s: int) { forall q :: q in b && nb <= b[q] ==> s <= b[q] }

  /** The chunk behind block `p` decides whether `nb` bytes from `p` on are free of other blocks. */
  lemma RoomBehind(m: Mem, gm: int, lo: int, hi: int, top: int, topsize: int, h: Chunks,
                   b: Binned, ix: Index, smallmap: int, treemap: int, out: set<int>, p: int, nb: int)
    requires Sound(m, gm, lo, hi, top, topsize, h, b, ix, smallmap, treemap, out) && p in h && h[p].inuse
    ensures var next := p + h[p].size;
            (p + nb < top + topsize && forall q :: q in Live(h) ==> q <= p || p + nb <= q)
            <==> || nb <= h[p].size
                 || (next == top && nb < h[p].size + topsize)
                 || (next in h && !h[next].inuse && nb <= h[p].size + h[next].size)
  {
    hide Indexed; hide Mapped; hide LargeSteps.Heads; hide FreeBut; hide Tags;
    var next := p + h[p].size;
    assert WellSized(p, h[p], lo, top) && NextIn(h, p, top);
    forall q | q in Live(h) && p < q ensures next <= q < top { assert WellSized(q, h[q], lo, top); }
    if next in h && h[next].inuse {
      assert next in Live(h);
    } else if next in h {
      assert NextUsed(h, next);
      var end := next + h[next].size;
      assert end in Live(h) && WellSized(end, h[end], lo, top);
      forall q | q in Live(h) && p < q ensures end <= q { assert q != next; }
    }
  }

  /** Where a block can come from. */
  datatype Origin = FromBin | FromVictim | FromTop | FromSystem

  /** The largest size, exclusive, of a binned chunk that is preferred to a designated victim that fits. */
  function Preferred(dvsize: int, nb: int): int {
    if !IsSmall(nb) then dvsize else if nb + 16 < MIN_LARGE_SIZE then nb + 16 else MIN_LARGE_SIZE
  }

  /** The order of preference `dlmalloc` documents: a close fit from the bins, the designated victim, any bin, the
      top, the system. */
  ghost function OriginOf(b: Binned, dvsize: int, topsize: int, nb: int): Origin {
    if exists q :: q in b && nb <= b[q] && (nb <= dvsize ==> b[q] < Preferred(dvsize, nb)) then FromBin
    else if nb <= dvsize then FromVictim
    else if nb < topsize then FromTop
    else FromSystem
  }

  /** A block from that origin; from the bins, one that fits best. */
  ghost predicate ComesFrom(o: Origin, b: Binned, dv: int, top: int, nb: int, r: int) {
    match o
    case FromBin => r != 0 && r - 8 in b && nb <= b[r - 8] && BestOf(b, nb, b[r - 8])
    case FromVictim => r != 0 && r - 8 == dv
    case FromTop => r != 0 && r - 8 == top
    case FromSystem => true
  }

  /** Of a designated victim at `p` the rest behind a block of `nb` bytes is kept, if it makes a chunk. */
  ghost predicate VictimLeft(p: int, dvsize: int, nb: int, dv': int, dvsize': int) {
    if dvsize < nb + 16 then dv' == 0 && dvsize' == 0 else dv' == p + nb && dvsize' == dvsize - nb
  }

  /** The designated victim after a block was handed out: what is left of it, or of the binned chunk a small block was
      cut from; otherwise it stays. */
  ghost predicate VictimAfter(o: Origin, b: Binned, dv: int, dvsize: int, nb: int, r: int, dv': int, dvsize': int) {
    match o
    case FromBin =>
      if IsSmall(nb) && r - 8 in b && nb + 16 <= b[r - 8] then dv' == r - 8 + nb && dvsize' == b[r - 8] - nb
      else dv' == dv && dvsize' == dvsize
    case FromVictim => VictimLeft(dv, dvsize, nb, dv', dvsize')
    case _ => dv' == dv && dvsize' == dvsize
  }

  /** The order of preference, case by case as `dlmalloc` documents it. */
  lemma DocumentedOrder(b: Binned, dvsize: int, topsize: int, nb: int)
    requires 16 <= nb && nb % 8 == 0 && forall q :: q in b ==> b[q] % 8 == 0
    ensures var o := OriginOf(b, dvsize, topsize, nb);
            && (nb < 256 && (exists q :: q in b && (b[q] == nb || b[q] == nb + 8) && b[q] < 256) ==> o == FromBin)
            && (nb < 256 && nb <= dvsize && (forall q :: q in b ==> b[q] != nb && (b[q] != nb + 8 || nb == 248)) ==> o == FromVictim)
            && (256 <= nb <= dvsize && (exists q :: q in b && nb <= b[q] < dvsize) ==> o == FromBin)
            && (256 <= nb <= dvsize && (forall q :: q in b ==> b[q] < nb || dvsize <= b[q]) ==> o == FromVictim)
            && (dvsize < nb && (exists q :: q in b && nb <= b[q]) ==> o == FromBin)
            && (dvsize < nb && (forall q :: q in b ==> b[q] < nb) ==> o == if nb < topsize then FromTop else FromSystem)
  {
  }

  lemma CloseFit(dvsize: int, nb: int, i: int)
    requires IsSmall(nb) && nb % 8 == 0 && nb / 8 <= i <= nb / 8 + 1 && i < 32
    ensures nb <= 8 * i < nb + 16 && 8 * i < Preferred(dvsize, nb)
  {
  }

  lemma CloseBins(dvsize: int, nb: int)
    requires IsSmall(nb) && nb % 8 == 0
    ensures var p := Preferred(dvsize, nb); 8 * (p / 8) == p && p / 8 <= 32 && p / 8 <= nb / 8 + 2
  {
  }

  lemma IsFromBin(b: Binned, dv: int, dvsize: int, top: int, topsize: int, nb: int, p: int, dv': int, dvsize': int)
    requires p != -8 && p in b && nb <= b[p] && BestOf(b, nb, b[p]) && (nb <= dvsize ==> b[p] < Preferred(dvsize, nb))
    requires if IsSmall(nb) && nb + 16 <= b[p] then dv' == p + nb && dvsize' == b[p] - nb else dv' == dv && dvsize' == dvsize
    ensures var o := OriginOf(b, dvsize, topsize, nb);
            && o == FromBin && ComesFrom(o, b, dv, top, nb, p + 8)
            && VictimAfter(o, b, dv, dvsize, nb, p + 8, dv', dvsize')
  {
  }

  lemma IsFromSpare(b: Binned, dv: int, dvsize: int, top: int, topsize: int, nb: int, p: int, dv': int, dvsize': int)
    requires BestOf(b, nb, if nb <= dvsize then Preferred(dvsize, nb) else WORD) && forall q :: q in b ==> b[q] < WORD
    requires (nb <= dvsize ==> p > 0 && p == dv) && (dvsize < nb < topsize ==> p > 0 && p == top)
    requires if nb <= dvsize then VictimLeft(dv, dvsize, nb, dv', dvsize') else dv' == dv && dvsize' == dvsize
    ensures var o := OriginOf(b, dvsize, topsize, nb);
            && (o == FromSystem <==> dvsize < nb && topsize <= nb)
            && ComesFrom(o, b, dv, top, nb, if p == 0 then 0 else p + 8)
            && VictimAfter(o, b, dv, dvsize, nb, if p == 0 then 0 else p + 8, dv', dvsize')
  {
  }

  /** `align_offset(chunk2mem(p))` */
  function AlignOffset(p: int): int { (8 - p % 8) % 8 }

  /** The segment is as it was, or ends where MORECORE's range does; a first range starts it. */
  ghost predicate Grew(lo: int, hi: int, lo': int, hi': int, core: Core) {
    || (lo' == lo && hi' == hi)
    || (core.Core? && hi' == core.base + core.size && lo' == if lo == 0 then core.base + AlignOffset(core.base) else lo)
  }

  lemma GrewNot(lo: int, hi: int, core: Core)
    ensures Grew(lo, hi, lo, hi, core)
  {
  }

  function Larger(a: int, b: int): int { if a < b then b else a }

  lemma AlignedBase(base: int, size: int)
    requires (base + size) % 8 == 0
    ensures (base + AlignOffset(base)) % 8 == 0 && (size - AlignOffset(base)) % 8 == 0 && 0 <= AlignOffset(base) < 8
  {
    var q, r, e := base / 8, base % 8, (base + size) / 8;
    assert base == 8 * q + r && base + size == 8 * e;
    if r == 0 {
      assert size == 8 * (e - q);
    } else {
      assert AlignOffset(base) == 8 - r && base + (8 - r) == 8 * (q + 1) && size - (8 - r) == 8 * (e - q - 1);
    }
  }

  lemma AlignedTop(m: Mem, gm: int, lo: int, hi: int, top: int, topsize: int, h: Chunks,
                   b: Binned, ix: Index, smallmap: int, treemap: int, out: set<int>, size: int)
    requires Sound(m, gm, lo, hi, top, topsize, h, b, ix, smallmap, treemap, out)
    ensures AlignOffset(top) == 0 && topsize % 8 == 0 && ((hi + size) % 8 == 0 ==> (topsize + size) % 8 == 0)
  {
    hide Indexed; hide Mapped; hide LargeSteps.Heads; hide FreeBut; hide Tags; hide Coalesced;
    assert top % 8 == 0 && topsize % 8 == 0 && hi == top + topsize + 40;
    var t, u := top / 8, topsize / 8;
    assert top == 8 * t && topsize == 8 * u;
    if (hi + size) % 8 == 0 {
      var e := (hi + size) / 8;
      assert topsize + size == 8 * (e - t - 5);
    }
  }

  lemma LoPositive(m: Mem, gm: int, lo: int, hi: int, top: int, topsize: int, h: Chunks,
                   b: Binned, ix: Index, smallmap: int, treemap: int, out: set<int>)
    requires Sound(m, gm, lo, hi, top, topsize, h, b, ix, smallmap, treemap, out)
    ensures 0 < lo
  {
    hide Indexed; hide Mapped; hide LargeSteps.Heads; hide FreeBut; hide Tags; hide Coalesced;
  }

  lemma MappedLess(m: Mem, gm: int, lo: int, lo': int, hi: int)
    requires Mapped(m, gm, lo, hi) && lo <= lo'
    ensures Mapped(m, gm, lo', hi)
  {
  }

  /** A rounded size above the request has not wrapped around. */
  lemma NoWrap(g: int, nb: int)
    requires 0 < g <= 0x8000_0000 && 16 <= nb < WORD
    ensures var x := (nb + SYS_ALLOC_PADDING + g - 1) % WORD; x - x % g > nb ==> nb + SYS_ALLOC_PADDING + g - 1 < WORD
  {
  }

  lemma RoundedUp(g: int, x: int)
    requires 0 < g && 0 <= x
    ensures x + g - 1 < WORD ==> var y := (x + g - 1) % WORD; x <= y - y % g < x + g && (y - y % g) % g == 0
  {
    if x + g - 1 < WORD {
      var y := x + g - 1;
      assert y - y % g == g * (y / g);
      Multiple(g, y / g);
    }
  }

  lemma Multiple(g: int, n: int)
    requires 0 < g
    ensures g * n % g == 0
  {
    var q, r := g * n / g, g * n % g;
    assert g * n == g * q + r && 0 <= r < g;
    assert g * (n - q) == r;
    assert (n - q >= 1 ==> g * (n - q) >= g) && (n - q <= -1 ==> g * (n - q) <= -g);
  }

  /** What the alignment loop of `internal_memalign` has after `n` turns. */
  function Doubled(n: nat): int { if n == 0 then 16 else 2 * Doubled(n - 1) % WORD }

  /** For an alignment above 2^31, which is no power of two, it never gets there: the loop does not end. */
  lemma NeverAligned(alignment: int, n: nat)
    requires 0x8000_0000 < alignment < WORD
    ensures BM.And(alignment, alignment - 1) != 0 && Doubled(n) < alignment
  {
    DoubledBound(n);
    var k := BM.PowerTest(alignment);
    if BM.And(alignment, alignment - 1) == 0 {
      Pow2At31();
      WordIsPow2();
      if k <= 31 { Pow2Monotone(k, 31); } else { Pow2Monotone(32, k); }
    }
  }

  lemma {:induction false} DoubledBound(n: nat)
    ensures Doubled(n) == if n < 28 then Pow2(n + 4) else 0
    ensures Doubled(n) <= 0x8000_0000
  {
    Pow2At31();
    if n < 28 { Pow2Monotone(n + 4, 31); }
    if n == 0 {
      assert Pow2(4) == 2 * Pow2(3) && Pow2(3) == 2 * Pow2(2) && Pow2(2) == 4;
    } else {
      DoubledBound(n - 1);
      TwiceWrapped(Doubled(n - 1));
    }
  }

  lemma TwiceWrapped(x: int)
    requires 0 <= x <= 0x8000_0000
    ensures 2 * x % WORD == if x < 0x8000_0000 then 2 * x else 0
  {
  }

  lemma LeastLess(b: Binned, nb: int, best: int, s: int)
    requires Least(b, nb, best) && s <= best
    ensures Least(b, nb, s)
  {
  }

  /** Small sizes show in `smalls`. */
  ghost predicate SmallShown(b: Binned, smalls: set<int>) {
    forall p :: p in b ==> b[p] == 8 * (b[p] / 8) && (IsSmall(b[p]) ==> b[p] / 8 in smalls)
  }

  /** The first non-empty small bin from that of `nb` up holds the best fit. */
  lemma SmallBest(b: Binned, smalls: set<int>, nb: int, i: int)
    requires SmallShown(b, smalls) && nb % 8 == 0 && i <= 32 && forall j :: nb / 8 <= j < i ==> j !in smalls
    ensures BestOf(b, nb, 8 * i)
  {
    forall q | q in b && nb <= b[q] ensures 8 * i <= b[q] { assert nb / 8 <= b[q] / 8; }
  }

  lemma NoSmall(b: Binned, smalls: set<int>, nb: int)
    requires SmallShown(b, smalls) && forall j :: nb / 8 <= j ==> j !in smalls
    ensures forall q :: q in b && IsSmall(b[q]) ==> b[q] < nb
  {
    forall q | q in b && IsSmall(b[q]) ensures b[q] < nb { assert b[q] / 8 < nb / 8; }
  }

  lemma NoneFits(b: Binned, nb: int)
    requires forall q :: q in b ==> b[q] < nb
    ensures BestOf(b, nb, WORD)
  {
  }

  lemma LeastBest(b: Binned, nb: int, s: int)
    requires Least(b, nb, s) && forall q :: q in b && IsSmall(b[q]) ==> b[q] < nb
    ensures BestOf(b, nb, s)
  {
  }

  /** Rounding up to an alignment, as `(x + a - 1) & -a` does for a power of two. */
  function AlignUp(x: int, a: int): int
    requires a > 0
  {
    var y := x + a - 1;
    y - y % a
  }

  lemma AlignUpIs(x: int, a: int)
    requires a > 0
    ensures x <= AlignUp(x, a) < x + a && AlignUp(x, a) % a == 0 && (AlignUp(x, a) == x <==> x % a == 0)
  {
    var y := x + a - 1;
    assert y == y / a * a + y % a;
    assert AlignUp(x, a) == y / a * a;
    MultipleOf(y / a, a);
    if x % a == 0 {
      assert x == x / a * a;
      assert y == x / a * a + (a - 1);
      SmallRest(x / a, a, a - 1);
    }
  }

  lemma MultipleOf(q: int, a: int)
    requires a > 0
    ensures q * a % a == 0
  {
    SmallRest(q, a, 0);
  }

  lemma SmallRest(q: int, a: int, r: int)
    requires a > 0 && 0 <= r < a
    ensures (q * a + r) % a == r
  {
    var x := q * a + r;
    BM.Quotient(x, a, q, r);
    assert x == a * (x / a) + x % a;
  }

  predicate IsAligned(x: int, a: int)
    requires a > 0
  {
    x % a == 0
  }

  lemma NextAligned(x: int, a: int)
    requires a > 0 && IsAligned(x, a)
    ensures IsAligned(x + a, a)
  {
    var q := x / a;
    assert x == q * a;
    assert x + a == (q + 1) * a;
    MultipleOf(q + 1, a);
  }

  /** Where `internal_memalign` puts the aligned chunk: a leader of at least a minimum chunk, and room for `nb`. */
  lemma LeadFits(p: int, size: int, nb: int, a: int)
    requires p % 8 == 0 && size % 8 == 0 && a % 16 == 0 && a > 0 && size >= nb + a + MIN_CHUNK_SIZE
    requires !IsAligned(p + 8, a) && nb >= 16
    ensures var br := AlignUp(p + 8, a) - 8; var pos := if br - p >= MIN_CHUNK_SIZE then br else br + a;
            && MIN_CHUNK_SIZE <= pos - p && (pos - p) % 8 == 0 && size - (pos - p) >= nb && (size - (pos - p)) % 8 == 0 && IsAligned(pos + 8, a)
  {
    var u := AlignUp(p + 8, a);
    AlignUpIs(p + 8, a);
    EightOf(u, a);
    assert IsAligned(u, a);
    NextAligned(u, a);
    hide IsAligned; hide AlignUp;
    LeadRoom(p, size, nb, a, u);
  }

  lemma LeadRoom(p: int, size: int, nb: int, a: int, u: int)
    requires p % 8 == 0 && size % 8 == 0 && a % 8 == 0 && u % 8 == 0 && size >= nb + a + MIN_CHUNK_SIZE
    requires p + 8 < u < p + 8 + a
    ensures var pos := if u - 8 - p >= MIN_CHUNK_SIZE then u - 8 else u - 8 + a;
            && MIN_CHUNK_SIZE <= pos - p && (pos - p) % 8 == 0 && size - (pos - p) >= nb && (size - (pos - p)) % 8 == 0
  {
  }

  lemma EightOf(x: int, a: int)
    requires a > 0 && a % 16 == 0 && x % a == 0
    ensures x % 8 == 0
  {
    var q, j := x / a, a / 16;
    assert x == q * a && a == 16 * j;
    assert x == 8 * (2 * (q * j)) by { assert q * (16 * j) == 16 * (q * j); }
  }

  lemma Pow2At31()
    ensures Pow2(31) == 0x8000_0000
  {
    WordIsPow2();
    assert Pow2(32) == 2 * Pow2(31);
  }

  lemma SixteenFold(a: int, k: nat)
    requires a == Pow2(k) && 16 <= a
    ensures a % 16 == 0
  {
    assert Pow2(3) == 8;
    assert k >= 4 by { if k < 4 { Pow2Monotone(k, 3); } }
    assert Pow2(k) == 2 * Pow2(k - 1) && Pow2(k - 1) == 2 * Pow2(k - 2) && Pow2(k - 2) == 2 * Pow2(k - 3) && Pow2(k - 3) == 2 * Pow2(k - 4);
  }

  lemma WholeSpace(h: Chunks, p: int)
    requires p in h && h[p].inuse
    ensures Space(h, p, p + h[p].size)
  {
  }

  lemma HandedGiven(m: Mem, m': Mem, h: Chunks, h': Chunks, p: int, s: int)
    requires Handed(m, m', h, h', p, s)
    ensures Given(m, m', h, h', p, s) && p in Live(h') && Live(h')[p] == s
  {
  }

  lemma GivenLive(m: Mem, m': Mem, h: Chunks, h': Chunks, p: int, s: int)
    requires Given(m, m', h, h', p, s)
    ensures p in h' && h'[p] == Chunk(s, true) && p in Live(h')
  {
    assert p in Live(h');
  }

  lemma RequestMore(bytes: int, a: int)
    requires 0 <= bytes < MAX_REQUEST - a && 16 <= a
    ensures RequestSize(bytes) + a + MIN_CHUNK_SIZE - CHUNK_OVERHEAD < WORD
  {
    if MIN_REQUEST <= bytes { Padded(bytes); }
  }

  class MallocState {
    /** Address of the bin arrays `smallbins` and `treebins`. */
    const gm: int
    /** `mparams.granularity` */
    const granularity: int
    /** `mparams.trim_threshold` */
    const trimThreshold: int

    var mem: Mem
    var smallmap: nat
    var treemap: nat
    var dv: int
    var dvsize: int
    var top: int
    var topsize: int
    var trimCheck: int

    /** Chunk addresses range over [lo, hi). */
    ghost var lo: int
    ghost var hi: int
    /** The binned free chunks and their index. */
    ghost var b: Binned
    ghost var ix: Index
    /** All chunks below the top. */
    ghost var h: Chunks
    /** Memory before the first call, and the highest end the segment has had. */
    ghost const mem0: Mem
    ghost var peak: int

    constructor (gm: int, granularity: int, trimThreshold: int, mem: Mem)
      requires 0 < gm && 0 < granularity && Mapped(mem, gm, 0, 0) && RootsNull(mem, gm)
      ensures Fresh() && Inv() && Live(h) == map[] && this.mem == mem && mem0 == mem
      ensures this.gm == gm && this.granularity == granularity && this.trimThreshold == trimThreshold
    {
      this.gm, this.granularity, this.trimThreshold, trimCheck := gm, granularity, trimThreshold, 0;
      this.mem, mem0, peak := mem, mem, 0;
      smallmap, treemap := 0, 0;
      dv, dvsize, top, topsize := 0, 0, 0, 0;
      lo, hi := 0, 0;
      b := map[];
      ix := Index(map[], map[], map[], map[], {});
      h := map[];
    }

    /** Only words of the segment, as far as it has ever reached, and of the bin arrays have been written. */
    ghost predicate Kept()
      reads this
    {
      Confined(mem0, mem, gm, lo, peak) && hi <= peak
    }

    ghost predicate BinsOk()
      reads this
    {
      Indexed(mem, gm, lo, hi, b, ix, smallmap, treemap) && Mapped(mem, gm, lo, hi) && Heads(mem, b)
    }

    // ---- Operations on small bins ----

    /** `insert_small_chunk` */
    method InsertSmallChunk(p: int, s: int)
      requires BinsOk() && p !in b && IsSmall(s) && Separate(gm, lo, hi, b[p := s]) && SizeOf(Rd(mem, p + 4)) == s
      modifies this`mem, this`smallmap, this`b, this`ix
      ensures BinsOk() && b == old(b)[p := s] && Touches(old(mem), mem, gm, b) && StillMapped(old(mem), mem)
    {
      hide Indexed; hide Touches; hide Separate; hide Mapped;
      ghost var b', ix' := b[p := s], SmallIndex(ix, p, s);
      ghost var f', map' := InsertSmallStep(mem, gm, lo, hi, b, ix, smallmap, treemap, p, s);
      HeadsKept(mem, Pushed(mem, Header(gm, s / 8), f', p), gm, lo, hi, b', p);
      var i := s / 8;
      var bin := Header(gm, i);
      var f := bin;
      if BM.And(smallmap, Pow2(i)) == 0 {
        smallmap := BM.Mark(smallmap, i);
      } else {
        f := mem[bin + FD];
      }
      mem := mem[bin + FD := p][f + BK := p][p + FD := f][p + BK := bin];
      b, ix := b', ix';
    }

    /** `unlink_small_chunk` */
    method UnlinkSmallChunk(p: int, s: int)
      requires BinsOk() && p in b && b[p] == s && IsSmall(s)
      modifies this`mem, this`smallmap, this`b, this`ix
      ensures BinsOk() && b == old(b) - {p} && Touches(old(mem), mem, gm, old(b)) && StillMapped(old(mem), mem)
    {
      hide Indexed; hide Touches; hide Separate; hide Mapped;
      ghost var f', k', ix' := UnlinkSmallStep(mem, gm, lo, hi, b, ix, smallmap, treemap, p);
      HeadsLess(mem, Bypassed(mem, f', k'), gm, lo, hi, b, ix, smallmap, treemap, p);
      var f := mem[p + FD];
      var bk := mem[p + BK];
      assert mem[f + BK] == p && mem[bk + FD] == p;
      if bk == f {
        smallmap := BM.Clear(smallmap, s / 8);
      } else {
        mem := mem[f + BK := bk][bk + FD := f];
      }
      b, ix := b - {p}, ix';
    }

    /** `unlink_first_small_chunk`: the front of bin `i`; the run-time link check holds. */
    method UnlinkFirstSmallChunk(i: int) returns (p: int)
      requires BinsOk() && i in ix.smalls
      modifies this`mem, this`smallmap, this`b, this`ix
      ensures BinsOk() && p in old(b) && old(b)[p] == 8 * i && b == old(b) - {p} && Touches(old(mem), mem, gm, old(b))
      ensures StillMapped(old(mem), mem)
    {
      hide Indexed; hide Touches; hide Separate; hide Mapped;
      FirstSmall(mem, gm, lo, hi, b, ix, smallmap, treemap, i);
      var bin := Header(gm, i);
      p := mem[bin + FD];
      ghost var f', k', ix' := UnlinkSmallStep(mem, gm, lo, hi, b, ix, smallmap, treemap, p);
      HeadsLess(mem, Bypassed(mem, f', k'), gm, lo, hi, b, ix, smallmap, treemap, p);
      var f := mem[p + FD];
      if bin == f {
        smallmap := BM.Clear(smallmap, i);
      } else {
        assert mem[f + BK] == p;
        mem := mem[f + BK := bin][bin + FD := f];
      }
      b, ix := b - {p}, ix';
    }

    // ---- Operations on tree bins ----

    /** The walk of `insert_large_chunk`: down the bits of `s` to a node of that size (c == 0) or to an empty child
        word c. */
    method FindSlot(root: int, s: int, i: int) returns (t: int, c: int, ghost q: Pos)
      requires BinsOk() && s % 8 == 0 && Walking(b, ix, s, RootOf(i), root, Shl32(s, LeftShift(i)))
      ensures t in b && t in ix.at
      ensures c == 0 ==> b[t] == s
      ensures c != 0 ==> q !in ix.nodes && q.Kid? && q.up in ix.nodes && c == Slot(gm, ix.nodes, q)
      ensures c != 0 ==> t == ParentOf(gm, ix.nodes, q)
                         && c in mem && InSpan(s, q) && Bin(q) == i && forall r :: r in ix.nodes ==> SizeIn(b, ix.nodes[r]) != s
    {
      hide Indexed; hide Mapped; hide Walking;
      t, q := root, RootOf(i);
      var k := Shl32(s, LeftShift(i));
      WalkingAt(b, ix, s, q, t, k);
      HeadMapped(mem, gm, lo, hi, b, ix, smallmap, treemap, t);
      while SizeOf(mem[t + 4]) != s
        invariant t in b && t in ix.at && 0 < t && t + 4 in mem && q in ix.nodes && Walking(b, ix, s, q, t, k)
        invariant Bin(q) == i
        decreases Exp(q)
      {
        WalkStep(mem, gm, lo, hi, b, ix, smallmap, treemap, s, q, t, k);
        c := ChildWord(t, k / 0x8000_0000 == 1);
        k := 2 * k % WORD;
        q := Kid(q, GoesRight(s, q));
        if mem[c] == 0 {
          return;
        }
        t := mem[c];
        WalkingAt(b, ix, s, q, t, k);
        HeadMapped(mem, gm, lo, hi, b, ix, smallmap, treemap, t);
      }
      c := 0;
    }

    /** `insert_large_chunk` */
    method InsertLargeChunk(x: int, s: int)
      requires BinsOk() && x !in b && !IsSmall(s) && Separate(gm, lo, hi, b[x := s]) && SizeOf(Rd(mem, x + 4)) == s
      modifies this`mem, this`treemap, this`b, this`ix
      ensures BinsOk() && b == old(b)[x := s] && Touches(old(mem), mem, gm, b) && StillMapped(old(mem), mem)
    {
      hide Indexed; hide Touches; hide Separate; hide Mapped; hide Walking; hide InBin; hide Heads;
      ghost var b' := b[x := s];
      NewSize(gm, lo, hi, b, x, s);
      var i := ComputeTreeIndex(s);
      var h := TreeBin(gm, i);
      FreshWords(mem, gm, lo, hi, b, ix, smallmap, treemap, x, s, i);
      HeadsFresh(mem, mem[x + INDEX := i][x + LEFT := 0][x + RIGHT := 0], gm, lo, hi, b, x, s);
      mem := mem[x + INDEX := i][x + LEFT := 0][x + RIGHT := 0];
      ghost var m1 := mem;
      WalkStart(mem, gm, lo, hi, b, ix, smallmap, treemap, s, i);
      if BM.And(treemap, Pow2(i)) == 0 {
        PlantRoot(mem, gm, lo, hi, b, ix, smallmap, treemap, x, s, i);
        treemap := BM.Mark(treemap, i);
        mem := mem[h := x][x + PARENT := h];
        mem := mem[x + FD := x][x + BK := x];
        ix := LB.PlantIndex(ix, RootOf(i), x, s);
      } else {
        var t, c;
        ghost var q;
        t, c, q := FindSlot(mem[h], s, i);
        if c != 0 {
          PlantKid(mem, gm, lo, hi, b, ix, smallmap, treemap, q, x, s, i);
          mem := mem[c := x][x + PARENT := t];
          mem := mem[x + FD := x][x + BK := x];
          ix := LB.PlantIndex(ix, q, x, s);
        } else {
          ChainStep(mem, gm, lo, hi, b, ix, smallmap, treemap, t, x, s, i);
          var f := mem[t + FD];
          mem := mem[t + FD := x][f + BK := x][x + FD := f][x + BK := t][x + PARENT := 0];
          ix := LB.ChainIndex(ix, x, s);
        }
      }
      b := b';
      Settled(old(mem), m1, mem, gm, lo, hi, b);
    }

    /** The search of `unlink_large_chunk` for a leaf to replace `x`: r == 0 if there is none, else its address and
        slot. */
    method RightmostLeaf(x: int, ghost q: Pos) returns (r: int, rp: int, ghost leaf: Pos)
      requires BinsOk() && q in ix.nodes && ix.nodes[q] == x
      ensures r == 0 ==> Kid(q, false) !in ix.nodes && Kid(q, true) !in ix.nodes
      ensures r != 0 ==> leaf in ix.nodes && leaf != q && Under(leaf, q) && ix.nodes[leaf] == r
      ensures r != 0 ==> rp == Slot(gm, ix.nodes, leaf)
                         && Kid(leaf, false) !in ix.nodes && Kid(leaf, true) !in ix.nodes
    {
      hide Indexed; hide Mapped; hide Heads;
      NodeReads(mem, gm, lo, hi, b, ix, smallmap, treemap, q);
      rp, leaf := x + RIGHT, Kid(q, true);
      if mem[rp] == 0 {
        rp, leaf := x + LEFT, Kid(q, false);
      }
      r := mem[rp];
      if r != 0 {
        NodeReads(mem, gm, lo, hi, b, ix, smallmap, treemap, leaf);
        var cp := if mem[r + RIGHT] != 0 then r + RIGHT else r + LEFT;
        while mem[cp] != 0
          invariant leaf in ix.nodes && ix.nodes[leaf] == r && rp == Slot(gm, ix.nodes, leaf) && Under(leaf, q)
          invariant Exp(leaf) < Exp(q)
          invariant r + LEFT in mem && r + RIGHT in mem && cp == if mem[r + RIGHT] != 0 then r + RIGHT else r + LEFT
          invariant r > 0 && Exp(leaf) >= 3
          decreases Exp(leaf)
        {
          NodeReads(mem, gm, lo, hi, b, ix, smallmap, treemap, leaf);
          leaf := Kid(leaf, mem[r + RIGHT] != 0);
          rp := cp;
          r := mem[rp];
          NodeReads(mem, gm, lo, hi, b, ix, smallmap, treemap, leaf);
          cp := if mem[r + RIGHT] != 0 then r + RIGHT else r + LEFT;
        }
        NodeReads(mem, gm, lo, hi, b, ix, smallmap, treemap, leaf);
      }
    }

    /** `unlink_large_chunk`: the word that points at `x`, whose parent word is `xp`, is set to `r`. */
    method SetSlot(x: int, xp: int, r: int, ghost q: Pos, ghost nodes: Nodes, ghost roots: map<int, Pos>)
      requires Trees(mem, gm, nodes, roots) && q in nodes && nodes[q] == x && xp == ParentOf(gm, nodes, q)
      requires 0 <= Bin(q) < 32
      requires TreeBin(gm, Bin(q)) in mem && x + INDEX in mem && (q.Kid? ==> xp + LEFT in mem)
      modifies this`mem, this`treemap
      ensures mem == old(mem)[Slot(gm, nodes, q) := r]
      ensures treemap == if r == 0 && q.Root? then BM.Clear(old(treemap), q.bin) else old(treemap)
    {
      SlotReads(mem, gm, nodes, roots, q);
      hide Trees;
      var i := mem[x + INDEX];
      var h := TreeBin(gm, i);
      if mem[h] == x {
        mem := mem[h := r];
        if r == 0 {
          treemap := BM.Clear(treemap, i);
        }
      } else if mem[xp + LEFT] == x {
        mem := mem[xp + LEFT := r];
      } else {
        mem := mem[xp + RIGHT := r];
      }
    }

    /** `unlink_large_chunk`: `r` takes the parent and the children of `x`. */
    method TakeFamily(x: int, xp: int, r: int)
      requires x + LEFT in mem && x + RIGHT in mem
      modifies this`mem
      ensures mem == Inherit(old(mem), xp, x, r) && StillMapped(old(mem), mem)
    {
      mem := mem[r + PARENT := xp];
      var c0 := mem[x + LEFT];
      if c0 != 0 {
        mem := mem[r + LEFT := c0][c0 + PARENT := r];
      }
      var c1 := mem[x + RIGHT];
      if c1 != 0 {
        mem := mem[r + RIGHT := c1][c1 + PARENT := r];
      }
    }

    /** `unlink_large_chunk`; both run-time link checks hold. */
    method UnlinkLargeChunk(x: int)
      requires BinsOk() && x in b && !IsSmall(b[x])
      modifies this`mem, this`treemap, this`b, this`ix
      ensures BinsOk() && b == old(b) - {x} && Touches(old(mem), mem, gm, old(b)) && StillMapped(old(mem), mem)
    {
      hide Indexed; hide Touches; hide Mapped; hide Heads; hide Inherit; hide Trees; hide Under; hide Bypassed;
      hide Neighbours;
      hide LB.LiftIndex; hide LB.LeafIndex; hide LB.PromoteIndex;
      ghost var k := UnlinkReads(mem, gm, lo, hi, b, ix, smallmap, treemap, x);
      NeighbourReads(mem, gm, lo, hi, b, ix, x, k, Rd(mem, x + FD), Rd(mem, x + BK));
      ghost var ix' := ix;
      var xp := mem[x + PARENT];
      if mem[x + BK] != x {
        var f := mem[x + FD];
        var r := mem[x + BK];
        assert mem[f + BK] == x && mem[r + FD] == x;
        mem := mem[f + BK := r][r + FD := f];
        if xp != 0 {
          ghost var m1 := mem;
          ghost var q := ix.at[x];
          PromoteReads(old(mem), m1, gm, lo, hi, b, ix, smallmap, treemap, x, r);
          SetSlot(x, xp, r, q, ix.nodes, ix.roots);
          TakeFamily(x, xp, r);
          PromoteStep(old(mem), m1, mem, gm, lo, hi, b, ix, smallmap, treemap, x, r);
          ix' := LB.PromoteIndex(ix, b[x], q);
        } else {
          LB.UnchainLarge(old(mem), gm, lo, hi, b, ix, smallmap, treemap, x, k);
          ix' := LB.UnchainIndex(ix, b[x], k);
        }
      } else {
        ghost var q := ix.at[x];
        SlotMapped(mem, gm, lo, hi, b, ix, smallmap, treemap, q);
        var r, rp;
        ghost var leaf;
        r, rp, leaf := RightmostLeaf(x, q);
        if r != 0 {
          mem := mem[rp := 0];
          ghost var m1 := mem;
          LiftReads(old(mem), m1, gm, lo, hi, b, ix, smallmap, treemap, x, leaf);
          SetSlot(x, xp, r, q, ix.nodes - {leaf}, ix.roots);
          TakeFamily(x, xp, r);
          LiftStep(old(mem), m1, mem, gm, lo, hi, b, ix, smallmap, treemap, x, leaf);
          ix' := LB.LiftIndex(ix, b[x], x, q, leaf);
        } else {
          LeafFacts(mem, gm, lo, hi, b, ix, smallmap, treemap, x);
          SetSlot(x, xp, 0, q, ix.nodes, ix.roots);
          LeafStep(old(mem), gm, lo, hi, b, ix, smallmap, old(treemap), x, treemap);
          ix' := LB.LeafIndex(ix, b[x], x, q);
        }
      }
      HeadsLess(old(mem), mem, gm, lo, hi, b, ix, smallmap, old(treemap), x);
      b, ix := b - {x}, ix';
    }

    // ---- Bins of either kind ----

    /** Tags, bins and maps are right, with the free chunks `out` not binned. */
    ghost predicate Ready(out: set<int>)
      reads this
    {
      Sound(mem, gm, lo, hi, top, topsize, h, b, ix, smallmap, treemap, out) && Kept()
    }

    /** `insert_chunk` */
    method InsertChunk(p: int, s: int, ghost out: set<int>)
      requires Ready(out) && p in out && p in h && !h[p].inuse && h[p].size == s
      modifies this`mem, this`smallmap, this`treemap, this`b, this`ix
      ensures Ready(out - {p}) && PayloadKept(old(mem), mem, Live(h))
    {
      hide Indexed; hide HeapTags; hide Touches; hide Mapped; hide Heads; hide Separate; hide FreeBut;
      hide PayloadKept; hide Confined; hide StillMapped;
      InsertReady(mem, gm, lo, hi, top, topsize, h, b, ix, smallmap, treemap, out, p);
      if IsSmall(s) {
        InsertSmallChunk(p, s);
      } else {
        InsertLargeChunk(p, s);
      }
      IndexKeepsHeap(old(mem), mem, gm, lo, hi, top, topsize, h, out - {p});
      TouchesInside(mem0, old(mem), mem, gm, lo, hi, peak, b);
    }

    /** `unlink_chunk` */
    method UnlinkChunk(p: int, s: int, ghost out: set<int>)
      requires Ready(out) && p in b && b[p] == s
      modifies this`mem, this`smallmap, this`treemap, this`b, this`ix
      ensures Ready(out + {p}) && PayloadKept(old(mem), mem, Live(h))
    {
      hide Indexed; hide HeapTags; hide Touches; hide Mapped; hide Heads; hide Separate; hide FreeBut;
      hide PayloadKept; hide Confined; hide StillMapped;
      if IsSmall(s) {
        UnlinkSmallChunk(p, s);
      } else {
        UnlinkLargeChunk(p);
      }
      UnlinkKeeps(old(mem), mem, gm, lo, hi, top, topsize, h, old(b), old(ix), old(smallmap), old(treemap), out, p);
      BinsSeparate(old(mem), gm, lo, hi, old(b), old(ix), old(smallmap), old(treemap));
      TouchesInside(mem0, old(mem), mem, gm, lo, hi, peak, old(b));
    }

    // ---- Best fit ----

    /** `tmalloc_large`: follow the bits of `nb` down its own bin. */
    method SearchBin(nb: int, idx: int) returns (v: int, rsize: int, t: int, ghost q: Pos)
      requires BinsOk() && InBin(nb, idx) && 0 < nb < WORD && RootOf(idx) in ix.nodes && 0 <= idx < 32
      ensures 0 <= rsize && Found(b, ix, nb, v, rsize + nb)
      ensures t != 0 ==> Narrowing(b, ix, nb, q, t, rsize + nb)
      ensures t == 0 && v != 0 ==> Least(b, nb, rsize + nb)
      ensures t == 0 && v == 0 ==> FellOff(b, ix, nb, idx, WORD, NoRest)
    {
      hide Indexed; hide Mapped; hide Heads; hide InBin; hide SizeBits; hide Searching; hide FellOff; hide Least;
      hide Narrowed; hide RootOf; hide Sub32;
      RootPlaces(mem, gm, lo, hi, b, ix, smallmap, treemap);
      RootRead(mem, gm, lo, hi, b, ix, smallmap, treemap, idx);
      ProbeStart(mem, gm, lo, hi, b, ix, smallmap, treemap, nb, idx);
      Better(0, nb, WORD);
      v, rsize, t, q := 0, Sub32(0, nb), mem[TreeBin(gm, idx)], RootOf(idx);
      var sizebits, rst := Shl32(nb, LeftShift(idx)), 0;
      ghost var rest := NoRest;
      while true
        invariant 0 <= rsize && Found(b, ix, nb, v, rsize + nb) && (v != 0 ==> InBin(rsize + nb, idx))
        invariant Probing(b, ix, nb, idx, q, t, sizebits, rsize + nb, rst, rest) && Bin(q) == idx
        decreases Exp(q)
      {
        NodeSize(mem, gm, lo, hi, b, ix, smallmap, treemap, q);
        ghost var best := rsize + nb;
        Better(b[t], nb, best);
        var trem := Sub32(SizeOf(mem[t + 4]), nb);
        if trem < rsize {
          v, rsize := t, trem;
          if rsize == 0 {
            return;
          }
        }
        ghost var q', rest' := ProbeStep(mem, gm, lo, hi, b, ix, smallmap, treemap, nb, idx, q, t, sizebits, best,
                                         rsize + nb, rst, rest);
        var rt := mem[t + RIGHT];
        t := mem[ChildWord(t, sizebits / 0x8000_0000 == 1)];
        if rt != 0 && rt != t {
          rst := rt;
        }
        rest := rest';
        if t == 0 {
          t := rst;
          if rst != 0 {
            TurnRest(mem, gm, lo, hi, b, ix, smallmap, treemap, nb, idx, rsize + nb, rst, rest);
            q := rest.pos;
          } else if v != 0 {
            TurnFound(mem, gm, lo, hi, b, ix, smallmap, treemap, nb, idx, rsize + nb);
          }
          return;
        }
        sizebits := 2 * sizebits % WORD;
        q := q';
      }
    }

    /** `tmalloc_large`, `tmalloc_small`: the smallest of a tree or subtree is on its leftmost path. */
    method SearchLeft(nb: int, v0: int, rsize0: int, t0: int, ghost q0: Pos) returns (v: int, rsize: int)
      requires BinsOk() && 0 < nb < WORD && 0 <= rsize0 && Found(b, ix, nb, v0, rsize0 + nb)
      requires t0 != 0 ==> Narrowing(b, ix, nb, q0, t0, rsize0 + nb)
      requires t0 == 0 ==> Least(b, nb, rsize0 + nb)
      ensures 0 <= rsize && Found(b, ix, nb, v, rsize + nb) && Least(b, nb, rsize + nb)
      ensures v0 != 0 ==> v != 0
    {
      hide Indexed; hide Mapped; hide Heads; hide InBin; hide Least; hide Narrowed; hide Sub32;
      v, rsize := v0, rsize0;
      var t := t0;
      ghost var q := q0;
      while t != 0
        invariant 0 <= rsize && Found(b, ix, nb, v, rsize + nb) && (v0 != 0 ==> v != 0)
        invariant t != 0 ==> Narrowing(b, ix, nb, q, t, rsize + nb)
        invariant t == 0 ==> Least(b, nb, rsize + nb)
        decreases t != 0, Exp(q)
      {
        NodeSize(mem, gm, lo, hi, b, ix, smallmap, treemap, q);
        ghost var best := rsize + nb;
        Better(b[t], nb, best);
        var trem := Sub32(SizeOf(mem[t + 4]), nb);
        if trem < rsize {
          v, rsize := t, trem;
        }
        q := NarrowNext(mem, gm, lo, hi, b, ix, smallmap, treemap, nb, q, t, best, rsize + nb);
        t := if mem[t + LEFT] != 0 then mem[t + LEFT] else mem[t + RIGHT];
      }
    }

    /** The search of `tmalloc_large`: the smallest large chunk that fits, if any. */
    method BestLarge(nb: int) returns (v: int, rsize: int)
      requires BinsOk() && MIN_LARGE_SIZE <= nb < WORD
      ensures 0 <= rsize && Found(b, ix, nb, v, rsize + nb) && Least(b, nb, rsize + nb)
    {
      hide Indexed; hide Mapped; hide Heads; hide InBin; hide Least; hide Narrowed; hide FellOff; hide RootOf;
      hide Sub32;
      hide BM.LeftBits; hide BM.And; hide BM.LeastBit; hide BM.Bit2Idx;
      var idx := ComputeTreeIndex(nb);
      InBinRange(nb, idx);
      RootRead(mem, gm, lo, hi, b, ix, smallmap, treemap, idx);
      Better(0, nb, WORD);
      v, rsize := 0, Sub32(0, nb);
      var t := mem[TreeBin(gm, idx)];
      ghost var q := RootOf(idx);
      if t != 0 {
        v, rsize, t, q := SearchBin(nb, idx);
      } else {
        TurnEmpty(mem, gm, lo, hi, b, ix, smallmap, treemap, nb, idx);
      }
      if t == 0 && v == 0 {
        TurnBin(mem, gm, lo, hi, b, ix, smallmap, treemap, nb, idx);
        var leftbits := BM.And(BM.LeftBits(Pow2(idx)), treemap);
        if leftbits != 0 {
          var i := BM.Bit2Idx(BM.LeastBit(leftbits));
          RootRead(mem, gm, lo, hi, b, ix, smallmap, treemap, i);
          t, q := mem[TreeBin(gm, i)], RootOf(i);
        }
      }
      v, rsize := SearchLeft(nb, v, rsize, t, q);
    }

    /** The search of `tmalloc_small`: the smallest large chunk. */
    method BestSmall(nb: int) returns (v: int, rsize: int)
      requires BinsOk() && 0 < nb < MIN_LARGE_SIZE && treemap != 0
      ensures 0 <= rsize && v != 0 && Found(b, ix, nb, v, rsize + nb) && Least(b, nb, rsize + nb)
    {
      hide Indexed; hide Mapped; hide Heads; hide InBin; hide Least; hide Narrowed; hide RootOf; hide Sub32;
      hide BM.LeastBit; hide BM.Bit2Idx;
      SmallStart(mem, gm, lo, hi, b, ix, smallmap, treemap, nb);
      var i := BM.Bit2Idx(BM.LeastBit(treemap));
      RootRead(mem, gm, lo, hi, b, ix, smallmap, treemap, i);
      ghost var q := RootOf(i);
      var t := mem[TreeBin(gm, i)];
      NodeSize(mem, gm, lo, hi, b, ix, smallmap, treemap, q);
      v, rsize := t, SizeOf(mem[t + 4]) - nb;
      ghost var q' := NarrowNext(mem, gm, lo, hi, b, ix, smallmap, treemap, nb, q, t, WORD, rsize + nb);
      t := if mem[t + LEFT] != 0 then mem[t + LEFT] else mem[t + RIGHT];
      v, rsize := SearchLeft(nb, v, rsize, t, q');
    }

    // ---- Handing out free chunks ----

    /** `set_inuse_and_pinuse` on a whole free chunk. */
    method Take(p: int, s: int, ghost out: set<int>)
      requires Ready(out) && p in out && p in h && h[p] == Chunk(s, false)
      modifies this`mem, this`h
      ensures Ready(out - {p}) && Handed(old(mem), mem, old(h), h, p, s)
    {
      hide Sound; hide Handed;
      ChunkInside(mem, gm, lo, hi, top, topsize, h, b, ix, smallmap, treemap, out, p);
      ghost var h' := TakeStep(mem, gm, lo, hi, top, topsize, h, b, ix, smallmap, treemap, out, p, s);
      mem := mem[p + 4 := UsedHead(s)][p + s + 4 := WithPinuse(mem[p + s + 4])];
      WritesInside(mem0, old(mem), mem, gm, lo, peak, {p + 4, p + s + 4});
      h := h';
    }

    /** `set_size_and_pinuse_of_inuse_chunk`, `set_size_and_pinuse_of_free_chunk`: a free chunk split in two. */
    method Split(p: int, nb: int, rs: int, ghost out: set<int>)
      requires Ready(out) && p in out && p in h && h[p] == Chunk(nb + rs, false) && 16 <= nb && 16 <= rs && nb % 8 == 0
      requires rs % 8 == 0
      modifies this`mem, this`h
      ensures Ready(out - {p} + {p + nb}) && Handed(old(mem), mem, old(h), h, p, nb)
      ensures p + nb in h && h[p + nb] == Chunk(rs, false) && p + nb !in old(h)
    {
      hide Sound; hide Handed;
      ChunkInside(mem, gm, lo, hi, top, topsize, h, b, ix, smallmap, treemap, out, p);
      ghost var h' := SplitStep(mem, gm, lo, hi, top, topsize, h, b, ix, smallmap, treemap, out, p, nb, rs);
      mem := mem[p + 4 := UsedHead(nb)][p + nb + 4 := FreeHead(rs)][p + nb + rs := rs];
      WritesInside(mem0, old(mem), mem, gm, lo, peak, {p + 4, p + nb + 4, p + nb + rs});
      h := h';
    }

    /** The designated victim is a free chunk that is not binned. */
    ghost predicate DvOk()
      reads this
    {
      if dv == 0 then dvsize == 0 else 0 < dvsize && dv in h && h[dv] == Chunk(dvsize, false)
    }

    /** The allocator's invariant. */
    ghost predicate Valid()
      reads this
    {
      Ready({dv}) && DvOk()
    }

    /** `replace_dv` */
    method ReplaceDv(p: int, s: int)
      requires Ready({dv, p}) && DvOk() && IsSmall(dvsize) && p in h && h[p] == Chunk(s, false) && p != dv && p != 0
      requires 0 < s
      modifies this`mem, this`smallmap, this`treemap, this`b, this`ix, this`dv, this`dvsize
      ensures Valid() && dv == p && dvsize == s && PayloadKept(old(mem), mem, Live(h))
    {
      hide Sound; hide PayloadKept; hide Confined;
      if dvsize != 0 {
        InsertChunk(dv, dvsize, {dv, p});
        assert {dv, p} - {dv} == {p};
      } else {
        DropOut(mem, gm, lo, hi, top, topsize, h, b, ix, smallmap, treemap, {dv, p}, {p});
        KeptAll(mem, Live(h));
      }
      dvsize := s;
      dv := p;
    }

    // ---- `malloc` ----

    /** `tmalloc_large`: the best-fitting tree chunk, unless the designated victim fits as well; 0 if neither holds. */
    method TmallocLarge(nb: int) returns (p: int, ghost s: int)
      requires Valid() && MIN_LARGE_SIZE <= nb < WORD && nb % 8 == 0
      modifies this`mem, this`smallmap, this`treemap, this`b, this`ix, this`h
      ensures Valid()
      ensures p != 0 ==> nb <= s < nb + 16 && Handed(old(mem), mem, old(h), h, p, s)
      ensures p != 0 ==> p in old(b) && old(b)[p] >= nb && Least(old(b), nb, old(b)[p])
      ensures p != 0 ==> (nb <= old(dvsize) ==> old(b)[p] < old(dvsize))
      ensures p == 0 ==> mem == old(mem) && h == old(h)
      ensures p == 0 ==> b == old(b) && Least(b, nb, if nb <= dvsize then dvsize else WORD)
    {
      hide Sound; hide PayloadKept; hide Live; hide Least; hide Sub32; hide LargeSteps.Heads; hide Indexed;
      hide Mapped; hide Confined;
      p, s := 0, 0;
      Parts(mem, gm, lo, hi, top, topsize, h, b, ix, smallmap, treemap, {dv});
      DvSize(nb);
      var v, rsize := BestLarge(nb);
      if v != 0 && rsize < Sub32(dvsize, nb) {
        BinnedChunk(mem, gm, lo, hi, top, topsize, h, b, ix, smallmap, treemap, {dv}, v);
        UnlinkChunk(v, rsize + nb, {dv});
        s := CutFit(v, nb, rsize, old(mem));
        p := v;
      } else {
        LeastLess(b, nb, rsize + nb, if nb <= dvsize then dvsize else WORD);
      }
    }

    /** An unlinked chunk is used up, or split and its remainder binned. */
    method CutFit(v: int, nb: int, rsize: int, ghost m0: Mem) returns (ghost s: int)
      requires Ready({dv} + {v}) && DvOk() && v != dv && v in h && h[v] == Chunk(nb + rsize, false) && 0 <= rsize
      requires 16 <= nb && nb % 8 == 0
      requires PayloadKept(m0, mem, Live(h))
      modifies this`mem, this`smallmap, this`treemap, this`b, this`ix, this`h
      ensures Valid() && nb <= s < nb + 16 && Handed(m0, mem, old(h), h, v, s)
    {
      hide Sound; hide PayloadKept; hide Live; hide Confined;
      ghost var m1 := mem;
      HeapChunk(mem, gm, lo, hi, top, topsize, h, b, ix, smallmap, treemap, {dv} + {v}, v);
      if rsize < MIN_CHUNK_SIZE {
        s := rsize + nb;
        Take(v, rsize + nb, {dv} + {v});
        assert {dv} + {v} - {v} == {dv};
        KeptAll(mem, Live(h));
        HandedThen(m0, m1, mem, mem, old(h), h, v, s);
      } else {
        s := nb;
        EightSum(nb + rsize, nb);
        Split(v, nb, rsize, {dv} + {v});
        ghost var m2 := mem;
        InsertChunk(v + nb, rsize, {dv} + {v} - {v} + {v + nb});
        assert {dv} + {v} - {v} + {v + nb} - {v + nb} == {dv};
        HandedThen(m0, m1, m2, mem, old(h), h, v, s);
      }
    }

    /** `(size_t)(m->dvsize - nb)` */
    lemma DvSize(nb: int)
      requires Valid() && 0 <= nb < WORD
      ensures 0 <= dvsize < WORD
      ensures Sub32(dvsize, nb) == if nb <= dvsize then dvsize - nb else dvsize - nb + WORD
    {
      hide Sound;
      if dv != 0 { HeapChunk(mem, gm, lo, hi, top, topsize, h, b, ix, smallmap, treemap, {dv}, dv); }
    }

    /** `tmalloc_small`: split the smallest tree chunk, the remainder becomes the designated victim. */
    method TmallocSmall(nb: int) returns (p: int, ghost s: int)
      requires Valid() && 16 <= nb < MIN_LARGE_SIZE && nb % 8 == 0 && treemap != 0 && dvsize < nb
      modifies this`mem, this`smallmap, this`treemap, this`b, this`ix, this`h, this`dv, this`dvsize
      ensures Valid()
      ensures p != 0 && nb <= s < nb + 16 && Handed(old(mem), mem, old(h), h, p, s)
      ensures p in old(b) && nb <= old(b)[p] && Least(old(b), nb, old(b)[p])
      ensures if old(b)[p] < nb + 16 then dv == old(dv) && dvsize == old(dvsize)
              else dv == p + nb && dvsize == old(b)[p] - nb
    {
      hide Sound; hide PayloadKept; hide Live; hide Least; hide LargeSteps.Heads; hide Indexed; hide Mapped;
      hide Confined;
      Parts(mem, gm, lo, hi, top, topsize, h, b, ix, smallmap, treemap, {dv});
      var v, rsize := BestSmall(nb);
      BinnedChunk(mem, gm, lo, hi, top, topsize, h, b, ix, smallmap, treemap, {dv}, v);
      UnlinkChunk(v, rsize + nb, {dv});
      if rsize < MIN_CHUNK_SIZE {
        s := rsize + nb;
        ghost var m1 := mem;
        Take(v, rsize + nb, {dv} + {v});
        assert {dv} + {v} - {v} == {dv};
        KeptAll(mem, Live(h));
        HandedThen(old(mem), m1, mem, mem, old(h), h, v, s);
      } else {
        s := nb;
        SplitToDv(v, nb, rsize, old(mem));
      }
      p := v;
    }

    /** The end of both small paths: split an unlinked chunk and keep the remainder as the designated victim. */
    method SplitToDv(p: int, nb: int, rs: int, ghost m0: Mem)
      requires Ready({dv} + {p}) && DvOk() && p != dv && p != 0 && p in h && h[p] == Chunk(nb + rs, false)
      requires dvsize < nb
      requires 16 <= nb < MIN_LARGE_SIZE && 16 <= rs && nb % 8 == 0 && rs % 8 == 0 && PayloadKept(m0, mem, Live(h))
      modifies this`mem, this`smallmap, this`treemap, this`b, this`ix, this`h, this`dv, this`dvsize
      ensures Valid()
      ensures Handed(m0, mem, old(h), h, p, nb) && dv == p + nb && dvsize == rs
    {
      hide Sound; hide PayloadKept; hide Live; hide Confined;
      ghost var m1 := mem;
      HeapChunk(mem, gm, lo, hi, top, topsize, h, b, ix, smallmap, treemap, {dv} + {p}, p);
      Split(p, nb, rs, {dv} + {p});
      ghost var m2 := mem;
      assert {dv} + {p} - {p} + {p + nb} == {dv, p + nb};
      ReplaceDv(p + nb, rs);
      HandedThen(m0, m1, m2, mem, old(h), h, p, nb);
    }

    /** The remainderless fit from small bin `i`. */
    method SmallExact(i: int) returns (p: int)
      requires Valid() && i in ix.smalls
      modifies this`mem, this`smallmap, this`b, this`ix, this`h
      ensures Valid()
      ensures p != 0 && Handed(old(mem), mem, old(h), h, p, 8 * i) && p in old(b) && old(b)[p] == 8 * i
    {
      hide Sound; hide PayloadKept; hide Live; hide Confined;
      p := UnlinkFirst(i, {dv});
      ghost var m1 := mem;
      Take(p, 8 * i, {dv} + {p});
      assert {dv} + {p} - {p} == {dv};
      KeptAll(mem, Live(h));
      HandedThen(old(mem), m1, mem, mem, old(h), h, p, 8 * i);
    }

    /** `unlink_first_small_chunk`, with what it leaves of the heap. */
    method UnlinkFirst(i: int, ghost out: set<int>) returns (p: int)
      requires Ready(out) && i in ix.smalls
      modifies this`mem, this`smallmap, this`b, this`ix
      ensures Ready(out + {p}) && PayloadKept(old(mem), mem, Live(h)) && p in h && h[p] == Chunk(8 * i, false)
      ensures p !in out && p > 0
      ensures p in old(b) && old(b)[p] == 8 * i
    {
      hide Indexed; hide HeapTags; hide Touches; hide Mapped; hide LargeSteps.Heads; hide FreeBut; hide PayloadKept;
      hide Confined; hide StillMapped;
      FirstSmall(mem, gm, lo, hi, b, ix, smallmap, treemap, i);
      p := UnlinkFirstSmallChunk(i);
      BinnedChunk(old(mem), gm, lo, hi, top, topsize, h, old(b), old(ix), old(smallmap), treemap, out, p);
      UnlinkKeeps(old(mem), mem, gm, lo, hi, top, topsize, h, old(b), old(ix), old(smallmap), old(treemap), out, p);
      BinsSeparate(old(mem), gm, lo, hi, old(b), old(ix), old(smallmap), old(treemap));
      TouchesInside(mem0, old(mem), mem, gm, lo, hi, peak, old(b));
    }

    /** The chunk of the next non-empty small bin, split. */
    method SmallNext(nb: int, i: int) returns (p: int)
      requires Valid() && i in ix.smalls && 16 <= nb && nb + 16 <= 8 * i && nb % 8 == 0 && dvsize < nb < MIN_LARGE_SIZE
      modifies this`mem, this`smallmap, this`treemap, this`b, this`ix, this`h, this`dv, this`dvsize
      ensures Valid()
      ensures p != 0 && Handed(old(mem), mem, old(h), h, p, nb) && p in old(b) && old(b)[p] == 8 * i
      ensures dv == p + nb && dvsize == 8 * i - nb
    {
      hide Sound; hide PayloadKept; hide Live; hide Confined;
      p := UnlinkFirst(i, {dv});
      SplitToDv(p, nb, 8 * i - nb, old(mem));
    }

    /** The designated victim, split or used up. */
    method MallocDv(nb: int) returns (p: int, ghost s: int)
      requires Valid() && 16 <= nb <= dvsize && nb % 8 == 0
      modifies this`mem, this`h, this`dv, this`dvsize
      ensures Valid()
      ensures p != 0 && p == old(dv) && nb <= s < nb + 16 && Handed(old(mem), mem, old(h), h, p, s)
      ensures if old(dvsize) < nb + 16 then dv == 0 && dvsize == 0 else dv == p + nb && dvsize == old(dvsize) - nb
    {
      hide Sound; hide PayloadKept; hide Live; hide Confined;
      var rsize := dvsize - nb;
      p := dv;
      HeapChunk(mem, gm, lo, hi, top, topsize, h, b, ix, smallmap, treemap, {dv}, dv);
      if rsize >= MIN_CHUNK_SIZE {
        s := nb;
        dv := p + nb;
        dvsize := rsize;
        Split(p, nb, rsize, {p});
        assert {p} - {p} + {p + nb} == {dv};
      } else {
        var dvs := dvsize;
        s := dvs;
        dvsize := 0;
        dv := 0;
        Take(p, dvs, {p});
        AddOut(mem, gm, lo, hi, top, topsize, h, b, ix, smallmap, treemap, {p} - {p}, {0});
      }
    }

    /** Split top. */
    method MallocTop(nb: int) returns (p: int)
      requires Valid() && 16 <= nb < topsize && nb % 8 == 0
      modifies this`mem, this`h, this`top, this`topsize
      ensures Valid() && dv == old(dv) && dvsize == old(dvsize)
      ensures p != 0 && Handed(old(mem), mem, old(h), h, p, nb) && p == old(top) && top == p + nb
    {
      hide Sound; hide PayloadKept; hide Live;
      ChunkInside(mem, gm, lo, hi, top, topsize, h, b, ix, smallmap, treemap, {dv}, top);
      ghost var h' := TopStep(mem, gm, lo, hi, top, topsize, h, b, ix, smallmap, treemap, {dv}, nb);
      TopFacts(mem, gm, lo, hi, top, topsize, h, b, ix, smallmap, treemap, {dv});
      topsize := topsize - nb;
      p := top;
      top := p + nb;
      mem := mem[top + 4 := FreeHead(topsize)][p + 4 := UsedHead(nb)];
      WritesInside(mem0, old(mem), mem, gm, lo, peak, {top + 4, p + 4});
      h := h';
    }

    // ---- System allocation ----

    /** The zero-initialised state before the first allocation. */
    ghost predicate Fresh()
      reads this
    {
      && top == 0 && topsize == 0 && dv == 0 && dvsize == 0 && smallmap == 0 && treemap == 0 && h == map[] && b == map[]
      && 0 < gm && Mapped(mem, gm, 0, 0) && RootsNull(mem, gm) && lo == 0 && hi == 0 && peak == 0 && Kept()
    }

    /** What the program sees. */
    ghost function Seen(): View
      reads this`mem, this`h
    {
      View(mem, Live(h))
    }

    /** The invariant of a program that uses the allocator from the start. */
    ghost predicate Inv()
      reads this
    {
      0 < granularity && (Valid() || Fresh())
    }

    /** A range MORECORE may answer with: mapped, with an aligned end, clear of the allocator's own state, and
        extending the segment if there is one; a first range need not start aligned, but must hold the segment's
        overhead. */
    ghost predicate CoreOk(core: Core)
      reads this`mem, this`top, this`lo, this`hi
    {
      core.Core? ==>
        && 0 < core.base && 0 < core.size && core.base + core.size <= WORD && (core.base + core.size) % 8 == 0
        && (if top == 0 then
              && TOP_FOOT_SIZE + AlignOffset(core.base) < core.size
              && Mapped(mem, gm, core.base, core.base + core.size) && (gm + 392 <= core.base || core.base + core.size <= gm)
            else
              core.base == hi && Mapped(mem, gm, lo, core.base + core.size) && (gm + 392 <= lo || core.base + core.size <= gm))
    }

    /** With this answer `sys_alloc` can serve a chunk of `nb` bytes: the size it computes does not wrap, and the top
        gets large enough. */
    ghost predicate Grants(nb: int, core: Core)
      reads this`top, this`topsize
      requires 0 < granularity
    {
      && GranularityAlign(nb + SYS_ALLOC_PADDING) > nb && core.Core?
      && nb < if top == 0 then core.size - TOP_FOOT_SIZE - AlignOffset(core.base) else topsize + core.size
    }

    /** The size `sys_alloc` asks MORECORE for: enough for the chunk and the overhead, less what is there. */
    function Asked(nb: int): int
      reads this`top, this`topsize
      requires 0 < granularity
    {
      if top == 0 then GranularityAlign(nb + SYS_ALLOC_PADDING) else GranularityAlign(nb - topsize + SYS_ALLOC_PADDING)
    }

    /** It is the least whole number of units that covers these; if that much is given, the chunk can be served,
        wherever the range starts. */
    lemma FullGrant(nb: int, core: Core)
      requires 0 < granularity <= 0x8000_0000 && 16 <= nb < WORD && 0 <= topsize <= nb
      requires GranularityAlign(nb + SYS_ALLOC_PADDING) > nb
      requires core.Core? && core.size == Asked(nb)
      ensures Grants(nb, core) && Asked(nb) % granularity == 0
      ensures Asked(nb) - granularity < nb + SYS_ALLOC_PADDING - (if top == 0 then 0 else topsize) <= Asked(nb)
    {
      hide GranularityAlign;
      AlignedUp(nb, nb + SYS_ALLOC_PADDING);
      AlignedUp(nb, nb - topsize + SYS_ALLOC_PADDING);
    }

    lemma AlignedUp(nb: int, x: int)
      requires 0 < granularity <= 0x8000_0000 && 16 <= nb < WORD && 0 <= x <= nb + SYS_ALLOC_PADDING
      requires GranularityAlign(nb + SYS_ALLOC_PADDING) > nb
      ensures x <= GranularityAlign(x) < x + granularity && GranularityAlign(x) % granularity == 0
    {
      NoWrap(granularity, nb);
      RoundedUp(granularity, x);
    }

    /** `init_bins`: empty rings in the small bins. */
    method InitBins()
      requires Fresh()
      modifies this`mem
      ensures Fresh() && forall a :: a in old(mem) ==> a in mem
      ensures forall i :: 0 <= i < 32 ==> Ring(mem, [Header(gm, i)])
    {
      var i := 0;
      while i < 32
        invariant 0 <= i <= 32 && (forall a :: a in old(mem) ==> a in mem) && RootsNull(mem, gm)
        invariant Confined(mem0, mem, gm, 0, 0)
        invariant forall j :: 0 <= j < i ==> Rd(mem, Header(gm, j) + FD) == Header(gm, j) && Rd(mem, Header(gm, j) + BK) == Header(gm, j)
      {
        var bin := Header(gm, i);
        ghost var m := mem;
        mem := mem[bin + BK := bin][bin + FD := bin];
        WritesInside(mem0, m, mem, gm, 0, 0, {bin + BK, bin + FD});
        i := i + 1;
      }
      forall j | 0 <= j < 32 ensures Ring(mem, [Header(gm, j)]) {
        forall k {:trigger Linked(mem, [Header(gm, j)], k)} | 0 <= k < 1 ensures Linked(mem, [Header(gm, j)], k) {}
      }
    }

    /** `init_top`: from the first aligned address on. */
    method InitTop(p: int, psize: int)
      modifies this`mem, this`top, this`topsize, this`trimCheck
      ensures top == p + AlignOffset(p) && top + topsize == p + psize && mem == TopInit(old(mem), top, topsize)
      ensures trimCheck == trimThreshold
    {
      var offset := AlignOffset(p);
      top := p + offset;
      topsize := psize - offset;
      mem := mem[top + 4 := FreeHead(topsize)];
      mem := mem[top + topsize + 4 := TOP_FOOT_SIZE];
      trimCheck := trimThreshold;
    }

    /** `granularity_align` on 32-bit words, for a granularity that is a power of two. */
    function GranularityAlign(s: int): int
      requires 0 < granularity
    {
      var x := (s + granularity - 1) % WORD;
      x - x % granularity
    }

    /** `sys_alloc`: first-time initialization. */
    method FirstUse(core: Core)
      requires Fresh() && CoreOk(core) && core.Core?
      modifies this
      ensures Valid() && h == old(h) && PayloadKept(old(mem), mem, Live(h))
      ensures topsize == core.size - TOP_FOOT_SIZE - AlignOffset(core.base) && dv == 0 && dvsize == 0
      ensures lo == core.base + AlignOffset(core.base) && hi == core.base + core.size
    {
      hide Sound; hide Mapped; hide RootsNull; hide Confined; hide Ring;
      AlignedBase(core.base, core.size);
      InitBins();
      MappedMore(old(mem), mem, gm, core.base, core.base + core.size);
      MappedLess(mem, gm, core.base, core.base + AlignOffset(core.base), core.base + core.size);
      NullRoots(mem, gm);
      ghost var m1 := mem;
      InitTop(core.base, core.size - TOP_FOOT_SIZE);
      FirstSegment(m1, gm, top, topsize);
      lo, hi, ix := top, core.base + core.size, NoIndex();
      peak := hi;
      Widened(mem0, m1, gm, 0, 0, lo, peak);
      WritesInside(mem0, m1, mem, gm, lo, peak, {top + 4, top + topsize + 4});
    }

    /** `sys_alloc`: append to the segment that holds the top. */
    method Extend(core: Core)
      requires Valid() && top != 0 && CoreOk(core) && core.Core?
      modifies this
      ensures Valid() && h == old(h) && PayloadKept(old(mem), mem, Live(h)) && topsize == old(topsize) + core.size
      ensures hi == core.base + core.size
      ensures top == old(top) && lo == old(lo) && dv == old(dv) && dvsize == old(dvsize)
    {
      hide Sound; hide Mapped; hide PayloadKept; hide Live; hide Confined;
      TopFacts(mem, gm, lo, hi, top, topsize, h, b, ix, smallmap, treemap, {dv});
      ChunkInside(mem, gm, lo, hi, top, topsize, h, b, ix, smallmap, treemap, {dv}, top);
      AlignedTop(mem, gm, lo, hi, top, topsize, h, b, ix, smallmap, treemap, {dv}, core.size);
      ResizeTop(mem, gm, lo, hi, top, topsize, h, b, ix, smallmap, treemap, {dv}, topsize + core.size);
      InitTop(top, topsize + core.size);
      hi := hi + core.size;
      peak := if peak < hi then hi else peak;
      Widened(mem0, old(mem), gm, lo, old(peak), lo, peak);
      WritesInside(mem0, old(mem), mem, gm, lo, peak, {top + 4, top + topsize + 4});
    }

    /** `sys_alloc`, with MORECORE's answer as a parameter. */
    method SysAlloc(nb: int, core: Core) returns (p: int)
      requires Inv() && CoreOk(core) && 16 <= nb < WORD && (nb % 8 == 0 || nb == WORD - 1)
      modifies this
      ensures Inv() && (p != 0 || old(Valid()) ==> Valid()) && Grew(old(lo), old(hi), lo, hi, core)
      ensures p != 0 ==> nb % 8 == 0 && Handed(old(mem), mem, old(h), h, p, nb)
      ensures p == 0 ==> h == old(h) && PayloadKept(old(mem), mem, Live(h))
      ensures p != 0 <==> old(Grants(nb, core))
      ensures dv == old(dv) && dvsize == old(dvsize)
    {
      hide Sound; hide PayloadKept; hide Live; hide Handed; hide Mapped; hide CoreOk; hide RootsNull; hide Confined;
      KeptAll(mem, Live(h));
      AlignBound(nb + SYS_ALLOC_PADDING);
      p := 0;
      var asize := GranularityAlign(nb + SYS_ALLOC_PADDING);
      if asize <= nb || core.NoCore? {
        return;
      }
      if Valid() {
        TopFacts(mem, gm, lo, hi, top, topsize, h, b, ix, smallmap, treemap, {dv});
        ChunkInside(mem, gm, lo, hi, top, topsize, h, b, ix, smallmap, treemap, {dv}, top);
        LoPositive(mem, gm, lo, hi, top, topsize, h, b, ix, smallmap, treemap, {dv});
      }
      if top == 0 {
        FirstUse(core);
      } else {
        Extend(core);
      }
      ghost var m1 := mem;
      if nb < topsize {
        p := MallocTop(nb);
        KeptAll(mem, Live(h));
        HandedThen(old(mem), m1, mem, mem, old(h), h, p, nb);
      }
    }

    lemma AlignBound(s: int)
      requires 0 < granularity
      ensures GranularityAlign(s) < WORD
    {
    }

    /** `dlmalloc` for a small request, before it turns to the designated victim; 0 if it has to. */
    method MallocSmall(nb: int) returns (p: int, ghost s: int)
      requires Inv() && 16 <= nb <= 248 && nb % 8 == 0
      modifies this`mem, this`smallmap, this`treemap, this`b, this`ix, this`h, this`dv, this`dvsize
      ensures Inv() && (Valid() <==> old(Valid()))
      ensures p != 0 ==> Valid() && nb <= s < nb + 16 && Handed(old(mem), mem, old(h), h, p, s)
      ensures p != 0 ==> p in old(b) && nb <= old(b)[p] && BestOf(old(b), nb, old(b)[p])
      ensures p != 0 && nb <= old(dvsize) ==> old(b)[p] < Preferred(old(dvsize), nb)
      ensures p != 0 ==> if old(b)[p] < nb + 16 then dv == old(dv) && dvsize == old(dvsize)
                         else dv == p + nb && dvsize == old(b)[p] - nb
      ensures p == 0 ==> mem == old(mem) && h == old(h) && dv == old(dv) && dvsize == old(dvsize) && b == old(b)
      ensures p == 0 ==> BestOf(b, nb, if nb <= dvsize then Preferred(dvsize, nb) else WORD)
    {
      hide Sound; hide PayloadKept; hide Live; hide Indexed; hide Handed; hide BM.Bit2Idx; hide BM.LeastBit;
      hide BM.And; hide BM.LeftBits; hide BM.Not; hide Least; hide Preferred; hide BestOf; hide Confined; hide Mapped;
      hide RootsNull; hide HeapTags; hide LargeSteps.Heads;
      p, s := 0, 0;
      var idx := nb / 8;
      ghost var b0, smalls := b, if Valid() then ix.smalls else {};
      if Valid() {
        Parts(mem, gm, lo, hi, top, topsize, h, b, ix, smallmap, treemap, {dv});
        BinSizes(mem, gm, lo, hi, b, ix, smallmap, treemap);
      } else {
        BM.NoBits();
      }
      BM.SmallBits(smallmap, smalls, idx);
      var smallbits := Shr(smallmap, idx);
      BM.LowNot(smallbits);
      if BM.And(smallbits, 3) != 0 {
        idx := idx + BM.And(BM.Not(smallbits, 32), 1);
        s := 8 * idx;
        CloseFit(dvsize, nb, idx);
        SmallBest(b, smalls, nb, idx);
        p := SmallExact(idx);
      } else if nb > dvsize {
        if smallbits != 0 {
          BM.SmallNext(smallmap, ix.smalls, idx);
          var leftbits := BM.And(Shl32(smallbits, idx), BM.LeftBits(Pow2(idx)));
          var i := BM.Bit2Idx(BM.LeastBit(leftbits));
          s := nb;
          SmallBest(b, smalls, nb, i);
          p := SmallNext(nb, i);
        } else if treemap != 0 {
          NoSmall(b, smalls, nb);
          p, s := TmallocSmall(nb);
          LeastBest(b0, nb, b0[p]);
        } else {
          NoSmall(b, smalls, nb);
          if Valid() { NoTrees(mem, gm, lo, hi, b, ix, smallmap, treemap); }
          NoneFits(b, nb);
        }
      } else {
        CloseBins(dvsize, nb);
        SmallBest(b, smalls, nb, Preferred(dvsize, nb) / 8);
      }
    }

    /** `dlmalloc` for a large request, before it turns to the designated victim; 0 if it has to. */
    method MallocLarge(nb: int) returns (p: int, ghost s: int)
      requires Inv() && MIN_LARGE_SIZE <= nb < WORD && nb % 8 == 0
      modifies this`mem, this`smallmap, this`treemap, this`b, this`ix, this`h
      ensures Inv() && (Valid() <==> old(Valid()))
      ensures p != 0 ==> Valid() && nb <= s < nb + 16 && Handed(old(mem), mem, old(h), h, p, s)
      ensures p != 0 ==> p in old(b) && nb <= old(b)[p] && BestOf(old(b), nb, old(b)[p])
      ensures p != 0 && nb <= old(dvsize) ==> old(b)[p] < Preferred(old(dvsize), nb)
      ensures p == 0 ==> mem == old(mem) && h == old(h) && b == old(b)
      ensures p == 0 ==> BestOf(b, nb, if nb <= dvsize then Preferred(dvsize, nb) else WORD)
    {
      hide Sound; hide PayloadKept; hide Live; hide Indexed; hide Handed; hide Mapped; hide RootsNull; hide Confined;
      p, s := 0, 0;
      if treemap != 0 {
        p, s := TmallocLarge(nb);
      } else if Valid() {
        Parts(mem, gm, lo, hi, top, topsize, h, b, ix, smallmap, treemap, {dv});
        NoTrees(mem, gm, lo, hi, b, ix, smallmap, treemap);
      }
    }

    /** `dlmalloc` when no bin serves the request: the designated victim, the top, the system, in this order. */
    method FromSpare(nb: int, core: Core) returns (p: int, ghost s: int)
      requires Inv() && CoreOk(core) && 16 <= nb < WORD && (nb % 8 == 0 || nb == WORD - 1)
      modifies this
      ensures Inv() && (p != 0 || old(Valid()) ==> Valid()) && Grew(old(lo), old(hi), lo, hi, core)
      ensures p != 0 ==> nb % 8 == 0 && nb <= s < nb + 16 && Handed(old(mem), mem, old(h), h, p, s)
      ensures p == 0 ==> h == old(h) && PayloadKept(old(mem), mem, Live(h))
      ensures nb <= old(dvsize) ==> p != 0 && p == old(dv)
      ensures if nb <= old(dvsize) then VictimLeft(old(dv), old(dvsize), nb, dv, dvsize) else dv == old(dv) && dvsize == old(dvsize)
      ensures old(dvsize) < nb < old(topsize) ==> p != 0 && p == old(top)
      ensures old(dvsize) < nb && old(topsize) <= nb ==> (p != 0 <==> old(Grants(nb, core)))
    {
      hide Sound; hide PayloadKept; hide Live; hide Handed; hide Mapped; hide RootsNull; hide Confined;
      if Valid() { Bounds(); }
      if nb <= dvsize {
        p, s := MallocDv(nb);
      } else if nb < topsize {
        s := nb;
        p := MallocTop(nb);
      } else {
        s := nb;
        p := SysAlloc(nb, core);
      }
    }

    /** `dlmalloc`: a block of at least `bytes` bytes, or 0 with the heap unchanged. */
    method Malloc(bytes: int, core: Core) returns (r: int, ghost s: int)
      requires Inv() && CoreOk(core) && 0 <= bytes < WORD
      modifies this
      ensures Inv() && (old(Valid()) ==> Valid()) && Grew(old(lo), old(hi), lo, hi, core)
      ensures r != 0 ==> Valid() && r % 8 == 0 && bytes + CHUNK_OVERHEAD <= s
      ensures r != 0 ==> RequestSize(bytes) <= s < RequestSize(bytes) + 16
      ensures r != 0 ==> Handed(old(mem), mem, old(h), h, r - 8, s)
      ensures r == 0 ==> h == old(h) && PayloadKept(old(mem), mem, Live(h))
      ensures Happens(if r == 0 then Refuse else Alloc(r - 8, s), old(Seen()), Seen())
      ensures bytes >= MAX_REQUEST ==> r == 0
      ensures bytes < MAX_REQUEST ==>
                var nb := RequestSize(bytes);
                r == 0 <==> OriginOf(old(b), old(dvsize), old(topsize), nb) == FromSystem && !old(Grants(nb, core))
      ensures bytes < MAX_REQUEST ==>
                var nb := RequestSize(bytes);
                ComesFrom(OriginOf(old(b), old(dvsize), old(topsize), nb), old(b), old(dv), old(top), nb, r)
      ensures bytes < MAX_REQUEST ==>
                var nb := RequestSize(bytes);
                VictimAfter(OriginOf(old(b), old(dvsize), old(topsize), nb), old(b), old(dv), old(dvsize), nb, r, dv, dvsize)
    {
      hide Sound; hide PayloadKept; hide Live; hide Handed; hide Mapped; hide RootsNull; hide BestOf; hide PadRequest;
      hide OriginOf; hide Preferred; hide ComesFrom; hide VictimAfter; hide VictimLeft; hide Confined; hide Grants;
      hide CoreOk; hide Grew; hide Happens;
      GrewNot(lo, hi, core);
      KeptAll(mem, Live(h));
      RequestPadded(bytes);
      var p, nb := 0, 0;
      s := 0;
      if bytes <= MAX_SMALL_REQUEST {
        nb := if bytes < MIN_REQUEST then MIN_CHUNK_SIZE else PadRequest(bytes);
        p, s := MallocSmall(nb);
      } else if bytes >= MAX_REQUEST {
        nb := WORD - 1;
      } else {
        nb := PadRequest(bytes);
        p, s := MallocLarge(nb);
      }
      if p == 0 {
        BelowWord();
        p, s := FromSpare(nb, core);
        if p != 0 { BlockAligned(old(mem), old(h), p, s); }
        if bytes < MAX_REQUEST { IsFromSpare(old(b), old(dv), old(dvsize), old(top), old(topsize), nb, p, dv, dvsize); }
      } else {
        BlockAligned(old(mem), old(h), p, s);
        IsFromBin(old(b), old(dv), old(dvsize), old(top), old(topsize), nb, p, dv, dvsize);
      }
      if p == 0 {
        Refuses(old(mem), mem, h);
        r := 0;
      } else {
        Allocates(old(mem), mem, old(h), h, p, s);
        r := p + 8;
      }
    }

    lemma Bounds()
      requires Valid()
      ensures 0 <= dvsize < WORD - 40 && 0 < topsize < WORD - 40 && top > 0
    {
      hide Sound;
      TopFacts(mem, gm, lo, hi, top, topsize, h, b, ix, smallmap, treemap, {dv});
      EndBound(mem, gm, lo, hi, top, topsize, h, b, ix, smallmap, treemap, {dv});
      if dv != 0 { HeapChunk(mem, gm, lo, hi, top, topsize, h, b, ix, smallmap, treemap, {dv}, dv); }
    }

    lemma BelowWord()
      requires Inv()
      ensures forall q :: q in b ==> b[q] < WORD
    {
      hide Indexed; hide HeapTags; hide Mapped; hide LargeSteps.Heads;
      if Valid() { BinSizes(mem, gm, lo, hi, b, ix, smallmap, treemap); }
    }

    lemma BlockAligned(m0: Mem, h0: Chunks, p: int, s: int)
      requires Valid() && Handed(m0, mem, h0, h, p, s)
      ensures p % 8 == 0 && p > 0
    {
      hide Sound;
      HeapChunk(mem, gm, lo, hi, top, topsize, h, b, ix, smallmap, treemap, {dv}, p);
    }

    // ---- Taking blocks back ----

    /** `set_free_with_pinuse(p, s, next)` on a block `p0` and the free chunk below it, if any. */
    method SetFreeWithPinuse(a: int, s: int, next: int, ghost p0: int, ghost out: set<int>, ghost out': set<int>)
      requires Ready(out) && FreeSteps.Around(h, top, a, p0, next) && next == a + s && next == p0 + h[p0].size
      requires next in h && h[next].inuse
      requires (a == p0 ==> Pinuse(Rd(mem, p0 + 4))) && OutAfter(h, a, p0, next, out, out')
      modifies this`mem, this`h
      ensures Ready(out') && Returned(old(mem), mem, old(h), h, p0) && a in h && h[a] == Chunk(s, false)
      ensures Beyond(old(h), h, a, next)
    {
      hide Sound; hide Returned; hide FreeTagged; hide Beyond; hide OutAfter; hide Pinuse;
      Region2(mem, gm, lo, hi, top, topsize, h, b, ix, smallmap, treemap, out, a, p0, next);
      FreeWithPinuseTags(mem, a, next);
      ChunkInside(mem, gm, lo, hi, top, topsize, h, b, ix, smallmap, treemap, out, a);
      ChunkInside(mem, gm, lo, hi, top, topsize, h, b, ix, smallmap, treemap, out, next);
      ghost var h' := FreeStep(mem, FreeWithPinuse(mem, a, s, next), gm, lo, hi, top, topsize, h, b, ix, smallmap,
                               treemap, out, a, p0, next, out');
      mem := mem[next + 4 := WithoutPinuse(mem[next + 4])][a + 4 := FreeHead(s)][a + s := s];
      WritesInside(mem0, old(mem), mem, gm, lo, peak, {next + 4, a + 4, a + s});
      h := h';
    }

    /** `set_size_and_pinuse_of_free_chunk(p, s)` on a block `p0` and its free neighbours, the upper one among them. */
    method SetFree(a: int, s: int, ghost p0: int, ghost out: set<int>, ghost out': set<int>)
      requires Ready(out) && FreeSteps.Around(h, top, a, p0, a + s) && a + s != p0 + h[p0].size
      requires (a == p0 ==> Pinuse(Rd(mem, p0 + 4))) && OutAfter(h, a, p0, a + s, out, out')
      modifies this`mem, this`h
      ensures Ready(out') && Returned(old(mem), mem, old(h), h, p0) && a in h && h[a] == Chunk(s, false)
      ensures Beyond(old(h), h, a, a + s)
    {
      hide Sound; hide Returned; hide FreeTagged; hide Beyond; hide OutAfter; hide Pinuse;
      Region2(mem, gm, lo, hi, top, topsize, h, b, ix, smallmap, treemap, out, a, p0, a + s);
      ChunkInside(mem, gm, lo, hi, top, topsize, h, b, ix, smallmap, treemap, out, a);
      ChunkInside(mem, gm, lo, hi, top, topsize, h, b, ix, smallmap, treemap, out, a + s);
      FreeSizedTags(mem, lo, hi, top, topsize, h, a, p0 + h[p0].size, a + s);
      ghost var h' := FreeStep(mem, FreeSized(mem, a, s), gm, lo, hi, top, topsize, h, b, ix, smallmap, treemap, out, a,
                               p0, a + s, out');
      mem := mem[a + 4 := FreeHead(s)][a + s := s];
      WritesInside(mem0, old(mem), mem, gm, lo, peak, {a + 4, a + s});
      h := h';
    }

    /** The block `p0`, with the free chunk below it if any, joins the top. */
    method JoinTopAt(a: int, psize: int, ghost p0: int, ghost out: set<int>, ghost out': set<int>)
      requires Ready(out) && FreeSteps.Around(h, top, a, p0, top) && a + psize == top
      requires (a == p0 ==> Pinuse(Rd(mem, p0 + 4)))
      requires (forall q :: q in h && a <= q < top && !h[q].inuse ==> q in out)
      requires (forall q :: q in h && q < a ==> (q in out <==> q in out'))
      modifies this`mem, this`h, this`top, this`topsize
      ensures Ready(out') && Returned(old(mem), mem, old(h), h, p0)
      ensures (forall q :: q in old(h) && q < a ==> q in h && h[q] == old(h)[q])
      ensures top == a && top + topsize == old(top + topsize)
    {
      hide Sound; hide Returned; hide Pinuse;
      ChunkInside(mem, gm, lo, hi, top, topsize, h, b, ix, smallmap, treemap, out, a);
      ghost var h' := JoinTop(mem, mem[a + 4 := FreeHead(topsize + psize)], gm, lo, hi, top, topsize, h, b, ix,
                              smallmap, treemap, out, a, p0, out');
      var tsize := topsize + psize;
      topsize := tsize;
      top := a;
      mem := mem[a + 4 := FreeHead(tsize)];
      WritesInside(mem0, old(mem), mem, gm, lo, peak, {a + 4});
      h := h';
    }

    /** Consolidate backward: `a` is where the free space will start; `done` if the designated victim grew to take it
        all. */
    method Backward(p: int, s: int) returns (a: int, psize: int, done: bool)
      requires Valid() && p in h && h[p] == Chunk(s, true)
      modifies this`mem, this`smallmap, this`treemap, this`b, this`ix, this`h, this`dvsize
      ensures done ==> Valid() && Returned(old(mem), mem, old(h), h, p)
      ensures !done ==> h == old(h) && Ready(Held(dv, a, p)) && DvOk() && PayloadKept(old(mem), mem, Live(h))
      ensures !done ==> dv == old(dv)
      ensures !done ==> FreeSteps.Around(h, top, a, p, p + s) && psize == p + s - a
      ensures !done ==> (a == p ==> Pinuse(Rd(mem, p + 4)))
      ensures !done && a == dv ==> p + s == top || (p + s in h && !h[p + s].inuse)
    {
      hide Sound; hide Returned; hide PayloadKept; hide Live; hide Pinuse; hide Cinuse; hide SizeOf; hide Confined;
      var next := p + s;
      a, psize, done := p, s, false;
      KeptAll(mem, Live(h));
      BlockReads(mem, gm, lo, hi, top, topsize, h, b, ix, smallmap, treemap, {dv}, p);
      if !Pinuse(mem[p + 4]) {
        var prevsize := mem[p];
        psize := psize + prevsize;
        a := p - prevsize;
        if a != dv {
          FreeIsBinned(mem, gm, lo, hi, top, topsize, h, b, ix, smallmap, treemap, {dv}, a);
          UnlinkChunk(a, prevsize, {dv});
        } else if Cinuse(mem[next + 4]) && Pinuse(mem[next + 4]) {
          NotBlock(mem, gm, lo, hi, top, topsize, h, b, ix, smallmap, treemap, {dv}, a, p, next, dv);
          dvsize := psize;
          SetFreeWithPinuse(a, psize, next, p, {dv}, {dv});
          HeapChunk(mem, gm, lo, hi, top, topsize, h, b, ix, smallmap, treemap, {dv}, a);
          done := true;
        }
      }
    }

    /** Consolidate forward and bin, from `a` on; `joined` if the space went to the top. */
    method Forward(a: int, size: int, next: int, ghost p: int) returns (joined: bool)
      requires Ready(Held(dv, a, p)) && DvOk() && FreeSteps.Around(h, top, a, p, next)
      requires next == p + h[p].size == a + size
      requires (a == p ==> Pinuse(Rd(mem, p + 4))) && (a == dv ==> next == top || (next in h && !h[next].inuse))
      modifies this`mem, this`smallmap, this`treemap, this`b, this`ix, this`h, this`dv, this`dvsize, this`top,
               this`topsize
      ensures Valid() && Returned(old(mem), mem, old(h), h, p) && top + topsize == old(top + topsize)
      ensures joined ==> top == a
    {
      hide Sound; hide Returned; hide PayloadKept; hide Live; hide Pinuse; hide Cinuse; hide SizeOf; hide Confined;
      ghost var m0, h0 := mem, h;
      KeptAll(mem, Live(h));
      ghost var out := Held(dv, a, p);
      BlockReads(mem, gm, lo, hi, top, topsize, h, b, ix, smallmap, treemap, out, p);
      NotBlock(mem, gm, lo, hi, top, topsize, h, b, ix, smallmap, treemap, out, a, p, next, dv);
      joined := false;
      var psize := size;
      if !Cinuse(mem[next + 4]) {
        if next == top {
          JoinTopAt(a, psize, p, out, if a == dv then {0} else {dv});
          if a == dv {
            dv := 0;
            dvsize := 0;
          }
          joined := true;
          return;
        } else if next == dv {
          var dsize := dvsize + psize;
          FreeEnd(mem, gm, lo, hi, top, topsize, h, b, ix, smallmap, treemap, out, next);
          dvsize := dsize;
          dv := a;
          NotBlock(mem, gm, lo, hi, top, topsize, h, b, ix, smallmap, treemap, out, a, p, a + dsize, next);
          SetFree(a, dsize, p, out, {a});
          HeapChunk(mem, gm, lo, hi, top, topsize, h, b, ix, smallmap, treemap, {a}, a);
          return;
        } else {
          var nsize := SizeOf(mem[next + 4]);
          psize := psize + nsize;
          FreeEnd(mem, gm, lo, hi, top, topsize, h, b, ix, smallmap, treemap, out, next);
          ForwardMerge(a, psize, next, nsize, p);
          if a == dv {
            return;
          }
        }
      } else {
        SetFreeWithPinuse(a, psize, next, p, out, {dv} + {a});
      }
      ghost var m1 := mem;
      InsertChunk(a, psize, {dv} + {a});
      assert {dv} + {a} - {a} == {dv};
      KeptAll(m0, Live(h0));
      ReturnedThen(m0, m0, m1, mem, h0, h, p);
    }

    /** Forward consolidation with a binned chunk `next`. */
    method ForwardMerge(a: int, psize: int, next: int, nsize: int, ghost p: int)
      requires Ready(Held(dv, a, p)) && DvOk() && FreeSteps.Around(h, top, a, p, next) && next == p + h[p].size
      requires (a == p ==> Pinuse(Rd(mem, p + 4)))
      requires next in h && h[next] == Chunk(nsize, false) && next != dv && psize == next + nsize - a && next != top
      requires a + psize != top
      modifies this`mem, this`smallmap, this`treemap, this`b, this`ix, this`h, this`dvsize
      ensures Ready({dv} + {a}) && DvOk() && Returned(old(mem), mem, old(h), h, p)
      ensures a in h && h[a] == Chunk(psize, false) && dv == old(dv) && a > 0
      ensures a == dv ==> Valid()
    {
      hide Sound; hide Returned; hide PayloadKept; hide Live; hide Pinuse; hide Cinuse; hide SizeOf; hide Confined;
      ghost var m0, h0, out := mem, h, Held(dv, a, p);
      HeapChunk(mem, gm, lo, hi, top, topsize, h, b, ix, smallmap, treemap, out, p);
      HeapChunk(mem, gm, lo, hi, top, topsize, h, b, ix, smallmap, treemap, out, next);
      NotBlock(mem, gm, lo, hi, top, topsize, h, b, ix, smallmap, treemap, out, a, p, a + psize, dv);
      FreeIsBinned(mem, gm, lo, hi, top, topsize, h, b, ix, smallmap, treemap, out, next);
      UnlinkChunk(next, nsize, out);
      SamePin(m0, mem, gm, lo, hi, top, topsize, h, old(b), old(ix), old(smallmap), old(treemap), out, b, ix, smallmap,
              treemap, out + {next}, p);
      ghost var m1 := mem;
      SetFree(a, psize, p, out + {next}, {dv} + {a});
      HeapChunk(mem, gm, lo, hi, top, topsize, h, b, ix, smallmap, treemap, {dv} + {a}, a);
      KeptAll(mem, Live(h));
      ReturnedThen(m0, m1, mem, mem, h0, h, p);
      if a == dv {
        dvsize := psize;
        assert {dv} + {a} == {dv};
      }
    }

    /** `dispose_chunk`: consolidate and bin a chunk. */
    method DisposeChunk(p: int, s: int)
      requires Valid() && p in h && h[p] == Chunk(s, true)
      modifies this`mem, this`smallmap, this`treemap, this`b, this`ix, this`h, this`dv, this`dvsize, this`top,
               this`topsize
      ensures Valid() && Returned(old(mem), mem, old(h), h, p) && top + topsize == old(top + topsize)
    {
      hide Sound; hide Returned; hide PayloadKept; hide Live; hide Pinuse; hide Confined;
      var a, psize, done := Backward(p, s);
      if !done {
        ghost var m1 := mem;
        var _ := Forward(a, psize, p + s, p);
        KeptAll(mem, Live(h));
        ReturnedThen(old(mem), m1, mem, mem, old(h), h, p);
      }
    }

    /** The bytes `sys_trim` asks to give back. */
    function Extra(pad: int): int
      requires 0 < granularity
      reads this
    {
      var x := ((topsize - pad + (granularity - 1)) / granularity - 1) * granularity;
      if x >= WORD / 2 - 1 then WORD / 2 - granularity else x
    }

    /** A whole number of units that leaves the pad and no more than a unit above it, if that is below half the address
        space. */
    lemma ExtraBound(pad: int)
      requires 0 < granularity && pad < topsize
      ensures pad < topsize - Extra(pad)
      ensures topsize - pad < WORD / 2 ==> topsize - Extra(pad) <= pad + granularity && Extra(pad) % granularity == 0
    {
      var x := topsize - pad + (granularity - 1);
      WholeUnits(x, granularity);
      Multiple(granularity, x / granularity - 1);
    }

    /** `sys_trim`: gives memory at the end back, keeping `pad` bytes of top; `released` is MORECORE's answer. */
    method SysTrim(pad: int, released: int)
      requires Valid() && 0 <= pad < WORD && 0 < granularity && 0 <= released && released % 8 == 0
      requires released != 0 ==> released <= Extra(pad + TOP_FOOT_SIZE)
      modifies this
      ensures Valid() && h == old(h) && PayloadKept(old(mem), mem, Live(h)) && lo == old(lo) && top == old(top)
      ensures old(topsize) - topsize == old(hi) - hi >= 0
      ensures topsize == old(topsize) || topsize > pad + TOP_FOOT_SIZE
      ensures trimCheck == if topsize != old(topsize) then trimThreshold
                           else if pad < MAX_REQUEST && topsize > old(trimCheck) then WORD - 1 else old(trimCheck)
    {
      hide Sound; hide PayloadKept; hide Live; hide Extra;
      KeptAll(mem, Live(h));
      if pad < MAX_REQUEST {
        if topsize > pad + TOP_FOOT_SIZE {
          ExtraBound(pad + TOP_FOOT_SIZE);
          if released != 0 {
            TopFacts(mem, gm, lo, hi, top, topsize, h, b, ix, smallmap, treemap, {dv});
            ShrinkTop(mem, gm, lo, hi, top, topsize, h, b, ix, smallmap, treemap, {dv}, topsize - released);
            ChunkInside(mem, gm, lo, hi, top, topsize, h, b, ix, smallmap, treemap, {dv}, top);
            AlignedTop(mem, gm, lo, hi, top, topsize, h, b, ix, smallmap, treemap, {dv}, 8);
            hi := hi - released;
            InitTop(top, topsize - released);
            WritesInside(mem0, old(mem), mem, gm, lo, peak, {top + 4, top + topsize + 4});
          }
          if released == 0 && topsize > trimCheck {
            trimCheck := WORD - 1;
          }
        } else if topsize > trimCheck {
          trimCheck := WORD - 1;
        }
      }
    }

    /** `dlfree`: a block goes back and is consolidated with its neighbours; `released` is MORECORE's answer if the
        top is trimmed. */
    method Free(r: int, released: int)
      requires Inv() && (r != 0 ==> Valid() && r - 8 in Live(h))
      requires 0 <= released && released % 8 == 0
      modifies this
      ensures Inv() && (old(Valid()) ==> Valid())
      ensures r == 0 ==> mem == old(mem) && h == old(h)
      ensures r != 0 ==> Returned(old(mem), mem, old(h), h, r - 8)
      ensures Happens(if r == 0 then Refuse else Release(r - 8), old(Seen()), Seen())
      ensures lo == old(lo) && hi <= old(hi)
    {
      hide Sound; hide Returned; hide PayloadKept; hide Pinuse; hide SizeOf; hide Cinuse; hide Extra;
      hide FreeSteps.Around; hide Confined; hide Happens;
      if r != 0 {
        var p := r - 8;
        BlockReads(mem, gm, lo, hi, top, topsize, h, b, ix, smallmap, treemap, {dv}, p);
        assert Cinuse(mem[p + 4]);
        var a, psize, done := Backward(p, SizeOf(mem[p + 4]));
        if !done {
          ghost var m1 := mem;
          var joined := Forward(a, psize, a + psize, p);
          ghost var m2 := mem;
          if joined && topsize > trimCheck {
            SysTrim(0, if released <= Extra(TOP_FOOT_SIZE) then released else 0);
          } else {
            KeptAll(mem, Live(h));
          }
          ReturnedThen(old(mem), m1, m2, mem, old(h), h, p);
        }
        Releases(old(mem), mem, old(h), h, p);
      } else {
        KeptAll(mem, Live(h));
        Refuses(mem, mem, h);
      }
    }

    // ---- Resizing blocks ----

    /** The space of a block, with the free chunk behind it if that belongs to it, lies in the segment. */
    lemma SpaceInside(p: int, e: int, out: set<int>)
      requires Ready(out) && Space(h, p, e)
      ensures lo <= p && e + 8 < peak
    {
      hide Sound; hide Confined;
      ChunkInside(mem, gm, lo, hi, top, topsize, h, b, ix, smallmap, treemap, out, p);
      if e != p + h[p].size { ChunkInside(mem, gm, lo, hi, top, topsize, h, b, ix, smallmap, treemap, out, p + h[p].size); }
    }

    /** `set_inuse` on the whole space of a block. */
    method GrowWhole(p: int, s: int, ghost out: set<int>, ghost out': set<int>)
      requires Ready(out) && 0 < s && Space(h, p, p + s) && OutOk(h, p, p + s, One(p, s, true), out, out')
      modifies this`mem, this`h
      ensures Ready(out') && Resized(old(mem), mem, old(h), h, p, s)
      ensures forall q :: q in old(h) && (q < p || p + s <= q) ==> q in h && h[q] == old(h)[q]
    {
      hide Sound; hide Resized; hide OutOk; hide Space; hide UsedAs; hide WithPinuse; hide Confined;
      SpaceInside(p, p + s, out);
      ghost var h' := WholeStep(mem, gm, lo, hi, top, topsize, h, b, ix, smallmap, treemap, out, p, p + s, out');
      mem := mem[p + 4 := UsedAs(mem[p + 4], s)];
      mem := mem[p + s + 4 := WithPinuse(mem[p + s + 4])];
      WritesInside(mem0, old(mem), mem, gm, lo, peak, {p + 4, p + s + 4});
      h := h';
    }

    /** Two `set_inuse`: the space of a block becomes two blocks; the second is given back with `dispose_chunk`. */
    method SplitBack(p: int, s: int, t: int, ghost out: set<int>)
      requires Ready(out) && DvOk() && Space(h, p, p + s + t) && 16 <= s && 16 <= t && s % 8 == 0 && t % 8 == 0
      requires OutOk(h, p, p + s + t, Two(p, s, true, p + s, t, true), out, {dv}) && (dv < p || p + s + t <= dv)
      modifies this`mem, this`smallmap, this`treemap, this`b, this`ix, this`h, this`dv, this`dvsize, this`top,
               this`topsize
      ensures Valid() && Resized(old(mem), mem, old(h), h, p, s)
    {
      hide Sound; hide Resized; hide OutOk; hide Space; hide UsedAs; hide WithPinuse; hide PayloadKept; hide Live;
      hide Returned; hide Confined;
      InsideSpace(mem, gm, lo, hi, top, topsize, h, b, ix, smallmap, treemap, out, p, p + s + t, p + s);
      SpaceInside(p, p + s + t, out);
      ghost var h' := SplitUsedStep(mem, gm, lo, hi, top, topsize, h, b, ix, smallmap, treemap, out, p, s, t, {dv});
      var r := p + s;
      mem := mem[p + 4 := UsedAs(mem[p + 4], s)];
      mem := mem[r + 4 := WithPinuse(mem[r + 4])];
      mem := mem[r + 4 := UsedAs(mem[r + 4], t)];
      mem := mem[r + t + 4 := WithPinuse(mem[r + t + 4])];
      WritesInside(mem0, old(mem), mem, gm, lo, peak, {p + 4, r + 4, r + t + 4});
      h := h';
      ghost var m1 := mem;
      DisposeChunk(r, t);
      ResizedBack(old(mem), m1, mem, old(h), h', h, p, s, t);
    }

    /** `try_realloc_chunk`: resize block `p` where it is; 0 if that is not possible, and then nothing changes. */
    method TryReallocChunk(p: int, nb: int) returns (newp: int, ghost s: int)
      requires Valid() && p in h && h[p].inuse && 16 <= nb < WORD && nb % 8 == 0
      modifies this`mem, this`smallmap, this`treemap, this`b, this`ix, this`h, this`dv, this`dvsize, this`top,
               this`topsize
      ensures Valid() && (newp == 0 || newp == p)
      ensures newp != 0 ==> nb <= s < nb + 16 && Resized(old(mem), mem, old(h), h, p, s)
      ensures newp == 0 ==> mem == old(mem) && h == old(h) && top == old(top) && topsize == old(topsize)
      ensures newp == 0 ==> b == old(b) && dv == old(dv) && dvsize == old(dvsize) && h[p].size < nb
      ensures newp != 0 <==> p + nb < old(top + topsize) && forall q :: q in old(Live(h)) ==> q <= p || p + nb <= q
    {
      hide Sound; hide Resized; hide Pinuse; hide Cinuse; hide SizeOf; hide PayloadKept; hide Live; hide OutOk;
      hide Confined;
      newp, s := 0, 0;
      BlockReads(mem, gm, lo, hi, top, topsize, h, b, ix, smallmap, treemap, {dv}, p);
      HeapChunk(mem, gm, lo, hi, top, topsize, h, b, ix, smallmap, treemap, {dv}, p);
      RoomBehind(mem, gm, lo, hi, top, topsize, h, b, ix, smallmap, treemap, {dv}, p, nb);
      var oldsize := SizeOf(mem[p + 4]);
      var next := p + oldsize;
      if oldsize >= nb {
        Shrink(p, oldsize, nb);
        s := if oldsize - nb >= MIN_CHUNK_SIZE then nb else oldsize;
        newp := p;
      } else if next == top {
        if oldsize + topsize > nb {
          s := nb;
          GrowIntoTop(p, oldsize, nb);
          newp := p;
        }
      } else if next == dv {
        if oldsize + dvsize >= nb {
          s := GrowIntoDv(p, oldsize, nb);
          newp := p;
        }
      } else if !Cinuse(mem[next + 4]) {
        var nextsize := SizeOf(mem[next + 4]);
        if oldsize + nextsize >= nb {
          s := GrowIntoNext(p, oldsize, nextsize, nb);
          newp := p;
        }
      }
    }

    /** Already big enough: split off a remainder that is worth a chunk. */
    method Shrink(p: int, oldsize: int, nb: int)
      requires Valid() && p in h && h[p] == Chunk(oldsize, true) && 16 <= nb <= oldsize && nb % 8 == 0 && p > 0
      requires oldsize % 8 == 0
      modifies this`mem, this`smallmap, this`treemap, this`b, this`ix, this`h, this`dv, this`dvsize, this`top,
               this`topsize
      ensures Valid()
      ensures Resized(old(mem), mem, old(h), h, p, if oldsize - nb >= MIN_CHUNK_SIZE then nb else oldsize)
    {
      hide Sound; hide PayloadKept; hide Confined;
      var rsize := oldsize - nb;
      if rsize >= MIN_CHUNK_SIZE {
        SpaceOutOk(mem, gm, lo, hi, top, topsize, h, b, ix, smallmap, treemap, {dv}, p, p + oldsize,
                   Two(p, nb, true, p + nb, rsize, true), {dv});
        OutOfBlock(mem, gm, lo, hi, top, topsize, h, b, ix, smallmap, treemap, {dv}, p, p + oldsize, dv);
        SplitBack(p, nb, rsize, {dv});
      } else {
        KeptAll(mem, Live(h)[p := oldsize]);
        assert Live(h)[p := oldsize] == Live(h);
      }
    }

    /** Extend into top. */
    method GrowIntoTop(p: int, oldsize: int, nb: int)
      requires Valid() && p in h && h[p] == Chunk(oldsize, true) && p + oldsize == top
      requires oldsize < nb < oldsize + topsize && nb % 8 == 0
      modifies this`mem, this`h, this`top, this`topsize
      ensures Valid() && Resized(old(mem), mem, old(h), h, p, nb)
    {
      hide Sound; hide Resized; hide UsedAs; hide WithPinuse; hide PayloadKept; hide Confined;
      HeapChunk(mem, gm, lo, hi, top, topsize, h, b, ix, smallmap, treemap, {dv}, p);
      ChunkInside(mem, gm, lo, hi, top, topsize, h, b, ix, smallmap, treemap, {dv}, p);
      ghost var h' := GrowTopStep(mem, gm, lo, hi, top, topsize, h, b, ix, smallmap, treemap, {dv}, p, nb);
      OutOfBlock(mem, gm, lo, hi, top, topsize, h, b, ix, smallmap, treemap, {dv}, p, top, dv);
      var newtopsize := oldsize + topsize - nb;
      var newtop := p + nb;
      mem := mem[p + 4 := UsedAs(mem[p + 4], nb)];
      mem := mem[newtop + 4 := WithPinuse(mem[newtop + 4])];
      mem := mem[newtop + 4 := FreeHead(newtopsize)];
      WritesInside(mem0, old(mem), mem, gm, lo, peak, {p + 4, newtop + 4});
      top := newtop;
      topsize := newtopsize;
      h := h';
    }

    /** Extend into the designated victim, leaving a remainder or using it up. */
    method GrowIntoDv(p: int, oldsize: int, nb: int) returns (ghost s: int)
      requires Valid() && p in h && h[p] == Chunk(oldsize, true) && p + oldsize == dv
      requires oldsize < nb <= oldsize + dvsize && nb % 8 == 0 && p > 0
      modifies this`mem, this`h, this`dv, this`dvsize
      ensures Valid() && nb <= s < nb + 16 && Resized(old(mem), mem, old(h), h, p, s)
    {
      hide Sound; hide Resized; hide PayloadKept; hide OutOk; hide Confined;
      var dvs := dvsize;
      var dsize := oldsize + dvs - nb;
      HeapChunk(mem, gm, lo, hi, top, topsize, h, b, ix, smallmap, treemap, {dv}, p);
      if dsize >= MIN_CHUNK_SIZE {
        s := nb;
        SplitVictim(p, oldsize, nb, dsize);
      } else {
        var newsize := oldsize + dvs;
        s := newsize;
        NoChunkAtNull(mem, gm, lo, hi, top, topsize, h, b, ix, smallmap, treemap, {dv});
        SpaceOutOk(mem, gm, lo, hi, top, topsize, h, b, ix, smallmap, treemap, {dv}, p, p + newsize,
                   One(p, newsize, true), {0});
        GrowWhole(p, newsize, {dv}, {0});
        dvsize := 0;
        dv := 0;
      }
    }

    /** `set_inuse`, `set_size_and_pinuse_of_free_chunk` and `clear_pinuse`. */
    method TagVictim(p: int, nb: int, dsize: int)
      requires p + 4 in mem && p + nb + 4 in mem && p + nb + dsize + 4 in mem && nb != 0 && dsize != 0
      modifies this`mem
      ensures mem == GrowDv(old(mem), p, nb, dsize)
    {
      hide UsedAs; hide WithPinuse; hide WithoutPinuse;
      var r := p + nb;
      var n := r + dsize;
      mem := mem[p + 4 := UsedAs(mem[p + 4], nb)];
      mem := mem[r + 4 := WithPinuse(mem[r + 4])];
      mem := mem[r + 4 := FreeHead(dsize)];
      mem := mem[r + dsize := dsize];
      mem := mem[n + 4 := WithoutPinuse(mem[n + 4])];
    }

    /** The remainder of the designated victim is the new one. */
    method SplitVictim(p: int, oldsize: int, nb: int, dsize: int)
      requires Valid() && p in h && h[p] == Chunk(oldsize, true) && p + oldsize == dv
      requires oldsize < nb <= oldsize + dvsize && nb % 8 == 0 && p > 0
      requires dsize == oldsize + dvsize - nb && dsize >= MIN_CHUNK_SIZE
      modifies this`mem, this`h, this`dv, this`dvsize
      ensures Valid() && Resized(old(mem), mem, old(h), h, p, nb)
    {
      hide Sound; hide Resized; hide GrowDv; hide Only; hide PayloadKept; hide OutOk; hide Confined;
      HeapChunk(mem, gm, lo, hi, top, topsize, h, b, ix, smallmap, treemap, {dv}, p);
      HeapChunk(mem, gm, lo, hi, top, topsize, h, b, ix, smallmap, treemap, {dv}, dv);
      FreeEnd(mem, gm, lo, hi, top, topsize, h, b, ix, smallmap, treemap, {dv}, dv);
      var r := p + nb;
      var n := r + dsize;
      SpaceInside(p, n, {dv});
      SpaceOutOk(mem, gm, lo, hi, top, topsize, h, b, ix, smallmap, treemap, {dv}, p, n,
                 Two(p, nb, true, r, dsize, false), {r});
      ghost var h' := GrowDvStep(mem, gm, lo, hi, top, topsize, h, b, ix, smallmap, treemap, {dv}, p, nb, dsize, {r});
      TagVictim(p, nb, dsize);
      VictimWrites(old(mem), p, nb, dsize);
      WritesInside(mem0, old(mem), mem, gm, lo, peak, {p + 4, p + nb + 4, p + nb + dsize, p + nb + dsize + 4});
      dvsize := dsize;
      dv := r;
      h := h';
    }

    /** Extend into the next free chunk, giving a remainder back. */
    method GrowIntoNext(p: int, oldsize: int, nextsize: int, nb: int) returns (ghost s: int)
      requires Valid() && p in h && h[p] == Chunk(oldsize, true) && p + oldsize != dv
      requires oldsize < nb <= oldsize + nextsize && nb % 8 == 0 && p > 0
      requires p + oldsize in h && h[p + oldsize] == Chunk(nextsize, false) && 16 <= nb
      modifies this`mem, this`smallmap, this`treemap, this`b, this`ix, this`h, this`dv, this`dvsize, this`top,
               this`topsize
      ensures Valid() && nb <= s < nb + 16 && Resized(old(mem), mem, old(h), h, p, s)
    {
      hide Sound; hide Resized; hide PayloadKept; hide OutOk; hide Confined;
      var next := p + oldsize;
      var rsize := oldsize + nextsize - nb;
      HeapChunk(mem, gm, lo, hi, top, topsize, h, b, ix, smallmap, treemap, {dv}, p);
      HeapChunk(mem, gm, lo, hi, top, topsize, h, b, ix, smallmap, treemap, {dv}, next);
      FreeIsBinned(mem, gm, lo, hi, top, topsize, h, b, ix, smallmap, treemap, {dv}, next);
      UnlinkChunk(next, nextsize, {dv});
      ghost var m1 := mem;
      ghost var out := {dv} + {next};
      OutOfBlock(mem, gm, lo, hi, top, topsize, h, b, ix, smallmap, treemap, out, p, p + oldsize + nextsize, dv);
      if rsize < MIN_CHUNK_SIZE {
        var newsize := oldsize + nextsize;
        s := newsize;
        SpaceOutOk(mem, gm, lo, hi, top, topsize, h, b, ix, smallmap, treemap, out, p, p + newsize,
                   One(p, newsize, true), {dv});
        GrowWhole(p, newsize, out, {dv});
      } else {
        s := nb;
        SpaceOutOk(mem, gm, lo, hi, top, topsize, h, b, ix, smallmap, treemap, out, p, p + nb + rsize,
                   Two(p, nb, true, p + nb, rsize, true), {dv});
        SplitBack(p, nb, rsize, out);
      }
      ResizedAfter(old(mem), m1, mem, old(h), h, p, s);
    }

    // ---- Moving a block ----

    /** A store by the program into one of its blocks. */
    method Store(r: int, k: int, v: int)
      requires Valid() && r - 8 in Live(h) && 0 <= k < Live(h)[r - 8] - CHUNK_OVERHEAD
      modifies this`mem
      ensures Valid() && PayloadKept(old(mem), mem, Live(h) - {r - 8}) && mem == old(mem)[r + k := v]
      ensures Happens(Write(r - 8), old(Seen()), Seen())
    {
      hide Sound; hide PayloadKept;
      StoreKeeps(mem, mem[r + k := v], gm, lo, hi, top, topsize, h, b, ix, smallmap, treemap, {dv}, r - 8);
      ChunkInside(mem, gm, lo, hi, top, topsize, h, b, ix, smallmap, treemap, {dv}, r - 8);
      mem := mem[r + k := v];
      WritesInside(mem0, old(mem), mem, gm, lo, peak, {r + k});
    }

    /** `memcpy` of whole words from one block to another. */
    method CopyBlock(r: int, r0: int, n: int)
      requires Valid() && r - 8 in Live(h) && r0 - 8 in Live(h) && r != r0 && 0 <= n && n % 4 == 0
      requires n <= Live(h)[r - 8] - CHUNK_OVERHEAD && n <= Live(h)[r0 - 8] - CHUNK_OVERHEAD
      modifies this`mem
      ensures Valid() && PayloadKept(old(mem), mem, Live(h) - {r - 8}) && Copied(old(mem), mem, r0, r, n)
    {
      hide Sound; hide PayloadKept; hide Copied; hide Confined;
      KeptAll(mem, Live(h) - {r - 8});
      assert Copied(mem, mem, r0, r, 0) by { CopyNone(mem, r0, r); }
      HeapChunk(mem, gm, lo, hi, top, topsize, h, b, ix, smallmap, treemap, {dv}, r0 - 8);
      Word8(r0 - 8);
      BlocksApart(mem, gm, lo, hi, top, topsize, h, b, ix, smallmap, treemap, {dv}, r - 8, r0 - 8);
      var i := 0;
      while i < n
        invariant 0 <= i <= n && i % 4 == 0
        invariant Valid() && PayloadKept(old(mem), mem, Live(h) - {r - 8}) && Copied(old(mem), mem, r0, r, i)
        invariant OnlyRange(old(mem), mem, r, n)
      {
        CopyOne(r, r0, i, n, old(mem));
        i := i + 4;
      }
    }

    /** One word of a copy. */
    method CopyOne(r: int, r0: int, i: int, n: int, ghost m0: Mem)
      requires Valid() && r - 8 in Live(h) && r0 - 8 in Live(h) && 0 <= i < n && i % 4 == 0 && r0 % 4 == 0
      requires n <= Live(h)[r - 8] - CHUNK_OVERHEAD && n <= Live(h)[r0 - 8] - CHUNK_OVERHEAD
      requires (r0 + n <= r || r + n <= r0)
      requires PayloadKept(m0, mem, Live(h) - {r - 8}) && Copied(m0, mem, r0, r, i) && OnlyRange(m0, mem, r, n)
      modifies this`mem
      ensures Valid() && PayloadKept(m0, mem, Live(h) - {r - 8}) && Copied(m0, mem, r0, r, i + 4)
      ensures OnlyRange(m0, mem, r, n)
    {
      hide Sound; hide PayloadKept; hide Copied; hide Confined;
      BlockMapped(mem, gm, lo, hi, top, topsize, h, b, ix, smallmap, treemap, {dv}, r0 - 8, r0 + i);
      ghost var m1 := mem;
      assert Rd(mem, r0 + i) == Rd(m0, r0 + i);
      Store(r, i, mem[r0 + i]);
      CopyWord(m0, m1, mem, r0, r, i, n);
      PayloadTwice(m0, m1, mem, Live(h) - {r - 8});
    }

    /** `dlrealloc`: at most `s` bytes of the old content survive, in place or moved; 0 leaves the block as it is. */
    method Realloc(r: int, bytes: int, core: Core, released: int) returns (r': int, ghost s: int)
      requires Inv() && CoreOk(core) && 0 <= bytes < WORD && 0 <= released && released % 8 == 0
      requires r != 0 ==> Valid() && r - 8 in Live(h)
      modifies this
      ensures Inv() && (old(Valid()) ==> Valid()) && (old(Valid()) ==> lo == old(lo))
      ensures hi <= if core.Core? then Larger(old(hi), core.base + core.size) else old(hi)
      ensures Happens(if r' == 0 then Refuse else if r == 0 then Alloc(r' - 8, s) else if r' == r then Resize(r - 8, s) else Move(r - 8, r' - 8, s),
                      old(Seen()), Seen())
      ensures r' != 0 ==> Valid() && bytes + CHUNK_OVERHEAD <= s < RequestSize(bytes) + 16
      ensures r == 0 && r' != 0 ==> Handed(old(mem), mem, old(h), h, r' - 8, s)
      ensures r' == 0 ==> h == old(h) && PayloadKept(old(mem), mem, Live(h))
      ensures r != 0 && r' == r ==> Resized(old(mem), mem, old(h), h, r - 8, s)
      ensures r != 0 && r' != 0 && r' != r ==> Moved(old(mem), mem, old(h), h, r, r', s)
      ensures bytes >= MAX_REQUEST ==> r' == 0
      ensures r != 0 && bytes < MAX_REQUEST ==>
                var e := r - 8 + RequestSize(bytes);
                r' == r <==> e < old(top + topsize) && forall q :: q in old(Live(h)) ==> q <= r - 8 || e <= q
      ensures bytes < MAX_REQUEST ==>
                (r' == 0 <==> (r == 0 || r' != r)
                              && OriginOf(old(b), old(dvsize), old(topsize), RequestSize(bytes)) == FromSystem
                              && !old(Grants(RequestSize(bytes), core)))
    {
      hide Sound; hide OriginOf; hide BestOf; hide PayloadKept; hide Handed; hide Resized; hide Copied; hide PadRequest;
      hide Pinuse; hide Cinuse; hide SizeOf; hide Mapped; hide RootsNull; hide Confined; hide Happens;
      r', s := 0, 0;
      KeptAll(mem, Live(h));
      Refuses(mem, mem, h);
      if Valid() { LoPositive(mem, gm, lo, hi, top, topsize, h, b, ix, smallmap, treemap, {dv}); }
      if r == 0 {
        r', s := Malloc(bytes, core);
      } else if bytes < MAX_REQUEST {
        RequestPadded(bytes);
        var nb := RequestSize(bytes);
        var p := r - 8;
        BlockReads(mem, gm, lo, hi, top, topsize, h, b, ix, smallmap, treemap, {dv}, p);
        var newp;
        newp, s := TryReallocChunk(p, nb);
        if newp != 0 {
          Resizes(old(mem), mem, old(h), h, p, s);
          r' := newp + 8;
        } else {
          r', s := MoveBlock(r, bytes, core, released);
          if r' != 0 { Moves(old(mem), mem, old(h), h, r, r', s); } else { Refuses(old(mem), mem, h); }
        }
      }
    }

    /** `dlrealloc`: allocate, copy, free. */
    method MoveBlock(r: int, bytes: int, core: Core, released: int) returns (r': int, ghost s: int)
      requires Valid() && CoreOk(core) && 0 <= bytes < MAX_REQUEST && 0 <= released && released % 8 == 0
      requires 0 < granularity
      requires r - 8 in Live(h) && r != 0 && Live(h)[r - 8] < RequestSize(bytes)
      modifies this
      ensures Valid() && r' != r && lo == old(lo)
      ensures hi <= if core.Core? then Larger(old(hi), core.base + core.size) else old(hi)
      ensures r' == 0 ==> h == old(h) && PayloadKept(old(mem), mem, Live(h))
      ensures r' != 0 ==> bytes + CHUNK_OVERHEAD <= s < RequestSize(bytes) + 16
      ensures r' != 0 ==> Moved(old(mem), mem, old(h), h, r, r', s)
      ensures r' == 0 <==> OriginOf(old(b), old(dvsize), old(topsize), RequestSize(bytes)) == FromSystem && !old(Grants(RequestSize(bytes), core))
    {
      hide Sound; hide PayloadKept; hide Copied; hide PadRequest; hide Pinuse; hide Cinuse; hide SizeOf; hide CoreOk;
      hide Returned; hide Confined;
      ghost var h0 := h;
      LoPositive(mem, gm, lo, hi, top, topsize, h, b, ix, smallmap, treemap, {dv});
      HeapChunk(mem, gm, lo, hi, top, topsize, h, b, ix, smallmap, treemap, {dv}, r - 8);
      r', s := Malloc(bytes, core);
      if r' != 0 {
        ghost var m1, h1 := mem, h;
        assert r - 8 in Live(h) && Live(h)[r - 8] == Live(h0)[r - 8];
        BlockReads(mem, gm, lo, hi, top, topsize, h, b, ix, smallmap, treemap, {dv}, r - 8);
        var oc := SizeOf(mem[r - 4]) - CHUNK_OVERHEAD;
        RequestPadded(bytes);
        WholeWords(oc, bytes);
        CopyBlock(r', r, if oc < bytes then oc else bytes);
        ghost var m2 := mem;
        Free(r, released);
        MovedThen(old(mem), m1, m2, mem, h0, h1, h, r, r', s);
      }
    }

    // ---- Aligned blocks ----

    /** `internal_memalign`: the alignment it works with, the least power of two from 16 on that is not below the one
        asked for. */
    static method Alignment(alignment: int) returns (a: int, ghost k: nat)
      requires 0 <= alignment <= 0x8000_0000
      ensures MIN_CHUNK_SIZE <= a <= 0x8000_0000 && alignment <= a && a == Pow2(k) && a % 16 == 0
      ensures a == MIN_CHUNK_SIZE || a < 2 * alignment
    {
      a := if alignment < MIN_CHUNK_SIZE then MIN_CHUNK_SIZE else alignment;
      k := BM.PowerTest(a);
      if BM.And(a, a - 1) != 0 {
        var x := 2 * 8;
        k := 4;
        Pow2At31();
        while x < a
          invariant x == Pow2(k) && x <= 0x8000_0000 && 4 <= k <= 31 && (x == 16 || x < 2 * a)
          decreases 32 - k
        {
          Pow2Monotone(k, 31);
          if k == 31 { assert false; }
          x := 2 * x;
          k := k + 1;
          Pow2Monotone(k, 31);
        }
        a := x;
      }
      SixteenFold(a, k);
    }

    /** Give back the front of a block with `dispose_chunk`, use the rest. */
    method SplitFront(p: int, s: int, t: int, ghost m0: Mem, ghost h0: Chunks)
      requires Valid() && p in h && h[p] == Chunk(s + t, true) && 16 <= s && 16 <= t && s % 8 == 0 && t % 8 == 0
      requires p > 0
      requires Given(m0, mem, h0, h, p, s + t)
      modifies this`mem, this`smallmap, this`treemap, this`b, this`ix, this`h, this`dv, this`dvsize, this`top,
               this`topsize
      ensures Valid() && Given(m0, mem, h0, h, p + s, t)
    {
      hide Sound; hide OutOk; hide Space; hide UsedAs; hide WithPinuse; hide PayloadKept; hide Returned; hide Given;
      hide Live; hide SetInuse; hide Confined;
      ghost var m1, h1 := mem, h;
      assert Space(h, p, p + s + t) by { WholeSpace(h, p); }
      InsideSpace(mem, gm, lo, hi, top, topsize, h, b, ix, smallmap, treemap, {dv}, p, p + s + t, p + s);
      SpaceOutOk(mem, gm, lo, hi, top, topsize, h, b, ix, smallmap, treemap, {dv}, p, p + s + t,
                 Two(p, s, true, p + s, t, true), {dv});
      OutOfBlock(mem, gm, lo, hi, top, topsize, h, b, ix, smallmap, treemap, {dv}, p, p + s + t, dv);
      ghost var h' := SplitUsedStep(mem, gm, lo, hi, top, topsize, h, b, ix, smallmap, treemap, {dv}, p, s, t, {dv});
      var newp := p + s;
      SpaceInside(p, p + s + t, {dv});
      RearFirst(mem, p, s, t);
      mem := SetInuse(mem, newp, t);
      mem := SetInuse(mem, p, s);
      FrontWrites(m1, p, s, t);
      WritesInside(mem0, m1, mem, gm, lo, peak, {p + 4, p + s + 4, p + s + t + 4});
      h := h';
      ghost var m2 := mem;
      DisposeChunk(p, s);
      GivenRear(m0, m1, m2, mem, h0, h1, h', h, p, s, t);
    }

    /** `internal_memalign`: cut an aligned block of at least `nb` out of a fresh one. */
    method CutBlock(p0: int, ghost size0: int, nb: int, a: int, ghost m0: Mem, ghost h0: Chunks) returns (r: int,
                    ghost s: int)
      requires Valid() && p0 in Live(h) && Live(h)[p0] == size0 && Given(m0, mem, h0, h, p0, size0)
      requires 16 <= nb && nb % 8 == 0 && 16 <= a && a % 16 == 0 && size0 >= nb + a + MIN_CHUNK_SIZE
      modifies this`mem, this`smallmap, this`treemap, this`b, this`ix, this`h, this`dv, this`dvsize, this`top,
               this`topsize
      ensures Valid() && r != 0 && IsAligned(r, a) && nb <= s <= nb + MIN_CHUNK_SIZE && Given(m0, mem, h0, h, r - 8, s)
    {
      hide Sound; hide PayloadKept; hide Resized; hide Given; hide Pinuse; hide Cinuse; hide SizeOf; hide AlignUp;
      hide OutOk; hide IsAligned; hide Confined;
      var p := p0;
      s := size0;
      BlockReads(mem, gm, lo, hi, top, topsize, h, b, ix, smallmap, treemap, {dv}, p);
      HeapChunk(mem, gm, lo, hi, top, topsize, h, b, ix, smallmap, treemap, {dv}, p);
      if !IsAligned(p + 8, a) {
        LeadFits(p, size0, nb, a);
        var br := AlignUp(p + 8, a) - 8;
        var pos := if br - p >= MIN_CHUNK_SIZE then br else br + a;
        var leadsize := pos - p;
        var newsize := SizeOf(mem[p + 4]) - leadsize;
        s := newsize;
        SplitFront(p, leadsize, newsize, m0, h0);
        GivenLive(m0, mem, h0, h, pos, newsize);
        p := pos;
      }
      s := GiveTail(p, nb, s, m0, h0);
      r := p + 8;
    }

    /** Give back spare room at the end of a fresh block. */
    method GiveTail(p: int, nb: int, ghost s0: int, ghost m0: Mem, ghost h0: Chunks) returns (ghost s: int)
      requires Valid() && p in Live(h) && Live(h)[p] == s0 && Given(m0, mem, h0, h, p, s0) && 16 <= nb <= s0
      requires nb % 8 == 0
      modifies this`mem, this`smallmap, this`treemap, this`b, this`ix, this`h, this`dv, this`dvsize, this`top,
               this`topsize
      ensures Valid() && nb <= s <= nb + MIN_CHUNK_SIZE && Given(m0, mem, h0, h, p, s)
    {
      hide Sound; hide PayloadKept; hide Resized; hide Given; hide Pinuse; hide Cinuse; hide SizeOf; hide OutOk;
      hide Confined;
      s := s0;
      BlockReads(mem, gm, lo, hi, top, topsize, h, b, ix, smallmap, treemap, {dv}, p);
      HeapChunk(mem, gm, lo, hi, top, topsize, h, b, ix, smallmap, treemap, {dv}, p);
      var size := SizeOf(mem[p + 4]);
      if size > nb + MIN_CHUNK_SIZE {
        ghost var m1, h1 := mem, h;
        EightSum(size, nb);
        SpaceOutOk(mem, gm, lo, hi, top, topsize, h, b, ix, smallmap, treemap, {dv}, p, p + size,
                   Two(p, nb, true, p + nb, size - nb, true), {dv});
        OutOfBlock(mem, gm, lo, hi, top, topsize, h, b, ix, smallmap, treemap, {dv}, p, p + size, dv);
        SplitBack(p, nb, size - nb, {dv});
        GivenShort(m0, m1, mem, h0, h1, h, p, s, nb);
        s := nb;
      }
    }

    /** `internal_memalign` */
    method InternalMemalign(alignment: int, bytes: int, core: Core) returns (r: int, ghost s: int, ghost a: int)
      requires Inv() && CoreOk(core) && 0 <= alignment <= 0x8000_0000 && 0 <= bytes < WORD
      modifies this
      ensures Inv() && (old(Valid()) ==> Valid()) && Grew(old(lo), old(hi), lo, hi, core)
      ensures Happens(if r == 0 then Refuse else Alloc(r - 8, s), old(Seen()), Seen())
      ensures alignment <= a && 16 <= a && (exists k: nat :: a == Pow2(k)) && (a == 16 || a < 2 * alignment)
      ensures r != 0 ==> Valid() && IsAligned(r, a)
      ensures r != 0 ==> bytes + CHUNK_OVERHEAD <= s <= RequestSize(bytes) + MIN_CHUNK_SIZE
      ensures r != 0 ==> Given(old(mem), mem, old(h), h, r - 8, s)
      ensures r == 0 ==> h == old(h) && PayloadKept(old(mem), mem, Live(h))
      ensures bytes >= MAX_REQUEST - a ==> r == 0
      ensures bytes < MAX_REQUEST - a ==>
                var req := RequestSize(bytes) + a + MIN_CHUNK_SIZE - CHUNK_OVERHEAD;
                r == 0 <==> req >= MAX_REQUEST
                            || (OriginOf(old(b), old(dvsize), old(topsize), RequestSize(req)) == FromSystem && !old(Grants(RequestSize(req), core)))
    {
      hide Sound; hide OriginOf; hide BestOf; hide PayloadKept; hide Handed; hide Resized; hide Given; hide PadRequest;
      hide Pinuse; hide Cinuse; hide SizeOf; hide AlignUp; hide CoreOk; hide Live; hide Fresh; hide IsAligned;
      hide Grants; hide Grew; hide Happens;
      GrewNot(lo, hi, core); hide Confined;
      r, s := 0, 0;
      KeptAll(mem, Live(h));
      Refuses(mem, mem, h);
      var al;
      ghost var k;
      al, k := Alignment(alignment);
      a := al;
      assert a == Pow2(k);
      if bytes < MAX_REQUEST - al {
        RequestPadded(bytes);
        var nb := RequestSize(bytes);
        var req := nb + al + MIN_CHUNK_SIZE - CHUNK_OVERHEAD;
        RequestMore(bytes, al);
        r, s := Malloc(req, core);
        if r != 0 {
          HandedGiven(old(mem), mem, old(h), h, r - 8, s);
          r, s := CutBlock(r - 8, s, nb, al, old(mem), old(h));
          Allocates(old(mem), mem, old(h), h, r - 8, s);
        }
      }
    }
  }
}
