/** What the tree-bin macros read while they walk, and that the writes they end with keep the index. */
module LargeSteps {
  import opened Words
  import opened Rings
  import opened TreeIndex
  import opened SizeTrie
  import opened TreeLinks
  import opened Bins
  import opened LargeBins
  import BM = BinMaps

  /** Size words of binned chunks, as `chunksize` reads them. */
  ghost predicate Heads(m: Mem, b: Binned) {
    forall p :: p in b ==> SizeOf(Rd(m, p + 4)) == b[p]
  }

  /** Head words are not words the index writes. */
  lemma HeadsKept(m: Mem, m': Mem, gm: int, lo: int, hi: int, b: Binned, x: int)
    requires Separate(gm, lo, hi, b) && Touches(m, m', gm, b)
    requires forall p :: p in b ==> p == x || SizeOf(Rd(m, p + 4)) == b[p]
    requires x in b ==> SizeOf(Rd(m, x + 4)) == b[x]
    ensures Heads(m', b)
  {
    forall p | p in b ensures SizeOf(Rd(m', p + 4)) == b[p] {
      HeadOutside(gm, lo, hi, b, p);
    }
  }

  lemma HeadsLess(m: Mem, m': Mem, gm: int, lo: int, hi: int, b: Binned, ix: Index, smallmap: int, treemap: int, x: int)
    requires Indexed(m, gm, lo, hi, b, ix, smallmap, treemap) && Touches(m, m', gm, b) && Heads(m, b)
    ensures Heads(m, b - {x}) && Heads(m', b - {x}) && Touches(m, m, gm, b)
  {
    HeadsKept(m, m', gm, lo, hi, b, x);
  }

  lemma HeadOutside(gm: int, lo: int, hi: int, b: Binned, p: int)
    requires Separate(gm, lo, hi, b) && p in b
    ensures Outside(gm, b, p + 4)
  {
    assert Sized(p, b[p], lo, hi);
    forall q | q in b ensures p + 4 < q + 8 || q + b[q] <= p + 4 {
      if q != p { assert Away(b, p, q); }
    }
  }

  lemma FreshSame(m: Mem, gm: int, lo: int, hi: int, b: Binned, x: int, s: int, i: int)
    requires x !in b && !IsSmall(s) && Separate(gm, lo, hi, b[x := s])
    ensures SameInside(m, m[x + INDEX := i][x + LEFT := 0][x + RIGHT := 0], gm, b)
  {
    var b', m1 := b[x := s], m[x + INDEX := i][x + LEFT := 0][x + RIGHT := 0];
    assert Sized(x, b'[x], lo, hi);
    forall p, w {:trigger p in b, Rd(m1, w)} | p in b && p + 8 <= w < p + b[p] ensures Rd(m1, w) == Rd(m, w) {
      assert Away(b', x, p) && Sized(p, b'[p], lo, hi);
    }
  }

  /** Setting up the index and child words of a chunk outside the bins changes nothing for the bins. */
  lemma FreshWords(m: Mem, gm: int, lo: int, hi: int, b: Binned, ix: Index, smallmap: int, treemap: int, x: int, s: int,
                   i: int)
    requires Indexed(m, gm, lo, hi, b, ix, smallmap, treemap) && Mapped(m, gm, lo, hi)
    requires x !in b && !IsSmall(s) && Separate(gm, lo, hi, b[x := s])
    ensures Sized(x, s, lo, hi) && x + INDEX in m && x + LEFT in m && x + RIGHT in m && x + PARENT in m && x + FD in m
    ensures x + BK in m
    ensures var m1 := m[x + INDEX := i][x + LEFT := 0][x + RIGHT := 0];
            && Indexed(m1, gm, lo, hi, b, ix, smallmap, treemap) && Mapped(m1, gm, lo, hi)
            && Rd(m1, x + INDEX) == i && Rd(m1, x + LEFT) == 0 && Rd(m1, x + RIGHT) == 0
            && Touches(m, m1, gm, b[x := s])
  {
    var b', m1 := b[x := s], m[x + INDEX := i][x + LEFT := 0][x + RIGHT := 0];
    assert Sized(x, b'[x], lo, hi);
    MappedChunk(m, gm, lo, hi, x, s);
    FreshSame(m, gm, lo, hi, b, x, s, i);
    MappedMore(m, m1, gm, lo, hi);
    KeepIndex(m, m1, gm, lo, hi, b, ix, smallmap, treemap);
  }

  // ---- `insert_large_chunk` into an empty bin, or at an empty child ----

  lemma SizeAbsent(b: Binned, ix: Index, s: int)
    requires Seated(b, ix) && Listed(b, ix.lists) && !IsSmall(s)
    requires forall q :: q in ix.nodes ==> SizeIn(b, ix.nodes[q]) != s
    ensures s !in ix.lists
  {
    forall t | t in ix.lists && !IsSmall(t) ensures t != s {
      var x := ix.lists[t][0];
      assert x in ix.at && ix.at[x] in ix.nodes && SizeIn(b, ix.nodes[ix.at[x]]) == t;
    }
  }

  lemma PlantOk(gm: int, lo: int, hi: int, b: Binned, ix: Index, q: Pos, x: int, s: int)
    requires Separate(gm, lo, hi, b[x := s]) && x !in b && !IsSmall(s) && Seated(b, ix) && Shape(gm, ix.nodes, ix.roots)
    requires q !in ix.nodes && (if q.Kid? then q.up in ix.nodes else q.bin !in ix.roots && 0 <= q.bin < 32)
    ensures CanPlant(gm, ix.nodes, ix.roots, q, x)
  {
    var b' := b[x := s];
    assert Sized(x, b'[x], lo, hi);
    LargeClear(gm, lo, hi, b', x, x);
    assert forall r :: r in ix.nodes && r.Kid? ==> r.up != q;
    forall r {:trigger Clear(x, ix.nodes[r])} | r in ix.nodes ensures Clear(x, ix.nodes[r]) {
      LargeClear(gm, lo, hi, b', x, ix.nodes[r]);
    }
  }

  /** The writes that end the walk: into the slot of `q`, the parent word and a ring of one. */
  lemma PlantStep(m: Mem, gm: int, lo: int, hi: int, b: Binned, ix: Index, smallmap: int, treemap: int,
                  q: Pos, x: int, s: int, treemap': int)
    requires Indexed(m, gm, lo, hi, b, ix, smallmap, treemap) && Mapped(m, gm, lo, hi)
    requires x !in b && !IsSmall(s) && Separate(gm, lo, hi, b[x := s]) && SizeAt(s, q) && (q.Root? ==> IsRoot(q))
    requires q !in ix.nodes && (if q.Kid? then q.up in ix.nodes else q.bin !in ix.roots && 0 <= q.bin < 32)
    requires forall r :: r in ix.nodes ==> SizeIn(b, ix.nodes[r]) != s
    requires Rd(m, x + LEFT) == 0 && Rd(m, x + RIGHT) == 0 && Rd(m, x + INDEX) == Bin(q)
    requires 0 <= treemap' < WORD && BM.Shows(treemap', WithRoot(ix.roots, q).Keys)
    ensures var m1 := m[Slot(gm, ix.nodes, q) := x][x + PARENT := ParentOf(gm, ix.nodes, q)];
            var m' := m1[x + FD := x][x + BK := x];
            && Indexed(m', gm, lo, hi, b[x := s], PlantIndex(ix, q, x, s), smallmap, treemap') && Mapped(m', gm, lo, hi)
            && Touches(m, m', gm, b[x := s])
  {
    var b' := b[x := s];
    var m1 := m[Slot(gm, ix.nodes, q) := x][x + PARENT := ParentOf(gm, ix.nodes, q)];
    var m' := m1[x + FD := x][x + BK := x];
    SizeAbsent(b, ix, s);
    PlantOk(gm, lo, hi, b, ix, q, x, s);
    assert Planted(m, m1, gm, ix.nodes, q, x) by { PlantedBy(m, gm, b, ix, q, x); }
    PlantLarge(m, m1, m', gm, lo, hi, b, ix, smallmap, treemap, q, x, s, treemap');
    PlantTouches(m, gm, lo, hi, b, ix, q, x, s);
    MappedMore(m, m', gm, lo, hi);
  }

  lemma PlantedBy(m: Mem, gm: int, b: Binned, ix: Index, q: Pos, x: int)
    requires CanPlant(gm, ix.nodes, ix.roots, q, x) && Seated(b, ix)
    requires Rd(m, x + LEFT) == 0 && Rd(m, x + RIGHT) == 0 && Rd(m, x + INDEX) == Bin(q)
    ensures Planted(m, m[Slot(gm, ix.nodes, q) := x][x + PARENT := ParentOf(gm, ix.nodes, q)], gm, ix.nodes, q, x)
  {
    if q.Kid? { assert Clear(x, ix.nodes[q.up]); }
  }

  lemma PlantTouches(m: Mem, gm: int, lo: int, hi: int, b: Binned, ix: Index, q: Pos, x: int, s: int)
    requires Separate(gm, lo, hi, b[x := s]) && x !in b && !IsSmall(s) && Seated(b, ix)
    requires if q.Kid? then q.up in ix.nodes else 0 <= q.bin < 32
    ensures Touches(m, m[Slot(gm, ix.nodes, q) := x][x + PARENT := ParentOf(gm, ix.nodes,
                                                                            q)][x + FD := x][x + BK := x], gm, b[x := s])
  {
    var b' := b[x := s];
    assert Sized(x, b'[x], lo, hi);
    if q.Kid? {
      var y := ix.nodes[q.up];
      assert y in ix.at && y in b && y in b' && !IsSmall(b'[y]);
      assert Sized(y, b'[y], lo, hi);
    }
  }

  // ---- `insert_large_chunk` next to a tree node of the same size ----

  lemma ChainStep(m: Mem, gm: int, lo: int, hi: int, b: Binned, ix: Index, smallmap: int, treemap: int,
                  t: int, x: int, s: int, i: int)
    requires Indexed(m, gm, lo, hi, b, ix, smallmap, treemap) && Mapped(m, gm, lo, hi)
    requires x !in b && !IsSmall(s) && Separate(gm, lo, hi, b[x := s]) && InBin(s, i)
    requires t in ix.at && t in b && b[t] == s
    requires Rd(m, x + LEFT) == 0 && Rd(m, x + RIGHT) == 0 && Rd(m, x + INDEX) == i
    ensures s in ix.lists && |ix.lists[s]| > 0 && t + FD in m && Rd(m, t + FD) + BK in m
    ensures var f := Rd(m, t + FD); var m' := m[t + FD := x][f + BK := x][x + FD := f][x + BK := t][x + PARENT := 0];
            && Indexed(m', gm, lo, hi, b[x := s], ChainIndex(ix, x, s), smallmap, treemap) && Mapped(m', gm, lo, hi)
            && Touches(m, m', gm, b[x := s])
  {
    hide Indexed;
    var f := ChainReads(m, gm, lo, hi, b, ix, smallmap, treemap, t, s, x);
    var m1 := m[t + FD := x][f + BK := x][x + FD := f][x + BK := t];
    var m' := m1[x + PARENT := 0];
    ChainedWords(m, gm, lo, hi, b, t, f, x, s, i);
    ChainLarge(m, m', gm, lo, hi, b, ix, smallmap, treemap, x, s, i);
    MappedMore(m, m', gm, lo, hi);
  }

  lemma ChainReads(m: Mem, gm: int, lo: int, hi: int, b: Binned, ix: Index, smallmap: int, treemap: int, t: int, s: int,
                   x: int)
    returns (f: int)
    requires Indexed(m, gm, lo, hi, b, ix, smallmap, treemap) && Mapped(m, gm, lo, hi)
    requires t in ix.at && t in b && b[t] == s && !IsSmall(s)
    ensures s in ix.lists && |ix.lists[s]| > 0 && ix.lists[s][0] == t && f == Rd(m, t + FD) && t + FD in m
    ensures f + BK in m
    ensures f in b && b[f] == s && Inserted(m, ix.lists[s], x) == m[t + FD := x][f + BK := x][x + FD := f][x + BK := t]
  {
    hide AllTagged; hide Trees; hide Trie; hide Maps;
    var l := ix.lists[s];
    f := Rd(m, t + FD);
    assert RingAt(m, gm, ix.lists, s);
    RingNeighbours(m, l, 0);
    MappedChunk(m, gm, lo, hi, t, s);
    MappedChunk(m, gm, lo, hi, f, s);
  }

  lemma ChainedWords(m: Mem, gm: int, lo: int, hi: int, b: Binned, t: int, f: int, x: int, s: int, i: int)
    requires x !in b && !IsSmall(s) && Separate(gm, lo, hi, b[x := s]) && t in b && f in b && b[t] == s && b[f] == s
    requires Rd(m, x + LEFT) == 0 && Rd(m, x + RIGHT) == 0 && Rd(m, x + INDEX) == i
    ensures var m1 := m[t + FD := x][f + BK := x][x + FD := f][x + BK := t]; var m' := m1[x + PARENT := 0];
            Only(m1, m', TreeWords(x)) && Hangs(m', x, i) && Touches(m, m', gm, b[x := s])
  {
    var b' := b[x := s];
    LargeClear(gm, lo, hi, b', t, x);
    LargeClear(gm, lo, hi, b', f, x);
    assert Sized(x, b'[x], lo, hi) && Sized(t, b'[t], lo, hi) && Sized(f, b'[f], lo, hi);
  }

  // ---- The walk of `insert_large_chunk` ----

  /** The walk stands at node `t`, at place `q`, with the remaining size bits in `bits`. */
  ghost predicate Walking(b: Binned, ix: Index, s: int, q: Pos, t: int, bits: int) {
    && Seeking(Sizes(ix.nodes, b), s, q) && SizeBits(bits, s, q)
    && q in ix.nodes && ix.nodes[q] == t && t in ix.at && t in b
  }

  lemma WalkingAt(b: Binned, ix: Index, s: int, q: Pos, t: int, bits: int)
    requires Walking(b, ix, s, q, t, bits)
    ensures q in ix.nodes && ix.nodes[q] == t && t in ix.at && t in b
  {
  }

  lemma WalkStart(m: Mem, gm: int, lo: int, hi: int, b: Binned, ix: Index, smallmap: int, treemap: nat, s: int, i: int)
    requires Indexed(m, gm, lo, hi, b, ix, smallmap, treemap) && Mapped(m, gm, lo, hi) && InBin(s, i)
    requires MIN_LARGE_SIZE <= s < WORD
    ensures TreeBin(gm, i) in m && 0 <= i < 32
    ensures BM.And(treemap, Pow2(i)) != 0 <==> i in ix.roots
    ensures i in ix.roots ==> ix.roots[i] == RootOf(i)
    ensures i in ix.roots ==> Walking(b, ix, s, RootOf(i), Rd(m, TreeBin(gm, i)), Shl32(s, LeftShift(i)))
    ensures i !in ix.roots ==> RootOf(i) !in ix.nodes && forall q :: q in ix.nodes ==> SizeIn(b, ix.nodes[q]) != s
  {
    hide Listed; hide AllRings; hide AllTagged;
    BM.Tested(treemap, i);
    assert BM.Bit(treemap, i) <==> i in ix.roots;
    WordAt(m, gm, lo, hi, gm, 264 + 4 * i);
    if i in ix.roots {
      WalkRoot(b, ix, gm, s, i);
    } else {
      WalkNowhere(b, ix, gm, s, i);
    }
  }

  lemma WalkRoot(b: Binned, ix: Index, gm: int, s: int, i: int)
    requires Shape(gm, ix.nodes, ix.roots) && Seated(b, ix) && Trie(Sizes(ix.nodes, b))
    requires InBin(s, i) && MIN_LARGE_SIZE <= s < WORD && i in ix.roots
    ensures ix.roots[i] == RootOf(i) && RootOf(i) in ix.nodes
    ensures Walking(b, ix, s, RootOf(i), ix.nodes[RootOf(i)], Shl32(s, LeftShift(i)))
  {
    assert ix.roots[i] in Sizes(ix.nodes, b) && IsRoot(ix.roots[i]);
    SeekStart(Sizes(ix.nodes, b), s, i);
    SizeBitsStart(s, i);
  }

  lemma WalkNowhere(b: Binned, ix: Index, gm: int, s: int, i: int)
    requires Shape(gm, ix.nodes, ix.roots) && Trie(Sizes(ix.nodes, b)) && InBin(s, i) && i !in ix.roots
    ensures RootOf(i) !in ix.nodes && forall q :: q in ix.nodes ==> SizeIn(b, ix.nodes[q]) != s
  {
    assert RootOf(i).Root? && RootOf(i).bin == i;
    SeekEmpty(Sizes(ix.nodes, b), s, i);
    forall q | q in ix.nodes ensures SizeIn(b, ix.nodes[q]) != s { assert Sizes(ix.nodes, b)[q] != s; }
  }

  /** One turn of the walk: the child the top bit selects. */
  lemma WalkStep(m: Mem, gm: int, lo: int, hi: int, b: Binned, ix: Index, smallmap: int, treemap: int, s: int, q: Pos,
                 t: int, bits: int)
    requires Indexed(m, gm, lo, hi, b, ix, smallmap, treemap) && Mapped(m, gm, lo, hi)
    requires Walking(b, ix, s, q, t, bits)
    requires b[t] != s && s % 8 == 0
    ensures bits / 0x8000_0000 == (if GoesRight(s, q) then 1 else 0) && Exp(q) >= 4
    ensures var k := Kid(q, GoesRight(s, q)); var c := ChildWord(t, GoesRight(s, q));
            && c in m && c == Slot(gm, ix.nodes, k) && t == ParentOf(gm, ix.nodes, k) && Rd(m, c) == NodeAt(ix.nodes, k) && InSpan(s, k) && Bin(k) == Bin(q)
            && (Rd(m, c) != 0 ==> Walking(b, ix, s, k, Rd(m, c), 2 * bits % WORD))
            && (Rd(m, c) == 0 ==> k !in ix.nodes && forall r :: r in ix.nodes ==> SizeIn(b, ix.nodes[r]) != s)
  {
    hide Indexed; hide Mapped; hide Trie; hide Seated;
    var k := Kid(q, GoesRight(s, q));
    WalkFacts(m, gm, lo, hi, b, ix, smallmap, treemap);
    WalkDown(b, ix, s, q, t, bits);
    hide Walking;
    WalkingAt(b, ix, s, q, t, bits);
    NodeReads(m, gm, lo, hi, b, ix, smallmap, treemap, q);
    assert k in ix.nodes ==> ix.nodes[k] > 0;
  }

  lemma WalkFacts(m: Mem, gm: int, lo: int, hi: int, b: Binned, ix: Index, smallmap: int, treemap: int)
    requires Indexed(m, gm, lo, hi, b, ix, smallmap, treemap)
    ensures Seated(b, ix) && Trie(Sizes(ix.nodes, b))
  {
    hide Listed; hide AllRings; hide AllTagged; hide Maps; hide Trie; hide Seated; hide Trees; hide Separate;
  }

  lemma WalkDown(b: Binned, ix: Index, s: int, q: Pos, t: int, bits: int)
    requires Seated(b, ix) && Trie(Sizes(ix.nodes, b)) && Walking(b, ix, s, q, t, bits) && b[t] != s && s % 8 == 0
    ensures bits / 0x8000_0000 == (if GoesRight(s, q) then 1 else 0) && Exp(q) >= 4
    ensures InSpan(s, Kid(q, GoesRight(s, q)))
    ensures Kid(q, GoesRight(s, q)) in ix.nodes ==>
              Walking(b, ix, s, Kid(q, GoesRight(s, q)), ix.nodes[Kid(q, GoesRight(s, q))], 2 * bits % WORD)
    ensures Kid(q, GoesRight(s, q)) !in ix.nodes ==> forall r :: r in ix.nodes ==> SizeIn(b, ix.nodes[r]) != s
  {
    var k, sizes := Kid(q, GoesRight(s, q)), Sizes(ix.nodes, b);
    assert sizes[q] == b[t];
    SeekStep(sizes, s, q);
    SizeBitsStep(bits, s, q);
    if k !in ix.nodes {
      forall r | r in ix.nodes ensures SizeIn(b, ix.nodes[r]) != s { assert sizes[r] != s; }
    }
  }

  lemma Settled(m: Mem, m1: Mem, m2: Mem, gm: int, lo: int, hi: int, b: Binned)
    requires Touches(m, m1, gm, b) && Touches(m1, m2, gm, b) && Heads(m1, b) && Separate(gm, lo, hi, b)
    ensures Touches(m, m2, gm, b) && Heads(m2, b)
  {
    forall p | p in b ensures SizeOf(Rd(m2, p + 4)) == b[p] { HeadOutside(gm, lo, hi, b, p); }
  }

  /** A binned chunk's head word is mapped. */
  lemma HeadMapped(m: Mem, gm: int, lo: int, hi: int, b: Binned, ix: Index, smallmap: int, treemap: int, p: int)
    requires Indexed(m, gm, lo, hi, b, ix, smallmap, treemap) && Mapped(m, gm, lo, hi) && p in b
    ensures p + 4 in m && Sized(p, b[p], lo, hi) && p > 0
  {
    hide Listed; hide AllRings; hide AllTagged; hide Trees; hide Trie; hide Seated; hide Maps; hide Mapped;
    assert Sized(p, b[p], lo, hi);
    Quad(p);
    hide Separate;
    WordAt(m, gm, lo, hi, p, 4);
  }

  lemma HeadsFresh(m: Mem, m': Mem, gm: int, lo: int, hi: int, b: Binned, x: int, s: int)
    requires x !in b && Separate(gm, lo, hi, b[x := s]) && Touches(m, m', gm, b[x := s]) && Heads(m, b)
    requires SizeOf(Rd(m, x + 4)) == s
    ensures Heads(m', b) && Heads(m', b[x := s])
  {
    hide Separate;
    var b' := b[x := s];
    forall p | p in b' ensures SizeOf(Rd(m', p + 4)) == b'[p] {
      HeadOutside(gm, lo, hi, b', p);
      assert Rd(m', p + 4) == Rd(m, p + 4);
    }
    forall p | p in b ensures SizeOf(Rd(m', p + 4)) == b[p] { assert p in b' && b'[p] == b[p]; }
  }

  lemma PlantRoot(m: Mem, gm: int, lo: int, hi: int, b: Binned, ix: Index, smallmap: int, treemap: nat, x: int, s: int,
                  i: int)
    requires Indexed(m, gm, lo, hi, b, ix, smallmap, treemap) && Mapped(m, gm, lo, hi)
    requires x !in b && !IsSmall(s) && Separate(gm, lo, hi, b[x := s]) && InBin(s, i) && i !in ix.roots
    requires RootOf(i) !in ix.nodes
    requires forall r :: r in ix.nodes ==> SizeIn(b, ix.nodes[r]) != s
    requires Rd(m, x + LEFT) == 0 && Rd(m, x + RIGHT) == 0 && Rd(m, x + INDEX) == i
    ensures var h := TreeBin(gm, i); var m' := m[h := x][x + PARENT := h][x + FD := x][x + BK := x];
            && Indexed(m', gm, lo, hi, b[x := s], PlantIndex(ix, RootOf(i), x, s), smallmap, BM.Mark(treemap, i))
            && Mapped(m', gm, lo, hi) && Touches(m, m', gm, b[x := s])
  {
    hide Indexed; hide Mapped;
    var q := RootOf(i);
    NewSize(gm, lo, hi, b, x, s);
    RootSize(s, i);
    TreemapMark(m, gm, lo, hi, b, ix, smallmap, treemap, i);
    assert WithRoot(ix.roots, q).Keys == ix.roots.Keys + {i};
    hide Separate; hide SizeAt;
    PlantStep(m, gm, lo, hi, b, ix, smallmap, treemap, q, x, s, BM.Mark(treemap, i));
  }

  lemma NewSize(gm: int, lo: int, hi: int, b: Binned, x: int, s: int)
    requires Separate(gm, lo, hi, b[x := s])
    ensures Sized(x, s, lo, hi) && 16 <= s < WORD && s % 8 == 0
  {
    assert Sized(x, b[x := s][x], lo, hi);
  }

  lemma RootSize(s: int, i: int)
    requires InBin(s, i) && MIN_LARGE_SIZE <= s < WORD && s % 8 == 0
    ensures SizeAt(s, RootOf(i)) && IsRoot(RootOf(i)) && RootOf(i).Root? && RootOf(i).bin == i && Bin(RootOf(i)) == i
  {
    RootSpan(s, i);
  }

  lemma TreemapMark(m: Mem, gm: int, lo: int, hi: int, b: Binned, ix: Index, smallmap: int, treemap: nat, i: int)
    requires Indexed(m, gm, lo, hi, b, ix, smallmap, treemap) && 0 <= i < 32
    ensures treemap < WORD && BM.Shows(treemap, ix.roots.Keys)
    ensures BM.Shows(BM.Mark(treemap, i), ix.roots.Keys + {i}) && BM.Mark(treemap, i) < WORD
    ensures BM.Shows(BM.Clear(treemap, i), ix.roots.Keys - {i}) && BM.Clear(treemap, i) < WORD
  {
    BM.MarkSet(treemap, ix.roots.Keys, i);
    BM.ClearSet(treemap, ix.roots.Keys, i);
  }

  lemma PlantKid(m: Mem, gm: int, lo: int, hi: int, b: Binned, ix: Index, smallmap: int, treemap: nat, q: Pos, x: int,
                 s: int, i: int)
    requires Indexed(m, gm, lo, hi, b, ix, smallmap, treemap) && Mapped(m, gm, lo, hi)
    requires x !in b && !IsSmall(s) && Separate(gm, lo, hi, b[x := s]) && InBin(s, i)
    requires q !in ix.nodes && q.Kid? && q.up in ix.nodes && InSpan(s, q) && Bin(q) == i
    requires forall r :: r in ix.nodes ==> SizeIn(b, ix.nodes[r]) != s
    requires Rd(m, x + LEFT) == 0 && Rd(m, x + RIGHT) == 0 && Rd(m, x + INDEX) == i
    ensures var c, t := Slot(gm, ix.nodes, q), ParentOf(gm, ix.nodes, q);
            var m' := m[c := x][x + PARENT := t][x + FD := x][x + BK := x];
            && Indexed(m', gm, lo, hi, b[x := s], PlantIndex(ix, q, x, s), smallmap, treemap)
            && Mapped(m', gm, lo, hi) && Touches(m, m', gm, b[x := s])
  {
    NewSize(gm, lo, hi, b, x, s);
    assert SizeAt(s, q);
    TreemapMark(m, gm, lo, hi, b, ix, smallmap, treemap, i);
    hide Indexed; hide Separate; hide Mapped; hide SizeAt;
    PlantStep(m, gm, lo, hi, b, ix, smallmap, treemap, q, x, s, treemap);
  }

  // ---- `unlink_large_chunk`: step 2, the rightmost leaf below a node ----

  /** What a tree node's words say, and that they are mapped. */
  lemma NodeReads(m: Mem, gm: int, lo: int, hi: int, b: Binned, ix: Index, smallmap: int, treemap: int, q: Pos)
    requires Indexed(m, gm, lo, hi, b, ix, smallmap, treemap) && Mapped(m, gm, lo, hi) && q in ix.nodes
    ensures var x := ix.nodes[q];
            && x in b && x in ix.at && ix.at[x] == q && 0 < x && !IsSmall(b[x])
            && x + LEFT in m && x + RIGHT in m && x + PARENT in m && x + INDEX in m && x + FD in m && x + BK in m
            && m[x + LEFT] == NodeAt(ix.nodes, Kid(q, false)) && m[x + RIGHT] == NodeAt(ix.nodes, Kid(q, true))
            && m[x + PARENT] == ParentOf(gm, ix.nodes, q) && m[x + INDEX] == Bin(q)
    ensures Exp(q) >= 3 && (q.Kid? ==> q.up in ix.nodes)
    ensures (Kid(q, false) in ix.nodes ==> ix.nodes[Kid(q, false)] > 0)
    ensures (Kid(q, true) in ix.nodes ==> ix.nodes[Kid(q, true)] > 0)
  {
    hide Listed; hide AllRings; hide AllTagged; hide Maps;
    var x := ix.nodes[q];
    assert x in ix.at && x in b && Sized(x, b[x], lo, hi);
    assert Placed(m, gm, ix.nodes, q);
    PresentExp(Sizes(ix.nodes, b), q);
    MappedChunk(m, gm, lo, hi, x, b[x]);
  }

  // ---- `unlink_large_chunk`: step 3, handing the place over ----

  /** `r` takes over the child `c` through its child word `w`. */
  function Adopt(m: Mem, r: int, w: int, c: int): Mem { if c != 0 then m[w := c][c + PARENT := r] else m }

  /** `r` takes the parent and the children of `x`. */
  function Inherit(m: Mem, xp: int, x: int, r: int): Mem {
    var m2 := m[r + PARENT := xp];
    var m3 := Adopt(m2, r, r + LEFT, Rd(m2, x + LEFT));
    Adopt(m3, r, r + RIGHT, Rd(m3, x + RIGHT))
  }

  /** The stores that give the place of `x` to `r`, in the order of the macro. */
  function HandOver(m: Mem, slot: int, xp: int, x: int, r: int): Mem { Inherit(m[slot := r], xp, x, r) }

  lemma Adopted(m: Mem, r: int, w: int, c: int)
    requires Rd(m, w) == 0 && (c != 0 ==> c + PARENT != w)
    ensures var m' := Adopt(m, r, w, c);
            Rd(m', w) == c && (c != 0 ==> Rd(m', c + PARENT) == r) && Only(m, m', {w} + KidWords(c))
  {
  }

  /** No tree word of `x` is a child word of `r` or the slot. */
  ghost predicate Untouched(slot: int, x: int, r: int) {
    Clear(x, r) && !(x + LEFT <= slot <= x + INDEX)
  }

  lemma HandedOver(m: Mem, slot: int, xp: int, x: int, r: int, c0: int, c1: int)
    requires Rd(m, x + LEFT) == c0 && Rd(m, x + RIGHT) == c1 && Rd(m, r + LEFT) == 0 && Rd(m, r + RIGHT) == 0
    requires Untouched(slot, x, r) && !(r + LEFT <= slot <= r + INDEX)
    requires c0 != 0 ==> Untouched(slot, c0, r) && Clear(c0, x)
    requires c1 != 0 ==> Untouched(slot, c1, r) && Clear(c1, x)
    requires c0 != 0 && c1 != 0 ==> Clear(c0, c1)
    ensures var m' := HandOver(m, slot, xp, x, r);
            && Rd(m', slot) == r && Rd(m', r + PARENT) == xp && Rd(m', r + LEFT) == c0 && Rd(m', r + RIGHT) == c1
            && (c0 != 0 ==> Rd(m', c0 + PARENT) == r) && (c1 != 0 ==> Rd(m', c1 + PARENT) == r)
            && Only(m, m', {r + LEFT, r + RIGHT, r + PARENT, slot} + KidWords(c0) + KidWords(c1))
  {
    hide Adopt;
    var m2 := m[slot := r][r + PARENT := xp];
    assert Rd(m2, x + LEFT) == c0 && Rd(m2, x + RIGHT) == c1;
    Adopted(m2, r, r + LEFT, c0);
    var m3 := Adopt(m2, r, r + LEFT, c0);
    assert Rd(m3, x + RIGHT) == c1;
    Adopted(m3, r, r + RIGHT, c1);
  }

  lemma HandOverSwaps(m: Mem, gm: int, nodes: Nodes, roots: map<int, Pos>, q: Pos, r: int)
    requires Trees(m, gm, nodes, roots) && CanSwap(m, gm, nodes, q, r)
    requires Rd(m, r + LEFT) == 0 && Rd(m, r + RIGHT) == 0
    ensures Swapped(m, HandOver(m, Slot(gm, nodes, q), ParentOf(gm, nodes, q), nodes[q], r), gm, nodes, q, r)
  {
    hide HandOver; hide Only;
    var x, slot, c0, c1 := nodes[q], Slot(gm, nodes, q), NodeAt(nodes, Kid(q, false)), NodeAt(nodes, Kid(q, true));
    assert Exp(Kid(q, false)) != Exp(q) && Exp(Kid(q, true)) != Exp(q) && (q.Kid? ==> Exp(q.up) != Exp(q));
    assert Placed(m, gm, nodes, q);
    assert Untouched(slot, x, r) by { SlotAway(gm, nodes, roots, q, q); assert Clear(r, x); }
    if Kid(q, false) in nodes { SlotAway(gm, nodes, roots, q, Kid(q, false)); assert Clear(r, c0) && Clear(nodes[Kid(q, false)], nodes[q]); }
    if Kid(q, true) in nodes { SlotAway(gm, nodes, roots, q, Kid(q, true)); assert Clear(r, c1) && Clear(nodes[Kid(q, true)], nodes[q]); }
    if Kid(q, false) in nodes && Kid(q, true) in nodes { assert Clear(nodes[Kid(q, false)], nodes[Kid(q, true)]); }
    if q.Kid? { assert Clear(r, nodes[q.up]); }
    HandedOver(m, slot, ParentOf(gm, nodes, q), x, r, c0, c1);
  }

  /** The slot of a place is not a word of its node or of its children. */
  lemma SlotAway(gm: int, nodes: Nodes, roots: map<int, Pos>, q: Pos, k: Pos)
    requires Shape(gm, nodes, roots) && q in nodes && k in nodes && (k == q || (k.Kid? && k.up == q))
    ensures !(nodes[k] + LEFT <= Slot(gm, nodes, q) <= nodes[k] + INDEX) && nodes[k] > 0
  {
    assert OffBins(gm, nodes[k]);
    if q.Kid? {
      assert Exp(q.up) == Exp(q) + 1 && Exp(k) <= Exp(q);
      assert Clear(nodes[q.up], nodes[k]);
    }
  }

  /** How the macro tells the slot of `q` apart: through the root array, or as a left or right child. */
  lemma SlotReads(m: Mem, gm: int, nodes: Nodes, roots: map<int, Pos>, q: Pos)
    requires Trees(m, gm, nodes, roots) && q in nodes && 0 <= Bin(q) < 32
    ensures Rd(m, TreeBin(gm, Bin(q))) == nodes[q] <==> q.Root?
    ensures q.Root? ==> Slot(gm, nodes, q) == TreeBin(gm, Bin(q))
    ensures q.Kid? ==> q.up in nodes && (Rd(m, nodes[q.up] + LEFT) == nodes[q] <==> !q.right)
    ensures ParentOf(gm, nodes, q) > 0 && nodes[q] > 0
    ensures Rd(m, nodes[q] + INDEX) == Bin(q)
  {
    assert Placed(m, gm, nodes, q);
    var i := Bin(q);
    if q.Kid? {
      assert Placed(m, gm, nodes, q.up);
      if i in roots { assert Clear(nodes[q], nodes[roots[i]]); }
      var k := Kid(q.up, false);
      if q.right && k in nodes { assert Clear(nodes[q], nodes[k]); }
    }
  }

  /** The words through which `x` hangs in its tree are mapped. */
  lemma SlotMapped(m: Mem, gm: int, lo: int, hi: int, b: Binned, ix: Index, smallmap: int, treemap: int, q: Pos)
    requires Indexed(m, gm, lo, hi, b, ix, smallmap, treemap) && Mapped(m, gm, lo, hi) && q in ix.nodes
    ensures 0 <= Bin(q) < 32 && TreeBin(gm, Bin(q)) in m
    ensures q.Kid? ==> q.up in ix.nodes && ix.nodes[q.up] + LEFT in m && ix.nodes[q.up] + RIGHT in m
    ensures var x := ix.nodes[q]; x + LEFT in m && x + RIGHT in m && x + INDEX in m && x + PARENT in m
  {
    hide Indexed;
    NodeReads(m, gm, lo, hi, b, ix, smallmap, treemap, q);
    BinRange(m, gm, lo, hi, b, ix, smallmap, treemap, ix.nodes[q]);
    WordAt(m, gm, lo, hi, gm, 264 + 4 * Bin(q));
    if q.Kid? { NodeReads(m, gm, lo, hi, b, ix, smallmap, treemap, q.up); }
  }

  /** A large chunk's index word names one of the 32 tree bins. */
  lemma BinRange(m: Mem, gm: int, lo: int, hi: int, b: Binned, ix: Index, smallmap: int, treemap: int, x: int)
    requires Indexed(m, gm, lo, hi, b, ix, smallmap, treemap) && x in b && !IsSmall(b[x])
    ensures 0 <= Rd(m, x + INDEX) < 32
  {
    hide Listed; hide AllRings; hide Maps; hide Trees; hide Trie; hide Seated; hide Separate;
    assert Tagged(m, b, ix.at, x);
  }
}
