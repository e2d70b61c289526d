/** The tree-bin searches: they find the smallest binned chunk that is large enough. */
module BestFit {
  import opened Words
  import opened TreeIndex
  import opened SizeTrie
  import opened TreeLinks
  import opened Bins
  import opened LargeSteps
  import BM = BinMaps

  /** No large binned chunk that fits `nb` is smaller than `best`. */
  ghost predicate Least(b: Binned, nb: int, best: int) {
    forall p :: p in b && !IsSmall(b[p]) && nb <= b[p] ==> best <= b[p]
  }

  /** `v` is the best chunk so far, of size `best`; WORD stands for none. */
  ghost predicate Found(b: Binned, ix: Index, nb: int, v: int, best: int) {
    if v == 0 then best == WORD else v in b && v in ix.at && b[v] == best && nb <= best < WORD && !IsSmall(best)
  }

  /** `trem < rsize`, with the unsigned wrap-around of both, compares the chunk with the best so far. */
  lemma Better(s: int, nb: int, best: int)
    requires 0 <= s < WORD && 0 < nb < WORD && nb <= best <= WORD
    ensures Sub32(s, nb) < best - nb <==> nb <= s < best
    ensures nb <= s ==> Sub32(s, nb) == s - nb
    ensures Sub32(0, nb) == WORD - nb
  {
    assert (s - nb) % WORD == if nb <= s then s - nb else s - nb + WORD;
    assert (0 - nb) % WORD == WORD - nb;
  }

  // ---- First phase ----

  /** The walk stands at node `t`, at place `q`, with `bits` of nb left; `rst` is the untaken right subtree. */
  ghost predicate Probing(b: Binned, ix: Index, nb: int, idx: int, q: Pos, t: int, bits: int, best: int, rst: int,
                          rest: Rest) {
    && q in ix.nodes && ix.nodes[q] == t && t in b && t in ix.at && SizeBits(bits, nb, q)
    && Searching(Sizes(ix.nodes, b), nb, idx, q, best, rest) && RestAt(ix, rst, rest)
  }

  ghost predicate RestAt(ix: Index, rst: int, rest: Rest) {
    if rest.Rest? then rest.pos in ix.nodes && ix.nodes[rest.pos] == rst && rst != 0 else rst == 0
  }

  lemma TrieFacts(m: Mem, gm: int, lo: int, hi: int, b: Binned, ix: Index, smallmap: int, treemap: int)
    requires Indexed(m, gm, lo, hi, b, ix, smallmap, treemap)
    ensures Trie(Sizes(ix.nodes, b)) && Seated(b, ix) && Listed(b, ix.lists) && Shape(gm, ix.nodes, ix.roots)
    ensures forall q :: q in ix.nodes ==> ix.nodes[q] in b && ix.nodes[q] in ix.at
    ensures forall p :: p in b ==> 16 <= b[p] < WORD
  {
    forall p | p in b ensures 16 <= b[p] < WORD { assert Sized(p, b[p], lo, hi); }
  }

  lemma ProbeStart(m: Mem, gm: int, lo: int, hi: int, b: Binned, ix: Index, smallmap: int, treemap: int, nb: int,
                   idx: int)
    requires Indexed(m, gm, lo, hi, b, ix, smallmap, treemap) && InBin(nb, idx) && 0 <= nb < WORD
    requires RootOf(idx) in ix.nodes
    ensures Probing(b, ix, nb, idx, RootOf(idx), ix.nodes[RootOf(idx)], Shl32(nb, LeftShift(idx)), WORD, 0, NoRest)
    ensures Bin(RootOf(idx)) == idx
  {
    assert Bin(RootOf(idx)) == idx;
    hide Indexed; hide Trie; hide Searching; hide SizeBits; hide InBin; hide RootOf; hide Shape; hide Listed;
    TrieFacts(m, gm, lo, hi, b, ix, smallmap, treemap);
    SearchStart(Sizes(ix.nodes, b), nb, idx);
    SizeBitsStart(nb, idx);
  }

  /** What one turn finds: where the walk goes on, or the subtree it falls back to. */
  lemma ProbeStep(m: Mem, gm: int, lo: int, hi: int, b: Binned, ix: Index, smallmap: int, treemap: int,
                  nb: int, idx: int, q: Pos, t: int, bits: int, best: int, best': int, rst: int, rest: Rest)
    returns (q': Pos, rest': Rest)
    requires Indexed(m, gm, lo, hi, b, ix, smallmap, treemap) && Mapped(m, gm, lo, hi)
    requires Probing(b, ix, nb, idx, q, t, bits, best, rst, rest) && best' <= best && (nb <= b[t] ==> best' <= b[t])
    ensures t + RIGHT in m && ChildWord(t, bits / 0x8000_0000 == 1) in m && q' == Kid(q, bits / 0x8000_0000 == 1)
    ensures Exp(q') < Exp(q) && Exp(q) >= 3
    ensures var rt, c := m[t + RIGHT], m[ChildWord(t, bits / 0x8000_0000 == 1)];
            var rst' := if rt != 0 && rt != c then rt else rst;
            && c == NodeAt(ix.nodes, q') && RestAt(ix, rst', rest')
            && (c != 0 ==> Probing(b, ix, nb, idx, q', c, 2 * bits % WORD, best', rst', rest'))
            && (c == 0 ==> FellOff(b, ix, nb, idx, best', rest'))
  {
    hide Indexed; hide Mapped; hide Trie; hide Searching; hide SizeBits; hide Shape; hide Listed; hide Handled;
    hide RestOk; hide SizeAt;
    var sizes := Sizes(ix.nodes, b);
    q' := Kid(q, GoesRight(nb, q));
    rest' := NextRest(sizes, nb, q, rest);
    TrieFacts(m, gm, lo, hi, b, ix, smallmap, treemap);
    ProbeTurn(b, ix, nb, idx, q, t, bits, best, best', rst, rest);
    NodeReads(m, gm, lo, hi, b, ix, smallmap, treemap, q);
    assert q' in ix.nodes ==> ix.nodes[q'] > 0;
    Distinct(m, gm, lo, hi, b, ix, smallmap, treemap, q);
  }

  /** Off the tree: everything not yet handled is in the remembered subtree, or in later bins. */
  ghost predicate FellOff(b: Binned, ix: Index, nb: int, idx: int, best: int, rest: Rest) {
    var sizes := Sizes(ix.nodes, b);
    && (forall u :: u in sizes ==> Handled(sizes, nb, idx, NoRest, best, rest, u))
    && exists bound :: RestOk(sizes, nb, idx, rest, bound)
  }

  lemma ProbeTurn(b: Binned, ix: Index, nb: int, idx: int, q: Pos, t: int, bits: int, best: int, best': int, rst: int,
                  rest: Rest)
    requires Trie(Sizes(ix.nodes, b)) && forall r :: r in ix.nodes ==> ix.nodes[r] in b && ix.nodes[r] in ix.at
    requires Probing(b, ix, nb, idx, q, t, bits, best, rst, rest) && best' <= best && (nb <= b[t] ==> best' <= b[t])
    ensures bits / 0x8000_0000 == (if GoesRight(nb, q) then 1 else 0)
    ensures var q', rest' := Kid(q, GoesRight(nb, q)), NextRest(Sizes(ix.nodes, b), nb, q, rest);
            && (q' in ix.nodes ==> SizeBits(2 * bits % WORD, nb, q') && Searching(Sizes(ix.nodes, b), nb, idx, q', best', rest'))
            && (q' !in ix.nodes ==> FellOff(b, ix, nb, idx, best', rest'))
  {
    var sizes := Sizes(ix.nodes, b);
    assert sizes[q] == b[t];
    PresentExp(sizes, q);
    hide Trie; hide Handled; hide SizeBits;
    SearchStep(sizes, nb, idx, q, best, best', rest);
    SizeBitsStep(bits, nb, q);
  }

  /** The two children of a node are different nodes. */
  lemma Distinct(m: Mem, gm: int, lo: int, hi: int, b: Binned, ix: Index, smallmap: int, treemap: int, q: Pos)
    requires Indexed(m, gm, lo, hi, b, ix, smallmap, treemap)
    ensures Kid(q, false) in ix.nodes && Kid(q, true) in ix.nodes ==> ix.nodes[Kid(q, false)] != ix.nodes[Kid(q, true)]
  {
    hide Listed; hide AllRings; hide AllTagged; hide Trees; hide Trie; hide Maps; hide Separate;
    assert Kid(q, false) != Kid(q, true);
  }

  // ---- Second phase ----

  ghost predicate Narrowing(b: Binned, ix: Index, nb: int, q: Pos, t: int, best: int) {
    && q in ix.nodes && ix.nodes[q] == t && t in b && t in ix.at
    && (best == nb || Narrowed(Sizes(ix.nodes, b), nb, q, best))
  }

  /** `leftmost_child` */
  lemma NarrowNext(m: Mem, gm: int, lo: int, hi: int, b: Binned, ix: Index, smallmap: int, treemap: int,
                   nb: int, q: Pos, t: int, best: int, best': int) returns (q': Pos)
    requires Indexed(m, gm, lo, hi, b, ix, smallmap, treemap) && Mapped(m, gm, lo, hi)
    requires Narrowing(b, ix, nb, q, t, best) && nb <= best' <= best && (nb <= b[t] ==> best' <= b[t])
    ensures t + LEFT in m && t + RIGHT in m && Exp(q') < Exp(q) && Exp(q) >= 3
    ensures var c := if m[t + LEFT] != 0 then m[t + LEFT] else m[t + RIGHT];
            && (c != 0 ==> Narrowing(b, ix, nb, q', c, best')) && (c == 0 ==> Least(b, nb, best'))
  {
    hide Indexed; hide Mapped; hide Trie; hide Narrowed; hide Shape; hide Least;
    var sizes := Sizes(ix.nodes, b);
    q' := Kid(q, Kid(q, false) !in ix.nodes);
    TrieFacts(m, gm, lo, hi, b, ix, smallmap, treemap);
    NodeReads(m, gm, lo, hi, b, ix, smallmap, treemap, q);
    NarrowTurn(b, ix, nb, q, t, best, best');
    if best' == nb || forall u :: u in sizes && nb <= sizes[u] ==> best' <= sizes[u] { LeastOf(b, ix, nb, best'); }
  }

  lemma NarrowTurn(b: Binned, ix: Index, nb: int, q: Pos, t: int, best: int, best': int)
    requires Trie(Sizes(ix.nodes, b)) && Narrowing(b, ix, nb, q, t, best) && nb <= best' <= best
    requires (nb <= b[t] ==> best' <= b[t])
    ensures var sizes := Sizes(ix.nodes, b);
            best' == nb || (if LeftmostKid(sizes, q).Rest? then Narrowed(sizes, nb, LeftmostKid(sizes, q).pos, best')
                            else forall u :: u in sizes && nb <= sizes[u] ==> best' <= sizes[u])
  {
    var sizes := Sizes(ix.nodes, b);
    if best' != nb {
      assert sizes[q] == b[t] && Under(q, q);
      assert nb <= b[t];
      NarrowStep(sizes, nb, q, best, best');
    }
  }

  /** Every large size has a tree node. */
  lemma LeastOf(b: Binned, ix: Index, nb: int, best: int)
    requires Seated(b, ix) && Listed(b, ix.lists)
    requires best == nb || forall u :: u in Sizes(ix.nodes, b) && nb <= Sizes(ix.nodes, b)[u] ==> best <= Sizes(ix.nodes, b)[u]
    ensures Least(b, nb, best)
  {
    forall p | p in b && !IsSmall(b[p]) && nb <= b[p] ensures best <= b[p] {
      var x := ix.lists[b[p]][0];
      assert x in ix.at && b[x] == b[p] && Sizes(ix.nodes, b)[ix.at[x]] == b[p];
    }
  }

  // ---- Between the phases ----

  lemma TurnRest(m: Mem, gm: int, lo: int, hi: int, b: Binned, ix: Index, smallmap: int, treemap: int, nb: int,
                 idx: int, best: int, rst: int, rest: Rest)
    requires Indexed(m, gm, lo, hi, b, ix, smallmap, treemap) && FellOff(b, ix, nb, idx, best, rest)
    requires RestAt(ix, rst, rest) && rst != 0
    ensures Narrowing(b, ix, nb, rest.pos, rst, best)
  {
    hide Indexed; hide Trie; hide Handled; hide RestOk;
    TrieFacts(m, gm, lo, hi, b, ix, smallmap, treemap);
    var sizes := Sizes(ix.nodes, b);
    var bound :| RestOk(sizes, nb, idx, rest, bound);
    TurnToRest(sizes, nb, idx, best, rest.pos, bound);
  }

  lemma TurnFound(m: Mem, gm: int, lo: int, hi: int, b: Binned, ix: Index, smallmap: int, treemap: int, nb: int,
                  idx: int, best: int)
    requires Indexed(m, gm, lo, hi, b, ix, smallmap, treemap) && FellOff(b, ix, nb, idx, best, NoRest)
    requires InBin(best, idx)
    ensures Least(b, nb, best)
  {
    hide Indexed; hide Trie; hide Handled; hide Least; hide InBin;
    TrieFacts(m, gm, lo, hi, b, ix, smallmap, treemap);
    FoundInBin(Sizes(ix.nodes, b), nb, idx, best);
    LeastOf(b, ix, nb, best);
  }

  /** The root word of a bin: null exactly if the bin is empty. */
  lemma RootRead(m: Mem, gm: int, lo: int, hi: int, b: Binned, ix: Index, smallmap: int, treemap: int, i: int)
    requires Indexed(m, gm, lo, hi, b, ix, smallmap, treemap) && Mapped(m, gm, lo, hi) && 0 <= i < 32
    ensures TreeBin(gm, i) in m && (i in ix.roots <==> m[TreeBin(gm, i)] != 0)
    ensures (i in ix.roots <==> RootOf(i) in ix.nodes)
    ensures i in ix.roots ==> m[TreeBin(gm, i)] == ix.nodes[RootOf(i)] && ix.nodes[RootOf(i)] in b
    ensures i in ix.roots ==> ix.nodes[RootOf(i)] in ix.at
  {
    hide Listed; hide AllRings; hide AllTagged; hide Maps; hide Placed;
    WordAt(m, gm, lo, hi, gm, 264 + 4 * i);
    assert RootOf(i).Root? && RootOf(i).bin == i;
    if i in ix.roots { assert ix.roots[i] in Sizes(ix.nodes, b) && IsRoot(ix.roots[i]); }
  }

  lemma MapFacts(m: Mem, gm: int, lo: int, hi: int, b: Binned, ix: Index, smallmap: int, treemap: nat)
    requires Indexed(m, gm, lo, hi, b, ix, smallmap, treemap)
    ensures treemap < WORD && BM.Shows(treemap, ix.roots.Keys) && forall i :: i in ix.roots ==> 0 <= i < 32
  {
  }

  /** A size and an empty or exhausted bin: what is left is in later bins. */
  lemma TurnEmpty(m: Mem, gm: int, lo: int, hi: int, b: Binned, ix: Index, smallmap: int, treemap: int, nb: int,
                  idx: int)
    requires Indexed(m, gm, lo, hi, b, ix, smallmap, treemap) && InBin(nb, idx)
    requires RootOf(idx) !in ix.nodes
    ensures FellOff(b, ix, nb, idx, WORD, NoRest)
  {
    hide Indexed; hide Trie; hide Handled; hide RootOf; hide InBin;
    TrieFacts(m, gm, lo, hi, b, ix, smallmap, treemap);
    EmptyBin(Sizes(ix.nodes, b), nb, idx);
    assert RestOk(Sizes(ix.nodes, b), nb, idx, NoRest, 0);
  }

  lemma OnlyLater(sizes: map<Pos, int>, nb: int, idx: int)
    requires Trie(sizes) && InBin(nb, idx)
    requires forall u :: u in sizes ==> Handled(sizes, nb, idx, NoRest, WORD, NoRest, u)
    ensures forall u :: u in sizes ==> sizes[u] < nb || Bin(u) > idx
    ensures forall u :: u in sizes && Bin(u) > idx ==> nb <= sizes[u]
  {
    forall u | u in sizes ensures (sizes[u] < nb || Bin(u) > idx) && (Bin(u) > idx ==> nb <= sizes[u]) {
      assert SizeAt(sizes[u], u) && Handled(sizes, nb, idx, NoRest, WORD, NoRest, u);
      BinsOrdered(nb, idx, sizes[u], Bin(u));
    }
  }

  lemma TurnBin(m: Mem, gm: int, lo: int, hi: int, b: Binned, ix: Index, smallmap: int, treemap: nat, nb: int, idx: int)
    requires Indexed(m, gm, lo, hi, b, ix, smallmap, treemap) && InBin(nb, idx)
    requires FellOff(b, ix, nb, idx, WORD, NoRest) && 0 <= idx < 32
    ensures var x := BM.And(BM.LeftBits(Pow2(idx)), treemap); var i := BM.Bit2Idx(BM.LeastBit(x));
            && (x == 0 ==> Least(b, nb, WORD))
            && (x != 0 ==> 0 <= i < 32 && i in ix.roots && RootOf(i) in ix.nodes && Narrowing(b, ix, nb, RootOf(i), ix.nodes[RootOf(i)], WORD))
  {
    hide Indexed; hide Trie; hide InBin; hide Handled; hide Least; hide Narrowed; hide BM.LeftBits; hide BM.And;
    hide BM.LeastBit; hide BM.Bit2Idx;
    var sizes := Sizes(ix.nodes, b);
    var x := BM.And(BM.LeftBits(Pow2(idx)), treemap);
    TrieFacts(m, gm, lo, hi, b, ix, smallmap, treemap);
    MapFacts(m, gm, lo, hi, b, ix, smallmap, treemap);
    OnlyLater(sizes, nb, idx);
    BM.NextBin(treemap, ix.roots.Keys, idx);
    RootPlaces(m, gm, lo, hi, b, ix, smallmap, treemap);
    if x == 0 {
      NoLater(sizes, idx, ix.roots.Keys);
      LeastOf(b, ix, nb, WORD);
    } else {
      TurnToBin(sizes, nb, idx, BM.Bit2Idx(BM.LeastBit(x)));
    }
  }

  lemma RootPlaces(m: Mem, gm: int, lo: int, hi: int, b: Binned, ix: Index, smallmap: int, treemap: int)
    requires Indexed(m, gm, lo, hi, b, ix, smallmap, treemap)
    ensures forall i {:trigger RootOf(i)} :: i in ix.roots <==> RootOf(i) in ix.nodes
  {
    hide Listed; hide AllRings; hide AllTagged; hide Maps; hide Placed;
    forall i {:trigger RootOf(i)} ensures i in ix.roots <==> RootOf(i) in ix.nodes {
      assert RootOf(i).Root? && RootOf(i).bin == i;
      if i in ix.roots { assert ix.roots[i] in Sizes(ix.nodes, b) && IsRoot(ix.roots[i]); }
    }
  }

  /** If all bins above `idx` are empty, no place is there. */
  lemma NoLater(sizes: map<Pos, int>, idx: int, roots: set<int>)
    requires Trie(sizes) && (forall j :: idx < j < 32 ==> j !in roots)
    requires forall i {:trigger RootOf(i)} :: i in roots <==> RootOf(i) in sizes
    ensures forall u :: u in sizes ==> Bin(u) <= idx
  {
    forall u | u in sizes ensures Bin(u) <= idx {
      BinBounds(sizes, u);
      UnderRoot(sizes, u);
      assert RootOf(Bin(u)) in sizes;
    }
  }

  /** `tmalloc_small` starts at the root of the first non-empty tree bin. */
  lemma SmallStart(m: Mem, gm: int, lo: int, hi: int, b: Binned, ix: Index, smallmap: int, treemap: nat, nb: int)
    requires Indexed(m, gm, lo, hi, b, ix, smallmap, treemap) && nb < MIN_LARGE_SIZE && treemap != 0
    ensures var i := BM.Bit2Idx(BM.LeastBit(treemap));
            0 <= i < 32 && i in ix.roots && RootOf(i) in ix.nodes && Narrowing(b, ix, nb, RootOf(i), ix.nodes[RootOf(i)], WORD)
  {
    hide Indexed; hide Trie; hide Narrowed; hide BM.LeastBit; hide BM.Bit2Idx; hide Least;
    var sizes := Sizes(ix.nodes, b);
    var i := BM.Bit2Idx(BM.LeastBit(treemap));
    TrieFacts(m, gm, lo, hi, b, ix, smallmap, treemap);
    MapFacts(m, gm, lo, hi, b, ix, smallmap, treemap);
    BM.LowestBin(treemap, ix.roots.Keys);
    RootPlaces(m, gm, lo, hi, b, ix, smallmap, treemap);
    AllLarge(sizes, nb);
    assert forall j {:trigger RootOf(j)} :: -1 < j < i ==> RootOf(j) !in sizes;
    TurnToBin(sizes, nb, -1, i);
  }

  lemma AllLarge(sizes: map<Pos, int>, nb: int)
    requires Trie(sizes) && nb < MIN_LARGE_SIZE
    ensures forall u :: u in sizes ==> nb <= sizes[u] && Bin(u) > -1
  {
    forall u | u in sizes ensures nb <= sizes[u] && Bin(u) > -1 { assert SizeAt(sizes[u], u); }
  }

  /** The size word of a tree node. */
  lemma NodeSize(m: Mem, gm: int, lo: int, hi: int, b: Binned, ix: Index, smallmap: int, treemap: int, q: Pos)
    requires Indexed(m, gm, lo, hi, b, ix, smallmap, treemap) && Mapped(m, gm, lo, hi) && Heads(m, b)
    requires q in ix.nodes
    ensures var t := ix.nodes[q];
            && t in b && t in ix.at && t > 0 && t + 4 in m && SizeOf(m[t + 4]) == b[t] && MIN_LARGE_SIZE <= b[t] < WORD && InBin(b[t], Bin(q))
  {
    hide Indexed; hide Mapped; hide Trie; hide InBin;
    TrieFacts(m, gm, lo, hi, b, ix, smallmap, treemap);
    HeadMapped(m, gm, lo, hi, b, ix, smallmap, treemap, ix.nodes[q]);
    PlaceSize(Sizes(ix.nodes, b), q);
  }

  lemma PlaceSize(sizes: map<Pos, int>, q: Pos)
    requires Trie(sizes) && q in sizes
    ensures MIN_LARGE_SIZE <= sizes[q] < WORD && InBin(sizes[q], Bin(q))
  {
    assert SizeAt(sizes[q], q);
  }

  /** Small sizes show in the small map; all sizes are chunk sizes. */
  lemma BinSizes(m: Mem, gm: int, lo: int, hi: int, b: Binned, ix: Index, smallmap: nat, treemap: int)
    requires Indexed(m, gm, lo, hi, b, ix, smallmap, treemap)
    ensures smallmap < WORD && BM.Shows(smallmap, ix.smalls) && forall i :: i in ix.smalls ==> 0 <= i < 32
    ensures forall p :: p in b ==> b[p] < WORD && b[p] == 8 * (b[p] / 8) && (IsSmall(b[p]) ==> b[p] / 8 in ix.smalls)
  {
    hide Indexed; hide BM.Shows; hide Trie; hide Seated; hide Shape; hide Listed;
    SmallFacts(m, gm, lo, hi, b, ix, smallmap, treemap);
    TrieFacts(m, gm, lo, hi, b, ix, smallmap, treemap);
    forall p | p in b ensures b[p] == 8 * (b[p] / 8) { EightFold(m, gm, lo, hi, b, ix, smallmap, treemap, p); }
  }

  lemma EightFold(m: Mem, gm: int, lo: int, hi: int, b: Binned, ix: Index, smallmap: int, treemap: int, p: int)
    requires Indexed(m, gm, lo, hi, b, ix, smallmap, treemap) && p in b
    ensures b[p] == 8 * (b[p] / 8)
  {
    hide Listed; hide AllRings; hide AllTagged; hide Trees; hide Trie; hide Seated; hide Maps;
    assert Sized(p, b[p], lo, hi);
  }

  lemma NoTrees(m: Mem, gm: int, lo: int, hi: int, b: Binned, ix: Index, smallmap: int, treemap: nat)
    requires Indexed(m, gm, lo, hi, b, ix, smallmap, treemap) && treemap == 0
    ensures forall p :: p in b ==> IsSmall(b[p])
  {
    hide Indexed; hide Trie; hide Seated; hide Listed;
    TrieFacts(m, gm, lo, hi, b, ix, smallmap, treemap);
    MapFacts(m, gm, lo, hi, b, ix, smallmap, treemap);
    RootPlaces(m, gm, lo, hi, b, ix, smallmap, treemap);
    forall i | 0 <= i < 32 ensures i !in ix.roots { BM.ZeroBit(i); }
    NoLater(Sizes(ix.nodes, b), -1, ix.roots.Keys);
    forall p | p in b && !IsSmall(b[p]) ensures false { HasNode(b, ix, p); }
  }

  lemma HasNode(b: Binned, ix: Index, p: int)
    requires Seated(b, ix) && Listed(b, ix.lists) && Trie(Sizes(ix.nodes, b)) && p in b && !IsSmall(b[p])
    ensures exists u :: u in Sizes(ix.nodes, b) && Bin(u) >= 0
  {
    var x := ix.lists[b[p]][0];
    assert x in ix.at && ix.at[x] in Sizes(ix.nodes, b);
    PlaceSize(Sizes(ix.nodes, b), ix.at[x]);
  }
}
