/** The pointer structure of the tree bins: child, parent and index words, and the array of roots. */
module TreeLinks {
  import opened Words
  import opened SizeTrie

  const LEFT := 16
  const RIGHT := 20
  const PARENT := 24
  const INDEX := 28

  /** Address of `treebins[i]`; the bin arrays start at `gm`. */
  function TreeBin(gm: int, i: int): int { gm + 264 + 4 * i }

  function ChildWord(x: int, right: bool): int { x + if right then RIGHT else LEFT }

  /** Address of the node at each place. */
  type Nodes = map<Pos, int>

  function NodeAt(a: Nodes, q: Pos): int { if q in a then a[q] else 0 }

  /** The word that points to the node at `q`. */
  function Slot(gm: int, a: Nodes, q: Pos): int {
    if q.Kid? then ChildWord(NodeAt(a, q.up), q.right) else TreeBin(gm, q.bin)
  }

  /** What a node's parent word holds: its parent's address, or the address of the bin's root pointer. */
  function ParentOf(gm: int, a: Nodes, q: Pos): int {
    if q.Kid? then NodeAt(a, q.up) else TreeBin(gm, q.bin)
  }

  ghost predicate Placed(m: Mem, gm: int, a: Nodes, q: Pos)
    requires q in a
  {
    && Rd(m, a[q] + LEFT) == NodeAt(a, Kid(q, false))
    && Rd(m, a[q] + RIGHT) == NodeAt(a, Kid(q, true))
    && Rd(m, a[q] + PARENT) == ParentOf(gm, a, q)
    && Rd(m, a[q] + INDEX) == Bin(q)
  }

  /** 32 bytes of node words at `x` and at `y` do not overlap. */
  ghost predicate Clear(x: int, y: int) { x + 32 <= y || y + 32 <= x }

  /** The node words at `x` lie outside the bin arrays. */
  ghost predicate OffBins(gm: int, x: int) { x + 32 <= gm || gm + 392 <= x }

  /** Places hang together, nodes do not overlap; `roots` names the root place of each non-empty bin. */
  ghost predicate Shape(gm: int, a: Nodes, roots: map<int, Pos>) {
    && gm > 0
    && (forall q :: q in a ==> a[q] > 0 && OffBins(gm, a[q]))
    && (forall q :: q in a && q.Kid? ==> q.up in a)
    && (forall q, r {:trigger Clear(a[q], a[r])} :: q in a && r in a && q != r ==> Clear(a[q], a[r]))
    && (forall q :: q in a && q.Root? ==> q.bin in roots && roots[q.bin] == q)
    && (forall i :: i in roots ==> 0 <= i < 32 && roots[i] in a && roots[i].Root? && roots[i].bin == i)
  }

  ghost predicate Rooted(m: Mem, gm: int, a: Nodes, roots: map<int, Pos>) {
    forall i :: 0 <= i < 32 ==> Rd(m, TreeBin(gm, i)) == if i in roots then NodeAt(a, roots[i]) else 0
  }

  ghost predicate Trees(m: Mem, gm: int, a: Nodes, roots: map<int, Pos>) {
    && Shape(gm, a, roots)
    && Rooted(m, gm, a, roots)
    && (forall q {:trigger Placed(m, gm, a, q)} :: q in a ==> Placed(m, gm, a, q))
  }

  lemma TreesKeep(m: Mem, m': Mem, gm: int, a: Nodes, roots: map<int, Pos>)
    requires Trees(m, gm, a, roots)
    requires forall q :: q in a ==> Rd(m', a[q] + LEFT) == Rd(m, a[q] + LEFT) && Rd(m', a[q] + RIGHT) == Rd(m, a[q] + RIGHT)
                                    && Rd(m', a[q] + PARENT) == Rd(m, a[q] + PARENT) && Rd(m', a[q] + INDEX) == Rd(m, a[q] + INDEX)
    requires forall i :: 0 <= i < 32 ==> Rd(m', TreeBin(gm, i)) == Rd(m, TreeBin(gm, i))
    ensures Trees(m', gm, a, roots)
  {
    forall q {:trigger Placed(m', gm, a, q)} | q in a ensures Placed(m', gm, a, q) {
      assert Placed(m, gm, a, q);
    }
  }

  // ---- A new leaf ----

  ghost function WithRoot(roots: map<int, Pos>, q: Pos): map<int, Pos> {
    if q.Root? then roots[q.bin := q] else roots
  }

  ghost predicate CanPlant(gm: int, a: Nodes, roots: map<int, Pos>, q: Pos, x: int) {
    && q !in a && (if q.Kid? then q.up in a else q.bin !in roots && 0 <= q.bin < 32)
    && Kid(q, false) !in a && Kid(q, true) !in a
    && x > 0 && OffBins(gm, x) && (forall r {:trigger Clear(x, a[r])} :: r in a ==> Clear(x, a[r]))
  }

  /** The node `x` is set up without children and linked into the slot of `q`. */
  ghost predicate Planted(m: Mem, m': Mem, gm: int, a: Nodes, q: Pos, x: int) {
    && Only(m, m', {x + LEFT, x + RIGHT, x + PARENT, x + INDEX, Slot(gm, a, q)})
    && Rd(m', x + LEFT) == 0 && Rd(m', x + RIGHT) == 0 && Rd(m', x + INDEX) == Bin(q)
    && Rd(m', x + PARENT) == ParentOf(gm, a, q) && Rd(m', Slot(gm, a, q)) == x
  }

  lemma {:induction false} PlantPlaced(m: Mem, m': Mem, gm: int, a: Nodes, roots: map<int, Pos>, q: Pos, x: int, r: Pos)
    requires Trees(m, gm, a, roots) && CanPlant(gm, a, roots, q, x) && Planted(m, m', gm, a, q, x) && r in a
    ensures Placed(m', gm, a[q := x], r)
  {
    assert Placed(m, gm, a, r) && Clear(x, a[r]);
    if q.Kid? && q.up != r { assert Clear(a[q.up], a[r]); }
  }

  lemma {:induction false} PlantShape(gm: int, a: Nodes, roots: map<int, Pos>, q: Pos, x: int)
    requires Shape(gm, a, roots) && CanPlant(gm, a, roots, q, x)
    ensures Shape(gm, a[q := x], WithRoot(roots, q))
  {
    var a' := a[q := x];
    forall r, s {:trigger Clear(a'[r], a'[s])} | r in a' && s in a' && r != s ensures Clear(a'[r], a'[s]) {
      if r == q { assert Clear(x, a[s]); } else if s == q { assert Clear(x, a[r]); } else { assert Clear(a[r], a[s]); }
    }
  }

  lemma {:induction false} PlantRooted(m: Mem, m': Mem, gm: int, a: Nodes, roots: map<int, Pos>, q: Pos, x: int)
    requires Trees(m, gm, a, roots) && CanPlant(gm, a, roots, q, x) && Planted(m, m', gm, a, q, x)
    ensures Rooted(m', gm, a[q := x], WithRoot(roots, q))
  {
    if q.Kid? { assert OffBins(gm, a[q.up]); }
  }

  lemma {:induction false} Plant(m: Mem, m': Mem, gm: int, a: Nodes, roots: map<int, Pos>, q: Pos, x: int)
    requires Trees(m, gm, a, roots) && CanPlant(gm, a, roots, q, x) && Planted(m, m', gm, a, q, x)
    ensures Trees(m', gm, a[q := x], WithRoot(roots, q))
  {
    var a' := a[q := x];
    PlantShape(gm, a, roots, q, x);
    PlantRooted(m, m', gm, a, roots, q, x);
    forall r {:trigger Placed(m', gm, a', r)} | r in a' ensures Placed(m', gm, a', r) {
      if r != q { PlantPlaced(m, m', gm, a, roots, q, x, r); }
    }
  }

  // ---- A leaf taken out ----

  /** The slot of `q` is emptied. */
  ghost predicate Plucked(m: Mem, m': Mem, gm: int, a: Nodes, q: Pos) {
    Only(m, m', {Slot(gm, a, q)}) && Rd(m', Slot(gm, a, q)) == 0
  }

  ghost function WithoutRoot(roots: map<int, Pos>, q: Pos): map<int, Pos> {
    if q.Root? then roots - {q.bin} else roots
  }

  lemma {:induction false} PluckPlaced(m: Mem, m': Mem, gm: int, a: Nodes, roots: map<int, Pos>, q: Pos, r: Pos)
    requires Trees(m, gm, a, roots) && q in a && Plucked(m, m', gm, a, q) && r in a && r != q
    requires Kid(q, false) !in a && Kid(q, true) !in a
    ensures Placed(m', gm, a - {q}, r)
  {
    assert Placed(m, gm, a, r);
    if q.Kid? && q.up != r { assert Clear(a[q.up], a[r]); }
    if r.Kid? { assert r == Kid(r.up, r.right); }
  }

  lemma {:induction false} PluckShape(gm: int, a: Nodes, roots: map<int, Pos>, q: Pos)
    requires Shape(gm, a, roots) && q in a && Kid(q, false) !in a && Kid(q, true) !in a
    ensures Shape(gm, a - {q}, WithoutRoot(roots, q))
  {
    var a' := a - {q};
    forall r | r in a' && r.Kid? ensures r.up in a' { assert r == Kid(r.up, r.right); }
    forall r, s {:trigger Clear(a'[r], a'[s])} | r in a' && s in a' && r != s ensures Clear(a'[r], a'[s]) {
      assert Clear(a[r], a[s]);
    }
  }

  lemma {:induction false} PluckRooted(m: Mem, m': Mem, gm: int, a: Nodes, roots: map<int, Pos>, q: Pos)
    requires Trees(m, gm, a, roots) && q in a && Plucked(m, m', gm, a, q)
    ensures Rooted(m', gm, a - {q}, WithoutRoot(roots, q))
  {
    if q.Kid? { assert OffBins(gm, a[q.up]); }
  }

  lemma {:induction false} Pluck(m: Mem, m': Mem, gm: int, a: Nodes, roots: map<int, Pos>, q: Pos)
    requires Trees(m, gm, a, roots) && q in a && Plucked(m, m', gm, a, q)
    requires Kid(q, false) !in a && Kid(q, true) !in a
    ensures Trees(m', gm, a - {q}, WithoutRoot(roots, q))
  {
    var a' := a - {q};
    PluckShape(gm, a, roots, q);
    PluckRooted(m, m', gm, a, roots, q);
    forall r {:trigger Placed(m', gm, a', r)} | r in a' ensures Placed(m', gm, a', r) {
      PluckPlaced(m, m', gm, a, roots, q, r);
    }
  }

  // ---- A node replaced by another at the same place ----

  ghost function KidWords(c: int): set<int> { if c != 0 then {c + PARENT} else {} }

  /** The slot of `q` and the children of its node now belong to `y`, which had no children. */
  ghost predicate Swapped(m: Mem, m': Mem, gm: int, a: Nodes, q: Pos, y: int) {
    var c0, c1 := NodeAt(a, Kid(q, false)), NodeAt(a, Kid(q, true));
    && Only(m, m', {y + LEFT, y + RIGHT, y + PARENT, Slot(gm, a, q)} + KidWords(c0) + KidWords(c1))
    && Rd(m', y + LEFT) == c0 && Rd(m', y + RIGHT) == c1 && Rd(m', y + PARENT) == ParentOf(gm, a, q)
    && Rd(m', Slot(gm, a, q)) == y
    && (c0 != 0 ==> Rd(m', c0 + PARENT) == y) && (c1 != 0 ==> Rd(m', c1 + PARENT) == y)
  }

  ghost predicate CanSwap(m: Mem, gm: int, a: Nodes, q: Pos, y: int) {
    && q in a && Rd(m, y + INDEX) == Bin(q)
    && y > 0 && OffBins(gm, y) && (forall r {:trigger Clear(y, a[r])} :: r in a ==> Clear(y, a[r]))
  }

  lemma {:induction false} SwapPlacedSelf(m: Mem, m': Mem, gm: int, a: Nodes, roots: map<int, Pos>, q: Pos, y: int)
    requires Trees(m, gm, a, roots) && CanSwap(m, gm, a, q, y) && Swapped(m, m', gm, a, q, y)
    ensures Placed(m', gm, a[q := y], q)
  {
    assert Exp(Kid(q, false)) != Exp(q) && Exp(Kid(q, true)) != Exp(q);
    if q.Kid? { assert OffBins(gm, a[q.up]) && Clear(y, a[q.up]) && Exp(q.up) != Exp(q); }
    if Kid(q, false) in a { assert Clear(y, a[Kid(q, false)]); }
    if Kid(q, true) in a { assert Clear(y, a[Kid(q, true)]); }
  }

  lemma {:induction false} SwapPlacedOther(m: Mem, m': Mem, gm: int, a: Nodes, roots: map<int, Pos>, q: Pos, y: int,
                                           r: Pos)
    requires Trees(m, gm, a, roots) && CanSwap(m, gm, a, q, y) && Swapped(m, m', gm, a, q, y) && r in a && r != q
    ensures Placed(m', gm, a[q := y], r)
  {
    assert Placed(m, gm, a, r) && Clear(y, a[r]);
    if q.Kid? && q.up != r { assert Clear(a[q.up], a[r]); }
    if Kid(q, false) in a && Kid(q, false) != r { assert Clear(a[Kid(q, false)], a[r]); }
    if Kid(q, true) in a && Kid(q, true) != r { assert Clear(a[Kid(q, true)], a[r]); }
    if r.Kid? { assert r == Kid(r.up, r.right); }
  }

  lemma {:induction false} SwapShape(m: Mem, gm: int, a: Nodes, roots: map<int, Pos>, q: Pos, y: int)
    requires Shape(gm, a, roots) && CanSwap(m, gm, a, q, y)
    ensures Shape(gm, a[q := y], roots)
  {
    var a' := a[q := y];
    forall r, s {:trigger Clear(a'[r], a'[s])} | r in a' && s in a' && r != s ensures Clear(a'[r], a'[s]) {
      if r == q { assert Clear(y, a[s]); } else if s == q { assert Clear(y, a[r]); } else { assert Clear(a[r], a[s]); }
    }
  }

  lemma {:induction false} SwapRooted(m: Mem, m': Mem, gm: int, a: Nodes, roots: map<int, Pos>, q: Pos, y: int)
    requires Trees(m, gm, a, roots) && CanSwap(m, gm, a, q, y) && Swapped(m, m', gm, a, q, y)
    ensures Rooted(m', gm, a[q := y], roots)
  {
    if q.Kid? { assert OffBins(gm, a[q.up]); }
    if Kid(q, false) in a { assert OffBins(gm, a[Kid(q, false)]); }
    if Kid(q, true) in a { assert OffBins(gm, a[Kid(q, true)]); }
  }

  lemma {:induction false} Swap(m: Mem, m': Mem, gm: int, a: Nodes, roots: map<int, Pos>, q: Pos, y: int)
    requires Trees(m, gm, a, roots) && CanSwap(m, gm, a, q, y) && Swapped(m, m', gm, a, q, y)
    ensures Trees(m', gm, a[q := y], roots)
  {
    var a' := a[q := y];
    SwapShape(m, gm, a, roots, q, y);
    SwapRooted(m, m', gm, a, roots, q, y);
    SwapPlacedSelf(m, m', gm, a, roots, q, y);
    forall r {:trigger Placed(m', gm, a', r)} | r in a' ensures Placed(m', gm, a', r) {
      if r != q { SwapPlacedOther(m, m', gm, a, roots, q, y, r); }
    }
  }
}
