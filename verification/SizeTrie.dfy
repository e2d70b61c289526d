/** The tree bins as tries of sizes: each level of a tree halves the range of sizes below it. */
module SizeTrie {
  import opened Words
  import opened TreeIndex

  /** A place in a tree: the root of a bin, covering the 2^exp sizes from lo, or the left or right child of a place. */
  datatype Pos = Root(bin: int, lo: int, exp: int) | Kid(up: Pos, right: bool)

  function Bin(q: Pos): int {
    match q case Root(i, _, _) => i case Kid(u, _) => Bin(u)
  }

  /** log2 of the number of sizes a place may hold. */
  function Exp(q: Pos): int {
    match q case Root(_, _, e) => e case Kid(u, _) => Exp(u) - 1
  }

  function Span(q: Pos): int { Pow2(Exp(q)) }

  /** Least size a place may hold. */
  function Lo(q: Pos): int {
    match q
    case Root(_, lo, _) => lo
    case Kid(u, r) => if r then Lo(u) + Pow2(Exp(u) - 1) else Lo(u)
  }

  /** The root of bin i; the last bin spans all 32-bit sizes. */
  function RootOf(i: int): Pos {
    if i == NTREEBINS - 1 then Root(i, 0, 32) else Root(i, BinLo(i), i / 2 + 7)
  }

  ghost predicate IsRoot(q: Pos) { q.Root? && q == RootOf(q.bin) }

  ghost predicate InSpan(s: int, q: Pos) { Lo(q) <= s < Lo(q) + Span(q) }

  /** `u` is `q` or lies below it. */
  ghost predicate Under(u: Pos, q: Pos) {
    u == q || (u.Kid? && Under(u.up, q))
  }

  ghost predicate SizeAt(s: int, q: Pos) {
    MIN_LARGE_SIZE <= s < WORD && s % 8 == 0 && InSpan(s, q) && InBin(s, Bin(q))
  }

  /** Size stored at each place; parents are present, sizes respect the ranges, no size occurs twice. */
  ghost predicate Trie(t: map<Pos, int>) {
    && (forall q {:trigger SizeAt(t[q], q)} :: q in t ==> SizeAt(t[q], q))
    && (forall q {:trigger IsRoot(q)} :: q in t && q.Root? ==> IsRoot(q))
    && (forall q :: q in t && q.Kid? ==> q.up in t)
    && (forall q, r :: q in t && r in t && t[q] == t[r] ==> q == r)
  }

  lemma {:induction false} RootSpan(s: int, i: int)
    requires InBin(s, i) && s < WORD
    ensures InSpan(s, RootOf(i))
  {
    if i == NTREEBINS - 1 {
      WordIsPow2();
      BinLoMonotone(0, i);
    }
  }

  /** Two different sizes in one range leave room for another level. */
  lemma {:induction false} RoomBelow(s: int, s': int, q: Pos)
    requires InSpan(s, q) && InSpan(s', q) && s % 8 == 0 && s' % 8 == 0 && s != s'
    ensures Exp(q) >= 4 && Span(q) == 2 * Pow2(Exp(q) - 1)
  {
    if Exp(q) < 4 {
      assert Pow2(3) == 8;
      Pow2Monotone(Exp(q), 3);
    }
  }

  lemma {:induction false} UnderSpan(u: Pos, q: Pos)
    requires Under(u, q) && Exp(u) >= 0
    ensures Lo(q) <= Lo(u) && Lo(u) + Span(u) <= Lo(q) + Span(q) && Bin(u) == Bin(q)
    decreases u
  {
    if u != q {
      UnderSpan(u.up, q);
    }
  }

  /** Below `q` means at `q` or below one of its two children. */
  lemma {:induction false} Descend(t: map<Pos, int>, u: Pos, q: Pos)
    requires Trie(t) && u in t && Under(u, q) && u != q
    ensures exists b :: Kid(q, b) in t && Under(u, Kid(q, b))
    decreases u
  {
    if u.up == q {
      assert Kid(q, u.right) in t && Under(u, Kid(q, u.right));
    } else {
      Descend(t, u.up, q);
      var b :| Kid(q, b) in t && Under(u.up, Kid(q, b));
      assert Under(u, Kid(q, b));
    }
  }

  lemma {:induction false} UnderRoot(t: map<Pos, int>, u: Pos)
    requires Trie(t) && u in t
    ensures Under(u, RootOf(Bin(u))) && RootOf(Bin(u)) in t
    decreases u
  {
    if u.Kid? { UnderRoot(t, u.up); } else { assert IsRoot(u); }
  }

  lemma {:induction false} UnderTransitive(u: Pos, q: Pos, r: Pos)
    requires Under(u, q) && Under(q, r)
    ensures Under(u, r)
    decreases u
  {
    if u != q { UnderTransitive(u.up, q, r); }
  }

  /** First size of the upper half of a place. */
  ghost function Mid(q: Pos): int { Lo(q) + Pow2(Exp(q) - 1) }

  ghost function Hi(q: Pos): int { Lo(q) + Span(q) }

  lemma {:induction false} KidRanges(q: Pos)
    requires Exp(q) >= 1
    ensures Lo(Kid(q, false)) == Lo(q) && Hi(Kid(q, false)) == Mid(q)
    ensures Lo(Kid(q, true)) == Mid(q) && Hi(Kid(q, true)) == Hi(q) && Lo(q) < Mid(q) < Hi(q)
  {
    assert Span(q) == 2 * Pow2(Exp(q) - 1);
  }

  /** Places in a trie are never deeper than the size bits allow. */
  lemma {:induction false} PresentExp(t: map<Pos, int>, u: Pos)
    requires Trie(t) && u in t
    ensures Exp(u) >= 3
    decreases u
  {
    if u.Kid? {
      assert u.up in t && SizeAt(t[u], u) && SizeAt(t[u.up], u.up);
      PresentExp(t, u.up);
      KidRanges(u.up);
      RoomBelow(t[u], t[u.up], u.up);
    } else {
      assert SizeAt(t[u], u) && IsRoot(u);
    }
  }

  /** Every size stored below a place lies in its range. */
  lemma {:induction false} SizeBelow(t: map<Pos, int>, u: Pos, q: Pos)
    requires Trie(t) && u in t && Under(u, q)
    ensures Lo(q) <= t[u] < Hi(q)
  {
    PresentExp(t, u);
    UnderSpan(u, q);
    assert SizeAt(t[u], u);
  }

  // ---- Best fit, first phase: follow the bits of nb down its own bin ----

  /** An untaken right subtree, or none. */
  datatype Rest = NoRest | Rest(pos: Pos)

  /** Place `u` need not be looked at any more: it is too small, no better than `best`, still ahead below `q`,
      in a later bin, or in (or beyond) the remembered right subtree. `best` is WORD while nothing fits. */
  ghost predicate Handled(t: map<Pos, int>, nb: int, idx: int, ahead: Rest, best: int, rst: Rest, u: Pos)
    requires u in t
  {
    || t[u] < nb || best <= t[u] || Bin(u) > idx
    || (ahead.Rest? && Under(u, ahead.pos))
    || (rst.Rest? && (Under(u, rst.pos) || Hi(rst.pos) <= t[u]))
  }

  ghost predicate RestOk(t: map<Pos, int>, nb: int, idx: int, rst: Rest, bound: int) {
    rst.Rest? ==> rst.pos in t && Bin(rst.pos) == idx && nb < Lo(rst.pos) && bound <= Lo(rst.pos)
  }

  /** The search is at `q`; `best` is the least fitting size seen so far. */
  ghost predicate Searching(t: map<Pos, int>, nb: int, idx: int, q: Pos, best: int, rst: Rest) {
    && q in t && Bin(q) == idx && InSpan(nb, q)
    && RestOk(t, nb, idx, rst, Hi(q))
    && (forall u :: u in t ==> Handled(t, nb, idx, Rest(q), best, rst, u))
  }

  lemma SearchStart(t: map<Pos, int>, nb: int, idx: int)
    requires Trie(t) && InBin(nb, idx) && nb < WORD && RootOf(idx) in t
    ensures Searching(t, nb, idx, RootOf(idx), WORD, NoRest)
  {
    RootSpan(nb, idx);
    forall u | u in t ensures Handled(t, nb, idx, Rest(RootOf(idx)), WORD, NoRest, u) {
      assert SizeAt(t[u], u);
      BinsOrdered(t[u], Bin(u), nb, idx);
      UnderRoot(t, u);
    }
  }

  /** Which way the walk goes, and what it remembers. */
  ghost predicate GoesRight(nb: int, q: Pos) { Mid(q) <= nb }

  ghost function NextRest(t: map<Pos, int>, nb: int, q: Pos, rst: Rest): Rest {
    if !GoesRight(nb, q) && Kid(q, true) in t then Rest(Kid(q, true)) else rst
  }

  ghost function Ahead(t: map<Pos, int>, nb: int, q: Pos): Rest {
    if Kid(q, GoesRight(nb, q)) in t then Rest(Kid(q, GoesRight(nb, q))) else NoRest
  }

  lemma {:induction false} StepHandles(t: map<Pos, int>, nb: int, idx: int, q: Pos, best: int, best': int, rst: Rest,
                                       u: Pos)
    requires Trie(t) && Searching(t, nb, idx, q, best, rst) && Exp(q) >= 1
    requires best' <= best && (nb <= t[q] ==> best' <= t[q]) && u in t
    ensures Handled(t, nb, idx, Ahead(t, nb, q), best', NextRest(t, nb, q, rst), u)
  {
    assert Handled(t, nb, idx, Rest(q), best, rst, u);
    KidRanges(q);
    if Under(u, q) && u != q {
      Descend(t, u, q);
      var b :| Kid(q, b) in t && Under(u, Kid(q, b));
      SizeBelow(t, u, Kid(q, b));
    } else if rst.Rest? && Under(u, rst.pos) {
      SizeBelow(t, u, rst.pos);
    }
  }

  /** One step down keeps the search complete; stepping off the tree leaves only the remembered subtree. */
  lemma {:induction false} SearchStep(t: map<Pos, int>, nb: int, idx: int, q: Pos, best: int, best': int, rst: Rest)
    requires Trie(t) && Searching(t, nb, idx, q, best, rst) && Exp(q) >= 1
    requires best' <= best && (nb <= t[q] ==> best' <= t[q])
    ensures forall u :: u in t ==> Handled(t, nb, idx, Ahead(t, nb, q), best', NextRest(t, nb, q, rst), u)
    ensures RestOk(t, nb, idx, NextRest(t, nb, q, rst), Lo(q))
    ensures Ahead(t, nb, q).Rest? ==> Searching(t, nb, idx, Ahead(t, nb, q).pos, best', NextRest(t, nb, q, rst))
  {
    forall u | u in t ensures Handled(t, nb, idx, Ahead(t, nb, q), best', NextRest(t, nb, q, rst), u) {
      StepHandles(t, nb, idx, q, best, best', rst, u);
    }
    KidRanges(q);
  }

  // ---- Second phase: the least size below a place is on its leftmost path ----

  /** `best`, or something below `q`, is at most every fitting size. */
  ghost predicate Narrowed(t: map<Pos, int>, nb: int, q: Pos, best: int) {
    && q in t
    && (forall u :: u in t && Under(u, q) ==> nb <= t[u])
    && (forall u :: u in t && nb <= t[u] ==> best <= t[u] || Under(u, q) || Hi(q) <= t[u])
  }

  /** `leftmost_child` */
  ghost function LeftmostKid(t: map<Pos, int>, q: Pos): Rest {
    if Kid(q, false) in t then Rest(Kid(q, false)) else if Kid(q, true) in t then Rest(Kid(q, true)) else NoRest
  }

  lemma {:induction false} NarrowOne(t: map<Pos, int>, nb: int, q: Pos, best: int, best': int, u: Pos)
    requires Trie(t) && Narrowed(t, nb, q, best) && best' <= best && best' <= t[q]
    requires u in t && nb <= t[u]
    ensures var k := LeftmostKid(t, q);
            best' <= t[u] || (k.Rest? && (Under(u, k.pos) || Hi(k.pos) <= t[u]))
  {
    PresentExp(t, q);
    KidRanges(q);
    SizeBelow(t, q, q);
    if Under(u, q) && u != q {
      Descend(t, u, q);
      var b :| Kid(q, b) in t && Under(u, Kid(q, b));
      SizeBelow(t, u, Kid(q, b));
    }
  }

  lemma {:induction false} NarrowStep(t: map<Pos, int>, nb: int, q: Pos, best: int, best': int)
    requires Trie(t) && Narrowed(t, nb, q, best) && best' <= best && best' <= t[q]
    ensures LeftmostKid(t, q).Rest? ==> Narrowed(t, nb, LeftmostKid(t, q).pos, best')
    ensures LeftmostKid(t, q).NoRest? ==> forall u :: u in t && nb <= t[u] ==> best' <= t[u]
  {
    var k := LeftmostKid(t, q);
    forall u | u in t && nb <= t[u] ensures best' <= t[u] || (k.Rest? && (Under(u, k.pos) || Hi(k.pos) <= t[u])) {
      NarrowOne(t, nb, q, best, best', u);
    }
    if k.Rest? {
      forall u | u in t && Under(u, k.pos) ensures nb <= t[u] { UnderTransitive(u, k.pos, q); }
    }
  }

  // ---- From the first phase to the second ----

  lemma {:induction false} BelowNextBin(t: map<Pos, int>, r: Pos)
    requires Trie(t) && r in t && 0 <= Bin(r) < NTREEBINS - 1
    ensures Hi(r) <= BinLo(Bin(r) + 1)
  {
    PresentExp(t, r);
    UnderRoot(t, r);
    UnderSpan(r, RootOf(Bin(r)));
    assert Hi(RootOf(Bin(r))) == BinLo(Bin(r) + 1);
  }

  lemma {:induction false} BinBounds(t: map<Pos, int>, u: Pos)
    requires Trie(t) && u in t
    ensures 0 <= Bin(u) < NTREEBINS && BinLo(Bin(u)) <= t[u]
  {
    assert SizeAt(t[u], u);
  }

  /** Sizes of a later bin are beyond every place of an earlier one. */
  lemma {:induction false} LaterBin(t: map<Pos, int>, u: Pos, r: Pos)
    requires Trie(t) && u in t && r in t && Bin(r) < Bin(u)
    ensures Hi(r) <= t[u]
  {
    BinBounds(t, u);
    BinBounds(t, r);
    BelowNextBin(t, r);
    BinLoMonotone(Bin(r) + 1, Bin(u));
  }

  /** The walk fell off the tree: the remembered subtree is where the rest of the answer can be. */
  lemma {:induction false} TurnToRest(t: map<Pos, int>, nb: int, idx: int, best: int, r: Pos, bound: int)
    requires Trie(t) && RestOk(t, nb, idx, Rest(r), bound)
    requires forall u :: u in t ==> Handled(t, nb, idx, NoRest, best, Rest(r), u)
    ensures Narrowed(t, nb, r, best)
  {
    forall u | u in t && Under(u, r) ensures nb <= t[u] { SizeBelow(t, u, r); }
    forall u | u in t && nb <= t[u] ensures best <= t[u] || Under(u, r) || Hi(r) <= t[u] {
      assert Handled(t, nb, idx, NoRest, best, Rest(r), u);
      if Bin(u) > idx { LaterBin(t, u, r); }
    }
  }

  /** Nothing remembered: what was found in the bin beats all later bins. */
  lemma FoundInBin(t: map<Pos, int>, nb: int, idx: int, best: int)
    requires Trie(t) && InBin(best, idx)
    requires forall u :: u in t ==> Handled(t, nb, idx, NoRest, best, NoRest, u)
    ensures forall u :: u in t && nb <= t[u] ==> best <= t[u]
  {
    forall u | u in t && nb <= t[u] ensures best <= t[u] {
      assert Handled(t, nb, idx, NoRest, best, NoRest, u);
      assert SizeAt(t[u], u);
      BinsOrdered(best, idx, t[u], Bin(u));
    }
  }

  /** An empty bin has no place for the search to handle. */
  lemma EmptyBin(t: map<Pos, int>, nb: int, idx: int)
    requires Trie(t) && InBin(nb, idx) && RootOf(idx) !in t
    ensures forall u :: u in t ==> Handled(t, nb, idx, NoRest, WORD, NoRest, u)
  {
    forall u | u in t ensures Handled(t, nb, idx, NoRest, WORD, NoRest, u) {
      assert SizeAt(t[u], u);
      UnderRoot(t, u);
      BinsOrdered(t[u], Bin(u), nb, idx);
    }
  }

  /** Nothing fits in bin `idx`: the next non-empty bin holds the answer. */
  lemma TurnToBin(t: map<Pos, int>, nb: int, idx: int, i: int)
    requires Trie(t) && idx < i && RootOf(i) in t
    requires forall j :: idx < j < i ==> RootOf(j) !in t
    requires forall u :: u in t ==> t[u] < nb || Bin(u) > idx
    requires forall u :: u in t && Bin(u) > idx ==> nb <= t[u]
    ensures Narrowed(t, nb, RootOf(i), WORD)
  {
    forall u | u in t && Under(u, RootOf(i)) ensures nb <= t[u] {
      PresentExp(t, u);
      UnderSpan(u, RootOf(i));
    }
    forall u | u in t && nb <= t[u] ensures Under(u, RootOf(i)) || Hi(RootOf(i)) <= t[u] {
      UnderRoot(t, u);
      if Bin(u) != i { LaterBin(t, u, RootOf(i)); }
    }
  }

  // ---- Updates ----

  lemma TrieInsert(t: map<Pos, int>, q: Pos, s: int)
    requires Trie(t) && q !in t && (if q.Kid? then q.up in t else IsRoot(q)) && SizeAt(s, q)
    requires forall r :: r in t ==> t[r] != s
    ensures Trie(t[q := s])
  {
  }

  lemma TrieRemoveLeaf(t: map<Pos, int>, q: Pos)
    requires Trie(t) && Kid(q, false) !in t && Kid(q, true) !in t
    ensures Trie(t - {q})
  {
    var t' := t - {q};
    forall r | r in t' && r.Kid? ensures r.up in t' { assert r == Kid(r.up, r.right); }
    forall r {:trigger SizeAt(t'[r], r)} | r in t' ensures SizeAt(t'[r], r) { assert SizeAt(t[r], r); }
  }

  /** An interior node may be replaced by any leaf below it. */
  lemma {:induction false} TrieReplace(t: map<Pos, int>, q: Pos, leaf: Pos)
    requires Trie(t) && q in t && leaf in t && leaf != q && Under(leaf, q)
    requires Kid(leaf, false) !in t && Kid(leaf, true) !in t
    ensures Trie((t - {leaf})[q := t[leaf]])
  {
    TrieRemoveLeaf(t, leaf);
    SizeBelow(t, leaf, q);
    assert SizeAt(t[leaf], leaf);
    PresentExp(t, leaf);
    UnderSpan(leaf, q);
    var t' := (t - {leaf})[q := t[leaf]];
    forall r {:trigger SizeAt(t'[r], r)} | r in t' ensures SizeAt(t'[r], r) {
      if r != q { assert SizeAt((t - {leaf})[r], r); }
    }
  }

  // ---- The shifted size word that steers the walk ----

  /** `leftshift_for_tree_index` */
  function LeftShift(i: int): int { if i == NTREEBINS - 1 then 0 else 31 - (i / 2 + 6) }

  /** `bits` is `d` scaled from a range of `span` sizes to a whole word. */
  ghost predicate Scaled(bits: int, span: int, d: int) {
    0 <= bits < WORD && bits * span == d * WORD
  }

  /** The remaining bits of `s` below place `q`, shifted to the top of a word. */
  ghost predicate SizeBits(bits: int, s: int, q: Pos) {
    Scaled(bits, Span(q), s - Lo(q))
  }

  lemma {:induction false} Halve(bits: int, h: int, d: int)
    requires bits * (2 * h) == d * WORD
    ensures bits * h == d * 0x8000_0000
  {
  }

  lemma {:induction false} TopBitSays(bits: int, h: int, d: int)
    requires h >= 1 && bits * h == d * 0x8000_0000
    ensures h <= d <==> bits >= 0x8000_0000
  {
    var e := bits - 0x8000_0000;
    assert e * h == (d - h) * 0x8000_0000;
    assert e >= 0 ==> e * h >= 0;
    assert e < 0 ==> e * h < 0;
  }

  lemma {:induction false} TopBit(bits: int, h: int, d: int)
    requires h >= 1 && Scaled(bits, 2 * h, d)
    ensures h <= d <==> bits >= 0x8000_0000
    ensures Scaled(2 * bits % WORD, h, if h <= d then d - h else d)
  {
    Halve(bits, h, d);
    TopBitSays(bits, h, d);
    if h <= d {
      assert 2 * bits % WORD == 2 * bits - WORD;
      Drop(2 * bits, WORD, h);
    } else {
      assert 2 * bits % WORD == 2 * bits;
    }
  }

  lemma {:induction false} Drop(a: int, b: int, c: int)
    ensures (a - b) * c == a * c - b * c
  {
  }

  /** Shifting the word by one follows the halving of the range; its top bit chooses the half. */
  lemma {:induction false} SizeBitsStep(bits: int, s: int, q: Pos)
    requires SizeBits(bits, s, q) && InSpan(s, q) && Exp(q) >= 1
    ensures bits / 0x8000_0000 == (if GoesRight(s, q) then 1 else 0)
    ensures SizeBits(2 * bits % WORD, s, Kid(q, GoesRight(s, q)))
  {
    var h, d := Pow2(Exp(q) - 1), s - Lo(q);
    assert Span(q) == 2 * h;
    TopBit(bits, h, d);
    StepFacts(s, q);
  }

  lemma {:induction false} StepFacts(s: int, q: Pos)
    requires Exp(q) >= 1
    ensures var k := Kid(q, GoesRight(s, q)); var h := Pow2(Exp(q) - 1);
            Span(k) == h && s - Lo(k) == if h <= s - Lo(q) then s - Lo(q) - h else s - Lo(q)
  {
  }

  lemma {:induction false} ShlIsProduct(x: int, n: int) returns (c: int)
    requires 0 <= n && 0 <= x < WORD
    ensures x * Pow2(n) == Shl32(x, n) + c * WORD && 0 <= Shl32(x, n) < WORD
    decreases n
  {
    if n == 0 {
      c := 0;
    } else {
      var y, carry, p := 2 * x % WORD, 2 * x / WORD, Pow2(n - 1);
      var c' := ShlIsProduct(y, n - 1);
      c := c' + carry * p;
      Carry(x, y, carry, p);
      assert Shl32(x, n) == Shl32(y, n - 1);
    }
  }

  lemma Carry(x: int, y: int, carry: int, p: int)
    requires 2 * x == y + carry * WORD
    ensures x * (2 * p) == y * p + (carry * p) * WORD
  {
    calc {
      x * (2 * p);
      (2 * x) * p;
      (y + carry * WORD) * p;
      y * p + (carry * WORD) * p;
    }
  }

  lemma {:induction false} Pow2Product(a: int, b: int)
    requires 0 <= a && 0 <= b
    ensures Pow2(a) * Pow2(b) == Pow2(a + b)
    decreases a
  {
    if a > 0 { Pow2Product(a - 1, b); }
  }

  /** The word the walk starts with holds the bits of `s` below the root's range. */
  lemma SizeBitsStart(s: int, i: int)
    requires InBin(s, i) && 0 <= s < WORD
    ensures SizeBits(Shl32(s, LeftShift(i)), s, RootOf(i))
  {
    if i < NTREEBINS - 1 {
      HalfOctaveBits(s, i, i / 2);
    } else {
      WordIsPow2();
    }
  }

  lemma HalfOctaveBits(s: int, i: int, k: int)
    requires 0 <= i < NTREEBINS - 1 && InBin(s, i) && 0 <= s < WORD && k == i / 2
    ensures Scaled(Shl32(s, 25 - k), Pow2(k + 7), s - BinLo(i))
  {
    var p, f, w := Pow2(k + 7), Pow2(25 - k), Shl32(s, 25 - k);
    assert p * f == WORD by { WordIsPow2(); Pow2Product(k + 7, 25 - k); }
    var c := ShlIsProduct(s, 25 - k);
    MinSizeOf(k, i % 2);
    MinSizeIsBinLo(i);
    if i % 2 == 0 {
      TopAligned(s, 2, p, f, s - 2 * p, w, c);
    } else {
      TopAligned(s, 3, p, f, s - 3 * p, w, c);
    }
  }

  lemma TopAligned(s: int, m: int, p: int, f: int, d: int, w: int, c: int)
    requires p >= 1 && f >= 1 && p * f == WORD && s == m * p + d && 0 <= d < p
    requires s * f == w + c * WORD && 0 <= w < WORD
    ensures Scaled(w, p, d)
  {
    assert s * f == m * WORD + d * f by {
      assert s * f == (m * p) * f + d * f;
      assert (m * p) * f == m * (p * f);
    }
    assert 0 <= d * f < p * f;
    assert w - d * f == (m - c) * WORD;
    assert w * p == d * (f * p);
  }

  // ---- Looking for the place of a size ----

  /** The walk for size `s` is at `q`: if `s` is stored at all, it is here or below. */
  ghost predicate Seeking(t: map<Pos, int>, s: int, q: Pos) {
    q in t && InSpan(s, q) && forall u :: u in t && t[u] == s ==> Under(u, q)
  }

  lemma SeekStart(t: map<Pos, int>, s: int, i: int)
    requires Trie(t) && InBin(s, i) && s < WORD && RootOf(i) in t
    ensures Seeking(t, s, RootOf(i))
  {
    RootSpan(s, i);
    forall u | u in t && t[u] == s ensures Under(u, RootOf(i)) {
      assert SizeAt(t[u], u);
      BinsOrdered(t[u], Bin(u), s, i);
      UnderRoot(t, u);
    }
  }

  /** An empty bin holds no size of its range. */
  lemma SeekEmpty(t: map<Pos, int>, s: int, i: int)
    requires Trie(t) && InBin(s, i) && RootOf(i) !in t
    ensures forall u :: u in t ==> t[u] != s
  {
    forall u | u in t ensures t[u] != s {
      assert SizeAt(t[u], u);
      BinsOrdered(t[u], Bin(u), s, i);
      UnderRoot(t, u);
    }
  }

  lemma {:induction false} SeekStep(t: map<Pos, int>, s: int, q: Pos)
    requires Trie(t) && Seeking(t, s, q) && t[q] != s && s % 8 == 0
    ensures Exp(q) >= 4 && InSpan(s, Kid(q, GoesRight(s, q)))
    ensures var k := Kid(q, GoesRight(s, q)); if k in t then Seeking(t, s, k) else forall u :: u in t ==> t[u] != s
  {
    var k := Kid(q, GoesRight(s, q));
    assert SizeAt(t[q], q);
    RoomBelow(s, t[q], q);
    KidRanges(q);
    forall u | u in t && t[u] == s ensures k in t && Under(u, k) {
      Descend(t, u, q);
      var b :| Kid(q, b) in t && Under(u, Kid(q, b));
      SizeBelow(t, u, Kid(q, b));
    }
  }
}
