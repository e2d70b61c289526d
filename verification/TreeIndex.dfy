/** Which tree bin holds a size, and how the bits of a size steer the walk down a tree. */
module TreeIndex {
  import opened Words

  const NTREEBINS := 32
  const MIN_LARGE_SIZE := 256

  /** x & b, for a mask b of one bit */
  function AndBit(x: int, b: int): int
    requires b > 0
  {
    (x / b) % 2 * b
  }

  /** 32-bit unsigned subtraction */
  function Sub32(x: int, y: int): int { (x - y) % WORD }

  /** 32-bit left shift */
  function Shl32(x: int, n: int): int
    decreases n
  {
    if n <= 0 then x else Shl32(2 * x % WORD, n - 1)
  }

  /** Right shift */
  function Shr(x: int, n: int): int
    decreases n
  {
    if n <= 0 then x else Shr(x / 2, n - 1)
  }

  /** `minsize_for_tree_index` */
  function MinSize(i: int): int
    requires 0 <= i
  {
    Pow2(i / 2 + 8) + if i % 2 == 1 then Pow2(i / 2 + 7) else 0
  }

  /** The branch-free exponent of `compute_tree_index`, for 0 < x <= 0xFFFF. */
  function Log2Branchless(x: int): int {
    var n := AndBit(Sub32(x, 0x100) / 0x10000, 8);
    var y := Shl32(x, n);
    var k := AndBit(Sub32(y, 0x1000) / 0x10000, 4);
    var n := n + k;
    var y := Shl32(y, k);
    var k := AndBit(Sub32(y, 0x4000) / 0x10000, 2);
    var n := n + k;
    var y := Shl32(y, k);
    14 - n + y / 0x8000
  }

  /** `compute_tree_index` */
  function TreeIndexOf(s: int): int {
    var x := s / 256;
    if x == 0 then 0
    else if x > 0xFFFF then NTREEBINS - 1
    else
      var k := Log2Branchless(x);
      2 * k + Shr(s, k + 7) % 2
  }

  lemma {:induction false} ShlNoWrap(x: int, n: int)
    requires 0 <= n && 0 <= x && x * Pow2(n) < WORD
    ensures Shl32(x, n) == x * Pow2(n)
    decreases n
  {
    if n > 0 {
      hide Shl32;
      var p := Pow2(n - 1);
      assert Pow2(n) == 2 * p;
      hide Pow2;
      Regroup(x, p);
      ShlOnce(x, n);
      ShlNoWrap(2 * x, n - 1);
    }
  }

  lemma ShlOnce(x: int, n: int)
    requires 0 < n && 0 <= 2 * x < WORD
    ensures Shl32(x, n) == Shl32(2 * x, n - 1)
  {
  }

  lemma Regroup(x: int, p: int)
    requires 0 <= x && 1 <= p
    ensures x * (2 * p) == (2 * x) * p && 2 * x <= (2 * x) * p
  {
  }

  /** The subtract-and-mask trick: the shift of one stage is `step` exactly when the value is below `limit`. */
  lemma StageShift(y: int, limit: int, step: int)
    requires 0 < y <= 0xFFFF && 0 < limit <= 0x4000
    requires step == 8 || step == 4 || step == 2
    ensures AndBit(Sub32(y, limit) / 0x10000, step) == if y < limit then step else 0
  {
    if y < limit {
      assert Sub32(y, limit) == y - limit + WORD;
      assert Sub32(y, limit) / 0x10000 == 0xFFFF;
    } else {
      assert Sub32(y, limit) == y - limit;
      assert Sub32(y, limit) / 0x10000 == 0;
    }
  }

  /** One normalisation stage: a value below `limit` is shifted left by `step`. */
  lemma Stage(y: int, limit: int, step: int, factor: int) returns (k: int, y': int)
    requires 0 < y <= 0xFFFF && 0 < limit <= 0x4000 && factor == Pow2(step) && limit * factor <= 0x10000
    requires step == 8 || step == 4 || step == 2
    ensures k == AndBit(Sub32(y, limit) / 0x10000, step) && y' == Shl32(y, k)
    ensures if y < limit then k == step && y' == y * factor else k == 0 && y' == y
  {
    StageShift(y, limit, step);
    k := if y < limit then step else 0;
    y' := Shl32(y, k);
    if y < limit {
      assert y * factor <= limit * factor;
      ShlNoWrap(y, step);
    }
  }

  lemma SmallPowers()
    ensures Pow2(0) == 1 && Pow2(1) == 2 && Pow2(2) == 4 && Pow2(3) == 8 && Pow2(4) == 16 && Pow2(5) == 32
    ensures Pow2(6) == 64 && Pow2(7) == 128 && Pow2(8) == 256 && Pow2(9) == 512 && Pow2(10) == 1024
    ensures Pow2(11) == 2048 && Pow2(12) == 4096 && Pow2(13) == 8192 && Pow2(14) == 0x4000 && Pow2(15) == 0x8000
    ensures Pow2(16) == 0x10000
  {
  }

  /** The three stages bring the top bit of `x` to bit 14 or 15. */
  lemma Normalised(x: int) returns (n: int, y3: int)
    requires 0 < x <= 0xFFFF
    ensures (n == 0 && y3 == x) || (n == 2 && y3 == 4 * x) || (n == 4 && y3 == 16 * x) || (n == 6 && y3 == 64 * x)
         || (n == 8 && y3 == 256 * x) || (n == 10 && y3 == 1024 * x) || (n == 12 && y3 == 4096 * x)
         || (n == 14 && y3 == 0x4000 * x)
    ensures 0x4000 <= y3 <= 0xFFFF && Log2Branchless(x) == 14 - n + y3 / 0x8000
  {
    SmallPowers();
    var k1, y1 := Stage(x, 0x100, 8, 256);
    var k2, y2 := Stage(y1, 0x1000, 4, 16);
    var k3, y := Stage(y2, 0x4000, 2, 4);
    n, y3 := k1 + k2 + k3, y;
  }

  /** The bit trick computes floor(log2(x)). */
  lemma Log2Correct(x: int)
    requires 0 < x <= 0xFFFF
    ensures var k := Log2Branchless(x); 0 <= k <= 15 && Pow2(k) <= x < Pow2(k + 1)
  {
    var n, y := Normalised(x);
    SmallPowers();
    assert y / 0x8000 == if y >= 0x8000 then 1 else 0;
  }

  lemma {:induction false} ShrQuotient(x: int, n: int)
    requires 0 <= n
    ensures Pow2(n) * Shr(x, n) <= x < Pow2(n) * (Shr(x, n) + 1)
    decreases n
  {
    if n > 0 { ShrQuotient(x / 2, n - 1); }
  }

  lemma ShrTwoOrThree(s: int, n: int)
    requires 0 <= n && 2 * Pow2(n) <= s < 4 * Pow2(n)
    ensures Shr(s, n) == if s < 3 * Pow2(n) then 2 else 3
  {
    var p, q := Pow2(n), Shr(s, n);
    ShrQuotient(s, n);
    assert q <= 1 ==> p * (q + 1) <= 2 * p;
    assert q >= 4 ==> p * q >= 4 * p;
    assert q == 2 || q == 3;
  }

  lemma MinSizeOf(k: int, b: int)
    requires 0 <= k && (b == 0 || b == 1)
    ensures MinSize(2 * k + b) == 2 * Pow2(k + 7) + if b == 1 then Pow2(k + 7) else 0
    ensures MinSize(2 * k + b + 1) == MinSize(2 * k + b) + Pow2(k + 7)
  {
    var i := 2 * k + b;
    assert i / 2 == k && i % 2 == b;
    assert (i + 1) / 2 == k + b && (i + 1) % 2 == 1 - b;
    assert Pow2(k + 8) == 2 * Pow2(k + 7) && Pow2(k + 9) == 2 * Pow2(k + 8);
  }

  lemma HalfOctave(s: int, k: int)
    requires 0 <= k && Pow2(k) <= s / 256 < Pow2(k + 1)
    ensures var i := 2 * k + Shr(s, k + 7) % 2; MinSize(i) <= s < MinSize(i + 1)
  {
    EightDoublings(k);
    assert Pow2(k + 1) == 2 * Pow2(k);
    ShrTwoOrThree(s, k + 7);
    MinSizeOf(k, Shr(s, k + 7) % 2);
  }

  /** Tree bin i holds exactly the sizes from `MinSize(i)` to `MinSize(i + 1)`; the last bin takes all larger ones. */
  lemma TreeIndexRange(s: int)
    requires MIN_LARGE_SIZE <= s < WORD
    ensures var i := TreeIndexOf(s); 0 <= i < NTREEBINS && MinSize(i) <= s && (i < NTREEBINS - 1 ==> s < MinSize(i + 1))
  {
    hide Log2Branchless; hide MinSize; hide Shr;
    var x := s / 256;
    if x > 0xFFFF {
      LastBin();
    } else {
      var k := Log2Branchless(x);
      assert 0 <= k <= 15 && Pow2(k) <= s / 256 < Pow2(k + 1) by { Log2Correct(x); }
      hide Pow2;
      HalfOctave(s, k);
      assert TreeIndexOf(s) == 2 * k + Shr(s, k + 7) % 2;
      hide TreeIndexOf;
    }
  }

  lemma LastBin()
    ensures MinSize(31) == 0xC0_0000
  {
    SmallPowers();
    EightDoublings(15);
    MinSizeOf(15, 1);
  }

  lemma EightDoublings(k: int)
    requires 0 <= k
    ensures 256 * Pow2(k) == 2 * Pow2(k + 7)
  {
    assert Pow2(k + 1) == 2 * Pow2(k) && Pow2(k + 2) == 4 * Pow2(k);
    assert Pow2(k + 4) == 16 * Pow2(k) by { assert Pow2(k + 3) == 8 * Pow2(k); }
    assert Pow2(k + 7) == 128 * Pow2(k) by { assert Pow2(k + 5) == 32 * Pow2(k); assert Pow2(k + 6) == 64 * Pow2(k); }
  }

  /** Least size of tree bin `i`, built up from the widths of the bins below it. */
  function BinLo(i: int): int
    decreases i
  {
    if i <= 0 then MIN_LARGE_SIZE else BinLo(i - 1) + Pow2((i - 1) / 2 + 7)
  }

  lemma {:induction false} MinSizeIsBinLo(i: int)
    requires 0 <= i
    ensures MinSize(i) == BinLo(i)
  {
    if i == 0 {
      SmallPowers();
      MinSizeOf(0, 0);
    } else {
      MinSizeIsBinLo(i - 1);
      MinSizeOf((i - 1) / 2, (i - 1) % 2);
    }
  }

  /** The sizes of tree bin `i`: the next bin starts where it ends; the last one takes all larger sizes. */
  ghost predicate InBin(s: int, i: int) {
    0 <= i < NTREEBINS && BinLo(i) <= s && (i < NTREEBINS - 1 ==> s < BinLo(i + 1))
  }

  /** The bin of a size, by the macro; callers need only know that the size belongs to it. */
  method ComputeTreeIndex(s: int) returns (i: int)
    requires MIN_LARGE_SIZE <= s < WORD
    ensures i == TreeIndexOf(s) && InBin(s, i)
  {
    TreeIndexRange(s);
    i := TreeIndexOf(s);
    MinSizeIsBinLo(i);
    MinSizeIsBinLo(i + 1);
  }

  lemma {:induction false} BinLoMonotone(i: int, j: int)
    requires 0 <= i <= j
    ensures BinLo(i) <= BinLo(j)
    decreases j - i
  {
    if i < j { BinLoMonotone(i, j - 1); }
  }

  /** Bins are disjoint and ordered by size. */
  lemma BinsOrdered(s: int, i: int, s': int, i': int)
    requires InBin(s, i) && InBin(s', i')
    ensures i < i' ==> s < s'
    ensures s == s' ==> i == i'
  {
    if i < i' { BinLoMonotone(i + 1, i'); }
    if i' < i { BinLoMonotone(i' + 1, i); }
  }

  lemma WordIsPow2()
    ensures Pow2(32) == WORD
  {
    SmallPowers();
    EightDoublings(16);
    EightDoublings(24);
    assert Pow2(24) == 2 * Pow2(23) && Pow2(32) == 2 * Pow2(31);
  }

  lemma InBinRange(s: int, i: int)
    requires InBin(s, i)
    ensures 0 <= i < NTREEBINS
  {
  }
}
