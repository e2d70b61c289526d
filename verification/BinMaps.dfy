/** The bit maps of non-empty bins and the bit tricks that search them, on 32-bit words as naturals. */
module BinMaps {
  import opened Words
  import opened TreeIndex

  // ---- Bitwise operators ----

  predicate Bit(x: nat, i: nat) {
    if i == 0 then x % 2 == 1 else Bit(x / 2, i - 1)
  }

  function And(x: nat, y: nat): nat {
    if x == 0 then 0 else (if x % 2 == 1 && y % 2 == 1 then 1 else 0) + 2 * And(x / 2, y / 2)
  }

  function Or(x: nat, y: nat): nat
    decreases x + y
  {
    if x == 0 && y == 0 then 0 else (if x % 2 == 1 || y % 2 == 1 then 1 else 0) + 2 * Or(x / 2, y / 2)
  }

  /** ~x on n bits */
  function Not(x: nat, n: nat): nat { if x < Pow2(n) then Pow2(n) - 1 - x else 0 }

  /** -x on n bits */
  function Neg(x: nat, n: nat): nat { if 0 < x < Pow2(n) then Pow2(n) - x else 0 }

  lemma {:induction false} AndBits(x: nat, y: nat, i: nat)
    ensures Bit(And(x, y), i) <==> Bit(x, i) && Bit(y, i)
    decreases i
  {
    if i == 0 {
    } else if x == 0 {
      ZeroBit(i);
      assert And(0, y) == 0;
    } else {
      AndBits(x / 2, y / 2, i - 1);
      assert And(x, y) / 2 == And(x / 2, y / 2);
    }
  }

  lemma {:induction false} OrBits(x: nat, y: nat, i: nat)
    ensures Bit(Or(x, y), i) <==> Bit(x, i) || Bit(y, i)
    decreases i
  {
    if i == 0 {
    } else if x == 0 && y == 0 {
      ZeroBit(i);
    } else {
      OrBits(x / 2, y / 2, i - 1);
      assert Or(x, y) / 2 == Or(x / 2, y / 2);
    }
  }

  lemma {:induction false} ZeroBit(i: nat)
    ensures !Bit(0, i)
  {
    if i > 0 { ZeroBit(i - 1); }
  }

  lemma {:induction false} NotBits(x: nat, n: nat, i: nat)
    requires x < Pow2(n) && i < n
    ensures Bit(Not(x, n), i) <==> !Bit(x, i)
  {
    if i > 0 {
      NotBits(x / 2, n - 1, i - 1);
      assert Not(x, n) / 2 == Not(x / 2, n - 1);
    }
  }

  // ---- One-bit words and bin maps ----

  /** `idx2bit(i)` is `Pow2(i)`. */
  lemma {:induction false} IdxBit(i: nat, j: nat)
    ensures Bit(Pow2(i), j) <==> i == j
    decreases j
  {
    if j == 0 {
      assert i > 0 ==> Pow2(i) == 2 * Pow2(i - 1);
    } else if i == 0 {
      ZeroBit(j - 1);
    } else {
      IdxBit(i - 1, j - 1);
    }
  }

  function Mark(m: nat, i: nat): nat { Or(m, Pow2(i)) }

  function Clear(m: nat, i: nat): nat { And(m, Not(Pow2(i), 32)) }

  /** The bins a map says are non-empty. */
  ghost predicate Shows(m: nat, bins: set<int>) {
    forall i: nat {:trigger Bit(m, i)} :: i < 32 ==> (Bit(m, i) <==> i in bins)
  }

  /** Marking and clearing touch one bin only. */
  lemma MarkShows(m: nat, bins: set<int>, i: nat)
    requires Shows(m, bins) && i < 32
    ensures Shows(Mark(m, i), bins + {i})
  {
    forall j: nat | j < 32 ensures Bit(Mark(m, i), j) <==> j in bins + {i} {
      OrBits(m, Pow2(i), j);
      IdxBit(i, j);
    }
  }

  lemma ClearShows(m: nat, bins: set<int>, i: nat)
    requires Shows(m, bins) && i < 32
    ensures Shows(Clear(m, i), bins - {i})
  {
    Pow2Monotone(i + 1, 32);
    forall j: nat | j < 32 ensures Bit(Clear(m, i), j) <==> j in bins - {i} {
      AndBits(m, Not(Pow2(i), 32), j);
      NotBits(Pow2(i), 32, j);
      IdxBit(i, j);
    }
  }

  /** `smallmap_is_marked(M, i)`, `treemap_is_marked(M, i)`: the mask test. */
  lemma {:induction false} Tested(m: nat, i: nat)
    ensures And(m, Pow2(i)) != 0 <==> Bit(m, i)
    decreases i
  {
    if i == 0 {
      AndZero(m / 2);
    } else {
      Tested(m / 2, i - 1);
    }
  }

  lemma {:induction false} AndZero(x: nat)
    ensures And(x, 0) == 0
  {
    if x != 0 { AndZero(x / 2); }
  }

  // ---- The lowest set bit ----

  /** x & -x */
  function LeastBit(x: nat): nat { And(x, Neg(x, 32)) }

  function Lowest(x: nat): nat
    requires x > 0
  {
    if x % 2 == 1 then 0 else 1 + Lowest(x / 2)
  }

  lemma {:induction false} LowestIsLowest(x: nat)
    requires x > 0
    ensures Bit(x, Lowest(x)) && forall j: nat :: j < Lowest(x) ==> !Bit(x, j)
  {
    if x % 2 == 0 {
      LowestIsLowest(x / 2);
      forall j: nat | j < Lowest(x) ensures !Bit(x, j) {
        if j > 0 { assert !Bit(x / 2, j - 1); }
      }
    }
  }

  lemma {:induction false} AndNot(x: nat, n: nat)
    requires x < Pow2(n)
    ensures And(x, Not(x, n)) == 0
    decreases n
  {
    if x != 0 {
      assert n > 0;
      AndNot(x / 2, n - 1);
      assert Not(x, n) / 2 == Not(x / 2, n - 1);
    }
  }

  /** On n bits, x & -x leaves only the lowest set bit of x. */
  lemma {:induction false} LeastOf(x: nat, n: nat)
    requires 0 < x < Pow2(n)
    ensures And(x, Neg(x, n)) == Pow2(Lowest(x)) && Lowest(x) < n
    decreases n
  {
    assert n > 0;
    var y := Neg(x, n) / 2;
    if x % 2 == 1 {
      AndNot(x / 2, n - 1);
      assert Neg(x, n) / 2 == Not(x / 2, n - 1);
    } else {
      LeastOf(x / 2, n - 1);
      assert Neg(x, n) / 2 == Neg(x / 2, n - 1);
    }
  }

  // ---- `compute_bit2idx`, the version without special instructions ----

  function Bit2Idx(x: nat): int {
    var y := x - 1;
    var k := AndBit(Shr(y, 12), 16);
    var n := k;
    var y := Shr(y, k);
    var k := AndBit(Shr(y, 5), 8);
    Bit2IdxRest(n + k, Shr(y, k))
  }

  /** The last three of its five stages. */
  function Bit2IdxRest(n: int, y: int): int {
    var k := AndBit(Shr(y, 2), 4);
    var n := n + k;
    var y := Shr(y, k);
    var k := AndBit(Shr(y, 1), 2);
    var n := n + k;
    var y := Shr(y, k);
    var k := AndBit(Shr(y, 1), 1);
    n + k + Shr(y, k)
  }

  /** A word of r low ones. */
  function Ones(r: int): int { Pow2(r) - 1 }

  lemma {:induction false} ShrOnes(r: int, m: int)
    requires 0 <= r && 0 <= m
    ensures Shr(Ones(r), m) == Ones(r - m)
    decreases m
  {
    if m > 0 {
      if r > 0 {
        assert Ones(r) / 2 == Ones(r - 1);
        ShrOnes(r - 1, m - 1);
      } else {
        ShrOnes(0, m - 1);
        assert Ones(-m) == Ones(1 - m) == 0;
      }
    }
  }

  lemma {:induction false} OnesMask(r: int, e: int, b: int)
    requires 0 <= e && b == Pow2(e)
    ensures AndBit(Ones(r), b) == if e < r then b else 0
  {
    if e < r {
      HighOnes(r - e - 1, e);
      Spread(Pow2(r), b, Pow2(r - e - 1));
    } else {
      Pow2Monotone(r, e);
      Quotient(Ones(r), b, 0, Ones(r));
    }
  }

  lemma {:induction false} Spread(x: int, b: int, p: int)
    requires b >= 1 && x == b * (2 * p)
    ensures AndBit(x - 1, b) == b
  {
    var q := 2 * p - 1;
    assert b * q == b * (2 * p) - b;
    Quotient(x - 1, b, q, b - 1);
    assert q % 2 == 1;
  }

  lemma {:induction false} HighOnes(a: int, e: int)
    requires 0 <= a && 0 <= e
    ensures Pow2(a + e + 1) == Pow2(e) * (2 * Pow2(a))
    decreases e
  {
    if e > 0 { HighOnes(a, e - 1); }
  }

  lemma {:induction false} Quotient(x: int, b: int, q: int, r: int)
    requires b > 0 && x == b * q + r && 0 <= r < b
    ensures x / b == q
  {
    var d := x / b - q;
    assert b * d == r - x % b;
    assert d >= 1 ==> b * d >= b;
    assert d <= -1 ==> b * d <= -b;
  }

  /** One stage of the binary search for the exponent: halve the range [0, 2 * half] of r to [0, half]. */
  lemma {:induction false} IdxStage(r: int, shift: int, e: int, half: int) returns (k: int)
    requires 0 <= r <= 2 * half && 0 <= shift && 0 <= e && half == Pow2(e) && shift + e == half
    ensures k == AndBit(Shr(Ones(r), shift), half) && Shr(Ones(r), k) == Ones(r - k)
    ensures k == if r > half then half else 0
  {
    ShrOnes(r, shift);
    OnesMask(r - shift, e, half);
    k := if r > half then half else 0;
    ShrOnes(r, k);
  }

  lemma {:induction false} BitIndexRest(n: int, r: int)
    requires 0 <= r <= 8
    ensures Bit2IdxRest(n, Ones(r)) == n + r
  {
    SmallPowers();
    var k3 := IdxStage(r, 2, 2, 4);
    var k4 := IdxStage(r - k3, 1, 1, 2);
    var r' := r - k3 - k4;
    var k5 := IdxStage(r', 1, 0, 1);
    assert Ones(r' - k5) == r' - k5;
  }

  lemma {:induction false} BitIndex(i: nat)
    requires i < 32
    ensures Bit2Idx(Pow2(i)) == i
  {
    assert Pow2(4) == 16 && Pow2(3) == 8;
    var y := Ones(i);
    var k1 := IdxStage(i, 12, 4, 16);
    var y1 := Ones(i - k1);
    var k2 := IdxStage(i - k1, 5, 3, 8);
    var y2 := Ones(i - k1 - k2);
    Unfolded(Pow2(i), y, k1, y1, k2, y2);
    BitIndexRest(k1 + k2, i - k1 - k2);
  }

  lemma Unfolded(x: nat, y: int, k1: int, y1: int, k2: int, y2: int)
    requires y == x - 1 && k1 == AndBit(Shr(y, 12), 16) && y1 == Shr(y, k1)
    requires k2 == AndBit(Shr(y1, 5), 8) && y2 == Shr(y1, k2)
    ensures Bit2Idx(x) == Bit2IdxRest(k1 + k2, y2)
  {
  }

  /** `compute_bit2idx(least_bit(m))` is the lowest bin a non-empty map shows. */
  lemma LowestBin(m: nat, bins: set<int>)
    requires 0 < m < WORD && Shows(m, bins)
    ensures var i := Bit2Idx(LeastBit(m)); 0 <= i < 32 && i in bins && forall j :: 0 <= j < i ==> j !in bins
  {
    WordIsPow2();
    LeastOf(m, 32);
    BitIndex(Lowest(m));
    LowestIsLowest(m);
    forall j | 0 <= j < Lowest(m) ensures j !in bins { assert !Bit(m, j); }
  }

  lemma {:induction false} OrBound(x: nat, y: nat, n: nat)
    requires x < Pow2(n) && y < Pow2(n)
    ensures Or(x, y) < Pow2(n)
    decreases n
  {
    if x != 0 || y != 0 { OrBound(x / 2, y / 2, n - 1); }
  }

  lemma {:induction false} AndBound(x: nat, y: nat)
    ensures And(x, y) <= x
  {
    if x != 0 { AndBound(x / 2, y / 2); }
  }

  /** `mark_smallmap(M, i)` when the bit is clear, nothing when it is set. */
  lemma MarkSet(m: nat, bins: set<int>, i: nat)
    requires Shows(m, bins) && i < 32 && m < WORD
    ensures Bit(m, i) ==> Shows(m, bins + {i})
    ensures Shows(Mark(m, i), bins + {i}) && Mark(m, i) < WORD
  {
    if Bit(m, i) { assert bins + {i} == bins; }
    MarkShows(m, bins, i);
    WordIsPow2();
    Pow2Monotone(i + 1, 32);
    OrBound(m, Pow2(i), 32);
  }

  lemma ClearSet(m: nat, bins: set<int>, i: nat)
    requires Shows(m, bins) && i < 32 && m < WORD
    ensures Shows(Clear(m, i), bins - {i}) && Clear(m, i) < WORD
  {
    ClearShows(m, bins, i);
    AndBound(m, Not(Pow2(i), 32));
  }

  // ---- Bins above a given one ----

  /** `left_bits(x)`: the bits above the lowest set bit of x. */
  function LeftBits(x: nat): nat { var y := 2 * x % WORD; Or(y, Neg(y, 32)) }

  lemma {:induction false} HighBits(i: nat, n: nat, j: nat)
    requires i <= n
    ensures Pow2(n) >= Pow2(i) && (Bit(Pow2(n) - Pow2(i), j) <==> i <= j < n)
    decreases n
  {
    Pow2Monotone(i, n);
    if n == 0 {
      ZeroBit(j);
    } else if i == 0 {
      if j > 0 {
        assert (Pow2(n) - 1) / 2 == Pow2(n - 1) - Pow2(0);
        HighBits(0, n - 1, j - 1);
      }
    } else if j > 0 {
      assert (Pow2(n) - Pow2(i)) / 2 == Pow2(n - 1) - Pow2(i - 1);
      HighBits(i - 1, n - 1, j - 1);
    }
  }

  lemma LeftBitsOf(i: nat, j: nat)
    requires i < 32 && j < 32
    ensures Bit(LeftBits(Pow2(i)), j) <==> i < j
  {
    WordIsPow2();
    var y := 2 * Pow2(i) % WORD;
    OrBits(y, Neg(y, 32), j);
    if i == 31 {
      assert Pow2(32) == 2 * Pow2(31) && y == 0;
      ZeroBit(j);
    } else {
      Pow2Monotone(i + 1, 31);
      assert Pow2(i + 1) == 2 * Pow2(i) && Pow2(32) == 2 * Pow2(31);
      assert y == Pow2(i + 1);
      IdxBit(i + 1, j);
      HighBits(i + 1, 32, j);
    }
  }

  lemma {:induction false} ShrBits(x: nat, n: nat, j: nat)
    ensures Shr(x, n) >= 0 && (Bit(Shr(x, n), j) <==> Bit(x, n + j))
    decreases n
  {
    if n > 0 { ShrBits(x / 2, n - 1, j); }
  }

  lemma {:induction false} ShlBits(x: nat, n: nat, j: nat)
    requires n <= 32 && x < Pow2(32 - n)
    ensures Shl32(x, n) >= 0 && (Bit(Shl32(x, n), j) <==> n <= j && Bit(x, j - n))
    decreases n
  {
    if n > 0 {
      WordIsPow2();
      assert Pow2(33 - n) == 2 * Pow2(32 - n);
      Pow2Monotone(33 - n, 32);
      assert 2 * x % WORD == 2 * x;
      ShlBits(2 * x, n - 1, j);
    }
  }

  lemma {:induction false} ShrBound(x: nat, n: nat, k: nat)
    requires x < Pow2(n + k)
    ensures 0 <= Shr(x, n) < Pow2(k)
    decreases n
  {
    if n > 0 {
      assert Pow2(n + k) == 2 * Pow2(n - 1 + k);
      ShrBound(x / 2, n - 1, k);
    }
  }

  /** The lowest bin above `idx` in a map that agrees with `bins` there. */
  lemma NextBin(m: nat, bins: set<int>, idx: nat)
    requires m < WORD && idx < 32 && forall j: nat :: j < 32 ==> (Bit(m, j) && idx < j <==> j in bins && idx < j)
    ensures And(m, LeftBits(Pow2(idx))) == 0 ==> forall j :: idx < j < 32 ==> j !in bins
    ensures And(LeftBits(Pow2(idx)), m) == 0 ==> forall j :: idx < j < 32 ==> j !in bins
    ensures And(m, LeftBits(Pow2(idx))) != 0 ==> IsNext(Bit2Idx(LeastBit(And(m, LeftBits(Pow2(idx))))), bins, idx)
    ensures And(LeftBits(Pow2(idx)), m) != 0 ==> IsNext(Bit2Idx(LeastBit(And(LeftBits(Pow2(idx)), m))), bins, idx)
  {
    LeftOf(m, And(m, LeftBits(Pow2(idx))), bins, idx);
    LeftOf(m, And(LeftBits(Pow2(idx)), m), bins, idx);
  }

  /** Bin `i` is the first of `bins` above `idx`. */
  ghost predicate IsNext(i: int, bins: set<int>, idx: int) {
    idx < i < 32 && i in bins && forall j :: idx < j < i ==> j !in bins
  }

  lemma LeftOf(m: nat, x: nat, bins: set<int>, idx: nat)
    requires m < WORD && idx < 32 && forall j: nat :: j < 32 ==> (Bit(m, j) && idx < j <==> j in bins && idx < j)
    requires x == And(m, LeftBits(Pow2(idx))) || x == And(LeftBits(Pow2(idx)), m)
    ensures x == 0 ==> forall j :: idx < j < 32 ==> j !in bins
    ensures x != 0 ==> IsNext(Bit2Idx(LeastBit(x)), bins, idx)
  {
    var up := set j | j in bins && idx < j < 32;
    LeftShows(m, x, bins, idx, up);
    if x == 0 {
      forall j | idx < j < 32 ensures j !in bins { ZeroBit(j); assert !Bit(x, j); }
    } else {
      LowestBin(x, up);
      var i := Bit2Idx(LeastBit(x));
      forall j | idx < j < i ensures j !in bins { assert j !in up; }
    }
  }

  lemma LeftShows(m: nat, x: nat, bins: set<int>, idx: nat, up: set<int>)
    requires m < WORD && idx < 32 && forall j: nat :: j < 32 ==> (Bit(m, j) && idx < j <==> j in bins && idx < j)
    requires x == And(m, LeftBits(Pow2(idx))) || x == And(LeftBits(Pow2(idx)), m)
    requires up == set j | j in bins && idx < j < 32
    ensures x < WORD && Shows(x, up)
  {
    AndBound(m, LeftBits(Pow2(idx)));
    AndComm(m, LeftBits(Pow2(idx)));
    forall j: nat | j < 32 ensures Bit(x, j) <==> j in up {
      AndBits(m, LeftBits(Pow2(idx)), j);
      LeftBitsOf(idx, j);
    }
  }

  lemma {:induction false} AndComm(x: nat, y: nat)
    ensures And(x, y) == And(y, x)
  {
    if x != 0 && y != 0 { AndComm(x / 2, y / 2); } else { AndZero(x); AndZero(y); }
  }

  // ---- The small-bin search of `dlmalloc` ----

  lemma LowBits(x: nat)
    ensures And(x, 3) != 0 <==> Bit(x, 0) || Bit(x, 1)
  {
    AndLow(x, 3);
    AndLow(x / 2, 1);
    AndZero(x / 2 / 2);
    assert Bit(x, 1) == Bit(x / 2, 0);
  }

  /** `~x & 1` */
  lemma LowNot(x: nat)
    requires x < WORD
    ensures And(Not(x, 32), 1) == 1 - x % 2
  {
    WordIsPow2();
    var y := Not(x, 32);
    assert Pow2(32) == 2 * Pow2(31);
    assert y % 2 == 1 - x % 2;
    AndLow(y, 1);
    AndZero(y / 2);
  }

  lemma AndLow(x: nat, y: nat)
    ensures And(x, y) == (if x % 2 == 1 && y % 2 == 1 then 1 else 0) + 2 * And(x / 2, y / 2)
  {
  }

  /** `smallbits = smallmap >> idx` shows the bins from `idx` up. */
  lemma SmallBits(m: nat, bins: set<int>, idx: nat)
    requires m < WORD && Shows(m, bins) && idx < 32 && forall j :: j in bins ==> 0 <= j < 32
    ensures var sb := Shr(m, idx);
            && 0 <= sb < WORD && (And(sb, 3) != 0 <==> idx in bins || idx + 1 in bins)
            && (idx in bins <==> sb % 2 == 1)
            && (sb == 0 <==> forall j :: idx <= j ==> j !in bins)
  {
    var sb := Shr(m, idx);
    WordIsPow2();
    ShrBound(m, idx, 32 - idx);
    Pow2Monotone(32 - idx, 32);
    LowBits(sb);
    ShrBits(m, idx, 0);
    ShrBits(m, idx, 1);
    if idx == 31 && Bit(m, 32) { HighZero(m, 32, 32); }
    if sb == 0 {
      forall j | idx <= j ensures j !in bins { if j < 32 { ShrBits(m, idx, j - idx); ZeroBit(j - idx); assert !Bit(m, j); } }
    } else {
      LowestIsLowest(sb);
      var k := Lowest(sb);
      ShrBits(m, idx, k);
      HighZero(m, 32, idx + k);
    }
  }

  lemma {:induction false} HighZero(x: nat, n: nat, j: nat)
    requires x < Pow2(n) && Bit(x, j)
    ensures j < n
    decreases n
  {
    if j > 0 {
      if n > 0 { assert Pow2(n) == 2 * Pow2(n - 1); HighZero(x / 2, n - 1, j - 1); }
      else { assert x / 2 == 0; ZeroBit(j - 1); assert false; }
    }
  }

  /** `(smallbits << idx) & left_bits(idx2bit(idx))` */
  lemma SmallNext(m: nat, bins: set<int>, idx: nat)
    requires m < WORD && Shows(m, bins) && idx < 32 && forall j :: j in bins ==> 0 <= j < 32
    ensures Shl32(Shr(m, idx), idx) >= 0
    ensures And(Shl32(Shr(m, idx), idx), LeftBits(Pow2(idx))) == 0 ==> forall j :: idx < j < 32 ==> j !in bins
    ensures var x := And(Shl32(Shr(m, idx), idx), LeftBits(Pow2(idx)));
            x != 0 ==> IsNext(Bit2Idx(LeastBit(x)), bins, idx)
  {
    SmallAgree(m, bins, idx);
    NextBin(Shl32(Shr(m, idx), idx), bins, idx);
  }

  lemma SmallAgree(m: nat, bins: set<int>, idx: nat)
    requires m < WORD && Shows(m, bins) && idx < 32
    ensures var x := Shl32(Shr(m, idx), idx);
            0 <= x < WORD && forall j: nat :: j < 32 ==> (Bit(x, j) && idx < j <==> j in bins && idx < j)
  {
    var sb, x := Shr(m, idx), Shl32(Shr(m, idx), idx);
    WordIsPow2();
    ShrBound(m, idx, 32 - idx);
    Pow2Monotone(32 - idx, 32);
    ShlBound(sb, idx);
    forall j: nat | j < 32 ensures Bit(x, j) && idx < j <==> j in bins && idx < j {
      if idx < j {
        ShlBits(sb, idx, j);
        ShrBits(m, idx, j - idx);
      }
    }
  }

  lemma {:induction false} ShlBound(x: nat, n: nat)
    requires x < WORD
    ensures 0 <= Shl32(x, n) < WORD
    decreases n
  {
    if n > 0 { ShlBound(2 * x % WORD, n - 1); }
  }

  lemma NoBits()
    ensures Shows(0, {})
  {
    forall j: nat | j < 32 ensures !Bit(0, j) { ZeroBit(j); }
  }

  lemma {:induction false} AndSelf(x: nat)
    ensures And(x, x) == x
  {
    if x > 0 { AndSelf(x / 2); }
  }

  /** `x & (x - 1)` is zero exactly for powers of two. */
  lemma {:induction false} PowerTest(x: nat) returns (k: nat)
    requires x > 0
    ensures And(x, x - 1) == 0 ==> x == Pow2(k)
    ensures forall j: nat :: x == Pow2(j) ==> And(x, x - 1) == 0
  {
    k := 0;
    AndLow(x, x - 1);
    if x % 2 == 1 {
      assert (x - 1) / 2 == x / 2;
      AndSelf(x / 2);
      forall j: nat | x == Pow2(j) ensures And(x, x - 1) == 0 { if j > 0 { assert x == 2 * Pow2(j - 1); } }
    } else {
      assert (x - 1) / 2 == x / 2 - 1;
      k := PowerTest(x / 2);
      k := k + 1;
      assert And(x, x - 1) == 0 ==> x == 2 * Pow2(k - 1);
      forall j: nat | x == Pow2(j) ensures And(x, x - 1) == 0 { if j > 0 { assert x / 2 == Pow2(j - 1); } }
    }
  }
}
