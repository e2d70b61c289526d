/** 32-bit words, the word-addressed memory of the allocator, and the tag bits of a chunk head. */
module Words {

  const WORD := 0x1_0000_0000

  /** Memory: the word stored at each mapped (4-aligned) byte address. */
  type Mem = map<int, int>

  /** The word at `a`; reading outside the map is excluded by the code's own bounds, so any value will do there. */
  function Rd(m: Mem, a: int): int {
    if a in m then m[a] else 0
  }

  /** Every word outside `ws` is the same in both memories. */
  ghost predicate Only(m: Mem, m': Mem, ws: set<int>) {
    forall w {:trigger Rd(m', w)} :: w !in ws ==> Rd(m', w) == Rd(m, w)
  }

  function Pow2(e: int): (r: int)
    ensures r >= 1
  {
    if e <= 0 then 1 else 2 * Pow2(e - 1)
  }

  lemma {:induction false} Pow2Monotone(a: int, b: int)
    requires a <= b
    ensures Pow2(a) <= Pow2(b)
    decreases if b <= 0 then 0 else b
  {
    if b > 0 {
      if a < b { Pow2Monotone(a, b - 1); }
    }
  }

  // Fields of a head word: chunksize(p), cinuse(p), pinuse(p)

  function SizeOf(w: int): int { w - w % 8 }

  predicate Cinuse(w: int) { (w / 2) % 2 == 1 }

  predicate Pinuse(w: int) { w % 2 == 1 }

  /** head |= PINUSE_BIT */
  function WithPinuse(w: int): int { w - w % 2 + 1 }

  /** head &= ~PINUSE_BIT */
  function WithoutPinuse(w: int): int { w - w % 2 }

  lemma HeadFields(s: int, c: bool, p: bool)
    requires s % 8 == 0
    ensures var w := s + (if c then 2 else 0) + (if p then 1 else 0);
            SizeOf(w) == s && Cinuse(w) == c && Pinuse(w) == p
  {
  }

  /** The fields of a word from its quotient and remainder by 8. */
  lemma FieldsOf(q: int, r: int)
    requires 0 <= r < 8
    ensures var w := 8 * q + r;
            SizeOf(w) == 8 * q && Cinuse(w) == (r / 2 % 2 == 1) && Pinuse(w) == (r % 2 == 1) && w % 2 == r % 2
  {
    var w := 8 * q + r;
    Halving(w, 4 * q + r / 2, r % 2);
    Halving(w / 2, 2 * q + r / 4, r / 2 % 2);
    Eighths(w, q, r);
  }

  lemma Halving(x: int, k: int, b: int)
    requires x == 2 * k + b && 0 <= b < 2
    ensures x / 2 == k && x % 2 == b
  {
  }

  lemma Eighths(x: int, k: int, b: int)
    requires x == 8 * k + b && 0 <= b < 8
    ensures x / 8 == k && x % 8 == b
  {
  }

  lemma PinuseBitOnly(w: int)
    ensures SizeOf(WithPinuse(w)) == SizeOf(w) && Cinuse(WithPinuse(w)) == Cinuse(w) && Pinuse(WithPinuse(w))
    ensures SizeOf(WithoutPinuse(w)) == SizeOf(w) && Cinuse(WithoutPinuse(w)) == Cinuse(w) && !Pinuse(WithoutPinuse(w))
  {
    var q, r := w / 8, w % 8;
    assert w == 8 * q + r;
    FieldsOf(q, r);
    FieldsOf(q, r - r % 2 + 1);
    FieldsOf(q, r - r % 2);
    hide SizeOf; hide Cinuse; hide Pinuse;
  }

  lemma EightSum(x: int, y: int)
    requires x % 8 == 0 && y % 8 == 0
    ensures (x + y) % 8 == 0 && (x - y) % 8 == 0
  {
  }
}
