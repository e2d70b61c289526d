/** Variable-length integers (section 3.2 of RFC 7252) and the 8-bit pseudo floating point of the library. */
module CoapEncode {
  import opened Words
  import opened TreeIndex
  import opened CoapOption

  // ---- `coap_fls` ----

  /** `n` is the number of significant bits of `i`. */
  ghost predicate BitLength(i: int, n: int) {
    if i == 0 then n == 0 else n >= 1 && Pow2(n - 1) <= i < Pow2(n)
  }

  function Bits(i: nat): nat { if i == 0 then 0 else 1 + Bits(i / 2) }

  lemma {:induction false} BitsLength(i: nat)
    ensures BitLength(i, Bits(i))
  {
    if i > 0 { BitsLength(i / 2); }
  }

  method Fls(i0: nat) returns (n: int)
    ensures n == Bits(i0) && BitLength(i0, n)
  {
    var i := i0;
    n := 0;
    while i != 0
      invariant n >= 0 && i >= 0 && Bits(i0) == n + Bits(i)
    {
      i := i / 2;
      n := n + 1;
    }
    BitsLength(i0);
  }

  // ---- Big-endian numbers ----

  /** The number the bytes stand for. */
  function Value(s: seq<byte>): (v: int)
    ensures v >= 0
  {
    if s == [] then 0 else Value(s[..|s| - 1]) * 256 + s[|s| - 1]
  }

  /** The shortest big-endian form. */
  function Shortest(v: nat): seq<byte> {
    if v == 0 then [] else Shortest(v / 256) + [v % 256]
  }

  lemma {:induction false} ShortestValue(v: nat)
    ensures Value(Shortest(v)) == v
  {
    if v > 0 {
      ShortestValue(v / 256);
      var s := Shortest(v / 256) + [v % 256];
      assert s[..|s| - 1] == Shortest(v / 256);
    }
  }

  /** No form of the same number has fewer bytes. */
  lemma {:induction false} ShortestIsShortest(s: seq<byte>)
    ensures |Shortest(Value(s))| <= |s|
    decreases |s|
  {
    if s != [] {
      var front := s[..|s| - 1];
      ShortestIsShortest(front);
      assert Value(s) / 256 == Value(front);
    }
  }

  function Pow256(n: nat): int { if n == 0 then 1 else 256 * Pow256(n - 1) }

  lemma {:induction false} ShortestSize(v: nat, n: nat)
    requires v < Pow256(n)
    ensures |Shortest(v)| <= n
    decreases n
  {
    if v > 0 { ShortestSize(v / 256, n - 1); }
  }

  lemma {:induction false} ValueBound(s: seq<byte>)
    ensures Value(s) < Pow256(|s|)
    decreases |s|
  {
    if s != [] { ValueBound(s[..|s| - 1]); }
  }

  /** `coap_decode_var_bytes`: on 32 bits the number is taken modulo 2^32. */
  method DecodeVarBytes(buf: seq<byte>) returns (n: int)
    ensures n == Value(buf) % WORD
    ensures |buf| <= 4 ==> n == Value(buf)
  {
    var i := 0;
    n := 0;
    while i < |buf|
      invariant 0 <= i <= |buf| && n == Value(buf[..i]) % WORD
    {
      assert buf[..i + 1][..i] == buf[..i];
      WrapStep(Value(buf[..i]), buf[i]);
      n := (n * 256 + buf[i]) % WORD;
      i := i + 1;
    }
    assert buf[..|buf|] == buf;
    ValueBound(buf);
    if |buf| <= 4 { FourBytes(|buf|); }
  }

  lemma WrapStep(v: int, b: int)
    ensures (v % WORD * 256 + b) % WORD == (v * 256 + b) % WORD
  {
    var q := v / WORD;
    assert v * 256 + b == v % WORD * 256 + b + 256 * q * WORD;
  }

  lemma FourBytes(n: nat)
    requires n <= 4
    ensures Pow256(n) <= WORD
  {
    assert Pow256(0) == 1 && Pow256(1) == 256 && Pow256(2) == 65536 && Pow256(3) == 16777216 && Pow256(4) == WORD;
  }

  /** `coap_encode_var_bytes` into `buf`. */
  method EncodeVarBytes(buf: array<byte>, val: nat) returns (n: nat)
    requires val < WORD && buf.Length >= |Shortest(val)|
    modifies buf
    ensures n == |Shortest(val)| <= 4 && buf[..n] == Shortest(val)
    ensures forall i :: n <= i < buf.Length ==> buf[i] == old(buf[i])
  {
    FourBytes(4);
    ShortestSize(val, 4);
    var i := val;
    n := 0;
    while i != 0 && n < 4
      invariant 0 <= n <= 4 && 0 <= i && |Shortest(val)| == n + |Shortest(i)|
      decreases 4 - n
    {
      i := i / 256;
      n := n + 1;
    }
    var k, v := n, val;
    while k > 0
      invariant 0 <= k <= n && 0 <= v && |Shortest(v)| == k && buf.Length >= n
      invariant Shortest(val) == Shortest(v) + buf[k..n]
      invariant forall j :: n <= j < buf.Length ==> buf[j] == old(buf[j])
    {
      k := k - 1;
      ghost var rest := buf[k + 1..n];
      buf[k] := v % 256;
      assert buf[k + 1..n] == rest && buf[k..n] == [v % 256] + rest;
      assert Shortest(v) + rest == Shortest(v / 256) + ([v % 256] + rest);
      v := v / 256;
    }
    assert buf[0..n] == buf[..n];
  }

  // ---- Pseudo floating point, 8 bits with 4 bits of exponent ----

  const HIBIT := 128

  const MAX_VALUE := 240 * 32768

  /** COAP_PSEUDOFP_DECODE_8_4 */
  function FpDecode(r: int): int
    requires 0 <= r < 256
  {
    if r < HIBIT then r else (r - r % 16) * Pow2(r % 16)
  }

  /** The low bits of a value cut to the four mantissa bits: `& MMASK`. */
  function Mantissa(x: int): int { x % 256 - x % 16 }

  /** COAP_PSEUDOFP_ENCODE_8_4_DOWN, with `ls` the exponent. */
  function FpDown(v: nat, ls: int): int { if v < HIBIT then v else Mantissa(v / Pow2(ls)) + ls }

  /** COAP_PSEUDOFP_ENCODE_8_4_UP */
  function FpUp(v: nat, ls: int): int {
    if v < HIBIT then v
    else
      var s := Mantissa((v + (16 * Pow2(ls) - 1)) / Pow2(ls));
      if s == 0 then HIBIT + ls + 1 else s + ls
  }

  /** `ls = coap_fls(v) - Nn` for the values with an exponent. */
  ghost predicate ExponentOf(v: int, ls: int) { v >= HIBIT ==> 0 <= ls && 128 * Pow2(ls) <= v < 256 * Pow2(ls) }

  method Exponent(v: nat) returns (ls: int)
    ensures ExponentOf(v, ls)
  {
    var n := Fls(v);
    ls := n - 8;
    if v >= HIBIT {
      assert Pow2(7) == 128;
      assert n >= 8 by { if n < 8 { Pow2Monotone(n, 7); } }
      Pow2Sum(7, ls);
      Pow2Sum(8, ls);
      assert Pow2(8) == 256;
    }
  }

  lemma {:induction false} Pow2Sum(a: nat, b: nat)
    ensures Pow2(a + b) == Pow2(a) * Pow2(b)
    decreases b
  {
    if b > 0 {
      Pow2Sum(a, b - 1);
      assert Pow2(a + b) == 2 * Pow2(a + b - 1);
      assert Pow2(a) * (2 * Pow2(b - 1)) == 2 * (Pow2(a) * Pow2(b - 1));
    }
  }

  /** The value of a byte with exponent `e` and mantissa `m`. */
  lemma FpParts(r: int)
    requires HIBIT <= r < 256
    ensures var m, e := r - r % 16, r % 16; FpDecode(r) == m * Pow2(e) && 128 <= m <= 240 && m % 16 == 0 && 0 <= e < 16
  {
  }

  lemma FpMake(m: int, e: int)
    requires 128 <= m <= 240 && m % 16 == 0 && 0 <= e < 16
    ensures HIBIT <= m + e < 256 && FpDecode(m + e) == m * Pow2(e)
  {
    assert (m + e) % 16 == e && m + e - (m + e) % 16 == m;
  }

  lemma MulMono(m: int, m': int, a: int, b: int)
    requires 0 <= m <= m' && 0 <= a <= b
    ensures m * a <= m' * b
  {
    assert m * a <= m' * a;
    assert m' * a <= m' * b;
  }

  /** Values of smaller and of larger exponents. */
  lemma OtherExponent(m: int, e: int, ls: int)
    requires 128 <= m <= 240 && 0 <= e && 0 <= ls
    ensures e < ls ==> m * Pow2(e) <= 120 * Pow2(ls)
    ensures e > ls ==> 256 * Pow2(ls) <= m * Pow2(e)
  {
    if e < ls {
      Pow2Monotone(e, ls - 1);
      MulMono(m, 240, Pow2(e), Pow2(ls - 1));
      assert Pow2(ls) == 2 * Pow2(ls - 1);
    }
    if e > ls {
      Pow2Monotone(ls + 1, e);
      MulMono(128, m, Pow2(ls + 1), Pow2(e));
      assert Pow2(ls + 1) == 2 * Pow2(ls);
    }
  }

  lemma Pow2At15()
    ensures Pow2(15) == 32768
  {
    assert Pow2(5) == 32;
    Pow2Sum(5, 5);
    Pow2Sum(5, 10);
  }

  lemma ExponentBound(v: nat, ls: int)
    requires ExponentOf(v, ls) && HIBIT <= v <= MAX_VALUE
    ensures 0 <= ls <= 15 && Pow2(15) == 32768
  {
    Pow2At15();
    assert Pow2(16) == 2 * Pow2(15);
    assert ls <= 15 by { if ls > 15 { Pow2Monotone(16, ls); } }
  }

  /** v = q P + w */
  lemma Quot(v: int, p: int)
    requires p >= 1 && 128 * p <= v < 256 * p
    ensures var q := v / p; 128 <= q < 256 && q * p <= v < q * p + p
  {
    var q := v / p;
    assert v == q * p + v % p;
    Scale(q, 127, p);
    Scale(256, q, p);
  }

  lemma Scale(a: int, b: int, p: int)
    requires p >= 1
    ensures a <= b ==> a * p <= b * p
    ensures a < b ==> a * p < b * p
    ensures (a + 1) * p == a * p + p
  {
  }

  lemma DownValue(v: nat, ls: int) returns (q: int, m: int)
    requires ExponentOf(v, ls) && HIBIT <= v <= MAX_VALUE
    ensures m == q - q % 16 && 128 <= m <= 240 && q * Pow2(ls) <= v < q * Pow2(ls) + Pow2(ls)
    ensures FpDown(v, ls) == m + ls && m + ls < 256 && FpDecode(m + ls) == m * Pow2(ls)
  {
    ExponentBound(v, ls);
    q := v / Pow2(ls);
    Quot(v, Pow2(ls));
    m := q - q % 16;
    assert Mantissa(q) == m;
    FpMake(m, ls);
  }

  /** Rounding down keeps the greatest representable value that is not above `v`. */
  lemma FpDownIsFloor(v: nat, ls: int, r: int)
    requires ExponentOf(v, ls) && v <= MAX_VALUE && 0 <= r < 256
    ensures 0 <= FpDown(v, ls) < 256 && FpDecode(FpDown(v, ls)) <= v
    ensures FpDecode(r) <= v ==> FpDecode(r) <= FpDecode(FpDown(v, ls))
  {
    if v >= HIBIT {
      ExponentBound(v, ls);
      var q, m := DownValue(v, ls);
      hide FpDecode; hide FpDown;
      Scale(m, q, Pow2(ls));
      Scale(128, m, Pow2(ls));
      if r >= HIBIT {
        FpParts(r);
        var m', e := r - r % 16, r % 16;
        OtherExponent(m', e, ls);
        if e == ls && m' * Pow2(ls) <= v { NoLarger(v, Pow2(ls), q, m'); }
      } else {
        SmallFp(r);
      }
    } else {
      SmallFp(v);
    }
  }

  lemma NoLarger(v: int, p: int, q: int, m: int)
    requires p >= 1 && q * p <= v < q * p + p && m % 16 == 0 && m * p <= v
    ensures m * p <= (q - q % 16) * p
  {
    Scale(q + 1, m, p);
    Scale(q, q, p);
    assert m <= q;
    Scale(m, q - q % 16, p);
  }

  lemma SmallFp(r: int)
    requires 0 <= r < HIBIT
    ensures FpDecode(r) == r
  {
  }

  /** v / P rounded up. */
  lemma Ceil(v: int, p: int) returns (c: int)
    requires p >= 1 && 128 * p <= v < 256 * p
    ensures 128 <= c <= 256 && v <= c * p && c * p < v + p && (v + (16 * p - 1)) / p == c + 15
  {
    Quot(v, p);
    var q := v / p;
    var w := v - q * p;
    c := if w == 0 then q else q + 1;
    Scale(q, q, p);
    CeilShift(v, p, q, w, c, (v + (16 * p - 1)) / p);
  }

  /** What rounding up computes: `u`, the quotient rounded up to a multiple of 16. */
  lemma UpSteps(v: int, p: int, m: int) returns (u: int)
    requires p >= 1 && 128 * p <= v < 256 * p
    ensures 128 <= u <= 256 && u % 16 == 0 && v <= u * p
    ensures Mantissa((v + (16 * p - 1)) / p) == u % 256
    ensures m % 16 == 0 && v <= m * p ==> u <= m
    ensures v <= 240 * p ==> u <= 240
  {
    var c := Ceil(v, p);
    u := c + 15 - (c + 15) % 16;
    Scale(c, u, p);
    if m % 16 == 0 && v <= m * p { NoSmaller(v, p, c, m); }
    if v <= 240 * p { NoSmaller(v, p, c, 240); }
  }

  lemma NoSmaller(v: int, p: int, c: int, m: int)
    requires p >= 1 && v <= c * p < v + p && m % 16 == 0 && v <= m * p
    ensures c + 15 - (c + 15) % 16 <= m
  {
    Scale(m + 1, c, p);
    Scale(m, m, p);
    assert c <= m;
  }

  lemma CeilShift(v: int, p: int, q: int, w: int, c: int, t: int)
    requires p >= 1 && v == q * p + w && 0 <= w < p && c == (if w == 0 then q else q + 1) && t == (v + (16 * p - 1)) / p
    ensures t == c + 15
  {
    var x := v + (16 * p - 1);
    assert x == q * p + 16 * p + (w - 1);
    assert q * p + 16 * p == (q + 16) * p && (q + 15) * p + p == (q + 16) * p;
    if w == 0 {
      DivIs(x, p, q + 15, p - 1);
    } else {
      DivIs(x, p, q + 16, w - 1);
    }
  }

  lemma DivIs(x: int, p: int, k: int, r: int)
    requires p >= 1 && 0 <= r < p && x == k * p + r
    ensures x / p == k
  {
    var d := x / p;
    assert x == d * p + x % p;
    assert (d - k) * p == r - x % p;
    if d > k { Scale(1, d - k, p); }
    if d < k { Scale(d - k, -1, p); }
  }

  /** Rounding up gives the least representable value that is not below `v`, carry into the exponent included. */
  lemma FpUpIsCeiling(v: nat, ls: int, r: int)
    requires ExponentOf(v, ls) && v <= MAX_VALUE && 0 <= r < 256
    ensures 0 <= FpUp(v, ls) < 256 && v <= FpDecode(FpUp(v, ls))
    ensures v <= FpDecode(r) ==> FpDecode(FpUp(v, ls)) <= FpDecode(r)
  {
    if v >= HIBIT {
      var p := Pow2(ls);
      ExponentBound(v, ls);
      var u := UpSteps(v, p, r - r % 16);
      UpByte(v, ls, (v + (16 * p - 1)) / p, u);
      hide FpDecode; hide FpUp;
      UpValue(v, ls, u);
      if r >= HIBIT {
        FpParts(r);
        var m', e := r - r % 16, r % 16;
        OtherExponent(m', e, ls);
        Scale(u, 256, p);
        if e == ls && v <= m' * p { Scale(u, m', p); }
      } else {
        SmallFp(r);
      }
    } else {
      SmallFp(v);
    }
  }

  lemma UpValue(v: nat, ls: int, u: int)
    requires HIBIT <= v <= MAX_VALUE && 0 <= ls <= 15 && 128 <= u <= 256 && u % 16 == 0
    requires FpUp(v, ls) == (if u == 256 then HIBIT + ls + 1 else u + ls) && (v <= 240 * Pow2(ls) ==> u <= 240)
    ensures 0 <= FpUp(v, ls) < 256 && FpDecode(FpUp(v, ls)) == u * Pow2(ls)
  {
    hide FpUp; hide FpDecode;
    Pow2At15();
    if u == 256 {
      assert ls < 15;
      FpMake(128, ls + 1);
      assert Pow2(ls + 1) == 2 * Pow2(ls);
    } else {
      FpMake(u, ls);
    }
  }

  lemma UpByte(v: nat, ls: int, x: int, u: int)
    requires HIBIT <= v && x == (v + (16 * Pow2(ls) - 1)) / Pow2(ls) && Mantissa(x) == u % 256 && 128 <= u <= 256
    ensures FpUp(v, ls) == if u == 256 then HIBIT + ls + 1 else u + ls
  {
    hide Mantissa;
  }
}
