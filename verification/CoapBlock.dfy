/** Block-wise transfer: section 2.2 of RFC 7959 as block.c and block.h implement it. */
module CoapBlock {
  import opened Words
  import opened CoapOption
  import opened CoapWriter
  import opened CoapPdu
  import opened CoapIterator
  import opened CoapEncode

  const COAP_OPTION_BLOCK2 := 23
  const NUM_LIMIT := 0x10_0000

  /** Block size for an exponent: 1 << (szx + 4). */
  function Size(szx: nat): (r: int)
    ensures r >= 16
  {
    Pow2Sum(4, szx);
    Pow2(szx + 4)
  }

  /** Byte offset of a block. */
  function Start(num: nat, szx: nat): int { num * Size(szx) }

  /** `coap_more_blocks` */
  predicate MoreBlocks(dataLength: int, num: nat, szx: nat) { Start(num + 1, szx) < dataLength }

  /** A smaller block size with the number rescaled starts at the same byte. */
  lemma Rescaled(num: nat, szx: nat, szx': nat)
    requires szx' <= szx
    ensures Start(num * Pow2(szx - szx'), szx') == Start(num, szx)
  {
    Pow2Sum(szx - szx', szx' + 4);
    assert num * Pow2(szx - szx') * Size(szx') == num * (Pow2(szx - szx') * Size(szx'));
  }

  // ---- The option's value ----

  /** `(num << 4) | (m << 3) | szx` */
  function BlockValue(num: nat, m: bool, szx: nat): int { num * 16 + (if m then 8 else 0) + szx }

  /** `coap_opt_block_num` on an option value. */
  function BlockNum(v: seq<byte>): int {
    if |v| == 0 then 0 else (if |v| > 1 then Value(v[..|v| - 1]) else 0) * 16 + v[|v| - 1] / 16
  }

  /** COAP_OPT_BLOCK_MORE, COAP_OPT_BLOCK_SZX: the last byte, if any. */
  function BlockMore(v: seq<byte>): bool { |v| != 0 && v[|v| - 1] / 8 % 2 == 1 }

  function BlockSzx(v: seq<byte>): int { if |v| == 0 then 0 else v[|v| - 1] % 8 }

  /** A written block option fits three bytes and reads back as what was written. */
  lemma BlockRoundTrip(num: nat, m: bool, szx: nat)
    requires num < NUM_LIMIT && szx < 8
    ensures var v := Shortest(BlockValue(num, m, szx));
            |v| <= 3 && BlockNum(v) == num && BlockMore(v) == m && BlockSzx(v) == szx
  {
    var x := BlockValue(num, m, szx);
    var v := Shortest(x);
    assert Pow256(0) == 1 && Pow256(1) == 256 && Pow256(2) == 65536 && Pow256(3) == 0x100_0000;
    ShortestSize(x, 3);
    if x > 0 {
      assert v == Shortest(x / 256) + [x % 256];
      assert v[..|v| - 1] == Shortest(x / 256);
      ShortestValue(x / 256);
      Fields(num, m, szx);
    }
  }

  lemma Fields(num: nat, m: bool, szx: nat)
    requires szx < 8
    ensures var x := BlockValue(num, m, szx);
            x / 256 * 16 + x % 256 / 16 == num && (x % 256 / 8 % 2 == 1) == m && x % 256 % 8 == szx
  {
    var x := BlockValue(num, m, szx);
    var low := (if m then 8 else 0) + szx;
    var q, r := num / 16, num % 16;
    assert x == q * 256 + (r * 16 + low);
    assert x / 256 == q && x % 256 == r * 16 + low;
  }

  // ---- Which block to send ----

  /** The block settled on, or that even the smallest does not fit. */
  datatype Decision = Refused | Decided(num: int, m: bool, szx: int)

  /** Room for the payload, as `coap_write_block_opt` computes it from the room left in the message: four bytes are
      set aside, and the difference is unsigned. */
  function Avail(room: int): int { (room - 4) % WORD }

  /** The size decision of `coap_write_block_opt`. */
  function Decide(num: nat, szx: nat, dataLength: int, avail: nat): Decision {
    var start := Start(num, szx);
    if Size(szx) <= avail then Decided(num, Size(szx) < dataLength - start, szx)
    else if dataLength - start <= avail then Decided(num, false, szx)
    else if avail < 16 then Refused
    else Decided(num * Pow2(szx - (Bits(avail) - 5)) % NUM_LIMIT, true, Bits(avail) - 5)
  }

  /** What a decision means. */
  ghost predicate Outcome(num0: int, szx0: int, num: int, m: bool, szx: int, dataLength: int, avail: int) {
    && 0 <= num0 && 0 <= szx <= szx0 && 0 <= num <= num0 * Pow2(szx0 - szx) && num < NUM_LIMIT
    // the offset is kept exactly if the rescaled number fits its 20 bits
    && (Start(num, szx) == Start(num0, szx0) <==> num0 * Pow2(szx0 - szx) < NUM_LIMIT)
    // the payload is not larger than what is available
    && Min(dataLength - Start(num, szx), Size(szx)) <= avail
    // the size falls only if it has to, and then to the largest that is available
    && (szx != szx0 ==> avail < Min(dataLength - Start(num0, szx0), Size(szx0)) && Size(szx) <= avail < 2 * Size(szx))
    // More as `coap_more_blocks` has it
    && (num0 * Pow2(szx0 - szx) < NUM_LIMIT ==> (m <==> MoreBlocks(dataLength, num, szx)))
  }

  function Min(a: int, b: int): int { if a < b then a else b }

  /** For every block asked for: refused exactly if not even 16 bytes, nor the rest of the data, are available; else
      as promised. */
  lemma DecisionMeans(num: nat, szx: nat, dataLength: int, avail: nat)
    requires num < NUM_LIMIT && szx < 8 && Start(num, szx) < dataLength
    ensures var d := Decide(num, szx, dataLength, avail);
            if d.Refused? then avail < Min(16, dataLength - Start(num, szx))
            else (16 <= avail || dataLength - Start(num, szx) <= avail) && Outcome(num, szx, d.num, d.m, d.szx, dataLength, avail)
  {
    hide Size; hide Start;
    NextStart(num, szx);
    NoShift(num);
    if !(Size(szx) <= avail || dataLength - Start(num, szx) <= avail || avail < 16) {
      BitsLength(avail);
      FallBack(avail, szx, Bits(avail));
      FallenBack(num, szx, Bits(avail) - 5, dataLength, avail);
    }
  }

  lemma FallenBack(num: nat, szx: nat, szx': nat, dataLength: int, avail: int)
    requires num < NUM_LIMIT && szx' < szx && Size(szx') <= avail < 2 * Size(szx')
    requires avail < Size(szx) && avail < dataLength - Start(num, szx)
    ensures Outcome(num, szx, num * Pow2(szx - szx') % NUM_LIMIT, true, szx', dataLength, avail)
  {
    hide Size; hide Start;
    var full := num * Pow2(szx - szx');
    assert full >= 0;
    var cut := full % NUM_LIMIT;
    Rescaled(num, szx, szx');
    CutMoves(full, cut, szx');
    NextStart(cut, szx');
  }

  lemma NoShift(num: int)
    requires 0 <= num < NUM_LIMIT
    ensures num * Pow2(0) % NUM_LIMIT == num && num * Pow2(0) == num
  {
  }

  /** The size chosen when the wanted block does not fit. */
  lemma FallBack(avail: int, szx: int, n: int)
    requires 0 <= szx < 8 && BitLength(avail, n) && 16 <= avail < Size(szx)
    ensures 0 <= n - 5 < szx && Size(n - 5) <= avail < 2 * Size(n - 5)
  {
    assert Pow2(4) == 16;
    assert n >= 5 by { if n < 5 { Pow2Monotone(n, 4); } }
    assert n - 1 < szx + 4 by { if n - 1 >= szx + 4 { Pow2Monotone(szx + 4, n - 1); } }
  }

  /** Whether the cut to 20 bits moves the block. */
  lemma CutMoves(full: int, num: int, szx: nat)
    requires 0 <= full && num == full % NUM_LIMIT
    ensures num == full <==> full < NUM_LIMIT
    ensures 0 <= num <= full && (Start(num, szx) == Start(full, szx) <==> full < NUM_LIMIT)
  {
    hide Size;
    if full >= NUM_LIMIT { Scale(num, full, Size(szx)); }
  }

  // ---- Whether the block then fits the message ----

  /** The bytes of a Block option whose value has `len` bytes. */
  function OptionSize(delta: int, len: int): int { 1 + Skip(delta) + len }

  /** The payload of a block, of the rest of the data or of a whole block. */
  function PayloadSize(num: nat, szx: nat, dataLength: int): int { Min(dataLength - Start(num, szx), Size(szx)) }

  /** Behind an option of the given delta and value length, written only if there is room for it, the marker and the
      payload fit. */
  predicate Addable(room: int, delta: int, len: int, payload: int) {
    var n := OptionSize(delta, len);
    payload + 1 <= room - (if n <= room then n else 0)
  }

  /** After a decision the block can be added exactly if: with four bytes or more of room, the option takes at most
      three bytes, or the payload leaves room for the rest of it; with less, what is available was computed modulo
      2^32, and only the room itself decides. */
  lemma WhenAddable(num: nat, szx: nat, dataLength: int, room: nat, delta: nat)
    requires delta <= COAP_OPTION_BLOCK2
    requires num < NUM_LIMIT && szx < 8 && Start(num, szx) < dataLength < WORD && room < WORD
    requires Decide(num, szx, dataLength, Avail(room)).Decided?
    ensures var d := Decide(num, szx, dataLength, Avail(room));
            && 0 <= d.num < NUM_LIMIT && 0 <= d.szx < 8
            && var len, payload := |Shortest(BlockValue(d.num, d.m, d.szx))|, PayloadSize(d.num, d.szx, dataLength);
               && 1 <= payload && len <= 3
               && (room >= 4 ==> (Addable(room, delta, len, payload) <==>
                                    OptionSize(delta, len) <= 3 || payload + 1 + OptionSize(delta, len) <= room))
               && (room < 4 ==> d == Decided(num, Size(szx) < dataLength - Start(num, szx), szx))
  {
    hide Size; hide Start; hide Shortest; hide BlockValue;
    DecisionMeans(num, szx, dataLength, Avail(room));
    var d := Decide(num, szx, dataLength, Avail(room));
    NextStart(d.num, d.szx);
    BlockRoundTrip(d.num, d.m, d.szx);
    StartBelow(num, szx, d.num, d.szx, dataLength);
    if room < 4 { LargestSize(szx); }
  }

  /** Rescaling and cutting never move a block up. */
  lemma StartBelow(num0: nat, szx0: nat, num: nat, szx: nat, dataLength: int)
    requires szx <= szx0 && num <= num0 * Pow2(szx0 - szx) && Start(num0, szx0) < dataLength
    ensures Start(num, szx) < dataLength
  {
    hide Size;
    Rescaled(num0, szx0, szx);
    Scale(num, num0 * Pow2(szx0 - szx), Size(szx));
  }

  lemma LargestSize(szx: nat)
    requires szx < 8
    ensures Size(szx) <= 2048
  {
    Pow2Monotone(szx + 4, 11);
    assert Pow2(11) == 2048;
  }

  /** Nothing left of the message: what is available wraps around, the call succeeds, and neither option nor block
      can be added. */
  lemma NoRoomExample()
    ensures Avail(0) == WORD - 4 && Decide(0, 0, 1000, Avail(0)) == Decided(0, true, 0) && PayloadSize(0, 0, 1000) == 16
    ensures forall delta: nat, len: nat :: OptionSize(delta, len) > 0 && !Addable(0, delta, len, 16)
  {
    assert Size(0) == 16;
  }

  /** Twenty bytes left: 16 are found available, but the option takes five, and the block does not fit any more. */
  lemma FourNotEnoughExample()
    ensures Avail(20) == 16 && Decide(0x1000, 0, 100000, Avail(20)) == Decided(0x1000, true, 0)
    ensures PayloadSize(0x1000, 0, 100000) == 16
    ensures Shortest(BlockValue(0x1000, true, 0)) == [1, 0, 8] && OptionSize(COAP_OPTION_BLOCK2, 3) == 5
    ensures !Addable(20, COAP_OPTION_BLOCK2, 3, 16)
  {
    assert Size(0) == 16 && Start(0x1000, 0) == 0x10000;
    assert Shortest(1) == Shortest(0) + [1];
    assert Shortest(0x100) == Shortest(1) + [0];
    assert Shortest(0x10008) == Shortest(0x100) + [8];
  }

  // ---- The operations ----

  /** `coap_block_t`: 20 bits of number, the More bit, three bits of size. */
  class Block {
    var num: int
    var m: bool
    var szx: int

    ghost predicate Valid()
      reads this
    {
      0 <= num < NUM_LIMIT && 0 <= szx < 8
    }

    constructor (num: int, m: bool, szx: int)
      requires 0 <= num < NUM_LIMIT && 0 <= szx < 8
      ensures Valid() && this.num == num && this.m == m && this.szx == szx
    {
      this.num, this.m, this.szx := num, m, szx;
    }

    /** Whether the block of the given size, or the rest of the data, fits `avail`; else the size to fall back to. */
    method Choose(start: int, avail: nat, dataLength: int) returns (ok: bool)
      requires Valid() && start == Start(num, szx) && start < dataLength
      modifies this`num, this`m, this`szx
      ensures Valid() && (ok <==> Decide(old(num), old(szx), dataLength, avail).Decided?)
      ensures ok ==> Decide(old(num), old(szx), dataLength, avail) == Decided(num, m, szx)
      ensures !ok ==> num == old(num) && m == old(m) && szx == old(szx)
    {
      hide Size; hide Start;
      DecisionMeans(num, szx, dataLength, avail);
      var want := Size(szx);
      ok := true;
      if want <= avail {
        m := want < dataLength - start;
      } else if dataLength - start <= avail {
        m := false;
      } else if avail < 16 {
        ok := false;
      } else {
        var n := Fls(avail);
        var szx0 := szx;
        szx := n - 5;
        m := true;
        num := num * Pow2(szx0 - szx) % NUM_LIMIT;
      }
    }

    /** `coap_write_block_opt` */
    method WriteBlockOpt(number: int, pdu: Pdu, dataLength: nat) returns (rc: int)
      requires Valid() && pdu.Valid() && dataLength < WORD && pdu.maxSize < WORD
      modifies this`num, this`m, this`szx, pdu`length, pdu`maxDelta, pdu`opts, pdu.buf
      ensures Valid() && pdu.Valid() && rc in {1, -1, -2, -3}
      ensures rc == -1 <==> number != COAP_OPTION_BLOCK2
      ensures rc == -2 <==> number == COAP_OPTION_BLOCK2 && dataLength <= Start(old(num), old(szx))
      ensures rc != 1 ==> num == old(num) && m == old(m) && szx == old(szx) && pdu.Bytes() == old(pdu.Bytes())
      ensures rc != 1 ==> pdu.opts == old(pdu.opts)
      ensures number == COAP_OPTION_BLOCK2 && Start(old(num), old(szx)) < dataLength ==>
                var d := Decide(old(num), old(szx), dataLength, Avail(pdu.maxSize - old(pdu.length)));
                if d.Refused? then rc == -3 else rc == 1 && d == Decided(num, m, szx)
      ensures rc == 1 ==> pdu.opts == old(pdu.opts) + (if Takes(pdu, old(pdu.length), old(pdu.maxDelta)) then [Opt(COAP_OPTION_BLOCK2, Shortest(BlockValue(num, m, szx)))] else [])
      // whether the block can be added to the message now
      ensures rc == 1 && old(pdu.maxDelta) <= COAP_OPTION_BLOCK2 ==>
                var val := Shortest(BlockValue(num, m, szx));
                PayloadSize(num, szx, dataLength) + 1 <= pdu.maxSize - pdu.length
                <==> Addable(pdu.maxSize - old(pdu.length), COAP_OPTION_BLOCK2 - old(pdu.maxDelta), |val|, PayloadSize(num, szx, dataLength))
    {
      hide Size; hide Start; hide Decide; hide PayloadSize; hide Shortest; hide EncodeList;
      if number != COAP_OPTION_BLOCK2 {
        return -1;
      }
      var start := Start(num, szx);
      if dataLength <= start {
        return -2;
      }
      var avail := Avail(pdu.maxSize - pdu.length);
      var ok := Choose(start, avail, dataLength);
      if !ok {
        return -3;
      }
      BlockRoundTrip(num, m, szx);
      var buf := new byte[3];
      var n := EncodeVarBytes(buf, BlockValue(num, m, szx));
      SmallOption(COAP_OPTION_BLOCK2 - pdu.maxDelta, buf[..n]);
      var _, _ := pdu.AddOption(number, buf[..n]);
      rc := 1;
    }

    /** The option comes behind those there are, and there is room for it. */
    ghost predicate Takes(pdu: Pdu, length: nat, maxDelta: int)
      reads this
      requires Valid()
    {
      Fits(pdu.maxSize - length, COAP_OPTION_BLOCK2 - maxDelta, Shortest(BlockValue(num, m, szx)))
    }
  }

  lemma SmallOption(delta: int, val: seq<byte>)
    requires delta <= COAP_OPTION_BLOCK2 && |val| <= 3
    ensures forall room :: !OneShort(delta, |val|, room)
    ensures 0 <= delta ==> |Encode(delta, val)| == OptionSize(delta, |val|)
  {
  }

  /** `coap_add_block` */
  method AddBlock(pdu: Pdu, data: seq<byte>, num: nat, szx: nat) returns (r: int)
    requires pdu.Valid() && num < NUM_LIMIT && szx < 8
    modifies pdu`length, pdu.buf
    ensures r == 1 <==> Start(num, szx) < |data| && PayloadSize(num, szx, |data|) + 1 <= pdu.maxSize - old(pdu.length)
    ensures r == 1 || r == 0
    ensures pdu.length <= pdu.buf.Length
    ensures pdu.Bytes() == old(pdu.Bytes()) + (if r == 1 then [PAYLOAD_START] + Payload(data, num, szx) else [])
  {
    hide Size; hide EncodeList;
    NextStart(num, szx);
    var start := Start(num, szx);
    if |data| <= start {
      return 0;
    }
    r := pdu.AddData(Payload(data, num, szx));
  }

  // ---- Reassembly ----

  /** The payload `coap_add_block` adds: none beyond the end of the data. */
  function Payload(data: seq<byte>, num: nat, szx: nat): (r: seq<byte>)
    ensures Start(num, szx) < |data| ==> |r| == PayloadSize(num, szx, |data|)
  {
    var start := Start(num, szx);
    assert start >= 0;
    if |data| <= start then [] else data[start..start + PayloadSize(num, szx, |data|)]
  }

  /** Block sizes used along a transfer never grow. */
  predicate Shrinking(plan: seq<nat>, szx: nat) {
    plan == [] || (plan[0] <= szx && Shrinking(plan[1..], plan[0]))
  }

  /** The payloads of a transfer from block `num` on; `plan` is the block size used for each following block,
      with the number rescaled; when it ends the size stays. */
  ghost function Transfer(data: seq<byte>, num: nat, szx: nat, plan: seq<nat>): seq<byte>
    requires Shrinking(plan, szx)
    decreases |data| - Start(num, szx)
  {
    if !MoreBlocks(|data|, num, szx) then Payload(data, num, szx)
    else
      var szx' := if plan == [] then szx else plan[0];
      Rescaled(num + 1, szx, szx');
      NextStart(num, szx);
      Payload(data, num, szx) + Transfer(data, (num + 1) * Pow2(szx - szx'), szx', if plan == [] then [] else plan[1..])
  }

  lemma NextStart(num: nat, szx: nat)
    ensures Start(num + 1, szx) == Start(num, szx) + Size(szx) && Start(num, szx) >= 0 && Size(szx) >= 16
  {
  }

  /** Whatever smaller sizes are switched to on the way, the payloads up to the first block without More are the
      data, once and in order. */
  lemma {:induction false} Reassembled(data: seq<byte>, num: nat, szx: nat, plan: seq<nat>)
    requires Shrinking(plan, szx) && Start(num, szx) <= |data|
    ensures Start(num, szx) >= 0 && Transfer(data, num, szx, plan) == data[Start(num, szx)..]
    decreases |data| - Start(num, szx)
  {
    NextStart(num, szx);
    if MoreBlocks(|data|, num, szx) {
      var szx' := if plan == [] then szx else plan[0];
      Rescaled(num + 1, szx, szx');
      Reassembled(data, (num + 1) * Pow2(szx - szx'), szx', if plan == [] then [] else plan[1..]);
      var a, b := Start(num, szx), Start(num + 1, szx);
      assert data[a..] == data[a..b] + data[b..];
    }
  }

  // ---- Twenty bits ----

  /** The block size at the end of a transfer. */
  ghost function LastSize(dataLength: int, num: nat, szx: nat, plan: seq<nat>): (s: nat)
    requires Shrinking(plan, szx)
    ensures s <= szx
    decreases dataLength - Start(num, szx)
  {
    if !MoreBlocks(dataLength, num, szx) then szx
    else
      var szx' := if plan == [] then szx else plan[0];
      Rescaled(num + 1, szx, szx');
      NextStart(num, szx);
      LastSize(dataLength, (num + 1) * Pow2(szx - szx'), szx', if plan == [] then [] else plan[1..])
  }

  /** All block numbers of a transfer fit the 20 bits of the option, so that cutting them there changes nothing. */
  ghost predicate InTwentyBits(dataLength: int, num: nat, szx: nat, plan: seq<nat>)
    requires Shrinking(plan, szx)
    decreases dataLength - Start(num, szx)
  {
    && num < NUM_LIMIT
    && (MoreBlocks(dataLength, num, szx) ==>
          var szx' := if plan == [] then szx else plan[0];
          Rescaled(num + 1, szx, szx');
          NextStart(num, szx);
          InTwentyBits(dataLength, (num + 1) * Pow2(szx - szx'), szx', if plan == [] then [] else plan[1..]))
  }

  /** They do exactly if the data has at most 2^20 blocks of the last size. */
  lemma {:induction false} TwentyBits(dataLength: int, num: nat, szx: nat, plan: seq<nat>)
    requires Shrinking(plan, szx) && Start(num, szx) < dataLength
    ensures InTwentyBits(dataLength, num, szx, plan) <==> dataLength <= NUM_LIMIT * Size(LastSize(dataLength, num, szx, plan))
    decreases dataLength - Start(num, szx)
  {
    hide Size;
    NextStart(num, szx);
    var last := LastSize(dataLength, num, szx, plan);
    SizeMonotone(last, szx);
    if MoreBlocks(dataLength, num, szx) {
      var szx' := if plan == [] then szx else plan[0];
      Rescaled(num + 1, szx, szx');
      TwentyBits(dataLength, (num + 1) * Pow2(szx - szx'), szx', if plan == [] then [] else plan[1..]);
      if dataLength <= NUM_LIMIT * Size(last) { FewBlocks(dataLength, num, Size(szx)); }
    } else {
      FewBlocks(dataLength, num, Size(szx));
    }
  }

  lemma FewBlocks(dataLength: int, num: nat, size: int)
    requires size >= 1 && num * size < dataLength
    ensures dataLength <= NUM_LIMIT * size ==> num < NUM_LIMIT
    ensures dataLength <= (num + 1) * size && num < NUM_LIMIT ==> dataLength <= NUM_LIMIT * size
  {
    if num >= NUM_LIMIT { Scale(NUM_LIMIT, num, size); }
    if num + 1 <= NUM_LIMIT { Scale(num + 1, NUM_LIMIT, size); }
  }

  lemma SizeMonotone(szx: nat, szx': nat)
    requires szx <= szx'
    ensures Size(szx) <= Size(szx')
  {
    Pow2Monotone(szx + 4, szx' + 4);
  }

  /** Shifting such a number does not leave 31 bits. */
  lemma ShiftFits(num: nat, szx: nat)
    requires num < NUM_LIMIT && szx < 8
    ensures Start(num, szx) < 0x8000_0000 && Start(num + 1, szx) <= 0x8000_0000
  {
    hide Size;
    LargestSize(szx);
    NextStart(num, szx);
    Scale(num + 1, NUM_LIMIT, Size(szx));
  }

  /** From the first block on, the whole data. */
  lemma WholeTransfer(data: seq<byte>, szx: nat, plan: seq<nat>)
    requires Shrinking(plan, szx)
    ensures Transfer(data, 0, szx, plan) == data
  {
    assert Start(0, szx) == 0;
    Reassembled(data, 0, szx, plan);
  }
}
