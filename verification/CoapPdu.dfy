/** Building a message: `coap_add_option` and `coap_add_data` of pdu.c. */
module CoapPdu {
  import opened CoapOption
  import opened CoapIterator
  import opened CoapWriter

  /** There is room for the encoded option. */
  predicate Fits(room: int, delta: int, val: seq<byte>) {
    0 <= delta <= 65535 && |val| <= 65804 && |Encode(delta, val)| <= room
  }

  /** `coap_pdu_t`; `buf` is the memory of the message and the byte behind it. */
  class Pdu {
    const maxSize: nat
    const buf: array<byte>
    var length: nat
    var maxDelta: int

    /** Header and token, and the options added so far. */
    ghost const head: seq<byte>
    ghost var opts: seq<Opt>

    constructor (maxSize: nat, head: seq<byte>)
      requires |head| <= maxSize
      ensures fresh(buf) && this.maxSize == maxSize && this.head == head && opts == [] && length == |head|
      ensures maxDelta == 0
      ensures Valid() && Bytes() == head
    {
      this.maxSize, this.head, opts, length, maxDelta := maxSize, head, [], |head|, 0;
      buf := new byte[maxSize + 1](i => if 0 <= i < |head| then head[i] else 0);
      new;
      assert buf[..length] == head;
      assert head + [] == head;
    }

    ghost function Bytes(): seq<byte>
      reads this, buf
      requires length <= buf.Length
    {
      buf[..length]
    }

    /** What is written is the header and the encoded options. */
    ghost predicate Valid()
      reads this, buf
    {
      && buf.Length == maxSize + 1 && length <= maxSize && Ascending(opts, 0) && maxDelta == LastNumber(opts, 0) >= 0
      && Bytes() == head + EncodeList(opts, 0)
    }

    /** `coap_add_option`: appends the encoded option, or returns 0 and leaves the options alone; `aborts` if the
        assertion fails that the option's header fits. */
    method AddOption(number: int, val: seq<byte>) returns (n: nat, aborts: bool)
      requires Valid() && 0 <= number <= 65535 && |val| <= 65804
      modifies this`length, this`maxDelta, this`opts, buf
      ensures aborts <==> number >= old(maxDelta) && OneShort(number - old(maxDelta), |val|, maxSize - old(length))
      ensures !aborts ==> Valid() && (n == 0 <==> !Fits(maxSize - old(length), number - old(maxDelta), val))
      ensures !aborts && n == 0 ==> Bytes() == old(Bytes()) && opts == old(opts) && length == old(length)
      ensures !aborts && n == 0 ==> maxDelta == old(maxDelta)
      ensures !aborts && n != 0 ==> opts == old(opts) + [Opt(number, val)] && length == old(length) + n
      ensures !aborts && n != 0 ==> maxDelta == number
      ensures !aborts && n != 0 ==> number >= old(maxDelta)
      ensures !aborts && n != 0 ==> Bytes() == old(Bytes()) + Encode(number - old(maxDelta), val)
    {
      hide Encode; hide CodeHeader; hide EncodeList; hide OneShort;
      if number < maxDelta {
        return 0, false;
      }
      ghost var before := Bytes();
      n, aborts := EncodeOption(buf, length, maxSize - length, number - maxDelta, val);
      if aborts {
        return;
      }
      assert buf[..length] == before;
      if n != 0 {
        ghost var o, e := Opt(number, val), Encode(number - maxDelta, val);
        AscendingGrows(opts, 0, o);
        ListGrows(opts, 0, o);
        assert buf[..length + n] == before + e;
        assert before + e == head + (EncodeList(opts, 0) + e);
        opts := opts + [o];
        maxDelta := number;
        length := length + n;
      }
    }

    /** `coap_add_data`: the payload marker and the data, if there is room for both. */
    method AddData(data: seq<byte>) returns (r: int)
      requires Valid()
      modifies this`length, buf
      ensures length <= buf.Length && (r == 1 || r == 0)
      ensures (r == 1 <==> data == [] || |data| + 1 <= maxSize - old(length))
      ensures Bytes() == old(Bytes()) + (if r == 1 && data != [] then [PAYLOAD_START] + data else [])
    {
      hide EncodeList;
      ghost var before := Bytes();
      if |data| == 0 {
        return 1;
      }
      if length + |data| + 1 > maxSize {
        return 0;
      }
      buf[length] := PAYLOAD_START;
      length := length + 1;
      var i := 0;
      while i < |data|
        invariant 0 <= i <= |data| && old(length) + 1 + |data| <= maxSize && length == old(length) + 1
        invariant buf.Length == maxSize + 1
        invariant buf[..length + i] == before + ([PAYLOAD_START] + data[..i])
      {
        buf[length + i] := data[i];
        assert buf[..length + i + 1] == buf[..length + i] + [data[i]];
        assert before + ([PAYLOAD_START] + data[..i]) + [data[i]] == before + ([PAYLOAD_START] + data[..i + 1]);
        i := i + 1;
      }
      assert data[..i] == data;
      length := length + |data|;
      r := 1;
    }
  }

  /** A message built by any additions of options and data, read back with the iterator: exactly the options added,
      unless a delta or a length is 269. */
  lemma MessageRoundTrip(head: seq<byte>, opts: seq<Opt>, data: seq<byte>)
    requires Ascending(opts, 0)
    ensures var tail := if data == [] then [] else [PAYLOAD_START] + data;
            Values(Walk(head + EncodeList(opts, 0) + tail, |head|, 0)) == opts <==> Clean(opts, 0)
  {
    ListRoundTrip(head, opts, 0, if data == [] then [] else [PAYLOAD_START] + data);
  }
}
