/** Option headers on the wire: section 3.1 of RFC 7252, and what the coder and the parser of the library do. */
module CoapOption {

  type byte = x: int | 0 <= x < 256

  const PAYLOAD_START: byte := 0xFF

  /** The largest delta the parser takes: its more significant byte is at most 254. */
  const MAX_DELTA := 65548

  // ---- The standard's form ----

  /** The 4-bit field for a delta or a length. */
  function Nibble(v: int): int { if v < 13 then v else if v < 269 then 13 else 14 }

  /** The extended bytes that follow it. */
  function Extended(v: int): seq<byte>
    requires 0 <= v <= 65804
  {
    if v < 13 then [] else if v < 269 then [v - 13] else [(v - 269) / 256, (v - 269) % 256]
  }

  function Header(delta: int, length: int): (r: seq<byte>)
    requires 0 <= delta <= 65535 && 0 <= length <= 65804
    ensures 1 <= |r| <= 5 && r[0] != PAYLOAD_START
  {
    [16 * Nibble(delta) + Nibble(length)] + Extended(delta) + Extended(length)
  }

  // ---- `coap_opt_setheader` ----

  /** The 4-bit field the library writes: 269 still gets the one-byte form. */
  function CodeNibble(v: int): int { if v < 13 then v else if v < 270 then 13 else 14 }

  function CodeExtended(v: int): seq<byte>
    requires 0 <= v
  {
    if v < 13 then [] else if v < 270 then [(v - 13) % 256] else [(v - 269) / 256 % 256, (v - 269) % 256]
  }

  function CodeHeader(delta: int, length: int): (r: seq<byte>)
    requires 0 <= delta <= 65535 && 0 <= length
    ensures 1 <= |r| <= 5 && r[0] != PAYLOAD_START
  {
    [16 * CodeNibble(delta) + CodeNibble(length)] + CodeExtended(delta) + CodeExtended(length)
  }

  lemma ExtendedForms(v: int)
    requires 0 <= v <= 65804
    ensures v != 269 ==> CodeNibble(v) == Nibble(v) && CodeExtended(v) == Extended(v)
    ensures v == 269 ==> CodeNibble(v) == 13 && CodeExtended(v) == [0] && Nibble(v) == 14
  {
  }

  /** The library writes the standard's header except when the delta or the length is 269. */
  lemma StandardHeader(delta: int, length: int)
    requires 0 <= delta <= 65535 && 0 <= length <= 65804
    ensures CodeHeader(delta, length) == Header(delta, length) <==> delta != 269 && length != 269
  {
    ExtendedForms(delta);
    ExtendedForms(length);
    if delta == 269 || length == 269 {
      assert CodeHeader(delta, length)[0] != Header(delta, length)[0];
    }
  }

  // ---- `coap_opt_parse` ----

  /** The parse of one option: its size in bytes, and the fields of `coap_option_t`. */
  datatype Parsed = Malformed | Option(size: int, delta: int, length: int, start: int)

  /** A field and the bytes behind it: value and how many bytes were used, on 16 bits for the delta. */
  datatype Field = NoField | Field(value: int, used: int)

  /** The byte at `i`; `past` is whatever lies behind the buffer. */
  function At(s: seq<byte>, i: int, past: byte): byte { if 0 <= i < |s| then s[i] else past }

  /** The delta switch: `i` is the position before it. */
  function DeltaField(n: int, s: seq<byte>, past: byte): Field {
    if n == 15 then NoField
    else if n == 14 then
      // ADVANCE_OPT to the most significant byte, then to the other
      if |s| < 1 then NoField
      else
        var msb := (At(s, 1, past) * 256 + 269) % 65536;
        if msb < 269 then NoField
        else if |s| < 2 then NoField
        else Field((msb + At(s, 2, past)) % 65536, 2)
    else if n == 13 then
      if |s| < 1 then NoField else Field(13 + At(s, 1, past), 1)
    else Field(n, 0)
  }

  /** The length switch, with `i` bytes used by the delta. */
  function LengthField(n: int, s: seq<byte>, i: int, past: byte): Field {
    if n == 15 then NoField
    else if n == 14 then
      if |s| - i < 2 then NoField
      else Field(At(s, i + 1, past) * 256 + 269 + At(s, i + 2, past), 2)
    else if n == 13 then
      if |s| - i < 1 then NoField else Field(13 + At(s, i + 1, past), 1)
    else Field(n, 0)
  }

  /** `coap_opt_parse` on the bytes `s` (its `length` argument is |s|). */
  function Parse(s: seq<byte>, past: byte): (r: Parsed)
    ensures r.Option? ==> 1 <= r.start <= 5 && r.size == r.start + r.length <= |s| && 0 <= r.delta < 65536
    ensures r.Option? ==> 0 <= r.length <= 65804
  {
    if |s| < 1 then Malformed
    else
      var d := DeltaField(s[0] / 16, s, past);
      if d.NoField? then Malformed
      else
        var l := LengthField(s[0] % 16, s, d.used, past);
        if l.NoField? then Malformed
        else
          var i := d.used + l.used;
          if |s| - i < 1 then Malformed
          else if |s| - i - 1 < l.value then Malformed
          else Option(i + 1 + l.value, d.value, l.value, i + 1)
  }

  /** The byte read behind a truncated header never decides the outcome. */
  lemma ParseIgnoresPast(s: seq<byte>, past: byte, past': byte)
    ensures Parse(s, past) == Parse(s, past')
  {
  }

  /** The payload marker is no option. */
  lemma MarkerIsNoOption(s: seq<byte>, past: byte)
    requires |s| > 0 && s[0] == PAYLOAD_START
    ensures Parse(s, past) == Malformed
  {
  }

  // ---- Round trips of one option ----

  /** What the parser makes of a nibble and its extended bytes. */
  lemma DeltaBack(delta: int, b0: byte, rest: seq<byte>, past: byte)
    requires 0 <= delta <= MAX_DELTA
    ensures DeltaField(Nibble(delta), [b0] + Extended(delta) + rest, past) == Field(delta % 65536, |Extended(delta)|)
  {
    var s := [b0] + Extended(delta) + rest;
    if delta >= 269 {
      assert s[1] == (delta - 269) / 256 && s[2] == (delta - 269) % 256;
    } else if delta >= 13 {
      assert s[1] == delta - 13;
    }
  }

  lemma LengthBack(length: int, pre: seq<byte>, rest: seq<byte>, past: byte)
    requires 0 <= length <= 65804 && |pre| >= 1
    ensures LengthField(Nibble(length), pre + Extended(length) + rest, |pre| - 1, past) == Field(length, |Extended(length)|)
  {
    var s, n := pre + Extended(length) + rest, |pre|;
    if length >= 269 {
      assert s[n] == (length - 269) / 256 && s[n + 1] == (length - 269) % 256;
    } else if length >= 13 {
      assert s[n] == length - 13;
    }
  }

  /** `s` starts with an option in the standard's form. */
  ghost predicate Starts(s: seq<byte>, delta: int, value: seq<byte>) {
    && 0 <= delta <= MAX_DELTA && |value| <= 65804
    && [16 * Nibble(delta) + Nibble(|value|)] + Extended(delta) + Extended(|value|) + value <= s
  }

  /** Such an option parses back, the delta cut to 16 bits. */
  lemma ParseStarting(s: seq<byte>, delta: int, value: seq<byte>, past: byte)
    requires Starts(s, delta, value)
    ensures var n := 1 + |Extended(delta)| + |Extended(|value|)|;
            Parse(s, past) == Option(n + |value|, delta % 65536, |value|, n)
  {
    var b0: byte := 16 * Nibble(delta) + Nibble(|value|);
    var d, l := Extended(delta), Extended(|value|);
    var rest := s[1 + |d| + |l| + |value|..];
    assert b0 / 16 == Nibble(delta) && b0 % 16 == Nibble(|value|);
    DeltaBack(delta, b0, l + value + rest, past);
    LengthBack(|value|, [b0] + d, value + rest, past);
    hide Nibble; hide Extended; hide DeltaField; hide LengthField;
    assert s == [b0] + d + l + value + rest;
    assert s == [b0] + d + (l + value + rest) && s == [b0] + d + l + (value + rest);
  }

  /** Every option that is accepted has that form. */
  lemma AcceptedStarts(s: seq<byte>, past: byte) returns (delta: int, value: seq<byte>)
    requires Parse(s, past).Option?
    ensures Starts(s, delta, value)
  {
    var n, m, i, k;
    n, m, i, k, delta := AcceptedFields(s, past);
    var r := Parse(s, past);
    hide Parse; hide Nibble; hide Extended;
    value := s[k..k + r.length];
    ExtendedIs(n, delta, s[1..i]);
    ExtendedIs(m, r.length, s[i..k]);
    Pieces(s, i, k, k + r.length);
  }

  lemma Pieces(s: seq<byte>, i: nat, k: nat, e: nat)
    requires 1 <= i <= k <= e <= |s|
    ensures [s[0]] + s[1..i] + s[i..k] + s[k..e] <= s
  {
    assert [s[0]] + s[1..i] == s[..i];
    assert s[..i] + s[i..k] == s[..k];
    assert s[..k] + s[k..e] == s[..e];
  }

  /** The header of an accepted option: its fields, where the extended length and the value start, and the delta. */
  lemma AcceptedFields(s: seq<byte>, past: byte) returns (n: int, m: int, i: int, k: int, delta: int)
    requires Parse(s, past).Option?
    ensures |s| > 0 && s[0] == 16 * n + m && 0 <= n < 15 && 0 <= m < 15 && 0 <= delta <= MAX_DELTA
    ensures i == 1 + (if n == 14 then 2 else if n == 13 then 1 else 0)
    ensures k == i + (if m == 14 then 2 else if m == 13 then 1 else 0) && k + Parse(s, past).length <= |s|
    ensures (n == 14 ==> delta == (s[1] as int) * 256 + 269 + s[2] as int) && (n == 13 ==> delta == 13 + s[1] as int)
    ensures (n < 13 ==> delta == n)
    ensures Parse(s, past).length == if m == 14 then (s[i] as int) * 256 + 269 + s[i + 1] as int else if m == 13 then 13 + s[i] as int else m
  {
    n, m := s[0] / 16, s[0] % 16;
    i := 1 + (if n == 14 then 2 else if n == 13 then 1 else 0);
    k := i + (if m == 14 then 2 else if m == 13 then 1 else 0);
    if n == 14 { delta := (s[1] as int) * 256 + 269 + s[2] as int; } else if n == 13 { delta := 13 + s[1] as int; } else { delta := n; }
  }

  /** A field and its extended bytes stand for one number. */
  lemma ExtendedIs(n: int, v: int, bytes: seq<byte>)
    requires 0 <= n < 15 && |bytes| == if n == 14 then 2 else if n == 13 then 1 else 0
    requires v == if n == 14 then bytes[0] * 256 + 269 + bytes[1] else if n == 13 then 13 + bytes[0] else n
    ensures 0 <= v <= 65804 && Nibble(v) == n && Extended(v) == bytes
  {
    if n == 14 { assert (v - 269) / 256 == bytes[0] && (v - 269) % 256 == bytes[1]; }
  }

  /** The parser accepts exactly what starts with an option in the standard's form, up to the largest delta whose
      first byte does not wrap. */
  lemma ParseAccepts(s: seq<byte>, past: byte)
    ensures Parse(s, past).Option? <==> exists delta, value :: Starts(s, delta, value)
  {
    if Parse(s, past).Option? {
      var delta, value := AcceptedStarts(s, past);
    }
    if delta, value :| Starts(s, delta, value) {
      ParseStarting(s, delta, value, past);
    }
  }

  /** Delta 65549 is refused; delta 65536 is taken for 0. */
  lemma LargeDeltaExamples()
    ensures Parse([0xE0, 0xFF, 0], 0) == Malformed
    ensures Starts([0xE0, 0xFE, 0xF3], 65536, []) && Parse([0xE0, 0xFE, 0xF3], 0) == Option(3, 0, 0, 3)
  {
    assert Extended(65536) == [0xFE, 0xF3];
  }

  /** The standard's form of an option parses back, whatever follows it. */
  lemma ParseStandard(delta: int, value: seq<byte>, rest: seq<byte>, past: byte)
    requires 0 <= delta <= 65535 && |value| <= 65804
    ensures var n := |Header(delta, |value|)|;
            Parse(Header(delta, |value|) + value + rest, past) == Option(n + |value|, delta, |value|, n)
  {
    ParseStarting(Header(delta, |value|) + value + rest, delta, value, past);
  }

  /** `coap_opt_encode` as the bytes it leaves: header and value. */
  function Encode(delta: int, value: seq<byte>): (r: seq<byte>)
    requires 0 <= delta <= 65535 && |value| <= 65804
    ensures |r| == |CodeHeader(delta, |value|)| + |value| && |r| > 0 && r[0] != PAYLOAD_START
  {
    CodeHeader(delta, |value|) + value
  }

  /** What encode followed by parse should give. */
  function Wanted(delta: int, value: seq<byte>): Parsed
    requires 0 <= delta <= 65535 && |value| <= 65804
  {
    var n := |CodeHeader(delta, |value|)|;
    Option(n + |value|, delta, |value|, n)
  }

  /** With 269 in either field the parser reads 13 instead. */
  lemma Parse269(delta: int, value: seq<byte>, rest: seq<byte>, past: byte)
    requires 0 <= delta <= 65535 && |value| <= 65804 && (delta == 269 || |value| == 269)
    ensures Parse(Encode(delta, value) + rest, past).Option? ==>
              var r := Parse(Encode(delta, value) + rest, past); if delta == 269 then r.delta == 13 else r.length == 13
  {
    var s := Encode(delta, value) + rest;
    var b0: byte := 16 * CodeNibble(delta) + CodeNibble(|value|);
    assert s[0] == b0 && b0 / 16 == CodeNibble(delta) && b0 % 16 == CodeNibble(|value|);
    if delta == 269 {
      assert s[1] == 0;
    } else {
      ExtendedForms(delta);
      var rest1 := CodeExtended(|value|) + value + rest;
      assert s == [b0] + Extended(delta) + rest1;
      DeltaBack(delta, b0, rest1, past);
      assert s[1 + |Extended(delta)|] == 0;
    }
  }

  /** One option survives encoding and parsing exactly if neither its delta nor its length is 269. */
  lemma OptionRoundTrip(delta: int, value: seq<byte>, rest: seq<byte>, past: byte)
    requires 0 <= delta <= 65535 && |value| <= 65804
    ensures Parse(Encode(delta, value) + rest, past) == Wanted(delta, value) <==> delta != 269 && |value| != 269
  {
    StandardHeader(delta, |value|);
    if delta != 269 && |value| != 269 {
      ParseStandard(delta, value, rest, past);
      assert Encode(delta, value) + rest == Header(delta, |value|) + value + rest;
    } else {
      Parse269(delta, value, rest, past);
    }
  }

  /** An option 269 numbers further on, with an empty value, comes back as one 13 further on. */
  lemma Delta269Example()
    ensures Encode(269, []) == [0xD0, 0] && Parse([0xD0, 0], 0) == Option(2, 13, 0, 2)
  {
  }

  // ---- `coap_opt_delta`, `coap_opt_length`, `coap_opt_value`, `coap_opt_size` ----

  /** The 16-bit delta read without bounds. */
  function OptDelta(s: seq<byte>, past: byte): int {
    var n := At(s, 0, past) / 16;
    if n == 15 then 0
    else if n == 14 then (At(s, 1, past) * 256 + 269 + At(s, 2, past)) % 65536
    else if n == 13 then 13 + At(s, 1, past)
    else n
  }

  /** Bytes in front of the extended length. */
  function DeltaBytes(s: seq<byte>, past: byte): int {
    var n := At(s, 0, past) / 16;
    if n == 14 then 3 else if n == 13 then 2 else 1
  }

  function OptLength(s: seq<byte>, past: byte): int {
    var i, n := DeltaBytes(s, past), At(s, 0, past) % 16;
    if At(s, 0, past) / 16 == 15 || n == 15 then 0
    else if n == 14 then (At(s, i, past) * 256 + 269 + At(s, i + 1, past)) % 65536
    else if n == 13 then 13 + At(s, i, past)
    else n
  }

  /** Offset of the value, 0 for an illegal header. */
  function OptValue(s: seq<byte>, past: byte): int {
    var n := At(s, 0, past) % 16;
    if At(s, 0, past) / 16 == 15 || n == 15 then 0
    else DeltaBytes(s, past) + (if n == 14 then 2 else if n == 13 then 1 else 0)
  }

  /** On every option the parser accepts, the accessors agree with it, the length up to its 16 bits. */
  lemma AccessorsAgree(s: seq<byte>, past: byte)
    requires Parse(s, past).Option?
    ensures var r := Parse(s, past);
            && OptDelta(s, past) == r.delta && OptLength(s, past) == r.length % 65536 && OptValue(s, past) == r.start
  {
  }

  /** `coap_opt_size`, which parses as if the buffer never ended, gives the size of every option the parser accepts. */
  lemma SizeAgrees(s: seq<byte>, more: seq<byte>, past: byte)
    requires Parse(s, past).Option?
    ensures Parse(s + more, past) == Parse(s, past)
  {
    forall i | 0 <= i < |s| ensures (s + more)[i] == s[i] {}
    hide At;
    PrefixFields(s, more, past);
  }

  lemma PrefixFields(s: seq<byte>, more: seq<byte>, past: byte)
    requires Parse(s, past).Option?
    ensures DeltaField(s[0] / 16, s + more, past) == DeltaField(s[0] / 16, s, past)
    ensures LengthField(s[0] % 16, s + more, DeltaField(s[0] / 16, s, past).used, past) == LengthField(s[0] % 16, s, DeltaField(s[0] / 16, s, past).used, past)
  {
    assert forall i :: 0 <= i < |s| ==> (s + more)[i] == s[i];
  }
}
