/** Writing options into a buffer: `coap_opt_setheader` and `coap_opt_encode`. */
module CoapWriter {
  import opened CoapOption
  import opened CoapIterator

  /** Extended bytes of a delta or length. */
  function Skip(v: int): int { if v < 13 then 0 else if v < 270 then 1 else 2 }

  /** The room tests of `coap_opt_setheader`, in its order. */
  predicate Accepts(delta: int, length: int, maxlen: int) {
    && 1 <= maxlen && Skip(delta) + 1 <= maxlen
    && (length < 13 || Skip(delta) + Skip(length) <= maxlen)
  }

  /** The tests for the length bytes are one short: the header needs one byte more than `maxlen` and is written all
      the same. */
  predicate OneShort(delta: int, length: int, maxlen: int) {
    13 <= length && maxlen == (if delta < 13 then 1 else if delta < 270 then 2 else 3) + (if length < 270 then 0 else 1)
  }

  /** An accepted header fits the room given exactly if the tests were not one short. */
  lemma HeaderFits(delta: int, length: int, maxlen: int)
    requires 0 <= delta <= 65535 && 0 <= length && Accepts(delta, length, maxlen)
    ensures |CodeHeader(delta, length)| <= maxlen <==> !OneShort(delta, length, maxlen)
    ensures |CodeHeader(delta, length)| <= maxlen + 1
  {
  }

  /** One byte of room and a value of 13 bytes: accepted, and two bytes are written. */
  lemma OneShortExample()
    ensures Accepts(0, 13, 1) && OneShort(0, 13, 1) && CodeHeader(0, 13) == [13, 0]
  {
  }

  /** Five bytes are always room enough. */
  lemma WidestHeader(delta: int, length: int, maxlen: int)
    requires 0 <= delta <= 65535 && 0 <= length && 5 <= maxlen
    ensures Accepts(delta, length, maxlen) && !OneShort(delta, length, maxlen)
  {
  }

  /** The first half of `coap_opt_setheader`: the delta; false if there is no room. */
  method PutDelta(opt: array<byte>, at: nat, maxlen: nat, delta: int) returns (ok: bool, skip: nat)
    requires at + maxlen < opt.Length && 0 <= delta <= 65535
    modifies opt
    ensures ok <==> 1 <= maxlen && Skip(delta) + 1 <= maxlen
    ensures ok ==> skip == Skip(delta) == |CodeExtended(delta)| < maxlen && opt[at] % 16 == 0 && opt[at] <= 0xE0
    ensures ok ==> opt[at] == 16 * CodeNibble(delta) && opt[at + 1..at + skip + 1] == CodeExtended(delta)
    ensures forall i :: 0 <= i < opt.Length && (i < at || at + maxlen <= i || at + 3 <= i) ==> opt[i] == old(opt[i])
  {
    skip := 0;
    ok := false;
    if maxlen == 0 {
      return;
    }
    if delta < 13 {
      opt[at] := delta * 16;
    } else if delta < 270 {
      if maxlen < 2 {
        return;
      }
      opt[at] := 0xD0;
      skip := 1;
      opt[at + skip] := (delta - 13) % 256;
    } else {
      if maxlen < 3 {
        return;
      }
      opt[at] := 0xE0;
      skip := 1;
      opt[at + skip] := (delta - 269) / 256 % 256;
      skip := 2;
      opt[at + skip] := (delta - 269) % 256;
    }
    ok := true;
  }

  /** The second half: the length, behind `skip` bytes of delta. */
  method PutLength(opt: array<byte>, at: nat, maxlen: nat, skip0: nat, length: nat) returns (ok: bool, skip: nat)
    requires at + maxlen < opt.Length && skip0 <= 2 && skip0 < maxlen && opt[at] % 16 == 0 && opt[at] <= 0xE0
    modifies opt
    ensures ok <==> length < 13 || skip0 + Skip(length) <= maxlen
    ensures ok ==> skip == skip0 + |CodeExtended(length)| <= maxlen && opt[at] == old(opt[at]) + CodeNibble(length)
    ensures ok ==> opt[at + skip0 + 1..at + skip + 1] == CodeExtended(length)
    ensures skip0 <= skip <= skip0 + 2 && skip <= maxlen && (!ok ==> skip == skip0)
    ensures forall i :: 0 <= i < opt.Length && (i < at || at < i <= at + skip0 || at + skip < i) ==> opt[i] == old(opt[i])
  {
    skip := skip0;
    ok := false;
    if length < 13 {
      opt[at] := opt[at] + length;
    } else if length < 270 {
      if maxlen < skip + 1 {
        return;
      }
      opt[at] := opt[at] + 0x0D;
      skip := skip + 1;
      opt[at + skip] := (length - 13) % 256;
    } else {
      if maxlen < skip + 2 {
        return;
      }
      opt[at] := opt[at] + 0x0E;
      skip := skip + 1;
      opt[at + skip] := (length - 269) / 256 % 256;
      skip := skip + 1;
      opt[at + skip] := (length - 269) % 256;
    }
    ok := true;
  }

  /** `coap_opt_setheader` at index `at`; the byte behind the room must exist. */
  method SetHeader(opt: array<byte>, at: nat, maxlen: nat, delta: int, length: nat) returns (n: nat)
    requires at + maxlen < opt.Length && 0 <= delta <= 65535
    modifies opt
    ensures n == 0 <==> !Accepts(delta, length, maxlen)
    ensures n != 0 ==> n == |CodeHeader(delta, length)| && at + n <= opt.Length
    ensures n != 0 ==> opt[at..at + n] == CodeHeader(delta, length)
    ensures forall i :: 0 <= i < opt.Length && (i < at || (at + maxlen <= i && n <= maxlen) || at + maxlen < i) ==> opt[i] == old(opt[i])
  {
    hide CodeExtended; hide CodeNibble; hide Skip; hide CodeHeader;
    var ok, skip := PutDelta(opt, at, maxlen, delta);
    SkipBound(delta);
    if !ok {
      return 0;
    }
    var skip0 := skip;
    ghost var before := opt[..];
    assert before[at + 1..at + skip0 + 1] == CodeExtended(delta);
    ok, skip := PutLength(opt, at, maxlen, skip, length);
    if !ok {
      return 0;
    }
    n := skip + 1;
    ghost var after := opt[..];
    SameSlice(before, after, at + 1, at + skip0 + 1);
    assert after[at + skip0 + 1..at + n] == CodeExtended(length);
    Written(after, at, delta, length);
    assert opt[at..at + n] == after[at..at + n];
  }

  lemma SkipBound(v: int)
    ensures 0 <= Skip(v) <= 2
  {
  }

  lemma SameSlice(a: seq<byte>, b: seq<byte>, i: nat, j: nat)
    requires i <= j <= |a| == |b| && forall k :: i <= k < j ==> b[k] == a[k]
    ensures b[i..j] == a[i..j]
  {
  }

  /** The first byte carries both fields, the rest is as written. */
  lemma Written(a: seq<byte>, at: nat, delta: int, length: int)
    requires 0 <= delta <= 65535 && 0 <= length && at + 1 + |CodeExtended(delta)| + |CodeExtended(length)| <= |a|
    requires a[at] == 16 * CodeNibble(delta) + CodeNibble(length)
    requires a[at + 1..at + 1 + |CodeExtended(delta)|] == CodeExtended(delta)
    requires a[at + 1 + |CodeExtended(delta)|..at + 1 + |CodeExtended(delta)| + |CodeExtended(length)|] == CodeExtended(length)
    ensures var n := |CodeHeader(delta, length)|;
            n == 1 + |CodeExtended(delta)| + |CodeExtended(length)| && at + n <= |a| && a[at..at + n] == CodeHeader(delta, length)
  {
    hide CodeExtended;
    var k, l := |CodeExtended(delta)|, |CodeExtended(length)|;
    var w := a[at..at + 1 + k + l];
    assert w == [a[at]] + a[at + 1..at + 1 + k] + a[at + 1 + k..at + 1 + k + l];
  }

  /** `coap_opt_encode`; `aborts` if its assertion fails: the header did not fit, and its last byte was written
      behind the room. */
  method EncodeOption(opt: array<byte>, at: nat, maxlen: nat, delta: int, val: seq<byte>) returns (n: nat, aborts: bool)
    requires at + maxlen < opt.Length && 0 <= delta <= 65535 && |val| <= 65804
    modifies opt
    ensures aborts <==> OneShort(delta, |val|, maxlen)
    ensures aborts ==> at + maxlen + 1 <= opt.Length && opt[at..at + maxlen + 1] == CodeHeader(delta, |val|)
    ensures !aborts ==> (n == 0 <==> maxlen < |Encode(delta, val)|)
    ensures !aborts && n != 0 ==> n == |Encode(delta, val)| <= maxlen && opt[at..at + n] == Encode(delta, val)
    ensures forall i :: 0 <= i < opt.Length && (i < at || (at + maxlen <= i && !aborts) || at + maxlen < i) ==> opt[i] == old(opt[i])
  {
    hide CodeHeader; hide Accepts; hide OneShort;
    aborts := false;
    RoomCases(delta, |val|, maxlen);
    var l := SetHeader(opt, at, maxlen, delta, |val|);
    if l > maxlen {
      return 0, true;
    }
    if l == 0 {
      return 0, false;
    }
    var room := maxlen - l;
    if room < |val| {
      return 0, false;
    }
    var i := 0;
    while i < |val|
      invariant 0 <= i <= |val| && opt[at..at + l] == CodeHeader(delta, |val|) && opt[at + l..at + l + i] == val[..i]
      invariant forall j :: 0 <= j < opt.Length && (j < at || at + maxlen <= j) ==> opt[j] == old(opt[j])
    {
      opt[at + l + i] := val[i];
      i := i + 1;
    }
    n := l + |val|;
    assert opt[at..at + n] == opt[at..at + l] + opt[at + l..at + n];
  }

  /** The three cases of the room: too small and refused, one short, enough. */
  lemma RoomCases(delta: int, length: int, maxlen: int)
    requires 0 <= delta <= 65535 && 0 <= length
    ensures var n := |CodeHeader(delta, length)|;
            && (OneShort(delta, length, maxlen) <==> Accepts(delta, length, maxlen) && n > maxlen)
            && (OneShort(delta, length, maxlen) ==> n == maxlen + 1)
            && (n <= maxlen ==> Accepts(delta, length, maxlen))
  {
  }

  // ---- Lists ----

  /** The number of the last option. */
  function LastNumber(opts: seq<Opt>, prev: int): int { if opts == [] then prev else opts[|opts| - 1].number }

  lemma {:induction false} AscendingGrows(opts: seq<Opt>, prev: int, o: Opt)
    requires Ascending(opts, prev) && 0 <= LastNumber(opts, prev) <= o.number <= 65535 && |o.value| <= 65804
    ensures Ascending(opts + [o], prev)
    decreases |opts|
  {
    if opts != [] {
      AscendingGrows(opts[1..], opts[0].number, o);
      assert (opts + [o])[1..] == opts[1..] + [o];
    }
  }

  /** An option encoded with the difference to the last number extends the encoded list. */
  lemma {:induction false} ListGrows(opts: seq<Opt>, prev: int, o: Opt)
    requires Ascending(opts, prev) && Ascending(opts + [o], prev) && 0 <= LastNumber(opts, prev) <= o.number <= 65535
    requires |o.value| <= 65804
    ensures EncodeList(opts + [o], prev) == EncodeList(opts, prev) + Encode(o.number - LastNumber(opts, prev), o.value)
    decreases |opts|
  {
    hide Encode; hide CodeHeader; hide EncodeList;
    var all := opts + [o];
    ListHead(all, prev);
    if opts == [] {
      assert all[1..] == [] && all[0] == o;
      NoList(o.number);
      NoList(prev);
    } else {
      assert all[0] == opts[0] && all[1..] == opts[1..] + [o];
      ListHead(opts, prev);
      ListGrows(opts[1..], opts[0].number, o);
    }
  }

  lemma NoList(prev: int)
    ensures EncodeList([], prev) == []
  {
  }

  lemma ListHead(opts: seq<Opt>, prev: int)
    requires opts != [] && Ascending(opts, prev)
    ensures EncodeList(opts, prev) == Encode(opts[0].number - prev, opts[0].value) + EncodeList(opts[1..], opts[0].number)
  {
    hide Encode; hide CodeHeader;
  }
}
