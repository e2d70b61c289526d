/** Walking the options of a message: the list coder's inverse, and the filtering iterator. */
module CoapIterator {
  import opened CoapOption
  import BM = BinMaps

  /** A delivered option: where it starts, its number and its value. */
  datatype Item = Item(pos: int, number: int, value: seq<byte>)

  /** No option starts at `pos`: the end, or the payload marker. */
  predicate Finished(s: seq<byte>, pos: nat)
    requires pos <= |s|
  {
    pos == |s| || s[pos] == PAYLOAD_START
  }

  /** All options from `pos` on, as iteration without a filter delivers them; numbers are 16 bits wide. */
  function Walk(s: seq<byte>, pos: nat, number: int): seq<Item>
    requires pos <= |s|
    decreases |s| - pos
  {
    if Finished(s, pos) then []
    else
      var r := Parse(s[pos..], 0);
      if r.Malformed? then []
      else
        var n := (number + r.delta) % 65536;
        [Item(pos, n, s[pos + r.start..pos + r.size])] + Walk(s, pos + r.size, n)
  }

  // ---- Lists of options ----

  datatype Opt = Opt(number: int, value: seq<byte>)

  predicate Ascending(opts: seq<Opt>, prev: int) {
    opts == [] || (0 <= prev <= opts[0].number <= 65535 && |opts[0].value| <= 65804 && Ascending(opts[1..], opts[0].number))
  }

  /** The option list as `coap_opt_encode` writes it, one delta after the other. */
  function EncodeList(opts: seq<Opt>, prev: int): seq<byte>
    requires Ascending(opts, prev)
  {
    if opts == [] then [] else Encode(opts[0].number - prev, opts[0].value) + EncodeList(opts[1..], opts[0].number)
  }

  /** No delta and no length is 269. */
  predicate Clean(opts: seq<Opt>, prev: int)
    requires Ascending(opts, prev)
  {
    opts == [] || (opts[0].number - prev != 269 && |opts[0].value| != 269 && Clean(opts[1..], opts[0].number))
  }

  function Values(items: seq<Item>): seq<Opt> {
    if items == [] then [] else [Opt(items[0].number, items[0].value)] + Values(items[1..])
  }

  lemma HeadParsed(pre: seq<byte>, o: Opt, prev: int, rest: seq<byte>)
    requires 0 <= prev <= o.number <= 65535 && |o.value| <= 65804
    ensures var s := pre + Encode(o.number - prev, o.value) + rest;
            s[|pre|..] == Encode(o.number - prev, o.value) + rest && !Finished(s, |pre|)
  {
    var e := Encode(o.number - prev, o.value);
    var s := pre + e + rest;
    assert s[|pre|..] == e + rest;
    assert s[|pre|] == e[0];
  }

  /** A clean option at the front of the walk. */
  lemma WalkHead(pre: seq<byte>, o: Opt, prev: int, rest: seq<byte>)
    requires 0 <= prev <= o.number <= 65535 && |o.value| <= 65804 && o.number - prev != 269 && |o.value| != 269
    ensures var e := Encode(o.number - prev, o.value); var s := pre + e + rest;
            Walk(s, |pre|, prev) == [Item(|pre|, o.number, o.value)] + Walk(s, |pre + e|, o.number)
  {
    hide Parse; hide Encode; hide CodeHeader; hide Wanted; hide Walk;
    var e := Encode(o.number - prev, o.value);
    var s, n := pre + e + rest, |CodeHeader(o.number - prev, |o.value|)|;
    HeadParsed(pre, o, prev, rest);
    OptionRoundTrip(o.number - prev, o.value, rest, 0);
    WantedIs(o.number - prev, o.value);
    ValueAt(pre, o, prev, rest);
    WalkOnce(s, |pre|, prev, Wanted(o.number - prev, o.value));
  }

  lemma WalkOnce(s: seq<byte>, pos: nat, number: int, r: Parsed)
    requires pos <= |s| && !Finished(s, pos) && r == Parse(s[pos..], 0) && r.Option?
    ensures var n := (number + r.delta) % 65536;
            Walk(s, pos, number) == [Item(pos, n, s[pos + r.start..pos + r.size])] + Walk(s, pos + r.size, n)
  {
    hide Parse;
  }

  lemma WantedIs(delta: int, value: seq<byte>)
    requires 0 <= delta <= 65535 && |value| <= 65804
    ensures var w, n := Wanted(delta, value), |CodeHeader(delta, |value|)|;
            w.Option? && w.size == |Encode(delta, value)| == n + |value| && w.delta == delta && w.start == n && w.length == |value|
  {
    hide Parse; hide CodeHeader;
  }

  lemma ValueAt(pre: seq<byte>, o: Opt, prev: int, rest: seq<byte>)
    requires 0 <= prev <= o.number <= 65535 && |o.value| <= 65804
    ensures var s, n := pre + Encode(o.number - prev, o.value) + rest, |CodeHeader(o.number - prev, |o.value|)|;
            s[|pre| + n..|pre| + n + |o.value|] == o.value
  {
    hide Parse; hide CodeHeader;
  }

  lemma ValuesCons(i: Item, items: seq<Item>)
    ensures Values([i] + items) == [Opt(i.number, i.value)] + Values(items)
  {
    assert ([i] + items)[1..] == items;
  }

  /** Walking an encoded list gives back its numbers and values, up to the end or the payload marker, exactly if the
      list is clean. */
  lemma {:induction false} ListRoundTrip(pre: seq<byte>, opts: seq<Opt>, prev: int, tail: seq<byte>)
    requires Ascending(opts, prev) && (tail == [] || tail[0] == PAYLOAD_START)
    ensures Values(Walk(pre + EncodeList(opts, prev) + tail, |pre|, prev)) == opts <==> Clean(opts, prev)
    decreases |opts|
  {
    hide Parse; hide Encode; hide CodeHeader; hide Walk;
    if opts == [] {
      NoOptions(pre, prev, tail);
    } else {
      var o := opts[0];
      if o.number - prev != 269 && |o.value| != 269 {
        ListRoundTrip(pre + Encode(o.number - prev, o.value), opts[1..], o.number, tail);
        CleanFront(pre, opts, prev, tail);
      } else {
        BadFront(pre, opts, prev, tail);
      }
    }
  }

  lemma NoOptions(pre: seq<byte>, prev: int, tail: seq<byte>)
    requires tail == [] || tail[0] == PAYLOAD_START
    ensures Walk(pre + [] + tail, |pre|, prev) == []
  {
    assert pre + [] + tail == pre + tail;
  }

  lemma CleanFront(pre: seq<byte>, opts: seq<Opt>, prev: int, tail: seq<byte>)
    requires Ascending(opts, prev) && opts != [] && opts[0].number - prev != 269 && |opts[0].value| != 269
    ensures var o := opts[0]; var e := Encode(o.number - prev, o.value);
            Values(Walk(pre + EncodeList(opts, prev) + tail, |pre|, prev)) == opts
            <==> Values(Walk(pre + e + EncodeList(opts[1..], o.number) + tail, |pre + e|, o.number)) == opts[1..]
  {
    hide Parse; hide Encode; hide CodeHeader; hide Walk; hide Values;
    var o, rest := opts[0], EncodeList(opts[1..], opts[0].number) + tail;
    var e := Encode(o.number - prev, o.value);
    var s := pre + EncodeList(opts, prev) + tail;
    assert s == pre + e + rest;
    assert s == pre + e + EncodeList(opts[1..], o.number) + tail;
    WalkHead(pre, o, prev, rest);
    ValuesCons(Item(|pre|, o.number, o.value), Walk(s, |pre + e|, o.number));
    ConsSame(o, Values(Walk(s, |pre + e|, o.number)), opts);
  }

  lemma BadFront(pre: seq<byte>, opts: seq<Opt>, prev: int, tail: seq<byte>)
    requires Ascending(opts, prev) && opts != [] && (opts[0].number - prev == 269 || |opts[0].value| == 269)
    ensures Values(Walk(pre + EncodeList(opts, prev) + tail, |pre|, prev)) != opts
  {
    hide Parse; hide Encode; hide CodeHeader; hide Walk; hide Values;
    var o, rest := opts[0], EncodeList(opts[1..], opts[0].number) + tail;
    var e := Encode(o.number - prev, o.value);
    var s := pre + EncodeList(opts, prev) + tail;
    assert s == pre + e + rest;
    HeadParsed(pre, o, prev, rest);
    NotHead(s, |pre|, prev, o, rest);
  }

  lemma ConsSame(o: Opt, v: seq<Opt>, opts: seq<Opt>)
    requires opts != [] && opts[0] == o
    ensures [o] + v == opts <==> v == opts[1..]
  {
    assert opts == [o] + opts[1..];
    assert ([o] + v)[1..] == v;
  }

  /** An option with 269 in its header comes back changed, or not at all. */
  lemma NotHead(s: seq<byte>, pos: nat, prev: int, o: Opt, rest: seq<byte>)
    requires 0 <= prev <= o.number <= 65535 && |o.value| <= 65804 && (o.number - prev == 269 || |o.value| == 269)
    requires pos <= |s| && s[pos..] == Encode(o.number - prev, o.value) + rest
    ensures var v := Values(Walk(s, pos, prev)); v == [] || v[0] != o
  {
    Parse269(o.number - prev, o.value, rest, 0);
    var r := Parse(s[pos..], 0);
    if !Finished(s, pos) && r.Option? {
      assert |s[pos + r.start..pos + r.size]| == r.length;
    }
  }

  // ---- Filters ----

  /** `coap_option_getb` on a filter of eight bytes; the option number is cut to 8 bits on the way: -1 is out of
      range. */
  function FilterBit(f: seq<byte>, number: int): int
    requires |f| == 8 && 0 <= number
  {
    var t := number % 256;
    if 8 <= t / 8 then -1 else if BM.Bit(f[t / 8], t % 8) then 1 else 0
  }

  /** What a filter is meant to say about an option number. */
  function Intended(f: seq<byte>, number: int): int
    requires |f| == 8 && 0 <= number
  {
    if 64 <= number then -1 else if BM.Bit(f[number / 8], number % 8) then 1 else 0
  }

  /** The filter test is right exactly for the numbers that survive the cut to 8 bits, or land out of range. */
  lemma FilterRange(f: seq<byte>, number: int)
    requires |f| == 8 && 0 <= number
    ensures FilterBit(f, number) == Intended(f, number) <==> number < 256 || 64 <= number % 256
  {
  }

  /** Number 261 passes a filter for number 5. */
  lemma FilterAlias()
    ensures FilterBit([32, 0, 0, 0, 0, 0, 0, 0], 261) == 1 && Intended([32, 0, 0, 0, 0, 0, 0, 0], 261) == -1
  {
    assert BM.Bit(32, 5) by { assert BM.Bit(16, 4) && BM.Bit(8, 3) && BM.Bit(4, 2) && BM.Bit(2, 1) && BM.Bit(1, 0); }
  }

  predicate Numbered(items: seq<Item>) { forall i :: 0 <= i < |items| ==> 0 <= items[i].number }

  /** How many items come before the first whose number is out of the filter's range. */
  function InRange(items: seq<Item>, f: seq<byte>): nat
    requires |f| == 8 && Numbered(items)
  {
    if items == [] || FilterBit(f, items[0].number) < 0 then 0 else 1 + InRange(items[1..], f)
  }

  /** The items whose number the filter has. */
  function Picked(items: seq<Item>, f: seq<byte>): seq<Item>
    requires |f| == 8 && Numbered(items)
  {
    if items == [] then [] else (if FilterBit(f, items[0].number) > 0 then [items[0]] else []) + Picked(items[1..], f)
  }

  lemma {:induction false} WalkNumbered(s: seq<byte>, pos: nat, number: int)
    requires pos <= |s|
    ensures Numbered(Walk(s, pos, number))
    decreases |s| - pos
  {
    if !Finished(s, pos) {
      var r := Parse(s[pos..], 0);
      if r.Option? { WalkNumbered(s, pos + r.size, (number + r.delta) % 65536); }
    }
  }

  lemma {:induction false} InRangeBound(items: seq<Item>, f: seq<byte>)
    requires |f| == 8 && Numbered(items)
    ensures InRange(items, f) <= |items|
  {
    if items != [] { InRangeBound(items[1..], f); }
  }

  /** The items a filtered iteration is to deliver. */
  ghost function Selected(items: seq<Item>, f: seq<byte>): seq<Item>
    requires |f| == 8 && Numbered(items)
  {
    InRangeBound(items, f);
    Picked(items[..InRange(items, f)], f)
  }

  /** One item at a time. */
  lemma SelectedStep(items: seq<Item>, f: seq<byte>)
    requires |f| == 8 && Numbered(items) && items != []
    ensures Selected(items, f) ==
              if FilterBit(f, items[0].number) < 0 then []
              else (if FilterBit(f, items[0].number) > 0 then [items[0]] else []) + Selected(items[1..], f)
  {
    InRangeBound(items[1..], f);
    if FilterBit(f, items[0].number) >= 0 {
      var k := InRange(items, f);
      assert items[..k][1..] == items[1..][..k - 1];
    } else {
      assert items[..0] == [];
    }
  }

  lemma SelectedNone(f: seq<byte>)
    requires |f| == 8
    ensures Selected([], f) == []
  {
  }

  /** One turn of the walk; the payload marker and the end are malformed options too. */
  lemma WalkStep(s: seq<byte>, pos: nat, number: int)
    requires pos <= |s|
    ensures var r := Parse(s[pos..], 0); r.Option? ==> 0 < r.size <= |s| - pos
    ensures var r, items := Parse(s[pos..], 0), Walk(s, pos, number);
            if r.Malformed? then items == []
            else items != [] && items[0].pos == pos && items[0].number == (number + r.delta) % 65536
                 && items[1..] == Walk(s, pos + r.size, (number + r.delta) % 65536)
  {
    if pos < |s| && s[pos] == PAYLOAD_START { MarkerIsNoOption(s[pos..], 0); }
  }

  /** `coap_opt_iterator_t` over the bytes of a message. */
  class OptIterator {
    const s: seq<byte>
    const filtered: bool
    const filter: seq<byte>
    var next: nat
    var length: nat
    var number: int
    var bad: bool

    ghost predicate Valid()
      reads this
    {
      |filter| == 8 && 0 <= number < 65536 && (!bad ==> next + length == |s|)
    }

    /** What is still to be delivered. */
    ghost function Rest(): seq<Item>
      requires Valid()
      reads this
    {
      if bad then []
      else
        WalkNumbered(s, next, number);
        if filtered then Selected(Walk(s, next, number), filter) else Walk(s, next, number)
    }

    /** `coap_option_iterator_init`: header of four bytes, then the token. */
    constructor (pdu: seq<byte>, tokenLength: nat, filtered: bool, filter: seq<byte>)
      requires |filter| == 8
      ensures Valid() && s == pdu && this.filtered == filtered && this.filter == filter
      ensures bad <==> |pdu| <= 4 + tokenLength
      ensures !bad ==> next == 4 + tokenLength && number == 0
    {
      s, this.filtered, this.filter := pdu, filtered, filter;
      next, number := 4 + tokenLength, 0;
      if |pdu| <= 4 + tokenLength {
        bad, length := true, 0;
      } else {
        bad, length := false, |pdu| - (4 + tokenLength);
      }
    }

    /** `opt_finished` */
    method OptFinished() returns (r: bool)
      requires Valid()
      modifies this`bad
      ensures Valid() && r == bad && bad == (old(bad) || Finished(s, next))
    {
      if bad || length == 0 || s[next] == PAYLOAD_START {
        bad := true;
      }
      r := bad;
    }

    /** One turn of the loop of `coap_option_next`: an option delivered (its position), skipped (-2), or the end
        (-1). */
    method Advance() returns (cur: int)
      requires Valid() && !bad
      modifies this`next, this`length, this`number, this`bad
      ensures Valid() && length <= old(length) && (cur == -1 || (cur == -2 && !bad) || (cur >= 0 && !bad))
      ensures (cur != -1 ==> length < old(length))
      ensures cur == -1 ==> bad && old(Rest()) == []
      ensures cur == -2 ==> Rest() == old(Rest())
      ensures cur >= 0 ==> old(Rest()) != [] && cur == old(Rest())[0].pos && number == old(Rest())[0].number
      ensures cur >= 0 ==> Rest() == old(Rest())[1..]
    {
      hide Parse; hide Selected; hide Walk;
      ghost var items := Walk(s, next, number);
      WalkNumbered(s, next, number);
      WalkStep(s, next, number);
      var r := Parse(s[next..], 0);
      if r.Malformed? {
        if filtered { SelectedNone(filter); }
        bad := true;
        return -1;
      }
      cur := next;
      next := next + r.size;
      length := length - r.size;
      number := (number + r.delta) % 65536;
      WalkNumbered(s, next, number);
      if filtered {
        SelectedStep(items, filter);
        var b := FilterBit(filter, number);
        if b < 0 {
          bad := true;
          cur := -1;
        } else if b == 0 {
          cur := -2;
        }
      }
    }

    /** `coap_option_next`: the position of the next option the filter has, or -1. */
    method Next() returns (cur: int)
      requires Valid()
      modifies this`next, this`length, this`number, this`bad
      ensures Valid()
      ensures old(Rest()) == [] ==> cur == -1 && bad
      ensures old(Rest()) != [] ==> !bad && cur == old(Rest())[0].pos && number == old(Rest())[0].number
      ensures old(Rest()) != [] ==> Rest() == old(Rest())[1..]
      ensures cur != -1 ==> length < old(length)
    {
      hide Parse; hide Selected; hide Walk;
      cur := -1;
      if !bad { NothingLeft(s, next, number, filter); }
      var done := OptFinished();
      if done {
        return;
      }
      cur := -2;
      while cur == -2
        invariant Valid() && length <= old(length) && (cur >= 0 || cur == -1 || cur == -2)
        invariant (cur >= 0 ==> length < old(length))
        invariant cur == -2 ==> !bad && Rest() == old(Rest())
        invariant cur == -1 ==> bad && old(Rest()) == []
        invariant cur >= 0 ==> !bad && old(Rest()) != [] && cur == old(Rest())[0].pos && number == old(Rest())[0].number
        invariant cur >= 0 ==> Rest() == old(Rest())[1..]
        decreases length, cur == -2
      {
        cur := Advance();
      }
    }
  }

  lemma NothingLeft(s: seq<byte>, pos: nat, number: int, f: seq<byte>)
    requires pos <= |s| && |f| == 8
    ensures Finished(s, pos) ==> Walk(s, pos, number) == [] && Selected([], f) == []
  {
  }
}
