/** The uDMA driver: channel ownership, the status machine with its interrupts, and linked descriptor chains. */
module Udma {
  import opened Words

  const DMA_CHN_ANY := -1
  const DMA_CHN_INVALID := -2

  datatype Status = DMA_IDLE | DMA_BUSY | DMA_ERROR | DMA_STOP
  datatype Source = DMA_REQ_SOFT | DMA_REQ_PERIPHERAL

  // ---- Descriptors ----

  const DMA_SINGLE_TRANSFER := 1
  const DMA_AUTO_LINKED_TRANSFER := 2
  const DMA_MANUAL_LINKED_TRANSFER := 3
  const INT_BIT := 0x2000_0000

  /** Fields of a control word: the operation in bits 0 and 1, the interrupt enable in bit 29. */
  function OpOf(ctrl: int): int { ctrl % 4 }

  function IntOf(ctrl: int): int { ctrl / INT_BIT % 2 }

  function WithOp(ctrl: int, op: int): int { ctrl - ctrl % 4 + op }

  function WithInt(ctrl: int, i: int): int { ctrl - IntOf(ctrl) * INT_BIT + i * INT_BIT }

  /** All other fields: bits 2 to 28, and bits 30 and 31. */
  function OtherLow(ctrl: int): int { ctrl / 4 % 0x800_0000 }

  function OtherHigh(ctrl: int): int { ctrl / 0x4000_0000 }

  lemma OpField(ctrl: int, op: int)
    requires 0 <= op < 4
    ensures OpOf(WithOp(ctrl, op)) == op && IntOf(WithOp(ctrl, op)) == IntOf(ctrl)
    ensures OtherLow(WithOp(ctrl, op)) == OtherLow(ctrl) && OtherHigh(WithOp(ctrl, op)) == OtherHigh(ctrl)
  {
    var q := ctrl / 4;
    assert ctrl == 4 * q + ctrl % 4 && WithOp(ctrl, op) == 4 * q + op;
    assert WithOp(ctrl, op) / 4 == q;
    QuarterOf(ctrl, q);
    QuarterOf(WithOp(ctrl, op), q);
  }

  lemma QuarterOf(x: int, q: int)
    requires q == x / 4
    ensures x / INT_BIT == q / 0x800_0000 && x / 0x4000_0000 == q / 0x1000_0000
  {
  }

  lemma IntField(ctrl: int, i: int)
    requires 0 <= i < 2
    ensures IntOf(WithInt(ctrl, i)) == i && OpOf(WithInt(ctrl, i)) == OpOf(ctrl)
    ensures OtherLow(WithInt(ctrl, i)) == OtherLow(ctrl) && OtherHigh(WithInt(ctrl, i)) == OtherHigh(ctrl)
  {
    var lo, hi, b := ctrl % INT_BIT, ctrl / 0x4000_0000, IntOf(ctrl);
    Parts(ctrl, hi, b, lo);
    var w := WithInt(ctrl, i);
    assert w == hi * 0x4000_0000 + i * INT_BIT + lo;
    PartsBack(hi, i, lo);
    PartsBack(hi, b, lo);
  }

  lemma Parts(x: int, hi: int, b: int, lo: int)
    requires lo == x % INT_BIT && hi == x / 0x4000_0000 && b == x / INT_BIT % 2
    ensures x == hi * 0x4000_0000 + b * INT_BIT + lo && 0 <= lo < INT_BIT && 0 <= b < 2
  {
  }

  lemma PartsBack(hi: int, b: int, lo: int)
    requires 0 <= lo < INT_BIT && 0 <= b < 2
    ensures var x := hi * 0x4000_0000 + b * INT_BIT + lo;
            x / INT_BIT % 2 == b && x / 0x4000_0000 == hi && x % 4 == lo % 4 && x / 4 % 0x800_0000 == lo / 4
  {
    var x, k := hi * 0x4000_0000 + b * INT_BIT + lo, 2 * hi + b;
    assert x == k * INT_BIT + lo && x / INT_BIT == k;
    QuarterBack(k, lo);
  }

  lemma QuarterBack(k: int, lo: int)
    requires 0 <= lo < INT_BIT
    ensures var x := k * INT_BIT + lo; x % 4 == lo % 4 && x / 4 % 0x800_0000 == lo / 4
  {
    var x, q, r := k * INT_BIT + lo, lo / 4, lo % 4;
    assert x == 4 * (k * 0x800_0000 + q) + r;
    assert x / 4 == k * 0x800_0000 + q;
  }

  /** `dma_desc_t`; the link is the next descriptor of the chain. */
  class Desc {
    var ctrl: int
    var sar: int
    var dar: int
    var next: Desc?

    constructor (ctrl: int, sar: int, dar: int)
      ensures this.ctrl == ctrl && this.sar == sar && this.dar == dar && next == null
    {
      this.ctrl, this.sar, this.dar, next := ctrl, sar, dar, null;
    }
  }

  /** `ds` is the chain that starts at its first descriptor and ends with a null link; no descriptor occurs twice. */
  ghost predicate Chain(ds: seq<Desc>)
    reads ds
  {
    && |ds| > 0 && ds[|ds| - 1].next == null
    && (forall i :: 0 <= i < |ds| - 1 ==> ds[i].next == ds[i + 1])
    && (forall i, j :: 0 <= i < j < |ds| ==> ds[i] != ds[j])
  }

  /** What processing makes of a control word. */
  function Processed(ctrl: int, last: bool, intEnable: int): int {
    if last then WithInt(WithOp(ctrl, DMA_SINGLE_TRANSFER), intEnable)
    else if OpOf(ctrl) != DMA_MANUAL_LINKED_TRANSFER then WithOp(ctrl, DMA_AUTO_LINKED_TRANSFER)
    else ctrl
  }

  /** Non-last descriptors become linked transfers, manual ones staying manual; the last one becomes single with the
      requested interrupt bit; no other control bit changes. */
  lemma ProcessedFields(ctrl: int, last: bool, intEnable: int)
    requires 0 <= intEnable < 2
    ensures var c := Processed(ctrl, last, intEnable);
            && OpOf(c) == (if last then DMA_SINGLE_TRANSFER
                           else if OpOf(ctrl) == DMA_MANUAL_LINKED_TRANSFER then DMA_MANUAL_LINKED_TRANSFER else DMA_AUTO_LINKED_TRANSFER)
            && IntOf(c) == (if last then intEnable else IntOf(ctrl)) && OtherLow(c) == OtherLow(ctrl) && OtherHigh(c) == OtherHigh(ctrl)
  {
    hide OpOf; hide IntOf; hide WithOp; hide WithInt; hide OtherLow; hide OtherHigh;
    OpField(ctrl, DMA_SINGLE_TRANSFER);
    OpField(ctrl, DMA_AUTO_LINKED_TRANSFER);
    IntField(WithOp(ctrl, DMA_SINGLE_TRANSFER), intEnable);
  }

  /** `_dmac_process_desc`: walks the chain to its end, rewriting control words in place. */
  method ProcessDesc(first: Desc, intEnable: int, ghost ds: seq<Desc>)
    requires Chain(ds) && ds[0] == first && 0 <= intEnable < 2
    modifies (set d | d in ds)`ctrl
    ensures Chain(ds)
    ensures forall i :: 0 <= i < |ds| ==> ds[i].ctrl == Processed(old(ds[i].ctrl), i == |ds| - 1, intEnable)
  {
    var desc: Desc? := first;
    ghost var n := 0;
    while desc != null
      invariant 0 <= n <= |ds| && (if n < |ds| then desc == ds[n] else desc == null) && Chain(ds)
      invariant forall i :: 0 <= i < n ==> ds[i].ctrl == Processed(old(ds[i].ctrl), i == |ds| - 1, intEnable)
      invariant forall i :: n <= i < |ds| ==> ds[i].ctrl == old(ds[i].ctrl)
      decreases |ds| - n
    {
      if desc.next != null {
        if OpOf(desc.ctrl) != DMA_MANUAL_LINKED_TRANSFER {
          desc.ctrl := WithOp(desc.ctrl, DMA_AUTO_LINKED_TRANSFER);
        }
      } else {
        desc.ctrl := WithOp(desc.ctrl, DMA_SINGLE_TRANSFER);
        desc.ctrl := WithInt(desc.ctrl, intEnable);
      }
      desc := desc.next;
      n := n + 1;
    }
  }

  // ---- Channels ----

  /** `dma_channel_t` */
  class Channel {
    var desc: Desc?
    var source: Source
    var callback: bool
    var status: Status
    var channel: int
    var intEnable: int

    /** A struct in zeroed memory, before `dmac_init_channel`. */
    constructor ()
      ensures desc == null && channel == 0 && status == DMA_IDLE && intEnable == 0
    {
      desc, source, callback, status, channel, intEnable := null, DMA_REQ_SOFT, false, DMA_IDLE, 0, 0;
    }
  }

  /** What the driver's decisions depend on: status, channel, whether there is a descriptor, whether interrupts are
      off. */
  datatype Chn = Chn(status: Status, channel: int, ready: bool, polled: bool)

  /** The channel table, the structs the program has initialised, and the channels enabled in hardware. */
  datatype View = View(slots: seq<Channel?>, structs: map<Channel, Chn>, enabled: set<int>)

  /** A channel's bits in the status registers: completion and error in DMACSTAT1, activity in DMACSTAT0. */
  datatype Bits = Bits(done: bool, error: bool, active: bool)

  /** `_dmac_wait_channel` */
  function Shown(bits: Bits): Status {
    if bits.done then if bits.error then DMA_ERROR else if bits.active then DMA_BUSY else DMA_IDLE else DMA_BUSY
  }

  /** The calls of the driver, and the interrupts. */
  datatype Event =
    | Initialised(c: Channel, polled: bool)
    | Configured(c: Channel, ready: bool)
    | Reserved(c: Channel, wanted: int)
    | Started(c: Channel, callback: bool)
    | Stopped(c: Channel)
    | Cleared(c: Channel)
    | Released(c: Channel)
    | Polled(c: Channel, bits: Bits)
    | Finished(channel: int, error: bool)

  ghost predicate InTable(v: View, i: int) { 0 <= i < |v.slots| }

  /** The struct has a channel of the table. */
  ghost predicate Bound(v: View, c: Channel) { c in v.structs && InTable(v, v.structs[c].channel) }

  /** The checks most calls start with. */
  ghost predicate Usable(v: View, c: Channel) { Bound(v, c) && v.structs[c].ready }

  ghost predicate Busy(v: View, c: Channel) { c in v.structs && v.structs[c].status == DMA_BUSY }

  ghost function FirstFree(slots: seq<Channel?>, i: nat): (r: int)
    requires i <= |slots|
    ensures r == DMA_CHN_INVALID || (i <= r < |slots| && slots[r] == null && forall j :: i <= j < r ==> slots[j] != null)
    ensures r == DMA_CHN_INVALID <==> forall j :: i <= j < |slots| ==> slots[j] != null
    decreases |slots| - i
  {
    if i == |slots| then DMA_CHN_INVALID else if slots[i] == null then i else FirstFree(slots, i + 1)
  }

  /** The channel a reservation gets. */
  ghost function Granted(v: View, wanted: int): (r: int)
    ensures r == DMA_CHN_INVALID || (InTable(v, r) && v.slots[r] == null)
  {
    if wanted == DMA_CHN_ANY then FirstFree(v.slots, 0)
    else if InTable(v, wanted) && v.slots[wanted] == null then wanted
    else DMA_CHN_INVALID
  }

  /** What each event does. */
  ghost function Apply(v: View, e: Event): View {
    match e
    case Initialised(c, polled) => v.(structs := v.structs[c := Chn(DMA_IDLE, DMA_CHN_INVALID, false, polled)])
    case Configured(c, ready) => if c !in v.structs then v else v.(structs := v.structs[c := v.structs[c].(ready := ready)])
    case Reserved(c, wanted) =>
      var r := Granted(v, wanted);
      if r == DMA_CHN_INVALID || c !in v.structs then v
      else v.(slots := v.slots[r := c], structs := v.structs[c := v.structs[c].(status := DMA_IDLE, channel := r)])
    case Started(c, callback) =>
      if !Usable(v, c) || Busy(v, c) then v
      else v.(structs := v.structs[c := v.structs[c].(status := DMA_BUSY, polled := !callback)], enabled := v.enabled + {v.structs[c].channel})
    case Stopped(c) =>
      if !Usable(v, c) then v
      else v.(structs := v.structs[c := v.structs[c].(status := if Busy(v, c) then DMA_STOP else v.structs[c].status)],
              enabled := v.enabled - {v.structs[c].channel})
    case Cleared(c) =>
      if !Usable(v, c) then v
      else v.(structs := v.structs[c := v.structs[c].(status := DMA_IDLE)], enabled := v.enabled + {v.structs[c].channel})
    case Released(c) =>
      if !Usable(v, c) then v
      else View(v.slots[v.structs[c].channel := null], v.structs[c := v.structs[c].(channel := DMA_CHN_INVALID)], v.enabled - {v.structs[c].channel})
    case Polled(c, bits) =>
      if !Usable(v, c) || !v.structs[c].polled then v else v.(structs := v.structs[c := v.structs[c].(status := Shown(bits))])
    case Finished(i, error) =>
      if !InTable(v, i) || v.slots[i] == null || v.slots[i] !in v.structs then v
      else v.(structs := v.structs[v.slots[i] := v.structs[v.slots[i]].(status := if error then DMA_ERROR else DMA_IDLE)], enabled := v.enabled - {i})
  }

  lemma StartedIs(v: View, c: Channel, callback: bool)
    requires Usable(v, c) && !Busy(v, c)
    ensures var ch := v.structs[c].channel;
            Apply(v, Started(c, callback)) == View(v.slots, v.structs[c := Chn(DMA_BUSY, ch, true, !callback)], v.enabled + {ch})
  {
  }

  lemma StartedNot(v: View, c: Channel, callback: bool)
    ensures !Usable(v, c) || Busy(v, c) ==> Apply(v, Started(c, callback)) == v
  {
  }

  lemma OnlyOne(v: map<Channel, Chn>, w: map<Channel, Chn>, c: Channel)
    requires c in w && w.Keys == v.Keys + {c} && forall x :: x in v && x != c ==> w[x] == v[x]
    ensures w == v[c := w[c]]
  {
  }

  /** Calls are made on initialised structs; interrupts come from enabled channels. */
  ghost predicate Legal(v: View, e: Event) {
    match e
    case Initialised(_, _) => true
    case Finished(i, _) => i in v.enabled
    case _ => e.c in v.structs
  }

  // ---- What every step keeps ----

  /** A struct's channel is its own: the slot names the struct; enabled channels have an owner for their interrupts
      to find. */
  ghost predicate Safe(v: View) {
    && (forall i :: 0 <= i < |v.slots| && v.slots[i] != null ==> v.slots[i] in v.structs)
    && (forall c :: c in v.structs && InTable(v, v.structs[c].channel) ==> v.slots[v.structs[c].channel] == c)
    && (forall i :: i in v.enabled ==> InTable(v, i) && v.slots[i] != null)
  }

  lemma StepSafe(v: View, e: Event)
    requires Safe(v) && Legal(v, e)
    ensures Safe(Apply(v, e)) && |Apply(v, e).slots| == |v.slots|
  {
  }

  /** No channel has two owners, whatever was called before. */
  lemma OneOwner(v: View, c: Channel, d: Channel)
    requires Safe(v) && Bound(v, c) && Bound(v, d) && v.structs[c].channel == v.structs[d].channel
    ensures c == d
  {
  }

  /** No slot is held by a struct that does not know of it. */
  ghost predicate NoneStale(v: View) {
    forall i :: 0 <= i < |v.slots| && v.slots[i] != null ==> v.slots[i] in v.structs && v.structs[v.slots[i]].channel == i
  }

  /** A struct that has a channel is initialised again, or given another one. */
  ghost predicate Rebinds(v: View, e: Event) {
    match e
    case Initialised(c, _) => Bound(v, c)
    case Reserved(c, wanted) => Bound(v, c) && Granted(v, wanted) != DMA_CHN_INVALID
    case _ => false
  }

  /** Slots and structs stay one-to-one exactly if no struct with a channel is initialised or reserved for. */
  lemma StepStale(v: View, e: Event)
    requires Safe(v) && Legal(v, e) && NoneStale(v)
    ensures NoneStale(Apply(v, e)) <==> !Rebinds(v, e)
  {
    var w := Apply(v, e);
    if Rebinds(v, e) {
      var i := v.structs[e.c].channel;
      assert w.slots[i] == e.c && w.structs[e.c].channel != i;
    }
  }

  /** A busy struct's channel is enabled. */
  ghost predicate BusyEnabled(v: View) {
    forall c :: c in v.structs && Bound(v, c) && Busy(v, c) ==> v.structs[c].channel in v.enabled
  }

  /** The hardware shows no completion, because the channel does not run. */
  ghost predicate Phantom(v: View, e: Event) {
    e.Polled? && Usable(v, e.c) && v.structs[e.c].polled && Shown(e.bits) == DMA_BUSY && v.structs[e.c].channel !in v.enabled
  }

  /** Busy structs stay on enabled channels exactly if no channel that does not run is asked for its status. */
  lemma StepEnabled(v: View, e: Event)
    requires Safe(v) && Legal(v, e) && BusyEnabled(v)
    ensures BusyEnabled(Apply(v, e)) <==> !Phantom(v, e)
  {
    if Phantom(v, e) {
      assert Bound(Apply(v, e), e.c) && Busy(Apply(v, e), e.c);
    } else {
      forall c | Bound(Apply(v, e), c) && Busy(Apply(v, e), c) ensures Apply(v, e).structs[c].channel in Apply(v, e).enabled {
        StillEnabled(v, e, c);
      }
    }
  }

  lemma StillEnabled(v: View, e: Event, c: Channel)
    requires Safe(v) && Legal(v, e) && BusyEnabled(v) && !Phantom(v, e) && Bound(Apply(v, e), c) && Busy(Apply(v, e), c)
    ensures Apply(v, e).structs[c].channel in Apply(v, e).enabled
  {
    if Bound(v, c) && Busy(v, c) { assert v.structs[c].channel in v.enabled; }
  }

  /** After that the struct counts as busy and can not be started. */
  lemma PhantomStuck(v: View, e: Event, callback: bool)
    requires Phantom(v, e)
    ensures Busy(Apply(v, e), e.c) && Apply(Apply(v, e), Started(e.c, callback)) == Apply(v, e)
  {
  }

  /** A struct just reserved and never started, whose completion bit is clear, is already in that trap. */
  lemma PhantomExample(c: Channel, error: bool, active: bool)
    ensures var v := Apply(Apply(Apply(View([null], map[], {}), Initialised(c, true)), Configured(c, true)), Reserved(c, 0));
            var e := Polled(c, Bits(false, error, active));
            Phantom(v, e) && !Busy(v, c) && Busy(Apply(v, e), c)
  {
  }

  ghost predicate BusyBound(v: View) { forall c :: c in v.structs && Busy(v, c) ==> Bound(v, c) }

  /** Whoever is busy keeps a channel exactly if no busy struct is released. */
  lemma StepBusyBound(v: View, e: Event)
    requires Safe(v) && Legal(v, e) && BusyBound(v)
    ensures BusyBound(Apply(v, e)) <==> !(e.Released? && Usable(v, e.c) && Busy(v, e.c))
  {
    var w := Apply(v, e);
    if e.Released? && Usable(v, e.c) && Busy(v, e.c) {
      assert Busy(w, e.c) && !Bound(w, e.c);
    } else {
      forall c | Busy(w, c) ensures Bound(w, c) {
        if Busy(v, c) { assert Bound(v, c); }
      }
    }
  }

  // ---- How a transfer ends ----

  /** The events that end the busy status of `c`: completion and error, stop, clear and poll; but also a reservation
      and an initialisation. */
  ghost predicate EndsBusy(v: View, e: Event, c: Channel) {
    match e
    case Finished(i, _) => InTable(v, i) && v.slots[i] == c
    case Stopped(d) => d == c && Usable(v, c)
    case Cleared(d) => d == c && Usable(v, c)
    case Polled(d, bits) => d == c && Usable(v, c) && v.structs[c].polled && bits.done && (bits.error || !bits.active)
    case Reserved(d, wanted) => d == c && Granted(v, wanted) != DMA_CHN_INVALID
    case Initialised(d, _) => d == c
    case _ => false
  }

  /** Exactly these do. */
  lemma StepBusy(v: View, e: Event, c: Channel)
    requires Busy(v, c)
    ensures c in Apply(v, e).structs && (!Busy(Apply(v, e), c) <==> c in v.structs && EndsBusy(v, e, c))
  {
  }

  // ---- Where a status comes from ----

  /** The event gives struct `c` a status. */
  ghost predicate Sets(v: View, e: Event, c: Channel) {
    match e
    case Initialised(d, _) => d == c
    case Configured(_, _) => false
    case Reserved(d, wanted) => d == c && Granted(v, wanted) != DMA_CHN_INVALID
    case Started(d, _) => d == c && Usable(v, c) && !Busy(v, c)
    case Stopped(d) => d == c && Usable(v, c) && Busy(v, c)
    case Cleared(d) => d == c && Usable(v, c)
    case Released(_) => false
    case Polled(d, _) => d == c && Usable(v, c) && v.structs[c].polled
    case Finished(i, _) => InTable(v, i) && v.slots[i] == c
  }

  /** The status after every event is the one it gives, or the one there was: idle by initialisation, reservation,
      clearing and completion, busy by a start, stopped by a stop while busy, in error by an error interrupt. */
  lemma StepStatus(v: View, e: Event, c: Channel)
    requires Safe(v) && Legal(v, e) && c in Apply(v, e).structs
    ensures var s := Apply(v, e).structs[c].status;
            && (!Sets(v, e, c) ==> c in v.structs && s == v.structs[c].status)
            && (Sets(v, e, c) && (e.Initialised? || e.Reserved? || e.Cleared? || (e.Finished? && !e.error)) ==> s == DMA_IDLE)
            && (Sets(v, e, c) && e.Started? ==> s == DMA_BUSY)
            && (Sets(v, e, c) && e.Stopped? ==> s == DMA_STOP)
            && (Sets(v, e, c) && e.Finished? && e.error ==> s == DMA_ERROR)
            && (Sets(v, e, c) && e.Polled? && e.bits.done && e.bits.error ==> s == DMA_ERROR)
            && (Sets(v, e, c) && e.Polled? && e.bits.done && !e.bits.error && !e.bits.active ==> s == DMA_IDLE)
            && (Sets(v, e, c) && e.Polled? && (!e.bits.done || (!e.bits.error && e.bits.active)) ==> s == DMA_BUSY)
  {
  }

  /** The events that take a channel from `c`. */
  ghost predicate Unbinds(v: View, e: Event, c: Channel) {
    match e
    case Released(d) => d == c && Usable(v, c)
    case Reserved(d, wanted) => d == c && Granted(v, wanted) != DMA_CHN_INVALID
    case Initialised(d, _) => d == c
    case _ => false
  }

  lemma StepOwner(v: View, e: Event, c: Channel)
    requires Safe(v) && Bound(v, c)
    ensures c in Apply(v, e).structs && (Apply(v, e).structs[c].channel != v.structs[c].channel <==> Unbinds(v, e, c))
  {
  }

  // ---- Runs ----

  /** From `dmac_init` on, any legal calls and interrupts. */
  ghost predicate Run(vs: seq<View>, es: seq<Event>) {
    && |vs| == |es| + 1 && vs[0].structs == map[] && vs[0].enabled == {} && (forall i :: 0 <= i < |vs[0].slots| ==> vs[0].slots[i] == null)
    && (forall i {:trigger es[i]} :: 0 <= i < |es| ==> Legal(vs[i], es[i]) && vs[i + 1] == Apply(vs[i], es[i]))
  }

  lemma Start0(vs: seq<View>, es: seq<Event>)
    requires Run(vs, es)
    ensures Safe(vs[0]) && NoneStale(vs[0]) && BusyEnabled(vs[0])
  {
  }

  /** In every state of every run channels and structs agree on ownership, and enabled channels have owners. */
  lemma {:induction false} RunSafe(vs: seq<View>, es: seq<Event>, n: nat)
    requires Run(vs, es) && n <= |es|
    ensures Safe(vs[n])
  {
    hide Apply; hide Legal; hide Safe;
    Start0(vs, es);
    if n > 0 {
      RunSafe(vs, es, n - 1);
      assert vs[n - 1 + 1] == Apply(vs[n - 1], es[n - 1]);
      StepSafe(vs[n - 1], es[n - 1]);
    }
  }

  /** Ownership is one-to-one all along a run exactly if no struct that has a channel is initialised or reserved for. */
  lemma {:induction false} RunStale(vs: seq<View>, es: seq<Event>, n: nat)
    requires Run(vs, es) && n <= |es|
    ensures (forall k :: 0 <= k <= n ==> NoneStale(vs[k])) <==> (forall k :: 0 <= k < n ==> !Rebinds(vs[k], es[k]))
  {
    hide Apply; hide Legal; hide Safe; hide NoneStale; hide Rebinds;
    Start0(vs, es);
    if n > 0 {
      RunStale(vs, es, n - 1);
      RunSafe(vs, es, n - 1);
      assert vs[n - 1 + 1] == Apply(vs[n - 1], es[n - 1]);
      if NoneStale(vs[n - 1]) { StepStale(vs[n - 1], es[n - 1]); }
    }
  }

  /** Busy structs are on enabled channels all along a run exactly if no idle channel is polled as busy. */
  lemma {:induction false} RunEnabled(vs: seq<View>, es: seq<Event>, n: nat)
    requires Run(vs, es) && n <= |es|
    ensures (forall k :: 0 <= k <= n ==> BusyEnabled(vs[k])) <==> (forall k :: 0 <= k < n ==> !Phantom(vs[k], es[k]))
  {
    hide Apply; hide Legal; hide Safe; hide BusyEnabled; hide Phantom;
    Start0(vs, es);
    if n > 0 {
      RunEnabled(vs, es, n - 1);
      RunSafe(vs, es, n - 1);
      assert vs[n - 1 + 1] == Apply(vs[n - 1], es[n - 1]);
      if BusyEnabled(vs[n - 1]) { StepEnabled(vs[n - 1], es[n - 1]); }
    }
  }

  /** If a struct is busy at one time and not at a later one, one of the ending events for it lies between. */
  lemma {:induction false} RunBusy(vs: seq<View>, es: seq<Event>, i: nat, j: nat, c: Channel) returns (k: nat)
    requires Run(vs, es) && i <= j <= |es| && Busy(vs[i], c) && !Busy(vs[j], c)
    ensures i <= k < j && Busy(vs[k], c) && EndsBusy(vs[k], es[k], c)
    decreases j
  {
    assert vs[j - 1 + 1] == Apply(vs[j - 1], es[j - 1]);
    if Busy(vs[j - 1], c) {
      StepBusy(vs[j - 1], es[j - 1], c);
      k := j - 1;
    } else {
      k := RunBusy(vs, es, i, j - 1, c);
    }
  }

  /** The last event of a run that gave a struct its status. */
  lemma {:induction false} LastSet(vs: seq<View>, es: seq<Event>, n: nat, c: Channel) returns (k: nat)
    requires Run(vs, es) && n <= |es| && c in vs[n].structs
    ensures k < n && Sets(vs[k], es[k], c) && forall j :: k < j < n ==> !Sets(vs[j], es[j], c)
    ensures forall j :: k < j <= n ==> c in vs[j].structs && vs[j].structs[c].status == vs[n].structs[c].status
    decreases n
  {
    hide Apply; hide Safe; hide Sets;
    assert n > 0;
    var m := n - 1;
    assert vs[m + 1] == Apply(vs[m], es[m]) && Legal(vs[m], es[m]);
    RunSafe(vs, es, m);
    StepStatus(vs[m], es[m], c);
    if Sets(vs[m], es[m], c) {
      k := m;
    } else {
      k := LastSet(vs, es, m, c);
    }
  }

  /** In every run a struct's status is DMA_STOP exactly if the last event that gave it one was a stop while busy. */
  lemma RunStopped(vs: seq<View>, es: seq<Event>, n: nat, c: Channel)
    requires Run(vs, es) && n <= |es| && c in vs[n].structs
    ensures vs[n].structs[c].status == DMA_STOP <==>
            exists k :: 0 <= k < n && es[k] == Stopped(c) && Usable(vs[k], c) && Busy(vs[k], c)
                        && forall j :: k < j < n ==> !Sets(vs[j], es[j], c)
  {
    var k := LastSet(vs, es, n, c);
    LastIs(vs, es, n, c, k);
  }

  /** In every run a struct's status is DMA_ERROR exactly if the last event that gave it one was an error interrupt of a
      channel it holds, or a poll that showed completion with an error. */
  lemma RunError(vs: seq<View>, es: seq<Event>, n: nat, c: Channel)
    requires Run(vs, es) && n <= |es| && c in vs[n].structs
    ensures vs[n].structs[c].status == DMA_ERROR <==>
            exists k :: 0 <= k < n && Sets(vs[k], es[k], c)
                        && ((es[k].Finished? && es[k].error) || (es[k].Polled? && es[k].bits.done && es[k].bits.error))
                        && forall j :: k < j < n ==> !Sets(vs[j], es[j], c)
  {
    var k := LastSet(vs, es, n, c);
    LastIs(vs, es, n, c, k);
  }

  lemma LastIs(vs: seq<View>, es: seq<Event>, n: nat, c: Channel, k: nat)
    requires Run(vs, es) && k < n <= |es| && c in vs[n].structs && c in vs[k + 1].structs && Sets(vs[k], es[k], c)
    requires vs[k + 1].structs[c].status == vs[n].structs[c].status
    ensures vs[n].structs[c].status == DMA_STOP <==> es[k] == Stopped(c)
    ensures vs[n].structs[c].status == DMA_ERROR <==>
            (es[k].Finished? && es[k].error) || (es[k].Polled? && es[k].bits.done && es[k].bits.error)
  {
    hide Apply; hide Safe;
    assert vs[k + 1] == Apply(vs[k], es[k]) && Legal(vs[k], es[k]);
    RunSafe(vs, es, k);
    StepStatus(vs[k], es[k], c);
  }

  /** A channel stays with its owner until the owner is released, reserved for or initialised again. */
  lemma {:induction false} RunOwner(vs: seq<View>, es: seq<Event>, i: nat, j: nat, c: Channel) returns (k: nat)
    requires Run(vs, es) && i <= j <= |es| && Bound(vs[i], c)
    requires (c in vs[j].structs ==> vs[j].structs[c].channel != vs[i].structs[c].channel)
    ensures i <= k < j && Bound(vs[k], c) && vs[k].structs[c].channel == vs[i].structs[c].channel
    ensures Unbinds(vs[k], es[k], c)
    decreases j
  {
    hide Apply; hide Legal; hide Safe; hide Unbinds;
    assert vs[j - 1 + 1] == Apply(vs[j - 1], es[j - 1]);
    RunTable(vs, es, i);
    RunTable(vs, es, j - 1);
    RunSafe(vs, es, j - 1);
    if c in vs[j - 1].structs && vs[j - 1].structs[c].channel == vs[i].structs[c].channel {
      StepOwner(vs[j - 1], es[j - 1], c);
      k := j - 1;
    } else {
      k := RunOwner(vs, es, i, j - 1, c);
    }
  }

  /** The table keeps its size. */
  lemma {:induction false} RunTable(vs: seq<View>, es: seq<Event>, n: nat)
    requires Run(vs, es) && n <= |es|
    ensures |vs[n].slots| == |vs[0].slots|
  {
    hide Apply; hide Legal; hide Safe;
    if n > 0 {
      RunTable(vs, es, n - 1);
      RunSafe(vs, es, n - 1);
      assert vs[n - 1 + 1] == Apply(vs[n - 1], es[n - 1]);
      StepSafe(vs[n - 1], es[n - 1]);
    }
  }

  /** A busy struct without a channel was released while busy. */
  lemma {:induction false} RunOrphan(vs: seq<View>, es: seq<Event>, n: nat, c: Channel) returns (k: nat)
    requires Run(vs, es) && n <= |es| && Busy(vs[n], c) && !Bound(vs[n], c)
    ensures k < n && es[k] == Released(c) && Usable(vs[k], c) && Busy(vs[k], c)
  {
    assert n > 0;
    assert vs[n - 1 + 1] == Apply(vs[n - 1], es[n - 1]);
    if Busy(vs[n - 1], c) && !Bound(vs[n - 1], c) {
      k := RunOrphan(vs, es, n - 1, c);
    } else {
      k := n - 1;
    }
  }

  /** Where structs are never rebound, a reservation ends a busy status exactly if it is granted to a busy struct,
      and then the struct was released while busy. */
  lemma ReservedBusy(vs: seq<View>, es: seq<Event>, n: nat, c: Channel) returns (k: nat)
    requires Run(vs, es) && n < |es| && es[n].Reserved? && es[n].c == c && Busy(vs[n], c) && !Busy(vs[n + 1], c)
    requires !Rebinds(vs[n], es[n])
    ensures k < n && es[k] == Released(c) && Usable(vs[k], c) && Busy(vs[k], c)
  {
    assert vs[n + 1] == Apply(vs[n], es[n]);
    StepBusy(vs[n], es[n], c);
    k := RunOrphan(vs, es, n, c);
  }

  // ---- The driver ----

  /** `dma_state_t` and the hardware's set of enabled channels. */
  class Dmac {
    const chns: array<Channel?>
    var enabled: set<int>

    /** The channel structs the program has initialised. */
    ghost var all: set<Channel>

    constructor (n: nat)
      ensures fresh(chns) && chns.Length == n && all == {} && Now() == View.View(seq(n, _ => null), map[], {})
      ensures Valid() && enabled == {} && forall i :: 0 <= i < n ==> chns[i] == null
    {
      chns := new Channel?[n](i => null);
      enabled := {};
      all := {};
    }

    ghost function Of(c: Channel): Chn
      reads c`status, c`channel, c`desc, c`intEnable
    {
      Chn(c.status, c.channel, c.desc != null, c.intEnable == 0)
    }

    /** Values off the domain are spelled out, so that equal maps have equal value expressions everywhere. */
    ghost function Now(): View
      reads this, chns, all`status, all`channel, all`desc, all`intEnable
    {
      View.View(chns[..],
                map c | c in all :: if c in all then Of(c) else Chn(DMA_IDLE, 0, false, false),
                enabled)
    }

    lemma NowAt(c: Channel)
      requires c in all
      ensures Now().slots == chns[..] && Now().enabled == enabled && c in Now().structs && Now().structs[c] == Of(c)
    {
    }

    ghost predicate Valid()
      reads this, chns, all
    {
      Safe(Now())
    }

    predicate InRange(channel: int) { 0 <= channel < chns.Length }

    /** `dmac_init_channel` */
    method InitChannel(c: Channel)
      requires Valid()
      modifies this`all, c`desc, c`source, c`callback, c`status, c`channel
      ensures Valid() && all == old(all) + {c} && Now() == Apply(old(Now()), Initialised(c, c.intEnable == 0))
      ensures c.desc == null && c.source == DMA_REQ_SOFT && !c.callback && c.status == DMA_IDLE && c.channel == -2
    {
      hide Safe;
      StepSafe(Now(), Initialised(c, c.intEnable == 0));
      c.desc, c.source, c.callback, c.status, c.channel := null, DMA_REQ_SOFT, false, DMA_IDLE, DMA_CHN_INVALID;
      all := all + {c};
      assert Now() == Apply(old(Now()), Initialised(c, c.intEnable == 0));
    }

    /** `dmac_config_channel` */
    method ConfigChannel(c: Channel, desc: Desc?)
      requires Valid() && c in all
      modifies c`desc
      ensures Valid() && Now() == Apply(old(Now()), Configured(c, desc != null)) && c.desc == desc
    {
      hide Safe;
      StepSafe(Now(), Configured(c, desc != null));
      c.desc := desc;
      assert Now() == Apply(old(Now()), Configured(c, desc != null));
    }

    /** `_dma_claim_channel`: struct and slot name each other. */
    method Claim(channel: int, c: Channel, source: Source)
      requires InRange(channel) && c in all
      modifies chns, c`source, c`callback, c`status, c`channel
      ensures c.source == source && !c.callback && c.status == DMA_IDLE && c.channel == channel
      ensures chns[..] == old(chns[..])[channel := c]
      ensures var v := old(Now());
              Now() == View.View(v.slots[channel := c], v.structs[c := v.structs[c].(status := DMA_IDLE, channel := channel)], v.enabled)
    {
      chns[channel] := c;
      c.source, c.callback, c.status, c.channel := source, false, DMA_IDLE, channel;
      assert Now().slots == old(Now()).slots[channel := c];
    }

    /** `dmac_reserve_channel`: a given free channel, or the first free one for DMA_CHN_ANY. */
    method Reserve(channel: int, c: Channel, source: Source) returns (r: int)
      requires Valid() && c in all
      modifies chns, c`source, c`callback, c`status, c`channel
      ensures Valid() && r == Granted(old(Now()), channel) && Now() == Apply(old(Now()), Reserved(c, channel))
      ensures if channel == -1 then
                if exists i :: 0 <= i < chns.Length && old(chns[i]) == null then
                  0 <= r < chns.Length && old(chns[r]) == null && forall i :: 0 <= i < r ==> old(chns[i]) != null
                else r == -2
              else r == if 0 <= channel < chns.Length && old(chns[channel]) == null then channel else -2
      ensures r != -2 ==> chns[..] == old(chns[..])[r := c] && c.channel == r && c.status == DMA_IDLE
      ensures r == -2 ==> chns[..] == old(chns[..]) && c.channel == old(c.channel) && c.status == old(c.status)
      ensures r != -2 ==> c.source == source && !c.callback
      ensures r == -2 ==> c.source == old(c.source) && c.callback == old(c.callback)
    {
      hide Safe; hide Now;
      NowAt(c);
      StepSafe(Now(), Reserved(c, channel));
      ghost var v := Now();
      r := DMA_CHN_INVALID;
      if channel == DMA_CHN_ANY {
        var i := 0;
        while i < chns.Length
          invariant 0 <= i <= chns.Length && FirstFree(v.slots, 0) == FirstFree(v.slots, i)
        {
          if chns[i] == null {
            Claim(i, c, source);
            r := i;
            assert Now() == Apply(v, Reserved(c, channel));
            return;
          }
          i := i + 1;
        }
        return;
      }
      if InRange(channel) && chns[channel] == null {
        Claim(channel, c, source);
        r := channel;
        assert Now() == Apply(v, Reserved(c, channel));
      }
    }

    /** `dmac_start_channel`: never restarts a busy channel; `ds` is the chain of the struct's descriptor. */
    method Start(c: Channel, callback: bool, ghost ds: seq<Desc>) returns (rc: int)
      requires Valid() && c in all
      requires c.desc != null ==> Chain(ds) && ds[0] == c.desc
      modifies this`enabled, c`callback, c`intEnable, c`status, (set d | d in ds)`ctrl
      ensures Valid() && Now() == Apply(old(Now()), Started(c, callback))
      ensures rc == if old(c.desc != null && InRange(c.channel) && c.status != DMA_BUSY) then 0 else -1
      ensures rc == 0 ==> c.status == DMA_BUSY && enabled == old(enabled) + {c.channel}
      ensures rc == 0 ==> c.callback == callback && c.intEnable == if callback then 1 else 0
      ensures rc != 0 ==> enabled == old(enabled) && c.status == old(c.status) && c.callback == old(c.callback)
      ensures rc != 0 ==> forall d :: d in ds ==> d.ctrl == old(d.ctrl)
      ensures rc == 0 ==> forall i :: 0 <= i < |ds| ==> ds[i].ctrl == Processed(old(ds[i].ctrl), i == |ds| - 1, if callback then 1 else 0)
    {
      hide Safe; hide Processed; hide Chain; hide Apply; hide Now;
      NowAt(c);
      StepSafe(Now(), Started(c, callback));
      StartedNot(Now(), c, callback);
      if c.desc == null {
        return -1;
      }
      if !InRange(c.channel) {
        return -1;
      }
      if c.status == DMA_BUSY {
        return -1;
      }
      SetCallback(c, callback);
      ProcessDesc(c.desc, c.intEnable, ds);
      Enable(c);
      rc := 0;
      StartedIs(old(Now()), c, callback);
      assert Now() == Apply(old(Now()), Started(c, callback));
    }

    method SetCallback(c: Channel, callback: bool)
      requires c in all
      modifies c`callback, c`intEnable
      ensures c.callback == callback && c.intEnable == if callback then 1 else 0
      ensures Now() == old(Now()).(structs := old(Now()).structs[c := old(Now()).structs[c].(polled := !callback)])
    {
      c.callback := callback;
      c.intEnable := if callback then 1 else 0;
    }

    method Enable(c: Channel)
      requires c in all
      modifies this`enabled, c`status
      ensures enabled == old(enabled) + {c.channel} && c.status == DMA_BUSY
      ensures Now() == View.View(old(Now()).slots, old(Now()).structs[c := old(Now()).structs[c].(status := DMA_BUSY)], enabled)
    {
      enabled := enabled - {c.channel};
      enabled := enabled + {c.channel};
      c.status := DMA_BUSY;
    }

    /** `dmac_stop_channel` */
    method Stop(c: Channel) returns (rc: int)
      requires Valid() && c in all
      modifies this`enabled, c`status
      ensures Valid() && Now() == Apply(old(Now()), Stopped(c))
      ensures rc == if old(c.desc != null && InRange(c.channel)) then 0 else -1
      ensures rc == 0 ==> enabled == old(enabled) - {c.channel}
      ensures rc == 0 ==> c.status == if old(c.status) == DMA_BUSY then DMA_STOP else old(c.status)
      ensures rc != 0 ==> enabled == old(enabled) && c.status == old(c.status)
    {
      hide Safe;
      StepSafe(Now(), Stopped(c));
      if c.desc == null || !InRange(c.channel) {
        return -1;
      }
      enabled := enabled - {c.channel};
      if c.status == DMA_BUSY {
        c.status := DMA_STOP;
      }
      rc := 0;
      assert Now() == Apply(old(Now()), Stopped(c));
    }

    /** `dmac_clear_channel` */
    method Clear(c: Channel) returns (rc: int)
      requires Valid() && c in all
      modifies this`enabled, c`status
      ensures Valid() && Now() == Apply(old(Now()), Cleared(c))
      ensures rc == if old(c.desc != null && InRange(c.channel)) then 0 else -1
      ensures rc == 0 ==> enabled == old(enabled) + {c.channel} && c.channel in enabled && c.status == DMA_IDLE
      ensures rc != 0 ==> enabled == old(enabled) && c.status == old(c.status)
    {
      hide Safe;
      StepSafe(Now(), Cleared(c));
      if c.desc == null || !InRange(c.channel) {
        return -1;
      }
      enabled := enabled - {c.channel};
      enabled := enabled + {c.channel};
      c.status := DMA_IDLE;
      rc := 0;
      assert Now() == Apply(old(Now()), Cleared(c));
    }

    /** `dmac_release_channel`: the slot is free again; the status is left as it is. */
    method Release(c: Channel) returns (rc: int)
      requires Valid() && c in all
      modifies this`enabled, chns, c`channel
      ensures Valid() && Now() == Apply(old(Now()), Released(c))
      ensures rc == if old(c.desc != null && InRange(c.channel)) then 0 else -1
      ensures rc == 0 ==> enabled == old(enabled) - {old(c.channel)}
      ensures rc == 0 ==> chns[..] == old(chns[..])[old(c.channel) := null]
      ensures rc == 0 ==> c.channel == -2
      ensures rc != 0 ==> enabled == old(enabled) && chns[..] == old(chns[..]) && c.channel == old(c.channel)
    {
      hide Safe;
      StepSafe(Now(), Released(c));
      if c.desc == null || !InRange(c.channel) {
        return -1;
      }
      enabled := enabled - {c.channel};
      chns[c.channel] := null;
      c.channel := DMA_CHN_INVALID;
      rc := 0;
      assert Now() == Apply(old(Now()), Released(c));
    }

    /** `dmac_interrupt_completed_channel` and `_dmac_interrupt_error_channel`, raised only for an enabled channel. */
    method Interrupt(channel: int, error: bool)
      requires Valid() && channel in enabled
      modifies this`enabled, all`status
      ensures Valid() && Now() == Apply(old(Now()), Finished(channel, error)) && enabled == old(enabled) - {channel}
      ensures InRange(channel) && chns[channel] != null && chns[channel] in all
      ensures chns[channel].status == (if error then DMA_ERROR else DMA_IDLE)
      ensures forall c :: c in all && c != chns[channel] ==> c.status == old(c.status)
    {
      StepSafe(Now(), Finished(channel, error));
      enabled := enabled - {channel};
      assert InTable(Now(), channel) && Now().slots[channel] in Now().structs;
      hide Safe;
      var c := chns[channel];
      c.status := if error then DMA_ERROR else DMA_IDLE;
      OnlyOne(old(Now()).structs, Now().structs, c);
      assert Now() == Apply(old(Now()), Finished(channel, error));
    }

    lemma PendingOwned(pending: set<int>)
      requires Valid() && pending <= enabled
      ensures forall i :: i in pending ==> InRange(i) && chns[i] != null
    {
      forall i | i in pending ensures InRange(i) && chns[i] != null {
        assert i in Now().enabled && InTable(Now(), i) && Now().slots[i] == chns[i];
      }
    }

    /** The loop of an interrupt handler over the pending channels; `pending` are the status bits. */
    method InterruptAll(pending: set<int>, error: bool)
      requires Valid() && pending <= enabled
      modifies this`enabled, all`status
      ensures Valid() && enabled == old(enabled) - pending
      ensures forall i :: i in pending ==> InRange(i) && chns[i] != null && chns[i].status == (if error then DMA_ERROR else DMA_IDLE)
      ensures forall c :: c in all && (forall i :: i in pending && InRange(i) ==> chns[i] != c) ==> c.status == old(c.status)
    {
      hide Apply; hide Safe;
      PendingOwned(pending);
      var channel := 0;
      while channel < chns.Length
        invariant 0 <= channel <= chns.Length && Valid()
        invariant enabled == old(enabled) - (set i | i in pending && i < channel)
        invariant forall i :: i in pending && 0 <= i < channel ==> chns[i] != null && chns[i].status == (if error then DMA_ERROR else DMA_IDLE)
        invariant forall c :: c in all && (forall i :: i in pending && InRange(i) ==> chns[i] != c) ==> c.status == old(c.status)
      {
        if channel in pending {
          Interrupt(channel, error);
        }
        channel := channel + 1;
      }
      assert (set i | i in pending && i < channel) == pending;
    }

    /** `_dmac_wait_channel`: the completion bit first, then the error bit, then the activity bit. */
    static method WaitChannel(bits: Bits) returns (s: Status)
      ensures s == Shown(bits) && (s == DMA_IDLE <==> bits.done && !bits.error && !bits.active)
      ensures s == DMA_ERROR <==> bits.done && bits.error
      ensures s == DMA_BUSY <==> !bits.done || (!bits.error && bits.active)
    {
      if bits.done {
        if bits.error {
          return DMA_ERROR;
        }
        if bits.active {
          return DMA_BUSY;
        }
        return DMA_IDLE;
      }
      s := DMA_BUSY;
    }

    /** `dmac_check_channel`: without interrupts the status follows what the hardware shows. */
    method Check(c: Channel, bits: Bits) returns (rc: int)
      requires Valid() && c in all
      modifies c`status
      ensures Valid() && Now() == Apply(old(Now()), Polled(c, bits))
      ensures c.desc == null || !InRange(c.channel) || c.intEnable != 0 ==> c.status == old(c.status)
      ensures c.desc != null && InRange(c.channel) && c.intEnable == 0 ==>
                && (c.status == DMA_IDLE <==> bits.done && !bits.error && !bits.active)
                && (c.status == DMA_ERROR <==> bits.done && bits.error)
                && (c.status == DMA_BUSY <==> !bits.done || (!bits.error && bits.active))
      ensures if c.desc == null || !InRange(c.channel) then rc == -1
              else (c.status == DMA_IDLE && rc == 0) || (c.status == DMA_BUSY && rc == 1) || (c.status == DMA_ERROR && rc == 2)
                   || (c.status == DMA_STOP && rc == 3)
    {
      hide Safe; hide Shown;
      StepSafe(Now(), Polled(c, bits));
      if c.desc == null || !InRange(c.channel) {
        return -1;
      }
      if c.intEnable == 0 {
        c.status := WaitChannel(bits);
      }
      rc := match c.status case DMA_IDLE => 0 case DMA_BUSY => 1 case DMA_ERROR => 2 case DMA_STOP => 3;
      assert Now() == Apply(old(Now()), Polled(c, bits));
    }
  }
}
