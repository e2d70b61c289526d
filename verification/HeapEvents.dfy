/** What a program sees of the allocator: its blocks and their contents, and the events of a run. */
module HeapEvents {
  import opened Words
  import opened Tiling
  import opened BoundaryTags
  import opened AllocSteps
  import opened FreeSteps
  import opened ResizeSteps
  import opened ClientSteps

  const CHUNK_OVERHEAD := 4

  /** Block `r` has become block `r'` of `s` bytes with the same content; all others are as before. */
  ghost predicate Moved(m: Mem, m': Mem, h: Chunks, h': Chunks, r: int, r': int, s: int) {
    && r - 8 in Live(h) && r' - 8 !in Live(h) && Live(h') == (Live(h) - {r - 8})[r' - 8 := s] && Live(h)[r - 8] <= s
    && PayloadKept(m, m', Live(h) - {r - 8}) && Copied(m, m', r, r', Live(h)[r - 8] - CHUNK_OVERHEAD)
  }

  lemma MovedThen(m: Mem, m1: Mem, m2: Mem, m3: Mem, h: Chunks, h1: Chunks, h3: Chunks, r: int, r': int, s: int)
    requires r - 8 in Live(h) && Live(h)[r - 8] <= s && Handed(m, m1, h, h1, r' - 8, s)
    requires PayloadKept(m1, m2, Live(h1) - {r' - 8}) && Copied(m1, m2, r, r', Live(h)[r - 8] - CHUNK_OVERHEAD)
    requires Returned(m2, m3, h1, h3, r - 8)
    ensures Moved(m, m3, h, h3, r, r', s)
  {
    var live, n := Live(h) - {r - 8}, Live(h)[r - 8] - CHUNK_OVERHEAD;
    PayloadLess(m, m1, live, Live(h));
    PayloadLess(m1, m2, live, Live(h1) - {r' - 8});
    PayloadLess(m2, m3, live, Live(h3));
    PayloadTwice(m, m1, m2, live);
    PayloadTwice(m, m2, m3, live);
    assert Live(h3) == live[r' - 8 := s];
    CopiedThen(m, m1, m2, m3, Live(h), Live(h3), r, r', n);
  }

  lemma CopiedThen(m: Mem, m1: Mem, m2: Mem, m3: Mem, live: map<int, int>, live3: map<int, int>, r: int, r': int,
                   n: int)
    requires r - 8 in live && n == live[r - 8] - CHUNK_OVERHEAD && PayloadKept(m, m1, live)
    requires r' - 8 in live3 && n <= live3[r' - 8] - CHUNK_OVERHEAD && PayloadKept(m2, m3, live3)
    requires Copied(m1, m2, r, r', n)
    ensures Copied(m, m3, r, r', n)
  {
    forall w {:trigger Rd(m3, w)} | r' <= w < r' + n && (w - r') % 4 == 0 ensures Rd(m3, w) == Rd(m, r + (w - r')) {
      assert InBlock(live, r - 8, r + (w - r')) && InBlock(live3, r' - 8, w);
      assert Rd(m2, w) == Rd(m1, r + (w - r'));
    }
  }

  /** Memory and the blocks the program owns, by chunk address, with their chunk sizes. */
  datatype View = View(mem: Mem, live: map<int, int>)

  /** The events of a run, by the chunk they concern. */
  datatype Event = Alloc(p: int, s: int) | Release(p: int) | Resize(p: int, s: int) | Move(p: int, p': int, s: int) | Write(p: int) | Refuse

  ghost predicate Happens(e: Event, v: View, v': View) {
    match e
    case Alloc(p, s) => p !in v.live && v'.live == v.live[p := s] && PayloadKept(v.mem, v'.mem, v.live)
    case Release(p) => p in v.live && v'.live == v.live - {p} && PayloadKept(v.mem, v'.mem, v'.live)
    case Resize(p, s) => p in v.live && v'.live == v.live[p := s] && PayloadKept(v.mem, v'.mem, v.live[p := Min(v.live[p], s)])
    case Move(p, p', s) =>
      && p in v.live && p' !in v.live && v'.live == (v.live - {p})[p' := s] && v.live[p] <= s
      && PayloadKept(v.mem, v'.mem, v.live - {p}) && Copied(v.mem, v'.mem, p + 8, p' + 8, v.live[p] - CHUNK_OVERHEAD)
    case Write(p) => p in v.live && v'.live == v.live && PayloadKept(v.mem, v'.mem, v.live - {p})
    case Refuse => v'.live == v.live && PayloadKept(v.mem, v'.mem, v.live)
  }

  lemma Allocates(m: Mem, m': Mem, h: Chunks, h': Chunks, p: int, s: int)
    requires Handed(m, m', h, h', p, s) || Given(m, m', h, h', p, s)
    ensures Happens(Alloc(p, s), View(m, Live(h)), View(m', Live(h')))
  {
    hide Live; hide PayloadKept;
  }

  lemma Refuses(m: Mem, m': Mem, h: Chunks)
    requires PayloadKept(m, m', Live(h))
    ensures Happens(Refuse, View(m, Live(h)), View(m', Live(h)))
  {
  }

  lemma Releases(m: Mem, m': Mem, h: Chunks, h': Chunks, p: int)
    requires Returned(m, m', h, h', p)
    ensures Happens(Release(p), View(m, Live(h)), View(m', Live(h')))
  {
    hide Live; hide PayloadKept;
  }

  lemma Resizes(m: Mem, m': Mem, h: Chunks, h': Chunks, p: int, s: int)
    requires Resized(m, m', h, h', p, s)
    ensures Happens(Resize(p, s), View(m, Live(h)), View(m', Live(h')))
  {
    hide Live; hide PayloadKept;
  }

  lemma Moves(m: Mem, m': Mem, h: Chunks, h': Chunks, r: int, r': int, s: int)
    requires Moved(m, m', h, h', r, r', s)
    ensures Happens(Move(r - 8, r' - 8, s), View(m, Live(h)), View(m', Live(h')))
  {
    hide Live; hide PayloadKept; hide Copied;
  }

  // ---- Runs ----

  ghost predicate Runs(vs: seq<View>, es: seq<Event>) {
    |vs| == |es| + 1 && forall i {:trigger es[i]} :: 0 <= i < |es| ==> Happens(es[i], vs[i], vs[i + 1])
  }

  /** Where a block is after an event, if the event moves it. */
  function Where(e: Event, q: int): int { if e.Move? && e.p == q then e.p' else q }

  /** The event ends the block or writes to it. */
  predicate Spoils(e: Event, q: int) { (e.Release? || e.Write?) && e.p == q }

  /** Where the block is after the first `n` events. */
  function After(es: seq<Event>, n: nat, q: int): int
    requires n <= |es|
  {
    if n == 0 then q else Where(es[n - 1], After(es, n - 1, q))
  }

  /** The word at offset `k` of the block with chunk address `q`. */
  function Content(m: Mem, q: int, k: int): int { Rd(m, q + 8 + k) }

  /** The first `n` bytes of two blocks are the same, word by word. */
  ghost predicate SameContent(m: Mem, q: int, m': Mem, q': int, n: int) {
    forall k {:trigger Content(m', q', k)} :: 0 <= k < n && k % 4 == 0 ==> Content(m', q', k) == Content(m, q, k)
  }

  /** An event that does not release or write a block leaves it where it is or moves it, and keeps as much of its
      content as fits before and after. */
  lemma StepFollows(e: Event, v: View, v': View, q: int, n: int)
    requires Happens(e, v, v') && q in v.live && !Spoils(e, q) && n <= v.live[q] - CHUNK_OVERHEAD
    requires Where(e, q) in v'.live ==> n <= v'.live[Where(e, q)] - CHUNK_OVERHEAD
    ensures Where(e, q) in v'.live && SameContent(v.mem, q, v'.mem, Where(e, q), n)
  {
    var q' := Where(e, q);
    forall k {:trigger Content(v'.mem, q', k)} | 0 <= k < n && k % 4 == 0 ensures Content(v'.mem, q', k) == Content(v.mem, q, k) {
      var w := q + 8 + k;
      match e
      case Alloc(p, s) => assert InBlock(v.live, q, w);
      case Release(p) => assert InBlock(v'.live, q, w);
      case Resize(p, s) => assert InBlock(v.live[p := Min(v.live[p], s)], q, w);
      case Move(p, p', s) =>
        if p == q { assert (q' + 8 + k) - (p' + 8) == k; } else { assert InBlock(v.live - {p}, q, w); }
      case Write(p) => assert InBlock(v.live - {p}, q, w);
      case Refuse => assert InBlock(v.live, q, w);
    }
  }

  /** An event about another block leaves a block in place with its size. */
  lemma StepKeeps(e: Event, v: View, v': View, q: int)
    requires Happens(e, v, v') && q in v.live && !Spoils(e, q) && !(e.Resize? && e.p == q) && !(e.Move? && e.p == q)
    ensures Where(e, q) == q && q in v'.live && v'.live[q] == v.live[q]
  {
    hide PayloadKept; hide Copied;
  }

  /** Over any run, a block that is neither released nor written stays allocated, wherever it is moved, and keeps its
      content as far as it was never made smaller than that. */
  lemma {:induction false} RunFollows(vs: seq<View>, es: seq<Event>, q: int, n: int, t: nat)
    requires Runs(vs, es) && q in vs[0].live && t <= |es|
    requires (forall i :: 0 <= i < t ==> !Spoils(es[i], After(es, i, q)))
    requires forall i :: 0 <= i <= t && After(es, i, q) in vs[i].live ==> n <= vs[i].live[After(es, i, q)] - CHUNK_OVERHEAD
    ensures After(es, t, q) in vs[t].live && SameContent(vs[0].mem, q, vs[t].mem, After(es, t, q), n)
    decreases t
  {
    hide Happens;
    if t > 0 {
      RunFollows(vs, es, q, n, t - 1);
      var a := After(es, t - 1, q);
      assert Happens(es[t - 1], vs[t - 1], vs[t - 1 + 1]) && !Spoils(es[t - 1], a);
      assert After(es, t, q) == Where(es[t - 1], a);
      StepFollows(es[t - 1], vs[t - 1], vs[t], a, n);
      ContentTwice(vs[0].mem, q, vs[t - 1].mem, a, vs[t].mem, After(es, t, q), n);
    }
  }

  lemma ContentTwice(m: Mem, q: int, m1: Mem, q1: int, m2: Mem, q2: int, n: int)
    requires SameContent(m, q, m1, q1, n) && SameContent(m1, q1, m2, q2, n)
    ensures SameContent(m, q, m2, q2, n)
  {
    forall k {:trigger Content(m2, q2, k)} | 0 <= k < n && k % 4 == 0 ensures Content(m2, q2, k) == Content(m, q, k) {
      assert Content(m2, q2, k) == Content(m1, q1, k);
    }
  }

  /** A block that no event of a run concerns is at the end where and as large as it was, with the same content. */
  lemma {:induction false} RunKeeps(vs: seq<View>, es: seq<Event>, q: int, t: nat)
    requires Runs(vs, es) && q in vs[0].live && t <= |es|
    requires forall i :: 0 <= i < t ==> es[i].Refuse? || es[i].Alloc? || es[i].p != q
    ensures After(es, t, q) == q && q in vs[t].live && vs[t].live[q] == vs[0].live[q]
    ensures SameContent(vs[0].mem, q, vs[t].mem, q, vs[0].live[q] - CHUNK_OVERHEAD)
    decreases t
  {
    hide Happens;
    if t > 0 {
      RunKeeps(vs, es, q, t - 1);
      assert Happens(es[t - 1], vs[t - 1], vs[t - 1 + 1]);
      StepKeeps(es[t - 1], vs[t - 1], vs[t], q);
      StepFollows(es[t - 1], vs[t - 1], vs[t], q, vs[0].live[q] - CHUNK_OVERHEAD);
      ContentTwice(vs[0].mem, q, vs[t - 1].mem, q, vs[t].mem, q, vs[0].live[q] - CHUNK_OVERHEAD);
    }
  }
}
