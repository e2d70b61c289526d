/** What the argument permutation of ya_getopt means: a scan that skips non-options finds what a scan that stops at
    the first one finds in the rearranged arguments. */
module GetoptOrder {
  import opened Getopt

  // ---- What a call depends on ----

  /** The cluster takes the argument behind it, if there is one. */
  predicate ClusterNeeds(g: Config, s: string, optarg: Arg,
                         past: Past) { ClusterCall(g, s, [""], optarg, past).step == 2 }

  predicate OptionNeeds(g: Config, arg: string, optarg: Arg, past: Past)
    requires IsOpt(arg) && arg != "--"
  {
    OptionCall(g, arg, [""], optarg, past).step == 2
  }

  /** Whether `c`, for an option with `behind` behind it, depends on that only through an argument it takes; `needs`
      if it takes one. */
  ghost predicate Local(c: Call, needs: bool, behind: seq<string>, c': Call, behind': seq<string>) {
    && (!needs ==> c == c' && c.step <= 1)
    && (needs && behind != [] ==> c.step == 2 && c.optarg == Arg(behind[0]))
    && (needs && behind == [] ==> c.step == 1 && c.optarg == NoArg)
    && (needs && behind != [] && behind' != [] && behind[0] == behind'[0] ==> c == c')
    && (behind == behind' ==> c == c')
  }

  lemma EntryLocal(optstring: string, arg: string, o: LongOpt, behind: seq<string>, behind': seq<string>)
    requires Matches(arg, o)
    ensures Local(EntryCall(optstring, arg, o, behind), EntryCall(optstring, arg, o, [""]).step == 2, behind, EntryCall(optstring, arg, o, behind'), behind')
  {
  }

  lemma LongLocal(g: Config, arg: string, behind: seq<string>, behind': seq<string>, optarg: Arg)
    ensures Local(LongCall(g, arg, behind, optarg), LongCall(g, arg, [""], optarg).step == 2, behind, LongCall(g, arg, behind', optarg), behind')
  {
    hide EntryCall; hide Local;
    var k := FirstMatch(arg, g.longopts);
    if k < |g.longopts| {
      EntryLocal(g.optstring, arg, g.longopts[k], behind, behind');
    } else {
      Constant(LongCall(g, arg, behind, optarg), behind, behind');
    }
  }

  lemma Constant(c: Call, behind: seq<string>, behind': seq<string>)
    requires c.step <= 1
    ensures Local(c, false, behind, c, behind')
  {
  }

  lemma ShortLocal(optstring: string, longOnly: bool, s: string, behind: seq<string>, behind': seq<string>, past: Past)
    ensures Local(ShortCall(optstring, longOnly, s, behind, past), ShortCall(optstring, longOnly, s, [""], past).step == 2, behind,
                  ShortCall(optstring, longOnly, s, behind', past), behind')
  {
  }

  lemma ClusterLocal(g: Config, s: string, behind: seq<string>, behind': seq<string>, optarg: Arg, past: Past)
    ensures Local(ClusterCall(g, s, behind, optarg, past), ClusterNeeds(g, s, optarg, past), behind,
                  ClusterCall(g, s, behind', optarg, past), behind')
  {
    hide LongCall; hide ShortCall; hide Local;
    LongLocal(g, s, behind, behind', optarg);
    ShortLocal(g.optstring, g.longOnly, s, behind, behind', past);
  }

  lemma OptionLocal(g: Config, arg: string, behind: seq<string>, behind': seq<string>, optarg: Arg, past: Past)
    requires IsOpt(arg) && arg != "--"
    ensures Local(OptionCall(g, arg, behind, optarg, past), OptionNeeds(g, arg, optarg, past), behind,
                  OptionCall(g, arg, behind', optarg, past), behind')
  {
    hide LongCall; hide ClusterCall; hide Local;
    if |arg| >= 2 { LongLocal(g, arg[2..], behind, behind', optarg); }
    ClusterLocal(g, arg[1..], behind, behind', optarg, past);
  }

  // ---- A whole scan ----

  datatype Result = Result(rv: int, optarg: Arg)

  /** The results of all calls, the arguments they consume, skip and leave, whether the scan stops at a read behind a
      string, whether an option lacks its argument, and whether the end mark ends the scan. */
  datatype Trace = Trace(results: seq<Result>, used: seq<string>, skipped: seq<string>, left: seq<string>, over: bool, lacks: bool, marked: bool)

  ghost predicate Proper(next: Next) { !next.Outside? && (next.Next? ==> next.s != "") }

  /** The call is about an option that takes the argument behind it. */
  ghost predicate Needs(g: Config, rest: seq<string>, next: Next, optarg: Arg, past: Past) {
    if Ends(g, rest, next) || next.Outside? then false
    else if next.Next? then ClusterNeeds(g, next.s, optarg, past)
    else
      var k := Skips(g, rest);
      IsOpt(rest[k]) && OptionNeeds(g, rest[k], optarg, past)
  }

  /** That argument is missing. */
  ghost predicate Lacks(g: Config, rest: seq<string>, next: Next, optarg: Arg, past: Past) {
    Needs(g, rest, next, optarg, past) && |rest| == (if next.NoNext? then Skips(g, rest) else 0) + 1
  }

  /** All calls up to the one that ends the scan. */
  ghost function Whole(g: Config, rest: seq<string>, next: Next, optarg: Arg, past: Past): (t: Trace)
    requires Proper(next)
    ensures t.results != []
    ensures t.results[0] == Result(CallOn(g, rest, next, optarg, past).rv, CallOn(g, rest, next, optarg, past).optarg)
    decreases |rest|, if next.NoNext? then 1 else 0, if next.Next? then |next.s| else 0
  {
    CallProgress(g, rest, next, optarg, past);
    var c := CallOn(g, rest, next, optarg, past);
    var k, n := c.skipped, c.skipped + c.step;
    if Ends(g, rest, next) || c.overread then Trace([Result(c.rv, c.optarg)], rest[k..n], rest[..k], rest[n..], c.overread, false, c.step == 1)
    else
      var t := Whole(g, rest[n..], c.next, c.optarg, past);
      Trace([Result(c.rv, c.optarg)] + t.results, rest[k..n] + t.used, rest[..k] + t.skipped, t.left, t.over,
            t.lacks || Lacks(g, rest, next, optarg, past), t.marked)
  }

  /** Consumed, skipped and left arguments are all there were. */
  lemma {:induction false} WholeKeeps(g: Config, rest: seq<string>, next: Next, optarg: Arg, past: Past)
    requires Proper(next)
    ensures var t := Whole(g, rest, next, optarg, past);
            multiset(t.used) + multiset(t.skipped) + multiset(t.left) == multiset(rest)
    decreases |rest|, if next.NoNext? then 1 else 0, if next.Next? then |next.s| else 0
  {
    hide CallOn; hide Ends; hide Lacks;
    CallProgress(g, rest, next, optarg, past);
    var c := CallOn(g, rest, next, optarg, past);
    var k, n := c.skipped, c.skipped + c.step;
    assert rest == rest[..k] + rest[k..n] + rest[n..];
    if !(Ends(g, rest, next) || c.overread) { WholeKeeps(g, rest[n..], c.next, c.optarg, past); }
  }

  /** The argument of a cluster that is not used up yet is used up next. */
  lemma {:induction false} ClusterUsed(g: Config, rest: seq<string>, next: Next, optarg: Arg, past: Past)
    requires Proper(next) && next.Next? && rest != [] && !Whole(g, rest, next, optarg, past).over
    ensures var t := Whole(g, rest, next, optarg, past); t.used != [] && t.used[0] == rest[0]
    decreases |next.s|
  {
    hide ClusterCall; hide Lacks;
    CallProgress(g, rest, next, optarg, past);
    var c := CallOn(g, rest, next, optarg, past);
    ClusterFacts(g, next.s, rest[1..], optarg, past);
    if c.step == 0 {
      assert rest[0..] == rest;
      ClusterUsed(g, rest, c.next, c.optarg, past);
    }
  }

  // ---- Rearranged arguments ----

  /** The same options, for a scan that stops at the first non-option. */
  function Stopping(g: Config): Config { g.(permute := false) }

  lemma ModeIgnored(g: Config, s: string, behind: seq<string>, optarg: Arg, past: Past)
    ensures ClusterCall(Stopping(g), s, behind, optarg, past) == ClusterCall(g, s, behind, optarg, past)
    ensures IsOpt(s) && s != "--" ==> OptionCall(Stopping(g), s, behind, optarg, past) == OptionCall(g, s, behind, optarg, past)
  {
  }

  /** The argument the call is about. */
  ghost function Place(g: Config, rest: seq<string>, next: Next): nat { if next.NoNext? then Skips(g, rest) else 0 }

  /** Behind the skipped arguments, a call on `args` that starts with the same option, and the same argument if it
      takes one, does the same; if the argument is missing, any argument there makes a difference. */
  lemma SameHead(g: Config, rest: seq<string>, next: Next, optarg: Arg, past: Past, args: seq<string>)
    requires g.permute && !g.handle && Proper(next) && !Ends(g, rest, next)
    requires !CallOn(g, rest, next, optarg, past).overread
    requires args != [] && args[0] == rest[Place(g, rest, next)]
    requires CallOn(g, rest, next, optarg, past).step == 2 ==>
               |args| >= 2 && |rest| >= Place(g, rest, next) + 2 && args[1] == rest[Place(g, rest, next) + 1]
    ensures var c, c' := CallOn(g, rest, next, optarg, past), CallOn(Stopping(g), args, next, optarg, past);
            && !Ends(Stopping(g), args, next) && c.skipped == Place(g, rest, next)
            && if Lacks(g, rest, next, optarg, past) && |args| > 1 then c'.optarg != c.optarg else c' == c.(skipped := 0)
  {
    hide ClusterCall; hide OptionCall; hide Lead;
    var k := Place(g, rest, next);
    var behind, behind' := rest[k + 1..], args[1..];
    if next.Next? {
      ClusterFacts(g, next.s, behind, optarg, past);
      ClusterLocal(g, next.s, behind, behind', optarg, past);
      ClusterLocal(g, next.s, behind', behind, optarg, past);
      ModeIgnored(g, next.s, behind', optarg, past);
    } else {
      assert IsOpt(rest[k]) && rest[k] != "--";
      OptionLocal(g, rest[k], behind, behind', optarg, past);
      OptionLocal(g, rest[k], behind', behind, optarg, past);
      ModeIgnored(g, rest[k], behind', optarg, past);
    }
  }

  lemma {:induction false} WholeEnd(g: Config, rest: seq<string>, next: Next, optarg: Arg, past: Past)
    requires Proper(next) && Ends(g, rest, next)
    ensures var c, t := CallOn(g, rest, next, optarg, past), Whole(g, rest, next, optarg, past);
            && c.skipped + c.step <= |rest|
            && var k, n := c.skipped, c.skipped + c.step;
               t == Trace([Result(c.rv, c.optarg)], rest[k..n], rest[..k], rest[n..], false, false, c.step == 1)
  {
    hide CallOn; hide Ends;
    CallProgress(g, rest, next, optarg, past);
  }

  /** The call at the end of a permuting scan, and that of a stopping scan in front of `tail`. */
  lemma EndCalls(g: Config, rest: seq<string>, next: Next, optarg: Arg, past: Past, tail: seq<string>)
    requires g.permute && !g.handle && Proper(next) && Ends(g, rest, next) && (next.Next? && rest == [] ==> tail == [])
    requires CallOn(g, rest, next, optarg, past).step == 1 || tail == [] || !IsOpt(tail[0])
    ensures var c := CallOn(g, rest, next, optarg, past); var args := (if c.step == 1 then ["--"] else []) + tail;
            && Ends(Stopping(g), args, next) && CallOn(Stopping(g), args, next, optarg, past) == c.(skipped := 0) && c.step <= 1
            && (c.step == 1 ==> c.skipped < |rest| && rest[c.skipped] == "--")
  {
    hide Lead; hide OptionCall;
    FreshFacts(g, rest, optarg, past);
    var c := CallOn(g, rest, next, optarg, past);
    var args := (if c.step == 1 then ["--"] else []) + tail;
    FreshFacts(Stopping(g), args, optarg, past);
    hide FreshCall;
    assert c.step == 0 ==> args == tail;
  }

  lemma {:induction false} EndSame(g: Config, rest: seq<string>, next: Next, optarg: Arg, past: Past, tail: seq<string>)
    requires g.permute && !g.handle && Proper(next) && Ends(g, rest, next) && (next.Next? && rest == [] ==> tail == [])
    requires Whole(g, rest, next, optarg, past).marked || tail == [] || !IsOpt(tail[0])
    ensures var t := Whole(g, rest, next, optarg, past);
            var t' := Whole(Stopping(g), t.used + tail, next, optarg, past);
            !t.lacks && t'.results == t.results && t'.used == t.used && t'.skipped == [] && t'.left == tail && !t'.over
  {
    hide CallOn; hide Ends; hide Whole;
    WholeEnd(g, rest, next, optarg, past);
    EndCalls(g, rest, next, optarg, past, tail);
    var c := CallOn(g, rest, next, optarg, past);
    var mark := if c.step == 1 then ["--"] else [];
    assert rest[c.skipped..c.skipped + c.step] == mark;
    WholeEnd(Stopping(g), mark + tail, next, optarg, past);
    assert (mark + tail)[0..c.step] == mark && (mark + tail)[c.step..] == tail;
  }

  /** What a call that does not end the scan consumes. */
  lemma CallStarts(g: Config, rest: seq<string>, next: Next, optarg: Arg, past: Past)
    requires Proper(next) && !g.handle && !Ends(g, rest, next) && !CallOn(g, rest, next, optarg, past).overread
    ensures var c, k := CallOn(g, rest, next, optarg, past), Place(g, rest, next);
            && c.skipped == k && k + 1 <= |rest| && k + c.step <= |rest| && Proper(c.next) && (c.step == 0 ==> c.next.Next?)
            && (c.next.Next? && c.step >= 1 ==> Lacks(g, rest, next, optarg, past))
            && (c.step == 0 && next.Next? ==> |c.next.s| < |next.s|)
            && (Lacks(g, rest, next, optarg, past) ==> c.step == 1 && |rest| == k + 1)
  {
    hide ClusterCall; hide OptionCall; hide Lead;
    CallProgress(g, rest, next, optarg, past);
    var k := Place(g, rest, next);
    if next.Next? {
      ClusterFacts(g, next.s, rest[1..], optarg, past);
      ClusterFacts(g, next.s, [""], optarg, past);
      ClusterLocal(g, next.s, rest[1..], [""], optarg, past);
    } else {
      OptionStarts(g, rest[k], rest[k + 1..], optarg, past);
      OptionLocal(g, rest[k], rest[k + 1..], [""], optarg, past);
    }
  }

  lemma {:induction false} NoneUsed(g: Config, rest: seq<string>, next: Next, optarg: Arg, past: Past)
    requires Proper(next) && rest == []
    ensures var t := Whole(g, rest, next, optarg, past); t.used == [] && t.skipped == [] && t.left == []
  {
    hide Whole;
    WholeKeeps(g, rest, next, optarg, past);
    var t := Whole(g, rest, next, optarg, past);
    assert |multiset(t.used) + multiset(t.skipped) + multiset(t.left)| == |t.used| + |t.skipped| + |t.left|;
  }

  lemma {:induction false} WholeStep(g: Config, rest: seq<string>, next: Next, optarg: Arg, past: Past)
    requires Proper(next) && !Ends(g, rest, next) && !CallOn(g, rest, next, optarg, past).overread
    ensures var c, t := CallOn(g, rest, next, optarg, past), Whole(g, rest, next, optarg, past);
            && c.skipped + c.step <= |rest| && Proper(c.next)
            && var k, n := c.skipped, c.skipped + c.step; var u := Whole(g, rest[n..], c.next, c.optarg, past);
               t == Trace([Result(c.rv, c.optarg)] + u.results, rest[k..n] + u.used, rest[..k] + u.skipped, u.left, u.over,
                          u.lacks || Lacks(g, rest, next, optarg, past), u.marked)
  {
    hide CallOn; hide Ends; hide Lacks;
    CallProgress(g, rest, next, optarg, past);
  }

  /** The option the call is about, and its argument, are what is consumed next. */
  lemma {:induction false} UsedStarts(g: Config, rest: seq<string>, next: Next, optarg: Arg, past: Past)
    requires Proper(next) && !g.handle && !Ends(g, rest, next) && !Whole(g, rest, next, optarg, past).over
    ensures var c, t, k := CallOn(g, rest, next, optarg, past), Whole(g, rest, next, optarg, past), Place(g, rest, next);
            && !c.overread && k < |rest| && t.used != [] && t.used[0] == rest[k]
            && (c.step == 2 ==> |t.used| >= 2 && |rest| >= k + 2 && t.used[1] == rest[k + 1])
  {
    assert !CallOn(g, rest, next, optarg, past).overread by { hide CallOn; hide Ends; hide Lacks; }
    hide CallOn; hide Ends; hide Lacks; hide Whole; hide Place;
    var c, k := CallOn(g, rest, next, optarg, past), Place(g, rest, next);
    CallStarts(g, rest, next, optarg, past);
    WholeStep(g, rest, next, optarg, past);
    CallProgress(g, rest, next, optarg, past);
    if c.step == 0 {
      ClusterUsed(g, rest[k..], c.next, c.optarg, past);
    }
  }

  lemma OptionStarts(g: Config, arg: string, behind: seq<string>, optarg: Arg, past: Past)
    requires IsOpt(arg) && arg != "--"
    ensures var c := OptionCall(g, arg, behind, optarg, past);
            !c.overread && c.next.Next? && c.step >= 1 ==> behind == [] && OptionNeeds(g, arg, optarg, past)
  {
    hide ClusterCall; hide LongCall;
    ClusterFacts(g, arg[1..], behind, optarg, past);
    ClusterFacts(g, arg[1..], [""], optarg, past);
    ClusterLocal(g, arg[1..], behind, [""], optarg, past);
    if |arg| >= 2 { LongFacts(g, arg[2..], behind, optarg); }
  }

  lemma SameTail(a: Result, x: seq<Result>, y: seq<Result>)
    ensures [a] + x == [a] + y <==> x == y
  {
    assert ([a] + x)[1..] == x && ([a] + y)[1..] == y;
  }

  lemma Dropped(x: seq<string>, y: seq<string>, z: seq<string>)
    ensures (x + y + z)[|x|..] == y + z
  {
  }

  /** A permuting scan and a stopping scan of the consumed arguments, followed by anything that ends it, give the
      same results and leave that alone, exactly unless an option lacks its argument and finds one there. */
  lemma {:induction false} Rearranged(g: Config, rest: seq<string>, next: Next, optarg: Arg, past: Past,
                                      tail: seq<string>)
    requires g.permute && !g.handle && Proper(next) && !Whole(g, rest, next, optarg, past).over
    requires Whole(g, rest, next, optarg, past).marked || tail == [] || !IsOpt(tail[0])
    requires next.Next? && rest == [] ==> tail == []
    ensures var t := Whole(g, rest, next, optarg, past);
            var t' := Whole(Stopping(g), t.used + tail, next, optarg, past);
            && (t'.results == t.results <==> !(t.lacks && tail != []))
            && (!(t.lacks && tail != []) ==> t'.used == t.used && t'.skipped == [] && t'.left == tail && !t'.over)
    decreases |rest|, if next.NoNext? then 1 else 0, if next.Next? then |next.s| else 0
  {
    hide CallOn; hide Ends; hide Lacks; hide Whole; hide Place; hide IsOpt;
    var c, t := CallOn(g, rest, next, optarg, past), Whole(g, rest, next, optarg, past);
    if Ends(g, rest, next) {
      EndSame(g, rest, next, optarg, past, tail);
    } else {
      UsedStarts(g, rest, next, optarg, past);
      CallStarts(g, rest, next, optarg, past);
      WholeStep(g, rest, next, optarg, past);
      var args, n := t.used + tail, c.skipped + c.step;
      var u := Whole(g, rest[n..], c.next, c.optarg, past);
      SameHead(g, rest, next, optarg, past, args);
      if Lacks(g, rest, next, optarg, past) && tail != [] {
        assert |args| > 1;
        assert Whole(Stopping(g), args, next, optarg, past).results[0] != t.results[0];
      } else {
        if Lacks(g, rest, next, optarg, past) { NoneUsed(g, rest[n..], c.next, c.optarg, past); }
        WholeStep(Stopping(g), args, next, optarg, past);
        Dropped(rest[c.skipped..n], u.used, tail);
        Rearranged(g, rest[n..], c.next, c.optarg, past, tail);
        SameTail(Result(c.rv, c.optarg), Whole(Stopping(g), u.used + tail, c.next, c.optarg, past).results, u.results);
      }
    }
  }

  /** Only non-options are skipped, and only the end mark leaves arguments behind. */
  lemma {:induction false} WholeShape(g: Config, rest: seq<string>, next: Next, optarg: Arg, past: Past)
    requires g.permute && !g.handle && Proper(next) && !Whole(g, rest, next, optarg, past).over
    ensures var t := Whole(g, rest, next, optarg, past); NoOpts(t.skipped) && (!t.marked || t.lacks ==> t.left == [])
    decreases |rest|, if next.NoNext? then 1 else 0, if next.Next? then |next.s| else 0
  {
    hide CallOn; hide Whole; hide Lacks;
    var c := CallOn(g, rest, next, optarg, past);
    SkipsNone(g, rest, next, optarg, past);
    if Ends(g, rest, next) {
      WholeEnd(g, rest, next, optarg, past);
      EndCalls(g, rest, next, optarg, past, []);
    } else {
      hide Ends;
      UsedStarts(g, rest, next, optarg, past);
      CallStarts(g, rest, next, optarg, past);
      WholeStep(g, rest, next, optarg, past);
      WholeShape(g, rest[c.skipped + c.step..], c.next, c.optarg, past);
      if Lacks(g, rest, next, optarg, past) { NoneUsed(g, rest[c.skipped + c.step..], c.next, c.optarg, past); }
    }
  }

  lemma SkipsNone(g: Config, rest: seq<string>, next: Next, optarg: Arg, past: Past)
    requires g.permute && !g.handle && Proper(next)
    ensures var c := CallOn(g, rest, next, optarg, past); c.skipped <= |rest| && NoOpts(rest[..c.skipped])
    ensures Ends(g, rest, next) && CallOn(g, rest, next, optarg, past).step == 0 ==> CallOn(g, rest, next, optarg, past).skipped == |rest|
  {
    hide OptionCall; hide ClusterCall;
    if next.Next? && rest != [] { ClusterFacts(g, next.s, rest[1..], optarg, past); }
  }

  /** Scanning the arguments with permutation gives the same results as scanning consumed, skipped and left ones in
      that order up to the first non-option; exactly unless an option at the end lacks its argument, which the
      rearranged arguments would give it. */
  lemma PermutationMeans(g: Config, args: seq<string>, optarg: Arg, past: Past)
    requires g.permute && !g.handle && !Whole(g, args, NoNext, optarg, past).over
    ensures var t := Whole(g, args, NoNext, optarg, past);
            var t' := Whole(Stopping(g), t.used + (t.skipped + t.left), NoNext, optarg, past);
            && (t'.results == t.results <==> !(t.lacks && t.skipped != []))
            && (t'.results == t.results ==> t'.used == t.used && t'.left == t.skipped + t.left)
            && multiset(t.used + (t.skipped + t.left)) == multiset(args)
  {
    hide Whole;
    var t := Whole(g, args, NoNext, optarg, past);
    WholeShape(g, args, NoNext, optarg, past);
    WholeKeeps(g, args, NoNext, optarg, past);
    Rearranged(g, args, NoNext, optarg, past, t.skipped + t.left);
  }

  /** `file -f` with an option that takes an argument: none is found, but in the rearranged arguments the skipped one
      is. */
  lemma LackingExample(past: Past)
    ensures var g := Config(true, false, "f:", false, [], false);
            && CallOn(g, ["file", "-f"], NoNext, NoArg, past) == Call('?' as int, NoArg, Next("f"), 1, 1, false)
            && CallOn(Stopping(g), ["-f", "file"], NoNext, NoArg, past) == Call('f' as int, Arg("file"), NoNext, 0, 2, false)
  {
    assert Find("f:", 'f') == 0;
    LeadIs(["file", "-f"], 1);
    assert ["file", "-f"][2..] == [] && ["-f", "file"][1..] == ["file"];
  }
}
