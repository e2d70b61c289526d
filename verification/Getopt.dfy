/** Argument permutation of ya_getopt: in-place rotation driven by state kept across calls. */
module Getopt {

  /** `s[start..end]` moved behind `s[end..last]`. */
  function Rotated(s: seq<string>, start: nat, end: nat, last: nat): seq<string>
    requires start <= end <= last <= |s|
  {
    s[..start] + s[end..last] + s[start..end] + s[last..]
  }

  /** Element `e` moved to position `last`, the ones between one to the left. */
  function MovedBack(s: seq<string>, e: nat, last: nat): seq<string>
    requires e <= last < |s|
  {
    s[..e] + s[e + 1..last + 1] + [s[e]] + s[last + 1..]
  }

  /** The inner loop. */
  method MoveBack(a: array<string>, e: nat, last: nat)
    requires e <= last < a.Length
    modifies a
    ensures a[..] == MovedBack(old(a[..]), e, last)
  {
    var arg := a[e];
    var i := e;
    while i < last
      invariant e <= i <= last
      invariant forall j :: 0 <= j < e ==> a[j] == old(a[j])
      invariant forall j :: e <= j < i ==> a[j] == old(a[j + 1])
      invariant forall j :: i <= j < a.Length ==> a[j] == old(a[j])
    {
      a[i] := a[i + 1];
      i := i + 1;
    }
    a[i] := arg;
  }

  /** The nested loops: one skipped argument after the other, the last one first, moves behind the consumed ones. */
  method RotateArgs(a: array<string>, start: nat, end0: nat, last0: nat)
    requires start <= end0 <= last0 <= a.Length
    modifies a
    ensures a[..] == Rotated(old(a[..]), start, end0, last0)
  {
    hide Rotated; hide MovedBack;
    ghost var s := a[..];
    var end, lastPos := end0, last0 - 1;
    NothingMoved(s, end0, last0);
    while start < end
      invariant start <= end <= end0 && lastPos == last0 - 1 - (end0 - end) && a[..] == Rotated(s, end, end0, last0)
    {
      end := end - 1;
      OneMoved(s, end, end0, last0);
      MoveBack(a, end, lastPos);
      lastPos := lastPos - 1;
    }
  }

  lemma NothingMoved(s: seq<string>, end: nat, last: nat)
    requires end <= last <= |s|
    ensures Rotated(s, end, end, last) == s
  {
  }

  /** One turn of the outer loop on sequences. */
  lemma OneMoved(s: seq<string>, e: nat, end: nat, last: nat)
    requires e < end <= last <= |s|
    ensures e <= last - 1 - (end - (e + 1)) < |Rotated(s, e + 1, end, last)| == |s|
    ensures MovedBack(Rotated(s, e + 1, end, last), e, last - 1 - (end - (e + 1))) == Rotated(s, e, end, last)
  {
    var t, l := Rotated(s, e + 1, end, last), last - 1 - (end - (e + 1));
    assert t[..e] == s[..e] && t[e] == s[e];
    assert t[e + 1..l + 1] == s[end..last];
    assert t[l + 1..] == s[e + 1..end] + s[last..];
    assert [s[e]] + s[e + 1..end] == s[e..end];
  }

  // ---- Which arguments were consumed ----

  /** The elements of `s` whose mark is `b`, in order. */
  function Pick(s: seq<string>, marks: seq<bool>, b: bool): seq<string>
    requires |marks| <= |s|
    decreases |marks|
  {
    if marks == [] then []
    else
      var n := |marks| - 1;
      Pick(s, marks[..n], b) + (if marks[n] == b then [s[n]] else [])
  }

  lemma PickMore(s: seq<string>, marks: seq<bool>, m: bool, b: bool)
    requires |marks| < |s|
    ensures Pick(s, marks + [m], b) == Pick(s, marks, b) + (if m == b then [s[|marks|]] else [])
  {
    assert (marks + [m])[..|marks|] == marks;
  }

  /** The marked elements, the others and the rest together are all there is. */
  lemma {:induction false} PickAll(s: seq<string>, marks: seq<bool>)
    requires |marks| <= |s|
    ensures multiset(Pick(s, marks, true)) + multiset(Pick(s, marks, false)) == multiset(s[..|marks|])
    decreases |marks|
  {
    if marks != [] {
      var n := |marks| - 1;
      PickAll(s, marks[..n]);
      assert s[..n + 1] == s[..n] + [s[n]];
    }
  }

  predicate NoOpts(args: seq<string>) { forall i :: 0 <= i < |args| ==> !IsOpt(args[i]) }

  predicate IsOpt(arg: string) { |arg| > 0 && arg[0] == '-' }

  /** The arguments during a scan of `a0`: program name, consumed arguments, skipped non-options, arguments consumed
      since, and the rest as it was; consumed and skipped ones each in their original order. */
  ghost predicate Laid(a: seq<string>, a0: seq<string>, marks: seq<bool>, done: seq<string>, held: seq<string>,
                       newly: seq<string>) {
    && |a0| >= 1 && |marks| <= |a0| - 1
    && a == [a0[0]] + done + held + newly + a0[1 + |marks|..]
    && done + newly == Pick(a0[1..], marks, true) && held == Pick(a0[1..], marks, false)
    && NoOpts(held)
  }

  lemma LaidSizes(a: seq<string>, a0: seq<string>, marks: seq<bool>, done: seq<string>, held: seq<string>,
                  newly: seq<string>)
    requires Laid(a, a0, marks, done, held, newly)
    ensures |a| == |a0| && |marks| == |done| + |held| + |newly| && 1 + |marks| <= |a0|
    ensures forall i :: 1 + |marks| <= i < |a| ==> a[i] == a0[i]
    ensures forall i :: 0 <= i < |held| ==> a[1 + |done| + i] == held[i] && !IsOpt(held[i])
  {
    PickSizes(a0[1..], marks);
  }

  lemma {:induction false} PickSizes(s: seq<string>, marks: seq<bool>)
    requires |marks| <= |s|
    ensures |Pick(s, marks, true)| + |Pick(s, marks, false)| == |marks|
    decreases |marks|
  {
    if marks != [] { PickSizes(s, marks[..|marks| - 1]); }
  }

  lemma Joined(x: seq<string>, d: seq<string>, h: seq<string>, n: seq<string>, r: seq<string>)
    ensures multiset(x + d + h + n + r) == multiset(x) + multiset(d) + multiset(h) + multiset(n) + multiset(r)
    ensures multiset(d + n) == multiset(d) + multiset(n)
  {
  }

  /** The arguments are still the same ones. */
  lemma LaidPermutation(a: seq<string>, a0: seq<string>, marks: seq<bool>, done: seq<string>, held: seq<string>,
                        newly: seq<string>)
    requires Laid(a, a0, marks, done, held, newly)
    ensures multiset(a) == multiset(a0)
  {
    var n := |marks|;
    var x, mid, r := [a0[0]], a0[1..][..n], a0[1 + n..];
    assert a0 == x + mid + r;
    assert multiset(a0) == multiset(x) + multiset(mid) + multiset(r);
    PickAll(a0[1..], marks);
    hide Pick;
    Joined(x, done, held, newly, r);
  }

  function Flags(b: bool, n: nat): (r: seq<bool>)
    ensures |r| == n && forall i :: 0 <= i < n ==> r[i] == b
  {
    seq(n, _ => b)
  }

  /** One more non-option is skipped. */
  lemma SkipOne(a: seq<string>, a0: seq<string>, marks: seq<bool>, done: seq<string>, held: seq<string>)
    requires Laid(a, a0, marks, done, held, []) && |marks| < |a0| - 1 && !IsOpt(a0[1 + |marks|])
    ensures Laid(a, a0, marks + [false], done, held + [a0[1 + |marks|]], [])
  {
    PickMore(a0[1..], marks, false, true);
    PickMore(a0[1..], marks, false, false);
    assert a0[1 + |marks|..] == [a0[1 + |marks|]] + a0[2 + |marks|..];
  }

  /** Several more. */
  lemma {:induction false} SkipMany(a: seq<string>, a0: seq<string>, marks: seq<bool>, done: seq<string>,
                                    held: seq<string>, n: nat)
    requires Laid(a, a0, marks, done, held, []) && n <= |a0| - 1 - |marks| && NoOpts(a0[1 + |marks|..][..n])
    ensures Laid(a, a0, marks + Flags(false, n), done, held + a0[1 + |marks|..][..n], [])
    decreases n
  {
    if n == 0 {
      assert marks + Flags(false, 0) == marks && held + a0[1 + |marks|..][..0] == held;
    } else {
      var r := a0[1 + |marks|..][..n];
      assert r[..n - 1] == a0[1 + |marks|..][..n - 1] && !IsOpt(r[n - 1]);
      SkipMany(a, a0, marks, done, held, n - 1);
      var m, h := marks + Flags(false, n - 1), held + a0[1 + |marks|..][..n - 1];
      assert a0[1 + |m|] == r[n - 1];
      SkipOne(a, a0, m, done, h);
      assert m + [false] == marks + Flags(false, n) && h + [a0[1 + |m|]] == held + a0[1 + |marks|..][..n];
    }
  }

  /** One more argument is consumed. */
  lemma TakeOne(a: seq<string>, a0: seq<string>, marks: seq<bool>, done: seq<string>, held: seq<string>,
                newly: seq<string>)
    requires Laid(a, a0, marks, done, held, newly) && |marks| < |a0| - 1
    ensures Laid(a, a0, marks + [true], done, held, newly + [a0[1 + |marks|]])
  {
    PickMore(a0[1..], marks, true, true);
    PickMore(a0[1..], marks, true, false);
    assert a0[1 + |marks|..] == [a0[1 + |marks|]] + a0[2 + |marks|..];
    assert done + (newly + [a0[1 + |marks|]]) == (done + newly) + [a0[1 + |marks|]];
  }

  /** The rotation puts what was consumed since in front of what was skipped. */
  lemma RotateLaid(a: seq<string>, a0: seq<string>, marks: seq<bool>, done: seq<string>, held: seq<string>,
                   newly: seq<string>)
    requires Laid(a, a0, marks, done, held, newly)
    ensures var s := 1 + |done|;
            s + |held| + |newly| <= |a| && Laid(Rotated(a, s, s + |held|, s + |held| + |newly|), a0, marks, done + newly, held, [])
  {
    var s := 1 + |done|;
    assert a[..s] == [a0[0]] + done && a[s..s + |held|] == held && a[s + |held|..s + |held| + |newly|] == newly;
    assert a[s + |held| + |newly|..] == a0[1 + |marks|..];
    assert done + newly + [] == done + newly;
  }

  /** Nothing skipped: what was consumed since simply joins the rest. */
  lemma NoneHeld(a: seq<string>, a0: seq<string>, marks: seq<bool>, done: seq<string>, newly: seq<string>)
    requires Laid(a, a0, marks, done, [], newly)
    ensures Laid(a, a0, marks, done + newly, [], [])
  {
    assert done + newly + [] == done + newly;
    assert [a0[0]] + (done + newly) + [] + [] == [a0[0]] + done + [] + newly;
  }

  // ---- One call, on the arguments as they were given ----

  /** `ya_optnext`: the rest of a cluster of short options, or an address behind the end of an argument. */
  datatype Next = NoNext | Next(s: string) | Outside

  datatype Arg = NoArg | Arg(s: string) | NoString

  /** `struct option` */
  datatype LongOpt = LongOpt(name: string, hasArg: int, flag: bool, val: int)

  const REQUIRED_ARGUMENT := 1
  const NO_ARGUMENT := 0

  /** The modes of `check_gnu_extension`, the option string without its mode character, and the long options. */
  datatype Config = Config(permute: bool, handle: bool, optstring: string, hasLong: bool, longopts: seq<LongOpt>, longOnly: bool)

  /** The bytes behind the terminator of the option string, and behind that of an argument. */
  datatype Past = Past(opt1: char, opt2: char, arg1: char)

  /** What a call returns and leaves: result, `optarg`, rest of the cluster, how many arguments it skips and then
      consumes, and whether it reads behind the end of a string. */
  datatype Call = Call(rv: int, optarg: Arg, next: Next, skipped: nat, step: nat, overread: bool)

  /** A character of a C string: the terminator behind its last one, and `past` behind that. */
  function CharAt(s: string, i: nat, past: char): char { if i < |s| then s[i] else if i == |s| then '\0' else past }

  /** `strchr`, for a character that is not the terminator. */
  function Find(s: string, c: char): (k: int)
    ensures -1 <= k < |s| && (k == -1 <==> c !in s)
    ensures k != -1 ==> s[k] == c && c !in s[..k]
  {
    if c !in s then -1 else if s[0] == c then 0 else
      var k := 1 + Find(s[1..], c);
      assert s[..k] == [s[0]] + s[1..][..k - 1];
      k
  }

  method FindChar(s: string, c: char) returns (k: int)
    ensures k == Find(s, c)
  {
    k := 0;
    while k < |s|
      invariant 0 <= k <= |s| && c !in s[..k]
    {
      if s[k] == c {
        return;
      }
      k := k + 1;
    }
    k := -1;
  }

  /** What a missing argument is reported as. */
  function Missing(optstring: string): int { if optstring != "" && optstring[0] == ':' then ':' as int else '?' as int }

  /** The character behind the first one is the terminator. */
  predicate IsLast(s: string, past: Past) { if s == "" then past.arg1 == '\0' else |s| == 1 }

  /** The first character of `s` as a short option; `behind` are the arguments behind the cluster. The terminator,
      for an empty `s`, is "found" at the end of the option string. */
  function ShortCall(optstring: string, longOnly: bool, s: string, behind: seq<string>, past: Past): Call {
    var opt, over := CharAt(s, 0, '\0'), s == "";
    var k := if over then |optstring| else Find(optstring, opt);
    var last := IsLast(s, past);
    var rest := if last then NoNext else if over then Outside else Next(s[1..]);
    if k == -1 then Call('?' as int, NoArg, if longOnly then NoNext else rest, 0, if longOnly || last then 1 else 0, false)
    else if CharAt(optstring, k + 1, past.opt1) != ':' then Call(opt as int, NoArg, rest, 0, if last then 1 else 0, over)
    else if !last then Call(opt as int, if over then NoString else Arg(s[1..]), NoNext, 0, 1, over)
    else if CharAt(optstring, k + 2, past.opt2) == ':' then Call(opt as int, NoArg, NoNext, 0, 1, over)
    else if behind == [] then Call(Missing(optstring), NoArg, Next(s), 0, 1, over)
    else Call(opt as int, Arg(behind[0]), NoNext, 0, 2, over)
  }

  /** A long option and what is written for it: the name alone, or the name and a value. */
  predicate Matches(arg: string, o: LongOpt) { o.name <= arg && (|arg| == |o.name| || arg[|o.name|] == '=') }

  /** The first entry that matches, or the length of the table. */
  function FirstMatch(arg: string, longopts: seq<LongOpt>): (k: nat)
    ensures k <= |longopts| && (k < |longopts| ==> Matches(arg, longopts[k]))
    ensures forall j :: 0 <= j < k ==> !Matches(arg, longopts[j])
  {
    if longopts == [] || Matches(arg, longopts[0]) then 0 else 1 + FirstMatch(arg, longopts[1..])
  }

  /** A matching long option. */
  function EntryCall(optstring: string, arg: string, o: LongOpt, behind: seq<string>): Call
    requires Matches(arg, o)
  {
    var found := if o.flag then 0 else o.val;
    if |arg| == |o.name| then
      if o.hasArg != REQUIRED_ARGUMENT then Call(found, NoArg, NoNext, 0, 1, false)
      else if behind == [] then Call(Missing(optstring), NoArg, NoNext, 0, 1, false)
      else Call(found, Arg(behind[0]), NoNext, 0, 2, false)
    else if o.hasArg == NO_ARGUMENT then Call('?' as int, NoArg, NoNext, 0, 1, false)
    else Call(found, Arg(arg[|o.name| + 1..]), NoNext, 0, 1, false)
  }

  /** `arg` as a long option; an unknown one leaves `optarg` alone. */
  function LongCall(g: Config, arg: string, behind: seq<string>, optarg: Arg): Call {
    var k := FirstMatch(arg, g.longopts);
    if k == |g.longopts| then Call('?' as int, optarg, NoNext, 0, 1, false) else EntryCall(g.optstring, arg, g.longopts[k], behind)
  }

  /** A cluster, tried as a long option first if those may start with one dash. */
  function ClusterCall(g: Config, s: string, behind: seq<string>, optarg: Arg, past: Past): Call {
    if g.longOnly && g.hasLong && FirstMatch(s, g.longopts) < |g.longopts| then LongCall(g, s, behind, optarg)
    else ShortCall(g.optstring, g.longOnly, s, behind, past)
  }

  /** An argument that starts with a dash and is not the end mark. */
  function OptionCall(g: Config, arg: string, behind: seq<string>, optarg: Arg, past: Past): (c: Call)
    requires IsOpt(arg) && arg != "--"
    ensures c.skipped == 0
  {
    if g.hasLong && CharAt(arg, 1, '\0') == '-' then LongCall(g, arg[2..], behind, optarg)
    else ClusterCall(g, arg[1..], behind, optarg, past)
  }

  /** How many non-options come first. */
  function Lead(rest: seq<string>): (n: nat)
    ensures n <= |rest| && (n < |rest| ==> IsOpt(rest[n])) && forall i :: 0 <= i < n ==> !IsOpt(rest[i])
  {
    if rest == [] || IsOpt(rest[0]) then 0 else 1 + Lead(rest[1..])
  }

  lemma LeadIs(rest: seq<string>, n: nat)
    requires n <= |rest| && (n < |rest| ==> IsOpt(rest[n])) && forall i :: 0 <= i < n ==> !IsOpt(rest[i])
    ensures Lead(rest) == n
  {
  }

  /** A search from the first skipped argument on ends at the first option among the unread ones. */
  lemma SkippedTo(a: seq<string>, a0: seq<string>, marks: seq<bool>, done: seq<string>, held: seq<string>, i: int)
    requires Laid(a, a0, marks, done, held, []) && 1 + |done| < i <= |a| && (i < |a| ==> IsOpt(a[i]))
    requires NoOpts(a[1 + |done|..i])
    ensures var rest := a0[1 + |marks|..]; var n := Lead(rest);
            && i == 1 + |marks| + n && |marks| == |done| + |held|
            && Laid(a, a0, marks + Flags(false, n), done, held + rest[..n], [])
  {
    LaidSizes(a, a0, marks, done, held, []);
    hide Laid;
    var rest, n := a0[1 + |marks|..], i - 1 - |marks|;
    assert n >= 0;
    forall j | 0 <= j < n ensures !IsOpt(rest[j]) {
      assert rest[j] == a[1 + |marks| + j] == a[1 + |done|..i][|held| + j];
    }
    LeadIs(rest, n);
    SkipMany(a, a0, marks, done, held, n);
  }

  /** The non-options a call passes over. */
  function Skips(g: Config, rest: seq<string>): (n: nat)
    ensures n <= |rest|
  {
    if g.permute && !g.handle then Lead(rest) else 0
  }

  /** A call of `ya_getopt_internal` with nothing left of a cluster; `rest` are the arguments it has not seen, in
      their original order. */
  function FreshCall(g: Config, rest: seq<string>, optarg: Arg, past: Past): Call {
    var k := Skips(g, rest);
    if k == |rest| then Call(-1, NoArg, NoNext, k, 0, false)
    else
      var arg, behind := rest[k], rest[k + 1..];
      if !IsOpt(arg) then if g.handle then Call(1, Arg(arg), NoNext, 0, 1, false) else Call(-1, NoArg, NoNext, 0, 0, false)
      else if arg == "--" then Call(-1, optarg, NoNext, k, 1, false)
      else OptionCall(g, arg, behind, optarg, past).(skipped := k)
  }

  /** A call of `ya_getopt_internal`: what it would do if it simply went through the arguments from left to right. */
  function CallOn(g: Config, rest: seq<string>, next: Next, optarg: Arg, past: Past): Call
    requires !next.Outside?
  {
    if next.NoNext? then FreshCall(g, rest, optarg, past)
    else if rest == [] then Call(-1, NoArg, next, 0, 0, false)
    else ClusterCall(g, next.s, rest[1..], optarg, past)
  }

  /** A lone dash stands where the call looks for an option, and is not taken for a long option without a name. */
  predicate DashReached(g: Config, rest: seq<string>, next: Next) {
    && next.NoNext? && Skips(g, rest) < |rest| && rest[Skips(g, rest)] == "-"
    && !(g.longOnly && g.hasLong && FirstMatch("", g.longopts) < |g.longopts|)
  }

  lemma ClusterFacts(g: Config, s: string, behind: seq<string>, optarg: Arg, past: Past)
    ensures var c := ClusterCall(g, s, behind, optarg, past);
            && (c.overread <==> s == "" && !(g.longOnly && g.hasLong && FirstMatch("", g.longopts) < |g.longopts|))
            && c.skipped == 0 && c.step <= 1 + |behind| && c.step <= 2
            && (!c.overread ==> !c.next.Outside? && (c.next.Next? ==> c.next.s != "" && c.step <= 1 && (c.step == 1 ==> behind == [])))
            && (!c.overread && c.step == 0 ==> c.next.Next? && |c.next.s| < |s|)
  {
  }

  /** A call reads behind the end of a string exactly if it reaches a lone dash where it looks for an option. */
  lemma OverreadIsDash(g: Config, rest: seq<string>, next: Next, optarg: Arg, past: Past)
    requires !next.Outside? && (next.Next? ==> next.s != "")
    ensures CallOn(g, rest, next, optarg, past).overread <==> DashReached(g, rest, next)
  {
    hide ClusterCall; hide FirstMatch;
    if next.Next? && rest != [] {
      ClusterFacts(g, next.s, rest[1..], optarg, past);
    } else if next.NoNext? {
      var k := Skips(g, rest);
      if k < |rest| && IsOpt(rest[k]) {
        ClusterFacts(g, rest[k][1..], rest[k + 1..], optarg, past);
        assert rest[k] == "-" <==> rest[k][1..] == "";
      }
    }
  }

  /** Otherwise the bytes behind the strings make no difference. */
  lemma PastIgnored(g: Config, rest: seq<string>, next: Next, optarg: Arg, past: Past, past': Past)
    requires !next.Outside? && (next.Next? ==> next.s != "") && !DashReached(g, rest, next)
    ensures CallOn(g, rest, next, optarg, past) == CallOn(g, rest, next, optarg, past')
  {
    OverreadIsDash(g, rest, next, optarg, past);
    if next.Next? && rest != [] {
      ClusterPast(g, next.s, rest[1..], optarg, past, past');
    } else if next.NoNext? {
      var k := Skips(g, rest);
      if k < |rest| && IsOpt(rest[k]) { ClusterPast(g, rest[k][1..], rest[k + 1..], optarg, past, past'); }
    }
  }

  lemma ClusterPast(g: Config, s: string, behind: seq<string>, optarg: Arg, past: Past, past': Past)
    requires s != "" || (g.longOnly && g.hasLong && FirstMatch("", g.longopts) < |g.longopts|)
    ensures ClusterCall(g, s, behind, optarg, past) == ClusterCall(g, s, behind, optarg, past')
  {
  }

  /** The argument list `-` and an empty option string: what stands behind that string decides what is returned. */
  lemma DashExample(past: Past)
    ensures var g := Config(false, false, "", false, [], false);
            && CallOn(g, ["-"], NoNext, NoArg, past).overread
            && CallOn(g, ["-"], NoNext, NoArg, past.(opt1 := ':', opt2 := 'x', arg1 := '\0')).rv == '?' as int
            && CallOn(g, ["-"], NoNext, NoArg, past.(opt1 := 'x')).rv == 0
  {
  }

  /** As an argument, and behind the end of the options, a lone dash is fine. */
  lemma DashElsewhere(past: Past)
    ensures CallOn(Config(false, false, "f:", false, [], false), ["-f", "-"], NoNext, NoArg, past) == Call('f' as int, Arg("-"), NoNext, 0, 2, false)
    ensures CallOn(Config(false, false, "f:", false, [], false), ["file", "-"], NoNext, NoArg, past) == Call(-1, NoArg, NoNext, 0, 0, false)
  {
    assert Find("f:", 'f') == 0;
    assert ["-f", "-"][1..] == ["-"];
  }

  /** A non-option in the three modes: delivered as if it were the argument of an option 1, the end of the scan, or
      passed over. */
  lemma NonOption(g: Config, arg: string, rest: seq<string>, optarg: Arg, past: Past)
    requires !IsOpt(arg)
    ensures var c := CallOn(g, [arg] + rest, NoNext, optarg, past);
            if g.handle then c == Call(1, Arg(arg), NoNext, 0, 1, false)
            else if !g.permute then c == Call(-1, NoArg, NoNext, 0, 0, false)
            else var d := CallOn(g, rest, NoNext, optarg, past); c == d.(skipped := d.skipped + 1)
  {
    assert ([arg] + rest)[1..] == rest;
    if g.permute && !g.handle {
      var k := Lead(rest);
      assert Lead([arg] + rest) == k + 1;
      if k < |rest| { assert ([arg] + rest)[k + 1..][1..] == rest[k + 1..] && ([arg] + rest)[k + 2..] == rest[k + 1..]; }
    }
  }

  /** What a call does to the marks: the arguments skipped, then the option and its argument. */
  function Marked(marks: seq<bool>, c: Call): seq<bool> { marks + Flags(false, c.skipped) + Flags(true, c.step) }

  /** A call never uses up more than there is; unless it ends the scan or reads behind a string, it uses up an
      argument or shortens a cluster. */
  lemma CallProgress(g: Config, rest: seq<string>, next: Next, optarg: Arg, past: Past)
    requires !next.Outside? && (next.Next? ==> next.s != "")
    ensures var c := CallOn(g, rest, next, optarg, past);
            && c.skipped + c.step <= |rest| && c.step <= 2
            && (Ends(g, rest, next) ==> c.rv == -1 && !c.overread)
            && (!Ends(g, rest, next) && !c.overread && c.step == 0 ==> c.next.Next? && (next.Next? ==> |c.next.s| < |next.s|))
            && (!c.overread ==> !c.next.Outside? && (c.next.Next? ==> c.next.s != ""))
  {
    hide ClusterCall; hide FirstMatch; hide EntryCall;
    if next.Next? && rest != [] {
      ClusterFacts(g, next.s, rest[1..], optarg, past);
    } else if next.NoNext? {
      var k := Skips(g, rest);
      if k < |rest| && IsOpt(rest[k]) {
        ClusterFacts(g, rest[k][1..], rest[k + 1..], optarg, past);
        if |rest[k]| >= 2 { LongFacts(g, rest[k][2..], rest[k + 1..], optarg); }
      }
    }
  }

  lemma LongFacts(g: Config, arg: string, behind: seq<string>, optarg: Arg)
    ensures var c := LongCall(g, arg, behind, optarg);
            c.skipped == 0 && 1 <= c.step <= 1 + |behind| && c.step <= 2 && !c.overread && c.next.NoNext?
  {
  }

  /** The call ends the scan: nothing is left, a non-option stops it, or the end mark does. */
  predicate Ends(g: Config, rest: seq<string>, next: Next) {
    if !next.NoNext? then rest == []
    else
      var k := Skips(g, rest);
      k == |rest| || (!IsOpt(rest[k]) && !g.handle) || rest[k] == "--"
  }

  /** The cases that need no look at the option itself. */
  lemma FreshFacts(g: Config, rest: seq<string>, optarg: Arg, past: Past)
    ensures var c, k := FreshCall(g, rest, optarg, past), Skips(g, rest);
            && (k == |rest| ==> c == Call(-1, NoArg, NoNext, k, 0, false))
            && (k < |rest| && !IsOpt(rest[k]) ==> k == 0 && (g.handle || !g.permute))
            && (k < |rest| && !IsOpt(rest[k]) ==> c == if g.handle then Call(1, Arg(rest[0]), NoNext, 0, 1, false) else Call(-1, NoArg, NoNext, 0, 0, false))
            && (k < |rest| && rest[k] == "--" ==> c == Call(-1, optarg, NoNext, k, 1, false))
  {
  }

  /** The case of an option. */
  lemma OptionFacts(g: Config, rest: seq<string>, optarg: Arg, past: Past)
    ensures var c, k := FreshCall(g, rest, optarg, past), Skips(g, rest);
            k < |rest| && IsOpt(rest[k]) && rest[k] != "--" ==> c == OptionCall(g, rest[k], rest[k + 1..], optarg, past).(skipped := k)
  {
  }

  lemma NoneMarked(marks: seq<bool>, c: Call)
    requires c.skipped == 0 && c.step == 0
    ensures Marked(marks, c) == marks
  {
  }

  lemma MarkedLater(marks: seq<bool>, k: nat, c: Call)
    requires c.skipped == 0
    ensures Marked(marks + Flags(false, k), c) == Marked(marks, c.(skipped := k))
  {
  }

  /** The call ends the scan while the rotation is still due: at the end mark, or behind an option whose argument is
      missing. What was skipped is then in front of the index. */
  predicate Hides(g: Config, rest: seq<string>, next: Next) {
    !next.NoNext? || (Skips(g, rest) < |rest| && rest[Skips(g, rest)] == "--")
  }

  /** In `file -- x` the end mark ends the scan with `file` in front of the index. */
  lemma HiddenExample(g: Config)
    requires g.permute && !g.handle
    ensures Ends(g, ["file", "--", "x"], NoNext) && Hides(g, ["file", "--", "x"], NoNext)
  {
    LeadIs(["file", "--", "x"], 1);
  }

  /** The option string behind its mode character. */
  function Stripped(optstring: string): string {
    if optstring != "" && (optstring[0] == '+' || optstring[0] == '-') then optstring[1..] else optstring
  }

  /** What is left from a place between the parts of the layout on. */
  lemma LaidEnd(a: seq<string>, a0: seq<string>, marks: seq<bool>, done: seq<string>, held: seq<string>,
                newly: seq<string>, optind: int)
    requires Laid(a, a0, marks, done, held, newly)
    ensures held == Pick(a0[1..], marks, false) && |a| == |a0| && |marks| == |done| + |held| + |newly| <= |a0| - 1
    ensures newly == [] && optind == 1 + |done| ==> a[optind..] == held + a0[1 + |marks|..]
    ensures optind == 1 + |marks| ==> a[optind..] == a0[1 + |marks|..]
  {
    LaidSizes(a, a0, marks, done, held, newly);
    Parted([a0[0]], done, held, newly, a0[1 + |marks|..]);
  }

  lemma Parted(x: seq<string>, d: seq<string>, h: seq<string>, n: seq<string>, r: seq<string>)
    ensures (x + d + h + n + r)[|x| + |d| + |h| + |n|..] == r
    ensures n == [] ==> (x + d + h + n + r)[|x| + |d|..] == h + r
  {
    var y := x + d + h + n;
    assert (y + r)[|y|..] == r;
    if n == [] {
      var z := x + d;
      assert y == z + h && y + r == z + (h + r);
      assert (z + (h + r))[|z|..] == h + r;
    }
  }

  // ---- The scanner ----

  class Scanner {
    const argv: array<string>
    /** `posixly_correct` is 0: non-options are skipped instead of ending the scan. */
    const permute: bool
    /** `handle_nonopt_argv` */
    const handle: bool
    var optind: int
    var optnext: Next
    var start: int
    var end: int
    var optarg: Arg

    /** The arguments before the scan, and which of them were consumed. */
    ghost const a0: seq<string>
    ghost var marks: seq<bool>
    ghost var done: seq<string>
    ghost var held: seq<string>
    ghost var newly: seq<string>

    /** `check_gnu_extension` on the first call: a leading '+' or POSIXLY_CORRECT selects permutation, '-' the
        in-order mode. */
    constructor (argv: array<string>, optstring: string, posixlyEnv: bool)
      requires argv.Length >= 1
      ensures Valid() && a0 == argv[..] && this.argv == argv && optind == 1 && marks == [] && optnext == NoNext
      ensures optarg == NoArg
      ensures permute <==> (optstring != "" && optstring[0] == '+') || posixlyEnv
      ensures handle <==> optstring != "" && optstring[0] == '-'
    {
      this.argv, a0 := argv, argv[..];
      permute := CharAt(optstring, 0, '\0') == '+' || posixlyEnv;
      handle := CharAt(optstring, 0, '\0') == '-';
      optind, optnext, start, end, optarg := 1, NoNext, 0, 0, NoArg;
      marks, done, held, newly := [], [], [], [];
    }

    /** Where everything is. */
    ghost predicate Core()
      reads this, argv
    {
      && Laid(argv[..], a0, marks, done, held, newly)
      && (start == 0 ==> newly == [] && optind == 1 + |done|)
      && (start != 0 ==> start == 1 + |done| && end == start + |held| && optind == end + |newly|)
      && (handle || !permute ==> held == [] && start == 0) && (start != 0 ==> held != [])
    }

    ghost predicate Valid()
      reads this, argv
    {
      Core() && !optnext.Outside? && (optnext.Next? ==> optnext.s != "" && (if start == 0 then held == [] else newly == [] <==> 1 + |marks| < |a0|))
    }

    /** The arguments no call has looked at yet. */
    ghost function Unread(): seq<string>
      reads this
      requires 1 + |marks| <= |a0|
    {
      a0[1 + |marks|..]
    }

    lemma Counts()
      requires Laid(argv[..], a0, marks, done, held, newly)
      ensures argv.Length == |a0| && |marks| == |done| + |held| + |newly| && 1 + |marks| <= |a0|
    {
      hide Laid;
      LaidSizes(argv[..], a0, marks, done, held, newly);
    }

    /** Counts of arguments, and where the unread ones are. */
    lemma Sizes()
      requires Laid(argv[..], a0, marks, done, held, newly)
      ensures argv.Length == |a0| && |marks| == |done| + |held| + |newly| && 1 + |marks| <= |a0|
      ensures argv[1 + |marks|..] == Unread()
      ensures forall i :: 1 + |done| <= i < 1 + |done| + |held| ==> !IsOpt(argv[i])
    {
      hide Laid;
      LaidSizes(argv[..], a0, marks, done, held, newly);
      assert argv[1 + |marks|..] == argv[..][1 + |marks|..];
      forall i | 1 + |done| <= i < 1 + |done| + |held| ensures !IsOpt(argv[i]) {
        assert argv[..][1 + |done| + (i - 1 - |done|)] == held[i - 1 - |done|];
      }
    }

    /** The pending rotation of the last skip, done when the next option is asked for. */
    method Settle()
      requires Valid() && optnext.NoNext? && start != 0
      modifies this`optind, this`start, this`done, this`newly, argv
      ensures Valid() && start == 0 && done == old(done + newly) && optind == 1 + |done|
      ensures argv[..] == Rotated(old(argv[..]), old(start), old(end), old(optind))
    {
      hide Laid; hide Rotated;
      Sizes();
      RotateLaid(argv[..], a0, marks, done, held, newly);
      var lastPos := optind - 1;
      optind := optind - (end - start);
      // the source's reset of a non-positive index cannot happen
      assert optind > 0;
      RotateArgs(argv, start, end, lastPos + 1);
      start := 0;
      done, newly := done + newly, [];
    }

    method NextOption() returns (i: int)
      requires 0 <= optind < argv.Length && !IsOpt(argv[optind])
      ensures optind < i <= argv.Length && NoOpts(argv[optind..i]) && (i < argv.Length ==> IsOpt(argv[i]))
    {
      i := optind + 1;
      while i < argv.Length && !IsOpt(argv[i])
        invariant optind < i <= argv.Length && NoOpts(argv[optind..i])
      {
        i := i + 1;
      }
    }

    /** Skip non-options up to the next option; false if there is none. The ones skipped before are passed again. */
    method Skip() returns (found: bool)
      requires Valid() && optnext.NoNext? && start == 0 && optind < argv.Length && !IsOpt(argv[optind]) && permute
      requires !handle
      modifies this`optind, this`start, this`end, this`marks, this`held
      ensures old(1 + |marks| <= |a0|) && marks == old(marks) + Flags(false, Lead(old(Unread())))
      ensures Laid(argv[..], a0, marks, done, held, [])
      ensures found <==> Lead(old(Unread())) < |old(Unread())|
      ensures found ==> Valid() && start == old(optind) && optind == end == 1 + |marks|
      ensures !found ==> optind == old(optind) == 1 + |done|
    {
      hide Laid; hide NoOpts; hide IsOpt; hide Lead; hide Flags;
      Counts();
      start := optind;
      var i := NextOption();
      found := i < argv.Length;
      assert argv[..][1 + |done|..i] == argv[optind..i];
      SkippedTo(argv[..], a0, marks, done, held, i);
      ghost var n := Lead(Unread());
      marks, held := marks + Flags(false, n), held + Unread()[..n];
      if found {
        end := i;
        optind := i;
      }
    }

    /** `ya_getopt_shortopts` */
    method ShortOpts(optstring: string, longOnly: bool, past: Past) returns (rv: int, over: bool)
      requires 1 <= optind < argv.Length && optnext.Next?
      modifies this`optind, this`optnext, this`optarg
      ensures var c := ShortCall(optstring, longOnly, old(optnext).s, argv[old(optind) + 1..], past);
              rv == c.rv && optarg == c.optarg && optnext == c.next && optind == old(optind) + c.step && over == c.overread
    {
      var s := optnext.s;
      var opt := CharAt(s, 0, '\0');
      rv := opt as int;
      over := false;
      var os := |optstring|;
      if s != "" {
        os := FindChar(optstring, opt);
      }
      if os == -1 {
        optarg := NoArg;
        if longOnly {
          optind := optind + 1;
          optnext := NoNext;
        } else {
          optnext := Next(s[1..]);
          if |s| == 1 {
            optind := optind + 1;
            optnext := NoNext;
          }
        }
        rv := '?' as int;
        return;
      }
      over := os == |optstring|;
      if CharAt(optstring, os + 1, past.opt1) == ':' {
        if IsLast(s, past) {
          optind := optind + 1;
          if CharAt(optstring, os + 2, past.opt2) == ':' {
            optarg := NoArg;
          } else {
            if optind == argv.Length {
              optarg := NoArg;
              rv := Missing(optstring);
              return;
            }
            optarg := Arg(argv[optind]);
            optind := optind + 1;
          }
        } else {
          optarg := if s == "" then NoString else Arg(s[1..]);
          optind := optind + 1;
        }
        optnext := NoNext;
      } else {
        optarg := NoArg;
        if IsLast(s, past) {
          optnext := NoNext;
          optind := optind + 1;
        } else {
          optnext := if s == "" then Outside else Next(s[1..]);
        }
      }
    }

    /** A matching entry of the table: its argument, if it takes one, and its value. */
    method UseLong(arg: string, optstring: string, opt: LongOpt) returns (rv: int)
      requires 1 <= optind < argv.Length && Matches(arg, opt)
      modifies this`optind, this`optarg
      ensures var c := EntryCall(optstring, arg, opt, argv[old(optind) + 1..]);
              rv == c.rv && optarg == c.optarg && optind == old(optind) + c.step
    {
      var val := NoArg;
      if |opt.name| == |arg| {
        if opt.hasArg == REQUIRED_ARGUMENT {
          optind := optind + 1;
          if optind == argv.Length {
            optarg := NoArg;
            return Missing(optstring);
          }
          val := Arg(argv[optind]);
        }
      } else {
        if opt.hasArg == NO_ARGUMENT {
          optind := optind + 1;
          optarg := NoArg;
          return '?' as int;
        }
        val := Arg(arg[|opt.name| + 1..]);
      }
      optarg := val;
      optind := optind + 1;
      rv := if opt.flag then 0 else opt.val;
    }

    /** `ya_getopt_longopts`: the first entry of the table that matches; `unknown` is the `long_only_flag`, which
        leaves the argument to the short options. */
    method LongOpts(arg: string, g: Config, only: bool) returns (rv: int, unknown: bool)
      requires 1 <= optind < argv.Length
      modifies this`optind, this`optarg
      ensures unknown <==> FirstMatch(arg, g.longopts) == |g.longopts| && only
      ensures unknown ==> optind == old(optind) && optarg == old(optarg)
      ensures !unknown ==>
                var c := LongCall(g, arg, argv[old(optind) + 1..], old(optarg)); rv == c.rv && optarg == c.optarg && optind == old(optind) + c.step
    {
      hide EntryCall;
      unknown := false;
      var idx := 0;
      while idx < |g.longopts|
        invariant 0 <= idx <= |g.longopts| && optind == old(optind) && optarg == old(optarg)
        invariant forall j :: 0 <= j < idx ==> !Matches(arg, g.longopts[j])
      {
        if Matches(arg, g.longopts[idx]) {
          assert FirstMatch(arg, g.longopts) == idx;
          rv := UseLong(arg, g.optstring, g.longopts[idx]);
          return;
        }
        idx := idx + 1;
      }
      rv := '?' as int;
      if only {
        unknown := true;
      } else {
        optind := optind + 1;
      }
    }

    /** The arguments from the next unread one up to `optind` have been consumed. */
    ghost method Consumed(was: int)
      requires Laid(argv[..], a0, marks, done, held, newly) && (start == 0 ==> held == [] && newly == [])
      requires 1 + |marks| == was <= optind <= was + 2
      requires optind <= |a0|
      modifies this`marks, this`done, this`newly
      ensures Laid(argv[..], a0, marks, done, held, newly) && marks == old(marks) + Flags(true, optind - was)
      ensures start == 0 ==> newly == [] && |done| == old(|done|) + (optind - was)
      ensures start != 0 ==> done == old(done) && |newly| == old(|newly|) + (optind - was)
    {
      hide Laid;
      var k := optind - was;
      ghost var m := marks;
      if k >= 1 {
        TakeOne(argv[..], a0, marks, done, held, newly);
        newly := newly + [a0[1 + |marks|]];
        marks := marks + [true];
      }
      if k >= 2 {
        TakeOne(argv[..], a0, marks, done, held, newly);
        newly := newly + [a0[1 + |marks|]];
        marks := marks + [true];
      }
      assert marks == m + Flags(true, k);
      if start == 0 {
        NoneHeld(argv[..], a0, marks, done, newly);
        done, newly := done + newly, [];
      }
    }

    /** The call has done what `c` says. */
    ghost predicate Did(c: Call, marks0: seq<bool>, rv: int, over: bool)
      reads this
    {
      rv == c.rv && optarg == c.optarg && optnext == c.next && over == c.overread && marks == Marked(marks0, c)
    }

    /** Where the scan stands when it has ended: the skipped arguments are the first ones left, unless `lost`. */
    ghost predicate Left(lost: bool)
      reads this, argv
    {
      && Laid(argv[..], a0, marks, done, held, newly)
      && if lost then held != [] && newly != [] && optind == 1 + |marks| else newly == [] && optind == 1 + |done|
    }

    /** A new argument: a non-option delivered, refused or skipped over; the end mark; or the option to look at. */
    method NextArg(g: Config, past: Past) returns (rv: int, more: bool)
      requires Valid() && optnext.NoNext? && start == 0 && optind < argv.Length && g.permute == permute
      requires g.handle == handle
      modifies this
      ensures old(1 + |marks| <= |a0|)
      ensures var rest := old(Unread()); var k := Skips(g, rest);
              && (more <==> k < |rest| && IsOpt(rest[k]) && rest[k] != "--")
              && (!more ==> Did(FreshCall(g, rest, old(optarg), past), old(marks), rv, false))
              && (!more && Ends(g, rest, NoNext) ==> Left(held != [] && k < |rest| && rest[k] == "--"))
              && (!more && !Ends(g, rest, NoNext) ==> Valid())
              && (more ==> Core() && (start == 0 ==> held == []) && newly == [] && optnext == NoNext && optarg == old(optarg))
              && (more ==> marks == old(marks) + Flags(false, k) && 1 + |marks| <= |a0| && Unread() == rest[k..])
    {
      hide Laid; hide FreshCall;
      rv, more := -1, false;
      Sizes();
      FreshFacts(g, Unread(), optarg, past);
      var arg := argv[optind];
      if !IsOpt(arg) {
        if handle {
          optarg := Arg(arg);
          optind := optind + 1;
          start := 0;
          Consumed(optind - 1);
          return 1, false;
        } else if !permute {
          optarg := NoArg;
          return;
        } else {
          var found := Skip();
          if !found {
            optarg := NoArg;
            return;
          }
          Sizes();
          arg := argv[optind];
        }
      }
      if arg == "--" {
        optind := optind + 1;
        Consumed(optind - 1);
        return;
      }
      more := true;
    }

    /** A long option introduced by two dashes. */
    method LongArg(g: Config) returns (rv: int)
      requires Core() && optnext == NoNext && (start == 0 ==> held == []) && newly == [] && 1 + |marks| < |a0|
      requires |Unread()[0]| >= 2
      modifies this`optind, this`optarg, this`marks, this`done, this`newly
      ensures Valid() && Did(LongCall(g, old(Unread())[0][2..], old(Unread())[1..], old(optarg)), old(marks), rv, false)
    {
      hide Laid; hide LongCall;
      Sizes();
      ghost var was, rest := optind, Unread();
      assert argv[optind] == rest[0] && argv[optind + 1..] == rest[1..];
      LongFacts(g, rest[0][2..], rest[1..], optarg);
      var unknown;
      rv, unknown := LongOpts(argv[optind][2..], g, false);
      Consumed(was);
    }

    /** The end of `ya_getopt_internal`: a cluster of short options, tried as a long one first if those may start
        with one dash. */
    method Cluster(g: Config, past: Past) returns (rv: int, over: bool)
      requires Core() && optnext.Next? && (start == 0 ==> held == []) && newly == [] && 1 + |marks| < |a0|
      modifies this`optind, this`optarg, this`optnext, this`marks, this`done, this`newly
      ensures Core() && Did(ClusterCall(g, old(optnext).s, old(Unread())[1..], old(optarg), past), old(marks), rv, over)
      ensures !over ==> Valid()
    {
      hide Laid; hide LongCall; hide ShortCall;
      Sizes();
      ghost var was, rest := optind, Unread();
      assert argv[optind + 1..] == rest[1..];
      ClusterFacts(g, optnext.s, rest[1..], optarg, past);
      over := false;
      if g.longOnly && g.hasLong {
        LongFacts(g, optnext.s, rest[1..], optarg);
        var unknown;
        rv, unknown := LongOpts(optnext.s, g, true);
        if !unknown {
          optnext := NoNext;
          Consumed(was);
          return;
        }
      }
      rv, over := ShortOpts(g.optstring, g.longOnly, past);
      Consumed(was);
    }

    /** The option at the next unread argument. */
    method TakeOption(g: Config, past: Past) returns (rv: int, over: bool)
      requires Core() && optnext == NoNext && (start == 0 ==> held == []) && newly == [] && 1 + |marks| < |a0|
      requires IsOpt(Unread()[0]) && Unread()[0] != "--"
      modifies this`optind, this`optarg, this`optnext, this`marks, this`done, this`newly
      ensures Core()
      ensures Did(OptionCall(g, old(Unread())[0], old(Unread())[1..], old(optarg), past), old(marks), rv, over)
      ensures !over ==> Valid()
    {
      hide Laid; hide ClusterCall; hide LongCall;
      Sizes();
      assert argv[optind] == Unread()[0];
      over := false;
      if g.hasLong && CharAt(argv[optind], 1, '\0') == '-' {
        LongFacts(g, argv[optind][2..], Unread()[1..], optarg);
        rv := LongArg(g);
        return;
      }
      optnext := Next(argv[optind][1..]);
      rv, over := Cluster(g, past);
    }

    /** `ya_getopt_internal` behind the rotation. */
    method Scan(g: Config, past: Past) returns (rv: int, over: bool)
      requires Valid() && (optnext.NoNext? ==> start == 0) && g.permute == permute && g.handle == handle
      modifies this
      ensures old(1 + |marks| <= |a0|)
      ensures Did(CallOn(g, old(Unread()), old(optnext), old(optarg), past), old(marks), rv, over)
      ensures Ends(g, old(Unread()), old(optnext)) ==> Left(held != [] && Hides(g, old(Unread()), old(optnext)))
      ensures !Ends(g, old(Unread()), old(optnext)) ==> Core() && (!over ==> Valid())
    {
      hide Laid; hide FreshCall; hide ClusterCall; hide OptionCall; hide Marked; hide Flags; hide Lead; hide IsOpt;
      Counts();
      over := false;
      if optind >= argv.Length {
        FreshFacts(g, Unread(), optarg, past);
        NoneMarked(marks, CallOn(g, Unread(), optnext, optarg, past));
        optarg := NoArg;
        return -1, false;
      }
      if optnext.NoNext? {
        var more;
        ghost var rest, marks0, optarg0 := Unread(), marks, optarg;
        rv, more := NextArg(g, past);
        if more {
          ghost var k := Skips(g, rest);
          OptionFacts(g, rest, optarg0, past);
          assert Unread()[0] == rest[k] && Unread()[1..] == rest[k + 1..];
          MarkedLater(marks0, k, OptionCall(g, rest[k], rest[k + 1..], optarg0, past));
          rv, over := TakeOption(g, past);
        }
        return;
      }
      rv, over := Cluster(g, past);
    }

    /** `ya_getopt_internal`, with rotation of the arguments in place. It does what the call on the original
        arguments does. When the scan ends, the arguments left are the skipped ones and then the unread ones, unless
        skipped ones are hidden behind the index. */
    method GetOpt(optstring: string, hasLong: bool, longopts: seq<LongOpt>, longOnly: bool,
                  past: Past) returns (rv: int, over: bool)
      requires Valid()
      modifies this, argv
      ensures old(1 + |marks| <= |a0|) && 1 <= optind <= argv.Length && multiset(argv[..]) == multiset(a0)
      ensures var g := Config(permute, handle, Stripped(optstring), hasLong, longopts, longOnly);
              var rest, next := old(Unread()), old(optnext);
              && Did(CallOn(g, rest, next, old(optarg), past), old(marks), rv, over)
              && Laid(argv[..], a0, marks, done, held, newly)
              && (!Ends(g, rest, next) && !over ==> Valid())
              && (Ends(g, rest, next) ==> argv[optind..] == (if Hides(g, rest, next) then [] else Pick(a0[1..], marks, false)) + a0[1 + |marks|..])
    {
      hide Laid; hide Rotated; hide CallOn; hide Ends; hide Hides; hide Pick; hide Left; hide Core;
      CoreBounds();
      if optnext.NoNext? && start != 0 {
        Settle();
      }
      ghost var g, rest, next := Config(permute, handle, Stripped(optstring), hasLong, longopts, longOnly), Unread(), optnext;
      rv, over := Scan(Config(permute, handle, Stripped(optstring), hasLong, longopts, longOnly), past);
      if Ends(g, rest, next) {
        WhatIsLeft(held != [] && Hides(g, rest, next));
      } else {
        CoreBounds();
      }
      LaidPermutation(argv[..], a0, marks, done, held, newly);
    }

    lemma WhatIsLeft(lost: bool)
      requires Left(lost)
      ensures Laid(argv[..], a0, marks, done, held, newly) && 1 <= optind <= argv.Length && 1 + |marks| <= |a0|
      ensures |marks| <= |a0[1..]|
      ensures held == Pick(a0[1..], marks, false) && argv[optind..] == (if lost then [] else held) + a0[1 + |marks|..]
    {
      hide Laid; hide Pick;
      LaidEnd(argv[..], a0, marks, done, held, newly, optind);
      assert argv[optind..] == argv[..][optind..];
    }

    lemma CoreBounds()
      requires Core()
      ensures Laid(argv[..], a0, marks, done, held, newly) && 1 <= optind <= argv.Length && 1 + |marks| <= |a0|
    {
      hide Laid;
      Counts();
    }
  }
}
