/** What a call of ya_getopt does with each way of writing an option, said of argument lists alone. */
module GetoptLaws {
  import opened Getopt

  /** Letter `c` is listed in the option string, first at `k`. */
  ghost predicate Listed(o: string, c: char, k: int) { 0 <= k < |o| && o[k] == c && c !in o[..k] }

  /** The letter takes an argument. */
  ghost predicate Takes(o: string, k: int) { 0 <= k && k + 1 < |o| && o[k + 1] == ':' }

  /** The argument is optional. */
  ghost predicate Optional(o: string, k: int) { Takes(o, k) && k + 2 < |o| && o[k + 2] == ':' }

  /** A long option of that name, or of that name with a value, is written as `s`. */
  ghost predicate Named(s: string, name: string) { s == name || name + "=" <= s }

  /** `-` followed by `s` is not tried as a long option, and is not the end mark. */
  ghost predicate ShortOnly(g: Config, s: string) {
    && s != "" && s != "-" && (g.hasLong ==> s[0] != '-')
    && (g.hasLong && g.longOnly ==> forall i :: 0 <= i < |g.longopts| ==> !Named(s, g.longopts[i].name))
  }

  lemma NamedMatches(s: string, o: LongOpt)
    ensures Named(s, o.name) <==> Matches(s, o)
  {
    if Matches(s, o) && |s| != |o.name| {
      assert (o.name + "=")[..] == s[..|o.name| + 1];
    }
    if o.name + "=" <= s {
      assert s[..|o.name|] == o.name && s[|o.name|] == (o.name + "=")[|o.name|];
    }
  }

  lemma NoneNamed(g: Config, s: string)
    requires forall i :: 0 <= i < |g.longopts| ==> !Named(s, g.longopts[i].name)
    ensures FirstMatch(s, g.longopts) == |g.longopts|
  {
    var k := FirstMatch(s, g.longopts);
    if k < |g.longopts| { NamedMatches(s, g.longopts[k]); }
  }

  /** A written cluster is looked at like one that is pending: its argument is the next one. */
  lemma ClusterIs(g: Config, s: string, x: string, rest: seq<string>, optarg: Arg, past: Past)
    requires ShortOnly(g, s)
    ensures CallOn(g, ["-" + s] + rest, NoNext, optarg, past) == ShortCall(g.optstring, g.longOnly, s, rest, past)
    ensures CallOn(g, [x] + rest, Next(s), optarg, past) == ShortCall(g.optstring, g.longOnly, s, rest, past)
  {
    hide ShortCall; hide LongCall;
    var arg := "-" + s;
    assert arg[1..] == s && arg[1] == s[0] && IsOpt(arg) && arg != "--";
    assert ([arg] + rest)[0] == arg && ([arg] + rest)[1..] == rest && ([x] + rest)[1..] == rest;
    if g.hasLong && g.longOnly { NoneNamed(g, s); }
    Shape(g, s, rest, optarg, past);
  }

  lemma Shape(g: Config, s: string, behind: seq<string>, optarg: Arg, past: Past)
    ensures ShortCall(g.optstring, g.longOnly, s, behind, past).skipped == 0
  {
  }

  lemma FoundAt(o: string, c: char, k: int)
    requires Listed(o, c, k)
    ensures Find(o, c) == k
  {
  }

  // ---- Short options ----

  /** `-cv`: an argument written with its letter is what stands behind the letter, and all of that. */
  lemma Attached(g: Config, c: char, k: int, v: string, rest: seq<string>, optarg: Arg, past: Past)
    requires ShortOnly(g, [c] + v) && Listed(g.optstring, c, k) && Takes(g.optstring, k) && v != ""
    ensures CallOn(g, ["-" + ([c] + v)] + rest, NoNext, optarg, past) == Call(c as int, Arg(v), NoNext, 0, 1, false)
    ensures forall x :: CallOn(g, [x] + rest, Next([c] + v), optarg, past) == Call(c as int, Arg(v), NoNext, 0, 1, false)
  {
    FoundAt(g.optstring, c, k);
    assert ([c] + v)[1..] == v;
    forall x ensures CallOn(g, [x] + rest, Next([c] + v), optarg, past) == Call(c as int, Arg(v), NoNext, 0, 1, false) {
      ClusterIs(g, [c] + v, x, rest, optarg, past);
    }
    ClusterIs(g, [c] + v, "", rest, optarg, past);
  }

  /** `-c v`: a required argument is the next one; both are consumed. */
  lemma Separate(g: Config, c: char, k: int, v: string, rest: seq<string>, optarg: Arg, past: Past)
    requires ShortOnly(g, [c]) && Listed(g.optstring, c, k) && Takes(g.optstring, k) && !Optional(g.optstring, k)
    ensures CallOn(g, ["-" + [c]] + ([v] + rest), NoNext, optarg, past) == Call(c as int, Arg(v), NoNext, 0, 2, false)
    ensures forall x :: CallOn(g, [x] + ([v] + rest), Next([c]), optarg, past) == Call(c as int, Arg(v), NoNext, 0, 2, false)
  {
    FoundAt(g.optstring, c, k);
    forall x ensures CallOn(g, [x] + ([v] + rest), Next([c]), optarg, past) == Call(c as int, Arg(v), NoNext, 0, 2, false) {
      ClusterIs(g, [c], x, [v] + rest, optarg, past);
    }
    ClusterIs(g, [c], "", [v] + rest, optarg, past);
  }

  /** `-c` at the end: a required argument is reported as missing, with ':' exactly if the option string starts with
      it; the option is consumed and stays pending. */
  lemma Lacking(g: Config, c: char, k: int, optarg: Arg, past: Past)
    requires ShortOnly(g, [c]) && Listed(g.optstring, c, k) && Takes(g.optstring, k) && !Optional(g.optstring, k)
    ensures CallOn(g, ["-" + [c]], NoNext, optarg, past)
         == Call(if g.optstring[0] == ':' then ':' as int else '?' as int, NoArg, Next([c]), 0, 1, false)
  {
    FoundAt(g.optstring, c, k);
    assert ["-" + [c]] + [] == ["-" + [c]];
    ClusterIs(g, [c], "", [], optarg, past);
  }

  /** `-c`: an optional argument is only what is written with its letter. */
  lemma OptionalNone(g: Config, c: char, k: int, rest: seq<string>, optarg: Arg, past: Past)
    requires ShortOnly(g, [c]) && Listed(g.optstring, c, k) && Optional(g.optstring, k)
    ensures CallOn(g, ["-" + [c]] + rest, NoNext, optarg, past) == Call(c as int, NoArg, NoNext, 0, 1, false)
  {
    FoundAt(g.optstring, c, k);
    ClusterIs(g, [c], "", rest, optarg, past);
  }

  /** `-cv`: a letter without argument leaves the rest of the cluster for the next call, and consumes the cluster if it
      is the last. */
  lemma Flag(g: Config, c: char, k: int, v: string, rest: seq<string>, optarg: Arg, past: Past)
    requires ShortOnly(g, [c] + v) && Listed(g.optstring, c, k) && !Takes(g.optstring, k)
    ensures var r := if v == "" then Call(c as int, NoArg, NoNext, 0, 1, false) else Call(c as int, NoArg, Next(v), 0, 0, false);
            && CallOn(g, ["-" + ([c] + v)] + rest, NoNext, optarg, past) == r
            && forall x :: CallOn(g, [x] + rest, Next([c] + v), optarg, past) == r
  {
    FoundAt(g.optstring, c, k);
    assert ([c] + v)[1..] == v;
    var r := if v == "" then Call(c as int, NoArg, NoNext, 0, 1, false) else Call(c as int, NoArg, Next(v), 0, 0, false);
    forall x ensures CallOn(g, [x] + rest, Next([c] + v), optarg, past) == r { ClusterIs(g, [c] + v, x, rest, optarg, past); }
    ClusterIs(g, [c] + v, "", rest, optarg, past);
  }

  /** `-cv`: an unknown letter is reported as '?'; the rest of the cluster is left for the next call, or dropped where
      long options may start with one dash. */
  lemma Unknown(g: Config, c: char, v: string, rest: seq<string>, optarg: Arg, past: Past)
    requires ShortOnly(g, [c] + v) && c !in g.optstring
    ensures var r := if v == "" || g.longOnly then Call('?' as int, NoArg, NoNext, 0, 1, false)
                     else Call('?' as int, NoArg, Next(v), 0, 0, false);
            && CallOn(g, ["-" + ([c] + v)] + rest, NoNext, optarg, past) == r
            && forall x :: CallOn(g, [x] + rest, Next([c] + v), optarg, past) == r
  {
    assert ([c] + v)[1..] == v && Find(g.optstring, c) == -1;
    var r := if v == "" || g.longOnly then Call('?' as int, NoArg, NoNext, 0, 1, false) else Call('?' as int, NoArg, Next(v), 0, 0, false);
    forall x ensures CallOn(g, [x] + rest, Next([c] + v), optarg, past) == r { ClusterIs(g, [c] + v, x, rest, optarg, past); }
    ClusterIs(g, [c] + v, "", rest, optarg, past);
  }

  // ---- Long options ----

  /** Entry `k` is the first of the table whose name is written as `s`. */
  ghost predicate Entry(g: Config, s: string, k: int) {
    g.hasLong && 0 <= k < |g.longopts| && Named(s, g.longopts[k].name) && forall j :: 0 <= j < k ==> !Named(s, g.longopts[j].name)
  }

  /** `--s` with two dashes, and `-s` with one where long options may start with one, are looked up in the table. */
  lemma LongIs(g: Config, s: string, k: int, rest: seq<string>, optarg: Arg, past: Past)
    requires Entry(g, s, k) && s != ""
    ensures Matches(s, g.longopts[k])
    ensures CallOn(g, ["--" + s] + rest, NoNext, optarg, past) == EntryCall(g.optstring, s, g.longopts[k], rest)
    ensures g.longOnly && s[0] != '-' ==>
              CallOn(g, ["-" + s] + rest, NoNext, optarg, past) == EntryCall(g.optstring, s, g.longopts[k], rest)
  {
    var j := FirstMatch(s, g.longopts);
    NamedMatches(s, g.longopts[k]);
    if j < k { NamedMatches(s, g.longopts[j]); }
    assert j == k;
    hide EntryCall; hide FirstMatch; hide Named;
    EntryShape(g.optstring, s, g.longopts[k], rest);
    var a, b := "--" + s, "-" + s;
    assert a[2..] == s && a != "--" && IsOpt(a) && b[1..] == s && b[1] == s[0] && IsOpt(b);
    assert ([a] + rest)[1..] == rest && ([b] + rest)[1..] == rest;
  }

  lemma EntryShape(optstring: string, s: string, o: LongOpt, behind: seq<string>)
    requires Matches(s, o)
    ensures EntryCall(optstring, s, o, behind).skipped == 0
  {
  }

  /** `--name=v`: the value is what stands behind the first '=' after the name; an option without argument refuses
      it. */
  lemma LongValue(g: Config, name: string, v: string, k: int, rest: seq<string>, optarg: Arg, past: Past)
    requires Entry(g, name + "=" + v, k) && g.longopts[k].name == name
    ensures var o := g.longopts[k];
            CallOn(g, ["--" + (name + "=" + v)] + rest, NoNext, optarg, past)
            == if o.hasArg == NO_ARGUMENT then Call('?' as int, NoArg, NoNext, 0, 1, false)
               else Call(if o.flag then 0 else o.val, Arg(v), NoNext, 0, 1, false)
  {
    var s := name + "=" + v;
    assert s[|name| + 1..] == v;
    LongIs(g, s, k, rest, optarg, past);
  }

  /** `--name`: a required argument is the next one, and missing at the end; otherwise there is none. */
  lemma LongName(g: Config, name: string, k: int, rest: seq<string>, optarg: Arg, past: Past)
    requires Entry(g, name, k) && g.longopts[k].name == name && name != ""
    ensures var o := g.longopts[k];
            CallOn(g, ["--" + name] + rest, NoNext, optarg, past)
            == if o.hasArg != REQUIRED_ARGUMENT then Call(if o.flag then 0 else o.val, NoArg, NoNext, 0, 1, false)
               else if rest != [] then Call(if o.flag then 0 else o.val, Arg(rest[0]), NoNext, 0, 2, false)
               else Call(if g.optstring != "" && g.optstring[0] == ':' then ':' as int else '?' as int, NoArg, NoNext, 0, 1, false)
  {
    LongIs(g, name, k, rest, optarg, past);
  }

  /** `--s` that no entry names is reported as '?' and consumed. */
  lemma LongUnknown(g: Config, s: string, rest: seq<string>, optarg: Arg, past: Past)
    requires g.hasLong && s != "" && forall i :: 0 <= i < |g.longopts| ==> !Named(s, g.longopts[i].name)
    ensures CallOn(g, ["--" + s] + rest, NoNext, optarg, past) == Call('?' as int, optarg, NoNext, 0, 1, false)
  {
    NoneNamed(g, s);
    var a := "--" + s;
    assert a[2..] == s && a != "--" && IsOpt(a) && ([a] + rest)[1..] == rest;
  }

  // ---- The end ----

  /** The end mark is consumed and ends the scan; so does the end of the arguments. */
  lemma EndMark(g: Config, rest: seq<string>, optarg: Arg, past: Past)
    ensures CallOn(g, ["--"] + rest, NoNext, optarg, past) == Call(-1, optarg, NoNext, 0, 1, false)
    ensures CallOn(g, [], NoNext, optarg, past) == Call(-1, NoArg, NoNext, 0, 0, false)
  {
    assert (["--"] + rest)[0] == "--";
  }
}
