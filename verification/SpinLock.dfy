/** The LL/SC spin lock and the command channel it guards, as atomic steps of any number of cores. */
module SpinLock {
  import opened Words
  import BM = BinMaps

  const UNLOCKED := 0
  const LOCKED := 1

  datatype OpType = CmdOnly | CmdReturn | CmdWdata | CmdWdataReturn | OtherType

  /** `ARC_CONNECT_OP_T` */
  datatype Op = Op(typ: OpType, cmd: nat, param: nat, wdata: nat)

  /** `op->cmd | (op->param << 8)` on 32 bits. */
  function RegVal(op: Op): nat { BM.Or(op.cmd, op.param * 256 % WORD) }

  /** A command of eight bits stands in the low byte, its parameter above it, less the eight bits shifted out. */
  lemma CommandWord(op: Op)
    requires op.cmd < 256
    ensures RegVal(op) % 256 == op.cmd && RegVal(op) / 256 == op.param % 0x100_0000
  {
    var hi := op.param % 0x100_0000;
    ShiftedOut(op.param);
    assert Pow2(8) == 256 by { assert Pow2(4) == 16; }
    OrApart(op.cmd, hi, 8);
  }

  lemma ShiftedOut(param: nat)
    ensures param * 256 % WORD == 256 * (param % 0x100_0000)
  {
    var q := param / 0x100_0000;
    assert param * 256 == q * WORD + 256 * (param % 0x100_0000);
  }

  /** Or-ing numbers whose bits are apart adds them. */
  lemma {:induction false} OrApart(low: nat, high: nat, n: nat)
    requires low < Pow2(n)
    ensures BM.Or(low, high * Pow2(n)) == low + high * Pow2(n)
    decreases n
  {
    if n > 0 {
      var p := Pow2(n - 1);
      var z := high * p;
      HalfOf(high, p);
      OrHalves(low, z);
      OrApart(low / 2, high, n - 1);
    } else {
      OrZero(high);
    }
  }

  lemma HalfOf(high: nat, p: nat)
    ensures high * (2 * p) == 2 * (high * p)
  {
  }

  lemma OrHalves(x: nat, z: nat)
    ensures BM.Or(x, 2 * z) == x % 2 + 2 * BM.Or(x / 2, z)
  {
  }

  lemma {:induction false} OrZero(y: nat)
    ensures BM.Or(0, y) == y
  {
    if y > 0 { OrZero(y / 2); }
  }

  predicate WritesWdata(op: Op) { op.typ.CmdWdata? || op.typ.CmdWdataReturn? }

  predicate WritesCmd(op: Op) { !op.typ.OtherType? }

  /** What a core wants the lock for: one command, or a section entered with `arc_spin_trylock`. */
  datatype Job = Execute(op: Op) | TrySection

  /** Where a core stands, one constructor per instruction that touches shared state. */
  datatype Pc =
    | Idle
    | AtLlock(job: Job)
    | AtBranch(job: Job, val: int)
    | AtScond(job: Job)
    | AtWdata(op: Op)
    | AtCmd(op: Op)
    | AtRead(op: Op)
    | AtUnlock(job: Job, result: int)
    | Returned(job: Job, result: int)

  /** A command the device took: who sent it, and what register contents it saw. */
  datatype Entry = Entry(core: int, op: Op, cmd: nat, wdata: int, answer: int)

  /** The device: its state, a command word and the WDATA register give a new state and an answer. */
  type Device = (int, nat, int) -> (int, int)

  /** Lock word, live reservations, registers and device, and all program counters. */
  datatype State = State(slock: int, link: set<int>, wdata: int, readback: int, dev: int, pc: map<int, Pc>, log: seq<Entry>)

  function At(s: State, c: int): Pc { if c in s.pc then s.pc[c] else Idle }

  function Go(s: State, c: int, p: Pc): State { s.(pc := s.pc[c := p]) }

  /** A store to the lock word ends every reservation on it. */
  function StoreLock(s: State, v: int): State { s.(slock := v, link := {}) }

  /** The first instruction after the lock has been taken. */
  function Inside(job: Job): Pc {
    match job
    case Execute(op) => if WritesWdata(op) then AtWdata(op) else if WritesCmd(op) then AtCmd(op) else AtRead(op)
    case TrySection => AtUnlock(job, 1)
  }

  /** One atomic step of core `c`. */
  ghost predicate Step(d: Device, s: State, s': State, c: int) {
    match At(s, c)
    case Idle => exists job :: s' == Go(s, c, AtLlock(job))
    case AtLlock(job) => s' == Go(s.(link := s.link + {c}), c, AtBranch(job, s.slock))
    case AtBranch(job, val) =>
      s' == Go(s, c, if val != LOCKED then AtScond(job) else if job.TrySection? then Returned(job, 0) else AtLlock(job))
    case AtScond(job) =>
      // scond stores only while the reservation of llock is alive; it may also fail for no visible reason
      || (c in s.link && s' == Go(StoreLock(s, LOCKED), c, Inside(job)))
      || s' == Go(s.(link := s.link - {c}), c, AtLlock(job))
    case AtWdata(op) => s' == Go(s.(wdata := op.wdata), c, AtCmd(op))
    case AtCmd(op) =>
      var (dev', answer) := d(s.dev, RegVal(op), s.wdata);
      s' == Go(s.(dev := dev', readback := answer, log := s.log + [Entry(c, op, RegVal(op), s.wdata, answer)]), c, AtRead(op))
    case AtRead(op) => s' == Go(s, c, AtUnlock(Execute(op), s.readback))
    case AtUnlock(job, result) => s' == Go(StoreLock(s, UNLOCKED), c, Returned(job, result))
    case Returned(_, _) => s' == Go(s, c, Idle)
  }

  ghost predicate Init(s: State) { s.slock == UNLOCKED && s.link == {} && s.pc == map[] && s.log == [] }

  /** Some core takes a step. */
  ghost predicate Moves(d: Device, s: State, s': State) { exists c :: Step(d, s, s', c) }

  /** Any interleaving of the cores. */
  ghost predicate Run(d: Device, ss: seq<State>) {
    |ss| > 0 && Init(ss[0]) && forall i :: 0 <= i < |ss| - 1 ==> Moves(d, ss[i], ss[i + 1])
  }

  // ---- The invariant ----

  /** The core is between a successful acquire and its release. */
  predicate Holds(p: Pc) { p.AtWdata? || p.AtCmd? || p.AtRead? || p.AtUnlock? }

  /** The last command core `c` has sent. */
  function Last(log: seq<Entry>, c: int): seq<Entry> {
    if log == [] then [] else if log[|log| - 1].core == c then [log[|log| - 1]] else Last(log[..|log| - 1], c)
  }

  /** The last command of core `c` is `op`, sent with its own data, and `result` is the device's answer to it. */
  predicate Answered(log: seq<Entry>, c: int, op: Op, result: int) {
    var e := Last(log, c);
    e != [] && e[0].op == op && e[0].cmd == RegVal(op) && e[0].answer == result && (WritesWdata(op) ==> e[0].wdata == op.wdata)
  }

  /** What each program counter knows. */
  ghost predicate PcOk(s: State, c: int) {
    match At(s, c)
    case AtScond(_) => c in s.link ==> s.slock == UNLOCKED
    case AtBranch(_, val) => c in s.link ==> s.slock == val
    case AtCmd(op) => WritesCmd(op) && (WritesWdata(op) ==> s.wdata == op.wdata)
    case AtRead(op) => WritesCmd(op) ==> Answered(s.log, c, op, s.readback)
    case AtUnlock(Execute(op), result) => WritesCmd(op) ==> Answered(s.log, c, op, result)
    case Returned(Execute(op), result) => WritesCmd(op) ==> Answered(s.log, c, op, result)
    case AtWdata(op) => WritesWdata(op)
    case AtUnlock(TrySection, result) => result == 1
    case _ => true
  }

  ghost predicate Inv(s: State) {
    && (s.slock == LOCKED || s.slock == UNLOCKED)
    && (s.slock == UNLOCKED ==> forall c :: !Holds(At(s, c)))
    && (forall c, c' :: Holds(At(s, c)) && Holds(At(s, c')) ==> c == c')
    && (forall c {:trigger PcOk(s, c)} :: PcOk(s, c))
  }

  lemma LastOther(log: seq<Entry>, e: Entry, c: int)
    ensures Last(log + [e], c) == if e.core == c then [e] else Last(log, c)
  {
    assert (log + [e])[..|log|] == log;
  }

  /** Core `c` moves to `p` and only touches the lock word, its reservations or nothing; what the others know stays
      true. */
  lemma Others(s: State, s': State, c: int, p: Pc)
    requires Inv(s) && s'.pc == s.pc[c := p] && s'.log == s.log
    requires s'.link == {} || (s'.slock == s.slock && s'.link <= s.link + {c})
    requires (s'.wdata == s.wdata && s'.readback == s.readback) || Holds(At(s, c))
    ensures forall c' {:trigger PcOk(s', c')} :: c' != c ==> PcOk(s', c')
  {
    forall c' {:trigger PcOk(s', c')} | c' != c ensures PcOk(s', c') {
      assert PcOk(s, c') && At(s', c') == At(s, c');
      if Holds(At(s, c)) { assert !Holds(At(s, c')); }
    }
  }

  /** Mutual exclusion after a step of `c` that keeps the lock word or changes it with the right to. */
  lemma Exclusive(s: State, s': State, c: int, p: Pc)
    requires Inv(s) && s'.pc == s.pc[c := p] && (s'.slock == LOCKED || s'.slock == UNLOCKED)
    requires Holds(p) ==> s'.slock == LOCKED && (Holds(At(s, c)) || s.slock == UNLOCKED)
    requires !Holds(p) ==> s'.slock == s.slock || Holds(At(s, c))
    requires Holds(At(s, c)) && s'.slock == UNLOCKED ==> !Holds(p)
    ensures s'.slock == UNLOCKED ==> forall c' :: !Holds(At(s', c'))
    ensures forall a, b :: Holds(At(s', a)) && Holds(At(s', b)) ==> a == b
  {
    forall a ensures a != c ==> At(s', a) == At(s, a) {}
    assert At(s', c) == p;
    if s'.slock == UNLOCKED {
      forall c' ensures !Holds(At(s', c')) { if c' != c && Holds(At(s, c)) { assert !Holds(At(s, c')); } }
    }
    forall a, b | Holds(At(s', a)) && Holds(At(s', b)) ensures a == b {}
  }

  lemma StepIdle(s: State, s': State, c: int, job: Job)
    requires Inv(s) && At(s, c).Idle? && s' == Go(s, c, AtLlock(job))
    ensures Inv(s')
  {
    Others(s, s', c, AtLlock(job));
    Exclusive(s, s', c, AtLlock(job));
    assert PcOk(s', c);
  }

  lemma StepSpin(s: State, s': State, c: int)
    requires Inv(s) && (At(s, c).AtLlock? || At(s, c).AtBranch?)
    requires s' == match At(s, c)
                   case AtLlock(job) => Go(s.(link := s.link + {c}), c, AtBranch(job, s.slock))
                   case AtBranch(job, val) =>
                     Go(s, c, if val != LOCKED then AtScond(job) else if job.TrySection? then Returned(job, 0) else AtLlock(job))
    ensures Inv(s')
  {
    assert PcOk(s, c);
    Others(s, s', c, s'.pc[c]);
    Exclusive(s, s', c, s'.pc[c]);
    assert PcOk(s', c);
  }

  /** A successful scond is an exclusive acquisition: nobody held the lock. */
  lemma StepScond(s: State, s': State, c: int, job: Job)
    requires Inv(s) && At(s, c) == AtScond(job)
    requires (c in s.link && s' == Go(StoreLock(s, LOCKED), c, Inside(job))) || s' == Go(s.(link := s.link - {c}), c, AtLlock(job))
    ensures Inv(s')
    ensures Holds(At(s', c)) ==> s.slock == UNLOCKED && forall c' :: !Holds(At(s, c'))
    ensures Holds(At(s', c)) ==> s'.slock == LOCKED && forall c' :: Holds(At(s', c')) ==> c' == c
  {
    assert PcOk(s, c);
    Others(s, s', c, s'.pc[c]);
    Exclusive(s, s', c, s'.pc[c]);
    assert PcOk(s', c);
  }

  lemma StepWdata(s: State, s': State, c: int, op: Op)
    requires Inv(s) && At(s, c) == AtWdata(op) && s' == Go(s.(wdata := op.wdata), c, AtCmd(op))
    ensures Inv(s')
  {
    assert PcOk(s, c);
    Others(s, s', c, AtCmd(op));
    Exclusive(s, s', c, AtCmd(op));
    assert PcOk(s', c);
  }

  lemma StepCmd(s: State, s': State, c: int, op: Op, dev': int, answer: int)
    requires Inv(s) && At(s, c) == AtCmd(op)
    requires s' == Go(s.(dev := dev', readback := answer, log := s.log + [Entry(c, op, RegVal(op), s.wdata, answer)]), c, AtRead(op))
    ensures Inv(s')
  {
    var e := Entry(c, op, RegVal(op), s.wdata, answer);
    assert PcOk(s, c);
    LastOther(s.log, e, c);
    Exclusive(s, s', c, AtRead(op));
    forall c' {:trigger PcOk(s', c')} | c' != c ensures PcOk(s', c') {
      assert PcOk(s, c') && At(s', c') == At(s, c');
      LastOther(s.log, e, c');
      assert !Holds(At(s, c'));
    }
    assert PcOk(s', c);
  }

  lemma StepRead(s: State, s': State, c: int, op: Op)
    requires Inv(s) && At(s, c) == AtRead(op) && s' == Go(s, c, AtUnlock(Execute(op), s.readback))
    ensures Inv(s')
  {
    assert PcOk(s, c);
    Others(s, s', c, s'.pc[c]);
    Exclusive(s, s', c, s'.pc[c]);
    assert PcOk(s', c);
  }

  lemma StepLeave(s: State, s': State, c: int)
    requires Inv(s) && (At(s, c).AtUnlock? || At(s, c).Returned?)
    requires s' == match At(s, c)
                   case AtUnlock(job, result) => Go(StoreLock(s, UNLOCKED), c, Returned(job, result))
                   case Returned(_, _) => Go(s, c, Idle)
    ensures Inv(s')
  {
    assert PcOk(s, c);
    Others(s, s', c, s'.pc[c]);
    Exclusive(s, s', c, s'.pc[c]);
    assert PcOk(s', c);
  }

  lemma StepKeeps(d: Device, s: State, s': State, c: int)
    requires Inv(s) && Step(d, s, s', c)
    ensures Inv(s')
  {
    match At(s, c)
    case Idle =>
      var job :| s' == Go(s, c, AtLlock(job));
      StepIdle(s, s', c, job);
    case AtLlock(_) => StepSpin(s, s', c);
    case AtBranch(_, _) => StepSpin(s, s', c);
    case AtScond(job) => StepScond(s, s', c, job);
    case AtWdata(op) => StepWdata(s, s', c, op);
    case AtCmd(op) =>
      var (dev', answer) := d(s.dev, RegVal(op), s.wdata);
      StepCmd(s, s', c, op, dev', answer);
    case AtRead(op) => StepRead(s, s', c, op);
    case AtUnlock(_, _) => StepLeave(s, s', c);
    case Returned(_, _) => StepLeave(s, s', c);
  }

  /** Every reachable state satisfies the invariant. */
  lemma {:induction false} Reachable(d: Device, ss: seq<State>, n: nat)
    requires Run(d, ss) && n < |ss|
    ensures Inv(ss[n])
    decreases n
  {
    if n == 0 {
      forall c {:trigger PcOk(ss[0], c)} ensures PcOk(ss[0], c) {}
    } else {
      Reachable(d, ss, n - 1);
      assert Moves(d, ss[n - 1], ss[n - 1 + 1]);
      var c :| Step(d, ss[n - 1], ss[n], c);
      StepKeeps(d, ss[n - 1], ss[n], c);
    }
  }

  // ---- What it means ----

  /** In every interleaving at most one core is inside the lock, and the lock word says whether one is. */
  lemma MutualExclusion(d: Device, ss: seq<State>, n: nat, a: int, b: int)
    requires Run(d, ss) && n < |ss|
    ensures Holds(At(ss[n], a)) && Holds(At(ss[n], b)) ==> a == b
    ensures Holds(At(ss[n], a)) ==> ss[n].slock == LOCKED
  {
    Reachable(d, ss, n);
  }

  /** A command of one of the four types returns the device's answer to a word with its own command and parameter, and
      to its own data if it has any, whatever the others do. */
  lemma OwnAnswer(d: Device, ss: seq<State>, n: nat, c: int, op: Op, result: int)
    requires Run(d, ss) && n < |ss| && At(ss[n], c) == Returned(Execute(op), result)
    requires op.typ.CmdOnly? || op.typ.CmdReturn? || op.typ.CmdWdata? || op.typ.CmdWdataReturn?
    ensures var e := Last(ss[n].log, c);
            && e != [] && e[0] in ss[n].log && e[0].core == c && e[0].op == op && e[0].answer == result
            && (op.cmd < 256 ==> e[0].cmd % 256 == op.cmd && e[0].cmd / 256 == op.param % 0x100_0000)
            && (op.typ.CmdWdata? || op.typ.CmdWdataReturn? ==> e[0].wdata == op.wdata)
  {
    Reachable(d, ss, n);
    assert PcOk(ss[n], c);
    LastIn(ss[n].log, c);
    if op.cmd < 256 { CommandWord(op); }
  }

  lemma {:induction false} LastIn(log: seq<Entry>, c: int)
    ensures var e := Last(log, c); |e| <= 1 && (e != [] ==> e[0] in log && e[0].core == c)
    decreases |log|
  {
    if log != [] { LastIn(log[..|log| - 1], c); }
  }

  /** Whose step it is that writes a register, and what: WDATA only by an operation that has data, the command register
      only by one of the four command types, with its own command and parameter. */
  lemma WritesByType(d: Device, ss: seq<State>, n: nat, c: int)
    requires Run(d, ss) && n + 1 < |ss| && Step(d, ss[n], ss[n + 1], c)
    ensures ss[n + 1].wdata != ss[n].wdata ==>
              var p := At(ss[n], c);
              p.AtWdata? && (p.op.typ.CmdWdata? || p.op.typ.CmdWdataReturn?) && ss[n + 1].wdata == p.op.wdata
    ensures ss[n + 1].log != ss[n].log ==>
              var p := At(ss[n], c);
              && p.AtCmd? && !p.op.typ.OtherType?
              && exists e :: ss[n + 1].log == ss[n].log + [e] && e.core == c && e.op == p.op && e.wdata == ss[n].wdata
                             && (e.op.cmd < 256 ==> e.cmd % 256 == e.op.cmd && e.cmd / 256 == e.op.param % 0x100_0000)
  {
    Reachable(d, ss, n);
    var s, s' := ss[n], ss[n + 1];
    assert PcOk(s, c);
    if At(s, c).AtCmd? {
      var op := At(s, c).op;
      var (dev', answer) := d(s.dev, RegVal(op), s.wdata);
      if op.cmd < 256 { CommandWord(op); }
      assert s'.log == s.log + [Entry(c, op, RegVal(op), s.wdata, answer)];
    } else {
      QuietStep(d, s, s', c);
    }
  }

  /** `arc_spin_trylock` answers 1 exactly when it has taken the lock: a core in its section answers 1, and one that
      answers without having been in it has seen the lock taken and answers 0. */
  lemma TryAnswer(d: Device, ss: seq<State>, n: nat, c: int, result: int)
    requires Run(d, ss) && n + 1 < |ss| && Step(d, ss[n], ss[n + 1], c)
    ensures At(ss[n], c) == AtUnlock(TrySection, result) ==> result == 1 && At(ss[n + 1], c) == Returned(TrySection, 1)
    ensures At(ss[n + 1], c) == Returned(TrySection, result) && !Holds(At(ss[n], c)) ==>
              result == 0 && At(ss[n], c) == AtBranch(TrySection, LOCKED)
  {
    Reachable(d, ss, n);
    assert PcOk(ss[n], c);
  }

  /** The log is what the device really did: each entry is its response, in the state the entries before left it in. */
  ghost predicate Faithful(d: Device, dev0: int, log: seq<Entry>, dev: int)
    decreases |log|
  {
    if log == [] then dev == dev0
    else
      var e := log[|log| - 1];
      exists dev1 :: Faithful(d, dev0, log[..|log| - 1], dev1) && d(dev1, e.cmd, e.wdata) == (dev, e.answer)
  }

  lemma {:induction false} LogIsFaithful(d: Device, ss: seq<State>, n: nat)
    requires Run(d, ss) && n < |ss|
    ensures Faithful(d, ss[0].dev, ss[n].log, ss[n].dev)
    decreases n
  {
    if n > 0 {
      LogIsFaithful(d, ss, n - 1);
      assert Moves(d, ss[n - 1], ss[n - 1 + 1]);
      var s, s' := ss[n - 1], ss[n];
      var c :| Step(d, s, s', c);
      if At(s, c).AtCmd? {
        var op := At(s, c).op;
        var (dev', answer) := d(s.dev, RegVal(op), s.wdata);
        assert s'.log[|s'.log| - 1] == Entry(c, op, RegVal(op), s.wdata, answer) && s'.log[..|s'.log| - 1] == s.log;
        assert d(s.dev, RegVal(op), s.wdata) == (s'.dev, answer);
        assert Faithful(d, ss[0].dev, s'.log[..|s'.log| - 1], s.dev);
      } else {
        QuietStep(d, s, s', c);
      }
    }
  }

  /** Only the command step concerns the device. */
  lemma QuietStep(d: Device, s: State, s': State, c: int)
    requires Step(d, s, s', c) && !At(s, c).AtCmd?
    ensures s'.log == s.log && s'.dev == s.dev
  {
    match At(s, c)
    case Idle => var job :| s' == Go(s, c, AtLlock(job));
    case AtLlock(_) =>
    case AtBranch(_, _) =>
    case AtScond(_) =>
    case AtWdata(_) =>
    case AtRead(_) =>
    case AtUnlock(_, _) =>
    case Returned(_, _) =>
  }
}
