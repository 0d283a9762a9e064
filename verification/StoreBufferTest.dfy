/** The store-then-load test: each of two threads stores to its own variable and then reads the
    other's, with or without the full fence the source marks as missing. */
module StoreBufferTest {
  import opened StoreBuffer
  import opened Machine
  import opened Fenced
  import opened Verdicts
  import opened SharedMemory

  datatype Var = X | Y

  /** 0: store next, 1: fence next (when there is one), 2: load next, 3: done with result `r`. */
  datatype Local = Local(pc: nat, r: int)

  function Mine(t: nat): Var { if t == 0 then X else Y }
  function Theirs(t: nat): Var { if t == 0 then Y else X }

  function OpOf(fenced: bool, ord: Order, t: nat, l: Local): Op<Var> {
    match l.pc
    case 0 => Store(Mine(t), 1, ord)
    case 1 => Fence
    case 2 => Load(Theirs(t))
    case _ => Halt
  }

  function AfterOp(fenced: bool, l: Local, v: int): Local {
    match l.pc
    case 0 => Local(if fenced then 1 else 2, 0)
    case 1 => Local(2, 0)
    case _ => Local(3, v)
  }

  function Prog(fenced: bool, ord: Order): Program<Var, Local> {
    Program((t: nat, l: Local) => OpOf(fenced, ord, t, l), (t: nat, l: Local, v: int) => AfterOp(fenced, l, v))
  }

  const Begin: ScConf<Var, Local> := ScConf(map[], [Local(0, 0), Local(0, 0)])

  /** The outcome the driver looks for: r1 == 0 && r2 == 0. */
  function BothZero(locs: seq<Local>): bool {
    |locs| == 2 && locs[0] == Local(3, 0) && locs[1] == Local(3, 0)
  }

  predicate ThreadOk(fenced: bool, ord: Order, l: Local, mine: int, dirty: bool) {
    && l.pc <= 3 && (l.pc == 1 ==> fenced)
    && mine == (if l.pc == 0 then 0 else 1)
    && (dirty ==> ord != SeqCst && (fenced ==> l.pc == 1))
  }

  predicate ConfOk(fenced: bool, ord: Order, c: ScConf<Var, Local>, d: seq<bool>) {
    && |c.loc| == 2 == |d|
    && ThreadOk(fenced, ord, c.loc[0], Get(c.mem, X), d[0])
    && ThreadOk(fenced, ord, c.loc[1], Get(c.mem, Y), d[1])
    && (c.loc[0].pc == 3 && c.loc[0].r == 0 ==> c.loc[1].pc <= 2 || c.loc[1].r == 1)
  }

  lemma StepOk(fenced: bool, ord: Order, c: ScConf<Var, Local>, d: seq<bool>, t: nat)
    requires ConfOk(fenced, ord, c, d) && t < 2
    ensures var op := OpOf(fenced, ord, t, c.loc[t]);
      op.Halt? ||
      ConfOk(fenced, ord,
             ScConf(MemAfter(c.mem, op), c.loc[t := AfterOp(fenced, c.loc[t], Result(c.mem, op))]),
             d[t := DirtyAfter(op, d[t])])
  {}

  ghost predicate ScInv(fenced: bool, ord: Order, sched: seq<nat>) {
    var p := Prog(fenced, ord);
    ConfOk(fenced, ord, ScExec(p, Begin, sched), [Dirty(p, Begin, sched, 0), Dirty(p, Begin, sched, 1)])
  }

  lemma ScStepKeeps(fenced: bool, ord: Order, sched: seq<nat>, t: nat)
    requires ScInv(fenced, ord, sched)
    ensures ScInv(fenced, ord, sched + [t])
  {
    var p := Prog(fenced, ord);
    var c, next := ScExec(p, Begin, sched), sched + [t];
    assert next[..|sched|] == sched;
    if t < 2 {
      var d := [Dirty(p, Begin, sched, 0), Dirty(p, Begin, sched, 1)];
      assert p.op(t, c.loc[t]) == OpOf(fenced, ord, t, c.loc[t]);
      StepOk(fenced, ord, c, d, t);
      assert [Dirty(p, Begin, next, 0), Dirty(p, Begin, next, 1)] == d[t := DirtyAfter(p.op(t, c.loc[t]), d[t])];
    }
  }

  lemma {:induction false} ScRuns(fenced: bool, ord: Order, sched: seq<nat>)
    ensures ScInv(fenced, ord, sched)
  {
    if sched != [] {
      var n := |sched| - 1;
      ScRuns(fenced, ord, sched[..n]);
      ScStepKeeps(fenced, ord, sched[..n], sched[n]);
      assert sched[..n] + [sched[n]] == sched;
    }
  }

  lemma ScSafe(fenced: bool, ord: Order)
    ensures !ScBug(Prog(fenced, ord), Begin, BothZero)
  {
    forall sched ensures !BothZero(ScExec(Prog(fenced, ord), Begin, sched).loc) {
      ScRuns(fenced, ord, sched);
    }
  }

  lemma FenceFences(fenced: bool, ord: Order)
    requires fenced || ord == SeqCst
    ensures FencedInSc(Prog(fenced, ord), Begin)
  {
    var p := Prog(fenced, ord);
    forall sched: seq<nat>, t: nat | t < |ScExec(p, Begin, sched).loc| && Dirty(p, Begin, sched, t)
      ensures !p.op(t, ScExec(p, Begin, sched).loc[t]).Load?
    {
      ScRuns(fenced, ord, sched);
    }
  }

  /** Both threads store, then both load, and nothing has drained yet: what holds of thread `t`
      once it has stored, and once it has loaded. */
  predicate At(c: TsoConf<Var, Local>, t: nat, l: Local, b: Buf<Var>) {
    && |c.loc| == |c.buf| == 2 && t < 2
    && c.mem == map[] && c.loc[t] == l && c.buf[t] == b
  }

  lemma StoreStep(ord: Order, c: TsoConf<Var, Local>, t: nat)
    requires ord != SeqCst && At(c, t, Local(0, 0), [])
    ensures var d := TsoStep(Prog(false, ord), c, Run(t));
      At(d, t, Local(2, 0), [Write(Mine(t), 1)]) && d.loc[1 - t] == c.loc[1 - t] && d.buf[1 - t] == c.buf[1 - t]
  {}

  lemma LoadStep(ord: Order, c: TsoConf<Var, Local>, t: nat)
    requires At(c, t, Local(2, 0), [Write(Mine(t), 1)])
    ensures var d := TsoStep(Prog(false, ord), c, Run(t));
      At(d, t, Local(3, 0), [Write(Mine(t), 1)]) && d.loc[1 - t] == c.loc[1 - t] && d.buf[1 - t] == c.buf[1 - t]
  {
    assert Prog(false, ord).op(t, c.loc[t]) == Load(Theirs(t));
    ReadMiss(c.mem, c.buf[t], Theirs(t));
  }

  lemma BadRun(ord: Order)
    requires ord != SeqCst
    ensures TsoBug(Prog(false, ord), Begin, BothZero)
  {
    var p, c0 := Prog(false, ord), TsoInit(Begin);
    var sched := [Run(0), Run(1), Run(0), Run(1)];
    BothStore(ord, c0);
    BothLoad(ord, TsoStep(p, TsoStep(p, c0, Run(0)), Run(1)));
    FourSteps(p, c0, sched);
    assert BothZero(TsoExec(p, c0, sched).loc);
  }

  lemma BothStore(ord: Order, c: TsoConf<Var, Local>)
    requires ord != SeqCst && At(c, 0, Local(0, 0), []) && At(c, 1, Local(0, 0), [])
    ensures var p := Prog(false, ord); var d := TsoStep(p, TsoStep(p, c, Run(0)), Run(1));
      At(d, 0, Local(2, 0), [Write(Mine(0), 1)]) && At(d, 1, Local(2, 0), [Write(Mine(1), 1)])
  {
    StoreStep(ord, c, 0);
    StoreStep(ord, TsoStep(Prog(false, ord), c, Run(0)), 1);
  }

  lemma BothLoad(ord: Order, c: TsoConf<Var, Local>)
    requires At(c, 0, Local(2, 0), [Write(Mine(0), 1)]) && At(c, 1, Local(2, 0), [Write(Mine(1), 1)])
    ensures var p := Prog(false, ord); var d := TsoStep(p, TsoStep(p, c, Run(0)), Run(1));
      BothZero(d.loc)
  {
    LoadStep(ord, c, 0);
    LoadStep(ord, TsoStep(Prog(false, ord), c, Run(0)), 1);
  }

  lemma FourSteps(p: Program<Var, Local>, c: TsoConf<Var, Local>, s: seq<Choice>)
    requires TsoWf(c) && |s| == 4
    ensures TsoExec(p, c, s) == TsoStep(p, TsoStep(p, TsoStep(p, TsoStep(p, c, s[0]), s[1]), s[2]), s[3])
  {
    assert s[..3][..2] == s[..2] && s[..2][..1] == s[..1] && s[..1][..0] == [];
    assert TsoExec(p, c, s[..1]) == TsoStep(p, c, s[0]);
    assert TsoExec(p, c, s[..2]) == TsoStep(p, TsoExec(p, c, s[..1]), s[1]);
    assert TsoExec(p, c, s[..3]) == TsoStep(p, TsoExec(p, c, s[..2]), s[2]);
  }

  /** The double zero appears on TSO exactly when neither the fence nor a seq_cst store is there. */
  lemma ZeroZeroIff(fenced: bool, ord: Order)
    ensures TsoBug(Prog(fenced, ord), Begin, BothZero) <==> !fenced && ord != SeqCst
  {
    var p := Prog(fenced, ord);
    if fenced || ord == SeqCst {
      FenceFences(fenced, ord);
      ScSafe(fenced, ord);
      forall ts ensures !BothZero(TsoExec(p, TsoInit(Begin), ts).loc) {
        var sched := FencedTsoIsSc(p, Begin, ts);
      }
    } else {
      BadRun(ord);
    }
  }

  /** The label "Logic Bug" of the CBMC table does not mean that the program is wrong under
      sequential consistency: this one is not. */
  lemma LogicBugLabelIsNotAnScBug()
    ensures var p := Prog(false, Plain);
      Conclude(Verdict(TsoBug(p, Begin, BothZero)), Verdict(PsoBug(p, Begin, BothZero))) == LogicBug
    ensures !ScBug(Prog(false, Plain), Begin, BothZero)
  {
    ZeroZeroIff(false, Plain);
    ScSafe(false, Plain);
    CbmcTable(Prog(false, Plain), Begin, BothZero);
  }

  /** The store order of the rewritten test. */
  function Hardened(ord: Order): Order { if ord == Relaxed then SeqCst else ord }

  lemma SameStep(fenced: bool, ord: Order, c: TsoConf<Var, Local>, ch: Choice)
    requires TsoWf(c)
    ensures TsoStep(Rewrite(Prog(fenced, ord)), c, ch) == TsoStep(Prog(fenced, Hardened(ord)), c, ch)
  {
    if ch.t < |c.loc| {
      var q, p := Rewrite(Prog(fenced, ord)), Prog(fenced, Hardened(ord));
      var l := c.loc[ch.t];
      assert q.op(ch.t, l) == Harden(OpOf(fenced, ord, ch.t, l));
      assert p.op(ch.t, l) == OpOf(fenced, Hardened(ord), ch.t, l);
      forall v: int ensures q.after(ch.t, l, v) == p.after(ch.t, l, v) {
        assert q.after(ch.t, l, v) == Prog(fenced, ord).after(ch.t, l, v) == AfterOp(fenced, l, v);
      }
    }
  }

  lemma {:induction false} RewriteHardens(fenced: bool, ord: Order, ts: seq<Choice>)
    ensures var q, p := Rewrite(Prog(fenced, ord)), Prog(fenced, Hardened(ord));
      TsoExec(q, TsoInit(Begin), ts) == TsoExec(p, TsoInit(Begin), ts)
  {
    if ts != [] {
      var n := |ts| - 1;
      RewriteHardens(fenced, ord, ts[..n]);
      SameStep(fenced, ord, TsoExec(Prog(fenced, Hardened(ord)), TsoInit(Begin), ts[..n]), ts[n]);
    }
  }

  /** The rewritten test still shows the double zero exactly when its stores are ordinary or release
      stores and the fence is missing: the rewrite leaves those as they are. */
  lemma RewriteMissesIff(fenced: bool, ord: Order)
    ensures TsoBug(Rewrite(Prog(fenced, ord)), Begin, BothZero) <==> !fenced && (ord == Plain || ord == Release)
    ensures !ScBug(Prog(fenced, ord), Begin, BothZero)
  {
    var r, h := Rewrite(Prog(fenced, ord)), Prog(fenced, Hardened(ord));
    ScSafe(fenced, ord);
    ZeroZeroIff(fenced, Hardened(ord));
    forall ts ensures TsoExec(r, TsoInit(Begin), ts) == TsoExec(h, TsoInit(Begin), ts) {
      RewriteHardens(fenced, ord, ts);
    }
    if ts :| BothZero(TsoExec(h, TsoInit(Begin), ts).loc) {
      assert BothZero(TsoExec(r, TsoInit(Begin), ts).loc);
    }
  }

  /** The two test threads on the shared memory in place. */
  class Test {
    const fenced: bool
    const ord: Order
    const memory: Memory<Var>
    var loc: seq<Local>

    ghost predicate Valid()
      reads this, memory
    {
      |memory.buf| == |loc|
    }

    ghost function Conf(): TsoConf<Var, Local>
      reads this, memory
    {
      TsoConf(memory.mem, memory.buf, loc)
    }

    constructor (fenced: bool, ord: Order)
      ensures Valid() && fresh(memory) && this.fenced == fenced && this.ord == ord && Conf() == TsoInit(Begin)
    {
      this.fenced := fenced;
      this.ord := ord;
      memory := new Memory(map[], 2);
      loc := [Local(0, 0), Local(0, 0)];
    }

    /** One access of one thread, or one landing store. */
    method Step(ch: Choice)
      requires Valid()
      modifies this, memory
      ensures Valid() && Conf() == TsoStep(Prog(fenced, ord), old(Conf()), ch)
    {
      var t := ch.t;
      if t >= |loc| { return; }
      if ch.Drain? { memory.Drain(t); return; }
      assert Prog(fenced, ord).op(t, loc[t]) == OpOf(fenced, ord, t, loc[t]);
      assert memory.buf[t := memory.buf[t]] == memory.buf;
      match loc[t].pc
      case 0 =>
        if ord == SeqCst {
          if memory.buf[t] != [] { return; }
          var _ := memory.Exchange(t, Mine(t), 1);
        } else {
          memory.Store(t, Mine(t), 1);
        }
        loc := loc[t := Local(if fenced then 1 else 2, 0)];
      case 1 =>
        if memory.buf[t] != [] { return; }
        loc := loc[t := Local(2, 0)];
      case 2 =>
        var r := memory.Load(t, Theirs(t));
        loc := loc[t := Local(3, r)];
      case _ =>
    }

    /** A whole run from the start: the double zero is out of the question with the fence. */
    method Execute(sched: seq<Choice>)
      requires Valid() && Conf() == TsoInit(Begin)
      modifies this, memory
      ensures Valid() && Conf() == TsoExec(Prog(fenced, ord), TsoInit(Begin), sched)
      ensures fenced || ord == SeqCst ==> !BothZero(loc)
    {
      for i := 0 to |sched|
        invariant Valid() && Conf() == TsoExec(Prog(fenced, ord), TsoInit(Begin), sched[..i])
      {
        Step(sched[i]);
        assert sched[..i + 1] == sched[..i] + [sched[i]];
        TsoSnoc(Prog(fenced, ord), TsoInit(Begin), sched[..i], sched[i]);
      }
      assert sched[..|sched|] == sched;
      ZeroZeroIff(fenced, ord);
    }
  }
}
