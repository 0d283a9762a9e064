/** On PSO the MCS lock with a plain hand-off store and no fence fails: the hand-off overtakes the
    counter stores. Hence it is safe exactly in the forms that keep the hand-off behind them. */
module McsPlain {
  import opened StoreBuffer
  import opened Machine
  import opened TwoThreads
  import opened Mcs
  import opened McsSteps
  import opened McsTheorems
  import opened McsPso

  const Empty: Mem<Addr> := map[Tail := NULL]

  /** Two threads, one round each, nothing else in memory. */
  const Both: PsoConf<Addr, Local> := PBegin(Empty, [1, 1])

  ghost predicate Reaches(l0: Local, l1: Local, b0: PBuf<Addr>, b1: PBuf<Addr>, m: Mem<Addr>) {
    Leads(Prog(Cbmc), Both, Spot(l0, l1, b0, b1, m))
  }

  function At(pc: Pc): Local { Local(pc, 0) }

  /** A store or an exchange that acts on memory at once. */
  lemma Act0(l0: Local, l1: Local, b1: PBuf<Addr>, m: Mem<Addr>)
    requires Reaches(l0, l1, [], b1, m) && (OpOf(Cbmc, 0, l0).Store? || OpOf(Cbmc, 0, l0).Exchange?)
    ensures var op := OpOf(Cbmc, 0, l0);
      Reaches(AfterOp(Cbmc, 0, l0, Result(m, op)), l1, [], b1, MemAfter(m, op))
  {
    Acts(Prog(Cbmc), Both, Spot(l0, l1, [], b1, m), 0);
  }

  lemma Act1(l0: Local, l1: Local, b0: PBuf<Addr>, m: Mem<Addr>)
    requires Reaches(l0, l1, b0, [], m) && (OpOf(Cbmc, 1, l1).Store? || OpOf(Cbmc, 1, l1).Exchange?)
    ensures var op := OpOf(Cbmc, 1, l1);
      Reaches(l0, AfterOp(Cbmc, 1, l1, Result(m, op)), b0, [], MemAfter(m, op))
  {
    Acts(Prog(Cbmc), Both, Spot(l0, l1, b0, [], m), 1);
  }

  lemma Load0(l0: Local, l1: Local, b0: PBuf<Addr>, b1: PBuf<Addr>, m: Mem<Addr>, a: Addr, v: int)
    requires Reaches(l0, l1, b0, b1, m) && OpOf(Cbmc, 0, l0) == Load(a) && PRead(m, b0, a) == v
    ensures Reaches(AfterOp(Cbmc, 0, l0, v), l1, b0, b1, m)
  {
    Loads(Prog(Cbmc), Both, Spot(l0, l1, b0, b1, m), 0, a);
  }

  lemma Load1(l0: Local, l1: Local, b0: PBuf<Addr>, b1: PBuf<Addr>, m: Mem<Addr>, a: Addr, v: int)
    requires Reaches(l0, l1, b0, b1, m) && OpOf(Cbmc, 1, l1) == Load(a) && PRead(m, b1, a) == v
    ensures Reaches(l0, AfterOp(Cbmc, 1, l1, v), b0, b1, m)
  {
    Loads(Prog(Cbmc), Both, Spot(l0, l1, b0, b1, m), 1, a);
  }

  lemma Store0(l0: Local, l1: Local, b0: PBuf<Addr>, b1: PBuf<Addr>, m: Mem<Addr>, a: Addr, v: int)
    requires Reaches(l0, l1, b0, b1, m) && OpOf(Cbmc, 0, l0) == Store(a, v, Plain)
    ensures Reaches(AfterOp(Cbmc, 0, l0, 0), l1, b0 + [Put(a, v)], b1, m)
  {
    Stores(Prog(Cbmc), Both, Spot(l0, l1, b0, b1, m), 0);
  }

  lemma Store1(l0: Local, l1: Local, b0: PBuf<Addr>, b1: PBuf<Addr>, m: Mem<Addr>, a: Addr, v: int)
    requires Reaches(l0, l1, b0, b1, m) && OpOf(Cbmc, 1, l1) == Store(a, v, Plain)
    ensures Reaches(l0, AfterOp(Cbmc, 1, l1, 0), b0, b1 + [Put(a, v)], m)
  {
    Stores(Prog(Cbmc), Both, Spot(l0, l1, b0, b1, m), 1);
  }

  /** The memory once the first thread holds the lock, and once the second waits behind it. */
  const Held: Mem<Addr> := Empty[Next(0) := NULL][Locked(0) := 1][Tail := 0]
  const Queued: Mem<Addr> := Held[Next(1) := NULL][Locked(1) := 1][Tail := 1][Next(0) := 1]

  lemma FirstEnters()
    ensures Reaches(At(IncLoad), Local(Idle, 1), [], [], Held)
  {
    var o := Local(Idle, 1);
    assert Reaches(o, o, [], [], Empty) by {
      assert Both == Conf(Spot(o, o, [], [], Empty));
      Starts(Prog(Cbmc), Spot(o, o, [], [], Empty));
    }
    assert Reaches(At(Init), o, [], [], Empty[Next(0) := NULL]) by { Act0(o, o, [], Empty); }
    var m := Empty[Next(0) := NULL];
    assert Reaches(At(Xchg), o, [], [], m[Locked(0) := 1]) by { Act0(At(Init), o, [], m); }
    Act0(At(Xchg), o, [], m[Locked(0) := 1]);
  }

  lemma SecondQueues(l0: Local)
    requires Reaches(l0, Local(Idle, 1), [], [], Held)
    ensures Reaches(l0, At(Spin(0)), [], [], Queued)
  {
    var m := Held[Next(1) := NULL];
    assert Reaches(l0, At(Init), [], [], m) by { Act1(l0, Local(Idle, 1), [], Held); }
    assert Reaches(l0, At(Xchg), [], [], m[Locked(1) := 1]) by { Act1(l0, At(Init), [], m); }
    var m' := m[Locked(1) := 1];
    assert Reaches(l0, At(Link(0)), [], [], m'[Tail := 1]) by { Act1(l0, At(Xchg), [], m'); }
    Act1(l0, At(Link(0)), [], m'[Tail := 1]);
  }

  lemma OwnCount(m: Mem<Addr>, v: int)
    ensures PRead(m, [Put(Cs, v)], Cs) == v
  {
    assert [Put(Cs, v)][..0] == [];
  }

  /** The holder counts up and down with both stores still buffered. */
  lemma FirstCounts(l1: Local, m: Mem<Addr>)
    requires Reaches(At(IncLoad), l1, [], [], m) && Get(m, Cs) == 0
    ensures Reaches(At(ReadNext), l1, [Put(Cs, 1), Put(Cs, 0)], [], m)
  {
    var b := [Put(Cs, 1)];
    assert Reaches(At(IncStore(0)), l1, [], [], m) by { Load0(At(IncLoad), l1, [], [], m, Cs, 0); }
    assert Reaches(At(Check), l1, b, [], m) by {
      Store0(At(IncStore(0)), l1, [], [], m, Cs, 1);
      assert [] + b == b;
    }
    OwnCount(m, 1);
    FirstCountsDown(l1, m, b);
    assert b + [Put(Cs, 0)] == [Put(Cs, 1), Put(Cs, 0)];
  }

  lemma FirstCountsDown(l1: Local, m: Mem<Addr>, b: PBuf<Addr>)
    requires Reaches(At(Check), l1, b, [], m) && PRead(m, b, Cs) == 1
    ensures Reaches(At(ReadNext), l1, b + [Put(Cs, 0)], [], m)
  {
    assert Reaches(At(DecLoad), l1, b, [], m) by { Load0(At(Check), l1, b, [], m, Cs, 1); }
    assert Reaches(At(DecStore(1)), l1, b, [], m) by { Load0(At(DecLoad), l1, b, [], m, Cs, 1); }
    Store0(At(DecStore(1)), l1, b, [], m, Cs, 0);
  }

  lemma NothingOwn(m: Mem<Addr>, a: Addr)
    requires a != Cs
    ensures PRead(m, [Put(Cs, 1), Put(Cs, 0)], a) == Get(m, a)
  {
    var b := [Put(Cs, 1), Put(Cs, 0)];
    QueueOfEnqueue([Put(Cs, 1)], Cs, 0, a);
    QueueOfEnqueue([], Cs, 1, a);
    assert [] + [Put(Cs, 1)] == [Put(Cs, 1)] && [Put(Cs, 1)] + [Put(Cs, 0)] == b;
  }

  lemma HandsOff(l1: Local, m: Mem<Addr>, b: PBuf<Addr>)
    requires Reaches(At(ReadNext), l1, b, [], m) && PRead(m, b, Next(0)) == 1
    ensures Reaches(At(Idle), l1, b + [Put(Locked(1), 0)], [], m)
  {
    assert Reaches(At(ReadSucc), l1, b, [], m) by { Load0(At(ReadNext), l1, b, [], m, Next(0), 1); }
    assert Reaches(At(HandOff(1)), l1, b, [], m) by { Load0(At(ReadSucc), l1, b, [], m, Next(0), 1); }
    Store0(At(HandOff(1)), l1, b, [], m, Locked(1), 0);
  }

  /** It hands off, and the hand-off and then the first counter store land. */
  lemma HandOffOvertakes(l1: Local, m: Mem<Addr>)
    requires Reaches(At(ReadNext), l1, [Put(Cs, 1), Put(Cs, 0)], [], m) && Get(m, Next(0)) == 1
    ensures Reaches(At(Idle), l1, [Put(Cs, 0)], [], m[Locked(1) := 0][Cs := 1])
  {
    NothingOwn(m, Next(0));
    HandsOff(l1, m, [Put(Cs, 1), Put(Cs, 0)]);
    HandOffLands(l1, m);
  }

  lemma HandOffLands(l1: Local, m: Mem<Addr>)
    requires Reaches(At(Idle), l1, [Put(Cs, 1), Put(Cs, 0)] + [Put(Locked(1), 0)], [], m)
    ensures Reaches(At(Idle), l1, [Put(Cs, 0)], [], m[Locked(1) := 0][Cs := 1])
  {
    var b := [Put(Cs, 1), Put(Cs, 0)];
    var b' := b + [Put(Locked(1), 0)];
    assert Reaches(At(Idle), l1, b, [], m[Locked(1) := 0]) by {
      HandOffReachable(b');
      Lands(Prog(Cbmc), Both, Spot(At(Idle), l1, b', [], m), 0, Locked(1));
    }
    assert Reach(b, Cs) == 0 && b[..0] + b[1..] == [Put(Cs, 0)];
    Lands(Prog(Cbmc), Both, Spot(At(Idle), l1, b, [], m[Locked(1) := 0]), 0, Cs);
  }

  lemma HandOffReachable(b: PBuf<Addr>)
    requires b == [Put(Cs, 1), Put(Cs, 0), Put(Locked(1), 0)]
    ensures CanLand(b, Locked(1)) && Landing(b, Locked(1)) == 0 && Dequeue(b, Locked(1)) == [Put(Cs, 1), Put(Cs, 0)]
  {
    assert b[1..][1..] == [Put(Locked(1), 0)];
    assert Reach(b[1..][1..], Locked(1)) == 0;
    assert Reach(b, Locked(1)) == 2;
    assert b[..2] + b[3..] == [Put(Cs, 1), Put(Cs, 0)];
  }

  lemma SecondEnters(l0: Local, b0: PBuf<Addr>, m: Mem<Addr>)
    requires Reaches(l0, At(Spin(0)), b0, [], m) && Get(m, Locked(1)) == 0 && Get(m, Cs) == 1
    ensures Reaches(l0, At(IncStore(1)), b0, [], m)
  {
    assert Reaches(l0, At(IncLoad), b0, [], m) by { Load1(l0, At(Spin(0)), b0, [], m, Locked(1), 0); }
    Load1(l0, At(IncLoad), b0, [], m, Cs, 1);
  }

  /** The waiter enters, counts on top of the first thread's increment and fails its check. */
  lemma SecondFails(l0: Local, b0: PBuf<Addr>, m: Mem<Addr>)
    requires Reaches(l0, At(Spin(0)), b0, [], m) && Get(m, Locked(1)) == 0 && Get(m, Cs) == 1
    ensures Reaches(l0, At(Failed), b0, [Put(Cs, 2)], m)
  {
    var b := [Put(Cs, 2)];
    SecondEnters(l0, b0, m);
    assert Reaches(l0, At(Check), b0, b, m) by {
      Store1(l0, At(IncStore(1)), b0, [], m, Cs, 2);
      assert [] + b == b;
    }
    OwnCount(m, 2);
    Load1(l0, At(Check), b0, b, m, Cs, 2);
  }

  lemma PlainHandOffFails() returns (ps: seq<PChoice<Addr>>)
    ensures PsoExec(Prog(Cbmc), Both, ps).loc == [At(Idle), At(Failed)]
  {
    FirstEnters();
    SecondQueues(At(IncLoad));
    FirstCounts(At(Spin(0)), Queued);
    HandOffOvertakes(At(Spin(0)), Queued);
    var m := Queued[Locked(1) := 0][Cs := 1];
    SecondFails(At(Idle), [Put(Cs, 0)], m);
    var s := Spot(At(Idle), At(Failed), [Put(Cs, 0)], [Put(Cs, 2)], m);
    ps :| PsoExec(Prog(Cbmc), Both, ps) == Conf(s);
  }

  /** On PSO every run is exclusive with the fence of the Linux form and with the release store of
      the DPDK form, and not with neither. */
  lemma PsoSafeIff(style: Style)
    ensures style != Cbmc <==>
      forall mem, rounds, ps :: StartMem(mem) ==> Exclusive(PsoExec(Prog(style), PBegin(mem, rounds), ps).loc)
  {
    if style != Cbmc {
      forall mem, rounds, ps | StartMem(mem) ensures Exclusive(PsoExec(Prog(style), PBegin(mem, rounds), ps).loc) {
        PsoMutualExclusion(style, mem, rounds, ps);
      }
    } else {
      var ps := PlainHandOffFails();
      var rounds: seq<nat> := [1, 1];
      assert StartMem(Empty) && PBegin(Empty, rounds) == Both;
      assert PsoExec(Prog(style), PBegin(Empty, rounds), ps).loc[1].pc.Failed?;
    }
  }
}
