/** The CLH lock on PSO. With seq_cst or release stores to `locked`, as in the lock itself, it has no
    PSO run that is not a TSO run; with ordinary or relaxed ones the unlocking store overtakes the
    counter stores. */
module ClhPso {
  import opened StoreBuffer
  import opened Machine
  import opened Inclusion
  import opened Separated
  import opened TwoThreads
  import opened Clh
  import opened ClhInvariant
  import opened ClhSteps
  import opened ClhTheorems

  predicate Ordered(h: Heap) { h.ord == Release || h.ord == SeqCst }

  function PBegin(mem: Mem<Addr>, rounds: seq<nat>): PsoConf<Addr, Local> {
    PsoInit(ScConf(mem, Begin(mem, rounds).loc))
  }

  predicate OnlyCs(b: PBuf<Addr>) {
    forall i :: 0 <= i < |b| && b[i].Put? ==> b[i].addr == Cs
  }

  predicate Shape(l: Local, b: PBuf<Addr>) {
    InOrder(b) && (!Outside(l.pc) ==> OnlyCs(b))
  }

  lemma CountInOrder(b: PBuf<Addr>, v: int)
    requires InOrder(b) && OnlyCs(b)
    ensures InOrder(Enqueue(b, Cs, v)) && OnlyCs(Enqueue(b, Cs, v))
  {
    InOrderAppend(b, Put(Cs, v));
  }

  lemma IssueKeepsShape(h: Heap, t: nat, l: Local, m: Mem<Addr>, b: PBuf<Addr>)
    requires Ordered(h) && Shape(l, b) && PEnabled(b, OpOf(h, t, l))
    ensures var e := PIssue(m, b, OpOf(h, t, l)); Shape(AfterOp(l, e.val), e.buf)
  {
    var op := OpOf(h, t, l);
    if l.pc.IncStore? || l.pc.DecStore? {
      CountInOrder(b, op.v);
    } else if op.Store? && op.ord == Release {
      InOrderAfterRelease(b, op.a, op.v);
    } else {
      assert PIssue(m, b, op).buf == b;
    }
  }

  lemma LandingKeepsShape(l: Local, b: PBuf<Addr>, a: Addr)
    requires Shape(l, b) && CanLand(b, a)
    ensures Shape(l, Dequeue(b, a))
  {
    InOrderAfterLanding(b, a);
  }

  ghost predicate AllShaped(d: PsoConf<Addr, Local>) {
    PsoWf(d) && forall t :: 0 <= t < |d.loc| ==> Shape(d.loc[t], d.buf[t])
  }

  lemma StepKeepsShapes(h: Heap, d: PsoConf<Addr, Local>, ch: PChoice<Addr>)
    requires Ordered(h) && AllShaped(d)
    ensures AllShaped(PsoStep(Prog(h), d, ch))
  {
    var t := ch.t;
    if t < |d.loc| {
      var l, b := d.loc[t], d.buf[t];
      assert Shape(l, b) && Prog(h).op(t, l) == OpOf(h, t, l);
      if ch.PDrain? {
        if CanLand(b, ch.a) { LandingKeepsShape(l, b, ch.a); }
      } else if PEnabled(b, OpOf(h, t, l)) {
        IssueKeepsShape(h, t, l, d.mem, b);
      }
    }
  }

  lemma {:induction false} ShapesHold(h: Heap, mem: Mem<Addr>, rounds: seq<nat>, ps: seq<PChoice<Addr>>)
    requires Ordered(h)
    ensures AllShaped(PsoExec(Prog(h), PBegin(mem, rounds), ps))
  {
    if ps != [] {
      var n := |ps| - 1;
      ShapesHold(h, mem, rounds, ps[..n]);
      StepKeepsShapes(h, PsoExec(Prog(h), PBegin(mem, rounds), ps[..n]), ps[n]);
    }
  }

  /** Same memory, same local states, and the buffers differ by barriers only. */
  lemma PsoRunIsTsoRun(h: Heap, mem: Mem<Addr>, rounds: seq<nat>, ps: seq<PChoice<Addr>>) returns (ts: seq<Choice>)
    requires Ordered(h)
    ensures Sim(TsoExec(Prog(h), Begin(mem, rounds), ts), PsoExec(Prog(h), PBegin(mem, rounds), ps))
  {
    var c0 := ScConf(mem, Begin(mem, rounds).loc);
    assert TsoInit(c0) == Begin(mem, rounds) by { assert TsoInit(c0).buf == Begin(mem, rounds).buf; }
    forall qs: seq<PChoice<Addr>> ensures AllInOrder(PsoExec(Prog(h), PsoInit(c0), qs)) {
      ShapesHold(h, mem, rounds, qs);
      var d := PsoExec(Prog(h), PBegin(mem, rounds), qs);
      assert forall t :: 0 <= t < |d.loc| ==> Shape(d.loc[t], d.buf[t]);
    }
    ts := SeparatedPsoIsTso(Prog(h), c0, ps);
  }

  lemma PsoMutualExclusion(h: Heap, mem: Mem<Addr>, rounds: seq<nat>, ps: seq<PChoice<Addr>>)
    requires Ordered(h) && Fresh(h) && StartMem(h, mem)
    ensures Exclusive(PsoExec(Prog(h), PBegin(mem, rounds), ps).loc)
  {
    var ts := PsoRunIsTsoRun(h, mem, rounds, ps);
    MutualExclusion(h, mem, rounds, ts);
  }

  // Ordinary stores: two threads, one acquisition each.

  function Empty(h: Heap): Mem<Addr> {
    map[Tail := h.dummy]
  }

  function Both(h: Heap): PsoConf<Addr, Local> {
    PBegin(Empty(h), [1, 1])
  }

  ghost predicate Reaches(h: Heap, l0: Local, l1: Local, b0: PBuf<Addr>, b1: PBuf<Addr>, m: Mem<Addr>) {
    Leads(Prog(h), Both(h), Spot(l0, l1, b0, b1, m))
  }

  function At(pc: Pc): Local { Local(pc, 0, 0) }

  const New := Local(Idle, 0, 1)

  lemma Act(h: Heap, l0: Local, l1: Local, b0: PBuf<Addr>, m: Mem<Addr>, t: nat)
    requires t < 2 && Reaches(h, l0, l1, b0, [], m) && (t == 0 ==> b0 == [])
    requires var op := OpOf(h, t, if t == 0 then l0 else l1); op.Store? || op.Exchange?
    ensures var op := OpOf(h, t, if t == 0 then l0 else l1);
      if t == 0 then Reaches(h, AfterOp(l0, Result(m, op)), l1, b0, [], MemAfter(m, op))
      else Reaches(h, l0, AfterOp(l1, Result(m, op)), b0, [], MemAfter(m, op))
  {
    Acts(Prog(h), Both(h), Spot(l0, l1, b0, [], m), t);
  }

  lemma Load0(h: Heap, l0: Local, l1: Local, b0: PBuf<Addr>, m: Mem<Addr>, a: Addr, v: int)
    requires Reaches(h, l0, l1, b0, [], m) && OpOf(h, 0, l0) == Load(a) && PRead(m, b0, a) == v
    ensures Reaches(h, AfterOp(l0, v), l1, b0, [], m)
  {
    Loads(Prog(h), Both(h), Spot(l0, l1, b0, [], m), 0, a);
  }

  lemma Load1(h: Heap, l0: Local, l1: Local, b0: PBuf<Addr>, b1: PBuf<Addr>, m: Mem<Addr>, a: Addr, v: int)
    requires Reaches(h, l0, l1, b0, b1, m) && OpOf(h, 1, l1) == Load(a) && PRead(m, b1, a) == v
    ensures Reaches(h, l0, AfterOp(l1, v), b0, b1, m)
  {
    Loads(Prog(h), Both(h), Spot(l0, l1, b0, b1, m), 1, a);
  }

  lemma Store0(h: Heap, l0: Local, l1: Local, b0: PBuf<Addr>, m: Mem<Addr>)
    requires Reaches(h, l0, l1, b0, [], m) && !Ordered(h) && OpOf(h, 0, l0).Store?
    ensures var op := OpOf(h, 0, l0); Reaches(h, AfterOp(l0, 0), l1, b0 + [Put(op.a, op.v)], [], m)
  {
    Stores(Prog(h), Both(h), Spot(l0, l1, b0, [], m), 0);
  }

  lemma FirstEnters(h: Heap)
    requires Fresh(h)
    ensures Reaches(h, At(IncLoad), New, [], [], Empty(h)[Locked(h.node(0, 0)) := 1][Tail := h.node(0, 0)])
  {
    var n, m := h.node(0, 0), Empty(h);
    assert Reaches(h, New, New, [], [], m) by {
      assert Both(h) == Conf(Spot(New, New, [], [], m));
      Starts(Prog(h), Spot(New, New, [], [], m));
    }
    var m1 := m[Locked(n) := 1];
    assert Reaches(h, At(Xchg), New, [], [], m1) by { Act(h, New, New, [], m, 0); }
    var m2 := m1[Tail := n];
    assert Reaches(h, At(Spin(h.dummy)), New, [], [], m2) by { Act(h, At(Xchg), New, [], m1, 0); }
    Load0(h, At(Spin(h.dummy)), New, [], m2, Locked(h.dummy), 0);
  }

  lemma SecondQueues(h: Heap, l0: Local, m: Mem<Addr>)
    requires Fresh(h) && Reaches(h, l0, New, [], [], m) && Get(m, Tail) == h.node(0, 0)
    ensures Reaches(h, l0, At(Spin(h.node(0, 0))), [], [], m[Locked(h.node(1, 0)) := 1][Tail := h.node(1, 0)])
  {
    var m1 := m[Locked(h.node(1, 0)) := 1];
    assert Reaches(h, l0, At(Xchg), [], [], m1) by { Act(h, l0, New, [], m, 1); }
    Act(h, l0, At(Xchg), [], m1, 1);
  }

  lemma OwnCount(m: Mem<Addr>, v: int)
    ensures PRead(m, [Put(Cs, v)], Cs) == v
  {
    assert [Put(Cs, v)][..0] == [];
  }

  lemma FirstCounts(h: Heap, l1: Local, m: Mem<Addr>)
    requires !Ordered(h) && Reaches(h, At(IncLoad), l1, [], [], m) && Get(m, Cs) == 0
    ensures Reaches(h, At(Unlock), l1, [Put(Cs, 1), Put(Cs, 0)], [], m)
  {
    var b := [Put(Cs, 1)];
    assert Reaches(h, At(IncStore(0)), l1, [], [], m) by { Load0(h, At(IncLoad), l1, [], m, Cs, 0); }
    assert Reaches(h, At(Check), l1, b, [], m) by {
      Store0(h, At(IncStore(0)), l1, [], m);
      assert [] + b == b;
    }
    OwnCount(m, 1);
    FirstCountsDown(h, l1, m, b);
    assert b + [Put(Cs, 0)] == [Put(Cs, 1), Put(Cs, 0)];
  }

  lemma FirstCountsDown(h: Heap, l1: Local, m: Mem<Addr>, b: PBuf<Addr>)
    requires !Ordered(h) && Reaches(h, At(Check), l1, b, [], m) && PRead(m, b, Cs) == 1
    ensures Reaches(h, At(Unlock), l1, b + [Put(Cs, 0)], [], m)
  {
    assert Reaches(h, At(DecLoad), l1, b, [], m) by { Load0(h, At(Check), l1, b, m, Cs, 1); }
    assert Reaches(h, At(DecStore(1)), l1, b, [], m) by { Load0(h, At(DecLoad), l1, b, m, Cs, 1); }
    Store0(h, At(DecStore(1)), l1, b, m);
  }

  /** The unlocking store, issued last, lands first, and then the first counter store. */
  lemma UnlockOvertakes(h: Heap, l1: Local, m: Mem<Addr>)
    requires !Ordered(h) && Reaches(h, At(Unlock), l1, [Put(Cs, 1), Put(Cs, 0)], [], m)
    ensures Reaches(h, Local(Idle, 1, 0), l1, [Put(Cs, 0)], [], m[Locked(h.node(0, 0)) := 0][Cs := 1])
  {
    var b, a, done := [Put(Cs, 1), Put(Cs, 0)], Locked(h.node(0, 0)), Local(Idle, 1, 0);
    var b' := b + [Put(a, 0)];
    assert Reaches(h, done, l1, b', [], m) by { Store0(h, At(Unlock), l1, b, m); }
    assert Reaches(h, done, l1, b, [], m[a := 0]) by {
      UnlockReachable(b', a);
      Lands(Prog(h), Both(h), Spot(done, l1, b', [], m), 0, a);
    }
    assert Reach(b, Cs) == 0 && b[..0] + b[1..] == [Put(Cs, 0)];
    Lands(Prog(h), Both(h), Spot(done, l1, b, [], m[a := 0]), 0, Cs);
  }

  lemma UnlockReachable(b: PBuf<Addr>, a: Addr)
    requires a != Cs && b == [Put(Cs, 1), Put(Cs, 0), Put(a, 0)]
    ensures CanLand(b, a) && Landing(b, a) == 0 && Dequeue(b, a) == [Put(Cs, 1), Put(Cs, 0)]
  {
    assert b[1..][1..] == [Put(a, 0)];
    assert Reach(b[1..][1..], a) == 0;
    assert Reach(b, a) == 2;
    assert b[..2] + b[3..] == [Put(Cs, 1), Put(Cs, 0)];
  }

  lemma SecondEnters(h: Heap, l0: Local, b0: PBuf<Addr>, m: Mem<Addr>, pred: int)
    requires Reaches(h, l0, At(Spin(pred)), b0, [], m) && Get(m, Locked(pred)) == 0 && Get(m, Cs) == 1
    ensures Reaches(h, l0, At(IncStore(1)), b0, [], m)
  {
    assert Reaches(h, l0, At(IncLoad), b0, [], m) by { Load1(h, l0, At(Spin(pred)), b0, [], m, Locked(pred), 0); }
    Load1(h, l0, At(IncLoad), b0, [], m, Cs, 1);
  }

  lemma SecondFails(h: Heap, l0: Local, b0: PBuf<Addr>, m: Mem<Addr>, pred: int)
    requires Reaches(h, l0, At(Spin(pred)), b0, [], m) && Get(m, Locked(pred)) == 0 && Get(m, Cs) == 1
    ensures Reaches(h, l0, At(Failed), b0, [Put(Cs, 2)], m)
  {
    var b := [Put(Cs, 2)];
    SecondEnters(h, l0, b0, m, pred);
    assert Reaches(h, l0, At(Check), b0, b, m) by {
      Stores(Prog(h), Both(h), Spot(l0, At(IncStore(1)), b0, [], m), 1);
      assert [] + b == b;
    }
    OwnCount(m, 2);
    Load1(h, l0, At(Check), b0, b, m, Cs, 2);
  }

  lemma UnorderedFails(h: Heap) returns (ps: seq<PChoice<Addr>>)
    requires Fresh(h) && !Ordered(h)
    ensures PsoExec(Prog(h), Both(h), ps).loc == [Local(Idle, 1, 0), At(Failed)]
  {
    var n0, n1 := h.node(0, 0), h.node(1, 0);
    FirstEnters(h);
    var m := Empty(h)[Locked(n0) := 1][Tail := n0];
    SecondQueues(h, At(IncLoad), m);
    var m' := m[Locked(n1) := 1][Tail := n1];
    FirstCounts(h, At(Spin(n0)), m');
    UnlockOvertakes(h, At(Spin(n0)), m');
    var m'' := m'[Locked(n0) := 0][Cs := 1];
    SecondFails(h, Local(Idle, 1, 0), [Put(Cs, 0)], m'', n0);
    var s := Spot(Local(Idle, 1, 0), At(Failed), [Put(Cs, 0)], [Put(Cs, 2)], m'');
    ps :| PsoExec(Prog(h), Both(h), ps) == Conf(s);
  }

  /** On PSO every run is exclusive exactly when the stores to `locked` are release or seq_cst. */
  lemma PsoSafeIff(h: Heap)
    requires Fresh(h)
    ensures Ordered(h) <==>
      forall mem, rounds, ps :: StartMem(h, mem) ==> Exclusive(PsoExec(Prog(h), PBegin(mem, rounds), ps).loc)
  {
    if Ordered(h) {
      forall mem, rounds, ps | StartMem(h, mem) ensures Exclusive(PsoExec(Prog(h), PBegin(mem, rounds), ps).loc) {
        PsoMutualExclusion(h, mem, rounds, ps);
      }
    } else {
      var ps := UnorderedFails(h);
      var rounds: seq<nat> := [1, 1];
      assert StartMem(h, Empty(h)) && PBegin(Empty(h), rounds) == Both(h);
      assert PsoExec(Prog(h), PBegin(Empty(h), rounds), ps).loc[1].pc.Failed?;
    }
  }
}
