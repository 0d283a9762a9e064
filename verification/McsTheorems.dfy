/** What the queue invariant says about every TSO run of the MCS lock. */
module McsTheorems {
  import opened StoreBuffer
  import opened Machine
  import opened Inclusion
  import opened FifoLock
  import opened Mcs
  import opened McsInvariant
  import opened McsSteps

  /** The program's threads before their first round, on a TSO machine with nothing buffered. */
  function Begin(mem: Mem<Addr>, rounds: seq<nat>): TsoConf<Addr, Local> {
    Start(mem, rounds).c
  }

  /** The state with its history at the end of a run. */
  lemma Lift(style: Style, mem: Mem<Addr>, rounds: seq<nat>, sched: seq<Choice>) returns (s: State)
    requires StartMem(mem)
    ensures Inv(style, s) && s.c == TsoExec(Prog(style), Begin(mem, rounds), sched)
    ensures s == Exec(style, Start(mem, rounds), sched)
  {
    s := Exec(style, Start(mem, rounds), sched);
    Reachable(style, mem, rounds, sched);
    ExecIsTso(style, Start(mem, rounds), sched);
  }

  /** At most one thread between entry and release; no counter check has failed and no NULL has
      been followed. */
  ghost predicate Exclusive(locs: seq<Local>) {
    && (forall t, u :: 0 <= t < u < |locs| ==> !(Holding(locs[t].pc) && Holding(locs[u].pc)))
    && (forall t :: 0 <= t < |locs| ==> !locs[t].pc.Failed?)
  }

  lemma InvExcludes(style: Style, s: State)
    requires Inv(style, s)
    ensures Exclusive(s.c.loc)
  {
    forall t | 0 <= t < N(s)
      ensures !PcOf(s, t).Failed?
      ensures Holding(PcOf(s, t)) ==> s.served < |s.arrivals| && s.arrivals[s.served] == t
    {
      assert ThreadOk(style, s, t);
    }
    forall t, u | 0 <= t < u < N(s) ensures !(Holding(s.c.loc[t].pc) && Holding(s.c.loc[u].pc)) {
      assert PcOf(s, t) == s.c.loc[t].pc && PcOf(s, u) == s.c.loc[u].pc;
    }
    forall t | 0 <= t < N(s) ensures !s.c.loc[t].pc.Failed? {
      assert PcOf(s, t) == s.c.loc[t].pc;
    }
  }

  /** Mutual exclusion and the counter check, in every TSO run, for any threads and rounds. */
  lemma MutualExclusion(style: Style, mem: Mem<Addr>, rounds: seq<nat>, sched: seq<Choice>)
    requires StartMem(mem)
    ensures Exclusive(TsoExec(Prog(style), Begin(mem, rounds), sched).loc)
  {
    var s := Lift(style, mem, rounds, sched);
    InvExcludes(style, s);
  }

  /** The same under sequential consistency, whose runs are among those of TSO. */
  lemma MutualExclusionSc(style: Style, mem: Mem<Addr>, rounds: seq<nat>, sched: seq<nat>)
    requires StartMem(mem)
    ensures Exclusive(ScExec(Prog(style), ScConf(mem, Begin(mem, rounds).loc), sched).loc)
  {
    var c0 := ScConf(mem, Begin(mem, rounds).loc);
    assert TsoInit(c0) == Begin(mem, rounds) by { assert TsoInit(c0).buf == Begin(mem, rounds).buf; }
    EagerRun(Prog(style), c0, sched);
    MutualExclusion(style, mem, rounds, Eager(Prog(style), c0, sched));
  }

  /** The order of the initialising stores: after the first of them the node's `next` is NULL in the
      Linux forms, and its `locked` set in the DPDK form; after both, both. */
  lemma InitInOrder(style: Style, mem: Mem<Addr>, rounds: seq<nat>, sched: seq<Choice>, t: nat)
    requires StartMem(mem) && t < |rounds|
    ensures var c := TsoExec(Prog(style), Begin(mem, rounds), sched);
      var next, locked := Read(c.mem, c.buf[t], Next(t)), Read(c.mem, c.buf[t], Locked(t));
      && (c.loc[t].pc.Init? ==> if style.Dpdk? then locked == 1 else next == NULL)
      && (c.loc[t].pc.Xchg? ==> locked == 1 && next == NULL)
  {
    var s := Lift(style, mem, rounds, sched);
    assert ThreadOk(style, s, t) && PcOf(s, t) == s.c.loc[t].pc;
  }

  /** What an observer of the lock sees in one choice: the exchange, the read that ends the wait,
      the compare-and-swap or the store that gives the lock up. */
  function Observe(style: Style, c: TsoConf<Addr, Local>, ch: Choice): seq<Event>
    requires TsoWf(c)
  {
    if ch.Drain? || ch.t >= |c.loc| || !Enabled(c.buf[ch.t], OpOf(style, ch.t, c.loc[ch.t])) then []
    else
      var t := ch.t;
      var v := Issue(c.mem, c.buf[t], OpOf(style, t, c.loc[t])).val;
      match c.loc[t].pc
      case Xchg => if v == NULL then [Arrive(t), Enter(t)] else [Arrive(t)]
      case Spin(_) => if v == 0 then [Enter(t)] else []
      case CasTail => if v == t then [Leave(t)] else []
      case HandOff(_) => [Leave(t)]
      case _ => []
  }

  function Trace(style: Style, c: TsoConf<Addr, Local>, sched: seq<Choice>): seq<Event>
    requires TsoWf(c)
  {
    if sched == [] then []
    else
      var n := |sched| - 1;
      Trace(style, c, sched[..n]) + Observe(style, TsoExec(Prog(style), c, sched[..n]), sched[n])
  }

  function Abstract(s: State): Fifo {
    if s.served <= |s.arrivals| then Fifo(s.arrivals[s.served..], Held(s)) else Rejected
  }

  lemma ArrivalRefines(style: Style, s: State, t: nat)
    requires Inv(style, s) && CanRun(style, s, t) && PcOf(s, t).Xchg?
    ensures var f := Act(Abstract(s), Arrive(t)); var f' := Abstract(AfterRun(style, s, t));
      f' == if Get(s.c.mem, Tail) == NULL then Act(f, Enter(t)) else f
  {}

  lemma EntryRefines(style: Style, s: State, t: nat)
    requires Inv(style, s) && CanRun(style, s, t) && PcOf(s, t).Spin?
    ensures var v := View(s, t, Locked(t)); var f' := Abstract(AfterRun(style, s, t));
      f' == if v == 0 then Act(Abstract(s), Enter(t)) else Abstract(s)
  {
    var s' := AfterRun(style, s, t);
    assert ThreadOk(style, s, t);
    ReadMiss(s.c.mem, s.c.buf[t], Locked(t));
    if View(s, t, Locked(t)) == 0 {
      assert s.arrivals[s.served] == t && s.ticket[t] == s.served;
    } else {
      assert s'.c.loc == s.c.loc;
    }
  }

  lemma ReleaseRefines(style: Style, s: State, t: nat)
    requires Inv(style, s) && CanRun(style, s, t)
    requires PcOf(s, t).HandOff? || (PcOf(s, t).CasTail? && Get(s.c.mem, Tail) == t)
    ensures Abstract(AfterRun(style, s, t)) == Act(Abstract(s), Leave(t))
  {
    var s' := AfterRun(style, s, t);
    assert ThreadOk(style, s, t) && PlaceOk(s, |s.arrivals| - 1);
    assert s.arrivals[s.served] == t && s'.served == s.served + 1;
    assert s.arrivals[s.served..][1..] == s.arrivals[s'.served..];
    assert !Held(s');
  }

  lemma OtherStepsRefine(style: Style, s: State, t: nat)
    requires Inv(style, s) && CanRun(style, s, t)
    requires var pc := PcOf(s, t);
      !pc.Xchg? && !pc.Spin? && !pc.HandOff? && !(pc.CasTail? && Get(s.c.mem, Tail) == t)
    ensures Abstract(AfterRun(style, s, t)) == Abstract(s)
  {
    var s' := AfterRun(style, s, t);
    assert s'.arrivals == s.arrivals && s'.served == s.served;
    StaysInside(style, s, t);
    if s.served < |s.arrivals| {
      assert PlaceOk(s, s.served);
      var u := s.arrivals[s.served];
      assert u != t ==> PcOf(s', u) == PcOf(s, u);
    }
  }

  lemma StaysInside(style: Style, s: State, t: nat)
    requires Inv(style, s) && CanRun(style, s, t)
    requires var pc := PcOf(s, t);
      !pc.Xchg? && !pc.Spin? && !pc.HandOff? && !(pc.CasTail? && Get(s.c.mem, Tail) == t)
    ensures Holding(PcOf(AfterRun(style, s, t), t)) == Holding(PcOf(s, t))
  {
    NeverFails(style, s, t);
  }

  lemma NeverFails(style: Style, s: State, t: nat)
    requires Inv(style, s) && IsThread(s, t)
    ensures !PcOf(AfterRun(style, s, t), t).Failed?
  {
    StepKeepsInv(style, s, Run(t));
    assert ThreadOk(style, AfterRun(style, s, t), t);
  }

  lemma CasRefines(style: Style, s: State, t: nat)
    requires Inv(style, s) && CanRun(style, s, t) && PcOf(s, t).CasTail?
    ensures Acts(Abstract(s), Observe(style, s.c, Run(t))) == Abstract(AfterRun(style, s, t))
  {
    if Get(s.c.mem, Tail) == t { ReleaseRefines(style, s, t); } else { OtherStepsRefine(style, s, t); }
  }

  lemma RunStepRefines(style: Style, s: State, t: nat)
    requires Inv(style, s) && CanRun(style, s, t)
    ensures Acts(Abstract(s), Observe(style, s.c, Run(t))) == Abstract(AfterRun(style, s, t))
  {
    match PcOf(s, t)
    case Xchg =>
      ArrivalRefines(style, s, t);
      OneAct(Abstract(s), Arrive(t));
      TwoActs(Abstract(s), Arrive(t), Enter(t));
    case Spin(_) => EntryRefines(style, s, t);
    case HandOff(_) => ReleaseRefines(style, s, t);
    case CasTail => CasRefines(style, s, t);
    case _ => OtherStepsRefine(style, s, t);
  }

  lemma StepRefines(style: Style, s: State, ch: Choice, es: seq<Event>)
    requires Inv(style, s)
    requires Replay(es) == Abstract(s)
    ensures Replay(es + Observe(style, s.c, ch)) == Abstract(Step(style, s, ch))
  {
    ReplayAppend(es, Observe(style, s.c, ch));
    if ch.t < N(s) && ch.Run? && CanRun(style, s, ch.t) {
      RunStepRefines(style, s, ch.t);
    }
  }

  lemma {:induction false} RunRefines(style: Style, mem: Mem<Addr>, rounds: seq<nat>, sched: seq<Choice>)
    requires StartMem(mem)
    ensures Replay(Trace(style, Begin(mem, rounds), sched)) == Abstract(Exec(style, Start(mem, rounds), sched))
  {
    var s0 := Start(mem, rounds);
    if sched != [] {
      var n := |sched| - 1;
      RunRefines(style, mem, rounds, sched[..n]);
      var s := Lift(style, mem, rounds, sched[..n]);
      StepRefines(style, s, sched[n], Trace(style, s0.c, sched[..n]));
    }
  }

  /** Every run is a run of the FIFO lock: entries come exactly in tail-exchange order. */
  lemma RefinesFifo(style: Style, mem: Mem<Addr>, rounds: seq<nat>, sched: seq<Choice>)
    requires StartMem(mem)
    ensures var es := Trace(style, Begin(mem, rounds), sched);
      && Replay(es).Fifo?
      && Entries(es) <= Arrivals(es)
      && Exits(es) <= Entries(es)
      && |Entries(es)| <= |Exits(es)| + 1
  {
    RunRefines(style, mem, rounds, sched);
    var s := Lift(style, mem, rounds, sched);
    AcceptedIsFifo(Trace(style, Begin(mem, rounds), sched));
  }

  /** The queue in memory, stated about a configuration alone: `q` lists once each the threads
      between their exchange and their release, the tail points at its last node, a node's `next`
      is its immediate successor or, until that one's link store has landed, NULL, and whoever
      is linked behind another node is still locked. */
  ghost predicate Chain(c: TsoConf<Addr, Local>, q: seq<nat>) {
    && TsoWf(c)
    && (forall i, j :: 0 <= i < j < |q| ==> q[i] != q[j])
    && (forall i :: 0 <= i < |q| ==> q[i] < |c.loc| && !Outside(c.loc[q[i]].pc))
    && (forall t: nat :: t < |c.loc| && !Outside(c.loc[t].pc) ==> t in q)
    && Get(c.mem, Tail) == (if q == [] then NULL else q[|q| - 1])
    && (forall i :: 0 <= i < |q| ==> Node(c, q, i))
  }

  ghost predicate Node(c: TsoConf<Addr, Local>, q: seq<nat>, i: nat)
    requires TsoWf(c) && i < |q| && (forall j :: 0 <= j < |q| ==> q[j] < |c.loc|)
  {
    var next := Get(c.mem, Next(q[i]));
    if i + 1 == |q| then next == NULL
    else
      var w := q[i + 1];
      && Get(c.mem, Locked(w)) == 1
      && (next == w || next == NULL)
      && (next == w <==> c.loc[w].pc == Spin(q[i]) && c.buf[w] == [])
      && (next == NULL <==> c.loc[w].pc == Link(q[i]) || c.buf[w] == [Write(Next(q[i]), w)])
  }

  lemma PlaceIsNode(style: Style, s: State, q: seq<nat>, i: nat)
    requires Inv(style, s) && q == s.arrivals[s.served..] && i < |q|
    ensures q[i] < N(s) && s.ticket[q[i]] == s.served + i && !Outside(s.c.loc[q[i]].pc)
    ensures (forall j :: 0 <= j < |q| ==> q[j] < N(s)) ==> Node(s.c, q, i)
  {
    assert PlaceOk(s, s.served + i) && PlaceOk(s, s.served + i + 1);
    assert ThreadOk(style, s, q[i]);
    if i + 1 < |q| { assert ThreadOk(style, s, q[i + 1]); }
  }

  lemma QueueIsEveryone(style: Style, s: State)
    requires Inv(style, s)
    ensures var q := s.arrivals[s.served..];
      && (forall i, j :: 0 <= i < j < |q| ==> q[i] != q[j])
      && (forall i :: 0 <= i < |q| ==> q[i] < N(s) && !Outside(s.c.loc[q[i]].pc))
      && (forall t: nat :: t < N(s) && !Outside(s.c.loc[t].pc) ==> t in q)
  {
    var q := s.arrivals[s.served..];
    forall i | 0 <= i < |q|
      ensures q[i] < N(s) && s.ticket[q[i]] == s.served + i && !Outside(s.c.loc[q[i]].pc)
    {
      PlaceIsNode(style, s, q, i);
    }
    forall t: nat | t < N(s) && !Outside(s.c.loc[t].pc) ensures t in q {
      assert ThreadOk(style, s, t);
      assert q[s.ticket[t] - s.served] == t;
    }
  }

  lemma QueueIsChain(style: Style, s: State)
    requires Inv(style, s)
    ensures Chain(s.c, s.arrivals[s.served..])
  {
    var q := s.arrivals[s.served..];
    QueueIsEveryone(style, s);
    forall i | 0 <= i < |q| ensures Node(s.c, q, i) {
      PlaceIsNode(style, s, q, i);
    }
  }

  lemma QueueShape(style: Style, mem: Mem<Addr>, rounds: seq<nat>, sched: seq<Choice>)
    requires StartMem(mem)
    ensures exists q :: Chain(TsoExec(Prog(style), Begin(mem, rounds), sched), q)
  {
    var s := Lift(style, mem, rounds, sched);
    QueueIsChain(style, s);
  }

  /** The address an operation reads or writes, if any. */
  predicate Accesses(op: Op<Addr>, a: Addr) {
    !op.Fence? && !op.StoreBarrier? && !op.Halt? && op.a == a
  }

  predicate Buffers(b: Buf<Addr>, a: Addr) {
    exists i :: 0 <= i < |b| && b[i].addr == a
  }

  /** Nobody but thread `t` is about to access the address or has a store to it in flight; between
      rounds, not even `t` has. */
  ghost predicate Private(style: Style, c: TsoConf<Addr, Local>, t: nat, a: Addr)
    requires TsoWf(c) && t < |c.loc|
  {
    && (forall u: nat :: u < |c.loc| && u != t ==> !Accesses(OpOf(style, u, c.loc[u]), a) && !Buffers(c.buf[u], a))
    && (c.loc[t].pc.Idle? ==> !Buffers(c.buf[t], a))
  }

  lemma NobodyElse(style: Style, s: State, t: nat, a: Addr, u: nat)
    requires Inv(style, s) && IsThread(s, t) && Outside(PcOf(s, t)) && IsOwn(t, a)
    requires IsThread(s, u) && u != t
    ensures !Accesses(OpOf(style, u, s.c.loc[u]), a) && !Buffers(s.c.buf[u], a)
  {
    assert ThreadOk(style, s, u) && PlaceOk(s, s.served);
    if !Outside(PcOf(s, u)) {
      assert PlaceOk(s, s.ticket[u] + 1);
      if s.ticket[u] > s.served { assert PlaceOk(s, s.ticket[u] - 1); }
      if Holding(PcOf(s, u)) { assert HoldingOk(s, u) && BufOf(s, u) == s.c.buf[u]; }
    }
  }

  lemma NotEvenOwner(style: Style, s: State, t: nat, a: Addr)
    requires Inv(style, s) && IsThread(s, t) && PcOf(s, t).Idle? && IsOwn(t, a)
    ensures !Buffers(s.c.buf[t], a)
  {
    assert ThreadOk(style, s, t) && PlaceOk(s, s.served);
    assert OutsideOk(style, s, t) && BufOf(s, t) == s.c.buf[t];
  }

  /** From the return of unlock to its owner's next exchange a node belongs to its owner alone, so
      it may die or be reused. */
  lemma NodeLifetime(style: Style, mem: Mem<Addr>, rounds: seq<nat>, sched: seq<Choice>, t: nat, a: Addr)
    requires StartMem(mem) && t < |rounds| && IsOwn(t, a)
    ensures var c := TsoExec(Prog(style), Begin(mem, rounds), sched);
      Outside(c.loc[t].pc) ==> Private(style, c, t, a)
  {
    var s := Exec(style, Start(mem, rounds), sched);
    ExecIsTso(style, Start(mem, rounds), sched);
    if Outside(s.c.loc[t].pc) {
      forall u: nat | u < N(s) && u != t
        ensures !Accesses(OpOf(style, u, s.c.loc[u]), a) && !Buffers(s.c.buf[u], a)
      {
        Reachable(style, mem, rounds, sched);
        NobodyElse(style, s, t, a, u);
      }
      if s.c.loc[t].pc.Idle? {
        Reachable(style, mem, rounds, sched);
        NotEvenOwner(style, s, t, a);
      }
    }
  }
}
