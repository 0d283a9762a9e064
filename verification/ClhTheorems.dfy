/** What the chain invariant says about every TSO run of the CLH lock. */
module ClhTheorems {
  import opened StoreBuffer
  import opened Machine
  import opened Inclusion
  import opened FifoLock
  import opened Clh
  import opened ClhInvariant
  import opened ClhSteps

  function Begin(mem: Mem<Addr>, rounds: seq<nat>): TsoConf<Addr, Local> {
    Start(mem, rounds).c
  }

  lemma Lift(h: Heap, mem: Mem<Addr>, rounds: seq<nat>, sched: seq<Choice>) returns (s: State)
    requires Fresh(h) && StartMem(h, mem)
    ensures Inv(h, s) && s.c == TsoExec(Prog(h), Begin(mem, rounds), sched)
    ensures s == Exec(h, Start(mem, rounds), sched)
  {
    s := Exec(h, Start(mem, rounds), sched);
    Reachable(h, mem, rounds, sched);
    ExecIsTso(h, Start(mem, rounds), sched);
  }

  /** At most one thread between entry and unlock; no counter check has failed. */
  ghost predicate Exclusive(locs: seq<Local>) {
    && (forall t, u :: 0 <= t < u < |locs| ==> !(Holding(locs[t].pc) && Holding(locs[u].pc)))
    && (forall t :: 0 <= t < |locs| ==> !locs[t].pc.Failed?)
  }

  lemma MutualExclusion(h: Heap, mem: Mem<Addr>, rounds: seq<nat>, sched: seq<Choice>)
    requires Fresh(h) && StartMem(h, mem)
    ensures Exclusive(TsoExec(Prog(h), Begin(mem, rounds), sched).loc)
  {
    var s := Lift(h, mem, rounds, sched);
    forall t | 0 <= t < N(s)
      ensures !s.c.loc[t].pc.Failed?
      ensures Holding(s.c.loc[t].pc) ==> s.served < |s.visits| && s.visits[s.served].t == t
    {
      assert ThreadOk(h, s, t) && LocOf(s, t) == s.c.loc[t];
    }
  }

  /** The same under sequential consistency, whose runs are among those of TSO. */
  lemma MutualExclusionSc(h: Heap, mem: Mem<Addr>, rounds: seq<nat>, sched: seq<nat>)
    requires Fresh(h) && StartMem(h, mem)
    ensures Exclusive(ScExec(Prog(h), ScConf(mem, Begin(mem, rounds).loc), sched).loc)
  {
    var c0 := ScConf(mem, Begin(mem, rounds).loc);
    assert TsoInit(c0) == Begin(mem, rounds) by { assert TsoInit(c0).buf == Begin(mem, rounds).buf; }
    EagerRun(Prog(h), c0, sched);
    MutualExclusion(h, mem, rounds, Eager(Prog(h), c0, sched));
  }

  /** What an observer of the lock sees in one choice. */
  function Observe(h: Heap, c: TsoConf<Addr, Local>, ch: Choice): seq<Event>
    requires TsoWf(c)
  {
    if ch.Drain? || ch.t >= |c.loc| || !Enabled(c.buf[ch.t], OpOf(h, ch.t, c.loc[ch.t])) then []
    else
      var t := ch.t;
      match c.loc[t].pc
      case Xchg => [Arrive(t)]
      case Spin(_) => if Issue(c.mem, c.buf[t], OpOf(h, t, c.loc[t])).val == 0 then [Enter(t)] else []
      case Unlock => [Leave(t)]
      case _ => []
  }

  function Trace(h: Heap, c: TsoConf<Addr, Local>, sched: seq<Choice>): seq<Event>
    requires TsoWf(c)
  {
    if sched == [] then []
    else
      var n := |sched| - 1;
      Trace(h, c, sched[..n]) + Observe(h, TsoExec(Prog(h), c, sched[..n]), sched[n])
  }

  function Threads(vs: seq<Visit>): seq<nat> {
    seq(|vs|, i requires 0 <= i < |vs| => vs[i].t)
  }

  function Abstract(s: State): Fifo {
    if s.served <= |s.visits| then Fifo(Threads(s.visits[s.served..]), Held(s)) else Rejected
  }

  lemma ArrivalRefines(h: Heap, s: State, t: nat)
    requires Inv(h, s) && CanRun(h, s, t) && LocOf(s, t).pc.Xchg?
    ensures Abstract(AfterRun(h, s, t)) == Act(Abstract(s), Arrive(t))
  {}

  lemma EntryRefines(h: Heap, s: State, t: nat)
    requires Inv(h, s) && CanRun(h, s, t) && LocOf(s, t).pc.Spin?
    ensures var f := Abstract(s);
      Abstract(AfterRun(h, s, t)) == if View(s, t, Locked(LocOf(s, t).pc.pred)) == 0 then Act(f, Enter(t)) else f
  {
    var s' := AfterRun(h, s, t);
    var p := LocOf(s, t).pc.pred;
    assert ThreadOk(h, s, t) && PlaceOk(h, s, s.ticket[t]);
    if s.ticket[t] > s.served { assert PlaceOk(h, s, s.ticket[t] - 1); }
    if View(s, t, Locked(p)) == 0 {
      assert s.ticket[t] == s.served && s.visits[s.served].t == t;
    } else {
      assert s'.c.loc == s.c.loc;
    }
  }

  lemma ReleaseRefines(h: Heap, s: State, t: nat)
    requires Inv(h, s) && CanRun(h, s, t) && LocOf(s, t).pc.Unlock?
    ensures Abstract(AfterRun(h, s, t)) == Act(Abstract(s), Leave(t))
  {
    var s' := AfterRun(h, s, t);
    assert ThreadOk(h, s, t);
    assert Threads(s.visits[s.served..])[1..] == Threads(s'.visits[s'.served..]);
    if s'.served < |s.visits| { assert PlaceOk(h, s, s'.served) && ThreadOk(h, s, s.visits[s'.served].t); }
  }

  lemma OtherStepsRefine(h: Heap, s: State, t: nat)
    requires Inv(h, s) && CanRun(h, s, t)
    requires !LocOf(s, t).pc.Xchg? && !LocOf(s, t).pc.Spin? && !LocOf(s, t).pc.Unlock?
    ensures Abstract(AfterRun(h, s, t)) == Abstract(s)
  {
    assert ThreadOk(h, s, t);
    if s.served < |s.visits| { assert PlaceOk(h, s, s.served); }
  }

  lemma RunStepRefines(h: Heap, s: State, t: nat)
    requires Inv(h, s) && CanRun(h, s, t)
    ensures Acts(Abstract(s), Observe(h, s.c, Run(t))) == Abstract(AfterRun(h, s, t))
  {
    match LocOf(s, t).pc
    case Xchg => ArrivalRefines(h, s, t);
    case Spin(_) => EntryRefines(h, s, t);
    case Unlock => ReleaseRefines(h, s, t);
    case _ => OtherStepsRefine(h, s, t);
  }

  lemma StepRefines(h: Heap, s: State, ch: Choice, es: seq<Event>)
    requires Inv(h, s) && Replay(es) == Abstract(s)
    ensures Replay(es + Observe(h, s.c, ch)) == Abstract(Step(h, s, ch))
  {
    ReplayAppend(es, Observe(h, s.c, ch));
    if ch.t < N(s) && ch.Run? && CanRun(h, s, ch.t) {
      RunStepRefines(h, s, ch.t);
    }
  }

  lemma {:induction false} RunRefines(h: Heap, mem: Mem<Addr>, rounds: seq<nat>, sched: seq<Choice>)
    requires Fresh(h) && StartMem(h, mem)
    ensures Replay(Trace(h, Begin(mem, rounds), sched)) == Abstract(Exec(h, Start(mem, rounds), sched))
  {
    if sched == [] {
      assert Threads([]) == [];
    } else {
      var n := |sched| - 1;
      RunRefines(h, mem, rounds, sched[..n]);
      var s := Lift(h, mem, rounds, sched[..n]);
      StepRefines(h, s, sched[n], Trace(h, Begin(mem, rounds), sched[..n]));
    }
  }

  /** Every run is a run of the FIFO lock: entries come exactly in tail-exchange order. */
  lemma RefinesFifo(h: Heap, mem: Mem<Addr>, rounds: seq<nat>, sched: seq<Choice>)
    requires Fresh(h) && StartMem(h, mem)
    ensures var es := Trace(h, Begin(mem, rounds), sched);
      && Replay(es).Fifo?
      && Entries(es) <= Arrivals(es)
      && Exits(es) <= Entries(es)
      && |Entries(es)| <= |Exits(es)| + 1
  {
    RunRefines(h, mem, rounds, sched);
    var s := Lift(h, mem, rounds, sched);
    AcceptedIsFifo(Trace(h, Begin(mem, rounds), sched));
  }

  /** The chain of distinct nodes from the dummy to the tail, and where its locked part begins: everything
      above `head` is locked, everything below it is unlocked, and so is the node at `head` unless
      the store that unlocks it has not landed. The threads between exchange and unlock own the
      locked part, each spins on the node just below its own, and only the lowest of them can hold
      the lock. */
  ghost predicate Chain(h: Heap, c: TsoConf<Addr, Local>, nodes: seq<int>, head: nat) {
    && TsoWf(c) && head < |nodes|
    && (forall i, j :: 0 <= i < j < |nodes| ==> nodes[i] != nodes[j])
    && nodes[0] == h.dummy && Get(c.mem, Tail) == nodes[|nodes| - 1]
    && (forall k :: 0 <= k < |nodes| && k != head ==> Get(c.mem, Locked(nodes[k])) == if k < head then 0 else 1)
    && (Get(c.mem, Locked(nodes[head])) == 0 ||
          exists t, i :: 0 <= t < |c.buf| && 0 <= i < |c.buf[t]| && c.buf[t][i] == Write(Locked(nodes[head]), 0))
    && (forall t :: 0 <= t < |c.loc| && !Outside(c.loc[t].pc) ==> InChain(h, c, nodes, head, t))
    && (forall k :: head < k < |nodes| ==>
          exists t :: 0 <= t < |c.loc| && !Outside(c.loc[t].pc) && Mine(h, t, c.loc[t]) == nodes[k])
  }

  ghost predicate InChain(h: Heap, c: TsoConf<Addr, Local>, nodes: seq<int>, head: nat, t: nat)
    requires t < |c.loc|
  {
    exists k :: head < k < |nodes| && nodes[k] == Mine(h, t, c.loc[t])
      && (if c.loc[t].pc.Spin? then c.loc[t].pc.pred == nodes[k - 1] else k == head + 1)
  }

  lemma ThreadsInChain(h: Heap, s: State, nodes: seq<int>)
    requires Inv(h, s) && |nodes| == |s.visits| + 1
    requires forall k :: 0 <= k < |nodes| ==> nodes[k] == NodeAt(h, s, k)
    ensures forall t :: 0 <= t < |s.c.loc| && !Outside(s.c.loc[t].pc) ==> InChain(h, s.c, nodes, s.served, t)
    ensures forall k :: s.served < k < |nodes| ==>
      exists t :: 0 <= t < |s.c.loc| && !Outside(s.c.loc[t].pc) && Mine(h, t, s.c.loc[t]) == nodes[k]
  {
    forall t: nat | t < |s.c.loc| && !Outside(s.c.loc[t].pc) ensures InChain(h, s.c, nodes, s.served, t) {
      assert ThreadOk(h, s, t) && LocOf(s, t) == s.c.loc[t];
      assert nodes[s.ticket[t] + 1] == Mine(h, t, s.c.loc[t]) && nodes[s.ticket[t]] == NodeAt(h, s, s.ticket[t]);
    }
    forall k | s.served < k < |nodes|
      ensures exists t :: 0 <= t < |s.c.loc| && !Outside(s.c.loc[t].pc) && Mine(h, t, s.c.loc[t]) == nodes[k]
    {
      assert PlaceOk(h, s, k - 1);
      var t := s.visits[k - 1].t;
      assert LocOf(s, t) == s.c.loc[t] && Mine(h, t, s.c.loc[t]) == nodes[k];
    }
  }

  lemma LockedFromHead(h: Heap, s: State, k: nat)
    requires Inv(h, s) && k <= |s.visits| && k != s.served
    ensures LockedAt(h, s, k) == if k < s.served then 0 else 1
  {
    assert PlaceOk(h, s, k);
    if k > s.served { assert PlaceOk(h, s, k - 1); }
  }

  ghost predicate Distinct(visits: seq<Visit>) {
    forall i, j :: 0 <= i < j < |visits| ==> visits[i] != visits[j]
  }

  lemma StepKeepsDistinct(h: Heap, s: State, ch: Choice)
    requires Inv(h, s) && Distinct(s.visits)
    ensures Distinct(Step(h, s, ch).visits)
  {
    var t := ch.t;
    if t < N(s) && ch.Run? && s.c.loc[t].pc.Xchg? {
      forall i | 0 <= i < |s.visits| ensures s.visits[i] != Visit(t, s.c.loc[t].round) {
        assert PlaceOk(h, s, i);
      }
    }
  }

  /** No node is used for two acquisitions. */
  lemma {:induction false} VisitsDiffer(h: Heap, mem: Mem<Addr>, rounds: seq<nat>, sched: seq<Choice>)
    requires Fresh(h) && StartMem(h, mem)
    ensures Distinct(Exec(h, Start(mem, rounds), sched).visits)
  {
    if sched != [] {
      var n := |sched| - 1;
      VisitsDiffer(h, mem, rounds, sched[..n]);
      Reachable(h, mem, rounds, sched[..n]);
      StepKeepsDistinct(h, Exec(h, Start(mem, rounds), sched[..n]), sched[n]);
    }
  }

  lemma NodesDiffer(h: Heap, s: State, nodes: seq<int>)
    requires Fresh(h) && Distinct(s.visits) && |nodes| == |s.visits| + 1
    requires forall k :: 0 <= k < |nodes| ==> nodes[k] == NodeAt(h, s, k)
    ensures forall i, j :: 0 <= i < j < |nodes| ==> nodes[i] != nodes[j]
  {
    forall i, j | 0 <= i < j < |nodes| ensures nodes[i] != nodes[j] {
      var v := s.visits[j - 1];
      if i > 0 {
        var u := s.visits[i - 1];
        assert u != v && (h.node(u.t, u.round) == h.node(v.t, v.round) ==> u == v);
      }
    }
  }

  /** The node at the head, when it is still locked, has its unlocking store in the giver's buffer. */
  lemma GrantIsBuffered(h: Heap, s: State)
    requires Inv(h, s)
    ensures var a := Locked(NodeAt(h, s, s.served));
      Get(s.c.mem, a) == 0 || exists t, i :: 0 <= t < |s.c.buf| && 0 <= i < |s.c.buf[t]| && s.c.buf[t][i] == Write(a, 0)
  {
    assert PlaceOk(h, s, s.served) && GrantOk(h, s);
    if s.grant != NoGrant {
      assert s.c.buf[s.grant.giver][s.grant.at] == Write(Locked(NodeAt(h, s, s.served)), 0);
    }
  }

  lemma VisitsAreChain(h: Heap, s: State, nodes: seq<int>)
    requires Inv(h, s) && Distinct(s.visits) && |nodes| == |s.visits| + 1
    requires forall k :: 0 <= k < |nodes| ==> nodes[k] == NodeAt(h, s, k)
    ensures Chain(h, s.c, nodes, s.served)
  {
    forall k | 0 <= k < |nodes| && k != s.served
      ensures Get(s.c.mem, Locked(nodes[k])) == if k < s.served then 0 else 1
    {
      LockedFromHead(h, s, k);
    }
    GrantIsBuffered(h, s);
    ThreadsInChain(h, s, nodes);
    NodesDiffer(h, s, nodes);
    assert Get(s.c.mem, Tail) == nodes[|nodes| - 1] && nodes[0] == h.dummy;
  }

  lemma ChainShape(h: Heap, mem: Mem<Addr>, rounds: seq<nat>, sched: seq<Choice>)
    requires Fresh(h) && StartMem(h, mem)
    ensures exists nodes, head :: Chain(h, TsoExec(Prog(h), Begin(mem, rounds), sched), nodes, head)
  {
    var s := Lift(h, mem, rounds, sched);
    VisitsDiffer(h, mem, rounds, sched);
    var nodes := HistoryNodes(h, s);
    assert Chain(h, s.c, nodes, s.served);
  }

  lemma HistoryNodes(h: Heap, s: State) returns (nodes: seq<int>)
    requires Inv(h, s) && Distinct(s.visits)
    ensures Chain(h, s.c, nodes, s.served)
  {
    nodes := seq(|s.visits| + 1, k requires 0 <= k <= |s.visits| => NodeAt(h, s, k));
    VisitsAreChain(h, s, nodes);
  }
}
