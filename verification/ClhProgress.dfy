/** The CLH lock never wedges either. */
module ClhProgress {
  import opened StoreBuffer
  import opened Machine
  import opened Progress
  import opened FifoLock
  import opened Clh
  import opened ClhInvariant
  import opened ClhSteps
  import opened ClhTheorems

  function Rank(pc: Pc): nat {
    match pc
    case Idle => 0
    case Xchg => 8
    case Spin(_) => 7
    case IncLoad => 6
    case IncStore(_) => 5
    case Check => 4
    case DecLoad => 3
    case DecStore(_) => 2
    case Unlock => 1
    case Failed => 0
  }

  const Weight: (Local, Buf<Addr>) -> nat := (l: Local, b: Buf<Addr>) => 2 * (9 * l.todo + Rank(l.pc)) + |b|

  lemma OpDescends(h: Heap, t: nat, l: Local, m: Mem<Addr>, b: Buf<Addr>)
    requires Enabled(b, OpOf(h, t, l))
    ensures var e := Issue(m, b, OpOf(h, t, l)); var l' := AfterOp(l, e.val);
      (l' == l && e.buf == b && e.mem == m) || Weight(l', e.buf) < Weight(l, b)
  {}

  /** Every operation and every landing store is paid for. */
  lemma ClhDescends(h: Heap)
    ensures Descends(Prog(h), Weight)
  {
    forall t: nat, l: Local, m: Mem<Addr>, b: Buf<Addr> | Enabled(b, Prog(h).op(t, l))
      ensures RunDescends(Prog(h), Weight, t, l, m, b)
    {
      OpDescends(h, t, l, m, b);
    }
  }

  predicate Finished(c: TsoConf<Addr, Local>)
    requires TsoWf(c)
  {
    forall t :: 0 <= t < |c.loc| ==> c.loc[t].pc.Idle? && c.loc[t].todo == 0 && c.buf[t] == []
  }

  lemma RunMoves(h: Heap, c: TsoConf<Addr, Local>, t: nat)
    requires TsoWf(c) && t < |c.loc| && Enabled(c.buf[t], OpOf(h, t, c.loc[t]))
    requires AfterOp(c.loc[t], Issue(c.mem, c.buf[t], OpOf(h, t, c.loc[t])).val) != c.loc[t]
    ensures Moves(Prog(h), c, Run(t))
  {
    assert TsoStep(Prog(h), c, Run(t)).loc[t] != c.loc[t];
  }

  /** With all buffers empty the thread at the head of the chain moves: no grant is in flight, so
      the node it waits on is unlocked. */
  lemma HeadMoves(h: Heap, s: State) returns (ch: Choice)
    requires Inv(h, s) && s.served < |s.visits|
    requires forall t :: 0 <= t < N(s) ==> BufOf(s, t) == []
    ensures Moves(Prog(h), s.c, ch)
  {
    assert PlaceOk(h, s, s.served);
    var t := s.visits[s.served].t;
    ch := Run(t);
    assert ThreadOk(h, s, t) && BufOf(s, t) == s.c.buf[t] && LocOf(s, t) == s.c.loc[t];
    assert s.grant == NoGrant;
    RunMoves(h, s.c, t);
  }

  lemma SomeoneMoves(h: Heap, s: State) returns (ch: Choice)
    requires Inv(h, s) && !Finished(s.c)
    ensures Moves(Prog(h), s.c, ch)
  {
    if t: nat :| t < N(s) && BufOf(s, t) != [] {
      ch := Drain(t);
      assert TsoStep(Prog(h), s.c, ch).buf[t] != s.c.buf[t];
    } else if s.served < |s.visits| {
      ch := HeadMoves(h, s);
    } else {
      var t: nat :| t < N(s) && !(s.c.loc[t].pc.Idle? && s.c.loc[t].todo == 0 && s.c.buf[t] == []);
      ch := Run(t);
      assert BufOf(s, t) == [] && ThreadOk(h, s, t) && LocOf(s, t) == s.c.loc[t];
      RunMoves(h, s.c, t);
    }
  }

  lemma ClhIsLive(h: Heap, mem: Mem<Addr>, rounds: seq<nat>)
    requires Fresh(h) && StartMem(h, mem)
    ensures Live(Prog(h), Begin(mem, rounds))
  {
    forall sched ensures
      var c := TsoExec(Prog(h), Begin(mem, rounds), sched);
      Stopped(Prog(h), c) || exists ch :: Moves(Prog(h), c, ch)
    {
      var s := Lift(h, mem, rounds, sched);
      if !Finished(s.c) {
        var ch := SomeoneMoves(h, s);
      }
    }
  }

  lemma StoppedIsFinished(h: Heap, s: State)
    requires Inv(h, s) && Stopped(Prog(h), s.c)
    ensures Finished(s.c)
  {
    forall t | 0 <= t < N(s) ensures s.c.loc[t].pc.Idle? && s.c.loc[t].todo == 0 && s.c.buf[t] == [] {
      assert ThreadOk(h, s, t) && LocOf(s, t) == s.c.loc[t];
      assert Prog(h).op(t, s.c.loc[t]) == OpOf(h, t, s.c.loc[t]);
    }
  }

  lemma StepCounted(h: Heap, c: TsoConf<Addr, Local>, ch: Choice, t: nat)
    requires TsoWf(c) && t < |c.loc|
    ensures var l, l' := c.loc[t], TsoStep(Prog(h), c, ch).loc[t];
      l'.todo + (if l'.pc.Idle? then 0 else 1) + Leaves(Observe(h, c, ch), t) == l.todo + if l.pc.Idle? then 0 else 1
  {
    LeavesOfOne(Arrive(ch.t), t);
    LeavesOfOne(Enter(ch.t), t);
    LeavesOfOne(Leave(ch.t), t);
    if ch.t < |c.loc| { assert Prog(h).op(ch.t, c.loc[ch.t]) == OpOf(h, ch.t, c.loc[ch.t]); }
  }

  /** Acquisitions left over, the one in progress and the exits in the trace are those asked for. */
  lemma {:induction false} ExitsCounted(h: Heap, mem: Mem<Addr>, rounds: seq<nat>, sched: seq<Choice>, t: nat)
    requires t < |rounds|
    ensures var c := TsoExec(Prog(h), Begin(mem, rounds), sched);
      && |c.loc| == |rounds|
      && c.loc[t].todo + (if c.loc[t].pc.Idle? then 0 else 1) + Leaves(Trace(h, Begin(mem, rounds), sched), t)
         == rounds[t]
  {
    if sched != [] {
      var n := |sched| - 1;
      ExitsCounted(h, mem, rounds, sched[..n], t);
      var c, es := TsoExec(Prog(h), Begin(mem, rounds), sched[..n]), Trace(h, Begin(mem, rounds), sched[..n]);
      StepCounted(h, c, sched[n], t);
      LeavesAppend(es, Observe(h, c, sched[n]), t);
    }
  }

  /** Every schedule of enough fair stretches, 18 an acquisition, ends with all of them over and all
      stores landed, and every thread has left the lock as often as it was to. */
  lemma NeverWedges(h: Heap, mem: Mem<Addr>, rounds: seq<nat>, blocks: seq<seq<Choice>>)
    requires Fresh(h) && StartMem(h, mem)
    requires forall b :: b in blocks ==> Fair(|rounds|, b)
    requires |blocks| > 18 * Sum(rounds)
    ensures Finished(TsoExec(Prog(h), Begin(mem, rounds), Flatten(blocks)))
    ensures forall t :: 0 <= t < |rounds| ==> Leaves(Trace(h, Begin(mem, rounds), Flatten(blocks)), t) == rounds[t]
  {
    var c0 := Begin(mem, rounds);
    ClhDescends(h);
    ClhIsLive(h, mem, rounds);
    FairRunsStop(Prog(h), Weight, c0, blocks);
    StartMeasure(Weight, c0.loc, c0.buf, rounds, 18);
    var s := Lift(h, mem, rounds, Flatten(blocks));
    StoppedIsFinished(h, s);
    forall t | 0 <= t < |rounds| ensures Leaves(Trace(h, c0, Flatten(blocks)), t) == rounds[t] {
      ExitsCounted(h, mem, rounds, Flatten(blocks), t);
    }
  }
}
