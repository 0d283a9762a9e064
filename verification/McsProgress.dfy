/** The MCS lock never wedges: every choice that does anything uses up part of a fixed budget, and
    until all rounds are over and all buffers empty some choice does something. Hence every fair
    schedule finishes. */
module McsProgress {
  import opened StoreBuffer
  import opened Machine
  import opened Progress
  import opened FifoLock
  import opened Mcs
  import opened McsInvariant
  import opened McsSteps
  import opened McsTheorems

  function Rank(pc: Pc): nat {
    match pc
    case Idle => 0
    case Init => 16
    case Xchg => 15
    case Link(_) => 14
    case Spin(_) => 13
    case IncLoad => 12
    case IncStore(_) => 11
    case Check => 10
    case DecLoad => 9
    case DecStore(_) => 8
    case ReadNext => 7
    case CasTail => 6
    case AwaitNext => 5
    case Barrier => 4
    case ReadSucc => 3
    case HandOff(_) => 2
    case Failed => 1
  }

  const Weight: (Local, Buf<Addr>) -> nat := (l: Local, b: Buf<Addr>) => 2 * (17 * l.todo + Rank(l.pc)) + |b|

  lemma OpDescends(style: Style, t: nat, l: Local, m: Mem<Addr>, b: Buf<Addr>)
    requires Enabled(b, OpOf(style, t, l))
    ensures var e := Issue(m, b, OpOf(style, t, l)); var l' := AfterOp(style, t, l, e.val);
      (l' == l && e.buf == b && e.mem == m) || Weight(l', e.buf) < Weight(l, b)
  {}

  /** Every operation and every landing store is paid for. */
  lemma McsDescends(style: Style)
    ensures Descends(Prog(style), Weight)
  {
    forall t: nat, l: Local, m: Mem<Addr>, b: Buf<Addr> | Enabled(b, Prog(style).op(t, l))
      ensures RunDescends(Prog(style), Weight, t, l, m, b)
    {
      OpDescends(style, t, l, m, b);
    }
  }

  predicate Finished(c: TsoConf<Addr, Local>)
    requires TsoWf(c)
  {
    forall t :: 0 <= t < |c.loc| ==> c.loc[t] == Local(Idle, 0) && c.buf[t] == []
  }

  /** A thread that is not spinning on what it reads can move. */
  lemma RunMoves(style: Style, c: TsoConf<Addr, Local>, t: nat)
    requires TsoWf(c) && t < |c.loc| && Enabled(c.buf[t], OpOf(style, t, c.loc[t]))
    requires AfterOp(style, t, c.loc[t], Issue(c.mem, c.buf[t], OpOf(style, t, c.loc[t])).val) != c.loc[t]
    ensures Moves(Prog(style), c, Run(t))
  {
    assert TsoStep(Prog(style), c, Run(t)).loc[t] != c.loc[t];
  }

  /** With all buffers empty, the holder moves, or its successor does, or the head waiter does. */
  lemma QueueMoves(style: Style, s: State) returns (ch: Choice)
    requires Inv(style, s) && s.served < |s.arrivals|
    requires forall t :: 0 <= t < N(s) ==> BufOf(s, t) == []
    ensures Moves(Prog(style), s.c, ch)
  {
    assert PlaceOk(s, s.served);
    var h := s.arrivals[s.served];
    ch := Run(h);
    assert ThreadOk(style, s, h);
    if PcOf(s, h).AwaitNext? && Get(s.c.mem, Next(h)) == NULL {
      assert PlaceOk(s, s.served + 1);
      var w := s.arrivals[s.served + 1];
      assert ThreadOk(style, s, w);
      ch := Run(w);
      RunMoves(style, s.c, w);
    } else {
      RunMoves(style, s.c, h);
    }
  }

  lemma SomeoneMoves(style: Style, s: State) returns (ch: Choice)
    requires Inv(style, s) && !Finished(s.c)
    ensures Moves(Prog(style), s.c, ch)
  {
    if t: nat :| t < N(s) && BufOf(s, t) != [] {
      ch := Drain(t);
      assert TsoStep(Prog(style), s.c, ch).buf[t] != s.c.buf[t];
    } else if s.served < |s.arrivals| {
      ch := QueueMoves(style, s);
    } else {
      var t: nat :| t < N(s) && !(s.c.loc[t] == Local(Idle, 0) && s.c.buf[t] == []);
      ch := Run(t);
      assert BufOf(s, t) == [] && ThreadOk(style, s, t);
      RunMoves(style, s.c, t);
    }
  }

  lemma McsIsLive(style: Style, mem: Mem<Addr>, rounds: seq<nat>)
    requires StartMem(mem)
    ensures Live(Prog(style), Begin(mem, rounds))
  {
    forall sched ensures
      var c := TsoExec(Prog(style), Begin(mem, rounds), sched);
      Stopped(Prog(style), c) || exists ch :: Moves(Prog(style), c, ch)
    {
      var s := Lift(style, mem, rounds, sched);
      if !Finished(s.c) {
        var ch := SomeoneMoves(style, s);
      }
    }
  }

  lemma StoppedIsFinished(style: Style, s: State)
    requires Inv(style, s) && Stopped(Prog(style), s.c)
    ensures Finished(s.c)
  {
    forall t | 0 <= t < N(s) ensures s.c.loc[t] == Local(Idle, 0) && s.c.buf[t] == [] {
      assert ThreadOk(style, s, t);
      assert Prog(style).op(t, s.c.loc[t]) == OpOf(style, t, s.c.loc[t]);
    }
  }

  /** Rounds left over, the one in progress and the exits in the trace are the rounds asked for. */
  predicate Counted(l: Local, exits: nat, rounds: nat) {
    l.todo + (if l.pc.Idle? then 0 else 1) + exits == rounds
  }

  lemma StepCounted(style: Style, c: TsoConf<Addr, Local>, ch: Choice, t: nat)
    requires TsoWf(c) && t < |c.loc|
    ensures var l, l' := c.loc[t], TsoStep(Prog(style), c, ch).loc[t];
      l'.todo + (if l'.pc.Idle? then 0 else 1) + Leaves(Observe(style, c, ch), t)
      == l.todo + if l.pc.Idle? then 0 else 1
  {
    LeavesOfOne(Arrive(ch.t), t);
    LeavesOfOne(Enter(ch.t), t);
    LeavesOfOne(Leave(ch.t), t);
    LeavesOfTwo(Arrive(ch.t), Enter(ch.t), t);
    if ch.t < |c.loc| { assert Prog(style).op(ch.t, c.loc[ch.t]) == OpOf(style, ch.t, c.loc[ch.t]); }
  }

  lemma {:induction false} ExitsCounted(style: Style, mem: Mem<Addr>, rounds: seq<nat>, sched: seq<Choice>, t: nat)
    requires t < |rounds|
    ensures var c := TsoExec(Prog(style), Begin(mem, rounds), sched);
      |c.loc| == |rounds| && Counted(c.loc[t], Leaves(Trace(style, Begin(mem, rounds), sched), t), rounds[t])
  {
    if sched != [] {
      var n := |sched| - 1;
      ExitsCounted(style, mem, rounds, sched[..n], t);
      var c, es := TsoExec(Prog(style), Begin(mem, rounds), sched[..n]), Trace(style, Begin(mem, rounds), sched[..n]);
      StepCounted(style, c, sched[n], t);
      LeavesAppend(es, Observe(style, c, sched[n]), t);
    }
  }

  /** Every schedule of enough fair stretches, 34 a round, ends with all calls returned and all
      stores landed, and every thread has left the lock as often as it was to. */
  lemma NeverWedges(style: Style, mem: Mem<Addr>, rounds: seq<nat>, blocks: seq<seq<Choice>>)
    requires StartMem(mem)
    requires forall b :: b in blocks ==> Fair(|rounds|, b)
    requires |blocks| > 34 * Sum(rounds)
    ensures Finished(TsoExec(Prog(style), Begin(mem, rounds), Flatten(blocks)))
    ensures forall t :: 0 <= t < |rounds| ==> Leaves(Trace(style, Begin(mem, rounds), Flatten(blocks)), t) == rounds[t]
  {
    var c0 := Begin(mem, rounds);
    McsDescends(style);
    McsIsLive(style, mem, rounds);
    FairRunsStop(Prog(style), Weight, c0, blocks);
    StartMeasure(Weight, c0.loc, c0.buf, rounds, 34);
    var s := Lift(style, mem, rounds, Flatten(blocks));
    StoppedIsFinished(style, s);
    forall t | 0 <= t < |rounds| ensures Leaves(Trace(style, c0, Flatten(blocks)), t) == rounds[t] {
      ExitsCounted(style, mem, rounds, Flatten(blocks), t);
    }
  }
}
