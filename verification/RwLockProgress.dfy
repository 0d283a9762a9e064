/** The rw-lock's entry never wedges: every call returns, on TSO and with every schedule that is fair
    for long enough, and then the winner has won exactly the calls it should have. */
module RwLockProgress {
  import opened StoreBuffer
  import opened Machine
  import opened Inclusion
  import opened Progress
  import opened RwLock
  import opened RwLockOwner
  import opened RwLockFlag

  function Rank(pc: Pc): nat {
    match pc
    case Idle => 0
    case Test1 => 30
    case Load1 => 29
    case Store1(_) => 28
    case Exit1(_) => 27
    case SetEnter => 26
    case SetWriter => 25
    case SetRecursive => 24
    case SetExit => 23
    case ReadRecursive => 22
    case ReadWriter => 21
    case Enter2 => 20
    case Test2 => 19
    case Load2 => 18
    case Store2(_) => 17
    case Exit2(_) => 16
    case IsZero => 15
    case IsMinusHalf => 14
    case SubLoad => 13
    case DecLoad => 13
    case SubStore(_) => 12
    case DecStore(_) => 12
  }

  const Weight: (Local, Buf<Addr>) -> nat := (l: Local, b: Buf<Addr>) => 2 * (31 * |l.calls| + Rank(l.pc)) + |b|

  lemma OpDescends(t: nat, l: Local, m: Mem<Addr>, b: Buf<Addr>)
    requires Enabled(b, OpOf(t, l))
    ensures var e := Issue(m, b, OpOf(t, l)); var l' := AfterOp(t, l, e.val);
      (l' == l && e.buf == b && e.mem == m) || Weight(l', e.buf) < Weight(l, b)
  {}

  lemma EntryDescends()
    ensures Descends(Prog(), Weight)
  {
    forall t: nat, l: Local, m: Mem<Addr>, b: Buf<Addr> | Enabled(b, Prog().op(t, l))
      ensures RunDescends(Prog(), Weight, t, l, m, b)
    {
      OpDescends(t, l, m, b);
    }
  }

  lemma RunMoves(c: TsoConf<Addr, Local>, t: nat)
    requires TsoWf(c) && t < |c.loc| && Enabled(c.buf[t], OpOf(t, c.loc[t]))
    requires AfterOp(t, c.loc[t], Issue(c.mem, c.buf[t], OpOf(t, c.loc[t])).val) != c.loc[t]
    ensures Moves(Prog(), c, Run(t))
  {
    assert TsoStep(Prog(), c, Run(t)).loc[t] != c.loc[t];
  }

  /** With all buffers empty a thread moves, or whoever keeps it out of the mutex does. */
  lemma SomeoneMoves(w0: int, s: State, c: TsoConf<Addr, Local>, t: nat) returns (ch: Choice)
    requires Inv(w0, s) && Sim(c, s.c) && t < |c.loc| && !OpOf(t, c.loc[t]).Halt?
    requires forall u :: 0 <= u < |c.buf| ==> c.buf[u] == []
    ensures Moves(Prog(), c, ch)
  {
    ch := Run(t);
    assert ThreadOk(w0, s, t) && LocOf(s, t) == c.loc[t];
    if OpOf(t, c.loc[t]).Cas? && Get(c.mem, Mutex) != 0 {
      ch := Run(s.inside);
      assert ThreadOk(w0, s, s.inside) && InMutex(LocOf(s, s.inside).pc);
      RunMoves(c, s.inside);
    } else {
      RunMoves(c, t);
    }
  }

  lemma EntryIsLive(w0: int, calls: seq<seq<int>>)
    requires StartWord(w0)
    ensures Live(Prog(), TsoInit(Begin(w0, calls)))
  {
    var p, c0 := Prog(), Begin(w0, calls);
    forall sched ensures
      var c := TsoExec(p, TsoInit(c0), sched);
      Stopped(p, c) || exists ch :: Moves(p, c, ch)
    {
      var c := TsoExec(p, TsoInit(c0), sched);
      if !Stopped(p, c) {
        var t: nat :| t < |c.loc| && !(p.op(t, c.loc[t]).Halt? && c.buf[t] == []);
        if u: nat :| u < |c.buf| && c.buf[u] != [] {
          assert TsoStep(p, c, Drain(u)).buf[u] != c.buf[u];
          assert Moves(p, c, Drain(u));
        } else {
          RunTogether(p, c0, sched);
          var s := RwLockOwner.Reachable(w0, calls, PSchedule(p, TsoInit(c0), sched));
          var ch := SomeoneMoves(w0, s, c, t);
        }
      }
    }
  }

  predicate Finished(c: TsoConf<Addr, Local>)
    requires TsoWf(c)
  {
    forall t :: 0 <= t < |c.loc| ==> c.loc[t].pc.Idle? && c.loc[t].calls == [] && c.buf[t] == []
  }

  lemma StoppedIsFinished(w0: int, calls: seq<seq<int>>, sched: seq<Choice>)
    requires StartWord(w0) && Stopped(Prog(), TsoExec(Prog(), TsoInit(Begin(w0, calls)), sched))
    ensures Finished(TsoExec(Prog(), TsoInit(Begin(w0, calls)), sched))
  {
    var c := TsoExec(Prog(), TsoInit(Begin(w0, calls)), sched);
    forall t | 0 <= t < |c.loc| ensures c.loc[t].pc.Idle? && c.loc[t].calls == [] && c.buf[t] == [] {
      assert Prog().op(t, c.loc[t]) == OpOf(t, c.loc[t]);
    }
  }

  function Counts(calls: seq<seq<int>>): seq<nat> {
    seq(|calls|, t requires 0 <= t < |calls| => |calls[t]|)
  }

  /** After more than 62 fair stretches a call all calls have returned and all stores landed. */
  lemma NeverWedges(w0: int, calls: seq<seq<int>>, blocks: seq<seq<Choice>>)
    requires StartWord(w0)
    requires forall b :: b in blocks ==> Fair(|calls|, b)
    requires |blocks| > 62 * Sum(Counts(calls))
    ensures Finished(TsoExec(Prog(), TsoInit(Begin(w0, calls)), Flatten(blocks)))
  {
    var c0 := TsoInit(Begin(w0, calls));
    EntryDescends();
    EntryIsLive(w0, calls);
    FairRunsStop(Prog(), Weight, c0, blocks);
    StartMeasure(Weight, c0.loc, c0.buf, Counts(calls), 62);
    StoppedIsFinished(w0, calls, Flatten(blocks));
  }

  predicate WonItsCalls(w0: int, passes: seq<int>, l: Local, word: int) {
    l.won > 0 ==> passes != [] && l.won == Wins(passes, |passes|) && word == WordAt(w0, l.won)
  }

  lemma PsoOutcome(w0: int, calls: seq<seq<int>>, ps: seq<PChoice<Addr>>, t: nat)
    requires StartWord(w0) && t < |calls|
    ensures var d := PsoExec(Prog(), PsoInit(Begin(w0, calls)), ps);
      d.loc[t].pc.Idle? && d.loc[t].calls == [] && d.buf[t] == [] ==>
        WonItsCalls(w0, calls[t], d.loc[t], Get(d.mem, Word))
  {
    WinsExactly(w0, calls, ps, t);
    DecrementsCount(w0, calls, ps, t);
  }

  lemma BothDrained(c: TsoConf<Addr, Local>, d: PsoConf<Addr, Local>, t: nat)
    requires Sim(c, d) && t < |c.loc| && c.buf[t] == []
    ensures d.buf[t] == [] && d.loc[t] == c.loc[t] && d.mem == c.mem
  {
    EmptyTogether(d.buf[t]);
  }

  /** And then whoever has won anything has won exactly the calls it should have, and memory holds the
      word for that many decrements. */
  lemma Outcome(w0: int, calls: seq<seq<int>>, sched: seq<Choice>, t: nat)
    requires StartWord(w0) && t < |calls| && Finished(TsoExec(Prog(), TsoInit(Begin(w0, calls)), sched))
    ensures var c := TsoExec(Prog(), TsoInit(Begin(w0, calls)), sched);
      WonItsCalls(w0, calls[t], c.loc[t], Get(c.mem, Word))
  {
    var p, c0 := Prog(), Begin(w0, calls);
    var ps := PSchedule(p, TsoInit(c0), sched);
    RunTogether(p, c0, sched);
    BothDrained(TsoExec(p, TsoInit(c0), sched), PsoExec(p, PsoInit(c0), ps), t);
    PsoOutcome(w0, calls, ps, t);
  }
}
