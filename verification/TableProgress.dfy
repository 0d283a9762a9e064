/** Double-checked creation never wedges: every call returns. */
module TableProgress {
  import opened StoreBuffer
  import opened Machine
  import opened Progress
  import opened TableCreation

  function Rank(pc: Pc): nat {
    match pc
    case Idle => 0
    case Enter => 20 + 2 * SIZE + 4
    case Recheck => 20 + 2 * SIZE + 3
    case Fill(i) => 20 + if i < 2 * SIZE then 2 * SIZE - i else 0
    case Publish => 19
    case Exit => 18
    case Return => 17
    case Look(_, i) => 1 + if i < SIZE then SIZE - i else 0
    case Failed => 0
  }

  const Weight: (Local, Buf<Addr>) -> nat := (l: Local, b: Buf<Addr>) => 2 * (50 * l.todo + Rank(l.pc)) + |b|

  lemma OpDescends(heap: Heap, t: nat, l: Local, m: Mem<Addr>, b: Buf<Addr>)
    requires Enabled(b, OpOf(heap, t, l))
    ensures var e := Issue(m, b, OpOf(heap, t, l)); var l' := AfterOp(l, e.val);
      (l' == l && e.buf == b && e.mem == m) || Weight(l', e.buf) < Weight(l, b)
  {}

  lemma CreationDescends(heap: Heap)
    ensures Descends(Prog(heap), Weight)
  {
    forall t: nat, l: Local, m: Mem<Addr>, b: Buf<Addr> | Enabled(b, Prog(heap).op(t, l))
      ensures RunDescends(Prog(heap), Weight, t, l, m, b)
    {
      OpDescends(heap, t, l, m, b);
    }
  }

  lemma RunMoves(heap: Heap, c: TsoConf<Addr, Local>, t: nat)
    requires TsoWf(c) && t < |c.loc| && Enabled(c.buf[t], OpOf(heap, t, c.loc[t]))
    requires AfterOp(c.loc[t], Issue(c.mem, c.buf[t], OpOf(heap, t, c.loc[t])).val) != c.loc[t]
    ensures Moves(Prog(heap), c, Run(t))
  {
    assert TsoStep(Prog(heap), c, Run(t)).loc[t] != c.loc[t];
  }

  /** With all buffers empty a thread moves, or whoever keeps it out of the mutex does. */
  lemma SomeoneMoves(heap: Heap, s: State, t: nat) returns (ch: Choice)
    requires Inv(heap, s) && IsThread(s, t) && !OpOf(heap, t, s.c.loc[t]).Halt?
    requires forall u :: 0 <= u < |s.c.buf| ==> s.c.buf[u] == []
    ensures Moves(Prog(heap), s.c, ch)
  {
    ch := Run(t);
    assert ThreadOk(s, t) && LocOf(s, t) == s.c.loc[t];
    if s.c.loc[t].pc.Enter? && Get(s.c.mem, Mutex) != 0 {
      ch := Run(s.inside);
      assert ThreadOk(s, s.inside) && InMutex(LocOf(s, s.inside).pc);
      RunMoves(heap, s.c, s.inside);
    } else {
      RunMoves(heap, s.c, t);
    }
  }

  lemma CreationIsLive(heap: Heap, mem: Mem<Addr>, calls: seq<nat>)
    requires NeverNull(heap) && StartMem(mem)
    ensures Live(Prog(heap), TsoInit(Begin(mem, calls)))
  {
    var p, c0 := Prog(heap), TsoInit(Begin(mem, calls));
    forall sched ensures
      var c := TsoExec(p, c0, sched);
      Stopped(p, c) || exists ch :: Moves(p, c, ch)
    {
      var c := TsoExec(p, c0, sched);
      if !Stopped(p, c) {
        var t: nat :| t < |c.loc| && !(p.op(t, c.loc[t]).Halt? && c.buf[t] == []);
        if u: nat :| u < |c.buf| && c.buf[u] != [] {
          assert TsoStep(p, c, Drain(u)).buf[u] != c.buf[u];
          assert Moves(p, c, Drain(u));
        } else {
          var s := TableCreation.Reachable(heap, mem, calls, sched);
          var ch := SomeoneMoves(heap, s, t);
        }
      }
    }
  }

  /** After more than 100 fair stretches a call every call has returned, once. */
  lemma NeverWedges(heap: Heap, mem: Mem<Addr>, calls: seq<nat>, blocks: seq<seq<Choice>>)
    requires NeverNull(heap) && StartMem(mem)
    requires forall b :: b in blocks ==> Fair(|calls|, b)
    requires |blocks| > 100 * Sum(calls)
    ensures var c := TsoExec(Prog(heap), TsoInit(Begin(mem, calls)), Flatten(blocks));
      |c.loc| == |calls| && forall t :: 0 <= t < |calls| ==> c.loc[t].pc.Idle? && |c.loc[t].results| == calls[t]
  {
    var p, c0 := Prog(heap), TsoInit(Begin(mem, calls));
    CreationDescends(heap);
    CreationIsLive(heap, mem, calls);
    FairRunsStop(p, Weight, c0, blocks);
    StartMeasure(Weight, c0.loc, c0.buf, calls, 100);
    CreatedOnce(heap, mem, calls, Flatten(blocks));
    var c := TsoExec(p, c0, Flatten(blocks));
    forall t | 0 <= t < |calls| ensures c.loc[t].pc.Idle? && c.loc[t].todo == 0 {
      assert p.op(t, c.loc[t]) == OpOf(heap, t, c.loc[t]);
    }
  }
}
