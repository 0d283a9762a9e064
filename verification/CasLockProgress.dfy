/** Every thread takes the compare-and-swap lock as often as it is to: a failed try is tried again. */
module CasLockProgress {
  import opened StoreBuffer
  import opened Machine
  import opened Progress
  import opened CasLock

  /** The value that marks the lock as taken. */
  predicate IsMark(k: Lock, v: int) { if k.section.Counter? then v == 0xff else v == 1 }

  predicate WordsOk(k: Lock, c: TsoConf<Addr, Local>) {
    && (Get(c.mem, Word) == 0 || IsMark(k, Get(c.mem, Word)))
    && (forall t :: 0 <= t < |c.buf| ==>
          forall i :: 0 <= i < |c.buf[t]| && c.buf[t][i].addr == Word ==> c.buf[t][i].val == 0)
  }

  lemma {:induction false} WordsHold(k: Lock, rounds: seq<nat>, sched: seq<Choice>)
    ensures WordsOk(k, TsoExec(Prog(k), TsoInit(Begin(rounds)), sched))
  {
    if sched != [] {
      var n := |sched| - 1;
      WordsHold(k, rounds, sched[..n]);
      var c, t := TsoExec(Prog(k), TsoInit(Begin(rounds)), sched[..n]), sched[n].t;
      if t < |c.loc| { assert Prog(k).op(t, c.loc[t]) == OpOf(k, c.loc[t]); }
    }
  }

  /** While someone is inside the word shows the mark, and it never shows anything else but zero. */
  lemma WordShows(k: Lock, rounds: seq<nat>, sched: seq<Choice>)
    ensures var c := TsoExec(Prog(k), TsoInit(Begin(rounds)), sched);
      && (Get(c.mem, Word) == 0 || IsMark(k, Get(c.mem, Word)))
      && (forall t :: 0 <= t < |c.loc| && Inside(c.loc[t].pc) ==> IsMark(k, Get(c.mem, Word)))
  {
    WordsHold(k, rounds, sched);
    var o := TsoReachable(k, rounds, sched);
  }

  function Rank(pc: Pc): nat {
    match pc
    case Acquire => 0
    case IncLoad => 7
    case IncStore(_) => 6
    case Check => 5
    case DecLoad => 4
    case DecStore(_) => 3
    case TestZero => 6
    case SetOne => 5
    case SetZero => 4
    case Barrier => 2
    case Free => 1
    case Failed => 0
  }

  const Weight: (Local, Buf<Addr>) -> nat := (l: Local, b: Buf<Addr>) => 2 * (8 * l.todo + Rank(l.pc)) + |b|

  lemma OpDescends(k: Lock, l: Local, m: Mem<Addr>, b: Buf<Addr>)
    requires Enabled(b, OpOf(k, l))
    ensures var e := Issue(m, b, OpOf(k, l)); var l' := AfterOp(k, l, e.val);
      (l' == l && e.buf == b && e.mem == m) || Weight(l', e.buf) < Weight(l, b)
  {}

  lemma LockDescends(k: Lock)
    ensures Descends(Prog(k), Weight)
  {
    forall t: nat, l: Local, m: Mem<Addr>, b: Buf<Addr> | Enabled(b, Prog(k).op(t, l))
      ensures RunDescends(Prog(k), Weight, t, l, m, b)
    {
      OpDescends(k, l, m, b);
    }
  }

  lemma RunMoves(k: Lock, c: TsoConf<Addr, Local>, t: nat)
    requires TsoWf(c) && t < |c.loc| && Enabled(c.buf[t], OpOf(k, c.loc[t]))
    requires AfterOp(k, c.loc[t], Issue(c.mem, c.buf[t], OpOf(k, c.loc[t])).val) != c.loc[t]
    ensures Moves(Prog(k), c, Run(t))
  {
    assert TsoStep(Prog(k), c, Run(t)).loc[t] != c.loc[t];
  }

  /** With all buffers empty the holder moves, or the lock is free and the next try succeeds. */
  lemma SomeoneMoves(k: Lock, c: TsoConf<Addr, Local>, o: int, t: nat) returns (ch: Choice)
    requires TsoInv(c, o) && t < |c.loc| && !OpOf(k, c.loc[t]).Halt?
    requires forall u :: 0 <= u < |c.buf| ==> c.buf[u] == []
    ensures Moves(Prog(k), c, ch)
  {
    if o == NOBODY {
      ch := Run(t);
      RunMoves(k, c, t);
    } else {
      ch := Run(o);
      assert BusyOk(c, o) && Inside(c.loc[o].pc);
      RunMoves(k, c, o);
    }
  }

  lemma LockIsLive(k: Lock, rounds: seq<nat>)
    ensures Live(Prog(k), TsoInit(Begin(rounds)))
  {
    var p, c0 := Prog(k), TsoInit(Begin(rounds));
    forall sched ensures
      var c := TsoExec(p, c0, sched);
      Stopped(p, c) || exists ch :: Moves(p, c, ch)
    {
      var c := TsoExec(p, c0, sched);
      if !Stopped(p, c) {
        var t: nat :| t < |c.loc| && !(p.op(t, c.loc[t]).Halt? && c.buf[t] == []);
        if u: nat :| u < |c.buf| && c.buf[u] != [] {
          assert TsoStep(p, c, Drain(u)).buf[u] != c.buf[u];
          assert Moves(p, c, Drain(u));
        } else {
          var o := TsoReachable(k, rounds, sched);
          var ch := SomeoneMoves(k, c, o, t);
        }
      }
    }
  }

  /** After more than 16 fair stretches a round every thread has taken the lock as often as it was to,
      and the lock is free. */
  lemma NeverWedges(k: Lock, rounds: seq<nat>, blocks: seq<seq<Choice>>)
    requires forall b :: b in blocks ==> Fair(|rounds|, b)
    requires |blocks| > 16 * Sum(rounds)
    ensures var c := TsoExec(Prog(k), TsoInit(Begin(rounds)), Flatten(blocks));
      && |c.loc| == |rounds| && Get(c.mem, Word) == 0 && Get(c.mem, Shared) == 0
      && (forall t :: 0 <= t < |rounds| ==>
            c.loc[t] == Local(Acquire, 0) && TsoTakes(k, rounds, Flatten(blocks), t) == rounds[t])
  {
    var p, c0, sched := Prog(k), TsoInit(Begin(rounds)), Flatten(blocks);
    LockDescends(k);
    LockIsLive(k, rounds);
    FairRunsStop(p, Weight, c0, blocks);
    StartMeasure(Weight, c0.loc, c0.buf, rounds, 16);
    var c := TsoExec(p, c0, sched);
    var o := TsoReachable(k, rounds, sched);
    TsoSafe(k, rounds, sched);
    StoppedIsFree(k, c, o);
    forall t | 0 <= t < |rounds| ensures TsoTakes(k, rounds, sched, t) == rounds[t] {
      TsoTakesAll(k, rounds, sched, t);
    }
  }

  lemma StoppedIsFree(k: Lock, c: TsoConf<Addr, Local>, o: int)
    requires TsoInv(c, o) && Safe(c.loc) && Stopped(Prog(k), c)
    ensures Get(c.mem, Word) == 0 && Get(c.mem, Shared) == 0
    ensures forall t :: 0 <= t < |c.loc| ==> c.loc[t] == Local(Acquire, 0)
  {
    forall t | 0 <= t < |c.loc| ensures c.loc[t] == Local(Acquire, 0) && c.buf[t] == [] {
      assert Prog(k).op(t, c.loc[t]) == OpOf(k, c.loc[t]);
    }
  }
}
