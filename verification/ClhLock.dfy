/** The CLH lock as the source writes it, on the shared memory in place. Every method is one shared
    access of one thread and is proved to be that step of the program the theorems are about. */
module ClhLock {
  import opened StoreBuffer
  import opened Machine
  import opened SharedMemory
  import opened Clh
  import opened ClhInvariant
  import opened ClhSteps
  import opened ClhTheorems

  class ChainLock {
    const heap: Heap
    const memory: Memory<Addr>
    var loc: seq<Local>

    ghost predicate Valid()
      reads this, memory
    {
      |memory.buf| == |loc|
    }

    ghost function Conf(): TsoConf<Addr, Local>
      reads this, memory
    {
      TsoConf(memory.mem, memory.buf, loc)
    }

    constructor (heap: Heap, mem: Mem<Addr>, rounds: seq<nat>)
      ensures Valid() && fresh(memory) && this.heap == heap && Conf() == Begin(mem, rounds)
    {
      this.heap := heap;
      memory := new Memory(mem, |rounds|);
      loc := seq(|rounds|, i requires 0 <= i < |rounds| => Local(Idle, 0, rounds[i]));
    }

    /** A store in the lock's memory order; a seq_cst one waits for the buffer and acts at once. */
    method AtomicStore(t: nat, a: Addr, v: int) returns (done: bool)
      requires Valid() && t < |loc|
      modifies memory
      ensures Valid() && done == Enabled(old(memory.buf)[t], Store(a, v, heap.ord))
      ensures !done ==> memory.mem == old(memory.mem) && memory.buf == old(memory.buf)
      ensures done ==>
        var e := Issue(old(memory.mem), old(memory.buf)[t], Store(a, v, heap.ord));
        memory.mem == e.mem && memory.buf == old(memory.buf)[t := e.buf]
    {
      if heap.ord != SeqCst {
        memory.Store(t, a, v);
        return true;
      }
      if memory.buf[t] != [] { return false; }
      var _ := memory.Exchange(t, a, v);
      assert memory.buf[t := memory.buf[t]] == memory.buf;
      return true;
    }

    /** clh_lock. */
    method LockStep(t: nat)
      requires Valid() && t < |loc| && (loc[t].pc.Idle? || loc[t].pc.Xchg? || loc[t].pc.Spin?)
      modifies this, memory
      ensures Valid() && Conf() == TsoStep(Prog(heap), old(Conf()), Run(t))
    {
      assert Prog(heap).op(t, loc[t]) == OpOf(heap, t, loc[t]);
      assert memory.buf[t := memory.buf[t]] == memory.buf;
      var mine := heap.node(t, loc[t].round);
      match loc[t].pc
      case Idle =>
        if loc[t].todo == 0 { return; }
        var done := AtomicStore(t, Locked(mine), 1);
        if done { loc := loc[t := loc[t].(pc := Xchg, todo := loc[t].todo - 1)]; }
      case Xchg =>
        if memory.buf[t] != [] { return; }
        var pred := memory.Exchange(t, Tail, mine);
        loc := loc[t := loc[t].(pc := Spin(pred))];
      case Spin(pred) =>
        var locked := memory.Load(t, Locked(pred));
        if locked == 0 { loc := loc[t := loc[t].(pc := IncLoad)]; } else { assert loc[t := loc[t]] == loc; }
    }

    /** The counter check, then clh_unlock. */
    method HolderStep(t: nat)
      requires Valid() && t < |loc| && Holding(loc[t].pc)
      modifies this, memory
      ensures Valid() && Conf() == TsoStep(Prog(heap), old(Conf()), Run(t))
    {
      assert Prog(heap).op(t, loc[t]) == OpOf(heap, t, loc[t]);
      assert memory.buf[t := memory.buf[t]] == memory.buf;
      match loc[t].pc
      case IncLoad =>
        var cs := memory.Load(t, Cs);
        loc := loc[t := loc[t].(pc := IncStore(cs))];
      case IncStore(r) =>
        memory.Store(t, Cs, r + 1);
        loc := loc[t := loc[t].(pc := Check)];
      case Check =>
        var cs := memory.Load(t, Cs);
        loc := loc[t := loc[t].(pc := if cs == 1 then DecLoad else Failed)];
      case DecLoad =>
        var cs := memory.Load(t, Cs);
        loc := loc[t := loc[t].(pc := DecStore(cs))];
      case DecStore(r) =>
        memory.Store(t, Cs, r - 1);
        loc := loc[t := loc[t].(pc := Unlock)];
      case Unlock =>
        var done := AtomicStore(t, Locked(heap.node(t, loc[t].round)), 0);
        if done { loc := loc[t := loc[t].(pc := Idle, round := loc[t].round + 1)]; }
    }

    method Step(ch: Choice)
      requires Valid()
      modifies this, memory
      ensures Valid() && Conf() == TsoStep(Prog(heap), old(Conf()), ch)
    {
      var t := ch.t;
      if t >= |loc| { return; }
      if ch.Drain? { memory.Drain(t); return; }
      var pc := loc[t].pc;
      if pc.Idle? || pc.Xchg? || pc.Spin? { LockStep(t); }
      else if !pc.Failed? { HolderStep(t); }
      else { assert Prog(heap).op(t, loc[t]) == Halt; }
    }

    /** A whole run of the threads under a schedule: always exclusive, never failing. */
    method Execute(sched: seq<Choice>, ghost mem: Mem<Addr>, ghost rounds: seq<nat>)
      requires Valid() && Fresh(heap) && StartMem(heap, mem) && Conf() == Begin(mem, rounds)
      modifies this, memory
      ensures Valid() && Conf() == TsoExec(Prog(heap), old(Conf()), sched)
      ensures Exclusive(loc)
    {
      for i := 0 to |sched|
        invariant Valid() && Conf() == TsoExec(Prog(heap), old(Conf()), sched[..i])
      {
        Step(sched[i]);
        assert sched[..i + 1] == sched[..i] + [sched[i]];
        TsoSnoc(Prog(heap), old(Conf()), sched[..i], sched[i]);
      }
      assert sched[..|sched|] == sched;
      MutualExclusion(heap, mem, rounds, sched);
    }
  }
}
