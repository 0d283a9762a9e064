/** The MCS lock as the source writes it: the statements of lock and unlock act on the shared memory
    in place. Every method is one shared access of one thread and is proved to be that step of the
    program whose runs the theorems are about. */
module McsLock {
  import opened StoreBuffer
  import opened Machine
  import opened SharedMemory
  import opened Mcs
  import opened McsSteps
  import opened McsTheorems

  predicate Releasing(pc: Pc) {
    pc.ReadNext? || pc.CasTail? || pc.AwaitNext? || pc.Barrier? || pc.ReadSucc? || pc.HandOff?
  }

  class QueueLock {
    const style: Style
    const memory: Memory<Addr>
    var loc: seq<Local>

    ghost predicate Valid()
      reads this, memory
    {
      |memory.buf| == |loc|
    }

    ghost function Conf(): TsoConf<Addr, Local>
      reads this, memory
    {
      TsoConf(memory.mem, memory.buf, loc)
    }

    constructor (style: Style, mem: Mem<Addr>, rounds: seq<nat>)
      ensures Valid() && fresh(memory) && this.style == style && Conf() == Begin(mem, rounds)
    {
      this.style := style;
      memory := new Memory(mem, |rounds|);
      loc := seq(|rounds|, i requires 0 <= i < |rounds| => Local(Idle, rounds[i]));
    }

    /** qspin_lock / rte_mcslock_lock up to the exchange: the two initialising stores. */
    method InitStep(t: nat)
      requires Valid() && t < |loc| && (loc[t].pc.Idle? || loc[t].pc.Init?)
      modifies this, memory
      ensures Valid() && Conf() == TsoStep(Prog(style), old(Conf()), Run(t))
    {
      assert Prog(style).op(t, loc[t]) == OpOf(style, t, loc[t]);
      if loc[t].pc.Idle? {
        if loc[t].todo == 0 { return; }
        if style.Dpdk? { memory.Store(t, Locked(t), 1); } else { memory.Store(t, Next(t), NULL); }
        loc := loc[t := Local(Init, loc[t].todo - 1)];
      } else {
        if style.Dpdk? { memory.Store(t, Next(t), NULL); } else { memory.Store(t, Locked(t), 1); }
        loc := loc[t := loc[t].(pc := Xchg)];
      }
    }

    /** The rest of lock: exchange, link, spin. */
    method AcquireStep(t: nat)
      requires Valid() && t < |loc| && (loc[t].pc.Xchg? || loc[t].pc.Link? || loc[t].pc.Spin?)
      modifies this, memory
      ensures Valid() && Conf() == TsoStep(Prog(style), old(Conf()), Run(t))
    {
      assert Prog(style).op(t, loc[t]) == OpOf(style, t, loc[t]);
      match loc[t].pc
      case Xchg =>
        if memory.buf[t] != [] { return; }
        var prev := memory.Exchange(t, Tail, t);
        loc := loc[t := loc[t].(pc := if prev != NULL then Link(prev) else IncLoad)];
      case Link(prev) =>
        memory.Store(t, Next(prev), t);
        loc := loc[t := loc[t].(pc := Spin(prev))];
      case Spin(_) =>
        var locked := memory.Load(t, Locked(t));
        assert memory.buf[t := memory.buf[t]] == memory.buf;
        if locked == 0 { loc := loc[t := loc[t].(pc := IncLoad)]; } else { assert loc[t := loc[t]] == loc; }
    }

    /** cs++, assert(cs == 1), cs--. */
    method CriticalStep(t: nat)
      requires Valid() && t < |loc|
      requires var pc := loc[t].pc; pc.IncLoad? || pc.IncStore? || pc.Check? || pc.DecLoad? || pc.DecStore?
      modifies this, memory
      ensures Valid() && Conf() == TsoStep(Prog(style), old(Conf()), Run(t))
    {
      assert Prog(style).op(t, loc[t]) == OpOf(style, t, loc[t]);
      assert memory.buf[t := memory.buf[t]] == memory.buf;
      match loc[t].pc
      case IncLoad =>
        var cs := memory.Load(t, Cs);
        loc := loc[t := loc[t].(pc := IncStore(cs))];
      case IncStore(r) =>
        memory.Store(t, Cs, r + 1);
        loc := loc[t := loc[t].(pc := Check)];
      case Check =>
        var cs := memory.Load(t, Cs);
        loc := loc[t := loc[t].(pc := if cs == 1 then DecLoad else Failed)];
      case DecLoad =>
        var cs := memory.Load(t, Cs);
        loc := loc[t := loc[t].(pc := DecStore(cs))];
      case DecStore(r) =>
        memory.Store(t, Cs, r - 1);
        loc := loc[t := loc[t].(pc := ReadNext)];
    }

    /** qspin_unlock / rte_mcslock_unlock. */
    method ReleaseStep(t: nat)
      requires Valid() && t < |loc|
      requires Releasing(loc[t].pc)
      modifies this, memory
      ensures Valid() && Conf() == TsoStep(Prog(style), old(Conf()), Run(t))
    {
      assert Prog(style).op(t, loc[t]) == OpOf(style, t, loc[t]);
      assert memory.buf[t := memory.buf[t]] == memory.buf;
      match loc[t].pc
      case ReadNext =>
        var next := memory.Load(t, Next(t));
        loc := loc[t := loc[t].(pc := if next == NULL then CasTail else HasNext(style))];
      case CasTail =>
        if memory.buf[t] != [] { return; }
        var was := memory.CompareAndSwap(t, Tail, t, NULL);
        loc := loc[t := loc[t].(pc := if was == t then Idle else AwaitNext)];
      case AwaitNext =>
        var next := memory.Load(t, Next(t));
        if next != NULL { loc := loc[t := loc[t].(pc := HasNext(style))]; } else { assert loc[t := loc[t]] == loc; }
      case Barrier =>
        loc := loc[t := loc[t].(pc := ReadSucc)];
      case ReadSucc =>
        var next := memory.Load(t, Next(t));
        loc := loc[t := loc[t].(pc := if next == NULL then Failed else HandOff(next))];
      case HandOff(succ) =>
        memory.Store(t, Locked(succ), 0);
        loc := loc[t := loc[t].(pc := Idle)];
    }

    method Step(ch: Choice)
      requires Valid()
      modifies this, memory
      ensures Valid() && Conf() == TsoStep(Prog(style), old(Conf()), ch)
    {
      var t := ch.t;
      if t >= |loc| { return; }
      if ch.Drain? {
        memory.Drain(t);
        return;
      }
      var pc := loc[t].pc;
      if pc.Idle? || pc.Init? { InitStep(t); }
      else if pc.Xchg? || pc.Link? || pc.Spin? { AcquireStep(t); }
      else if pc.IncLoad? || pc.IncStore? || pc.Check? || pc.DecLoad? || pc.DecStore? { CriticalStep(t); }
      else if !pc.Failed? { ReleaseStep(t); }
      else { assert Prog(style).op(t, loc[t]) == Halt; }
    }

    /** A whole run of the threads under a schedule: always exclusive, never failing. */
    method Execute(sched: seq<Choice>, ghost mem: Mem<Addr>, ghost rounds: seq<nat>)
      requires Valid() && StartMem(mem) && Conf() == Begin(mem, rounds)
      modifies this, memory
      ensures Valid() && Conf() == TsoExec(Prog(style), old(Conf()), sched)
      ensures Exclusive(loc)
    {
      for i := 0 to |sched|
        invariant Valid() && Conf() == TsoExec(Prog(style), old(Conf()), sched[..i])
      {
        Step(sched[i]);
        assert sched[..i + 1] == sched[..i] + [sched[i]];
        TsoSnoc(Prog(style), old(Conf()), sched[..i], sched[i]);
      }
      assert sched[..|sched|] == sched;
      MutualExclusion(style, mem, rounds, sched);
    }
  }
}
