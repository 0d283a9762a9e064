/** rw_lock_x_lock_low and its two helpers as the source writes them, on the PSO memory in place.
    Every method is one access of one thread and is proved to be that step of the program the
    theorems are about. */
module RwLockEntry {
  import opened StoreBuffer
  import opened Machine
  import opened SharedMemory
  import opened RwLock
  import opened RwLockOwner
  import opened RwLockFlag

  class ExclusiveLock {
    const memory: PsoMemory<Addr>
    var loc: seq<Local>

    ghost predicate Valid()
      reads this, memory
    {
      |memory.buf| == |loc|
    }

    ghost function Conf(): PsoConf<Addr, Local>
      reads this, memory
    {
      PsoConf(memory.mem, memory.buf, loc)
    }

    constructor (w0: int, calls: seq<seq<int>>)
      ensures Valid() && fresh(memory) && Conf() == PsoInit(Begin(w0, calls))
    {
      memory := new PsoMemory(map[Word := w0], |calls|);
      loc := seq(|calls|, i requires 0 <= i < |calls| => Local(Idle, 0, calls[i], 0));
    }

    method MutexEnter(t: nat) returns (entered: bool)
      requires Valid() && t < |loc| && memory.buf[t] == []
      modifies memory
      ensures Valid() && memory.buf == old(memory.buf)
      ensures entered == (Get(old(memory.mem), Mutex) == 0)
      ensures memory.mem == MemAfter(old(memory.mem), Cas(Mutex, 0, 1))
    {
      var was := memory.CompareAndSwap(t, Mutex, 0, 1);
      entered := was == 0;
    }

    /** rw_lock_lock_word_decr(lock, X_LOCK_DECR, X_LOCK_HALF_DECR). */
    method FirstDecrement(t: nat)
      requires Valid() && t < |loc|
      requires var pc := loc[t].pc; pc.Idle? || pc.Test1? || pc.Load1? || pc.Store1? || pc.Exit1?
      modifies this, memory
      ensures Valid() && Conf() == PsoStep(Prog(), old(Conf()), PRun(t))
    {
      assert Prog().op(t, loc[t]) == OpOf(t, loc[t]);
      assert memory.buf[t := memory.buf[t]] == memory.buf && loc[t := loc[t]] == loc;
      match loc[t].pc
      case Idle =>
        if loc[t].calls == [] || memory.buf[t] != [] { return; }
        var entered := MutexEnter(t);
        if entered { loc := loc[t := loc[t].(pc := Test1, pass := loc[t].calls[0], calls := loc[t].calls[1..])]; }
      case Test1 =>
        var word := memory.Load(t, Word);
        loc := loc[t := loc[t].(pc := if word > X_LOCK_HALF_DECR then Load1 else Exit1(false))];
      case Load1 =>
        var word := memory.Load(t, Word);
        loc := loc[t := loc[t].(pc := Store1(word))];
      case Store1(w) =>
        memory.Store(t, Word, w - X_LOCK_DECR);
        loc := loc[t := loc[t].(pc := Exit1(true))];
      case Exit1(ok) =>
        if memory.buf[t] != [] { return; }
        var _ := memory.Exchange(t, Mutex, 0);
        var l := loc[t];
        if ok { loc := loc[t := l.(pc := SetEnter)]; }
        else if l.pass == 0 { loc := loc[t := l.(pc := ReadRecursive)]; }
        else { loc := loc[t := Return(l, false)]; }
    }

    /** rw_lock_set_writer_id_and_recursion_flag(lock, !pass). */
    method SetOwner(t: nat)
      requires Valid() && t < |loc|
      requires var pc := loc[t].pc; pc.SetEnter? || pc.SetWriter? || pc.SetRecursive? || pc.SetExit?
      modifies this, memory
      ensures Valid() && Conf() == PsoStep(Prog(), old(Conf()), PRun(t))
    {
      assert Prog().op(t, loc[t]) == OpOf(t, loc[t]);
      assert memory.buf[t := memory.buf[t]] == memory.buf && loc[t := loc[t]] == loc;
      match loc[t].pc
      case SetEnter =>
        if memory.buf[t] != [] { return; }
        var entered := MutexEnter(t);
        if entered { loc := loc[t := loc[t].(pc := SetWriter)]; }
      case SetWriter =>
        memory.Store(t, Writer, Id(t));
        loc := loc[t := loc[t].(pc := SetRecursive)];
      case SetRecursive =>
        memory.Store(t, Recursive, if loc[t].pass == 0 then 1 else 0);
        loc := loc[t := loc[t].(pc := SetExit)];
      case SetExit =>
        if memory.buf[t] != [] { return; }
        var _ := memory.Exchange(t, Mutex, 0);
        loc := loc[t := Return(loc[t], true)];
    }

    /** The relock test, outside the mutex. */
    method RelockTest(t: nat)
      requires Valid() && t < |loc| && (loc[t].pc.ReadRecursive? || loc[t].pc.ReadWriter?)
      modifies this`loc
      ensures Valid() && Conf() == PsoStep(Prog(), old(Conf()), PRun(t))
    {
      assert Prog().op(t, loc[t]) == OpOf(t, loc[t]);
      assert memory.buf[t := memory.buf[t]] == memory.buf;
      if loc[t].pc.ReadRecursive? {
        var recursive := memory.Load(t, Recursive);
        loc := loc[t := if recursive != 0 then loc[t].(pc := ReadWriter) else Return(loc[t], false)];
      } else {
        var writer := memory.Load(t, Writer);
        loc := loc[t := if writer == Id(t) then loc[t].(pc := Enter2) else Return(loc[t], false)];
      }
    }

    /** rw_lock_lock_word_decr(lock, X_LOCK_DECR, 0). */
    method SecondDecrement(t: nat)
      requires Valid() && t < |loc|
      requires var pc := loc[t].pc; pc.Enter2? || pc.Test2? || pc.Load2? || pc.Store2? || pc.Exit2?
      modifies this, memory
      ensures Valid() && Conf() == PsoStep(Prog(), old(Conf()), PRun(t))
    {
      assert Prog().op(t, loc[t]) == OpOf(t, loc[t]);
      assert memory.buf[t := memory.buf[t]] == memory.buf && loc[t := loc[t]] == loc;
      match loc[t].pc
      case Enter2 =>
        if memory.buf[t] != [] { return; }
        var entered := MutexEnter(t);
        if entered { loc := loc[t := loc[t].(pc := Test2)]; }
      case Test2 =>
        var word := memory.Load(t, Word);
        loc := loc[t := loc[t].(pc := if word > 0 then Load2 else Exit2(false))];
      case Load2 =>
        var word := memory.Load(t, Word);
        loc := loc[t := loc[t].(pc := Store2(word))];
      case Store2(w) =>
        memory.Store(t, Word, w - X_LOCK_DECR);
        loc := loc[t := loc[t].(pc := Exit2(true))];
      case Exit2(ok) =>
        if memory.buf[t] != [] { return; }
        var _ := memory.Exchange(t, Mutex, 0);
        loc := loc[t := if ok then Return(loc[t], true) else loc[t].(pc := IsZero)];
    }

    /** The recursive update made without the mutex, up to its store. */
    method UnprotectedLoad(t: nat)
      requires Valid() && t < |loc|
      requires var pc := loc[t].pc; pc.IsZero? || pc.IsMinusHalf? || pc.SubLoad? || pc.DecLoad?
      modifies this`loc
      ensures Valid() && Conf() == PsoStep(Prog(), old(Conf()), PRun(t))
    {
      assert Prog().op(t, loc[t]) == OpOf(t, loc[t]);
      assert memory.buf[t := memory.buf[t]] == memory.buf;
      var word := memory.Load(t, Word);
      match loc[t].pc
      case IsZero => loc := loc[t := loc[t].(pc := if word == 0 then SubLoad else IsMinusHalf)];
      case IsMinusHalf => loc := loc[t := loc[t].(pc := if word == -X_LOCK_HALF_DECR then SubLoad else DecLoad)];
      case SubLoad => loc := loc[t := loc[t].(pc := SubStore(word))];
      case DecLoad => loc := loc[t := loc[t].(pc := DecStore(word))];
    }

    method UnprotectedStore(t: nat)
      requires Valid() && t < |loc| && (loc[t].pc.SubStore? || loc[t].pc.DecStore?)
      modifies this, memory
      ensures Valid() && Conf() == PsoStep(Prog(), old(Conf()), PRun(t))
    {
      assert Prog().op(t, loc[t]) == OpOf(t, loc[t]);
      if loc[t].pc.SubStore? {
        memory.Store(t, Word, loc[t].pc.w - X_LOCK_DECR);
      } else {
        memory.Store(t, Word, loc[t].pc.w - 1);
      }
      loc := loc[t := Return(loc[t], true)];
    }

    method Step(ch: PChoice<Addr>)
      requires Valid()
      modifies this, memory
      ensures Valid() && Conf() == PsoStep(Prog(), old(Conf()), ch)
    {
      var t := ch.t;
      if t >= |loc| { return; }
      if ch.PDrain? { memory.Drain(t, ch.a); return; }
      var pc := loc[t].pc;
      if pc.Idle? || pc.Test1? || pc.Load1? || pc.Store1? || pc.Exit1? { FirstDecrement(t); }
      else if pc.SetEnter? || pc.SetWriter? || pc.SetRecursive? || pc.SetExit? { SetOwner(t); }
      else if pc.IsZero? || pc.IsMinusHalf? || pc.SubLoad? || pc.DecLoad? { UnprotectedLoad(t); }
      else if pc.SubStore? || pc.DecStore? { UnprotectedStore(t); }
      else if pc.ReadRecursive? || pc.ReadWriter? { RelockTest(t); }
      else { SecondDecrement(t); }
    }

    /** A whole run of the threads under a schedule: all calls that returned 1 are one thread's, and
        they are the ones that should. */
    method Execute(sched: seq<PChoice<Addr>>, ghost w0: int, ghost calls: seq<seq<int>>)
      requires Valid() && StartWord(w0) && Conf() == PsoInit(Begin(w0, calls))
      modifies this, memory
      ensures Valid() && Conf() == PsoExec(Prog(), old(Conf()), sched)
      ensures forall t, u :: 0 <= t < u < |loc| ==> loc[t].won == 0 || loc[u].won == 0
      ensures |loc| == |calls|
      ensures forall t :: 0 <= t < |calls| && loc[t].pc.Idle? && loc[t].won > 0 ==>
        |loc[t].calls| < |calls[t]| && loc[t].won == Wins(calls[t], |calls[t]| - |loc[t].calls|)
    {
      for i := 0 to |sched|
        invariant Valid() && Conf() == PsoExec(Prog(), old(Conf()), sched[..i])
      {
        Step(sched[i]);
        assert sched[..i + 1] == sched[..i] + [sched[i]];
        PsoSnoc(Prog(), old(Conf()), sched[..i], sched[i]);
      }
      assert sched[..|sched|] == sched;
      OneOwner(w0, calls, sched);
      forall t | 0 <= t < |calls| && loc[t].pc.Idle? && loc[t].won > 0
        ensures |loc[t].calls| < |calls[t]| && loc[t].won == Wins(calls[t], |calls[t]| - |loc[t].calls|)
      {
        WinsExactly(w0, calls, sched, t);
      }
    }
  }
}
