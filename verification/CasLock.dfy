/** The spinning compare-and-swap lock, for any number of threads and rounds, with the two critical
    sections of the repository and four ways to unlock: a plain store, a release store, a plain
    store behind a store barrier, and an exchange. */
module CasLock {
  import opened StoreBuffer
  import opened Machine
  import opened SharedMemory
  import opened Inclusion
  import opened Separated

  datatype Addr = Word | Shared

  datatype Section = Counter | Data

  datatype Unlock = PlainStore | ReleaseStore | FencedStore | ByExchange

  datatype Lock = Lock(section: Section, unlock: Unlock)

  datatype Pc =
    | Acquire
    | IncLoad | IncStore(r: int) | Check | DecLoad | DecStore(r: int)   // cs++; assert(cs == 1); cs--
    | TestZero | SetOne | SetZero                                       // assert(data == 0); data = 1; data = 0
    | Barrier | Free
    | Failed

  datatype Local = Local(pc: Pc, todo: nat)

  function Taken(k: Lock): int { if k.section.Counter? then 0xff else 1 }

  function OpOf(k: Lock, l: Local): Op<Addr> {
    match l.pc
    case Acquire => if l.todo == 0 then Halt else Cas(Word, 0, Taken(k))
    case IncLoad => Load(Shared)
    case IncStore(r) => Store(Shared, r + 1, Plain)
    case Check => Load(Shared)
    case DecLoad => Load(Shared)
    case DecStore(r) => Store(Shared, r - 1, Plain)
    case TestZero => Load(Shared)
    case SetOne => Store(Shared, 1, Relaxed)
    case SetZero => Store(Shared, 0, Relaxed)
    case Barrier => StoreBarrier
    case Free =>
      if k.unlock.ByExchange? then Exchange(Word, 0)
      else Store(Word, 0, if k.unlock.ReleaseStore? then Release else Plain)
    case Failed => Halt
  }

  function Leaving(k: Lock): Pc { if k.unlock.FencedStore? then Barrier else Free }

  function AfterOp(k: Lock, l: Local, v: int): Local {
    match l.pc
    case Acquire =>
      if v == 0 && l.todo > 0 then Local(if k.section.Counter? then IncLoad else TestZero, l.todo - 1) else l
    case IncLoad => l.(pc := IncStore(v))
    case IncStore(_) => l.(pc := Check)
    case Check => l.(pc := if v == 1 then DecLoad else Failed)
    case DecLoad => l.(pc := DecStore(v))
    case DecStore(_) => l.(pc := Leaving(k))
    case TestZero => l.(pc := if v == 0 then SetOne else Failed)
    case SetOne => l.(pc := SetZero)
    case SetZero => l.(pc := Leaving(k))
    case Barrier => l.(pc := Free)
    case Free => l.(pc := Acquire)
    case Failed => l
  }

  function Prog(k: Lock): Program<Addr, Local> {
    Program((t: nat, l: Local) => OpOf(k, l), (t: nat, l: Local, v: int) => AfterOp(k, l, v))
  }

  function Begin(rounds: seq<nat>): ScConf<Addr, Local> {
    ScConf(map[Word := 0, Shared := 0], seq(|rounds|, i requires 0 <= i < |rounds| => Local(Acquire, rounds[i])))
  }

  predicate Inside(pc: Pc) { !pc.Acquire? && !pc.Failed? }

  /** At most one thread between acquisition and unlock, and no assertion has failed. */
  ghost predicate Safe(locs: seq<Local>) {
    && (forall t, u :: 0 <= t < u < |locs| ==> !(Inside(locs[t].pc) && Inside(locs[u].pc)))
    && (forall t :: 0 <= t < |locs| ==> !locs[t].pc.Failed?)
  }

  /** The shared variable as the holder must see it. */
  predicate HolderSees(pc: Pc, v: int) {
    match pc
    case IncStore(r) => v == 0 && r == 0
    case Check => v == 1
    case DecLoad => v == 1
    case DecStore(r) => v == 1 && r == 1
    case SetZero => v == 1
    case _ => v == 0
  }

  const NOBODY := -1

  // TSO: any way to unlock.

  ghost predicate BusyOk(c: TsoConf<Addr, Local>, o: nat)
    requires TsoWf(c) && o < |c.loc|
  {
    var b, pc := c.buf[o], c.loc[o].pc;
    && Get(c.mem, Word) != 0
    && HolderSees(pc, Read(c.mem, b, Shared))
    && (if Inside(pc)
        then forall i :: 0 <= i < |b| ==> b[i].addr == Shared
        else
          && pc.Acquire? && b != [] && b[|b| - 1] == Write(Word, 0)
          && (forall i :: 0 <= i < |b| - 1 ==> b[i].addr == Shared))
  }

  /** `o` is the one thread that holds the lock or whose unlocking store has not landed. */
  ghost predicate TsoInv(c: TsoConf<Addr, Local>, o: int) {
    && TsoWf(c)
    && (forall t :: 0 <= t < |c.loc| && t != o ==> c.loc[t].pc.Acquire? && c.buf[t] == [])
    && (if o == NOBODY then Get(c.mem, Word) == 0 && Get(c.mem, Shared) == 0 else 0 <= o < |c.loc| && BusyOk(c, o))
  }

  /** The thread inside moves on, its buffer staying ahead of its unlocking store. */
  lemma TsoHolderRuns(k: Lock, c: TsoConf<Addr, Local>, o: nat, c': TsoConf<Addr, Local>)
    requires TsoInv(c, o) && o < |c.loc| && Inside(c.loc[o].pc) && Enabled(c.buf[o], OpOf(k, c.loc[o]))
    requires var e := Issue(c.mem, c.buf[o], OpOf(k, c.loc[o]));
      c' == TsoConf(e.mem, c.buf[o := e.buf], c.loc[o := AfterOp(k, c.loc[o], e.val)])
    ensures TsoInv(c', if c'.loc[o].pc.Acquire? && c'.buf[o] == [] then NOBODY else o)
  {
    var op := OpOf(k, c.loc[o]);
    if op.Store? {
      HolderStores(k, c, o, c');
    } else {
      assert c'.buf == c.buf && (op.Exchange? || c'.mem == c.mem);
    }
  }

  lemma HolderStores(k: Lock, c: TsoConf<Addr, Local>, o: nat, c': TsoConf<Addr, Local>)
    requires TsoInv(c, o) && o < |c.loc| && Inside(c.loc[o].pc) && OpOf(k, c.loc[o]).Store?
    requires var op := OpOf(k, c.loc[o]);
      c' == TsoConf(c.mem, c.buf[o := c.buf[o] + [Write(op.a, op.v)]], c.loc[o := AfterOp(k, c.loc[o], 0)])
    ensures TsoInv(c', o)
  {
    var op := OpOf(k, c.loc[o]);
    var b, b' := c.buf[o], c'.buf[o];
    ReadAppend(c.mem, b, Write(op.a, op.v), Shared);
    assert b' == b + [Write(op.a, op.v)] && forall i :: 0 <= i < |b| ==> b'[i] == b[i];
    assert BusyOk(c', o);
  }

  lemma TsoRuns(k: Lock, c: TsoConf<Addr, Local>, o: int, t: nat, c': TsoConf<Addr, Local>) returns (o': int)
    requires TsoInv(c, o) && t < |c.loc| && Enabled(c.buf[t], OpOf(k, c.loc[t]))
    requires var e := Issue(c.mem, c.buf[t], OpOf(k, c.loc[t]));
      c' == TsoConf(e.mem, c.buf[t := e.buf], c.loc[t := AfterOp(k, c.loc[t], e.val)])
    ensures TsoInv(c', o')
  {
    if Inside(c.loc[t].pc) {
      TsoHolderRuns(k, c, t, c');
      o' := if c'.loc[t].pc.Acquire? && c'.buf[t] == [] then NOBODY else t;
    } else {
      assert c'.buf == c.buf;
      o' := if c'.loc[t].pc.Acquire? then o else t;
    }
  }

  lemma TsoDrains(c: TsoConf<Addr, Local>, o: int, t: nat) returns (o': int)
    requires TsoInv(c, o) && t < |c.loc| && c.buf[t] != []
    ensures TsoInv(TsoDrain(c, t), o')
  {
    ReadDrain(c.mem, c.buf[t], Shared);
    o' := if c.loc[t].pc.Acquire? && |c.buf[t]| == 1 then NOBODY else o;
  }

  lemma TsoStepKeeps(k: Lock, c: TsoConf<Addr, Local>, o: int, ch: Choice) returns (o': int)
    requires TsoInv(c, o)
    ensures TsoInv(TsoStep(Prog(k), c, ch), o')
  {
    o' := o;
    var t := ch.t;
    if t < |c.loc| {
      assert Prog(k).op(t, c.loc[t]) == OpOf(k, c.loc[t]);
      if ch.Drain? {
        if c.buf[t] != [] { o' := TsoDrains(c, o, t); }
      } else if Enabled(c.buf[t], OpOf(k, c.loc[t])) {
        o' := TsoRuns(k, c, o, t, TsoStep(Prog(k), c, ch));
      }
    }
  }

  lemma {:induction false} TsoReachable(k: Lock, rounds: seq<nat>, sched: seq<Choice>) returns (o: int)
    ensures TsoInv(TsoExec(Prog(k), TsoInit(Begin(rounds)), sched), o)
  {
    if sched == [] {
      o := NOBODY;
    } else {
      var n := |sched| - 1;
      var pre := TsoReachable(k, rounds, sched[..n]);
      o := TsoStepKeeps(k, TsoExec(Prog(k), TsoInit(Begin(rounds)), sched[..n]), pre, sched[n]);
    }
  }

  /** On TSO the lock is safe however it is unlocked. */
  lemma TsoSafe(k: Lock, rounds: seq<nat>, sched: seq<Choice>)
    ensures Safe(TsoExec(Prog(k), TsoInit(Begin(rounds)), sched).loc)
  {
    var o := TsoReachable(k, rounds, sched);
  }

  // PSO: any way to unlock that keeps the critical section's stores ahead.

  predicate OnlyShared(b: PBuf<Addr>) {
    forall i :: 0 <= i < |b| && b[i].Put? ==> b[i].addr == Shared
  }

  /** What a thread's buffer looks like wherever the thread is, whatever the others do. */
  predicate Shape(k: Lock, l: Local, b: PBuf<Addr>) {
    && InOrder(b)
    && (Inside(l.pc) ==> OnlyShared(b))
    && (l.pc.Free? && k.unlock.FencedStore? ==> b == [] || b[|b| - 1].Wall?)
  }

  lemma SharedStoreInOrder(b: PBuf<Addr>, v: int)
    requires InOrder(b) && OnlyShared(b)
    ensures InOrder(Enqueue(b, Shared, v)) && OnlyShared(Enqueue(b, Shared, v))
  {
    InOrderAppend(b, Put(Shared, v));
  }

  lemma UnlockInOrder(k: Lock, b: PBuf<Addr>)
    requires InOrder(b) && (k.unlock.ReleaseStore? || (k.unlock.FencedStore? && (b == [] || b[|b| - 1].Wall?)))
    ensures InOrder(Enqueue(if k.unlock.ReleaseStore? then Walled(b) else b, Word, 0))
  {
    if k.unlock.ReleaseStore? { InOrderAfterRelease(b, Word, 0); } else { InOrderAppend(b, Put(Word, 0)); }
  }

  lemma StoreKeepsShape(k: Lock, l: Local, m: Mem<Addr>, b: PBuf<Addr>)
    requires k.unlock != PlainStore && Shape(k, l, b) && OpOf(k, l).Store?
    ensures Shape(k, AfterOp(k, l, 0), PIssue(m, b, OpOf(k, l)).buf)
  {
    if l.pc.Free? { UnlockInOrder(k, b); } else { SharedStoreInOrder(b, OpOf(k, l).v); }
  }

  lemma OtherKeepsShape(k: Lock, l: Local, b: PBuf<Addr>, v: int)
    requires Shape(k, l, b) && PEnabled(b, OpOf(k, l)) && !OpOf(k, l).Store? && !l.pc.Barrier?
    ensures Shape(k, AfterOp(k, l, v), b)
  {
    var l' := AfterOp(k, l, v);
    assert Inside(l'.pc) ==> Inside(l.pc) || b == [];
    assert !l'.pc.Free?;
  }

  lemma IssueKeepsShape(k: Lock, l: Local, m: Mem<Addr>, b: PBuf<Addr>)
    requires k.unlock != PlainStore && Shape(k, l, b) && PEnabled(b, OpOf(k, l))
    ensures var e := PIssue(m, b, OpOf(k, l)); Shape(k, AfterOp(k, l, e.val), e.buf)
  {
    var op := OpOf(k, l);
    if l.pc.Barrier? {
      InOrderAfterWall(b);
      assert AfterOp(k, l, 0).pc == Free;
    } else if op.Store? && IsBuffered(op) {
      StoreKeepsShape(k, l, m, b);
    } else {
      var e := PIssue(m, b, op);
      assert e.buf == b;
      OtherKeepsShape(k, l, b, e.val);
    }
  }

  lemma RestOfShape(b: PBuf<Addr>)
    requires b != []
    ensures OnlyShared(b) ==> OnlyShared(Rest(b))
    ensures b[|b| - 1].Wall? ==> Rest(b) == [] || Rest(b)[|Rest(b)| - 1].Wall?
  {
    var c := Rest(b);
    assert forall i :: 0 <= i < |c| ==> c[i] == b[i + |b| - |c|];
  }

  lemma LandingKeepsShape(k: Lock, l: Local, b: PBuf<Addr>, a: Addr)
    requires Shape(k, l, b) && CanLand(b, a)
    ensures Shape(k, l, Dequeue(b, a))
  {
    InOrderAfterLanding(b, a);
    RestOfShape(b);
  }

  ghost predicate AllShaped(k: Lock, d: PsoConf<Addr, Local>) {
    PsoWf(d) && forall t :: 0 <= t < |d.loc| ==> Shape(k, d.loc[t], d.buf[t])
  }

  lemma StepKeepsShapes(k: Lock, d: PsoConf<Addr, Local>, ch: PChoice<Addr>)
    requires k.unlock != PlainStore && AllShaped(k, d)
    ensures AllShaped(k, PsoStep(Prog(k), d, ch))
  {
    var t := ch.t;
    if t < |d.loc| {
      var l, b := d.loc[t], d.buf[t];
      assert Shape(k, l, b);
      if ch.PDrain? {
        if CanLand(b, ch.a) { LandingKeepsShape(k, l, b, ch.a); }
      } else if PEnabled(b, OpOf(k, l)) {
        IssueKeepsShape(k, l, d.mem, b);
      }
    }
  }

  lemma {:induction false} ShapesHold(k: Lock, rounds: seq<nat>, ps: seq<PChoice<Addr>>)
    requires k.unlock != PlainStore
    ensures AllShaped(k, PsoExec(Prog(k), PsoInit(Begin(rounds)), ps))
  {
    if ps != [] {
      var n := |ps| - 1;
      ShapesHold(k, rounds, ps[..n]);
      StepKeepsShapes(k, PsoExec(Prog(k), PsoInit(Begin(rounds)), ps[..n]), ps[n]);
    }
  }

  /** Unless it unlocks by a plain store the lock has no PSO run that is not a TSO run. */
  lemma PsoRunIsTsoRun(k: Lock, rounds: seq<nat>, ps: seq<PChoice<Addr>>) returns (ts: seq<Choice>)
    requires k.unlock != PlainStore
    ensures Sim(TsoExec(Prog(k), TsoInit(Begin(rounds)), ts), PsoExec(Prog(k), PsoInit(Begin(rounds)), ps))
  {
    forall qs: seq<PChoice<Addr>> ensures AllInOrder(PsoExec(Prog(k), PsoInit(Begin(rounds)), qs)) {
      ShapesHold(k, rounds, qs);
      var d := PsoExec(Prog(k), PsoInit(Begin(rounds)), qs);
      assert forall t :: 0 <= t < |d.loc| ==> Shape(k, d.loc[t], d.buf[t]);
    }
    ts := SeparatedPsoIsTso(Prog(k), Begin(rounds), ps);
  }

  lemma PsoSafe(k: Lock, rounds: seq<nat>, sched: seq<PChoice<Addr>>)
    requires k.unlock != PlainStore
    ensures Safe(PsoExec(Prog(k), PsoInit(Begin(rounds)), sched).loc)
  {
    var ts := PsoRunIsTsoRun(k, rounds, sched);
    TsoSafe(k, rounds, ts);
  }

  /** How often thread `t` has turned the word in memory from zero to something else. */
  function TsoTakes(k: Lock, rounds: seq<nat>, sched: seq<Choice>, t: nat): nat {
    if sched == [] then 0
    else
      var n := |sched| - 1;
      var c := TsoExec(Prog(k), TsoInit(Begin(rounds)), sched[..n]);
      var c' := TsoExec(Prog(k), TsoInit(Begin(rounds)), sched);
      TsoTakes(k, rounds, sched[..n], t)
      + if sched[n] == Run(t) && Get(c.mem, Word) == 0 && Get(c'.mem, Word) != 0 then 1 else 0
  }

  function PsoTakes(k: Lock, rounds: seq<nat>, sched: seq<PChoice<Addr>>, t: nat): nat {
    if sched == [] then 0
    else
      var n := |sched| - 1;
      var c := PsoExec(Prog(k), PsoInit(Begin(rounds)), sched[..n]);
      var c' := PsoExec(Prog(k), PsoInit(Begin(rounds)), sched);
      PsoTakes(k, rounds, sched[..n], t)
      + if sched[n] == PRun(t) && Get(c.mem, Word) == 0 && Get(c'.mem, Word) != 0 then 1 else 0
  }

  predicate Turns(m: Mem<Addr>, m': Mem<Addr>) { Get(m, Word) == 0 && Get(m', Word) != 0 }

  lemma TsoOpTakes(k: Lock, l: Local, m: Mem<Addr>, b: Buf<Addr>)
    requires Enabled(b, OpOf(k, l))
    ensures var e := Issue(m, b, OpOf(k, l)); AfterOp(k, l, e.val).todo + (if Turns(m, e.mem) then 1 else 0) == l.todo
  {}

  lemma PsoOpTakes(k: Lock, l: Local, m: Mem<Addr>, b: PBuf<Addr>)
    requires PEnabled(b, OpOf(k, l))
    ensures var e := PIssue(m, b, OpOf(k, l)); AfterOp(k, l, e.val).todo + (if Turns(m, e.mem) then 1 else 0) == l.todo
  {}

  /** Rounds left and times taken make up the rounds asked for, at every moment of every run. */
  lemma {:induction false} TsoTakesAll(k: Lock, rounds: seq<nat>, sched: seq<Choice>, t: nat)
    requires t < |rounds|
    ensures var c := TsoExec(Prog(k), TsoInit(Begin(rounds)), sched);
      |c.loc| == |rounds| && c.loc[t].todo + TsoTakes(k, rounds, sched, t) == rounds[t]
  {
    if sched != [] {
      var n := |sched| - 1;
      TsoTakesAll(k, rounds, sched[..n], t);
      var c := TsoExec(Prog(k), TsoInit(Begin(rounds)), sched[..n]);
      assert Prog(k).op(t, c.loc[t]) == OpOf(k, c.loc[t]);
      if sched[n] == Run(t) && Enabled(c.buf[t], OpOf(k, c.loc[t])) {
        TsoOpTakes(k, c.loc[t], c.mem, c.buf[t]);
      } else {
        assert TsoStep(Prog(k), c, sched[n]).loc[t] == c.loc[t];
      }
    }
  }

  lemma {:induction false} PsoTakesAll(k: Lock, rounds: seq<nat>, sched: seq<PChoice<Addr>>, t: nat)
    requires t < |rounds|
    ensures var c := PsoExec(Prog(k), PsoInit(Begin(rounds)), sched);
      |c.loc| == |rounds| && c.loc[t].todo + PsoTakes(k, rounds, sched, t) == rounds[t]
  {
    if sched != [] {
      var n := |sched| - 1;
      PsoTakesAll(k, rounds, sched[..n], t);
      var c := PsoExec(Prog(k), PsoInit(Begin(rounds)), sched[..n]);
      assert Prog(k).op(t, c.loc[t]) == OpOf(k, c.loc[t]);
      if sched[n] == PRun(t) && PEnabled(c.buf[t], OpOf(k, c.loc[t])) {
        PsoOpTakes(k, c.loc[t], c.mem, c.buf[t]);
      } else {
        assert PsoStep(Prog(k), c, sched[n]).loc[t] == c.loc[t];
      }
    }
  }

  /** Lock, critical section and unlock on the TSO memory in place. */
  class Spinners {
    const k: Lock
    const memory: Memory<Addr>
    var loc: seq<Local>

    ghost predicate Valid()
      reads this, memory
    {
      |memory.buf| == |loc|
    }

    ghost function Conf(): TsoConf<Addr, Local>
      reads this, memory
    {
      TsoConf(memory.mem, memory.buf, loc)
    }

    constructor (k: Lock, rounds: seq<nat>)
      ensures Valid() && fresh(memory) && this.k == k && Conf() == TsoInit(Begin(rounds))
    {
      this.k := k;
      memory := new Memory(map[Word := 0, Shared := 0], |rounds|);
      loc := seq(|rounds|, i requires 0 <= i < |rounds| => Local(Acquire, rounds[i]));
    }

    /** One try of the acquisition, or one access of the unlock. */
    method LockStep(t: nat)
      requires Valid() && t < |loc| && (loc[t].pc.Acquire? || loc[t].pc.Barrier? || loc[t].pc.Free?)
      modifies this, memory
      ensures Valid() && Conf() == TsoStep(Prog(k), old(Conf()), Run(t))
    {
      assert Prog(k).op(t, loc[t]) == OpOf(k, loc[t]);
      assert memory.buf[t := memory.buf[t]] == memory.buf && loc[t := loc[t]] == loc;
      match loc[t].pc
      case Acquire =>
        if loc[t].todo == 0 || memory.buf[t] != [] { return; }
        var was := memory.CompareAndSwap(t, Word, 0, Taken(k));
        if was == 0 {
          loc := loc[t := Local(if k.section.Counter? then IncLoad else TestZero, loc[t].todo - 1)];
        }
      case Barrier =>
        loc := loc[t := loc[t].(pc := Free)];
      case Free =>
        if k.unlock.ByExchange? {
          if memory.buf[t] != [] { return; }
          var _ := memory.Exchange(t, Word, 0);
        } else {
          memory.Store(t, Word, 0);
        }
        loc := loc[t := loc[t].(pc := Acquire)];
    }

    /** One access of the critical section. */
    method SectionStep(t: nat)
      requires Valid() && t < |loc|
      requires var pc := loc[t].pc; !pc.Acquire? && !pc.Barrier? && !pc.Free? && !pc.Failed?
      modifies this, memory
      ensures Valid() && Conf() == TsoStep(Prog(k), old(Conf()), Run(t))
    {
      assert Prog(k).op(t, loc[t]) == OpOf(k, loc[t]);
      assert memory.buf[t := memory.buf[t]] == memory.buf;
      var leaving := if k.unlock.FencedStore? then Barrier else Free;
      var v := memory.Load(t, Shared);
      match loc[t].pc
      case IncLoad => loc := loc[t := loc[t].(pc := IncStore(v))];
      case IncStore(r) => memory.Store(t, Shared, r + 1); loc := loc[t := loc[t].(pc := Check)];
      case Check => loc := loc[t := loc[t].(pc := if v == 1 then DecLoad else Failed)];
      case DecLoad => loc := loc[t := loc[t].(pc := DecStore(v))];
      case DecStore(r) => memory.Store(t, Shared, r - 1); loc := loc[t := loc[t].(pc := leaving)];
      case TestZero => loc := loc[t := loc[t].(pc := if v == 0 then SetOne else Failed)];
      case SetOne => memory.Store(t, Shared, 1); loc := loc[t := loc[t].(pc := SetZero)];
      case SetZero => memory.Store(t, Shared, 0); loc := loc[t := loc[t].(pc := leaving)];
    }

    method Step(ch: Choice)
      requires Valid()
      modifies this, memory
      ensures Valid() && Conf() == TsoStep(Prog(k), old(Conf()), ch)
    {
      var t := ch.t;
      if t >= |loc| { return; }
      if ch.Drain? { memory.Drain(t); return; }
      var pc := loc[t].pc;
      if pc.Acquire? || pc.Barrier? || pc.Free? { LockStep(t); }
      else if !pc.Failed? { SectionStep(t); }
      else { assert Prog(k).op(t, loc[t]) == Halt; }
    }

    /** A whole run of the threads under a schedule: never two inside, no assertion failed, and each
        thread has taken the lock for each round it has begun. */
    method Execute(sched: seq<Choice>, ghost rounds: seq<nat>)
      requires Valid() && Conf() == TsoInit(Begin(rounds))
      modifies this, memory
      ensures Valid() && Conf() == TsoExec(Prog(k), old(Conf()), sched)
      ensures Safe(loc)
      ensures forall t :: 0 <= t < |rounds| ==> loc[t].todo + TsoTakes(k, rounds, sched, t) == rounds[t]
    {
      for i := 0 to |sched|
        invariant Valid() && Conf() == TsoExec(Prog(k), old(Conf()), sched[..i])
      {
        Step(sched[i]);
        assert sched[..i + 1] == sched[..i] + [sched[i]];
        TsoSnoc(Prog(k), old(Conf()), sched[..i], sched[i]);
      }
      assert sched[..|sched|] == sched;
      TsoSafe(k, rounds, sched);
      forall t | 0 <= t < |rounds| ensures loc[t].todo + TsoTakes(k, rounds, sched, t) == rounds[t] {
        TsoTakesAll(k, rounds, sched, t);
      }
    }
  }
}
