/** The MCS queue lock on a TSO machine, one step per shared access, for any number of threads and
    any number of lock/unlock rounds per thread. Each thread owns one node and reuses it in every
    round. The three source forms differ in the order of the two initialising stores and in what
    keeps the hand-off store behind earlier ones: a release fence (Linux), its own release order
    (DPDK), or nothing (the model-checking variant). The critical section is the counter check. */
module Mcs {
  import opened StoreBuffer
  import opened Machine

  const NULL := -1

  datatype Addr = Tail | Next(node: int) | Locked(node: int) | Cs

  datatype Style = Linux | Dpdk | Cbmc

  datatype Pc =
    | Idle                  // outside, first initialising store comes next
    | Init                  // second initialising store comes next
    | Xchg                  // exchange on the tail
    | Link(prev: int)       // prev->next = me
    | Spin(prev: int)       // while (me->locked)
    | IncLoad | IncStore(r: int)
    | Check                 // assert(cs == 1)
    | DecLoad | DecStore(r: int)
    | ReadNext              // if (!me->next)
    | CasTail               // compare-and-swap of the tail to NULL
    | AwaitNext             // while (!me->next)
    | Barrier               // __atomic_thread_fence(__ATOMIC_RELEASE)
    | ReadSucc              // me->next once more
    | HandOff(succ: int)    // next->locked = false
    | Failed                // assertion failure or NULL dereference

  /** `todo` counts the lock/unlock rounds the thread has not begun. */
  datatype Local = Local(pc: Pc, todo: nat)

  function FirstStore(style: Style, t: nat): Write<Addr> {
    if style.Dpdk? then Write(Locked(t), 1) else Write(Next(t), NULL)
  }

  function SecondStore(style: Style, t: nat): Write<Addr> {
    if style.Dpdk? then Write(Next(t), NULL) else Write(Locked(t), 1)
  }

  function InitOrder(style: Style): Order { if style.Dpdk? then Relaxed else Plain }

  function OpOf(style: Style, t: nat, l: Local): Op<Addr> {
    match l.pc
    case Idle =>
      if l.todo == 0 then Halt else Store(FirstStore(style, t).addr, FirstStore(style, t).val, InitOrder(style))
    case Init => Store(SecondStore(style, t).addr, SecondStore(style, t).val, InitOrder(style))
    case Xchg => Exchange(Tail, t)
    case Link(prev) => Store(Next(prev), t, Plain)
    case Spin(_) => Load(Locked(t))
    case IncLoad => Load(Cs)
    case IncStore(r) => Store(Cs, r + 1, Plain)
    case Check => Load(Cs)
    case DecLoad => Load(Cs)
    case DecStore(r) => Store(Cs, r - 1, Plain)
    case ReadNext => Load(Next(t))
    case CasTail => Cas(Tail, t, NULL)
    case AwaitNext => Load(Next(t))
    case Barrier => StoreBarrier
    case ReadSucc => Load(Next(t))
    case HandOff(succ) => Store(Locked(succ), 0, if style.Dpdk? then Release else Plain)
    case Failed => Halt
  }

  function HasNext(style: Style): Pc { if style.Linux? then Barrier else ReadSucc }

  function AfterOp(style: Style, t: nat, l: Local, v: int): Local {
    match l.pc
    case Idle => Local(Init, if l.todo == 0 then 0 else l.todo - 1)
    case Init => l.(pc := Xchg)
    case Xchg => l.(pc := if v == NULL then IncLoad else Link(v))
    case Link(prev) => l.(pc := Spin(prev))
    case Spin(_) => if v == 0 then l.(pc := IncLoad) else l
    case IncLoad => l.(pc := IncStore(v))
    case IncStore(_) => l.(pc := Check)
    case Check => l.(pc := if v == 1 then DecLoad else Failed)
    case DecLoad => l.(pc := DecStore(v))
    case DecStore(_) => l.(pc := ReadNext)
    case ReadNext => l.(pc := if v == NULL then CasTail else HasNext(style))
    case CasTail => l.(pc := if v == t then Idle else AwaitNext)
    case AwaitNext => if v == NULL then l else l.(pc := HasNext(style))
    case Barrier => l.(pc := ReadSucc)
    case ReadSucc => l.(pc := if v == NULL then Failed else HandOff(v))
    case HandOff(_) => l.(pc := Idle)
    case Failed => l
  }

  function Prog(style: Style): Program<Addr, Local> {
    Program((t: nat, l: Local) => OpOf(style, t, l), (t: nat, l: Local, v: int) => AfterOp(style, t, l, v))
  }

  /** A hand-off store still buffered: whose buffer it is in, and at which position. */
  datatype Grant = NoGrant | Grant(giver: nat, at: nat)

  /** A configuration and its history: all exchanges on the tail so far, how many of those threads
      have released the lock again, each thread's place among the exchanges, the hand-off in flight.
      `arrivals[served..]` is the queue. */
  datatype State = State(
    c: TsoConf<Addr, Local>,
    arrivals: seq<nat>,
    served: nat,
    ticket: seq<nat>,
    grant: Grant)

  function Start(mem: Mem<Addr>, rounds: seq<nat>): State {
    State(TsoConf(mem, seq(|rounds|, _ => []), seq(|rounds|, i requires 0 <= i < |rounds| => Local(Idle, rounds[i]))),
          [], 0, seq(|rounds|, _ => 0), NoGrant)
  }

  predicate Wf(s: State) {
    TsoWf(s.c) && |s.ticket| == |s.c.loc|
  }

  function AfterDrain(s: State, t: nat): State
    requires t < |s.c.buf|
  {
    var b := s.c.buf[t];
    if b == [] then s
    else
      var g := if s.grant != NoGrant && s.grant.giver == t
        then if s.grant.at == 0 then NoGrant else Grant(t, s.grant.at - 1)
        else s.grant;
      s.(c := TsoDrain(s.c, t), grant := g)
  }

  function AfterRun(style: Style, s: State, t: nat): State
    requires Wf(s) && t < |s.c.loc|
  {
    var l := s.c.loc[t];
    var op := OpOf(style, t, l);
    if !Enabled(s.c.buf[t], op) then s
    else
      var e := Issue(s.c.mem, s.c.buf[t], op);
      var s' := s.(c := TsoConf(e.mem, s.c.buf[t := e.buf], s.c.loc[t := AfterOp(style, t, l, e.val)]));
      match l.pc
      case Xchg => s'.(arrivals := s.arrivals + [t], ticket := s.ticket[t := |s.arrivals|])
      case CasTail => if e.val == t then s'.(served := s.served + 1) else s'
      case HandOff(_) => s'.(served := s.served + 1, grant := Grant(t, |s.c.buf[t]|))
      case _ => s'
  }

  function Step(style: Style, s: State, ch: Choice): (s': State)
    requires Wf(s)
    ensures Wf(s') && |s'.c.loc| == |s.c.loc|
  {
    if ch.t >= |s.c.loc| then s
    else
      match ch
      case Drain(t) => AfterDrain(s, t)
      case Run(t) => AfterRun(style, s, t)
  }

  function Exec(style: Style, s: State, sched: seq<Choice>): (s': State)
    requires Wf(s)
    ensures Wf(s') && |s'.c.loc| == |s.c.loc|
  {
    if sched == [] then s
    else Step(style, Exec(style, s, sched[..|sched| - 1]), sched[|sched| - 1])
  }

  /** The history variables only observe: the configurations are those of the TSO machine. */
  lemma StepIsTso(style: Style, s: State, ch: Choice)
    requires Wf(s)
    ensures Step(style, s, ch).c == TsoStep(Prog(style), s.c, ch)
  {}

  lemma {:induction false} ExecIsTso(style: Style, s: State, sched: seq<Choice>)
    requires Wf(s)
    ensures Exec(style, s, sched).c == TsoExec(Prog(style), s.c, sched)
  {
    if sched != [] {
      var n := |sched| - 1;
      ExecIsTso(style, s, sched[..n]);
      StepIsTso(style, Exec(style, s, sched[..n]), sched[n]);
    }
  }
}
