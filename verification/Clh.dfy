/** The CLH queue lock on a TSO machine, one step per shared access, for any number of threads and
    acquisitions. Every acquisition has a fresh node that stays allocated: `node(t, i)` is the
    address malloc returns for acquisition `i` of thread `t`. The order of the two stores to
    `locked` is a parameter: seq_cst in the lock itself, plain in its model-checking variant. The
    critical section is the counter check. */
module Clh {
  import opened StoreBuffer
  import opened Machine

  datatype Addr = Tail | Locked(node: int) | Cs

  datatype Pc =
    | Idle                  // my_node->locked = true comes next
    | Xchg                  // exchange on the tail
    | Spin(pred: int)       // while (pred->locked)
    | IncLoad | IncStore(r: int)
    | Check                 // assert(cs == 1)
    | DecLoad | DecStore(r: int)
    | Unlock                // my_node->locked = false
    | Failed

  /** `round` numbers the thread's acquisitions, `todo` counts those not begun. */
  datatype Local = Local(pc: Pc, round: nat, todo: nat)

  datatype Heap = Heap(node: (nat, nat) -> int, dummy: int, ord: Order)

  /** malloc never hands out an address that is still in use. */
  ghost predicate Fresh(h: Heap) {
    && (forall t: nat, i: nat :: h.node(t, i) != h.dummy)
    && (forall t: nat, i: nat, u: nat, j: nat :: h.node(t, i) == h.node(u, j) ==> t == u && i == j)
  }

  function Mine(h: Heap, t: nat, l: Local): int {
    h.node(t, l.round)
  }

  function OpOf(h: Heap, t: nat, l: Local): Op<Addr> {
    match l.pc
    case Idle => if l.todo == 0 then Halt else Store(Locked(Mine(h, t, l)), 1, h.ord)
    case Xchg => Exchange(Tail, Mine(h, t, l))
    case Spin(pred) => Load(Locked(pred))
    case IncLoad => Load(Cs)
    case IncStore(r) => Store(Cs, r + 1, Plain)
    case Check => Load(Cs)
    case DecLoad => Load(Cs)
    case DecStore(r) => Store(Cs, r - 1, Plain)
    case Unlock => Store(Locked(Mine(h, t, l)), 0, h.ord)
    case Failed => Halt
  }

  function AfterOp(l: Local, v: int): Local {
    match l.pc
    case Idle => l.(pc := Xchg, todo := if l.todo == 0 then 0 else l.todo - 1)
    case Xchg => l.(pc := Spin(v))
    case Spin(_) => if v == 0 then l.(pc := IncLoad) else l
    case IncLoad => l.(pc := IncStore(v))
    case IncStore(_) => l.(pc := Check)
    case Check => l.(pc := if v == 1 then DecLoad else Failed)
    case DecLoad => l.(pc := DecStore(v))
    case DecStore(_) => l.(pc := Unlock)
    case Unlock => l.(pc := Idle, round := l.round + 1)
    case Failed => l
  }

  function Prog(h: Heap): Program<Addr, Local> {
    Program((t: nat, l: Local) => OpOf(h, t, l), (t: nat, l: Local, v: int) => AfterOp(l, v))
  }

  /** One acquisition: which thread, and which of its nodes. */
  datatype Visit = Visit(t: nat, round: nat)

  /** An unlocking store still buffered: whose it is and its position in that buffer. */
  datatype Grant = NoGrant | Grant(giver: nat, at: nat)

  /** A configuration and its history: all acquisitions in exchange order, how many of them have
      issued their unlocking store, each thread's place, the unlocking store in flight. */
  datatype State = State(
    c: TsoConf<Addr, Local>,
    visits: seq<Visit>,
    served: nat,
    ticket: seq<nat>,
    grant: Grant)

  function Start(mem: Mem<Addr>, rounds: seq<nat>): State {
    var locs := seq(|rounds|, i requires 0 <= i < |rounds| => Local(Idle, 0, rounds[i]));
    State(TsoConf(mem, seq(|rounds|, _ => []), locs), [], 0, seq(|rounds|, _ => 0), NoGrant)
  }

  predicate Wf(s: State) {
    TsoWf(s.c) && |s.ticket| == |s.c.loc|
  }

  function AfterDrain(s: State, t: nat): State
    requires t < |s.c.buf|
  {
    if s.c.buf[t] == [] then s
    else
      var g := if s.grant != NoGrant && s.grant.giver == t
        then if s.grant.at == 0 then NoGrant else Grant(t, s.grant.at - 1)
        else s.grant;
      s.(c := TsoDrain(s.c, t), grant := g)
  }

  function AfterRun(h: Heap, s: State, t: nat): State
    requires Wf(s) && t < |s.c.loc|
  {
    var l := s.c.loc[t];
    var op := OpOf(h, t, l);
    if !Enabled(s.c.buf[t], op) then s
    else
      var e := Issue(s.c.mem, s.c.buf[t], op);
      var s' := s.(c := TsoConf(e.mem, s.c.buf[t := e.buf], s.c.loc[t := AfterOp(l, e.val)]));
      match l.pc
      case Xchg => s'.(visits := s.visits + [Visit(t, l.round)], ticket := s.ticket[t := |s.visits|])
      case Unlock => s'.(served := s.served + 1, grant := if h.ord == SeqCst then NoGrant else Grant(t, |s.c.buf[t]|))
      case _ => s'
  }

  function Step(h: Heap, s: State, ch: Choice): (s': State)
    requires Wf(s)
    ensures Wf(s') && |s'.c.loc| == |s.c.loc|
  {
    if ch.t >= |s.c.loc| then s
    else
      match ch
      case Drain(t) => AfterDrain(s, t)
      case Run(t) => AfterRun(h, s, t)
  }

  function Exec(h: Heap, s: State, sched: seq<Choice>): (s': State)
    requires Wf(s)
    ensures Wf(s') && |s'.c.loc| == |s.c.loc|
  {
    if sched == [] then s
    else Step(h, Exec(h, s, sched[..|sched| - 1]), sched[|sched| - 1])
  }

  /** The history variables only observe: the configurations are those of the TSO machine. */
  lemma StepIsTso(h: Heap, s: State, ch: Choice)
    requires Wf(s)
    ensures Step(h, s, ch).c == TsoStep(Prog(h), s.c, ch)
  {}

  lemma {:induction false} ExecIsTso(h: Heap, s: State, sched: seq<Choice>)
    requires Wf(s)
    ensures Exec(h, s, sched).c == TsoExec(Prog(h), s.c, sched)
  {
    if sched != [] {
      var n := |sched| - 1;
      ExecIsTso(h, s, sched[..n]);
      StepIsTso(h, Exec(h, s, sched[..n]), sched[n]);
    }
  }
}
