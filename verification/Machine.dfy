/** Arbitrary multi-threaded programs on three machines. A machine is deterministic once a
    schedule is fixed; a choice that is not enabled leaves the configuration alone, so "every run"
    is "every schedule". */
module Machine {
  import opened StoreBuffer

  /** A program: what each thread does next in a local state, and the local state it moves to when
      the operation returns a value. A thread that makes internal choices is the union of the
      deterministic threads that resolve them. */
  datatype Program<!A(==), !L> = Program(op: (nat, L) -> Op<A>, after: (nat, L, int) -> L)

  // Sequential consistency: every operation acts on memory at once.

  datatype ScConf<A(==), L> = ScConf(mem: Mem<A>, loc: seq<L>)

  function ScStep<A(==), L>(p: Program<A, L>, c: ScConf<A, L>, t: nat): ScConf<A, L> {
    if t >= |c.loc| then c
    else
      var op := p.op(t, c.loc[t]);
      if op.Halt? then c
      else ScConf(MemAfter(c.mem, op), c.loc[t := p.after(t, c.loc[t], Result(c.mem, op))])
  }

  function ScExec<A(==), L>(p: Program<A, L>, c: ScConf<A, L>, sched: seq<nat>): ScConf<A, L> {
    if sched == [] then c
    else ScStep(p, ScExec(p, c, sched[..|sched| - 1]), sched[|sched| - 1])
  }

  // Total store order: one FIFO buffer per thread.

  datatype Choice = Run(t: nat) | Drain(t: nat)

  datatype TsoConf<A(==), L> = TsoConf(mem: Mem<A>, buf: seq<Buf<A>>, loc: seq<L>)

  predicate TsoWf<A(==), L>(c: TsoConf<A, L>) {
    |c.buf| == |c.loc|
  }

  function TsoDrain<A(==), L>(c: TsoConf<A, L>, t: nat): TsoConf<A, L>
    requires t < |c.buf|
  {
    var b := c.buf[t];
    if b == [] then c
    else c.(mem := c.mem[b[0].addr := b[0].val], buf := c.buf[t := b[1..]])
  }

  function TsoStep<A(==), L>(p: Program<A, L>, c: TsoConf<A, L>, ch: Choice): (c': TsoConf<A, L>)
    requires TsoWf(c)
    ensures TsoWf(c') && |c'.loc| == |c.loc|
  {
    if ch.t >= |c.loc| then c
    else
      match ch
      case Drain(t) => TsoDrain(c, t)
      case Run(t) =>
        var op := p.op(t, c.loc[t]);
        if !Enabled(c.buf[t], op) then c
        else
          var e := Issue(c.mem, c.buf[t], op);
          TsoConf(e.mem, c.buf[t := e.buf], c.loc[t := p.after(t, c.loc[t], e.val)])
  }

  function TsoExec<A(==), L>(p: Program<A, L>, c: TsoConf<A, L>, sched: seq<Choice>): (c': TsoConf<A, L>)
    requires TsoWf(c)
    ensures TsoWf(c') && |c'.loc| == |c.loc|
  {
    if sched == [] then c
    else TsoStep(p, TsoExec(p, c, sched[..|sched| - 1]), sched[|sched| - 1])
  }

  // Partial store order: one FIFO per thread and address between the thread's store barriers.

  datatype PChoice<A> = PRun(t: nat) | PDrain(t: nat, a: A)

  datatype PsoConf<A(==), L> = PsoConf(mem: Mem<A>, buf: seq<PBuf<A>>, loc: seq<L>)

  predicate PsoWf<A(==), L>(c: PsoConf<A, L>) {
    |c.buf| == |c.loc|
  }

  function PsoDrain<A(==), L>(c: PsoConf<A, L>, t: nat, a: A): PsoConf<A, L>
    requires t < |c.buf|
  {
    var b := c.buf[t];
    if !CanLand(b, a) then c
    else c.(mem := c.mem[a := Landing(b, a)], buf := c.buf[t := Dequeue(b, a)])
  }

  function PsoStep<A(==), L>(p: Program<A, L>, c: PsoConf<A, L>, ch: PChoice<A>): (c': PsoConf<A, L>)
    requires PsoWf(c)
    ensures PsoWf(c') && |c'.loc| == |c.loc|
  {
    if ch.t >= |c.loc| then c
    else
      match ch
      case PDrain(t, a) => PsoDrain(c, t, a)
      case PRun(t) =>
        var op := p.op(t, c.loc[t]);
        if !PEnabled(c.buf[t], op) then c
        else
          var e := PIssue(c.mem, c.buf[t], op);
          PsoConf(e.mem, c.buf[t := e.buf], c.loc[t := p.after(t, c.loc[t], e.val)])
  }

  function PsoExec<A(==), L>(p: Program<A, L>, c: PsoConf<A, L>, sched: seq<PChoice<A>>): (c': PsoConf<A, L>)
    requires PsoWf(c)
    ensures PsoWf(c') && |c'.loc| == |c.loc|
  {
    if sched == [] then c
    else PsoStep(p, PsoExec(p, c, sched[..|sched| - 1]), sched[|sched| - 1])
  }

  /** The three machines started alike: same memory, same local states, nothing buffered. */
  function TsoInit<A(==), L>(c: ScConf<A, L>): (r: TsoConf<A, L>)
    ensures TsoWf(r)
  {
    TsoConf(c.mem, seq(|c.loc|, _ => []), c.loc)
  }

  function PsoInit<A(==), L>(c: ScConf<A, L>): (r: PsoConf<A, L>)
    ensures PsoWf(r)
  {
    PsoConf(c.mem, seq(|c.loc|, _ => []), c.loc)
  }

  lemma TsoSnoc<A, L>(p: Program<A, L>, c: TsoConf<A, L>, sched: seq<Choice>, ch: Choice)
    requires TsoWf(c)
    ensures TsoExec(p, c, sched + [ch]) == TsoStep(p, TsoExec(p, c, sched), ch)
  {}

  lemma {:induction false} TsoAppend<A, L>(p: Program<A, L>, c: TsoConf<A, L>, a: seq<Choice>, b: seq<Choice>)
    requires TsoWf(c)
    ensures TsoExec(p, c, a + b) == TsoExec(p, TsoExec(p, c, a), b)
  {
    if b == [] {
      assert a + b == a;
    } else {
      var n := |b| - 1;
      assert (a + b)[..|a| + n] == a + b[..n];
      TsoAppend(p, c, a, b[..n]);
    }
  }

  lemma PsoSnoc<A, L>(p: Program<A, L>, c: PsoConf<A, L>, sched: seq<PChoice<A>>, ch: PChoice<A>)
    requires PsoWf(c)
    ensures PsoExec(p, c, sched + [ch]) == PsoStep(p, PsoExec(p, c, sched), ch)
  {}
}
