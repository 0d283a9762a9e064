/** For every program each SC run is matched by a TSO run and each TSO run by a PSO run in which
    all threads go through the same local states, hence read the same values. */
module Inclusion {
  import opened StoreBuffer
  import opened Machine

  /** The values buffered for one address, oldest first. */
  function Values<A(==)>(b: Buf<A>, a: A): seq<int> {
    if b == [] then []
    else
      var pre, w := b[..|b| - 1], b[|b| - 1];
      if w.addr == a then Values(pre, a) + [w.val] else Values(pre, a)
  }

  /** The stores of a PSO buffer without the barriers between them. */
  function Erase<A>(b: PBuf<A>): Buf<A> {
    if b == [] then []
    else
      var pre, w := b[..|b| - 1], b[|b| - 1];
      if w.Put? then Erase(pre) + [Write(w.addr, w.val)] else Erase(pre)
  }

  /** The per-address FIFOs of a PSO buffer are the TSO buffer filtered by address. */
  lemma {:induction false} QueueIsFiltered<A>(b: PBuf<A>, a: A)
    ensures Queue(b, a) == Values(Erase(b), a)
  {
    if b != [] {
      var n := |b| - 1;
      QueueIsFiltered(b[..n], a);
      if b[n].Put? {
        assert Erase(b)[..|Erase(b)| - 1] == Erase(b[..n]);
      }
    }
  }

  lemma {:induction false} ReadTogether<A>(m: Mem<A>, b: PBuf<A>, a: A)
    ensures PRead(m, b, a) == Read(m, Erase(b), a)
  {
    if b != [] {
      var n := |b| - 1;
      ReadTogether(m, b[..n], a);
      if b[n].Put? {
        ReadAppend(m, Erase(b[..n]), Write(b[n].addr, b[n].val), a);
      }
    }
  }

  lemma {:induction false} EraseOfTail<A>(b: PBuf<A>)
    requires b != []
    ensures Erase(b) == (if b[0].Put? then [Write(b[0].addr, b[0].val)] else []) + Erase(b[1..])
  {
    var n := |b| - 1;
    if n == 0 {
      assert b[..0] == [] && b[1..] == [] && Erase(b[..0]) == [];
    } else {
      EraseOfTail(b[..n]);
      assert b[1..][..n - 1] == b[..n][1..];
    }
  }

  lemma EraseOfAppend<A>(b: PBuf<A>, w: Entry<A>)
    ensures Erase(b + [w]) == Erase(b) + if w.Put? then [Write(w.addr, w.val)] else []
  {
    assert (b + [w])[..|b|] == b;
  }

  /** A PSO buffer without its oldest store and the barrier behind that. */
  function Rest<A(==)>(b: PBuf<A>): PBuf<A>
    requires b != []
  {
    Unwalled(b[1..])
  }

  /** A barrier has a store right in front of it. */
  predicate Tidy<A(==)>(b: PBuf<A>) {
    b == [] || (b[0].Put? && Tidy(Rest(b)))
  }

  lemma EmptyTogether<A>(b: PBuf<A>)
    requires Tidy(b)
    ensures b == [] <==> Erase(b) == []
  {
    if b != [] {
      EraseOfRest(b);
    }
  }

  /** The TSO configuration `c` and the PSO configuration `d` differ by the barriers in the buffers. */
  ghost predicate Sim<A, L>(c: TsoConf<A, L>, d: PsoConf<A, L>) {
    && TsoWf(c) && PsoWf(d)
    && c.mem == d.mem && c.loc == d.loc
    && (forall t :: 0 <= t < |c.loc| ==> Erase(d.buf[t]) == c.buf[t] && Tidy(d.buf[t]))
  }

  /** The oldest store of a PSO buffer may land, and then the TSO buffer loses its oldest. */
  lemma OldestLands<A>(b: PBuf<A>)
    requires b != [] && b[0].Put?
    ensures CanLand(b, b[0].addr) && Landing(b, b[0].addr) == b[0].val && Dequeue(b, b[0].addr) == Rest(b)
  {
    assert Reach(b, b[0].addr) == 0;
    assert b[..0] + b[1..] == b[1..];
  }

  lemma EraseOfRest<A>(b: PBuf<A>)
    requires b != [] && b[0].Put?
    ensures Erase(b) == [Write(b[0].addr, b[0].val)] + Erase(Rest(b))
  {
    EraseOfTail(b);
    if b[1..] != [] { EraseOfTail(b[1..]); }
  }

  lemma {:induction false} TidyAppend<A>(b: PBuf<A>, w: Entry<A>)
    requires Tidy(b) && (w.Put? || (b != [] && b[|b| - 1].Put?))
    ensures Tidy(b + [w])
  {
    if b != [] {
      assert (b + [w])[1..] == b[1..] + [w];
      if |b| == 1 {
        assert b[1..] + [w] == [w] && [w][1..] == [];
      } else {
        assert Rest(b + [w]) == Rest(b) + [w];
        assert Rest(b) != [] ==> Rest(b)[|Rest(b)| - 1] == b[|b| - 1];
        TidyAppend(Rest(b), w);
      }
    }
  }

  lemma WalledTogether<A>(b: PBuf<A>)
    requires Tidy(b)
    ensures Tidy(Walled(b)) && Erase(Walled(b)) == Erase(b)
  {
    EraseOfAppend(b, Wall);
    if b != [] && b[|b| - 1].Put? { TidyAppend(b, Wall); }
  }

  lemma StoredTogether<A>(b: PBuf<A>, a: A, v: int)
    requires Tidy(b)
    ensures Tidy(Enqueue(b, a, v)) && Erase(Enqueue(b, a, v)) == Erase(b) + [Write(a, v)]
  {
    EraseOfAppend(b, Put(a, v));
    TidyAppend(b, Put(a, v));
  }

  lemma IssuedTogether<A>(m: Mem<A>, b: PBuf<A>, op: Op<A>)
    requires Tidy(b) && PEnabled(b, op)
    ensures var e, f := Issue(m, Erase(b), op), PIssue(m, b, op);
      Enabled(Erase(b), op) && e.mem == f.mem && e.val == f.val && e.buf == Erase(f.buf) && Tidy(f.buf)
  {
    EmptyTogether(b);
    if op.Load? {
      ReadTogether(m, b, op.a);
    } else {
      WalledTogether(b);
      if IsBuffered(op) { StoredTogether(if op.ord == Release then Walled(b) else b, op.a, op.v); }
    }
  }

  /** One TSO choice as one PSO choice: a drain names the address of the store that lands. */
  function PChoiceOf<A(==), L>(c: TsoConf<A, L>, ch: Choice): PChoice<A>
    requires TsoWf(c)
  {
    match ch
    case Run(t) => PRun(t)
    case Drain(t) => if t < |c.loc| && c.buf[t] != [] then PDrain(t, c.buf[t][0].addr) else PRun(|c.loc|)
  }

  lemma RunsTogether<A, L>(p: Program<A, L>, c: TsoConf<A, L>, d: PsoConf<A, L>, t: nat)
    requires Sim(c, d)
    ensures Sim(TsoStep(p, c, Run(t)), PsoStep(p, d, PRun(t)))
  {
    if t < |c.loc| {
      var op := p.op(t, c.loc[t]);
      EmptyTogether(d.buf[t]);
      if PEnabled(d.buf[t], op) { IssuedTogether(d.mem, d.buf[t], op); }
    }
  }

  lemma StepTogether<A, L>(p: Program<A, L>, c: TsoConf<A, L>, d: PsoConf<A, L>, ch: Choice)
    requires Sim(c, d)
    ensures Sim(TsoStep(p, c, ch), PsoStep(p, d, PChoiceOf(c, ch)))
  {
    var t := ch.t;
    if ch.Run? {
      RunsTogether(p, c, d, t);
    } else if t < |c.loc| {
      EmptyTogether(d.buf[t]);
      if d.buf[t] != [] {
        OldestLands(d.buf[t]);
        EraseOfRest(d.buf[t]);
      }
    }
  }

  function PSchedule<A(==), L>(p: Program<A, L>, c: TsoConf<A, L>, sched: seq<Choice>): seq<PChoice<A>>
    requires TsoWf(c)
  {
    if sched == [] then []
    else
      var n := |sched| - 1;
      PSchedule(p, c, sched[..n]) + [PChoiceOf(TsoExec(p, c, sched[..n]), sched[n])]
  }

  lemma {:induction false} RunTogether<A, L>(p: Program<A, L>, c0: ScConf<A, L>, sched: seq<Choice>)
    ensures var ps := PSchedule(p, TsoInit(c0), sched);
      Sim(TsoExec(p, TsoInit(c0), sched), PsoExec(p, PsoInit(c0), ps))
  {
    if sched != [] {
      var n := |sched| - 1;
      RunTogether(p, c0, sched[..n]);
      var ps := PSchedule(p, TsoInit(c0), sched[..n]);
      var c := TsoExec(p, TsoInit(c0), sched[..n]);
      StepTogether(p, c, PsoExec(p, PsoInit(c0), ps), sched[n]);
      assert (ps + [PChoiceOf(c, sched[n])])[..|ps|] == ps;
    }
  }

  lemma TsoRunIsPsoRun<A, L>(p: Program<A, L>, c0: ScConf<A, L>, sched: seq<Choice>)
    ensures exists ps :: PsoExec(p, PsoInit(c0), ps).loc == TsoExec(p, TsoInit(c0), sched).loc
  {
    RunTogether(p, c0, sched);
  }

  /** On TSO a thread can act at once on memory by draining each store as soon as it is issued. */
  function Eager<A(==), L>(p: Program<A, L>, c: ScConf<A, L>, sched: seq<nat>): seq<Choice> {
    if sched == [] then []
    else
      var n := |sched| - 1;
      Eager(p, c, sched[..n]) + [Run(sched[n]), Drain(sched[n])]
  }

  lemma EagerStep<A, L>(p: Program<A, L>, c: ScConf<A, L>, t: nat)
    ensures TsoStep(p, TsoStep(p, TsoInit(c), Run(t)), Drain(t)) == TsoInit(ScStep(p, c, t))
  {
    var d := TsoInit(c);
    if t < |c.loc| && !p.op(t, c.loc[t]).Halt? {
      var op := p.op(t, c.loc[t]);
      assert d.buf[t] == [] && Enabled(d.buf[t], op);
      var c1 := TsoStep(p, d, Run(t));
      var d' := TsoStep(p, c1, Drain(t));
      if IsBuffered(op) {
        assert c1.buf[t] == [Write(op.a, op.v)];
      } else {
        assert c1.buf[t] == [];
      }
      assert d'.buf[t] == [];
      assert d'.buf == TsoInit(ScStep(p, c, t)).buf;
    }
  }

  lemma {:induction false} EagerRun<A, L>(p: Program<A, L>, c0: ScConf<A, L>, sched: seq<nat>)
    ensures TsoExec(p, TsoInit(c0), Eager(p, c0, sched)) == TsoInit(ScExec(p, c0, sched))
  {
    if sched != [] {
      var n := |sched| - 1;
      EagerRun(p, c0, sched[..n]);
      var es, t := Eager(p, c0, sched[..n]), sched[n];
      var all := es + [Run(t), Drain(t)];
      assert all[..|all| - 1] == es + [Run(t)];
      assert (es + [Run(t)])[..|es|] == es;
      EagerStep(p, ScExec(p, c0, sched[..n]), t);
    }
  }

  lemma ScRunIsTsoRun<A, L>(p: Program<A, L>, c0: ScConf<A, L>, sched: seq<nat>)
    ensures exists ts :: TsoExec(p, TsoInit(c0), ts).loc == ScExec(p, c0, sched).loc
  {
    EagerRun(p, c0, sched);
  }
}
