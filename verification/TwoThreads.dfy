/** PSO runs of two threads, one access at a time: where a run can lead. */
module TwoThreads {
  import opened StoreBuffer
  import opened Machine

  datatype Spot<A(==), L> = Spot(l0: L, l1: L, b0: PBuf<A>, b1: PBuf<A>, mem: Mem<A>)

  function LocAt<A(==), L>(s: Spot<A, L>, t: nat): L { if t == 0 then s.l0 else s.l1 }

  function BufAt<A(==), L>(s: Spot<A, L>, t: nat): PBuf<A> { if t == 0 then s.b0 else s.b1 }

  function Moved<A(==), L>(s: Spot<A, L>, t: nat, l: L, b: PBuf<A>): Spot<A, L> {
    if t == 0 then s.(l0 := l, b0 := b) else s.(l1 := l, b1 := b)
  }

  function Conf<A(==), L>(s: Spot<A, L>): PsoConf<A, L> {
    PsoConf(s.mem, [s.b0, s.b1], [s.l0, s.l1])
  }

  ghost predicate Leads<A(!new), L>(p: Program<A, L>, c0: PsoConf<A, L>, s: Spot<A, L>) {
    PsoWf(c0) && exists sched :: PsoExec(p, c0, sched) == Conf(s)
  }

  lemma Starts<A(!new), L>(p: Program<A, L>, s: Spot<A, L>)
    ensures Leads(p, Conf(s), s)
  {
    assert PsoExec(p, Conf(s), []) == Conf(s);
  }

  lemma Goes<A(!new), L>(p: Program<A, L>, c0: PsoConf<A, L>, s: Spot<A, L>, ch: PChoice<A>, s': Spot<A, L>)
    requires Leads(p, c0, s) && PsoStep(p, Conf(s), ch) == Conf(s')
    ensures Leads(p, c0, s')
  {
    var sched :| PsoExec(p, c0, sched) == Conf(s);
    PsoSnoc(p, c0, sched, ch);
    assert PsoExec(p, c0, sched + [ch]) == Conf(s');
  }

  lemma Runs<A(!new), L>(p: Program<A, L>, c0: PsoConf<A, L>, s: Spot<A, L>, t: nat)
    requires Leads(p, c0, s) && t < 2 && PEnabled(BufAt(s, t), p.op(t, LocAt(s, t)))
    ensures var e := PIssue(s.mem, BufAt(s, t), p.op(t, LocAt(s, t)));
      Leads(p, c0, Moved(s, t, p.after(t, LocAt(s, t), e.val), e.buf).(mem := e.mem))
  {
    var e := PIssue(s.mem, BufAt(s, t), p.op(t, LocAt(s, t)));
    var s' := Moved(s, t, p.after(t, LocAt(s, t), e.val), e.buf).(mem := e.mem);
    Goes(p, c0, s, PRun(t), s');
  }

  lemma Loads<A(!new), L>(p: Program<A, L>, c0: PsoConf<A, L>, s: Spot<A, L>, t: nat, a: A)
    requires Leads(p, c0, s) && t < 2 && p.op(t, LocAt(s, t)) == Load(a)
    ensures var v := PRead(s.mem, BufAt(s, t), a);
      Leads(p, c0, Moved(s, t, p.after(t, LocAt(s, t), v), BufAt(s, t)))
  {
    Runs(p, c0, s, t);
  }

  lemma Stores<A(!new), L>(p: Program<A, L>, c0: PsoConf<A, L>, s: Spot<A, L>, t: nat)
    requires Leads(p, c0, s) && t < 2 && IsBuffered(p.op(t, LocAt(s, t))) && p.op(t, LocAt(s, t)).ord != Release
    ensures var op := p.op(t, LocAt(s, t));
      Leads(p, c0, Moved(s, t, p.after(t, LocAt(s, t), 0), BufAt(s, t) + [Put(op.a, op.v)]))
  {
    Runs(p, c0, s, t);
  }

  lemma Lands<A(!new), L>(p: Program<A, L>, c0: PsoConf<A, L>, s: Spot<A, L>, t: nat, a: A)
    requires Leads(p, c0, s) && t < 2 && CanLand(BufAt(s, t), a)
    ensures Leads(p, c0, Moved(s, t, LocAt(s, t), Dequeue(BufAt(s, t), a)).(mem := s.mem[a := Landing(BufAt(s, t), a)]))
  {
    var s' := Moved(s, t, LocAt(s, t), Dequeue(BufAt(s, t), a)).(mem := s.mem[a := Landing(BufAt(s, t), a)]);
    Goes(p, c0, s, PDrain(t, a), s');
  }

  /** With nothing buffered an operation can act on memory at once: a store that lands right away. */
  lemma Acts<A(!new), L>(p: Program<A, L>, c0: PsoConf<A, L>, s: Spot<A, L>, t: nat)
    requires Leads(p, c0, s) && t < 2 && BufAt(s, t) == []
    requires var op := p.op(t, LocAt(s, t)); !op.Halt? && !op.StoreBarrier?
    ensures var op := p.op(t, LocAt(s, t));
      Leads(p, c0, Moved(s, t, p.after(t, LocAt(s, t), Result(s.mem, op)), []).(mem := MemAfter(s.mem, op)))
  {
    var op := p.op(t, LocAt(s, t));
    Runs(p, c0, s, t);
    if IsBuffered(op) {
      var b := PIssue(s.mem, [], op).buf;
      assert b == [Put(op.a, op.v)];
      assert Reach(b, op.a) == 0 && Dequeue(b, op.a) == [];
      Lands(p, c0, Moved(s, t, p.after(t, LocAt(s, t), 0), b), t, op.a);
    }
  }
}
