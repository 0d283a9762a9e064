/** Making stores sequentially consistent takes runs away and adds none. */
module Stronger {
  import opened StoreBuffer
  import opened Machine

  predicate StrongerOp<A(==)>(q: Op<A>, p: Op<A>) {
    q == p || (q.Store? && p.Store? && q.a == p.a && q.v == p.v && q.ord == SeqCst)
  }

  ghost predicate StrongerThan<A, L(!new)>(q: Program<A, L>, p: Program<A, L>) {
    forall t: nat, l: L :: StrongerOp(q.op(t, l), p.op(t, l)) && forall v: int :: q.after(t, l, v) == p.after(t, l, v)
  }

  lemma TsoStronger<A, L(!new)>(q: Program<A, L>, p: Program<A, L>, c: TsoConf<A, L>, ch: Choice)
    requires StrongerThan(q, p) && TsoWf(c)
    ensures TsoStep(q, c, ch) == TsoStep(p, c, ch) || TsoStep(q, c, ch) == c ||
      TsoStep(q, c, ch) == TsoStep(p, TsoStep(p, c, ch), Drain(ch.t))
  {
    var t := ch.t;
    if t < |c.loc| && ch.Run? && Enabled(c.buf[t], q.op(t, c.loc[t])) && q.op(t, c.loc[t]) != p.op(t, c.loc[t]) {
      var op, l' := p.op(t, c.loc[t]), q.after(t, c.loc[t], 0);
      var c1 := TsoStep(p, c, ch);
      assert c1 == TsoConf(c.mem, c.buf[t := [] + [Write(op.a, op.v)]], c.loc[t := l']);
      assert c1.buf[t][1..] == [] && c1.buf[t := []] == c.buf;
      assert TsoStep(q, c, ch) == TsoConf(c.mem[op.a := op.v], c.buf[t := []], c.loc[t := l']);
      assert c.buf[t := []] == c.buf;
    }
  }

  lemma {:induction false} StrongerTsoRun<A, L(!new)>(q: Program<A, L>, p: Program<A, L>, c0: TsoConf<A, L>,
      ts: seq<Choice>)
      returns (more: seq<Choice>)
    requires StrongerThan(q, p) && TsoWf(c0)
    ensures TsoExec(p, c0, more) == TsoExec(q, c0, ts)
  {
    more := [];
    if ts != [] {
      var n := |ts| - 1;
      var pre := StrongerTsoRun(q, p, c0, ts[..n]);
      var c, ch := TsoExec(p, c0, pre), ts[n];
      TsoStronger(q, p, c, ch);
      TsoSnoc(p, c0, pre, ch);
      TsoSnoc(p, c0, pre + [ch], Drain(ch.t));
      more := if TsoStep(q, c, ch) == c then pre else if TsoStep(q, c, ch) == TsoStep(p, c, ch) then pre + [ch]
        else pre + [ch] + [Drain(ch.t)];
    }
  }

  lemma PsoStronger<A, L(!new)>(q: Program<A, L>, p: Program<A, L>, c: PsoConf<A, L>, ch: PChoice<A>)
    requires StrongerThan(q, p) && PsoWf(c)
    ensures PsoStep(q, c, ch) == PsoStep(p, c, ch) || PsoStep(q, c, ch) == c ||
      exists a :: PsoStep(q, c, ch) == PsoStep(p, PsoStep(p, c, ch), PDrain(ch.t, a))
  {
    var t := ch.t;
    if t < |c.loc| && ch.PRun? && PEnabled(c.buf[t], q.op(t, c.loc[t])) && q.op(t, c.loc[t]) != p.op(t, c.loc[t]) {
      var op, l' := p.op(t, c.loc[t]), q.after(t, c.loc[t], 0);
      var c1 := PsoStep(p, c, ch);
      var b := [Put(op.a, op.v)];
      assert PIssue(c.mem, c.buf[t], op).buf == b;
      assert c1 == PsoConf(c.mem, c.buf[t := b], c.loc[t := l']);
      assert Reach(b, op.a) == 0 && Dequeue(b, op.a) == [];
      assert c1.buf[t := []] == c.buf && c.buf[t := []] == c.buf;
      assert PsoStep(p, c1, PDrain(t, op.a)) == PsoConf(c.mem[op.a := op.v], c.buf, c.loc[t := l']);
      assert PsoStep(q, c, ch) == PsoConf(c.mem[op.a := op.v], c.buf, c.loc[t := l']);
    }
  }

  lemma {:induction false} StrongerPsoRun<A, L(!new)>(q: Program<A, L>, p: Program<A, L>, c0: PsoConf<A, L>,
      ps: seq<PChoice<A>>)
      returns (more: seq<PChoice<A>>)
    requires StrongerThan(q, p) && PsoWf(c0)
    ensures PsoExec(p, c0, more) == PsoExec(q, c0, ps)
  {
    more := [];
    if ps != [] {
      var n := |ps| - 1;
      var pre := StrongerPsoRun(q, p, c0, ps[..n]);
      var c, ch := PsoExec(p, c0, pre), ps[n];
      PsoStronger(q, p, c, ch);
      PsoSnoc(p, c0, pre, ch);
      if PsoStep(q, c, ch) == c {
        more := pre;
      } else if PsoStep(q, c, ch) == PsoStep(p, c, ch) {
        more := pre + [ch];
      } else {
        var a :| PsoStep(q, c, ch) == PsoStep(p, PsoStep(p, c, ch), PDrain(ch.t, a));
        more := pre + [ch] + [PDrain(ch.t, a)];
        PsoSnoc(p, c0, pre + [ch], PDrain(ch.t, a));
      }
    }
  }
}
