/** Programs that never wedge on TSO: if every operation that does anything brings a weight of its
    thread down, and short of the end some choice always does something, every schedule that is
    fair long enough gets to the end. */
module Progress {
  import opened StoreBuffer
  import opened Machine

  function Total<A, L>(w: (L, Buf<A>) -> nat, locs: seq<L>, bufs: seq<Buf<A>>): nat
    requires |locs| == |bufs|
  {
    if locs == [] then 0
    else
      var n := |locs| - 1;
      Total(w, locs[..n], bufs[..n]) + w(locs[n], bufs[n])
  }

  function Measure<A, L>(w: (L, Buf<A>) -> nat, c: TsoConf<A, L>): nat
    requires TsoWf(c)
  {
    Total(w, c.loc, c.buf)
  }

  lemma {:induction false} TotalUpdate<A, L>(w: (L, Buf<A>) -> nat, locs: seq<L>, bufs: seq<Buf<A>>, t: nat, l: L,
      b: Buf<A>)
    requires |locs| == |bufs| && t < |locs|
    ensures Total(w, locs[t := l], bufs[t := b]) + w(locs[t], bufs[t]) == Total(w, locs, bufs) + w(l, b)
  {
    var n := |locs| - 1;
    if t == n {
      assert locs[t := l][..n] == locs[..n] && bufs[t := b][..n] == bufs[..n];
    } else {
      assert locs[t := l][..n] == locs[..n][t := l] && bufs[t := b][..n] == bufs[..n][t := b];
      TotalUpdate(w, locs[..n], bufs[..n], t, l, b);
    }
  }

  /** An operation changes nothing, as a load that spins does, or brings its thread's weight down. */
  ghost predicate RunsDescend<A(!new), L(!new)>(p: Program<A, L>, w: (L, Buf<A>) -> nat) {
    forall t: nat, l: L, m: Mem<A>, b: Buf<A> :: Enabled(b, p.op(t, l)) ==> RunDescends(p, w, t, l, m, b)
  }

  ghost predicate RunDescends<A, L>(p: Program<A, L>, w: (L, Buf<A>) -> nat, t: nat, l: L, m: Mem<A>, b: Buf<A>) {
    var e := Issue(m, b, p.op(t, l));
    var l' := p.after(t, l, e.val);
    (l' == l && e.buf == b && e.mem == m) || w(l', e.buf) < w(l, b)
  }

  ghost predicate DrainsDescend<A(!new), L(!new)>(w: (L, Buf<A>) -> nat) {
    forall l: L, b: Buf<A> :: b != [] ==> w(l, b[1..]) < w(l, b)
  }

  ghost predicate Descends<A(!new), L(!new)>(p: Program<A, L>, w: (L, Buf<A>) -> nat) {
    RunsDescend(p, w) && DrainsDescend(w)
  }

  /** A choice changes nothing or brings the measure down. */
  lemma StepDecreases<A(!new), L(!new)>(p: Program<A, L>, w: (L, Buf<A>) -> nat, c: TsoConf<A, L>, ch: Choice)
    requires TsoWf(c) && Descends(p, w)
    ensures var c' := TsoStep(p, c, ch); c' == c || Measure(w, c') < Measure(w, c)
  {
    var t := ch.t;
    if t < |c.loc| {
      var l, b := c.loc[t], c.buf[t];
      if ch.Drain? {
        if b != [] {
          TotalUpdate(w, c.loc, c.buf, t, l, b[1..]);
          assert c.loc[t := l] == c.loc;
        }
      } else if Enabled(b, p.op(t, l)) {
        assert RunDescends(p, w, t, l, c.mem, b);
        var e := Issue(c.mem, b, p.op(t, l));
        TotalUpdate(w, c.loc, c.buf, t, p.after(t, l, e.val), e.buf);
        assert c.loc[t := l] == c.loc && c.buf[t := b] == c.buf;
      }
    }
  }

  lemma {:induction false} ExecDecreases<A(!new), L(!new)>(p: Program<A, L>, w: (L, Buf<A>) -> nat, c: TsoConf<A, L>,
      sched: seq<Choice>)
    requires TsoWf(c) && Descends(p, w)
    ensures var c' := TsoExec(p, c, sched); c' == c || Measure(w, c') < Measure(w, c)
  {
    if sched != [] {
      var n := |sched| - 1;
      ExecDecreases(p, w, c, sched[..n]);
      StepDecreases(p, w, TsoExec(p, c, sched[..n]), sched[n]);
    }
  }

  /** All threads have halted and all stores have landed. */
  predicate Stopped<A(==), L>(p: Program<A, L>, c: TsoConf<A, L>)
    requires TsoWf(c)
  {
    forall t: nat :: t < |c.loc| ==> p.op(t, c.loc[t]).Halt? && c.buf[t] == []
  }

  ghost predicate Moves<A, L>(p: Program<A, L>, c: TsoConf<A, L>, ch: Choice)
    requires TsoWf(c)
  {
    ch.t < |c.loc| && TsoStep(p, c, ch) != c
  }

  ghost predicate Live<A, L>(p: Program<A, L>, c0: TsoConf<A, L>)
    requires TsoWf(c0)
  {
    forall sched :: Stopped(p, TsoExec(p, c0, sched)) || exists ch :: Moves(p, TsoExec(p, c0, sched), ch)
  }

  /** A stretch of a schedule in which every thread may run and every buffer may drain. */
  predicate Fair(n: nat, block: seq<Choice>) {
    forall t: nat :: t < n ==> Run(t) in block && Drain(t) in block
  }

  function Flatten(blocks: seq<seq<Choice>>): seq<Choice> {
    if blocks == [] then [] else Flatten(blocks[..|blocks| - 1]) + blocks[|blocks| - 1]
  }

  lemma BlockDecreases<A(!new), L(!new)>(p: Program<A, L>, w: (L, Buf<A>) -> nat, c: TsoConf<A, L>,
      block: seq<Choice>, ch: Choice)
    requires TsoWf(c) && Descends(p, w) && Moves(p, c, ch) && ch in block
    ensures Measure(w, TsoExec(p, c, block)) < Measure(w, c)
  {
    var i :| 0 <= i < |block| && block[i] == ch;
    var pre, post := block[..i], block[i + 1..];
    assert block == pre + [ch] + post;
    TsoAppend(p, c, pre + [ch], post);
    TsoSnoc(p, c, pre, ch);
    var c1 := TsoExec(p, c, pre);
    ExecDecreases(p, w, c, pre);
    StepDecreases(p, w, c1, ch);
    ExecDecreases(p, w, TsoStep(p, c1, ch), post);
  }

  lemma {:induction false} StoppedStays<A, L>(p: Program<A, L>, c: TsoConf<A, L>, sched: seq<Choice>)
    requires TsoWf(c) && Stopped(p, c)
    ensures TsoExec(p, c, sched) == c
  {
    if sched != [] {
      StoppedStays(p, c, sched[..|sched| - 1]);
    }
  }

  /** Each fair stretch uses up some of the measure, until everything has stopped. */
  lemma {:induction false} FairRunsStop<A(!new), L(!new)>(p: Program<A, L>, w: (L, Buf<A>) -> nat, c0: TsoConf<A, L>,
      blocks: seq<seq<Choice>>)
    requires TsoWf(c0) && Descends(p, w) && Live(p, c0)
    requires forall b :: b in blocks ==> Fair(|c0.loc|, b)
    ensures var c := TsoExec(p, c0, Flatten(blocks));
      Stopped(p, c) || Measure(w, c) + |blocks| <= Measure(w, c0)
  {
    if blocks != [] {
      var n := |blocks| - 1;
      var pre, last := Flatten(blocks[..n]), blocks[n];
      FairRunsStop(p, w, c0, blocks[..n]);
      TsoAppend(p, c0, pre, last);
      var c := TsoExec(p, c0, pre);
      if Stopped(p, c) {
        StoppedStays(p, c, last);
      } else {
        var ch :| Moves(p, c, ch);
        assert last in blocks && Fair(|c0.loc|, last);
        assert ch == Run(ch.t) || ch == Drain(ch.t);
        BlockDecreases(p, w, c, last, ch);
      }
    }
  }

  function Sum(xs: seq<nat>): nat {
    if xs == [] then 0 else Sum(xs[..|xs| - 1]) + xs[|xs| - 1]
  }

  /** The measure at the start, when a round weighs `k`. */
  lemma {:induction false} StartMeasure<A, L>(w: (L, Buf<A>) -> nat, locs: seq<L>, bufs: seq<Buf<A>>,
      rounds: seq<nat>, k: nat)
    requires |locs| == |bufs| == |rounds|
    requires forall t :: 0 <= t < |locs| ==> w(locs[t], bufs[t]) == k * rounds[t]
    ensures Total(w, locs, bufs) == k * Sum(rounds)
  {
    if rounds != [] {
      var n := |rounds| - 1;
      StartMeasure(w, locs[..n], bufs[..n], rounds[..n], k);
      Distributes(k, Sum(rounds[..n]), rounds[n]);
    }
  }

  lemma Distributes(k: nat, a: nat, b: nat)
    ensures k * a + k * b == k * (a + b)
  {}
}
