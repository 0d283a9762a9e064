/** The values every thread reads, made part of what runs are compared by: a program that logs
    them runs as the program itself does, so the comparisons of machines extend to the logs. */
module Reads {
  import opened StoreBuffer
  import opened Machine
  import opened Inclusion
  import opened Fenced

  datatype Logging<L> = Logging(l: L, log: seq<int>)

  /** The same program, each thread keeping the values its operations returned. */
  function Logged<A(==), L>(p: Program<A, L>): Program<A, Logging<L>> {
    Program((t: nat, x: Logging<L>) => p.op(t, x.l),
            (t: nat, x: Logging<L>, v: int) => Logging(p.after(t, x.l, v), x.log + [v]))
  }

  function Start<A(==), L>(c: ScConf<A, L>): ScConf<A, Logging<L>> {
    ScConf(c.mem, seq(|c.loc|, i requires 0 <= i < |c.loc| => Logging(c.loc[i], [])))
  }

  function Bare<L>(xs: seq<Logging<L>>): seq<L> {
    seq(|xs|, i requires 0 <= i < |xs| => xs[i].l)
  }

  function Logs<L>(xs: seq<Logging<L>>): seq<seq<int>> {
    seq(|xs|, i requires 0 <= i < |xs| => xs[i].log)
  }

  function ScReads<A(==), L>(p: Program<A, L>, c0: ScConf<A, L>, sched: seq<nat>): seq<seq<int>> {
    Logs(ScExec(Logged(p), Start(c0), sched).loc)
  }

  function TsoReads<A(==), L>(p: Program<A, L>, c0: ScConf<A, L>, sched: seq<Choice>): seq<seq<int>> {
    Logs(TsoExec(Logged(p), TsoInit(Start(c0)), sched).loc)
  }

  function PsoReads<A(==), L>(p: Program<A, L>, c0: ScConf<A, L>, sched: seq<PChoice<A>>): seq<seq<int>> {
    Logs(PsoExec(Logged(p), PsoInit(Start(c0)), sched).loc)
  }

  // Logging does not disturb a run.

  lemma {:induction false} ScErase<A, L>(p: Program<A, L>, c0: ScConf<A, L>, sched: seq<nat>)
    ensures var c, d := ScExec(p, c0, sched), ScExec(Logged(p), Start(c0), sched);
      d.mem == c.mem && |d.loc| == |c.loc| && Bare(d.loc) == c.loc
  {
    if sched != [] {
      var n := |sched| - 1;
      ScErase(p, c0, sched[..n]);
      var c, d := ScExec(p, c0, sched[..n]), ScExec(Logged(p), Start(c0), sched[..n]);
      var t := sched[n];
      if t < |c.loc| { assert Bare(d.loc)[t] == d.loc[t].l; }
    }
  }

  lemma {:induction false} TsoErase<A, L>(p: Program<A, L>, c0: ScConf<A, L>, sched: seq<Choice>)
    ensures var c, d := TsoExec(p, TsoInit(c0), sched), TsoExec(Logged(p), TsoInit(Start(c0)), sched);
      d.mem == c.mem && d.buf == c.buf && Bare(d.loc) == c.loc
  {
    if sched == [] {
      assert TsoInit(Start(c0)).buf == TsoInit(c0).buf;
    } else {
      var n := |sched| - 1;
      TsoErase(p, c0, sched[..n]);
      var c, d := TsoExec(p, TsoInit(c0), sched[..n]), TsoExec(Logged(p), TsoInit(Start(c0)), sched[..n]);
      var t := sched[n].t;
      if t < |c.loc| { assert Bare(d.loc)[t] == d.loc[t].l; }
    }
  }

  lemma {:induction false} PsoErase<A, L>(p: Program<A, L>, c0: ScConf<A, L>, sched: seq<PChoice<A>>)
    ensures var c, d := PsoExec(p, PsoInit(c0), sched), PsoExec(Logged(p), PsoInit(Start(c0)), sched);
      d.mem == c.mem && d.buf == c.buf && Bare(d.loc) == c.loc
  {
    if sched == [] {
      assert PsoInit(Start(c0)).buf == PsoInit(c0).buf;
    } else {
      var n := |sched| - 1;
      PsoErase(p, c0, sched[..n]);
      var c, d := PsoExec(p, PsoInit(c0), sched[..n]), PsoExec(Logged(p), PsoInit(Start(c0)), sched[..n]);
      var t := sched[n].t;
      if t < |c.loc| { assert Bare(d.loc)[t] == d.loc[t].l; }
    }
  }

  // What the logs hold: the values the operations return, thread by thread, in order.

  lemma ReadsStart<A, L>(p: Program<A, L>, c0: ScConf<A, L>)
    ensures |ScReads(p, c0, [])| == |TsoReads(p, c0, [])| == |PsoReads(p, c0, [])| == |c0.loc|
    ensures forall t :: 0 <= t < |c0.loc| ==>
      ScReads(p, c0, [])[t] == [] && TsoReads(p, c0, [])[t] == [] && PsoReads(p, c0, [])[t] == []
  {}

  function Extended(logs: seq<seq<int>>, t: nat, v: int): seq<seq<int>>
    requires t < |logs|
  {
    logs[t := logs[t] + [v]]
  }

  lemma LogsUpdate<L>(xs: seq<Logging<L>>, t: nat, l: L, v: int)
    requires t < |xs|
    ensures Logs(xs[t := Logging(l, xs[t].log + [v])]) == Extended(Logs(xs), t, v)
  {
    var ys := xs[t := Logging(l, xs[t].log + [v])];
    forall u | 0 <= u < |xs| ensures Logs(ys)[u] == Extended(Logs(xs), t, v)[u] {}
  }

  /** An SC step adds what its operation returned to the reads of its thread, and nothing else. */
  lemma ScReadsStep<A, L>(p: Program<A, L>, c0: ScConf<A, L>, sched: seq<nat>, t: nat)
    ensures var c, logs := ScExec(p, c0, sched), ScReads(p, c0, sched);
      && |logs| == |c.loc|
      && ScReads(p, c0, sched + [t]) ==
           if t < |c.loc| && !p.op(t, c.loc[t]).Halt? then Extended(logs, t, Result(c.mem, p.op(t, c.loc[t]))) else logs
  {
    ScErase(p, c0, sched);
    var c, d := ScExec(p, c0, sched), ScExec(Logged(p), Start(c0), sched);
    assert (sched + [t])[..|sched|] == sched;
    if t < |c.loc| {
      assert Bare(d.loc)[t] == d.loc[t].l;
      var op := p.op(t, c.loc[t]);
      if !op.Halt? { LogsUpdate(d.loc, t, p.after(t, c.loc[t], Result(c.mem, op)), Result(c.mem, op)); }
    }
  }

  /** On TSO so does a run choice whose operation is enabled; landing stores are no reads. */
  lemma TsoReadsStep<A, L>(p: Program<A, L>, c0: ScConf<A, L>, sched: seq<Choice>, ch: Choice)
    ensures var c, logs := TsoExec(p, TsoInit(c0), sched), TsoReads(p, c0, sched);
      && |logs| == |c.loc| == |c.buf|
      && TsoReads(p, c0, sched + [ch]) ==
           if ch.Run? && ch.t < |c.loc| && Enabled(c.buf[ch.t], p.op(ch.t, c.loc[ch.t]))
           then Extended(logs, ch.t, Issue(c.mem, c.buf[ch.t], p.op(ch.t, c.loc[ch.t])).val)
           else logs
  {
    TsoErase(p, c0, sched);
    var c, d := TsoExec(p, TsoInit(c0), sched), TsoExec(Logged(p), TsoInit(Start(c0)), sched);
    TsoSnoc(Logged(p), TsoInit(Start(c0)), sched, ch);
    var t := ch.t;
    if ch.Run? && t < |c.loc| {
      assert Bare(d.loc)[t] == d.loc[t].l;
      var v := Issue(c.mem, c.buf[t], p.op(t, c.loc[t])).val;
      LogsUpdate(d.loc, t, p.after(t, c.loc[t], v), v);
    }
  }

  lemma PsoReadsStep<A, L>(p: Program<A, L>, c0: ScConf<A, L>, sched: seq<PChoice<A>>, ch: PChoice<A>)
    ensures var c, logs := PsoExec(p, PsoInit(c0), sched), PsoReads(p, c0, sched);
      && |logs| == |c.loc| == |c.buf|
      && PsoReads(p, c0, sched + [ch]) ==
           if ch.PRun? && ch.t < |c.loc| && PEnabled(c.buf[ch.t], p.op(ch.t, c.loc[ch.t]))
           then Extended(logs, ch.t, PIssue(c.mem, c.buf[ch.t], p.op(ch.t, c.loc[ch.t])).val)
           else logs
  {
    PsoErase(p, c0, sched);
    var c, d := PsoExec(p, PsoInit(c0), sched), PsoExec(Logged(p), PsoInit(Start(c0)), sched);
    PsoSnoc(Logged(p), PsoInit(Start(c0)), sched, ch);
    var t := ch.t;
    if ch.PRun? && t < |c.loc| {
      assert Bare(d.loc)[t] == d.loc[t].l;
      var v := PIssue(c.mem, c.buf[t], p.op(t, c.loc[t])).val;
      LogsUpdate(d.loc, t, p.after(t, c.loc[t], v), v);
    }
  }

  lemma {:induction false} SameStores<A, L>(p: Program<A, L>, c0: ScConf<A, L>, sched: seq<nat>, t: nat)
    ensures Dirty(Logged(p), Start(c0), sched, t) == Dirty(p, c0, sched, t)
    ensures LastStore(Logged(p), Start(c0), sched, t) == LastStore(p, c0, sched, t)
  {
    if sched != [] {
      var n := |sched| - 1;
      SameStores(p, c0, sched[..n], t);
      SameOp(p, c0, sched[..n], t);
    }
  }

  lemma SameOp<A, L>(p: Program<A, L>, c0: ScConf<A, L>, sched: seq<nat>, t: nat)
    ensures var c, d := ScExec(p, c0, sched), ScExec(Logged(p), Start(c0), sched);
      |d.loc| == |c.loc| && (t < |c.loc| ==> Logged(p).op(t, d.loc[t]) == p.op(t, c.loc[t]))
  {
    ScErase(p, c0, sched);
    var c, d := ScExec(p, c0, sched), ScExec(Logged(p), Start(c0), sched);
    if t < |c.loc| { assert Bare(d.loc)[t] == d.loc[t].l; }
  }

  lemma LoggedIsFenced<A, L>(p: Program<A, L>, c0: ScConf<A, L>)
    requires FencedInSc(p, c0)
    ensures FencedInSc(Logged(p), Start(c0))
  {
    var q, e0 := Logged(p), Start(c0);
    forall sched: seq<nat>, t: nat | t < |ScExec(q, e0, sched).loc| && Dirty(q, e0, sched, t)
      ensures !q.op(t, ScExec(q, e0, sched).loc[t]).Load?
    {
      SameStores(p, c0, sched, t);
      SameOp(p, c0, sched, t);
    }
  }

  lemma LoggedIsFencedForPso<A, L>(p: Program<A, L>, c0: ScConf<A, L>)
    requires FencedForPso(p, c0)
    ensures FencedForPso(Logged(p), Start(c0))
  {
    var q, e0 := Logged(p), Start(c0);
    LoggedIsFenced(p, c0);
    forall sched: seq<nat>, t: nat | t < |ScExec(q, e0, sched).loc|
      ensures StoresInOrder(q.op(t, ScExec(q, e0, sched).loc[t]), LastStore(q, e0, sched, t))
    {
      SameStores(p, c0, sched, t);
      SameOp(p, c0, sched, t);
    }
  }

  /** Every TSO run of a fenced program has the reads of an SC run, which ends in the same memory
      once nothing is buffered. */
  lemma FencedTsoReads<A, L>(p: Program<A, L>, c0: ScConf<A, L>, ts: seq<Choice>) returns (sched: seq<nat>)
    requires FencedInSc(p, c0)
    ensures ScReads(p, c0, sched) == TsoReads(p, c0, ts)
    ensures ScExec(p, c0, sched).loc == TsoExec(p, TsoInit(c0), ts).loc
    ensures var c := TsoExec(p, TsoInit(c0), ts);
      (forall t :: 0 <= t < |c.buf| ==> c.buf[t] == []) ==> ScExec(p, c0, sched).mem == c.mem
  {
    LoggedIsFenced(p, c0);
    sched := FencedTsoIsSc(Logged(p), Start(c0), ts);
    TsoErase(p, c0, ts);
    ScErase(p, c0, sched);
  }

  /** So does every PSO run, if stores to different addresses are kept in order as well. */
  lemma FencedPsoReads<A, L>(p: Program<A, L>, c0: ScConf<A, L>, ps: seq<PChoice<A>>) returns (sched: seq<nat>)
    requires FencedForPso(p, c0)
    ensures ScReads(p, c0, sched) == PsoReads(p, c0, ps)
    ensures ScExec(p, c0, sched).loc == PsoExec(p, PsoInit(c0), ps).loc
    ensures var d := PsoExec(p, PsoInit(c0), ps);
      (forall t :: 0 <= t < |d.buf| ==> d.buf[t] == []) ==> ScExec(p, c0, sched).mem == d.mem
  {
    LoggedIsFencedForPso(p, c0);
    sched := FencedPsoIsSc(Logged(p), Start(c0), ps);
    PsoErase(p, c0, ps);
    ScErase(p, c0, sched);
  }

  /** Every SC run has the reads of a TSO run. */
  lemma ScReadsAreTsoReads<A, L>(p: Program<A, L>, c0: ScConf<A, L>, sched: seq<nat>) returns (ts: seq<Choice>)
    ensures TsoReads(p, c0, ts) == ScReads(p, c0, sched)
    ensures TsoExec(p, TsoInit(c0), ts).loc == ScExec(p, c0, sched).loc
  {
    ScRunIsTsoRun(Logged(p), Start(c0), sched);
    ts :| TsoExec(Logged(p), TsoInit(Start(c0)), ts).loc == ScExec(Logged(p), Start(c0), sched).loc;
    ScErase(p, c0, sched);
    TsoErase(p, c0, ts);
  }

  /** Every TSO run has the reads of a PSO run. */
  lemma TsoReadsArePsoReads<A, L>(p: Program<A, L>, c0: ScConf<A, L>, ts: seq<Choice>) returns (ps: seq<PChoice<A>>)
    ensures PsoReads(p, c0, ps) == TsoReads(p, c0, ts)
    ensures PsoExec(p, PsoInit(c0), ps).loc == TsoExec(p, TsoInit(c0), ts).loc
  {
    TsoRunIsPsoRun(Logged(p), Start(c0), ts);
    ps :| PsoExec(Logged(p), PsoInit(Start(c0)), ps).loc == TsoExec(Logged(p), TsoInit(Start(c0)), ts).loc;
    TsoErase(p, c0, ts);
    PsoErase(p, c0, ps);
  }
}
