/** Programs whose stores are separated, by barriers or by sharing an address, have no PSO run that
    is not a TSO run. */
module Separated {
  import opened StoreBuffer
  import opened Machine
  import opened Inclusion

  /** Two stores with no barrier between them are to one address: only the oldest store can land. */
  predicate InOrder<A(==)>(b: PBuf<A>) {
    |b| <= 1 || ((b[0].Put? && b[1].Put? ==> b[0].addr == b[1].addr) && InOrder(b[1..]))
  }

  ghost predicate AllInOrder<A, L>(d: PsoConf<A, L>) {
    forall t :: 0 <= t < |d.buf| ==> InOrder(d.buf[t])
  }

  ghost predicate SeparatedStores<A(!new), L>(p: Program<A, L>, c0: ScConf<A, L>) {
    forall ps: seq<PChoice<A>> :: AllInOrder(PsoExec(p, PsoInit(c0), ps))
  }

  lemma {:induction false} OnlyOldestLands<A>(b: PBuf<A>, a: A)
    requires InOrder(b) && CanLand(b, a)
    ensures Reach(b, a) == 0
  {
    if b[0].Put? && b[0].addr != a {
      OnlyOldestLands(b[1..], a);
    }
  }

  /** A PSO choice as a TSO choice; a thread that does not exist stands for doing nothing. */
  function ChoiceOf<A(==), L>(d: PsoConf<A, L>, ch: PChoice<A>): Choice
    requires PsoWf(d)
  {
    match ch
    case PRun(t) => Run(t)
    case PDrain(t, a) => if t < |d.loc| && CanLand(d.buf[t], a) then Drain(t) else Run(|d.loc|)
  }

  lemma StepInOrder<A, L>(p: Program<A, L>, c: TsoConf<A, L>, d: PsoConf<A, L>, ch: PChoice<A>)
    requires Sim(c, d) && AllInOrder(d)
    ensures Sim(TsoStep(p, c, ChoiceOf(d, ch)), PsoStep(p, d, ch))
  {
    var t := ch.t;
    if ch.PRun? {
      RunsTogether(p, c, d, t);
    } else if t < |d.loc| && CanLand(d.buf[t], ch.a) {
      OnlyOldestLands(d.buf[t], ch.a);
      OldestLands(d.buf[t]);
      EraseOfRest(d.buf[t]);
    }
  }

  /** Every PSO run of such a program is a TSO run, up to the barriers in the buffers. */
  lemma {:induction false} SeparatedPsoIsTso<A(!new), L>(p: Program<A, L>, c0: ScConf<A, L>, ps: seq<PChoice<A>>)
      returns (ts: seq<Choice>)
    requires SeparatedStores(p, c0)
    ensures Sim(TsoExec(p, TsoInit(c0), ts), PsoExec(p, PsoInit(c0), ps))
  {
    if ps == [] {
      ts := [];
    } else {
      var n := |ps| - 1;
      var pre := SeparatedPsoIsTso(p, c0, ps[..n]);
      var d := PsoExec(p, PsoInit(c0), ps[..n]);
      StepInOrder(p, TsoExec(p, TsoInit(c0), pre), d, ps[n]);
      ts := pre + [ChoiceOf(d, ps[n])];
      TsoSnoc(p, TsoInit(c0), pre, ChoiceOf(d, ps[n]));
    }
  }

  lemma {:induction false} InOrderAppend<A>(b: PBuf<A>, w: Entry<A>)
    requires InOrder(b) && (b != [] && b[|b| - 1].Put? && w.Put? ==> b[|b| - 1].addr == w.addr)
    ensures InOrder(b + [w])
  {
    if b != [] {
      assert (b + [w])[1..] == b[1..] + [w];
      InOrderAppend(b[1..], w);
    }
  }

  lemma InOrderAfterWall<A>(b: PBuf<A>)
    requires InOrder(b)
    ensures InOrder(Walled(b))
  {
    InOrderAppend(b, Wall);
  }

  /** A release store, and any store behind a barrier, keeps a buffer in order. */
  lemma InOrderAfterRelease<A>(b: PBuf<A>, a: A, v: int)
    requires InOrder(b)
    ensures InOrder(Enqueue(Walled(b), a, v))
  {
    InOrderAfterWall(b);
    InOrderAppend(Walled(b), Put(a, v));
  }

  /** What lands is the oldest store. */
  lemma InOrderAfterLanding<A>(b: PBuf<A>, a: A)
    requires InOrder(b) && CanLand(b, a)
    ensures b[0] == Put(a, Landing(b, a)) && Dequeue(b, a) == Rest(b) && InOrder(Dequeue(b, a))
  {
    OnlyOldestLands(b, a);
    OldestLands(b);
  }
}
