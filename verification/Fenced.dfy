/** Programs that put a full fence, a read-modify-write or a seq_cst store between every buffered
    store and the thread's next load behave on TSO as they do under sequential consistency, and on
    PSO too if a barrier stands between stores to different addresses. The conditions are asked of
    the SC runs only. */
module Fenced {
  import opened StoreBuffer
  import opened Machine
  import opened Inclusion
  import opened Separated

  function DirtyAfter<A>(op: Op<A>, d: bool): bool {
    if IsBuffered(op) then true else if NeedsDrain(op) then false else d
  }

  /** After an SC run: has the thread stored since its last fence, read-modify-write or seq_cst store? */
  function Dirty<A(==), L>(p: Program<A, L>, c0: ScConf<A, L>, sched: seq<nat>, t: nat): bool {
    if sched == [] then false
    else
      var n := |sched| - 1;
      var c := ScExec(p, c0, sched[..n]);
      var d := Dirty(p, c0, sched[..n], t);
      if sched[n] != t || t >= |c.loc| then d else DirtyAfter(p.op(t, c.loc[t]), d)
  }

  /** In no SC run is a thread about to load while it has such a store. */
  ghost predicate FencedInSc<A, L>(p: Program<A, L>, c0: ScConf<A, L>) {
    forall sched: seq<nat>, t: nat ::
      t < |ScExec(p, c0, sched).loc| && Dirty(p, c0, sched, t) ==> !p.op(t, ScExec(p, c0, sched).loc[t]).Load?
  }

  /** From local state `l` thread `t` issues exactly these buffered stores and barriers and is then
      in `l'`: the SC thread lags behind the TSO thread by its buffer. */
  predicate Lags<A(==), L(==)>(p: Program<A, L>, t: nat, l: L, b: PBuf<A>, l': L) {
    if b == [] then l == l'
    else
      var op := p.op(t, l);
      && (if b[0].Wall? then op.StoreBarrier? else IsBuffered(op) && op.a == b[0].addr && op.v == b[0].val)
      && Lags(p, t, p.after(t, l, 0), b[1..], l')
  }

  /** The barrier or store an operation adds to what its thread lags by. */
  function EntryOf<A>(op: Op<A>): Entry<A>
    requires op.StoreBarrier? || IsBuffered(op)
  {
    if op.StoreBarrier? then Wall else Put(op.a, op.v)
  }

  lemma {:induction false} LagsAppend<A, L>(p: Program<A, L>, t: nat, l: L, b: PBuf<A>, l': L)
    requires Lags(p, t, l, b, l') && (p.op(t, l').StoreBarrier? || IsBuffered(p.op(t, l')))
    ensures Lags(p, t, l, b + [EntryOf(p.op(t, l'))], p.after(t, l', 0))
  {
    var w := EntryOf(p.op(t, l'));
    if b == [] {
      assert [] + [w] == [w] && [w][1..] == [];
    } else {
      LagsAppend(p, t, p.after(t, l, 0), b[1..], l');
      assert (b + [w])[1..] == b[1..] + [w];
    }
  }

  ghost predicate LagsBy<A, L>(p: Program<A, L>, d: ScConf<A, L>, c: TsoConf<A, L>, lag: seq<PBuf<A>>, t: nat)
    requires TsoWf(c) && t < |d.loc| == |c.loc| == |lag|
  {
    Lags(p, t, d.loc[t], lag[t], c.loc[t]) && Erase(lag[t]) == c.buf[t]
  }

  ghost predicate Behind<A, L>(p: Program<A, L>, d: ScConf<A, L>, c: TsoConf<A, L>, lag: seq<PBuf<A>>) {
    && TsoWf(c) && |d.loc| == |c.loc| == |lag| && d.mem == c.mem
    && (forall t :: 0 <= t < |c.loc| ==> LagsBy(p, d, c, lag, t))
  }

  /** The address of the newest store, unless a barrier is newer. */
  datatype Newest<A> = At(addr: A) | Nowhere

  function NewestIn<A>(b: PBuf<A>, otherwise: Newest<A>): Newest<A> {
    if b == [] then otherwise else if b[|b| - 1].Put? then At(b[|b| - 1].addr) else Nowhere
  }

  function NewestAfter<A>(op: Op<A>, q: Newest<A>): Newest<A> {
    if IsBuffered(op) then At(op.a) else if NeedsDrain(op) || op.StoreBarrier? then Nowhere else q
  }

  /** After an SC run: the thread's last store since its last barrier, fence or read-modify-write. */
  function LastStore<A(==), L>(p: Program<A, L>, c0: ScConf<A, L>, sched: seq<nat>, t: nat): Newest<A> {
    if sched == [] then Nowhere
    else
      var n := |sched| - 1;
      var c := ScExec(p, c0, sched[..n]);
      var q := LastStore(p, c0, sched[..n], t);
      if sched[n] != t || t >= |c.loc| then q else NewestAfter(p.op(t, c.loc[t]), q)
  }

  lemma ScSnoc<A, L>(p: Program<A, L>, c0: ScConf<A, L>, sched: seq<nat>, t: nat)
    ensures ScExec(p, c0, sched + [t]) == ScStep(p, ScExec(p, c0, sched), t)
    ensures t < |ScExec(p, c0, sched).loc| ==>
      var op := p.op(t, ScExec(p, c0, sched).loc[t]);
      && Dirty(p, c0, sched + [t], t) == DirtyAfter(op, Dirty(p, c0, sched, t))
      && LastStore(p, c0, sched + [t], t) == NewestAfter(op, LastStore(p, c0, sched, t))
  {
    assert (sched + [t])[..|sched|] == sched;
  }

  /** The SC thread can catch up; having issued a store it is dirty. */
  lemma {:induction false} CatchUp<A, L>(p: Program<A, L>, c0: ScConf<A, L>, sched: seq<nat>, t: nat, b: PBuf<A>, l': L)
      returns (more: seq<nat>)
    requires t < |ScExec(p, c0, sched).loc| && Lags(p, t, ScExec(p, c0, sched).loc[t], b, l')
    ensures ScExec(p, c0, more).loc == ScExec(p, c0, sched).loc[t := l']
    ensures Dirty(p, c0, sched, t) || Erase(b) != [] ==> Dirty(p, c0, more, t)
    ensures LastStore(p, c0, more, t) == NewestIn(b, LastStore(p, c0, sched, t))
    decreases |b|
  {
    var c := ScExec(p, c0, sched);
    more := sched;
    if b != [] {
      var l := c.loc[t];
      ScSnoc(p, c0, sched, t);
      assert ScExec(p, c0, sched + [t]).loc == c.loc[t := p.after(t, l, 0)];
      EraseOfTail(b);
      more := CatchUp(p, c0, sched + [t], t, b[1..], l');
    }
  }

  lemma NothingBufferedAtLoad<A, L>(p: Program<A, L>, c0: ScConf<A, L>, sched: seq<nat>, c: TsoConf<A, L>,
      lag: seq<PBuf<A>>, t: nat)
    requires FencedInSc(p, c0) && Behind(p, ScExec(p, c0, sched), c, lag) && t < |c.loc|
    ensures p.op(t, c.loc[t]).Load? ==> c.buf[t] == []
  {
    assert LagsBy(p, ScExec(p, c0, sched), c, lag, t);
    if c.buf[t] != [] {
      var more := CatchUp(p, c0, sched, t, lag[t], c.loc[t]);
      assert ScExec(p, c0, more).loc[t] == c.loc[t];
    }
  }

  predicate Suffix<A(==)>(b: PBuf<A>, whole: PBuf<A>) {
    |b| <= |whole| && b == whole[|whole| - |b|..]
  }

  lemma OneBehind<A, L>(p: Program<A, L>, d: ScConf<A, L>, c: TsoConf<A, L>, lag: seq<PBuf<A>>,
                        d': ScConf<A, L>, c': TsoConf<A, L>, lag': seq<PBuf<A>>, t: nat)
    requires Behind(p, d, c, lag) && TsoWf(c') && t < |c.loc| == |c'.loc| == |d'.loc| == |lag'| && d'.mem == c'.mem
    requires d'.loc == d.loc[t := d'.loc[t]] && c'.loc == c.loc[t := c'.loc[t]] && c'.buf == c.buf[t := c'.buf[t]]
    requires lag' == lag[t := lag'[t]] && LagsBy(p, d', c', lag', t)
    ensures Behind(p, d', c', lag')
  {
    forall u | 0 <= u < |c.loc| ensures LagsBy(p, d', c', lag', u) {
      assert LagsBy(p, d, c, lag, u);
    }
  }

  lemma PassWall<A, L>(
      p: Program<A, L>, c0: ScConf<A, L>, sched: seq<nat>, c: TsoConf<A, L>, lag: seq<PBuf<A>>, t: nat)
    requires Behind(p, ScExec(p, c0, sched), c, lag) && t < |c.loc| && lag[t] != [] && lag[t][0].Wall?
    ensures Behind(p, ScExec(p, c0, sched + [t]), c, lag[t := lag[t][1..]])
  {
    var d, d' := ScExec(p, c0, sched), ScExec(p, c0, sched + [t]);
    var rest := lag[t := lag[t][1..]];
    assert LagsBy(p, d, c, lag, t);
    ScSnoc(p, c0, sched, t);
    EraseOfTail(lag[t]);
    assert LagsBy(p, d', c, rest, t);
    OneBehind(p, d, c, lag, d', c, rest, t);
  }

  /** The SC thread goes past the barriers it lags by, up to the next store. */
  lemma {:induction false} PassWalls<A, L>(
      p: Program<A, L>, c0: ScConf<A, L>, sched: seq<nat>, c: TsoConf<A, L>, lag: seq<PBuf<A>>, t: nat)
      returns (next: seq<nat>, lag': seq<PBuf<A>>)
    requires Behind(p, ScExec(p, c0, sched), c, lag) && t < |c.loc|
    ensures Behind(p, ScExec(p, c0, next), c, lag') && lag' == lag[t := lag'[t]] && Suffix(lag'[t], lag[t])
    ensures lag'[t] == [] || lag'[t][0].Put?
    decreases |lag[t]|
  {
    if lag[t] == [] || lag[t][0].Put? {
      next, lag' := sched, lag;
    } else {
      PassWall(p, c0, sched, c, lag, t);
      next, lag' := PassWalls(p, c0, sched + [t], c, lag[t := lag[t][1..]], t);
    }
  }

  lemma FollowDrain<A, L>(p: Program<A, L>, c0: ScConf<A, L>, sched: seq<nat>, c: TsoConf<A, L>, lag: seq<PBuf<A>>,
      t: nat)
      returns (next: seq<nat>, lag': seq<PBuf<A>>)
    requires Behind(p, ScExec(p, c0, sched), c, lag) && t < |c.loc| && c.buf[t] != []
    ensures Behind(p, ScExec(p, c0, next), TsoDrain(c, t), lag') && lag' == lag[t := lag'[t]] && Suffix(lag'[t], lag[t])
  {
    var pre, mid := PassWalls(p, c0, sched, c, lag, t);
    var d, b := ScExec(p, c0, pre), mid[t];
    assert LagsBy(p, d, c, mid, t);
    EraseOfTail(b);
    ScSnoc(p, c0, pre, t);
    next, lag' := pre + [t], mid[t := b[1..]];
    assert LagsBy(p, ScExec(p, c0, next), TsoDrain(c, t), lag', t);
    OneBehind(p, d, c, mid, ScExec(p, c0, next), TsoDrain(c, t), lag', t);
  }

  /** A buffered store or a barrier lets the SC thread lag one more. */
  lemma FollowIssue<A, L>(p: Program<A, L>, c0: ScConf<A, L>, sched: seq<nat>, c: TsoConf<A, L>, lag: seq<PBuf<A>>,
      t: nat)
      returns (lag': seq<PBuf<A>>)
    requires Behind(p, ScExec(p, c0, sched), c, lag) && t < |c.loc|
    requires var op := p.op(t, c.loc[t]); op.StoreBarrier? || IsBuffered(op)
    ensures lag' == lag[t := lag[t] + [EntryOf(p.op(t, c.loc[t]))]]
    ensures Behind(p, ScExec(p, c0, sched), TsoStep(p, c, Run(t)), lag')
  {
    var d, w := ScExec(p, c0, sched), EntryOf(p.op(t, c.loc[t]));
    lag' := lag[t := lag[t] + [w]];
    assert LagsBy(p, d, c, lag, t);
    LagsAppend(p, t, d.loc[t], lag[t], c.loc[t]);
    EraseOfAppend(lag[t], w);
    var c' := TsoStep(p, c, Run(t));
    assert LagsBy(p, d, c', lag', t);
    OneBehind(p, d, c, lag, d, c', lag', t);
  }

  /** Everything else needs, or by the condition has, an empty buffer, and both machines do it at once. */
  lemma FollowAtOnce<A, L>(p: Program<A, L>, c0: ScConf<A, L>, sched: seq<nat>, c: TsoConf<A, L>, lag: seq<PBuf<A>>,
      t: nat)
      returns (next: seq<nat>, lag': seq<PBuf<A>>)
    requires FencedInSc(p, c0) && Behind(p, ScExec(p, c0, sched), c, lag) && t < |c.loc|
    requires var op := p.op(t, c.loc[t]); Enabled(c.buf[t], op) && !op.StoreBarrier? && !IsBuffered(op)
    ensures Behind(p, ScExec(p, c0, next), TsoStep(p, c, Run(t)), lag') && lag' == lag[t := lag'[t]] &&
        Suffix(lag'[t], lag[t])
  {
    NothingBufferedAtLoad(p, c0, sched, c, lag, t);
    var pre, mid := PassWalls(p, c0, sched, c, lag, t);
    var d := ScExec(p, c0, pre);
    assert LagsBy(p, d, c, mid, t);
    if mid[t] != [] { EraseOfTail(mid[t]); }
    ScSnoc(p, c0, pre, t);
    next, lag' := pre + [t], mid;
    var c' := TsoStep(p, c, Run(t));
    assert LagsBy(p, ScExec(p, c0, next), c', lag', t);
    OneBehind(p, d, c, mid, ScExec(p, c0, next), c', lag', t);
  }

  /** One TSO choice, and what it does to the lags. */
  lemma FollowStep<A, L>(p: Program<A, L>, c0: ScConf<A, L>, sched: seq<nat>, c: TsoConf<A, L>, lag: seq<PBuf<A>>,
      ch: Choice)
      returns (next: seq<nat>, lag': seq<PBuf<A>>)
    requires FencedInSc(p, c0) && Behind(p, ScExec(p, c0, sched), c, lag)
    ensures Behind(p, ScExec(p, c0, next), TsoStep(p, c, ch), lag')
    ensures
      if ch.Run? && ch.t < |c.loc| && (p.op(ch.t, c.loc[ch.t]).StoreBarrier? || IsBuffered(p.op(ch.t, c.loc[ch.t])))
      then lag' == lag[ch.t := lag[ch.t] + [EntryOf(p.op(ch.t, c.loc[ch.t]))]]
      else forall u :: 0 <= u < |lag| ==> Suffix(lag'[u], lag[u])
  {
    var t := ch.t;
    next, lag' := sched, lag;
    if t < |c.loc| {
      var op := p.op(t, c.loc[t]);
      if ch.Drain? {
        if c.buf[t] != [] { next, lag' := FollowDrain(p, c0, sched, c, lag, t); }
      } else if op.StoreBarrier? || IsBuffered(op) {
        lag' := FollowIssue(p, c0, sched, c, lag, t);
      } else if Enabled(c.buf[t], op) {
        next, lag' := FollowAtOnce(p, c0, sched, c, lag, t);
      }
    }
  }

  lemma StartsBehind<A, L>(p: Program<A, L>, c0: ScConf<A, L>) returns (lag: seq<PBuf<A>>)
    ensures Behind(p, c0, TsoInit(c0), lag)
    ensures forall t :: 0 <= t < |lag| ==> lag[t] == []
  {
    lag := seq(|c0.loc|, _ => []);
    forall t | 0 <= t < |c0.loc| ensures LagsBy(p, c0, TsoInit(c0), lag, t) {}
  }

  lemma {:induction false} FollowRun<A, L>(p: Program<A, L>, c0: ScConf<A, L>, ts: seq<Choice>)
      returns (sched: seq<nat>, lag: seq<PBuf<A>>)
    requires FencedInSc(p, c0)
    ensures Behind(p, ScExec(p, c0, sched), TsoExec(p, TsoInit(c0), ts), lag)
  {
    if ts == [] {
      sched := [];
      lag := StartsBehind(p, c0);
    } else {
      var n := |ts| - 1;
      var pre, mid := FollowRun(p, c0, ts[..n]);
      sched, lag := FollowStep(p, c0, pre, TsoExec(p, TsoInit(c0), ts[..n]), mid, ts[n]);
    }
  }

  /** All SC threads catch up, one after the other. */
  lemma {:induction false} CatchUpAll<A, L>(p: Program<A, L>, c0: ScConf<A, L>, sched: seq<nat>, c: TsoConf<A, L>,
      lag: seq<PBuf<A>>, n: nat)
      returns (more: seq<nat>)
    requires Behind(p, ScExec(p, c0, sched), c, lag) && n <= |c.loc|
    ensures ScExec(p, c0, more).loc == c.loc[..n] + ScExec(p, c0, sched).loc[n..]
  {
    more := sched;
    if n > 0 {
      var pre := CatchUpAll(p, c0, sched, c, lag, n - 1);
      var d := ScExec(p, c0, pre);
      assert LagsBy(p, ScExec(p, c0, sched), c, lag, n - 1);
      assert d.loc[n - 1] == ScExec(p, c0, sched).loc[n - 1];
      more := CatchUp(p, c0, pre, n - 1, lag[n - 1], c.loc[n - 1]);
    }
  }

  /** With nothing buffered the threads lag by barriers alone, and passing them changes no memory. */
  lemma {:induction false} PassAllWalls<A, L>(p: Program<A, L>, c0: ScConf<A, L>, sched: seq<nat>, c: TsoConf<A, L>,
      lag: seq<PBuf<A>>, n: nat)
      returns (more: seq<nat>)
    requires Behind(p, ScExec(p, c0, sched), c, lag) && n <= |c.loc|
    requires forall t :: 0 <= t < |c.buf| ==> c.buf[t] == []
    requires forall t :: n <= t < |c.buf| ==> lag[t] == []
    ensures ScExec(p, c0, more) == ScConf(c.mem, c.loc)
    decreases n
  {
    if n == 0 {
      more := sched;
      var d := ScExec(p, c0, sched);
      forall t | 0 <= t < |c.loc| ensures d.loc[t] == c.loc[t] {
        assert LagsBy(p, d, c, lag, t);
      }
      assert d == ScConf(c.mem, c.loc);
    } else {
      var pre, mid := PassWalls(p, c0, sched, c, lag, n - 1);
      assert LagsBy(p, ScExec(p, c0, pre), c, mid, n - 1);
      if mid[n - 1] != [] { EraseOfTail(mid[n - 1]); }
      more := PassAllWalls(p, c0, pre, c, mid, n - 1);
    }
  }

  /** Every TSO run of a fenced program reads what some SC run reads, and once its buffers have
      drained it has that run's memory. */
  lemma FencedTsoIsSc<A, L>(p: Program<A, L>, c0: ScConf<A, L>, ts: seq<Choice>) returns (sched: seq<nat>)
    requires FencedInSc(p, c0)
    ensures var c := TsoExec(p, TsoInit(c0), ts);
      && ScExec(p, c0, sched).loc == c.loc
      && ((forall t :: 0 <= t < |c.buf| ==> c.buf[t] == []) ==> ScExec(p, c0, sched).mem == c.mem)
  {
    var c := TsoExec(p, TsoInit(c0), ts);
    var pre, lag := FollowRun(p, c0, ts);
    if forall t :: 0 <= t < |c.buf| ==> c.buf[t] == [] {
      sched := PassAllWalls(p, c0, pre, c, lag, |c.loc|);
    } else {
      sched := CatchUpAll(p, c0, pre, c, lag, |c.loc|);
    }
  }

  // PSO.

  /** In addition a store follows a store to another address only behind a barrier or as a release. */
  ghost predicate FencedForPso<A, L>(p: Program<A, L>, c0: ScConf<A, L>) {
    && FencedInSc(p, c0)
    && (forall sched: seq<nat>, t: nat :: t < |ScExec(p, c0, sched).loc| ==>
          StoresInOrder(p.op(t, ScExec(p, c0, sched).loc[t]), LastStore(p, c0, sched, t)))
  }

  predicate StoresInOrder<A(==)>(op: Op<A>, last: Newest<A>) {
    IsBuffered(op) && op.ord != Release && last.At? ==> op.a == last.addr
  }

  /** The SC thread's last store is the one the PSO buffer ends with. */
  ghost predicate SameNewest<A, L>(d: PsoConf<A, L>, lag: seq<PBuf<A>>) {
    && |lag| == |d.buf|
    && (forall t :: 0 <= t < |lag| ==> NewestAgrees(d.buf[t], lag[t]))
  }

  predicate NewestAgrees<A(==)>(b: PBuf<A>, lag: PBuf<A>) {
    b != [] && b[|b| - 1].Put? ==> lag != [] && lag[|lag| - 1].Put? && lag[|lag| - 1].addr == b[|b| - 1].addr
  }

  lemma NextStoreInOrder<A, L>(p: Program<A, L>, c0: ScConf<A, L>, sched: seq<nat>, c: TsoConf<A, L>,
      d: PsoConf<A, L>, lag: seq<PBuf<A>>, t: nat)
    requires FencedForPso(p, c0) && Behind(p, ScExec(p, c0, sched), c, lag) && Sim(c, d) && SameNewest(d, lag)
    requires t < |c.loc| && d.buf[t] != [] && d.buf[t][|d.buf[t]| - 1].Put?
    ensures StoresInOrder(p.op(t, c.loc[t]), At(d.buf[t][|d.buf[t]| - 1].addr))
  {
    assert LagsBy(p, ScExec(p, c0, sched), c, lag, t) && NewestAgrees(d.buf[t], lag[t]);
    var more := CatchUp(p, c0, sched, t, lag[t], c.loc[t]);
    assert ScExec(p, c0, more).loc[t] == c.loc[t];
  }

  lemma IssueInOrder<A>(m: Mem<A>, b: PBuf<A>, op: Op<A>)
    requires InOrder(b) && PEnabled(b, op)
    requires b != [] && b[|b| - 1].Put? ==> StoresInOrder(op, At(b[|b| - 1].addr))
    ensures InOrder(PIssue(m, b, op).buf)
  {
    if op.StoreBarrier? {
      InOrderAfterWall(b);
    } else if IsBuffered(op) && op.ord == Release {
      InOrderAfterRelease(b, op.a, op.v);
    } else if IsBuffered(op) {
      InOrderAppend(b, Put(op.a, op.v));
    }
  }

  lemma StepStaysInOrder<A, L>(p: Program<A, L>, c0: ScConf<A, L>, sched: seq<nat>, c: TsoConf<A, L>,
      d: PsoConf<A, L>, lag: seq<PBuf<A>>, ch: PChoice<A>)
    requires FencedForPso(p, c0) && Behind(p, ScExec(p, c0, sched), c, lag)
    requires Sim(c, d) && AllInOrder(d) && SameNewest(d, lag)
    ensures AllInOrder(PsoStep(p, d, ch))
  {
    var t := ch.t;
    if t < |d.loc| {
      var b := d.buf[t];
      if ch.PDrain? {
        if CanLand(b, ch.a) { InOrderAfterLanding(b, ch.a); }
      } else if PEnabled(b, p.op(t, d.loc[t])) {
        if b != [] && b[|b| - 1].Put? { NextStoreInOrder(p, c0, sched, c, d, lag, t); }
        IssueInOrder(d.mem, b, p.op(t, d.loc[t]));
      }
    }
  }

  lemma NewestKept<A>(b: PBuf<A>, b': PBuf<A>, lag: PBuf<A>, lag': PBuf<A>)
    requires NewestAgrees(b, lag) && Suffix(b', b) && Suffix(lag', lag)
    requires Tidy(b') && Erase(b') == Erase(lag')
    ensures NewestAgrees(b', lag')
  {
    EmptyTogether(b');
    if b' != [] {
      assert b'[|b'| - 1] == b[|b| - 1];
      assert lag' != [] && lag'[|lag'| - 1] == lag[|lag| - 1];
    }
  }

  /** Whether a choice makes its thread issue a buffered store or a barrier. */
  predicate Issues<A(==), L>(p: Program<A, L>, d: PsoConf<A, L>, ch: PChoice<A>) {
    ch.PRun? && ch.t < |d.loc| && (p.op(ch.t, d.loc[ch.t]).StoreBarrier? || IsBuffered(p.op(ch.t, d.loc[ch.t])))
  }

  lemma IssueKeepsNewest<A>(m: Mem<A>, b: PBuf<A>, lag: PBuf<A>, op: Op<A>)
    requires NewestAgrees(b, lag) && PEnabled(b, op) && (op.StoreBarrier? || IsBuffered(op))
    ensures NewestAgrees(PIssue(m, b, op).buf, lag + [EntryOf(op)])
  {}

  lemma StepKeepsNewest<A, L>(p: Program<A, L>, c: TsoConf<A, L>, d: PsoConf<A, L>, lag: seq<PBuf<A>>, ch: PChoice<A>,
                              e: ScConf<A, L>, lag': seq<PBuf<A>>)
    requires Sim(c, d) && AllInOrder(d) && SameNewest(d, lag)
    requires Behind(p, e, TsoStep(p, c, ChoiceOf(d, ch)), lag')
    requires Sim(TsoStep(p, c, ChoiceOf(d, ch)), PsoStep(p, d, ch))
    requires if Issues(p, d, ch) then lag' == lag[ch.t := lag[ch.t] + [EntryOf(p.op(ch.t, d.loc[ch.t]))]]
      else forall u :: 0 <= u < |lag| ==> Suffix(lag'[u], lag[u])
    ensures SameNewest(PsoStep(p, d, ch), lag')
  {
    var d', c' := PsoStep(p, d, ch), TsoStep(p, c, ChoiceOf(d, ch));
    forall u | 0 <= u < |lag| ensures NewestAgrees(d'.buf[u], lag'[u]) {
      assert NewestAgrees(d.buf[u], lag[u]) && LagsBy(p, e, c', lag', u);
      if Issues(p, d, ch) {
        if u == ch.t { IssueKeepsNewest(d.mem, d.buf[u], lag[u], p.op(u, d.loc[u])); }
      } else {
        if u == ch.t && ch.PDrain? && CanLand(d.buf[u], ch.a) { InOrderAfterLanding(d.buf[u], ch.a); }
        NewestKept(d.buf[u], d'.buf[u], lag[u], lag'[u]);
      }
    }
  }

  lemma {:induction false} FollowPsoRun<A, L>(p: Program<A, L>, c0: ScConf<A, L>, ps: seq<PChoice<A>>)
      returns (ts: seq<Choice>, sched: seq<nat>, lag: seq<PBuf<A>>)
    requires FencedForPso(p, c0)
    ensures Behind(p, ScExec(p, c0, sched), TsoExec(p, TsoInit(c0), ts), lag)
    ensures var d := PsoExec(p, PsoInit(c0), ps);
      Sim(TsoExec(p, TsoInit(c0), ts), d) && AllInOrder(d) && SameNewest(d, lag)
  {
    if ps == [] {
      ts, sched := [], [];
      lag := StartsBehind(p, c0);
    } else {
      var n := |ps| - 1;
      var pre, mid, lag0 := FollowPsoRun(p, c0, ps[..n]);
      var c, d := TsoExec(p, TsoInit(c0), pre), PsoExec(p, PsoInit(c0), ps[..n]);
      ts := pre + [ChoiceOf(d, ps[n])];
      TsoSnoc(p, TsoInit(c0), pre, ChoiceOf(d, ps[n]));
      sched, lag := FollowStep(p, c0, mid, c, lag0, ChoiceOf(d, ps[n]));
      StepInOrder(p, c, d, ps[n]);
      StepStaysInOrder(p, c0, mid, c, d, lag0, ps[n]);
      StepKeepsNewest(p, c, d, lag0, ps[n], ScExec(p, c0, sched), lag);
    }
  }

  /** Every PSO run of such a program reads what some SC run reads, and once its buffers have
      drained it has that run's memory. */
  lemma FencedPsoIsSc<A, L>(p: Program<A, L>, c0: ScConf<A, L>, ps: seq<PChoice<A>>) returns (sched: seq<nat>)
    requires FencedForPso(p, c0)
    ensures var d := PsoExec(p, PsoInit(c0), ps);
      && ScExec(p, c0, sched).loc == d.loc
      && ((forall t :: 0 <= t < |d.buf| ==> d.buf[t] == []) ==> ScExec(p, c0, sched).mem == d.mem)
  {
    var ts, mid, lag := FollowPsoRun(p, c0, ps);
    sched := FencedTsoIsSc(p, c0, ts);
  }
}
