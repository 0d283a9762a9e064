/** The MCS lock on PSO, with a hand-off store that stays behind the counter stores. A thread's
    initialising stores may then still land ahead of its last hand-off, but nobody else looks at
    its node by then: every PSO run has a TSO run with the same local states, in which these
    stores land late. */
module McsPso {
  import opened StoreBuffer
  import opened Machine
  import opened Inclusion
  import opened Separated
  import opened Stronger
  import opened Mcs
  import opened McsInvariant
  import opened McsSteps
  import opened McsTheorems

  /** A thread's PSO buffer is `shared + own`, its TSO buffer `shared` without barriers and then
      `late`: own stores, some of which have landed on PSO already. */
  datatype Split = Split(shared: PBuf<Addr>, own: PBuf<Addr>, late: Buf<Addr>)

  predicate NoneOwn(t: nat, b: PBuf<Addr>) {
    forall i :: 0 <= i < |b| && b[i].Put? ==> !IsOwn(t, b[i].addr)
  }

  predicate AllOwn(t: nat, b: PBuf<Addr>) {
    forall i :: 0 <= i < |b| ==> b[i].Put? && IsOwn(t, b[i].addr)
  }

  predicate AllLate(t: nat, b: Buf<Addr>) {
    forall i :: 0 <= i < |b| ==> IsOwn(t, b[i].addr)
  }

  predicate EndsWalled(b: PBuf<Addr>) {
    b == [] || b[|b| - 1].Wall?
  }

  predicate SharedOk(style: Style, t: nat, pc: Pc, shared: PBuf<Addr>) {
    && Tidy(shared) && InOrder(shared) && NoneOwn(t, shared)
    && (style.Linux? && (pc.ReadSucc? || pc.HandOff?) ==> EndsWalled(shared))
  }

  predicate SameViews(t: nat, m: Mem<Addr>, b: Buf<Addr>, n: Mem<Addr>, pb: PBuf<Addr>) {
    && Read(m, b, Next(t)) == PRead(n, pb, Next(t))
    && Read(m, b, Locked(t)) == PRead(n, pb, Locked(t))
  }

  ghost predicate SplitOk(style: Style, c: TsoConf<Addr, Local>, d: PsoConf<Addr, Local>, t: nat, sp: Split)
    requires TsoWf(c) && PsoWf(d) && t < |c.loc| == |d.loc|
  {
    && d.buf[t] == sp.shared + sp.own && c.buf[t] == Erase(sp.shared) + sp.late
    && SharedOk(style, t, c.loc[t].pc, sp.shared) && AllOwn(t, sp.own) && AllLate(t, sp.late)
    && (if Outside(c.loc[t].pc) then SameViews(t, c.mem, c.buf[t], d.mem, d.buf[t]) else sp.own == [] && sp.late == [])
  }

  /** No thread outside the queue owns the address. */
  ghost predicate Public(locs: seq<Local>, a: Addr) {
    forall t: nat :: t < |locs| && Outside(locs[t].pc) ==> !IsOwn(t, a)
  }

  ghost predicate Related(style: Style, c: TsoConf<Addr, Local>, d: PsoConf<Addr, Local>, sps: seq<Split>) {
    && TsoWf(c) && PsoWf(d) && c.loc == d.loc && |sps| == |c.loc|
    && (forall t: nat :: t < |c.loc| ==> SplitOk(style, c, d, t, sps[t]))
    && (forall a :: Public(c.loc, a) ==> Get(d.mem, a) == Get(c.mem, a))
  }

  /** Who is not thread `t` is left alone by its steps. */
  ghost predicate OthersAlone(c: TsoConf<Addr, Local>, d: PsoConf<Addr, Local>, c': TsoConf<Addr, Local>,
      d': PsoConf<Addr, Local>, t: nat)
    requires TsoWf(c) && PsoWf(d) && TsoWf(c') && PsoWf(d') && |c.loc| == |c'.loc| == |d.loc| == |d'.loc|
  {
    forall u: nat, a :: u < |c.loc| && u != t && Outside(c.loc[u].pc) && IsOwn(u, a) ==>
      Get(c'.mem, a) == Get(c.mem, a) && Get(d'.mem, a) == Get(d.mem, a)
  }

  lemma PReadFrame(m: Mem<Addr>, n: Mem<Addr>, b: PBuf<Addr>, a: Addr)
    requires Get(m, a) == Get(n, a)
    ensures PRead(m, b, a) == PRead(n, b, a)
  {}

  lemma OtherSplitKept(style: Style, c: TsoConf<Addr, Local>, d: PsoConf<Addr, Local>, c': TsoConf<Addr, Local>,
      d': PsoConf<Addr, Local>, t: nat, u: nat, sp: Split)
    requires TsoWf(c) && PsoWf(d) && TsoWf(c') && PsoWf(d') && |c.loc| == |c'.loc| == |d.loc| == |d'.loc| &&
        u < |c.loc| && u != t
    requires c'.loc[u] == c.loc[u] && c'.buf[u] == c.buf[u] && d'.buf[u] == d.buf[u]
    requires OthersAlone(c, d, c', d', t) && SplitOk(style, c, d, u, sp)
    ensures SplitOk(style, c', d', u, sp)
  {
    if Outside(c.loc[u].pc) {
      forall a | a == Next(u) || a == Locked(u)
        ensures Read(c'.mem, c'.buf[u], a) == Read(c.mem, c.buf[u], a)
        ensures PRead(d'.mem, d'.buf[u], a) == PRead(d.mem, d.buf[u], a)
      {
        ReadFrame(c.mem, c'.mem, c.buf[u], a);
        PReadFrame(d.mem, d'.mem, d.buf[u], a);
      }
    }
  }

  /** A step of both machines by thread `t` keeps them related. */
  lemma StepRelates(style: Style, c: TsoConf<Addr, Local>, d: PsoConf<Addr, Local>, sps: seq<Split>,
                    c': TsoConf<Addr, Local>, d': PsoConf<Addr, Local>, t: nat, sp: Split)
    requires Related(style, c, d, sps) && TsoWf(c') && PsoWf(d') && t < |c.loc| == |c'.loc| && c'.loc == d'.loc
    requires c'.loc == c.loc[t := c'.loc[t]] && c'.buf == c.buf[t := c'.buf[t]] && d'.buf == d.buf[t := d'.buf[t]]
    requires OthersAlone(c, d, c', d', t) && SplitOk(style, c', d', t, sp)
    requires forall a :: Public(c'.loc, a) ==> Get(d'.mem, a) == Get(c'.mem, a)
    ensures Related(style, c', d', sps[t := sp])
  {
    var sps' := sps[t := sp];
    forall u: nat | u < |c.loc| ensures SplitOk(style, c', d', u, sps'[u]) {
      assert SplitOk(style, c, d, u, sps[u]);
      if u != t { OtherSplitKept(style, c, d, c', d', t, u, sps[u]); }
    }
  }

  // Landing.

  lemma {:induction false} ReachInPrefix(b: PBuf<Addr>, more: PBuf<Addr>, a: Addr)
    ensures Reach(b + more, a) < |b| ==> Reach(b, a) == Reach(b + more, a)
    ensures Reach(b, a) < |b| ==> Reach(b, a) == Reach(b + more, a)
  {
    if b != [] {
      assert (b + more)[1..] == b[1..] + more;
      ReachInPrefix(b[1..], more, a);
    }
  }

  lemma OwnReach(t: nat, shared: PBuf<Addr>, own: PBuf<Addr>, a: Addr)
    requires NoneOwn(t, shared) && IsOwn(t, a) && CanLand(shared + own, a)
    ensures Reach(shared + own, a) >= |shared|
  {
    var b := shared + own;
    assert forall j :: 0 <= j < |shared| ==> b[j] == shared[j];
  }

  lemma OwnCut(shared: PBuf<Addr>, own: PBuf<Addr>, j: nat)
    requires j < |own|
    ensures var i, b := |shared| + j, shared + own; b[..i] + b[i + 1..] == shared + (own[..j] + own[j + 1..])
  {}

  lemma NothingToUnwall(t: nat, shared: PBuf<Addr>, own: PBuf<Addr>)
    requires Tidy(shared) && AllOwn(t, own)
    ensures Unwalled(shared + own) == shared + own
  {
    if shared + own != [] { assert (shared + own)[0] == if |shared| > 0 then shared[0] else own[0]; }
  }

  lemma OwnDequeue(t: nat, shared: PBuf<Addr>, own: PBuf<Addr>, a: Addr) returns (own': PBuf<Addr>)
    requires Tidy(shared) && NoneOwn(t, shared) && AllOwn(t, own) && IsOwn(t, a) && CanLand(shared + own, a)
    ensures Dequeue(shared + own, a) == shared + own' && AllOwn(t, own') && own != []
  {
    OwnReach(t, shared, own, a);
    var j := Reach(shared + own, a) - |shared|;
    own' := own[..j] + own[j + 1..];
    OwnCut(shared, own, j);
    NothingToUnwall(t, shared, own');
  }

  lemma UnwalledConcat(t: nat, b: PBuf<Addr>, own: PBuf<Addr>)
    requires AllOwn(t, own)
    ensures Unwalled(b + own) == Unwalled(b) + own
  {
    if b == [] {
      assert [] + own == own;
    } else {
      assert (b + own)[0] == b[0] && (b + own)[1..] == b[1..] + own;
    }
  }

  lemma SharedReach(t: nat, shared: PBuf<Addr>, own: PBuf<Addr>, a: Addr)
    requires InOrder(shared) && AllOwn(t, own) && !IsOwn(t, a) && CanLand(shared + own, a)
    ensures shared != [] && Reach(shared + own, a) == 0 && CanLand(shared, a)
  {
    var i, k := Reach(shared + own, a), |shared|;
    assert forall j :: k <= j < |shared + own| ==> (shared + own)[j] == own[j - k];
    assert i < k;
    ReachInPrefix(shared, own, a);
    OnlyOldestLands(shared, a);
  }

  lemma SharedDequeue(t: nat, shared: PBuf<Addr>, own: PBuf<Addr>, a: Addr)
    requires InOrder(shared) && AllOwn(t, own) && !IsOwn(t, a) && CanLand(shared + own, a)
    ensures shared != [] && shared[0] == Put(a, Landing(shared + own, a))
    ensures Dequeue(shared + own, a) == Rest(shared) + own && InOrder(Rest(shared))
  {
    SharedReach(t, shared, own, a);
    InOrderAfterLanding(shared, a);
    var b := shared + own;
    assert b[0] == shared[0] && b[1..] == shared[1..] + own;
    OldestLands(b);
    UnwalledConcat(t, shared[1..], own);
  }

  /** An own store lands on PSO; on TSO it is late. */
  lemma OwnLands(style: Style, c: TsoConf<Addr, Local>, d: PsoConf<Addr, Local>, t: nat, a: Addr, sp: Split)
      returns (sp': Split)
    requires TsoWf(c) && PsoWf(d) && t < |c.loc| == |d.loc| && SplitOk(style, c, d, t, sp)
    requires IsOwn(t, a) && CanLand(d.buf[t], a)
    ensures SplitOk(style, c, PsoDrain(d, t, a), t, sp') && Outside(c.loc[t].pc)
  {
    var own' := OwnDequeue(t, sp.shared, sp.own, a);
    sp' := sp.(own := own');
    PReadDrain(d.mem, d.buf[t], a, Next(t));
    PReadDrain(d.mem, d.buf[t], a, Locked(t));
  }

  /** Any other store that lands is the oldest, and lands on TSO too. */
  lemma SharedLands(style: Style, c: TsoConf<Addr, Local>, d: PsoConf<Addr, Local>, t: nat, a: Addr,
      sp: Split) returns (sp': Split)
    requires TsoWf(c) && PsoWf(d) && t < |c.loc| == |d.loc| && SplitOk(style, c, d, t, sp)
    requires !IsOwn(t, a) && CanLand(d.buf[t], a)
    ensures c.buf[t] != [] && c.buf[t][0] == Write(a, Landing(d.buf[t], a))
    ensures SplitOk(style, TsoDrain(c, t), PsoDrain(d, t, a), t, sp')
  {
    SharedDequeue(t, sp.shared, sp.own, a);
    sp' := sp.(shared := Rest(sp.shared));
    EraseOfRest(sp.shared);
    assert c.buf[t][1..] == Erase(sp'.shared) + sp.late;
    SharedRest(style, t, c.loc[t].pc, sp.shared);
    if Outside(c.loc[t].pc) { ViewsLand(t, c.mem, c.buf[t], d.mem, d.buf[t], a); }
  }

  lemma ViewsLand(t: nat, m: Mem<Addr>, b: Buf<Addr>, n: Mem<Addr>, pb: PBuf<Addr>, a: Addr)
    requires SameViews(t, m, b, n, pb) && b != [] && CanLand(pb, a)
    ensures SameViews(t, m[b[0].addr := b[0].val], b[1..], n[a := Landing(pb, a)], Dequeue(pb, a))
  {
    PReadDrain(n, pb, a, Next(t));
    PReadDrain(n, pb, a, Locked(t));
    ReadDrain(m, b, Next(t));
    ReadDrain(m, b, Locked(t));
  }

  lemma SharedRest(style: Style, t: nat, pc: Pc, b: PBuf<Addr>)
    requires SharedOk(style, t, pc, b) && b != [] && InOrder(Rest(b))
    ensures SharedOk(style, t, pc, Rest(b))
  {
    var b' := Rest(b);
    forall i | 0 <= i < |b'| && b'[i].Put? ensures !IsOwn(t, b'[i].addr) {
      assert b'[i] == b[i + |b| - |b'|];
    }
  }

  lemma OwnLandsRelated(style: Style, c: TsoConf<Addr, Local>, d: PsoConf<Addr, Local>, sps: seq<Split>, t: nat,
      a: Addr) returns (sps': seq<Split>)
    requires Related(style, c, d, sps) && t < |c.loc| && IsOwn(t, a) && CanLand(d.buf[t], a)
    ensures Related(style, c, PsoDrain(d, t, a), sps')
  {
    assert SplitOk(style, c, d, t, sps[t]);
    var sp := OwnLands(style, c, d, t, a, sps[t]);
    sps' := sps[t := sp];
    StepRelates(style, c, d, sps, c, PsoDrain(d, t, a), t, sp);
  }

  lemma SharedLandsRelated(style: Style, s: State, d: PsoConf<Addr, Local>, sps: seq<Split>, t: nat,
      a: Addr) returns (sps': seq<Split>)
    requires Inv(style, s) && Related(style, s.c, d, sps) && t < N(s) && !IsOwn(t, a) && CanLand(d.buf[t], a)
    ensures Related(style, TsoDrain(s.c, t), PsoDrain(d, t, a), sps')
  {
    assert SplitOk(style, s.c, d, t, sps[t]);
    var sp := SharedLands(style, s.c, d, t, a, sps[t]);
    sps' := sps[t := sp];
    assert Buffers(s.c.buf[t], a);
    forall u: nat | u < N(s) && u != t && Outside(s.c.loc[u].pc) ensures !IsOwn(u, a) {
      if IsOwn(u, a) { NobodyElse(style, s, u, a, t); }
    }
    StepRelates(style, s.c, d, sps, TsoDrain(s.c, t), PsoDrain(d, t, a), t, sp);
  }

  // Running.

  lemma OwnStoreSeen(t: nat, m: Mem<Addr>, b: Buf<Addr>, n: Mem<Addr>, pb: PBuf<Addr>, a: Addr, v: int)
    requires SameViews(t, m, b, n, pb)
    ensures SameViews(t, m, b + [Write(a, v)], n, Enqueue(pb, a, v))
  {
    ReadAppend(m, b, Write(a, v), Next(t));
    ReadAppend(m, b, Write(a, v), Locked(t));
    PReadEnqueue(n, pb, a, v, Next(t));
    PReadEnqueue(n, pb, a, v, Locked(t));
  }

  lemma InitStep(style: Style, c: TsoConf<Addr, Local>, d: PsoConf<Addr, Local>, t: nat, w: Write<Addr>, l': Local)
    requires TsoWf(c) && PsoWf(d) && t < |c.loc| == |d.loc| && c.loc[t] == d.loc[t] && Outside(c.loc[t].pc)
    requires OpOf(style, t, c.loc[t]) == Store(w.addr, w.val, InitOrder(style)) && l' == AfterOp(style, t, c.loc[t], 0)
    ensures TsoStep(Prog(style), c, Run(t)) == TsoConf(c.mem, c.buf[t := c.buf[t] + [w]], c.loc[t := l'])
    ensures PsoStep(Prog(style), d, PRun(t)) == PsoConf(d.mem, d.buf[t := Enqueue(d.buf[t], w.addr, w.val)],
        d.loc[t := l'])
  {
    assert Prog(style).op(t, c.loc[t]) == OpOf(style, t, c.loc[t]);
  }

  lemma InitSplit(style: Style, c: TsoConf<Addr, Local>, d: PsoConf<Addr, Local>, c': TsoConf<Addr, Local>,
      d': PsoConf<Addr, Local>, t: nat, sp: Split, w: Write<Addr>)
    requires TsoWf(c) && PsoWf(d) && TsoWf(c') && PsoWf(d') && t < |c.loc| == |d.loc| == |c'.loc| == |d'.loc|
    requires SplitOk(style, c, d, t, sp) && Outside(c.loc[t].pc) && Outside(c'.loc[t].pc) && IsOwn(t, w.addr)
    requires c'.mem == c.mem && d'.mem == d.mem
    requires c'.buf[t] == c.buf[t] + [w] && d'.buf[t] == Enqueue(d.buf[t], w.addr, w.val)
    ensures SplitOk(style, c', d', t, sp.(own := sp.own + [Put(w.addr, w.val)], late := sp.late + [w]))
  {
    OwnStoreSeen(t, c.mem, c.buf[t], d.mem, d.buf[t], w.addr, w.val);
  }

  /** A thread outside the queue stores into its own node. */
  lemma InitRelated(style: Style, c: TsoConf<Addr, Local>, d: PsoConf<Addr, Local>, sps: seq<Split>, t: nat)
      returns (sps': seq<Split>)
    requires Related(style, c, d, sps) && t < |c.loc| && OpOf(style, t, c.loc[t]).Store? && Outside(c.loc[t].pc)
    ensures Related(style, TsoStep(Prog(style), c, Run(t)), PsoStep(Prog(style), d, PRun(t)), sps')
  {
    var sp, l' := sps[t], AfterOp(style, t, c.loc[t], 0);
    var w := if c.loc[t].pc.Idle? then FirstStore(style, t) else SecondStore(style, t);
    assert SplitOk(style, c, d, t, sp);
    InitStep(style, c, d, t, w, l');
    var c' := TsoConf(c.mem, c.buf[t := c.buf[t] + [w]], c.loc[t := l']);
    var d' := PsoConf(d.mem, d.buf[t := Enqueue(d.buf[t], w.addr, w.val)], d.loc[t := l']);
    InitSplit(style, c, d, c', d', t, sp, w);
    var sp' := sp.(own := sp.own + [Put(w.addr, w.val)], late := sp.late + [w]);
    sps' := sps[t := sp'];
    StillPublic(c.loc, t, l');
    StepRelates(style, c, d, sps, c', d', t, sp');
  }

  lemma StillPublic(locs: seq<Local>, t: nat, l': Local)
    requires t < |locs| && (Outside(locs[t].pc) ==> Outside(l'.pc))
    ensures forall a :: Public(locs[t := l'], a) ==> Public(locs, a)
  {}

  /** One operation on two memories that agree where it looks. */
  lemma IssuedAlike(m: Mem<Addr>, n: Mem<Addr>, b: PBuf<Addr>, op: Op<Addr>)
    requires Tidy(b) && PEnabled(b, op)
    requires forall a :: Accesses(op, a) ==> Get(m, a) == Get(n, a)
    ensures var e, f := Issue(m, Erase(b), op), PIssue(n, b, op);
      && Enabled(Erase(b), op) && e.val == f.val && e.buf == Erase(f.buf) && Tidy(f.buf)
      && (forall a :: Get(m, a) == Get(n, a) ==> Get(e.mem, a) == Get(f.mem, a))
      && (forall a :: !Accesses(op, a) ==> Get(e.mem, a) == Get(m, a) && Get(f.mem, a) == Get(n, a))
  {
    IssuedTogether(m, b, op);
    if op.Load? {
      assert Accesses(op, op.a);
      PReadFrame(m, n, b, op.a);
    } else if NeedsDrain(op) && !op.Fence? {
      assert Accesses(op, op.a);
    }
  }

  /** Nobody outside the queue owns what a queued thread, or one about to exchange, looks at. */
  lemma AccessIsPublic(style: Style, s: State, t: nat, a: Addr)
    requires Inv(style, s) && t < N(s) && Accesses(OpOf(style, t, s.c.loc[t]), a)
    requires !Outside(s.c.loc[t].pc) || s.c.loc[t].pc.Xchg?
    ensures Public(s.c.loc, a)
  {
    forall u: nat | u < N(s) && Outside(s.c.loc[u].pc) ensures !IsOwn(u, a) {
      if u != t && IsOwn(u, a) { NobodyElse(style, s, u, a, t); }
    }
  }

  lemma LastErased(b: PBuf<Addr>)
    requires b != [] && b[|b| - 1].Put?
    ensures Erase(b) != [] && Erase(b)[|Erase(b)| - 1] == Write(b[|b| - 1].addr, b[|b| - 1].val)
  {}

  lemma WallStaysOk(style: Style, t: nat, pc: Pc, b: PBuf<Addr>, pc': Pc)
    requires SharedOk(style, t, pc, b)
    ensures SharedOk(style, t, pc', Walled(b))
  {
    WalledTogether(b);
    InOrderAfterWall(b);
  }

  lemma PcAfter(style: Style, t: nat, l: Local, v: int)
    requires OpOf(style, t, l).Store? || (style.Linux? && !l.pc.Barrier? && !l.pc.ReadSucc?)
    ensures var pc := AfterOp(style, t, l, v).pc; !pc.ReadSucc? && !pc.HandOff?
  {}

  /** What a queued thread buffers stays in order and leaves its own node alone. */
  lemma SharedStaysOk(style: Style, s: State, t: nat, b: PBuf<Addr>, n: Mem<Addr>, v: int)
    requires style != Cbmc && Inv(style, s) && IsThread(s, t) && !Outside(PcOf(s, t))
    requires Erase(b) == s.c.buf[t] && SharedOk(style, t, PcOf(s, t), b) && PEnabled(b, OpOf(style, t, s.c.loc[t]))
    ensures SharedOk(style, t, AfterOp(style, t, s.c.loc[t], v).pc, PIssue(n, b, OpOf(style, t, s.c.loc[t])).buf)
  {
    var l := s.c.loc[t];
    var op, pc' := OpOf(style, t, l), AfterOp(style, t, l, v).pc;
    if op.StoreBarrier? {
      WallStaysOk(style, t, l.pc, b, pc');
    } else if op.Store? {
      StoreStaysOk(style, s, t, b);
      PcAfter(style, t, l, v);
    } else {
      assert PIssue(n, b, op).buf == b;
      if style.Linux? && !l.pc.ReadSucc? { PcAfter(style, t, l, v); }
    }
  }

  lemma StoreStaysOk(style: Style, s: State, t: nat, b: PBuf<Addr>)
    requires style != Cbmc && Inv(style, s) && IsThread(s, t) && !Outside(PcOf(s, t)) &&
        OpOf(style, t, s.c.loc[t]).Store?
    requires Erase(b) == s.c.buf[t] && SharedOk(style, t, PcOf(s, t), b)
    ensures var op := OpOf(style, t, s.c.loc[t]);
      var b' := Enqueue(if op.ord == Release then Walled(b) else b, op.a, op.v);
      Tidy(b') && InOrder(b') && NoneOwn(t, b')
  {
    var op := OpOf(style, t, s.c.loc[t]);
    StoreGoesElsewhere(style, s, t);
    if op.ord == Release {
      WalledTogether(b);
      StoredTogether(Walled(b), op.a, op.v);
      InOrderAfterRelease(b, op.a, op.v);
    } else {
      StoredTogether(b, op.a, op.v);
      if b != [] && b[|b| - 1].Put? {
        LastErased(b);
        NewestIsSame(style, s, t);
      }
      InOrderAppend(b, Put(op.a, op.v));
    }
  }

  /** A queued thread's plain store follows stores to its own address, unless a barrier stands between. */
  lemma NewestIsSame(style: Style, s: State, t: nat)
    requires style != Cbmc && Inv(style, s) && IsThread(s, t) && !Outside(PcOf(s, t))
    requires OpOf(style, t, s.c.loc[t]).Store? && OpOf(style, t, s.c.loc[t]).ord != Release && s.c.buf[t] != []
    ensures PcOf(s, t).HandOff? || s.c.buf[t][|s.c.buf[t]| - 1].addr == OpOf(style, t, s.c.loc[t]).a
  {
    assert ThreadOk(style, s, t) && BufOf(s, t) == s.c.buf[t];
    assert Holding(PcOf(s, t)) ==> HoldingOk(s, t);
  }

  lemma StoreGoesElsewhere(style: Style, s: State, t: nat)
    requires Inv(style, s) && IsThread(s, t) && !Outside(PcOf(s, t)) && OpOf(style, t, s.c.loc[t]).Store?
    ensures !IsOwn(t, OpOf(style, t, s.c.loc[t]).a)
  {
    assert ThreadOk(style, s, t);
    if PcOf(s, t).Link? {
      assert PlaceOk(s, s.ticket[t] - 1);
    } else if PcOf(s, t).HandOff? {
      assert PlaceOk(s, s.ticket[t] + 1);
    }
  }

  /** What a queued thread issues has the same effect on both machines. */
  lemma QueuedIssue(style: Style, s: State, d: PsoConf<Addr, Local>, t: nat, b: PBuf<Addr>)
    requires Inv(style, s) && IsThread(s, t) && !Outside(PcOf(s, t)) && Tidy(b) && Erase(b) == s.c.buf[t]
    requires forall a :: Public(s.c.loc, a) ==> Get(d.mem, a) == Get(s.c.mem, a)
    requires PEnabled(b, OpOf(style, t, s.c.loc[t]))
    ensures var op := OpOf(style, t, s.c.loc[t]);
      var e, f := Issue(s.c.mem, s.c.buf[t], op), PIssue(d.mem, b, op);
      && Enabled(s.c.buf[t], op) && e.val == f.val && e.buf == Erase(f.buf)
      && (forall a :: Get(s.c.mem, a) == Get(d.mem, a) ==> Get(e.mem, a) == Get(f.mem, a))
      && (forall u: nat, a :: u < N(s) && u != t && Outside(s.c.loc[u].pc) && IsOwn(u, a) ==>
            Get(e.mem, a) == Get(s.c.mem, a) && Get(f.mem, a) == Get(d.mem, a))
  {
    var op := OpOf(style, t, s.c.loc[t]);
    forall a | Accesses(op, a) ensures Get(s.c.mem, a) == Get(d.mem, a) {
      AccessIsPublic(style, s, t, a);
    }
    IssuedAlike(s.c.mem, d.mem, b, op);
    forall u: nat, a | u < N(s) && u != t && Outside(s.c.loc[u].pc) && IsOwn(u, a) ensures !Accesses(op, a) {
      NobodyElse(style, s, u, a, t);
    }
  }

  function AfterIssue(style: Style, c: TsoConf<Addr, Local>, t: nat, e: Effect<Addr>): TsoConf<Addr, Local>
    requires TsoWf(c) && t < |c.loc|
  {
    TsoConf(e.mem, c.buf[t := e.buf], c.loc[t := AfterOp(style, t, c.loc[t], e.val)])
  }

  function AfterPIssue(style: Style, d: PsoConf<Addr, Local>, t: nat, f: PEffect<Addr>): PsoConf<Addr, Local>
    requires PsoWf(d) && t < |d.loc|
  {
    PsoConf(f.mem, d.buf[t := f.buf], d.loc[t := AfterOp(style, t, d.loc[t], f.val)])
  }

  lemma QueuedSplit(style: Style, s: State, d: PsoConf<Addr, Local>, t: nat, e: Effect<Addr>, f: PEffect<Addr>)
    requires style != Cbmc && Inv(style, s) && PsoWf(d) && s.c.loc == d.loc && IsThread(s, t) && !Outside(PcOf(s, t))
    requires Erase(d.buf[t]) == s.c.buf[t] && SharedOk(style, t, PcOf(s, t), d.buf[t])
    requires forall a :: Public(s.c.loc, a) ==> Get(d.mem, a) == Get(s.c.mem, a)
    requires PEnabled(d.buf[t], OpOf(style, t, s.c.loc[t]))
    requires e == Issue(s.c.mem, s.c.buf[t], OpOf(style, t, s.c.loc[t])) &&
        f == PIssue(d.mem, d.buf[t], OpOf(style, t, s.c.loc[t]))
    ensures SplitOk(style, AfterIssue(style, s.c, t, e), AfterPIssue(style, d, t, f), t, Split(f.buf, [], []))
  {
    QueuedIssue(style, s, d, t, d.buf[t]);
    SharedStaysOk(style, s, t, d.buf[t], d.mem, f.val);
    OwnViewsAgree(style, s.c, d, AfterIssue(style, s.c, t, e), AfterPIssue(style, d, t, f), t, f.buf);
  }

  lemma QueuedRelated(style: Style, s: State, d: PsoConf<Addr, Local>, sps: seq<Split>, t: nat)
      returns (sps': seq<Split>)
    requires style != Cbmc && Inv(style, s) && Related(style, s.c, d, sps) && IsThread(s, t)
    requires !Outside(PcOf(s, t)) && PEnabled(d.buf[t], OpOf(style, t, s.c.loc[t]))
    ensures Related(style, TsoStep(Prog(style), s.c, Run(t)), PsoStep(Prog(style), d, PRun(t)), sps')
  {
    var b, op := d.buf[t], OpOf(style, t, s.c.loc[t]);
    assert SplitOk(style, s.c, d, t, sps[t]);
    assert b == sps[t].shared && Erase(b) == s.c.buf[t];
    var e, f := Issue(s.c.mem, s.c.buf[t], op), PIssue(d.mem, b, op);
    var c', d' := AfterIssue(style, s.c, t, e), AfterPIssue(style, d, t, f);
    QueuedIssue(style, s, d, t, b);
    QueuedSplit(style, s, d, t, e, f);
    assert Prog(style).op(t, s.c.loc[t]) == op;
    sps' := sps[t := Split(f.buf, [], [])];
    StillPublic(s.c.loc, t, c'.loc[t]);
    StepRelates(style, s.c, d, sps, c', d', t, Split(f.buf, [], []));
  }

  /** A thread that leaves the queue takes its node with it as both machines have it. */
  lemma OwnViewsAgree(style: Style, c: TsoConf<Addr, Local>, d: PsoConf<Addr, Local>, c': TsoConf<Addr, Local>,
      d': PsoConf<Addr, Local>, t: nat, b: PBuf<Addr>)
    requires TsoWf(c) && PsoWf(d) && t < |c.loc| == |d.loc| && !Outside(c.loc[t].pc)
    requires forall a :: Public(c.loc, a) ==> Get(d.mem, a) == Get(c.mem, a)
    requires forall a :: Get(c.mem, a) == Get(d.mem, a) ==> Get(c'.mem, a) == Get(d'.mem, a)
    ensures SameViews(t, c'.mem, Erase(b), d'.mem, b)
  {
    forall a | a == Next(t) || a == Locked(t) ensures Read(c'.mem, Erase(b), a) == PRead(d'.mem, b, a) {
      assert Public(c.loc, a);
      ReadTogether(c'.mem, b, a);
      PReadFrame(c'.mem, d'.mem, b, a);
    }
  }

  /** An own store that is late lands on TSO at last. */
  lemma LateLands(style: Style, c: TsoConf<Addr, Local>, d: PsoConf<Addr, Local>, sps: seq<Split>, t: nat)
      returns (sps': seq<Split>)
    requires Related(style, c, d, sps) && t < |c.loc| && Outside(c.loc[t].pc) && d.buf[t] == [] && c.buf[t] != []
    ensures Related(style, TsoDrain(c, t), d, sps')
  {
    var sp := sps[t];
    assert SplitOk(style, c, d, t, sp);
    assert sp.shared == [] && c.buf[t] == sp.late;
    ReadDrain(c.mem, c.buf[t], Next(t));
    ReadDrain(c.mem, c.buf[t], Locked(t));
    var sp' := sp.(late := sp.late[1..]);
    sps' := sps[t := sp'];
    StepRelates(style, c, d, sps, TsoDrain(c, t), d, t, sp');
  }

  lemma ExecSnoc(style: Style, s: State, ts: seq<Choice>, ch: Choice)
    requires Wf(s)
    ensures Exec(style, s, ts + [ch]) == Step(style, Exec(style, s, ts), ch)
  {
    assert (ts + [ch])[..|ts|] == ts;
  }

  lemma {:induction false} AllLateLands(style: Style, s0: State, ts: seq<Choice>, d: PsoConf<Addr, Local>,
      sps: seq<Split>, t: nat)
      returns (more: seq<Choice>, sps': seq<Split>)
    requires Wf(s0) && Inv(style, Exec(style, s0, ts)) && Related(style, Exec(style, s0, ts).c, d, sps)
    requires t < |d.loc| && Outside(d.loc[t].pc) && d.buf[t] == []
    ensures var s := Exec(style, s0, more); Inv(style, s) && Related(style, s.c, d, sps') && s.c.buf[t] == []
    decreases |Exec(style, s0, ts).c.buf[t]|
  {
    var s := Exec(style, s0, ts);
    more, sps' := ts, sps;
    if s.c.buf[t] != [] {
      var mid := LateLands(style, s.c, d, sps, t);
      OneMore(style, s0, ts, Drain(t));
      more, sps' := AllLateLands(style, s0, ts + [Drain(t)], d, mid, t);
    }
  }

  /** The exchange: with nothing buffered on either machine the node is the same on both. */
  lemma ExchangeRelated(style: Style, s: State, d: PsoConf<Addr, Local>, sps: seq<Split>, t: nat)
      returns (sps': seq<Split>)
    requires Inv(style, s) && Related(style, s.c, d, sps) && IsThread(s, t)
    requires PcOf(s, t).Xchg? && d.buf[t] == [] && s.c.buf[t] == []
    ensures Related(style, TsoStep(Prog(style), s.c, Run(t)), PsoStep(Prog(style), d, PRun(t)), sps')
  {
    var c, op := s.c, Exchange(Tail, t);
    assert SplitOk(style, c, d, t, sps[t]);
    assert Prog(style).op(t, c.loc[t]) == op;
    AccessIsPublic(style, s, t, Tail);
    var l' := AfterOp(style, t, c.loc[t], Get(c.mem, Tail));
    var c' := TsoConf(c.mem[Tail := t], c.buf[t := []], c.loc[t := l']);
    var d' := PsoConf(d.mem[Tail := t], d.buf[t := []], d.loc[t := l']);
    assert TsoStep(Prog(style), c, Run(t)) == c' && PsoStep(Prog(style), d, PRun(t)) == d';
    var sp := Split([], [], []);
    forall a | Public(c'.loc, a) ensures Get(d'.mem, a) == Get(c'.mem, a) {
      if IsOwn(t, a) {
        assert Read(c.mem, [], a) == PRead(d.mem, [], a);
      } else {
        assert Public(c.loc, a);
      }
    }
    sps' := sps[t := sp];
    StepRelates(style, c, d, sps, c', d', t, sp);
  }

  /** One PSO choice as TSO choices. */
  lemma FollowPsoStep(style: Style, s0: State, ts: seq<Choice>, d: PsoConf<Addr, Local>, sps: seq<Split>,
      ch: PChoice<Addr>)
      returns (more: seq<Choice>, sps': seq<Split>)
    requires style != Cbmc && Wf(s0) && Inv(style, Exec(style, s0, ts)) && Related(style, Exec(style, s0, ts).c, d, sps)
    ensures var s := Exec(style, s0, more); Inv(style, s) && Related(style, s.c, PsoStep(Prog(style), d, ch), sps')
  {
    var s, t := Exec(style, s0, ts), ch.t;
    more, sps' := ts, sps;
    if t < |d.loc| {
      assert Prog(style).op(t, d.loc[t]) == OpOf(style, t, d.loc[t]);
      assert SplitOk(style, s.c, d, t, sps[t]);
      if ch.PDrain? {
        if CanLand(d.buf[t], ch.a) { more, sps' := FollowLanding(style, s0, ts, d, sps, t, ch.a); }
      } else if PEnabled(d.buf[t], OpOf(style, t, d.loc[t])) {
        more, sps' := FollowRun(style, s0, ts, d, sps, t);
      }
    }
  }

  lemma FollowLanding(style: Style, s0: State, ts: seq<Choice>, d: PsoConf<Addr, Local>, sps: seq<Split>, t: nat,
      a: Addr)
      returns (more: seq<Choice>, sps': seq<Split>)
    requires Wf(s0) && Inv(style, Exec(style, s0, ts)) && Related(style, Exec(style, s0, ts).c, d, sps)
    requires t < |d.loc| && CanLand(d.buf[t], a)
    ensures var s := Exec(style, s0, more); Inv(style, s) && Related(style, s.c, PsoDrain(d, t, a), sps')
  {
    var s := Exec(style, s0, ts);
    if IsOwn(t, a) {
      more := ts;
      sps' := OwnLandsRelated(style, s.c, d, sps, t, a);
    } else {
      more := ts + [Drain(t)];
      OneMore(style, s0, ts, Drain(t));
      sps' := SharedLandsRelated(style, s, d, sps, t, a);
    }
  }

  lemma FollowExchange(style: Style, s0: State, ts: seq<Choice>, d: PsoConf<Addr, Local>, sps: seq<Split>, t: nat)
      returns (more: seq<Choice>, sps': seq<Split>)
    requires Wf(s0) && Inv(style, Exec(style, s0, ts)) && Related(style, Exec(style, s0, ts).c, d, sps)
    requires t < |d.loc| && d.loc[t].pc.Xchg? && d.buf[t] == []
    ensures var s := Exec(style, s0, more); Inv(style, s) && Related(style, s.c, PsoStep(Prog(style), d, PRun(t)), sps')
  {
    var pre, mid := AllLateLands(style, s0, ts, d, sps, t);
    more := pre + [Run(t)];
    OneMore(style, s0, pre, Run(t));
    sps' := ExchangeRelated(style, Exec(style, s0, pre), d, mid, t);
  }

  lemma OneMore(style: Style, s0: State, ts: seq<Choice>, ch: Choice)
    requires Wf(s0) && Inv(style, Exec(style, s0, ts))
    ensures Inv(style, Exec(style, s0, ts + [ch]))
    ensures Exec(style, s0, ts + [ch]).c == TsoStep(Prog(style), Exec(style, s0, ts).c, ch)
  {
    ExecSnoc(style, s0, ts, ch);
    StepKeepsInv(style, Exec(style, s0, ts), ch);
    StepIsTso(style, Exec(style, s0, ts), ch);
  }

  lemma FollowRun(style: Style, s0: State, ts: seq<Choice>, d: PsoConf<Addr, Local>, sps: seq<Split>, t: nat)
      returns (more: seq<Choice>, sps': seq<Split>)
    requires style != Cbmc && Wf(s0) && Inv(style, Exec(style, s0, ts)) && Related(style, Exec(style, s0, ts).c, d, sps)
    requires t < |d.loc| && PEnabled(d.buf[t], OpOf(style, t, d.loc[t]))
    ensures var s := Exec(style, s0, more); Inv(style, s) && Related(style, s.c, PsoStep(Prog(style), d, PRun(t)), sps')
  {
    if d.loc[t].pc.Xchg? {
      more, sps' := FollowExchange(style, s0, ts, d, sps, t);
    } else {
      var s := Exec(style, s0, ts);
      more := ts + [Run(t)];
      OneMore(style, s0, ts, Run(t));
      if Outside(d.loc[t].pc) { sps' := InitRelated(style, s.c, d, sps, t); }
      else { sps' := QueuedRelated(style, s, d, sps, t); }
    }
  }

  function PBegin(mem: Mem<Addr>, rounds: seq<nat>): PsoConf<Addr, Local> {
    PsoInit(ScConf(mem, Begin(mem, rounds).loc))
  }

  lemma StartRelated(style: Style, mem: Mem<Addr>, rounds: seq<nat>) returns (sps: seq<Split>)
    ensures Related(style, Start(mem, rounds).c, PBegin(mem, rounds), sps)
  {
    sps := seq(|rounds|, _ => Split([], [], []));
    var c, d := Start(mem, rounds).c, PBegin(mem, rounds);
    forall t: nat | t < |c.loc| ensures SplitOk(style, c, d, t, sps[t]) {}
  }

  lemma {:induction false} FollowPsoRun(style: Style, mem: Mem<Addr>, rounds: seq<nat>, ps: seq<PChoice<Addr>>)
      returns (ts: seq<Choice>, sps: seq<Split>)
    requires style != Cbmc && StartMem(mem)
    ensures var s := Exec(style, Start(mem, rounds), ts);
      Inv(style, s) && Related(style, s.c, PsoExec(Prog(style), PBegin(mem, rounds), ps), sps)
  {
    if ps == [] {
      ts := [];
      sps := StartRelated(style, mem, rounds);
      Reachable(style, mem, rounds, []);
    } else {
      var n := |ps| - 1;
      var pre, mid := FollowPsoRun(style, mem, rounds, ps[..n]);
      var d := PsoExec(Prog(style), PBegin(mem, rounds), ps[..n]);
      ts, sps := FollowPsoStep(style, Start(mem, rounds), pre, d, mid, ps[n]);
    }
  }

  /** With an ordered hand-off every PSO run goes through the local states of a TSO run. */
  lemma PsoRunIsTsoRun(style: Style, mem: Mem<Addr>, rounds: seq<nat>, ps: seq<PChoice<Addr>>) returns (ts: seq<Choice>)
    requires style != Cbmc && StartMem(mem)
    ensures PsoExec(Prog(style), PBegin(mem, rounds), ps).loc == TsoExec(Prog(style), Begin(mem, rounds), ts).loc
  {
    var sps;
    ts, sps := FollowPsoRun(style, mem, rounds, ps);
    ExecIsTso(style, Start(mem, rounds), ts);
  }

  lemma PsoMutualExclusion(style: Style, mem: Mem<Addr>, rounds: seq<nat>, ps: seq<PChoice<Addr>>)
    requires style != Cbmc && StartMem(mem)
    ensures Exclusive(PsoExec(Prog(style), PBegin(mem, rounds), ps).loc)
  {
    var ts := PsoRunIsTsoRun(style, mem, rounds, ps);
    MutualExclusion(style, mem, rounds, ts);
  }

  /** The Linux form to the letter: `locked` is atomic there, so assignments to it are seq_cst. */
  function AsWritten(op: Op<Addr>): Op<Addr> {
    if op.Store? && op.a.Locked? then op.(ord := SeqCst) else op
  }

  function LinuxProg(): Program<Addr, Local> {
    Program((t: nat, l: Local) => AsWritten(OpOf(Linux, t, l)), (t: nat, l: Local, v: int) => AfterOp(Linux, t, l, v))
  }

  /** It has no more runs than the form with buffered stores, on either machine. */
  lemma LinuxAsWritten(mem: Mem<Addr>, rounds: seq<nat>, ts: seq<Choice>, ps: seq<PChoice<Addr>>)
    requires StartMem(mem)
    ensures Exclusive(TsoExec(LinuxProg(), Begin(mem, rounds), ts).loc)
    ensures Exclusive(PsoExec(LinuxProg(), PBegin(mem, rounds), ps).loc)
  {
    var ts' := StrongerTsoRun(LinuxProg(), Prog(Linux), Begin(mem, rounds), ts);
    var ps' := StrongerPsoRun(LinuxProg(), Prog(Linux), PBegin(mem, rounds), ps);
    MutualExclusion(Linux, mem, rounds, ts');
    PsoMutualExclusion(Linux, mem, rounds, ps');
  }
}
