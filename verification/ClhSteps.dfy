/** Every step of the CLH lock keeps the chain invariant. */
module ClhSteps {
  import opened StoreBuffer
  import opened Machine
  import opened Clh
  import opened ClhInvariant

  predicate CanRun(h: Heap, s: State, t: nat) {
    IsThread(s, t) && Enabled(s.c.buf[t], OpOf(h, t, s.c.loc[t]))
  }

  /** A step of another thread, seen from thread `u`. */
  predicate Untouched(s: State, s': State, u: nat) {
    && IsThread(s, u) && IsThread(s', u)
    && LocOf(s, u) == LocOf(s', u) && BufOf(s, u) == BufOf(s', u) && s.ticket[u] == s'.ticket[u]
    && s.visits <= s'.visits
  }

  lemma ViewFrame(s: State, s': State, u: nat, a: Addr)
    requires IsThread(s, u) && IsThread(s', u) && BufOf(s, u) == BufOf(s', u)
    requires Get(s.c.mem, a) == Get(s'.c.mem, a)
    ensures View(s, u, a) == View(s', u, a)
  {
    ReadFrame(s.c.mem, s'.c.mem, s.c.buf[u], a);
  }

  lemma OutsideFrame(h: Heap, s: State, s': State, u: nat)
    requires Untouched(s, s', u) && Outside(LocOf(s, u).pc) && Front(s, u) == Front(s', u)
    requires var mine := Locked(Mine(h, u, LocOf(s, u))); Get(s.c.mem, mine) == Get(s'.c.mem, mine)
    requires ThreadOk(h, s, u)
    ensures ThreadOk(h, s', u)
  {
    ViewFrame(s, s', u, Locked(Mine(h, u, LocOf(s, u))));
  }

  lemma QueuedFrame(h: Heap, s: State, s': State, u: nat)
    requires Untouched(s, s', u) && !Outside(LocOf(s, u).pc)
    requires s.served == s'.served && s.grant == s'.grant
    requires Holding(LocOf(s, u).pc) ==> Get(s.c.mem, Cs) == Get(s'.c.mem, Cs)
    requires ThreadOk(h, s, u)
    ensures ThreadOk(h, s', u)
  {}

  /** The next node of an outside thread is not in the chain yet. */
  lemma MineIsNew(h: Heap, s: State, t: nat, k: nat)
    requires Inv(h, s) && IsThread(s, t) && Outside(LocOf(s, t).pc)
    ensures k <= |s.visits| ==> NodeAt(h, s, k) != Mine(h, t, LocOf(s, t))
  {
    if 0 < k <= |s.visits| { assert PlaceOk(h, s, k - 1); }
  }

  /** Different places of the chain are different nodes. */
  lemma PlacesDiffer(h: Heap, s: State, j: nat)
    requires Inv(h, s) && j <= |s.visits| && 0 < s.served && j != s.served
    requires s.grant != NoGrant
    ensures NodeAt(h, s, j) != NodeAt(h, s, s.served)
  {
    assert PlaceOk(h, s, j) && PlaceOk(h, s, s.served);
    if s.served < j { assert PlaceOk(h, s, j - 1) && PlaceOk(h, s, s.served - 1); }
  }

  lemma TwoMine(h: Heap, s: State, t: nat, u: nat)
    requires Fresh(h) && IsThread(s, t) && IsThread(s, u) && t != u
    ensures Mine(h, t, LocOf(s, t)) != Mine(h, u, LocOf(s, u))
  {}

  lemma InitStoreOthers(h: Heap, s: State, s': State, t: nat)
    requires Inv(h, s) && CanRun(h, s, t) && LocOf(s, t).pc.Idle? && s' == AfterRun(h, s, t)
    ensures forall u :: 0 <= u < N(s) && u != t ==> ThreadOk(h, s', u)
    ensures forall k: nat :: PlaceOk(h, s', k)
  {
    forall u | 0 <= u < N(s) && u != t ensures ThreadOk(h, s', u) {
      assert ThreadOk(h, s, u);
      TwoMine(h, s, t, u);
      if Outside(LocOf(s, u).pc) { OutsideFrame(h, s, s', u); } else { QueuedFrame(h, s, s', u); }
    }
    forall k: nat ensures PlaceOk(h, s', k) {
      assert PlaceOk(h, s, k);
      MineIsNew(h, s, t, k);
      MineIsNew(h, s, t, k + 1);
    }
  }

  lemma InitStoreSelf(h: Heap, s: State, t: nat)
    requires Inv(h, s) && CanRun(h, s, t) && LocOf(s, t).pc.Idle?
    ensures ThreadOk(h, AfterRun(h, s, t), t)
    ensures View(AfterRun(h, s, t), t, Cs) == View(s, t, Cs)
  {
    var s' := AfterRun(h, s, t);
    var mine := Locked(Mine(h, t, LocOf(s, t)));
    assert ThreadOk(h, s, t);
    ReadAppend(s.c.mem, s.c.buf[t], Write(mine, 1), mine);
    ReadAppend(s.c.mem, s.c.buf[t], Write(mine, 1), Cs);
    var b, b' := BufOf(s, t), BufOf(s', t);
    if h.ord == SeqCst {
      assert b' == b == [];
    } else {
      assert b' == b + [Write(mine, 1)] && forall i :: 0 <= i < |b| ==> b'[i] == b[i];
    }
    assert LocOf(s', t).pc == Xchg && Front(s', t) == Front(s, t);
  }

  lemma InitStoreGrant(h: Heap, s: State, t: nat)
    requires Inv(h, s) && CanRun(h, s, t) && LocOf(s, t).pc.Idle?
    ensures GrantOk(h, AfterRun(h, s, t))
  {
    var s' := AfterRun(h, s, t);
    InitStoreSelf(h, s, t);
    if s.grant != NoGrant && s.grant.giver != t {
      assert ThreadOk(h, s, t);
      ViewFrame(s, s', s.grant.giver, Cs);
      MineIsNew(h, s, t, s.served);
    }
  }

  lemma InitStoreGlobals(h: Heap, s: State, t: nat)
    requires Inv(h, s) && CanRun(h, s, t) && LocOf(s, t).pc.Idle?
    ensures var s' := AfterRun(h, s, t);
      && Wf(s') && N(s') == N(s) && s'.visits == s.visits && s'.served == s.served && s'.grant == s.grant
      && Get(s'.c.mem, Tail) == Get(s.c.mem, Tail) && Get(s'.c.mem, Cs) == Get(s.c.mem, Cs)
      && Held(s') == Held(s)
  {
    assert ThreadOk(h, s, t);
    if s.served < |s.visits| { assert PlaceOk(h, s, s.served); }
  }

  /** A store, buffered or not, to the thread's own next node. */
  lemma InitStore(h: Heap, s: State, t: nat)
    requires Inv(h, s) && CanRun(h, s, t) && LocOf(s, t).pc.Idle?
    ensures Inv(h, AfterRun(h, s, t))
  {
    InitStoreGlobals(h, s, t);
    InitStoreSelf(h, s, t);
    InitStoreOthers(h, s, AfterRun(h, s, t), t);
    InitStoreGrant(h, s, t);
  }

  lemma ExchangeOthers(h: Heap, s: State, s': State, t: nat)
    requires Inv(h, s) && CanRun(h, s, t) && LocOf(s, t).pc.Xchg? && s' == AfterRun(h, s, t)
    ensures forall u :: 0 <= u < N(s) && u != t ==> ThreadOk(h, s', u)
    ensures forall k: nat :: PlaceOk(h, s', k)
  {
    assert ThreadOk(h, s, t);
    forall u | 0 <= u < N(s) && u != t ensures ThreadOk(h, s', u) {
      assert ThreadOk(h, s, u);
      if Outside(LocOf(s, u).pc) { OutsideFrame(h, s, s', u); } else { QueuedFrame(h, s, s', u); }
    }
    forall k: nat ensures PlaceOk(h, s', k) {
      assert PlaceOk(h, s, k);
    }
  }

  lemma Exchanges(h: Heap, s: State, t: nat)
    requires Inv(h, s) && CanRun(h, s, t) && LocOf(s, t).pc.Xchg?
    ensures Inv(h, AfterRun(h, s, t))
  {
    var s' := AfterRun(h, s, t);
    assert ThreadOk(h, s, t);
    assert GrantOk(h, s') by {
      if s.grant != NoGrant { ViewFrame(s, s', s.grant.giver, Cs); }
    }
    if s.served < |s.visits| { assert PlaceOk(h, s, s.served); }
    ExchangeOthers(h, s, s', t);
  }

  /** The others, for a step in the queue that touches no memory. */
  lemma OthersFrame(h: Heap, s: State, s': State, t: nat)
    requires Inv(h, s) && IsThread(s, t) && Wf(s') && N(s) == N(s')
    requires s.served == s'.served && s.grant == s'.grant && s.visits == s'.visits && s.ticket == s'.ticket
    requires forall a :: a != Cs || !Holding(LocOf(s, t).pc) ==> Get(s.c.mem, a) == Get(s'.c.mem, a)
    requires forall u: nat :: u < N(s) && u != t ==> Untouched(s, s', u)
    requires !Outside(LocOf(s, t).pc) && !Outside(LocOf(s', t).pc) && LocOf(s, t).round == LocOf(s', t).round
    ensures forall u :: 0 <= u < N(s) && u != t ==> ThreadOk(h, s', u)
    ensures forall k: nat :: PlaceOk(h, s', k)
  {
    assert ThreadOk(h, s, t);
    forall u | 0 <= u < N(s) && u != t ensures ThreadOk(h, s', u) {
      assert ThreadOk(h, s, u);
      assert Untouched(s, s', u);
      if Outside(LocOf(s, u).pc) { OutsideFrame(h, s, s', u); } else { QueuedFrame(h, s, s', u); }
    }
    forall k: nat ensures PlaceOk(h, s', k) {
      assert PlaceOk(h, s, k);
      if k < |s.visits| {
        var v := s.visits[k].t;
        assert v < N(s) && v != t ==> Untouched(s, s', v);
      }
    }
  }

  lemma Spins(h: Heap, s: State, t: nat)
    requires Inv(h, s) && CanRun(h, s, t) && LocOf(s, t).pc.Spin?
    ensures Inv(h, AfterRun(h, s, t))
  {
    var s' := AfterRun(h, s, t);
    var k := s.ticket[t];
    assert ThreadOk(h, s, t);
    if k > s.served { assert PlaceOk(h, s, k - 1); }
    if LockedAt(h, s, k) != 0 {
      assert s'.c.loc == s.c.loc && s'.c.buf == s.c.buf;
      assert s' == s;
    } else {
      assert PlaceOk(h, s, k);
      assert ThreadOk(h, s', t);
      OthersFrame(h, s, s', t);
    }
  }

  lemma HolderSelf(h: Heap, s: State, t: nat)
    requires CanRun(h, s, t) && ThreadOk(h, s, t)
    requires Holding(LocOf(s, t).pc) && !LocOf(s, t).pc.Unlock?
    ensures ThreadOk(h, AfterRun(h, s, t), t)
  {
    var pc := LocOf(s, t).pc;
    assert HoldingOk(s, t) && BufOf(s, t) == s.c.buf[t];
    if pc.IncStore? || pc.DecStore? {
      ReadAppend(s.c.mem, s.c.buf[t], Write(Cs, pc.r + if pc.IncStore? then 1 else -1), Cs);
    }
  }

  lemma HolderSteps(h: Heap, s: State, t: nat)
    requires Inv(h, s) && CanRun(h, s, t)
    requires Holding(LocOf(s, t).pc) && !LocOf(s, t).pc.Unlock?
    ensures Inv(h, AfterRun(h, s, t))
  {
    var s' := AfterRun(h, s, t);
    assert ThreadOk(h, s, t);
    HolderSelf(h, s, t);
    OthersFrame(h, s, s', t);
  }

  lemma UnlockOthers(h: Heap, s: State, s': State, t: nat)
    requires Inv(h, s) && CanRun(h, s, t) && LocOf(s, t).pc.Unlock? && s' == AfterRun(h, s, t)
    ensures forall u :: 0 <= u < N(s) && u != t ==> ThreadOk(h, s', u)
  {
    assert ThreadOk(h, s, t);
    forall u | 0 <= u < N(s) && u != t ensures ThreadOk(h, s', u) {
      assert ThreadOk(h, s, u);
      TwoMine(h, s, t, u);
      if Outside(LocOf(s, u).pc) { OutsideFrame(h, s, s', u); }
    }
  }

  /** While thread `t` holds the lock its node is the one above the head only. */
  lemma HeadNode(h: Heap, s: State, t: nat, k: nat)
    requires Inv(h, s) && IsThread(s, t) && Holding(LocOf(s, t).pc) && k <= |s.visits|
    ensures s.served < |s.visits| && NodeAt(h, s, s.served + 1) == Mine(h, t, LocOf(s, t))
    ensures k != s.served + 1 ==> NodeAt(h, s, k) != Mine(h, t, LocOf(s, t))
  {
    assert ThreadOk(h, s, t);
    if k > 0 { assert PlaceOk(h, s, k - 1); }
  }

  lemma UnlockPlaces(h: Heap, s: State, s': State, t: nat)
    requires Inv(h, s) && CanRun(h, s, t) && LocOf(s, t).pc.Unlock? && s' == AfterRun(h, s, t)
    ensures forall k: nat :: PlaceOk(h, s', k)
  {
    assert ThreadOk(h, s, t);
    forall k: nat ensures PlaceOk(h, s', k) {
      assert PlaceOk(h, s, k) && PlaceOk(h, s, s.served);
      if k <= |s.visits| { HeadNode(h, s, t, k); }
      if k + 1 <= |s.visits| { HeadNode(h, s, t, k + 1); }
    }
  }

  lemma UnlockState(h: Heap, s: State, s': State, t: nat)
    requires Inv(h, s) && CanRun(h, s, t) && LocOf(s, t).pc.Unlock? && s' == AfterRun(h, s, t)
    ensures var w := Write(Locked(Mine(h, t, LocOf(s, t))), 0);
      && IsThread(s', t) && LocOf(s', t).pc == Idle && s'.visits == s.visits && s'.served == s.served + 1
      && View(s', t, Cs) == View(s, t, Cs) == 0
      && (if h.ord == SeqCst then BufOf(s', t) == [] && s'.grant == NoGrant
          else BufOf(s', t) == BufOf(s, t) + [w] && s'.c.mem == s.c.mem && s'.grant == Grant(t, |BufOf(s, t)|))
  {
    assert ThreadOk(h, s, t);
    assert HoldingOk(s, t) && BufOf(s, t) == s.c.buf[t];
    ReadAppend(s.c.mem, s.c.buf[t], Write(Locked(Mine(h, t, LocOf(s, t))), 0), Cs);
  }

  lemma UnlockSelf(h: Heap, s: State, s': State, t: nat)
    requires Inv(h, s) && CanRun(h, s, t) && LocOf(s, t).pc.Unlock? && s' == AfterRun(h, s, t)
    ensures ThreadOk(h, s', t) && GrantOk(h, s') && s'.served <= |s'.visits|
    ensures h.ord == SeqCst ==> Get(s'.c.mem, Cs) == 0
  {
    UnlockState(h, s, s', t);
    assert ThreadOk(h, s, t);
    assert HoldingOk(s, t) && BufOf(s, t) == s.c.buf[t];
    assert NodeAt(h, s', s'.served) == Mine(h, t, LocOf(s, t));
  }

  lemma Unlocks(h: Heap, s: State, t: nat)
    requires Inv(h, s) && CanRun(h, s, t) && LocOf(s, t).pc.Unlock?
    ensures Inv(h, AfterRun(h, s, t))
  {
    var s' := AfterRun(h, s, t);
    UnlockSelf(h, s, s', t);
    UnlockOthers(h, s, s', t);
    UnlockPlaces(h, s, s', t);
  }

  lemma DrainView(s: State, t: nat, a: Addr)
    requires IsThread(s, t) && BufOf(s, t) != []
    ensures View(AfterDrain(s, t), t, a) == View(s, t, a)
  {
    ReadDrain(s.c.mem, s.c.buf[t], a);
  }

  lemma HolderDrains(h: Heap, s: State, t: nat)
    requires Inv(h, s) && IsThread(s, t) && BufOf(s, t) != [] && Holding(LocOf(s, t).pc)
    ensures Inv(h, AfterDrain(s, t))
  {
    var s' := AfterDrain(s, t);
    assert ThreadOk(h, s, t);
    assert HoldingOk(s, t) && BufOf(s, t) == s.c.buf[t];
    DrainView(s, t, Cs);
    assert ThreadOk(h, s', t);
    OthersFrame(h, s, s', t);
  }

  lemma OutsideSelf(h: Heap, s: State, t: nat)
    requires IsThread(s, t) && BufOf(s, t) != [] && Outside(LocOf(s, t).pc) && ThreadOk(h, s, t) && GrantOk(h, s)
    ensures ThreadOk(h, AfterDrain(s, t), t)
  {
    var s' := AfterDrain(s, t);
    DrainView(s, t, Locked(Mine(h, t, LocOf(s, t))));
    var b, b' := BufOf(s, t), BufOf(s', t);
    forall i | Front(s', t) <= i < |b'| ensures b'[i].addr == Locked(Mine(h, t, LocOf(s, t))) {
      assert b'[i] == b[i + 1];
    }
  }

  /** What the oldest store of an outside thread is. */
  lemma OldestStore(h: Heap, s: State, t: nat)
    requires Inv(h, s) && IsThread(s, t) && BufOf(s, t) != [] && Outside(LocOf(s, t).pc)
    ensures var w := BufOf(s, t)[0];
      if s.grant != NoGrant && s.grant.giver == t
      then if s.grant.at == 0 then w == Write(Locked(NodeAt(h, s, s.served)), 0) else w.addr == Cs
      else w.addr == Locked(Mine(h, t, LocOf(s, t)))
  {
    assert ThreadOk(h, s, t);
  }

  lemma OutsideDrainOthers(h: Heap, s: State, s': State, t: nat)
    requires Inv(h, s) && IsThread(s, t) && BufOf(s, t) != [] && Outside(LocOf(s, t).pc) && s' == AfterDrain(s, t)
    ensures forall u :: 0 <= u < N(s) && u != t ==> ThreadOk(h, s', u)
  {
    OldestStore(h, s, t);
    forall u | 0 <= u < N(s) && u != t ensures ThreadOk(h, s', u) {
      assert ThreadOk(h, s, u);
      if Outside(LocOf(s, u).pc) {
        TwoMine(h, s, t, u);
        MineIsNew(h, s, u, s.served);
        OutsideFrame(h, s, s', u);
      } else if Holding(LocOf(s, u).pc) {
        QueuedFrame(h, s, s', u);
      }
    }
  }

  lemma OutsideDrainPlaces(h: Heap, s: State, s': State, t: nat)
    requires Inv(h, s) && IsThread(s, t) && BufOf(s, t) != [] && Outside(LocOf(s, t).pc) && s' == AfterDrain(s, t)
    ensures forall k: nat :: PlaceOk(h, s', k)
  {
    OldestStore(h, s, t);
    forall k: nat ensures PlaceOk(h, s', k) {
      assert PlaceOk(h, s, k);
      MineIsNew(h, s, t, k);
      MineIsNew(h, s, t, k + 1);
      if s.grant != NoGrant {
        if k <= |s.visits| && k != s.served { PlacesDiffer(h, s, k); }
        if k + 1 <= |s.visits| && k + 1 != s.served { PlacesDiffer(h, s, k + 1); }
      }
    }
  }

  lemma OutsideDrainGrant(h: Heap, s: State, s': State, t: nat)
    requires Inv(h, s) && IsThread(s, t) && BufOf(s, t) != [] && Outside(LocOf(s, t).pc) && s' == AfterDrain(s, t)
    ensures GrantOk(h, s') && (s'.grant == NoGrant && !Held(s') ==> Get(s'.c.mem, Cs) == 0)
  {
    assert ThreadOk(h, s, t);
    OldestStore(h, s, t);
    DrainView(s, t, Cs);
    var b := BufOf(s, t);
    if s.grant == NoGrant || s.grant.giver != t {
      if s.grant != NoGrant { ViewFrame(s, s', s.grant.giver, Cs); }
    } else if s.grant.at == 0 {
      forall i | 0 <= i < |b[1..]| ensures b[1..][i].addr != Cs {
        assert b[1..][i] == b[i + 1];
      }
      ReadMiss(s'.c.mem, b[1..], Cs);
    }
  }

  lemma OutsideDrains(h: Heap, s: State, t: nat)
    requires Inv(h, s) && IsThread(s, t) && BufOf(s, t) != [] && Outside(LocOf(s, t).pc)
    ensures Inv(h, AfterDrain(s, t))
  {
    var s' := AfterDrain(s, t);
    assert ThreadOk(h, s, t);
    OldestStore(h, s, t);
    OutsideSelf(h, s, t);
    OutsideDrainOthers(h, s, s', t);
    OutsideDrainPlaces(h, s, s', t);
    OutsideDrainGrant(h, s, s', t);
  }

  lemma StepKeepsInv(h: Heap, s: State, ch: Choice)
    requires Inv(h, s)
    ensures Inv(h, Step(h, s, ch))
  {
    var t := ch.t;
    if t < N(s) {
      assert ThreadOk(h, s, t);
      var pc := LocOf(s, t).pc;
      if ch.Drain? {
        if BufOf(s, t) != [] {
          if Outside(pc) { OutsideDrains(h, s, t); } else { HolderDrains(h, s, t); }
        }
      } else if CanRun(h, s, t) {
        match pc
        case Idle => InitStore(h, s, t);
        case Xchg => Exchanges(h, s, t);
        case Spin(_) => Spins(h, s, t);
        case Unlock => Unlocks(h, s, t);
        case Failed =>
        case _ => HolderSteps(h, s, t);
      }
    }
  }

  /** As after clh_lock_init: the tail is the dummy node, which is unlocked; other memory is arbitrary. */
  predicate StartMem(h: Heap, mem: Mem<Addr>) {
    Get(mem, Tail) == h.dummy && Get(mem, Locked(h.dummy)) == 0 && Get(mem, Cs) == 0
  }

  lemma {:induction false} Reachable(h: Heap, mem: Mem<Addr>, rounds: seq<nat>, sched: seq<Choice>)
    requires Fresh(h) && StartMem(h, mem)
    ensures Inv(h, Exec(h, Start(mem, rounds), sched))
  {
    var s0 := Start(mem, rounds);
    if sched == [] {
      assert Inv(h, s0);
    } else {
      var n := |sched| - 1;
      Reachable(h, mem, rounds, sched[..n]);
      StepKeepsInv(h, Exec(h, s0, sched[..n]), sched[n]);
    }
  }
}
