/** Every step of the MCS lock keeps the queue invariant. */
module McsSteps {
  import opened StoreBuffer
  import opened Machine
  import opened Mcs
  import opened McsInvariant

  predicate CanRun(style: Style, s: State, t: nat) {
    IsThread(s, t) && Enabled(s.c.buf[t], OpOf(style, t, s.c.loc[t]))
  }

  /** A step of another thread that leaves this thread's node, place and successor alone. */
  predicate Untouched(s: State, s': State, u: nat) {
    && IsThread(s, u) && IsThread(s', u)
    && PcOf(s, u) == PcOf(s', u) && BufOf(s, u) == BufOf(s', u) && s.ticket[u] == s'.ticket[u]
    && Get(s.c.mem, Next(u)) == Get(s'.c.mem, Next(u))
    && Get(s.c.mem, Locked(u)) == Get(s'.c.mem, Locked(u))
    && s.arrivals <= s'.arrivals
  }

  lemma ViewFrame(s: State, s': State, u: nat, a: Addr)
    requires IsThread(s, u) && IsThread(s', u) && BufOf(s, u) == BufOf(s', u)
    requires Get(s.c.mem, a) == Get(s'.c.mem, a)
    ensures View(s, u, a) == View(s', u, a)
  {
    ReadFrame(s.c.mem, s'.c.mem, s.c.buf[u], a);
  }

  lemma OutsideFrame(style: Style, s: State, s': State, u: nat)
    requires Untouched(s, s', u) && Outside(PcOf(s, u)) && Front(s, u) == Front(s', u)
    requires ThreadOk(style, s, u)
    ensures ThreadOk(style, s', u)
  {
    ViewFrame(s, s', u, Next(u));
    ViewFrame(s, s', u, Locked(u));
  }

  /** A queued thread under a step that keeps the head and the hand-off. */
  lemma QueuedFrame(style: Style, s: State, s': State, u: nat)
    requires Untouched(s, s', u) && !Outside(PcOf(s, u))
    requires s.served == s'.served && s.grant == s'.grant
    requires Successor(s, s.ticket[u]) == Successor(s', s.ticket[u])
    requires Holding(PcOf(s, u)) ==> Get(s.c.mem, Cs) == Get(s'.c.mem, Cs)
    requires ThreadOk(style, s, u)
    ensures ThreadOk(style, s', u)
  {}

  /** A step that keeps the queue and the hand-off and who is linked. */
  ghost predicate QueueKept(s: State, s': State, t: nat) {
    && IsThread(s, t) && Wf(s') && N(s) == N(s')
    && s.served == s'.served && s.grant == s'.grant && s.arrivals == s'.arrivals && s.ticket == s'.ticket
    && (forall u: nat :: u < N(s) && u != t ==> Untouched(s, s', u))
    && (Linked(s, t) ==> Linked(s', t) || s.ticket[t] == s.served)
    && (Linked(s', t) ==> Linked(s, t))
    && Outside(PcOf(s, t)) == Outside(PcOf(s', t))
    && Get(s.c.mem, Cs) == Get(s'.c.mem, Cs)
  }

  lemma OtherFrame(style: Style, s: State, s': State, t: nat, u: nat)
    requires Inv(style, s) && QueueKept(s, s', t) && u < N(s) && u != t
    ensures ThreadOk(style, s', u)
  {
    assert ThreadOk(style, s, u) && ThreadOk(style, s, t) && Untouched(s, s', u);
    if Outside(PcOf(s, u)) {
      OutsideFrame(style, s, s', u);
    } else {
      var k := s.ticket[u];
      assert PlaceOk(s, k + 1);
      if k + 1 < |s.arrivals| {
        var v := s.arrivals[k + 1];
        assert v != t ==> Untouched(s, s', v);
      }
      assert Successor(s, k) == Successor(s', k);
      QueuedFrame(style, s, s', u);
    }
  }

  lemma PlaceFrame(style: Style, s: State, s': State, t: nat, k: nat)
    requires Inv(style, s) && QueueKept(s, s', t)
    ensures PlaceOk(s', k)
  {
    assert PlaceOk(s, k);
    if s.served <= k < |s.arrivals| {
      var v := s.arrivals[k];
      assert v != t ==> Untouched(s, s', v);
    }
  }

  /** The other threads under such a step. */
  lemma OthersFrame(style: Style, s: State, s': State, t: nat)
    requires Inv(style, s) && QueueKept(s, s', t)
    ensures forall u :: 0 <= u < N(s) && u != t ==> ThreadOk(style, s', u)
    ensures forall k: nat :: PlaceOk(s', k)
  {
    forall u | 0 <= u < N(s) && u != t ensures ThreadOk(style, s', u) { OtherFrame(style, s, s', t, u); }
    forall k: nat ensures PlaceOk(s', k) { PlaceFrame(style, s, s', t, k); }
  }

  lemma InitStoreViews(style: Style, s: State, t: nat)
    requires IsThread(s, t) && CanRun(style, s, t)
    requires PcOf(s, t).Idle? || PcOf(s, t).Init?
    ensures var s' := AfterRun(style, s, t);
      var w := if PcOf(s, t).Idle? then FirstStore(style, t) else SecondStore(style, t);
      && IsThread(s', t) && s'.c.mem == s.c.mem && BufOf(s', t) == BufOf(s, t) + [w]
      && forall a :: View(s', t, a) == if w.addr == a then w.val else View(s, t, a)
  {
    var s' := AfterRun(style, s, t);
    var w := if PcOf(s, t).Idle? then FirstStore(style, t) else SecondStore(style, t);
    assert BufOf(s', t) == BufOf(s, t) + [w];
    forall a ensures View(s', t, a) == if w.addr == a then w.val else View(s, t, a) {
      ReadAppend(s.c.mem, s.c.buf[t], w, a);
    }
  }

  lemma InitStoreSelf(style: Style, s: State, t: nat)
    requires Inv(style, s) && CanRun(style, s, t)
    requires PcOf(s, t).Idle? || PcOf(s, t).Init?
    ensures ThreadOk(style, AfterRun(style, s, t), t)
    ensures View(AfterRun(style, s, t), t, Cs) == View(s, t, Cs)
  {
    var s' := AfterRun(style, s, t);
    assert ThreadOk(style, s, t);
    InitStoreViews(style, s, t);
    assert Front(s', t) == Front(s, t);
    var first := FirstStore(style, t);
    if PcOf(s, t).Idle? {
      assert PcOf(s', t) == Init && View(s', t, first.addr) == first.val;
    } else {
      assert PcOf(s', t) == Xchg && View(s', t, first.addr) == first.val;
    }
  }

  lemma InitStoreKept(style: Style, s: State, t: nat)
    requires Inv(style, s) && CanRun(style, s, t)
    requires PcOf(s, t).Idle? || PcOf(s, t).Init?
    ensures var s' := AfterRun(style, s, t); QueueKept(s, s', t) && Held(s') == Held(s)
  {
    assert ThreadOk(style, s, t);
    InitStoreViews(style, s, t);
    if s.served < |s.arrivals| { assert PlaceOk(s, s.served); }
  }

  lemma InitStoreGlobals(style: Style, s: State, t: nat)
    requires Inv(style, s) && CanRun(style, s, t)
    requires PcOf(s, t).Idle? || PcOf(s, t).Init?
    ensures var s' := AfterRun(style, s, t); GrantOk(s') && GlobalOk(s')
  {
    InitStoreKept(style, s, t);
    InitStoreViews(style, s, t);
    InitStoreSelf(style, s, t);
    if s.grant != NoGrant && s.grant.giver != t {
      assert BufOf(AfterRun(style, s, t), s.grant.giver) == BufOf(s, s.grant.giver);
    }
  }

  lemma InitStores(style: Style, s: State, t: nat)
    requires Inv(style, s) && CanRun(style, s, t)
    requires PcOf(s, t).Idle? || PcOf(s, t).Init?
    ensures Inv(style, AfterRun(style, s, t))
  {
    InitStoreSelf(style, s, t);
    InitStoreKept(style, s, t);
    InitStoreGlobals(style, s, t);
    OthersFrame(style, s, AfterRun(style, s, t), t);
  }

  lemma ExchangeOthers(style: Style, s: State, s': State, t: nat)
    requires Inv(style, s) && CanRun(style, s, t) && PcOf(s, t).Xchg? && s' == AfterRun(style, s, t)
    ensures forall u :: 0 <= u < N(s) && u != t ==> ThreadOk(style, s', u)
    ensures forall k: nat :: PlaceOk(s', k)
  {
    forall u | 0 <= u < N(s) && u != t ensures ThreadOk(style, s', u) {
      assert ThreadOk(style, s, u);
      if Outside(PcOf(s, u)) {
        OutsideFrame(style, s, s', u);
      } else {
        var k := s.ticket[u];
        assert PlaceOk(s, k + 1);
        assert Successor(s, k) == Successor(s', k);
        QueuedFrame(style, s, s', u);
      }
    }
    forall k: nat ensures PlaceOk(s', k) {
      assert PlaceOk(s, k);
    }
  }

  lemma Exchanges(style: Style, s: State, t: nat)
    requires Inv(style, s) && CanRun(style, s, t)
    requires PcOf(s, t).Xchg?
    ensures Inv(style, AfterRun(style, s, t))
  {
    var s' := AfterRun(style, s, t);
    var n := |s.arrivals|;
    assert ThreadOk(style, s, t);
    assert GrantOk(s') by {
      if s.grant != NoGrant { ViewFrame(s, s', s.grant.giver, Cs); }
    }
    assert s.served < n ==> PlaceOk(s, n - 1) && PlaceOk(s, s.served);
    assert Held(s') == (Held(s) || s.served == n);
    assert ThreadOk(style, s', t);
    ExchangeOthers(style, s, s', t);
  }

  lemma Links(style: Style, s: State, t: nat)
    requires Inv(style, s) && CanRun(style, s, t)
    requires PcOf(s, t).Link?
    ensures Inv(style, AfterRun(style, s, t))
  {
    var s' := AfterRun(style, s, t);
    assert ThreadOk(style, s, t);
    assert PlaceOk(s, s.served) && PlaceOk(s, s.ticket[t] + 1);
    assert ThreadOk(style, s', t);
    OthersFrame(style, s, s', t);
  }

  lemma Spins(style: Style, s: State, t: nat)
    requires Inv(style, s) && CanRun(style, s, t)
    requires PcOf(s, t).Spin?
    ensures Inv(style, AfterRun(style, s, t))
  {
    var s' := AfterRun(style, s, t);
    assert ThreadOk(style, s, t);
    ReadMiss(s.c.mem, s.c.buf[t], Locked(t));
    if Get(s.c.mem, Locked(t)) != 0 {
      assert s'.c.loc == s.c.loc && s'.c.buf == s.c.buf;
      assert s' == s;
    } else {
      assert PlaceOk(s, s.ticket[t] + 1);
      assert ThreadOk(style, s', t);
      OthersFrame(style, s, s', t);
      assert GlobalOk(s');
    }
  }

  predicate Counting(pc: Pc) { pc.IncLoad? || pc.IncStore? || pc.Check? || pc.DecLoad? || pc.DecStore? }

  /** A step of the holder in its critical section changes no memory and keeps its place. */
  lemma HolderPlace(style: Style, s: State, t: nat)
    requires IsThread(s, t) && CanRun(style, s, t) && ThreadOk(style, s, t) && PlaceOk(s, s.ticket[t] + 1)
    requires Holding(PcOf(s, t)) && !PcOf(s, t).CasTail? && !PcOf(s, t).HandOff?
    ensures var s' := AfterRun(style, s, t);
      && IsThread(s', t) && s'.c.mem == s.c.mem && s'.served == s.served && s'.grant == s.grant && s'.ticket == s.ticket
      && QueuedOk(s', t) && Successor(s', s.ticket[t]) == Successor(s, s.ticket[t])
  {}

  /** The counter check of the lock holder. */
  lemma CountingSelf(style: Style, s: State, t: nat)
    requires IsThread(s, t) && CanRun(style, s, t) && ThreadOk(style, s, t) && PlaceOk(s, s.ticket[t] + 1)
    requires Counting(PcOf(s, t))
    ensures ThreadOk(style, AfterRun(style, s, t), t)
  {
    var s' := AfterRun(style, s, t);
    HolderPlace(style, s, t);
    assert HoldingOk(s, t) && BufOf(s, t) == s.c.buf[t];
    if PcOf(s, t).IncStore? || PcOf(s, t).DecStore? {
      ReadAppend(s.c.mem, s.c.buf[t], Write(Cs, PcOf(s, t).r + if PcOf(s, t).IncStore? then 1 else -1), Cs);
    } else {
      assert BufOf(s', t) == BufOf(s, t);
    }
    assert HoldingOk(s', t);
  }

  /** Its reads of `next` and the fence before the hand-off. */
  lemma LeavingSelf(style: Style, s: State, t: nat)
    requires IsThread(s, t) && CanRun(style, s, t) && ThreadOk(style, s, t) && PlaceOk(s, s.ticket[t] + 1)
    requires Holding(PcOf(s, t)) && !Counting(PcOf(s, t)) && !PcOf(s, t).CasTail? && !PcOf(s, t).HandOff?
    ensures ThreadOk(style, AfterRun(style, s, t), t)
  {
    var s' := AfterRun(style, s, t);
    HolderPlace(style, s, t);
    assert HoldingOk(s, t) && BufOf(s, t) == s.c.buf[t];
    ReadMiss(s.c.mem, s.c.buf[t], Next(t));
    assert BufOf(s', t) == BufOf(s, t);
    assert HoldingOk(s', t);
  }

  lemma HolderSteps(style: Style, s: State, t: nat)
    requires Inv(style, s) && CanRun(style, s, t)
    requires Holding(PcOf(s, t)) && !PcOf(s, t).CasTail? && !PcOf(s, t).HandOff?
    ensures Inv(style, AfterRun(style, s, t))
  {
    var s' := AfterRun(style, s, t);
    assert ThreadOk(style, s, t) && PlaceOk(s, s.ticket[t] + 1);
    if Counting(PcOf(s, t)) { CountingSelf(style, s, t); } else { LeavingSelf(style, s, t); }
    OthersFrame(style, s, s', t);
  }

  /** A failed compare-and-swap means someone has arrived behind the holder. */
  lemma CasFails(style: Style, s: State, t: nat)
    requires Inv(style, s) && CanRun(style, s, t)
    requires PcOf(s, t).CasTail? && Get(s.c.mem, Tail) != t
    ensures var s' := AfterRun(style, s, t);
      && Inv(style, s') && PcOf(s', t).AwaitNext?
      && s'.served == s'.ticket[t] && s'.served + 1 < |s'.arrivals|
  {
    var s' := AfterRun(style, s, t);
    assert ThreadOk(style, s, t) && PlaceOk(s, s.ticket[t] + 1);
    assert Successor(s, s.ticket[t]) == Successor(s', s.ticket[t]);
    assert ThreadOk(style, s', t);
    OthersFrame(style, s, s', t);
  }

  /** A successful one means the holder is alone, and the queue becomes empty. */
  lemma CasSucceeds(style: Style, s: State, t: nat)
    requires Inv(style, s) && CanRun(style, s, t)
    requires PcOf(s, t).CasTail? && Get(s.c.mem, Tail) == t
    ensures var s' := AfterRun(style, s, t);
      && Inv(style, s') && PcOf(s', t).Idle?
      && s'.served == |s'.arrivals| && Get(s'.c.mem, Tail) == NULL
  {
    var s' := AfterRun(style, s, t);
    assert ThreadOk(style, s, t) && PlaceOk(s, |s.arrivals| - 1);
    assert s'.served == |s.arrivals|;
    forall u | 0 <= u < N(s) && u != t ensures ThreadOk(style, s', u) {
      assert ThreadOk(style, s, u);
      OutsideFrame(style, s, s', u);
    }
  }

  lemma HandOffOther(style: Style, s: State, s': State, t: nat, u: nat)
    requires Inv(style, s) && CanRun(style, s, t) && PcOf(s, t).HandOff? && s' == AfterRun(style, s, t)
    requires u < N(s) && u != t
    ensures ThreadOk(style, s', u)
  {
    assert ThreadOk(style, s, t) && ThreadOk(style, s, u);
    if Outside(PcOf(s, u)) {
      OutsideFrame(style, s, s', u);
    } else {
      var k := s.ticket[u];
      assert PlaceOk(s, k + 1);
      assert Successor(s, k) == Successor(s', k);
      assert Waiting(PcOf(s', u));
    }
  }

  lemma HandOffOthers(style: Style, s: State, s': State, t: nat)
    requires Inv(style, s) && CanRun(style, s, t) && PcOf(s, t).HandOff? && s' == AfterRun(style, s, t)
    ensures forall u :: 0 <= u < N(s) && u != t ==> ThreadOk(style, s', u)
    ensures forall k: nat :: PlaceOk(s', k)
  {
    forall u | 0 <= u < N(s) && u != t ensures ThreadOk(style, s', u) { HandOffOther(style, s, s', t, u); }
    assert ThreadOk(style, s, t);
    forall k: nat ensures PlaceOk(s', k) {
      assert PlaceOk(s, k);
    }
  }

  lemma HandOffSelf(style: Style, s: State, t: nat)
    requires Inv(style, s) && CanRun(style, s, t) && PcOf(s, t).HandOff?
    ensures ThreadOk(style, AfterRun(style, s, t), t)
  {
    var s' := AfterRun(style, s, t);
    assert ThreadOk(style, s, t);
    assert BufOf(s', t) == BufOf(s, t) + [Write(Locked(PcOf(s, t).succ), 0)];
  }

  lemma HandOffGlobals(style: Style, s: State, t: nat)
    requires Inv(style, s) && CanRun(style, s, t) && PcOf(s, t).HandOff?
    ensures GrantOk(AfterRun(style, s, t)) && GlobalOk(AfterRun(style, s, t))
  {
    var s' := AfterRun(style, s, t);
    var x, b := PcOf(s, t).succ, BufOf(s, t);
    assert ThreadOk(style, s, t) && ThreadOk(style, s, x);
    assert HoldingOk(s, t) && b == s.c.buf[t];
    ReadAppend(s.c.mem, b, Write(Locked(x), 0), Cs);
    assert BufOf(s', t) == b + [Write(Locked(x), 0)] && s'.c.mem == s.c.mem;
    assert s'.grant == Grant(t, |b|) && s'.served == s.served + 1 && s'.arrivals[s'.served] == x;
  }

  lemma HandsOff(style: Style, s: State, t: nat)
    requires Inv(style, s) && CanRun(style, s, t)
    requires PcOf(s, t).HandOff?
    ensures Inv(style, AfterRun(style, s, t))
  {
    HandOffSelf(style, s, t);
    HandOffGlobals(style, s, t);
    HandOffOthers(style, s, AfterRun(style, s, t), t);
  }

  lemma DrainView(s: State, t: nat, a: Addr)
    requires IsThread(s, t) && BufOf(s, t) != []
    ensures View(AfterDrain(s, t), t, a) == View(s, t, a)
  {
    ReadDrain(s.c.mem, s.c.buf[t], a);
  }

  /** The predecessor gets its successor. */
  lemma LinkLandsBehind(style: Style, s: State, s': State, t: nat, u: nat)
    requires Inv(style, s) && IsThread(s, t) && BufOf(s, t) != [] && Waiting(PcOf(s, t)) && s' == AfterDrain(s, t)
    requires u < N(s) && u != t && !Outside(PcOf(s, u)) && u == PcOf(s, t).prev
    ensures ThreadOk(style, s', u)
  {
    assert ThreadOk(style, s, t) && ThreadOk(style, s, u);
    assert PlaceOk(s, s.ticket[t] - 1);
    var k := s.ticket[u];
    assert Successor(s, k) == NULL && Successor(s', k) == t;
    if Holding(PcOf(s, u)) { ViewFrame(s, s', u, Cs); }
  }

  lemma LinkLandsQueued(style: Style, s: State, s': State, t: nat, u: nat)
    requires Inv(style, s) && IsThread(s, t) && BufOf(s, t) != [] && Waiting(PcOf(s, t)) && s' == AfterDrain(s, t)
    requires u < N(s) && u != t && !Outside(PcOf(s, u)) && u != PcOf(s, t).prev
    ensures ThreadOk(style, s', u)
  {
    assert ThreadOk(style, s, t) && ThreadOk(style, s, u);
    assert PlaceOk(s, s.ticket[t] - 1) && PlaceOk(s, s.ticket[u] + 1);
    assert Successor(s, s.ticket[u]) == Successor(s', s.ticket[u]);
    QueuedFrame(style, s, s', u);
  }

  lemma LinkLandsOther(style: Style, s: State, s': State, t: nat, u: nat)
    requires Inv(style, s) && IsThread(s, t) && BufOf(s, t) != [] && Waiting(PcOf(s, t)) && s' == AfterDrain(s, t)
    requires u < N(s) && u != t
    ensures ThreadOk(style, s', u)
  {
    if Outside(PcOf(s, u)) {
      assert ThreadOk(style, s, t) && ThreadOk(style, s, u);
      assert PlaceOk(s, s.ticket[t] - 1);
      OutsideFrame(style, s, s', u);
    } else if u == PcOf(s, t).prev {
      LinkLandsBehind(style, s, s', t, u);
    } else {
      LinkLandsQueued(style, s, s', t, u);
    }
  }

  lemma LinkLandsOthers(style: Style, s: State, s': State, t: nat)
    requires Inv(style, s) && IsThread(s, t) && BufOf(s, t) != [] && Waiting(PcOf(s, t)) && s' == AfterDrain(s, t)
    ensures forall u :: 0 <= u < N(s) && u != t ==> ThreadOk(style, s', u)
    ensures forall k: nat :: PlaceOk(s', k)
  {
    forall u | 0 <= u < N(s) && u != t ensures ThreadOk(style, s', u) { LinkLandsOther(style, s, s', t, u); }
    forall k: nat ensures PlaceOk(s', k) {
      assert PlaceOk(s, k);
    }
  }

  lemma LinkLands(style: Style, s: State, t: nat)
    requires Inv(style, s) && IsThread(s, t) && BufOf(s, t) != [] && Waiting(PcOf(s, t))
    ensures Inv(style, AfterDrain(s, t))
  {
    var s' := AfterDrain(s, t);
    assert ThreadOk(style, s, t) && PlaceOk(s, s.ticket[t] + 1) && PlaceOk(s, s.ticket[t] - 1);
    assert ThreadOk(style, s', t);
    LinkLandsOthers(style, s, s', t);
    assert GrantOk(s') by {
      if s.grant != NoGrant { ViewFrame(s, s', s.grant.giver, Cs); }
    }
  }

  lemma HolderDrainsOther(style: Style, s: State, s': State, t: nat, u: nat)
    requires Inv(style, s) && IsThread(s, t) && BufOf(s, t) != [] && Holding(PcOf(s, t)) && s' == AfterDrain(s, t)
    requires u < N(s) && u != t
    ensures ThreadOk(style, s', u)
  {
    assert ThreadOk(style, s, t) && ThreadOk(style, s, u);
    assert HoldingOk(s, t) && BufOf(s, t) == s.c.buf[t];
    if Outside(PcOf(s, u)) {
      OutsideFrame(style, s, s', u);
    } else {
      var k := s.ticket[u];
      assert PlaceOk(s, k + 1);
      assert Successor(s, k) == Successor(s', k);
      QueuedFrame(style, s, s', u);
    }
  }

  lemma HolderDrainsSelf(style: Style, s: State, t: nat)
    requires Inv(style, s) && IsThread(s, t) && BufOf(s, t) != [] && Holding(PcOf(s, t))
    ensures var s' := AfterDrain(s, t); ThreadOk(style, s', t) && GrantOk(s') && GlobalOk(s')
  {
    var s' := AfterDrain(s, t);
    assert ThreadOk(style, s, t) && HoldingOk(s, t) && BufOf(s, t) == s.c.buf[t];
    DrainView(s, t, Cs);
    assert PlaceOk(s, s.ticket[t] + 1);
    assert Successor(s, s.ticket[t]) == Successor(s', s.ticket[t]);
  }

  lemma HolderDrains(style: Style, s: State, t: nat)
    requires Inv(style, s) && IsThread(s, t) && BufOf(s, t) != [] && Holding(PcOf(s, t))
    ensures Inv(style, AfterDrain(s, t))
  {
    var s' := AfterDrain(s, t);
    HolderDrainsSelf(style, s, t);
    forall u | 0 <= u < N(s) && u != t ensures ThreadOk(style, s', u) { HolderDrainsOther(style, s, s', t, u); }
    forall k: nat ensures PlaceOk(s', k) {
      assert PlaceOk(s, k);
    }
  }

  lemma OutsideSelf(style: Style, s: State, t: nat)
    requires IsThread(s, t) && BufOf(s, t) != [] && Outside(PcOf(s, t)) && ThreadOk(style, s, t) && GrantOk(s)
    ensures ThreadOk(style, AfterDrain(s, t), t)
  {
    var s' := AfterDrain(s, t);
    DrainView(s, t, Next(t));
    DrainView(s, t, Locked(t));
    var b, b' := BufOf(s, t), BufOf(s', t);
    forall i | Front(s', t) <= i < |b'| ensures IsOwn(t, b'[i].addr) {
      assert b'[i] == b[i + 1];
    }
  }

  lemma OutsideDrainQueued(style: Style, s: State, s': State, t: nat, u: nat)
    requires Inv(style, s) && IsThread(s, t) && BufOf(s, t) != [] && Outside(PcOf(s, t)) && s' == AfterDrain(s, t)
    requires u < N(s) && u != t && !Outside(PcOf(s, u))
    ensures ThreadOk(style, s', u)
  {
    assert ThreadOk(style, s, t) && PlaceOk(s, s.served) && ThreadOk(style, s, u);
    var k := s.ticket[u];
    assert PlaceOk(s, k + 1);
    assert Successor(s, k) == Successor(s', k);
    if Holding(PcOf(s, u)) {
      QueuedFrame(style, s, s', u);
    } else {
      assert QueuedOk(s', u);
    }
  }

  lemma OutsideDrainOther(style: Style, s: State, s': State, t: nat, u: nat)
    requires Inv(style, s) && IsThread(s, t) && BufOf(s, t) != [] && Outside(PcOf(s, t)) && s' == AfterDrain(s, t)
    requires u < N(s) && u != t
    ensures ThreadOk(style, s', u)
  {
    if Outside(PcOf(s, u)) {
      assert ThreadOk(style, s, t) && PlaceOk(s, s.served) && ThreadOk(style, s, u);
      OutsideFrame(style, s, s', u);
    } else {
      OutsideDrainQueued(style, s, s', t, u);
    }
  }

  lemma OutsideDrainOthers(style: Style, s: State, s': State, t: nat)
    requires Inv(style, s) && IsThread(s, t) && BufOf(s, t) != [] && Outside(PcOf(s, t)) && s' == AfterDrain(s, t)
    ensures forall u :: 0 <= u < N(s) && u != t ==> ThreadOk(style, s', u)
    ensures forall k: nat :: PlaceOk(s', k)
  {
    forall u | 0 <= u < N(s) && u != t ensures ThreadOk(style, s', u) { OutsideDrainOther(style, s, s', t, u); }
    forall k: nat ensures PlaceOk(s', k) {
      assert PlaceOk(s, k);
    }
  }

  lemma OutsideDrainGrant(style: Style, s: State, s': State, t: nat)
    requires Inv(style, s) && IsThread(s, t) && BufOf(s, t) != [] && Outside(PcOf(s, t)) && s' == AfterDrain(s, t)
    ensures GrantOk(s') && GlobalOk(s')
  {
    assert ThreadOk(style, s, t);
    var b := BufOf(s, t);
    DrainView(s, t, Cs);
    if s.grant == NoGrant || s.grant.giver != t {
      assert IsOwn(t, b[0].addr);
      if s.grant != NoGrant { ViewFrame(s, s', s.grant.giver, Cs); }
    } else if s.grant.at == 0 {
      forall i | 0 <= i < |b[1..]| ensures b[1..][i].addr != Cs {
        assert IsOwn(t, b[i + 1].addr);
      }
      ReadMiss(s'.c.mem, b[1..], Cs);
    }
  }

  lemma OutsideDrains(style: Style, s: State, t: nat)
    requires Inv(style, s) && IsThread(s, t) && BufOf(s, t) != [] && Outside(PcOf(s, t))
    ensures Inv(style, AfterDrain(s, t))
  {
    var s' := AfterDrain(s, t);
    assert ThreadOk(style, s, t);
    OutsideSelf(style, s, t);
    OutsideDrainOthers(style, s, s', t);
    OutsideDrainGrant(style, s, s', t);
  }

  lemma StepKeepsInv(style: Style, s: State, ch: Choice)
    requires Inv(style, s)
    ensures Inv(style, Step(style, s, ch))
  {
    var t := ch.t;
    if t < N(s) {
      assert ThreadOk(style, s, t);
      var pc := PcOf(s, t);
      if ch.Drain? {
        if BufOf(s, t) != [] {
          if Outside(pc) { OutsideDrains(style, s, t); }
          else if Waiting(pc) { LinkLands(style, s, t); }
          else { HolderDrains(style, s, t); }
        }
      } else if CanRun(style, s, t) {
        match pc
        case Idle => InitStores(style, s, t);
        case Init => InitStores(style, s, t);
        case Xchg => Exchanges(style, s, t);
        case Link(_) => Links(style, s, t);
        case Spin(_) => Spins(style, s, t);
        case CasTail => if Get(s.c.mem, Tail) == t { CasSucceeds(style, s, t); } else { CasFails(style, s, t); }
        case HandOff(_) => HandsOff(style, s, t);
        case Failed =>
        case _ => HolderSteps(style, s, t);
      }
    }
  }

  /** Memory as the program starts: no lock held, counter zero, nodes holding anything. */
  predicate StartMem(mem: Mem<Addr>) {
    Get(mem, Tail) == NULL && Get(mem, Cs) == 0
  }

  lemma {:induction false} Reachable(style: Style, mem: Mem<Addr>, rounds: seq<nat>, sched: seq<Choice>)
    requires StartMem(mem)
    ensures Inv(style, Exec(style, Start(mem, rounds), sched))
  {
    var s0 := Start(mem, rounds);
    if sched == [] {
      assert Inv(style, s0);
    } else {
      var n := |sched| - 1;
      Reachable(style, mem, rounds, sched[..n]);
      StepKeepsInv(style, Exec(style, s0, sched[..n]), sched[n]);
    }
  }
}
