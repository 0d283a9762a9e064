/** The chain invariant of the CLH lock under TSO, and that every step keeps it. */
module ClhInvariant {
  import opened StoreBuffer
  import opened Clh

  predicate Outside(pc: Pc) { pc.Idle? || pc.Xchg? }

  predicate Holding(pc: Pc) { !Outside(pc) && !pc.Spin? && !pc.Failed? }

  function N(s: State): nat { |s.c.loc| }

  predicate IsThread(s: State, t: int) { Wf(s) && 0 <= t < N(s) }

  function LocOf(s: State, t: int): Local
    requires IsThread(s, t)
  { s.c.loc[t] }

  function BufOf(s: State, t: int): Buf<Addr>
    requires IsThread(s, t)
  { s.c.buf[t] }

  function View(s: State, t: int, a: Addr): int
    requires IsThread(s, t)
  { Read(s.c.mem, s.c.buf[t], a) }

  /** The node at place `k` of the chain; place 0 is the dummy, acquisition `k` is place `k + 1`. */
  function NodeAt(h: Heap, s: State, k: nat): int {
    if 0 < k <= |s.visits| then h.node(s.visits[k - 1].t, s.visits[k - 1].round) else h.dummy
  }

  function LockedAt(h: Heap, s: State, k: nat): int {
    Get(s.c.mem, Locked(NodeAt(h, s, k)))
  }

  /** Locked at and above the head of the queue, unlocked below it once the last unlocking store
      has landed. Acquisitions below are over; those at or above belong to threads in the queue. */
  ghost predicate PlaceOk(h: Heap, s: State, k: nat) {
    && (k <= s.served <= |s.visits| ==> LockedAt(h, s, k) == (if k == s.served && s.grant != NoGrant then 1 else 0))
    && (k < s.served <= |s.visits| ==>
          var v := s.visits[k]; IsThread(s, v.t) && v.round < LocOf(s, v.t).round)
    && (s.served <= k < |s.visits| ==>
          var v := s.visits[k];
          && IsThread(s, v.t) && v.round == LocOf(s, v.t).round
          && !Outside(LocOf(s, v.t).pc) && s.ticket[v.t] == k
          && LockedAt(h, s, k + 1) == 1)
  }

  /** How many of an outside thread's buffered stores come before the one to its next node. */
  function Front(s: State, t: int): nat {
    if s.grant != NoGrant && s.grant.giver == t then s.grant.at + 1 else 0
  }

  ghost predicate OutsideOk(h: Heap, s: State, t: int)
    requires IsThread(s, t)
  {
    var b := BufOf(s, t);
    var mine := Locked(Mine(h, t, LocOf(s, t)));
    && (forall i :: Front(s, t) <= i < |b| ==> b[i].addr == mine)
    && (if LocOf(s, t).pc.Idle? then |b| <= Front(s, t) else View(s, t, mine) == 1)
  }

  ghost predicate HoldingOk(s: State, t: int)
    requires IsThread(s, t) && Holding(LocOf(s, t).pc)
  {
    var b := BufOf(s, t);
    && s.ticket[t] == s.served && s.grant == NoGrant
    && (forall i :: 0 <= i < |b| ==> b[i].addr == Cs)
    && match LocOf(s, t).pc
       case IncStore(r) => View(s, t, Cs) == 0 && r == 0
       case Check => View(s, t, Cs) == 1
       case DecLoad => View(s, t, Cs) == 1
       case DecStore(r) => View(s, t, Cs) == 1 && r == 1
       case _ => View(s, t, Cs) == 0
  }

  ghost predicate ThreadOk(h: Heap, s: State, t: int)
    requires IsThread(s, t)
  {
    var l := LocOf(s, t);
    if Outside(l.pc) then OutsideOk(h, s, t)
    else
      var k := s.ticket[t];
      && s.served <= k < |s.visits| && s.visits[k] == Visit(t, l.round)
      && (if l.pc.Spin? then BufOf(s, t) == [] && l.pc.pred == NodeAt(h, s, k) else Holding(l.pc) && HoldingOk(s, t))
  }

  predicate Held(s: State) {
    && s.served < |s.visits|
    && IsThread(s, s.visits[s.served].t)
    && Holding(LocOf(s, s.visits[s.served].t).pc)
  }

  /** The unlocking store in flight is to the node just below the head, after its giver's counter
      stores. */
  ghost predicate GrantOk(h: Heap, s: State)
    requires Wf(s)
  {
    match s.grant
    case NoGrant => true
    case Grant(g, at) =>
      && g < N(s) && Outside(LocOf(s, g).pc) && at < |BufOf(s, g)|
      && 0 < s.served <= |s.visits|
      && BufOf(s, g)[at] == Write(Locked(NodeAt(h, s, s.served)), 0)
      && (forall i :: 0 <= i < at ==> BufOf(s, g)[i].addr == Cs)
      && View(s, g, Cs) == 0
  }

  ghost predicate Inv(h: Heap, s: State) {
    && Wf(s) && Fresh(h)
    && (forall t :: 0 <= t < N(s) ==> ThreadOk(h, s, t))
    && (forall k: nat :: PlaceOk(h, s, k))
    && GrantOk(h, s)
    && s.served <= |s.visits|
    && Get(s.c.mem, Tail) == NodeAt(h, s, |s.visits|)
    && (s.grant == NoGrant && !Held(s) ==> Get(s.c.mem, Cs) == 0)
  }
}
