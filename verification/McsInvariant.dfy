/** The queue invariant of the MCS lock under TSO. */
module McsInvariant {
  import opened StoreBuffer
  import opened Mcs

  predicate Outside(pc: Pc) { pc.Idle? || pc.Init? || pc.Xchg? }

  predicate Waiting(pc: Pc) { pc.Link? || pc.Spin? }

  predicate Holding(pc: Pc) { !Outside(pc) && !Waiting(pc) && !pc.Failed? }

  function N(s: State): nat { |s.c.loc| }

  predicate IsThread(s: State, t: int) { Wf(s) && 0 <= t < N(s) }

  function PcOf(s: State, t: int): Pc
    requires IsThread(s, t)
  { s.c.loc[t].pc }

  function BufOf(s: State, t: int): Buf<Addr>
    requires IsThread(s, t)
  { s.c.buf[t] }

  /** What the thread itself reads at an address. */
  function View(s: State, t: int, a: Addr): int
    requires IsThread(s, t)
  { Read(s.c.mem, s.c.buf[t], a) }

  predicate IsOwn(t: int, a: Addr) { a == Next(t) || a == Locked(t) }

  /** The waiter's store into its predecessor's node has reached memory. */
  predicate Linked(s: State, t: int)
    requires IsThread(s, t)
  { PcOf(s, t).Spin? && BufOf(s, t) == [] }

  /** The thread that arrived right after place `k`, once it has linked itself. */
  function Successor(s: State, k: nat): int {
    if k + 1 < |s.arrivals| && IsThread(s, s.arrivals[k + 1]) && Linked(s, s.arrivals[k + 1])
    then s.arrivals[k + 1] else NULL
  }

  /** Places still in the queue and threads between exchange and release match one to one. */
  ghost predicate PlaceOk(s: State, k: nat) {
    s.served <= k < |s.arrivals| ==>
      && IsThread(s, s.arrivals[k])
      && s.ticket[s.arrivals[k]] == k
      && !Outside(PcOf(s, s.arrivals[k]))
  }

  /** How many of an outside thread's buffered stores come before those to its own node. */
  function Front(s: State, t: int): nat {
    if s.grant != NoGrant && s.grant.giver == t then s.grant.at + 1 else 0
  }

  ghost predicate OutsideOk(style: Style, s: State, t: int)
    requires IsThread(s, t)
  {
    var b := BufOf(s, t);
    && (forall i :: Front(s, t) <= i < |b| ==> IsOwn(t, b[i].addr))
    && match PcOf(s, t)
       case Idle => |b| <= Front(s, t)
       case Init => View(s, t, FirstStore(style, t).addr) == FirstStore(style, t).val
       case _ => View(s, t, Next(t)) == NULL && View(s, t, Locked(t)) == 1
  }

  /** A waiter that is not at the head is locked; the head is locked until its hand-off lands. */
  ghost predicate WaitingOk(s: State, t: int)
    requires IsThread(s, t) && Waiting(PcOf(s, t))
  {
    var b := BufOf(s, t);
    var k := s.ticket[t];
    var prev := PcOf(s, t).prev;
    && (b == [] || (PcOf(s, t).Spin? && b == [Write(Next(prev), t)]))
    && (k == s.served ==>
          Linked(s, t) && Get(s.c.mem, Locked(t)) == (if s.grant == NoGrant then 0 else 1))
    && (k != s.served ==>
          1 <= k <= |s.arrivals| && prev == s.arrivals[k - 1] && Get(s.c.mem, Locked(t)) == 1)
  }

  ghost predicate HoldingOk(s: State, t: int)
    requires IsThread(s, t) && Holding(PcOf(s, t))
  {
    var b := BufOf(s, t);
    var k := s.ticket[t];
    && k == s.served && s.grant == NoGrant
    && (forall i :: 0 <= i < |b| ==> b[i].addr == Cs)
    && match PcOf(s, t)
       case IncLoad => View(s, t, Cs) == 0
       case IncStore(r) => View(s, t, Cs) == 0 && r == 0
       case Check => View(s, t, Cs) == 1
       case DecLoad => View(s, t, Cs) == 1
       case DecStore(r) => View(s, t, Cs) == 1 && r == 1
       case AwaitNext => View(s, t, Cs) == 0 && k + 1 < |s.arrivals|
       case Barrier => View(s, t, Cs) == 0 && Successor(s, k) != NULL
       case ReadSucc => View(s, t, Cs) == 0 && Successor(s, k) != NULL
       case HandOff(x) => View(s, t, Cs) == 0 && x == Successor(s, k) != NULL
       case _ => View(s, t, Cs) == 0
  }

  ghost predicate QueuedOk(s: State, t: int)
    requires IsThread(s, t)
  {
    var k := s.ticket[t];
    && s.served <= k < |s.arrivals| && s.arrivals[k] == t
    && Get(s.c.mem, Next(t)) == Successor(s, k)
  }

  ghost predicate ThreadOk(style: Style, s: State, t: int)
    requires IsThread(s, t)
  {
    if Outside(PcOf(s, t)) then OutsideOk(style, s, t)
    else
      && QueuedOk(s, t)
      && (if Waiting(PcOf(s, t)) then WaitingOk(s, t) else Holding(PcOf(s, t)) && HoldingOk(s, t))
  }

  /** The hand-off in flight goes to the head of the queue; it follows the giver's counter stores
      and precedes any store the giver has since made to its own node. */
  ghost predicate GrantOk(s: State)
    requires Wf(s)
  {
    match s.grant
    case NoGrant => true
    case Grant(g, at) =>
      && s.served < |s.arrivals| && IsThread(s, s.arrivals[s.served])
      && Waiting(PcOf(s, s.arrivals[s.served]))
      && g < N(s) && Outside(PcOf(s, g)) && at < |BufOf(s, g)|
      && BufOf(s, g)[at] == Write(Locked(s.arrivals[s.served]), 0)
      && (forall i :: 0 <= i < at ==> BufOf(s, g)[i].addr == Cs)
      && View(s, g, Cs) == 0
  }

  predicate Held(s: State) {
    && s.served < |s.arrivals|
    && IsThread(s, s.arrivals[s.served])
    && Holding(PcOf(s, s.arrivals[s.served]))
  }

  /** The tail, and the counter when nobody is responsible for it. */
  ghost predicate GlobalOk(s: State) {
    && s.served <= |s.arrivals|
    && Get(s.c.mem, Tail) == (if s.served == |s.arrivals| then NULL else s.arrivals[|s.arrivals| - 1])
    && (s.grant == NoGrant && !Held(s) ==> Get(s.c.mem, Cs) == 0)
  }

  ghost predicate Inv(style: Style, s: State) {
    && Wf(s)
    && (forall t :: 0 <= t < N(s) ==> ThreadOk(style, s, t))
    && (forall k: nat :: PlaceOk(s, k))
    && GrantOk(s)
    && GlobalOk(s)
  }
}
