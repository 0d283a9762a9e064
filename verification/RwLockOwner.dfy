/** Ownership and decrements of the rw-lock in every PSO run. */
module RwLockOwner {
  import opened StoreBuffer
  import opened Machine
  import opened RwLock

  /** A configuration and its history: the thread that made the first decrement, how many it has
      made, and the thread inside the mutex. */
  datatype State = State(c: PsoConf<Addr, Local>, owner: int, depth: nat, inside: int)

  const NOBODY := -1

  predicate InMutex(pc: Pc) {
    pc.Test1? || pc.Load1? || pc.Store1? || pc.Exit1? || pc.SetWriter? || pc.SetRecursive? || pc.SetExit?
    || pc.Test2? || pc.Load2? || pc.Store2? || pc.Exit2?
  }

  function AfterRun(s: State, t: nat): State
    requires PsoWf(s.c) && t < |s.c.loc|
  {
    var l := s.c.loc[t];
    var op := OpOf(t, l);
    if !PEnabled(s.c.buf[t], op) then s
    else
      var e := PIssue(s.c.mem, s.c.buf[t], op);
      var l' := AfterOp(t, l, e.val);
      var c' := PsoConf(e.mem, s.c.buf[t := e.buf], s.c.loc[t := l']);
      State(c',
            if l.pc.Store1? then t else s.owner,
            if l.pc.Store1? then 1
            else if l.pc.Store2? || l.pc.SubStore? || l.pc.DecStore? then s.depth + 1
            else s.depth,
            if InMutex(l'.pc) then t else if InMutex(l.pc) then NOBODY else s.inside)
  }

  function Step(s: State, ch: PChoice<Addr>): (s': State)
    requires PsoWf(s.c)
    ensures PsoWf(s'.c) && |s'.c.loc| == |s.c.loc|
  {
    if ch.t >= |s.c.loc| then s
    else
      match ch
      case PDrain(t, a) => s.(c := PsoDrain(s.c, t, a))
      case PRun(t) => AfterRun(s, t)
  }

  lemma StepIsPso(s: State, ch: PChoice<Addr>)
    requires PsoWf(s.c)
    ensures Step(s, ch).c == PsoStep(Prog(), s.c, ch)
  {}

  function N(s: State): nat { |s.c.loc| }

  predicate IsThread(s: State, t: int) { PsoWf(s.c) && 0 <= t < N(s) }

  function LocOf(s: State, t: int): Local
    requires IsThread(s, t)
  { s.c.loc[t] }

  function BufOf(s: State, t: int): PBuf<Addr>
    requires IsThread(s, t)
  { s.c.buf[t] }

  function View(s: State, t: int, a: Addr): int
    requires IsThread(s, t)
  { PRead(s.c.mem, s.c.buf[t], a) }

  /** A thread that is not the owner has won nothing, buffers nothing, and is on no path that
      writes; before there is an owner everyone is on the way to the first decrement. */
  ghost predicate OtherOk(w0: int, s: State, t: int)
    requires IsThread(s, t)
  {
    var l := LocOf(s, t);
    && l.won == 0 && BufOf(s, t) == []
    && (match l.pc
        case Idle => true
        case Test1 => true
        case Load1 => s.owner == NOBODY
        case Store1(w) => s.owner == NOBODY && w == w0
        case Exit1(ok) => s.owner != NOBODY && !ok
        case ReadRecursive => s.owner != NOBODY
        case ReadWriter => s.owner != NOBODY
        case _ => false)
  }

  /** Where the owner is in its call, against the word as it sees it and the calls it has won. */
  ghost predicate OwnerAt(s: State, l: Local, w: int) {
    match l.pc
    case Store1(_) => false
    case Load1 => false
    case Exit1(ok) => if ok then s.depth == 1 && l.won == 0 else s.depth == l.won
    case SetEnter => s.depth == 1 && l.won == 0
    case SetWriter => s.depth == 1 && l.won == 0
    case SetRecursive => s.depth == 1 && l.won == 0
    case SetExit => s.depth == 1 && l.won == 0
    case Load2 => s.depth == l.won && w > 0
    case Store2(r) => s.depth == l.won && w > 0 && r == w
    case Exit2(ok) => if ok then s.depth == l.won + 1 else s.depth == l.won && w <= 0
    case IsZero => s.depth == l.won && w <= 0
    case IsMinusHalf => s.depth == l.won && w < 0
    case SubLoad => s.depth == l.won && (w == 0 || w == -X_LOCK_HALF_DECR)
    case SubStore(r) => s.depth == l.won && (w == 0 || w == -X_LOCK_HALF_DECR) && r == w
    case DecLoad => s.depth == l.won && w < 0 && w != -X_LOCK_HALF_DECR
    case DecStore(r) => s.depth == l.won && w < 0 && w != -X_LOCK_HALF_DECR && r == w
    case _ => s.depth == l.won
  }

  ghost predicate BufferOk(b: PBuf<Addr>, o: int) {
    && (forall v :: v in Queue(b, Word) ==> v <= X_LOCK_HALF_DECR)
    && (forall v :: v in Queue(b, Writer) ==> v == o + 1)
    && Queue(b, Mutex) == []
  }

  lemma BufferLands(b: PBuf<Addr>, o: int, a: Addr)
    requires BufferOk(b, o) && CanLand(b, a)
    ensures BufferOk(Dequeue(b, a), o) && a != Mutex
    ensures a == Word ==> Landing(b, a) <= X_LOCK_HALF_DECR
    ensures a == Writer ==> Landing(b, a) == o + 1
  {
    QueueOfDequeue(b, a, Word);
    QueueOfDequeue(b, a, Writer);
    QueueOfDequeue(b, a, Mutex);
    assert Landing(b, a) in Queue(b, a);
    assert forall x, v :: (x == Word || x == Writer) && v in Queue(Dequeue(b, a), x) ==> v in Queue(b, x);
  }

  lemma BufferStores(b: PBuf<Addr>, o: int, a: Addr, v: int)
    requires BufferOk(b, o) && a != Mutex
    requires (a == Word ==> v <= X_LOCK_HALF_DECR) && (a == Writer ==> v == o + 1)
    ensures BufferOk(Enqueue(b, a, v), o)
    ensures forall x :: Queue(Enqueue(b, a, v), x) == Queue(b, x) + if x == a then [v] else []
  {
    forall x ensures Queue(Enqueue(b, a, v), x) == Queue(b, x) + if x == a then [v] else [] {
      QueueOfEnqueue(b, a, v, x);
    }
  }

  /** What the owner has stored: it sees the word for its depth; every word others can ever see is
      too low for them, except before the owner leaves the mutex of its first decrement. */
  ghost predicate OwnerOk(w0: int, s: State)
    requires IsThread(s, s.owner)
  {
    var o := s.owner;
    var b := BufOf(s, o);
    && s.depth >= 1
    && View(s, o, Word) == WordAt(w0, s.depth)
    && OwnerAt(s, LocOf(s, o), View(s, o, Word))
    && (Get(s.c.mem, Word) <= X_LOCK_HALF_DECR || LocOf(s, o).pc == Exit1(true))
    && (Get(s.c.mem, Writer) == 0 || Get(s.c.mem, Writer) == Id(o))
    && BufferOk(b, o)
  }

  ghost predicate MutexOk(s: State, t: int)
    requires IsThread(s, t)
  {
    InMutex(LocOf(s, t).pc) <==> s.inside == t
  }

  ghost predicate ThreadOk(w0: int, s: State, t: int)
    requires IsThread(s, t)
  {
    MutexOk(s, t) && (t != s.owner ==> OtherOk(w0, s, t))
  }

  ghost predicate Inv(w0: int, s: State) {
    && PsoWf(s.c) && StartWord(w0)
    && (forall t :: 0 <= t < N(s) ==> ThreadOk(w0, s, t))
    && Get(s.c.mem, Mutex) == (if s.inside == NOBODY then 0 else 1)
    && (s.inside == NOBODY || IsThread(s, s.inside))
    && (if s.owner == NOBODY
        then Get(s.c.mem, Word) == w0 && Get(s.c.mem, Writer) == 0
        else IsThread(s, s.owner) && OwnerOk(w0, s))
  }

  /** Everyone else, under a step of thread `t` that does not change who owns the lock. */
  lemma OthersFrame(w0: int, s: State, s': State, t: nat)
    requires Inv(w0, s) && IsThread(s, t) && PsoWf(s'.c) && N(s) == N(s')
    requires s.owner == s'.owner
    requires forall u: nat :: u < N(s) && u != t ==> LocOf(s, u) == LocOf(s', u) && BufOf(s, u) == BufOf(s', u)
    requires s'.inside == (if InMutex(LocOf(s', t).pc) then t else if InMutex(LocOf(s, t).pc) then NOBODY else s.inside)
    requires InMutex(LocOf(s', t).pc) ==> s.inside == NOBODY || s.inside == t
    ensures forall u :: 0 <= u < N(s) && u != t ==> ThreadOk(w0, s', u)
    ensures MutexOk(s', t)
  {
    assert ThreadOk(w0, s, t);
    forall u | 0 <= u < N(s) && u != t ensures ThreadOk(w0, s', u) {
      assert ThreadOk(w0, s, u);
      assert LocOf(s, u) == LocOf(s', u) && BufOf(s, u) == BufOf(s', u);
    }
  }

  predicate CanRun(s: State, t: nat) {
    IsThread(s, t) && PEnabled(s.c.buf[t], OpOf(t, s.c.loc[t]))
  }

  lemma OtherSelf(w0: int, s: State, t: nat)
    requires Inv(w0, s) && CanRun(s, t) && t != s.owner && !LocOf(s, t).pc.Store1?
    ensures OtherOk(w0, AfterRun(s, t), t)
  {
    assert ThreadOk(w0, s, t);
    if s.owner != NOBODY { assert ThreadOk(w0, s, s.owner); }
  }

  lemma MutexAfterRun(w0: int, s: State, t: nat)
    requires Inv(w0, s) && CanRun(s, t)
    ensures var s' := AfterRun(s, t);
      && PsoWf(s'.c) && N(s') == N(s)
      && Get(s'.c.mem, Mutex) == (if s'.inside == NOBODY then 0 else 1)
      && (s'.inside == NOBODY || IsThread(s', s'.inside))
      && (InMutex(LocOf(s', t).pc) ==> s.inside == NOBODY || s.inside == t)
      && (forall a :: a != Mutex ==> Get(s'.c.mem, a) == Get(s.c.mem, a))
  {
    assert ThreadOk(w0, s, t);
  }

  lemma OtherRuns(w0: int, s: State, t: nat)
    requires Inv(w0, s) && CanRun(s, t) && t != s.owner && !LocOf(s, t).pc.Store1?
    ensures Inv(w0, AfterRun(s, t))
  {
    var s' := AfterRun(s, t);
    assert s'.owner == s.owner && s'.depth == s.depth by { assert ThreadOk(w0, s, t); }
    MutexAfterRun(w0, s, t);
    OtherSelf(w0, s, t);
    OthersFrame(w0, s, s', t);
    if s.owner != NOBODY { OwnerFrame(w0, s, s'); }
  }

  /** The owner, when someone else takes a step. */
  lemma OwnerFrame(w0: int, s: State, s': State)
    requires IsThread(s, s.owner) && OwnerOk(w0, s) && PsoWf(s'.c) && N(s) == N(s')
    requires s'.owner == s.owner && s'.depth == s.depth
    requires LocOf(s', s.owner) == LocOf(s, s.owner) && BufOf(s', s.owner) == BufOf(s, s.owner)
    requires Get(s'.c.mem, Word) == Get(s.c.mem, Word) && Get(s'.c.mem, Writer) == Get(s.c.mem, Writer)
    ensures OwnerOk(w0, s')
  {}

  lemma NewOwnerOk(w0: int, s: State, t: nat)
    requires Inv(w0, s) && CanRun(s, t) && t != s.owner && LocOf(s, t).pc.Store1?
    ensures OwnerOk(w0, AfterRun(s, t))
  {
    var s', v := AfterRun(s, t), LocOf(s, t).pc.w - X_LOCK_DECR;
    assert ThreadOk(w0, s, t);
    assert s'.owner == t && s'.depth == 1 && s'.c.mem == s.c.mem && LocOf(s', t).pc == Exit1(true);
    assert WordAt(w0, 1) == v && BufOf(s', t) == Enqueue([], Word, v);
    BufferStores([], t, Word, v);
    PReadEnqueue(s.c.mem, [], Word, v, Word);
  }

  /** The one decrement from above the first threshold makes its thread the owner. */
  lemma BecomesOwner(w0: int, s: State, t: nat)
    requires Inv(w0, s) && CanRun(s, t) && t != s.owner && LocOf(s, t).pc.Store1?
    ensures Inv(w0, AfterRun(s, t))
  {
    var s' := AfterRun(s, t);
    NewOwnerOk(w0, s, t);
    assert ThreadOk(w0, s, t) && ThreadOk(w0, s', t);
    forall u | 0 <= u < N(s) && u != t ensures ThreadOk(w0, s', u) {
      assert ThreadOk(w0, s, u);
    }
  }

  lemma OwnerLoadsSelf(w0: int, s: State, t: nat)
    requires Inv(w0, s) && CanRun(s, t) && t == s.owner && OpOf(t, LocOf(s, t)).Load?
    ensures OwnerOk(w0, AfterRun(s, t))
  {
    var s' := AfterRun(s, t);
    WordBelowThreshold(w0, s.depth);
    assert BufOf(s', t) == BufOf(s, t) && s'.c.mem == s.c.mem && s'.owner == t && s'.depth == s.depth;
  }

  lemma OwnerMutexSelf(w0: int, s: State, t: nat)
    requires Inv(w0, s) && CanRun(s, t) && t == s.owner && NeedsDrain(OpOf(t, LocOf(s, t)))
    ensures OwnerOk(w0, AfterRun(s, t))
  {
    var s' := AfterRun(s, t);
    WordBelowThreshold(w0, s.depth);
    assert BufOf(s', t) == BufOf(s, t) == [] && s'.owner == t && s'.depth == s.depth;
    MutexAfterRun(w0, s, t);
  }

  lemma OwnerDecrements(w0: int, s: State, t: nat)
    requires Inv(w0, s) && CanRun(s, t) && t == s.owner
    requires OpOf(t, LocOf(s, t)).Store? && OpOf(t, LocOf(s, t)).a == Word
    ensures OwnerOk(w0, AfterRun(s, t))
  {
    var s', op := AfterRun(s, t), OpOf(t, LocOf(s, t));
    WordBelowThreshold(w0, s.depth + 1);
    assert op.v == Deeper(WordAt(w0, s.depth)) == WordAt(w0, s.depth + 1);
    assert s'.depth == s.depth + 1 && s'.owner == t && s'.c.mem == s.c.mem;
    BufferStores(s.c.buf[t], t, Word, op.v);
    assert BufOf(s', t) == Enqueue(s.c.buf[t], Word, op.v);
    PReadEnqueue(s.c.mem, s.c.buf[t], Word, op.v, Word);
  }

  lemma OwnerSetsOwner(w0: int, s: State, t: nat)
    requires Inv(w0, s) && CanRun(s, t) && t == s.owner
    requires OpOf(t, LocOf(s, t)).Store? && OpOf(t, LocOf(s, t)).a != Word
    ensures OwnerOk(w0, AfterRun(s, t))
  {
    var s', op := AfterRun(s, t), OpOf(t, LocOf(s, t));
    assert s'.depth == s.depth && s'.owner == t && s'.c.mem == s.c.mem;
    BufferStores(s.c.buf[t], t, op.a, op.v);
    assert BufOf(s', t) == Enqueue(s.c.buf[t], op.a, op.v);
    PReadEnqueue(s.c.mem, s.c.buf[t], op.a, op.v, Word);
  }

  lemma OwnerRuns(w0: int, s: State, t: nat)
    requires Inv(w0, s) && CanRun(s, t) && t == s.owner
    ensures Inv(w0, AfterRun(s, t))
  {
    var op := OpOf(t, LocOf(s, t));
    if op.Load? { OwnerLoadsSelf(w0, s, t); }
    else if NeedsDrain(op) { OwnerMutexSelf(w0, s, t); }
    else if op.a == Word { OwnerDecrements(w0, s, t); }
    else { OwnerSetsOwner(w0, s, t); }
    MutexAfterRun(w0, s, t);
    assert AfterRun(s, t).owner == t by { assert OwnerAt(s, LocOf(s, t), View(s, t, Word)); }
    OthersFrame(w0, s, AfterRun(s, t), t);
  }

  lemma OwnerDrains(w0: int, s: State, t: nat, a: Addr)
    requires Inv(w0, s) && IsThread(s, t)
    ensures Inv(w0, s.(c := PsoDrain(s.c, t, a)))
  {
    var s' := s.(c := PsoDrain(s.c, t, a));
    assert ThreadOk(w0, s, t);
    if CanLand(s.c.buf[t], a) {
      assert t == s.owner;
      PReadDrain(s.c.mem, s.c.buf[t], a, Word);
      BufferLands(s.c.buf[t], t, a);
      OthersFrame(w0, s, s', t);
    }
  }

  lemma StepKeepsInv(w0: int, s: State, ch: PChoice<Addr>)
    requires Inv(w0, s)
    ensures Inv(w0, Step(s, ch))
  {
    var t := ch.t;
    if t < N(s) {
      if ch.PDrain? {
        OwnerDrains(w0, s, t, ch.a);
      } else if CanRun(s, t) {
        if t != s.owner {
          if LocOf(s, t).pc.Store1? { BecomesOwner(w0, s, t); } else { OtherRuns(w0, s, t); }
        } else {
          OwnerRuns(w0, s, t);
        }
      }
    }
  }

  /** The threads before their first call, with the pass values each will use. */
  function Begin(w0: int, calls: seq<seq<int>>): ScConf<Addr, Local> {
    ScConf(map[Word := w0], seq(|calls|, i requires 0 <= i < |calls| => Local(Idle, 0, calls[i], 0)))
  }

  lemma {:induction false} Reachable(w0: int, calls: seq<seq<int>>, sched: seq<PChoice<Addr>>) returns (s: State)
    requires StartWord(w0)
    ensures Inv(w0, s) && s.c == PsoExec(Prog(), PsoInit(Begin(w0, calls)), sched)
  {
    if sched == [] {
      s := State(PsoInit(Begin(w0, calls)), NOBODY, 0, NOBODY);
    } else {
      var n := |sched| - 1;
      var pre := Reachable(w0, calls, sched[..n]);
      s := Step(pre, sched[n]);
      StepKeepsInv(w0, pre, sched[n]);
      StepIsPso(pre, sched[n]);
    }
  }

  /** All calls that return 1 come from one thread. */
  lemma OneOwner(w0: int, calls: seq<seq<int>>, sched: seq<PChoice<Addr>>)
    requires StartWord(w0)
    ensures var c := PsoExec(Prog(), PsoInit(Begin(w0, calls)), sched);
      forall t, u :: 0 <= t < u < |c.loc| ==> c.loc[t].won == 0 || c.loc[u].won == 0
  {
    var s := Reachable(w0, calls, sched);
    forall t | 0 <= t < N(s) ensures s.c.loc[t].won > 0 ==> t == s.owner {
      assert ThreadOk(w0, s, t) && LocOf(s, t) == s.c.loc[t];
    }
  }

  /** No decrement is lost or made twice: between its calls the winner reads the word for as many
      decrements as it has won calls, and that is the word in memory once its buffer has drained. */
  lemma DecrementsCount(w0: int, calls: seq<seq<int>>, sched: seq<PChoice<Addr>>, t: nat)
    requires StartWord(w0) && t < |calls|
    ensures var c := PsoExec(Prog(), PsoInit(Begin(w0, calls)), sched);
      c.loc[t].won > 0 && c.loc[t].pc.Idle? ==>
        && PRead(c.mem, c.buf[t], Word) == WordAt(w0, c.loc[t].won)
        && (c.buf[t] == [] ==> Get(c.mem, Word) == WordAt(w0, c.loc[t].won))
  {
    var s := Reachable(w0, calls, sched);
    assert ThreadOk(w0, s, t) && LocOf(s, t) == s.c.loc[t];
  }
}
