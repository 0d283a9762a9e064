/** Shared memory, the operations a thread may issue on it, and the two kinds of store buffer:
    one FIFO per thread (TSO) and one FIFO per thread and address between store barriers (PSO), as
    in chapter 8 and Appendix D of The SPARC Architecture Manual, Version 9. */
module StoreBuffer {

  /** How a store is written in the source: an ordinary assignment, or an atomic store of one of
      the memory orders of section 7.17.3 of ISO/IEC 9899:2011. Sequentially consistent stores are
      not buffered; release stores are, behind all earlier stores of their thread. */
  datatype Order = Plain | Relaxed | Release | SeqCst

  datatype Op<A> =
    | Load(a: A)
    | Store(a: A, v: int, ord: Order)
    | Exchange(a: A, v: int)
    | Cas(a: A, expected: int, v: int)
    | FetchAdd(a: A, k: int)
    | Fence             // full: waits for the buffer to drain
    | StoreBarrier      // keeps earlier stores ahead of later ones
    | Halt

  type Mem<A(==)> = map<A, int>

  datatype Write<A> = Write(addr: A, val: int)

  /** A thread's stores that have not reached memory yet, oldest first. */
  type Buf<A> = seq<Write<A>>

  /** Globals start at zero. */
  function Get<A(==)>(m: Mem<A>, a: A): int {
    if a in m then m[a] else 0
  }

  predicate IsBuffered<A>(op: Op<A>) {
    op.Store? && op.ord != SeqCst
  }

  /** Read-modify-writes, full fences and seq_cst stores wait until the thread's buffer is empty. */
  predicate NeedsDrain<A>(op: Op<A>) {
    !op.Load? && !op.Halt? && !op.StoreBarrier? && !IsBuffered(op)
  }

  /** The memory after an operation that acts on memory at once. */
  function MemAfter<A(==)>(m: Mem<A>, op: Op<A>): Mem<A> {
    match op
    case Store(a, v, _) => m[a := v]
    case Exchange(a, v) => m[a := v]
    case Cas(a, expected, v) => if Get(m, a) == expected then m[a := v] else m
    case FetchAdd(a, k) => m[a := Get(m, a) + k]
    case _ => m
  }

  /** The value such an operation hands back to its thread; a read-modify-write returns the old value. */
  function Result<A(==)>(m: Mem<A>, op: Op<A>): int {
    match op
    case Load(a) => Get(m, a)
    case Exchange(a, _) => Get(m, a)
    case Cas(a, _, _) => Get(m, a)
    case FetchAdd(a, _) => Get(m, a)
    case _ => 0
  }

  /** A load on TSO: the newest own buffered store to the address, else memory. */
  function Read<A(==)>(m: Mem<A>, b: Buf<A>, a: A): int {
    if b == [] then Get(m, a)
    else if b[|b| - 1].addr == a then b[|b| - 1].val
    else Read(m, b[..|b| - 1], a)
  }

  /** Letting the oldest store reach memory does not change what its own thread reads. */
  lemma {:induction false} ReadDrain<A>(m: Mem<A>, b: Buf<A>, a: A)
    requires b != []
    ensures Read(m[b[0].addr := b[0].val], b[1..], a) == Read(m, b, a)
  {
    var m' := m[b[0].addr := b[0].val];
    if |b| == 1 {
      assert b[..0] == [];
    } else {
      var n := |b| - 1;
      assert b[1..][n - 1] == b[n];
      assert b[1..][..n - 1] == b[..n][1..];
      ReadDrain(m, b[..n], a);
    }
  }

  /** A thread with no buffered store to an address reads it from memory. */
  lemma {:induction false} ReadMiss<A>(m: Mem<A>, b: Buf<A>, a: A)
    requires forall i :: 0 <= i < |b| ==> b[i].addr != a
    ensures Read(m, b, a) == Get(m, a)
  {
    if b != [] {
      ReadMiss(m, b[..|b| - 1], a);
    }
  }

  /** A thread's reads of an address depend on memory at that address only. */
  lemma {:induction false} ReadFrame<A>(m: Mem<A>, m': Mem<A>, b: Buf<A>, a: A)
    requires Get(m, a) == Get(m', a)
    ensures Read(m, b, a) == Read(m', b, a)
  {
    if b != [] {
      ReadFrame(m, m', b[..|b| - 1], a);
    }
  }

  lemma ReadAppend<A>(m: Mem<A>, b: Buf<A>, w: Write<A>, a: A)
    ensures Read(m, b + [w], a) == if w.addr == a then w.val else Read(m, b, a)
  {}

  /** One operation of a thread on TSO: the new memory, the new buffer, the value returned. */
  datatype Effect<A> = Effect(mem: Mem<A>, buf: Buf<A>, val: int)

  predicate Enabled<A>(b: Buf<A>, op: Op<A>) {
    !op.Halt? && (NeedsDrain(op) ==> b == [])
  }

  function Issue<A(==)>(m: Mem<A>, b: Buf<A>, op: Op<A>): Effect<A> {
    if op.Load? then Effect(m, b, Read(m, b, op.a))
    else if IsBuffered(op) then Effect(m, b + [Write(op.a, op.v)], 0)
    else Effect(MemAfter(m, op), b, Result(m, op))
  }

  // PSO.

  datatype Entry<A> = Put(addr: A, val: int) | Wall

  /** A thread's stores that have not reached memory yet, oldest first, and the barriers between
      them. Stores to one address stay in order, and so do stores on two sides of a barrier. */
  type PBuf<A> = seq<Entry<A>>

  /** The values buffered for one address, oldest first. */
  function Queue<A(==)>(b: PBuf<A>, a: A): seq<int> {
    if b == [] then []
    else
      var pre, w := b[..|b| - 1], b[|b| - 1];
      if w.Put? && w.addr == a then Queue(pre, a) + [w.val] else Queue(pre, a)
  }

  function Enqueue<A>(b: PBuf<A>, a: A, v: int): PBuf<A> {
    b + [Put(a, v)]
  }

  /** A barrier with nothing to keep back, or right behind another, adds nothing. */
  function Walled<A(==)>(b: PBuf<A>): PBuf<A> {
    if b == [] || b[|b| - 1].Wall? then b else b + [Wall]
  }

  /** The position of the store to an address that may land next; the length if none may. */
  function Reach<A(==)>(b: PBuf<A>, a: A): (i: nat)
    ensures i <= |b|
    ensures i < |b| ==> b[i].Put? && b[i].addr == a
  {
    if b == [] then 0
    else if b[0].Wall? then |b|
    else if b[0].addr == a then 0
    else 1 + Reach(b[1..], a)
  }

  predicate CanLand<A(==)>(b: PBuf<A>, a: A) {
    Reach(b, a) < |b|
  }

  function Landing<A(==)>(b: PBuf<A>, a: A): int
    requires CanLand(b, a)
  {
    b[Reach(b, a)].val
  }

  /** A barrier with nothing left in front of it is gone. */
  function Unwalled<A(==)>(b: PBuf<A>): PBuf<A> {
    if b != [] && b[0].Wall? then b[1..] else b
  }

  function Dequeue<A(==)>(b: PBuf<A>, a: A): PBuf<A>
    requires CanLand(b, a)
  {
    var i := Reach(b, a);
    Unwalled(b[..i] + b[i + 1..])
  }

  function PRead<A(==)>(m: Mem<A>, b: PBuf<A>, a: A): int {
    var q := Queue(b, a);
    if q == [] then Get(m, a) else q[|q| - 1]
  }

  datatype PEffect<A> = PEffect(mem: Mem<A>, buf: PBuf<A>, val: int)

  predicate PEnabled<A(==)>(b: PBuf<A>, op: Op<A>) {
    !op.Halt? && (NeedsDrain(op) ==> b == [])
  }

  function PIssue<A(==)>(m: Mem<A>, b: PBuf<A>, op: Op<A>): PEffect<A> {
    if op.Load? then PEffect(m, b, PRead(m, b, op.a))
    else if IsBuffered(op) then PEffect(m, Enqueue(if op.ord == Release then Walled(b) else b, op.a, op.v), 0)
    else if op.StoreBarrier? then PEffect(m, Walled(b), 0)
    else PEffect(MemAfter(m, op), b, Result(m, op))
  }

  lemma {:induction false} QueueOfConcat<A>(b: PBuf<A>, c: PBuf<A>, x: A)
    ensures Queue(b + c, x) == Queue(b, x) + Queue(c, x)
  {
    if c == [] {
      assert b + c == b;
    } else {
      var n := |c| - 1;
      assert (b + c)[..|b| + n] == b + c[..n];
      QueueOfConcat(b, c[..n], x);
    }
  }

  lemma QueueOfEnqueue<A>(b: PBuf<A>, a: A, v: int, x: A)
    ensures Queue(Enqueue(b, a, v), x) == Queue(b, x) + if x == a then [v] else []
  {
    assert Enqueue(b, a, v)[..|b|] == b;
  }

  lemma QueueOfWalled<A>(b: PBuf<A>, x: A)
    ensures Queue(Walled(b), x) == Queue(b, x)
  {
    assert (b + [Wall])[..|b|] == b;
  }

  lemma {:induction false} NothingBeforeReach<A>(b: PBuf<A>, a: A)
    requires CanLand(b, a)
    ensures Queue(b[..Reach(b, a)], a) == []
    ensures forall i :: 0 <= i < Reach(b, a) ==> b[i].Put? && b[i].addr != a
  {
    var i := Reach(b, a);
    if i > 0 {
      NothingBeforeReach(b[1..], a);
      assert b[..i] == [b[0]] + b[1..][..i - 1];
      QueueOfConcat([b[0]], b[1..][..i - 1], a);
      assert [b[0]][..0] == [];
      forall j | 0 <= j < i ensures b[j].Put? && b[j].addr != a {
        assert j > 0 ==> b[j] == b[1..][j - 1];
      }
    }
  }

  lemma QueueOfUnwalled<A>(b: PBuf<A>, x: A)
    ensures Queue(Unwalled(b), x) == Queue(b, x)
  {
    if b != [] && b[0].Wall? {
      assert b == [b[0]] + b[1..];
      QueueOfConcat([b[0]], b[1..], x);
      assert [b[0]][..0] == [];
    }
  }

  lemma QueueOfCut<A>(pre: PBuf<A>, a: A, v: int, post: PBuf<A>, x: A)
    ensures Queue(pre + [Put(a, v)] + post, x) == Queue(pre, x) + (if x == a then [v] else []) + Queue(post, x)
  {
    QueueOfConcat(Enqueue(pre, a, v), post, x);
    QueueOfEnqueue(pre, a, v, x);
  }

  lemma QueueOfRest<A>(pre: PBuf<A>, post: PBuf<A>, x: A)
    ensures Queue(Unwalled(pre + post), x) == Queue(pre, x) + Queue(post, x)
  {
    QueueOfConcat(pre, post, x);
    QueueOfUnwalled(pre + post, x);
  }

  lemma CutOut<A>(pre: PBuf<A>, a: A, v: int, post: PBuf<A>, x: A)
    requires Queue(pre, a) == []
    ensures var q := Queue(pre + [Put(a, v)] + post, x);
      var q' := Queue(Unwalled(pre + post), x);
      if x == a then q != [] && q[0] == v && q' == q[1..] else q' == q
  {
    QueueOfCut(pre, a, v, post, x);
    QueueOfRest(pre, post, x);
  }

  lemma Parts<T>(s: seq<T>, i: nat)
    requires i < |s|
    ensures s[..i] + [s[i]] + s[i + 1..] == s
  {}

  /** What lands is the oldest value of its address, and nothing else leaves the buffer. */
  lemma QueueOfDequeue<A>(b: PBuf<A>, a: A, x: A)
    requires CanLand(b, a)
    ensures Queue(b, a) != [] && Landing(b, a) == Queue(b, a)[0]
    ensures Queue(Dequeue(b, a), x) == if x == a then Queue(b, a)[1..] else Queue(b, x)
  {
    var i, v := Reach(b, a), Landing(b, a);
    NothingBeforeReach(b, a);
    CutOut(b[..i], a, v, b[i + 1..], a);
    CutOut(b[..i], a, v, b[i + 1..], x);
    Parts(b, i);
  }

  lemma PReadEnqueue<A>(m: Mem<A>, b: PBuf<A>, a: A, v: int, x: A)
    ensures PRead(m, Enqueue(b, a, v), x) == if x == a then v else PRead(m, b, x)
  {
    QueueOfEnqueue(b, a, v, x);
  }

  /** As on TSO, a thread's own reads do not notice its stores landing. */
  lemma PReadDrain<A>(m: Mem<A>, b: PBuf<A>, a: A, x: A)
    requires CanLand(b, a)
    ensures PRead(m[a := Landing(b, a)], Dequeue(b, a), x) == PRead(m, b, x)
  {
    QueueOfDequeue(b, a, x);
  }
}
