/** Double-checked creation of the package table on a TSO machine, for any number of threads and
    calls. The mutex is a draining compare-and-swap and exchange; `new` returns memory holding
    anything; after each call its caller looks at all buckets. */
module TableCreation {
  import opened StoreBuffer
  import opened Machine
  import opened SharedMemory

  const SIZE := 10
  const NULL := 0

  datatype Addr = Table | Mutex | Bucket(table: int, i: int)

  datatype Pc =
    | Idle                   // the unlocked check comes next
    | Enter
    | Recheck
    | Fill(i: nat)           // the constructor: member initialiser, then the loop
    | Publish
    | Exit
    | Return                 // the final load of the global
    | Look(table: int, i: nat)
    | Failed                 // a NULL table or an uninitialised bucket

  /** `results` are the tables returned so far, `made` the calls that allocated one. */
  datatype Local = Local(pc: Pc, todo: nat, results: seq<int>, made: seq<nat>)

  /** Where `new` puts the table a thread creates in its call number `call`. */
  type Heap = (nat, nat) -> int

  ghost predicate NeverNull(heap: Heap) {
    forall t: nat, i: nat :: heap(t, i) != NULL
  }

  function OpOf(heap: Heap, t: nat, l: Local): Op<Addr> {
    match l.pc
    case Idle => if l.todo == 0 then Halt else Load(Table)
    case Enter => Cas(Mutex, 0, 1)
    case Recheck => Load(Table)
    case Fill(i) => Store(Bucket(heap(t, |l.results|), i % SIZE), NULL, Plain)
    case Publish => Store(Table, heap(t, |l.results|), Plain)
    case Exit => Exchange(Mutex, 0)
    case Return => Load(Table)
    case Look(p, i) => Load(Bucket(p, i))
    case Failed => Halt
  }

  function AfterOp(l: Local, v: int): Local {
    match l.pc
    case Idle => Local(if v == NULL then Enter else Return, if l.todo == 0 then 0 else l.todo - 1, l.results, l.made)
    case Enter => if v == 0 then l.(pc := Recheck) else l
    case Recheck => if v == NULL then l.(pc := Fill(0), made := l.made + [|l.results|]) else l.(pc := Exit)
    case Fill(i) => l.(pc := if i + 1 < 2 * SIZE then Fill(i + 1) else Publish)
    case Publish => l.(pc := Exit)
    case Exit => l.(pc := Return)
    case Return => l.(pc := if v == NULL then Failed else Look(v, 0), results := l.results + [v])
    case Look(p, i) => l.(pc := if v != NULL then Failed else if i + 1 < SIZE then Look(p, i + 1) else Idle)
    case Failed => l
  }

  function Prog(heap: Heap): Program<Addr, Local> {
    Program((t: nat, l: Local) => OpOf(heap, t, l), (t: nat, l: Local, v: int) => AfterOp(l, v))
  }

  /** A configuration and its history: the thread inside the mutex, the thread that allocated the
      table, and the table. */
  datatype State = State(c: TsoConf<Addr, Local>, inside: int, maker: int, table: int)

  const NOBODY := -1

  predicate InMutex(pc: Pc) { pc.Recheck? || pc.Fill? || pc.Publish? || pc.Exit? }

  function Next(heap: Heap, s: State, ch: Choice): (s': State)
    requires TsoWf(s.c)
    ensures TsoWf(s'.c) && |s'.c.loc| == |s.c.loc|
  {
    var t := ch.t;
    if t >= |s.c.loc| then s
    else if ch.Drain? then s.(c := TsoDrain(s.c, t))
    else
      var l := s.c.loc[t];
      var op := OpOf(heap, t, l);
      if !Enabled(s.c.buf[t], op) then s
      else
        var e := Issue(s.c.mem, s.c.buf[t], op);
        var l' := AfterOp(l, e.val);
        State(TsoConf(e.mem, s.c.buf[t := e.buf], s.c.loc[t := l']),
              if InMutex(l'.pc) then t else if InMutex(l.pc) then NOBODY else s.inside,
              if l.pc.Recheck? && l'.pc.Fill? then t else s.maker,
              if l.pc.Recheck? && l'.pc.Fill? then heap(t, |l.results|) else s.table)
  }

  lemma StepIsTso(heap: Heap, s: State, ch: Choice)
    requires TsoWf(s.c)
    ensures Next(heap, s, ch).c == TsoStep(Prog(heap), s.c, ch)
  {}

  function N(s: State): nat { |s.c.loc| }

  predicate IsThread(s: State, t: int) { TsoWf(s.c) && 0 <= t < N(s) }

  function LocOf(s: State, t: int): Local
    requires IsThread(s, t)
  { s.c.loc[t] }

  function BufOf(s: State, t: int): Buf<Addr>
    requires IsThread(s, t)
  { s.c.buf[t] }

  function View(s: State, t: int, a: Addr): int
    requires IsThread(s, t)
  { Read(s.c.mem, s.c.buf[t], a) }

  /** The table has reached memory, and with it, before it, every bucket. */
  predicate Published(s: State) { Get(s.c.mem, Table) != NULL }

  predicate Making(pc: Pc) { pc.Fill? || pc.Publish? }

  /** Every thread: what it returned is the one table; past the checks the table is there for it. */
  ghost predicate ThreadOk(s: State, t: int)
    requires IsThread(s, t)
  {
    var l := LocOf(s, t);
    && (InMutex(l.pc) <==> s.inside == t)
    && (forall r :: r in l.results ==> r == s.table != NULL)
    && (l.results != [] ==> Published(s))
    && |l.made| == (if t == s.maker then 1 else 0)
    && (t != s.maker ==> BufOf(s, t) == [] && !Making(l.pc) && (l.pc.Exit? ==> Published(s)))
    && (l.pc.Return? ==> Published(s))
    && (l.pc.Look? ==> Published(s) && l.pc.table == s.table && l.pc.i < SIZE)
    && !l.pc.Failed?
  }

  predicate IsBucket(s: State, w: Write<Addr>) {
    w.val == NULL && w.addr.Bucket?
  }

  /** The maker: its buffer holds bucket stores and then, if it has got that far, the table store. */
  ghost predicate MakerOk(heap: Heap, s: State)
    requires IsThread(s, s.maker)
  {
    var l, b := LocOf(s, s.maker), BufOf(s, s.maker);
    && s.table != NULL && |l.made| == 1 && s.table == heap(s.maker, l.made[0])
    && (Making(l.pc) ==>
          && !Published(s) && s.table == heap(s.maker, |l.results|)
          && (forall i :: 0 <= i < |b| ==> IsBucket(s, b[i])))
    && (l.pc.Fill? ==> l.pc.i < 2 * SIZE)
    && (forall j :: 0 <= j < SIZE && (l.pc.Fill? ==> j < l.pc.i) ==> View(s, s.maker, Bucket(s.table, j)) == NULL)
    && (!Making(l.pc) ==>
          if b == [] then Get(s.c.mem, Table) == s.table
          else
            && !Published(s) && l.pc.Exit? && b[|b| - 1] == Write(Table, s.table)
            && (forall i :: 0 <= i < |b| - 1 ==> IsBucket(s, b[i])))
  }

  ghost predicate Inv(heap: Heap, s: State) {
    && TsoWf(s.c) && NeverNull(heap)
    && (forall t :: 0 <= t < N(s) ==> ThreadOk(s, t))
    && Get(s.c.mem, Mutex) == (if s.inside == NOBODY then 0 else 1)
    && (s.inside == NOBODY || IsThread(s, s.inside))
    && (if s.maker == NOBODY then !Published(s) else IsThread(s, s.maker) && MakerOk(heap, s))
  }

  lemma MemoryHasBuckets(heap: Heap, s: State, j: nat)
    requires Inv(heap, s) && Published(s) && j < SIZE
    ensures Get(s.c.mem, Bucket(s.table, j)) == NULL && Get(s.c.mem, Table) == s.table
  {
    assert ThreadOk(s, s.maker);
    assert View(s, s.maker, Bucket(s.table, j)) == NULL;
  }

  predicate CanRun(heap: Heap, s: State, t: nat) {
    IsThread(s, t) && Enabled(s.c.buf[t], OpOf(heap, t, s.c.loc[t]))
  }

  lemma OthersFrame(heap: Heap, s: State, s': State, t: nat)
    requires Inv(heap, s) && IsThread(s, t) && TsoWf(s'.c) && N(s) == N(s')
    requires s.maker == s'.maker && s.table == s'.table && (Published(s) ==> Published(s'))
    requires forall u: nat :: u < N(s) && u != t ==> LocOf(s, u) == LocOf(s', u) && BufOf(s, u) == BufOf(s', u)
    requires s'.inside == (if InMutex(LocOf(s', t).pc) then t else if InMutex(LocOf(s, t).pc) then NOBODY else s.inside)
    requires InMutex(LocOf(s', t).pc) ==> s.inside == NOBODY || s.inside == t
    ensures forall u :: 0 <= u < N(s) && u != t ==> ThreadOk(s', u)
    ensures InMutex(LocOf(s', t).pc) <==> s'.inside == t
  {
    assert ThreadOk(s, t);
    forall u | 0 <= u < N(s) && u != t ensures ThreadOk(s', u) {
      assert ThreadOk(s, u);
      assert LocOf(s, u) == LocOf(s', u) && BufOf(s, u) == BufOf(s', u);
    }
  }

  lemma MakerFrame(heap: Heap, s: State, s': State)
    requires IsThread(s, s.maker) && IsThread(s', s'.maker) && MakerOk(heap, s)
    requires s.maker == s'.maker && s.table == s'.table
    requires LocOf(s, s.maker) == LocOf(s', s.maker) && BufOf(s, s.maker) == BufOf(s', s.maker)
    requires forall a :: a != Mutex ==> Get(s.c.mem, a) == Get(s'.c.mem, a)
    ensures MakerOk(heap, s')
  {
    forall j ensures View(s', s.maker, Bucket(s.table, j)) == View(s, s.maker, Bucket(s.table, j)) {
      ReadFrame(s.c.mem, s'.c.mem, s.c.buf[s.maker], Bucket(s.table, j));
    }
  }

  /** Any thread but the maker stores nothing. */
  lemma OtherSelf(heap: Heap, s: State, t: nat)
    requires Inv(heap, s) && CanRun(heap, s, t) && t != s.maker
    requires !(LocOf(s, t).pc.Recheck? && !Published(s))
    ensures var s' := Next(heap, s, Run(t));
      && ThreadOk(s', t) && s'.maker == s.maker && s'.table == s.table && s'.c.buf == s.c.buf
      && forall a :: a != Mutex ==> Get(s'.c.mem, a) == Get(s.c.mem, a)
  {
    assert ThreadOk(s, t);
    if LocOf(s, t).pc.Look? { MemoryHasBuckets(heap, s, LocOf(s, t).pc.i); }
    if LocOf(s, t).pc.Return? { MemoryHasBuckets(heap, s, 0); }
  }

  lemma OtherRuns(heap: Heap, s: State, t: nat)
    requires Inv(heap, s) && CanRun(heap, s, t) && t != s.maker
    requires !(LocOf(s, t).pc.Recheck? && !Published(s))
    ensures Inv(heap, Next(heap, s, Run(t)))
  {
    var s' := Next(heap, s, Run(t));
    assert ThreadOk(s, t);
    OtherSelf(heap, s, t);
    OthersFrame(heap, s, s', t);
    if s.maker != NOBODY { MakerFrame(heap, s, s'); }
  }

  lemma Allocates(heap: Heap, s: State, t: nat)
    requires Inv(heap, s) && CanRun(heap, s, t) && t != s.maker && LocOf(s, t).pc.Recheck? && !Published(s)
    ensures Inv(heap, Next(heap, s, Run(t)))
  {
    var s' := Next(heap, s, Run(t));
    assert ThreadOk(s, t);
    assert s.maker == NOBODY || ThreadOk(s, s.maker);
    forall u | 0 <= u < N(s) && u != t ensures ThreadOk(s', u) {
      assert ThreadOk(s, u);
    }
    assert ThreadOk(s', t);
    assert MakerOk(heap, s');
  }

  lemma MakerStores(heap: Heap, s: State, t: nat)
    requires Inv(heap, s) && CanRun(heap, s, t) && t == s.maker && Making(LocOf(s, t).pc)
    ensures Inv(heap, Next(heap, s, Run(t)))
  {
    var s' := Next(heap, s, Run(t));
    assert ThreadOk(s, t);
    var op := OpOf(heap, t, LocOf(s, t));
    forall a ensures View(s', t, a) == if a == op.a then op.v else View(s, t, a) {
      ReadAppend(s.c.mem, s.c.buf[t], Write(op.a, op.v), a);
    }
    OthersFrame(heap, s, s', t);
    assert ThreadOk(s', t);
    var b, b' := BufOf(s, t), BufOf(s', t);
    assert b' == b + [Write(op.a, op.v)] && forall i :: 0 <= i < |b| ==> b'[i] == b[i];
    var l, l' := LocOf(s, t), LocOf(s', t);
    forall j | 0 <= j < SIZE && (l'.pc.Fill? ==> j < l'.pc.i) ensures View(s', t, Bucket(s.table, j)) == NULL {
      if l.pc.Fill? && j >= l.pc.i { assert j == l.pc.i == l.pc.i % SIZE; }
    }
    assert MakerOk(heap, s');
  }

  lemma MakerRuns(heap: Heap, s: State, t: nat)
    requires Inv(heap, s) && CanRun(heap, s, t) && t == s.maker && !Making(LocOf(s, t).pc)
    ensures Inv(heap, Next(heap, s, Run(t)))
  {
    var s' := Next(heap, s, Run(t));
    var l := LocOf(s, t);
    assert ThreadOk(s, t);
    assert BufOf(s, t) == [] && Published(s);
    MemoryHasBuckets(heap, s, if l.pc.Look? then l.pc.i else 0);
    OthersFrame(heap, s, s', t);
    assert ThreadOk(s', t);
    forall j | 0 <= j < SIZE ensures View(s', t, Bucket(s.table, j)) == NULL {
      MemoryHasBuckets(heap, s, j);
    }
  }

  lemma MakerDrains(heap: Heap, s: State, t: nat)
    requires Inv(heap, s) && IsThread(s, t) && BufOf(s, t) != []
    ensures Inv(heap, Next(heap, s, Drain(t)))
  {
    var s' := Next(heap, s, Drain(t));
    assert ThreadOk(s, t);
    var b := BufOf(s, t);
    OthersFrame(heap, s, s', t);
    forall j ensures View(s', t, Bucket(s.table, j)) == View(s, t, Bucket(s.table, j)) {
      ReadDrain(s.c.mem, b, Bucket(s.table, j));
    }
    assert forall i :: 0 <= i < |b| - 1 ==> b[1..][i] == b[i + 1];
    assert ThreadOk(s', t);
    assert MakerOk(heap, s');
  }

  lemma StepKeepsInv(heap: Heap, s: State, ch: Choice)
    requires Inv(heap, s)
    ensures Inv(heap, Next(heap, s, ch))
  {
    var t := ch.t;
    if t < N(s) {
      if ch.Drain? {
        if BufOf(s, t) != [] { MakerDrains(heap, s, t); }
      } else if CanRun(heap, s, t) {
        var pc := LocOf(s, t).pc;
        if t != s.maker {
          if pc.Recheck? && !Published(s) { Allocates(heap, s, t); } else { OtherRuns(heap, s, t); }
        } else if Making(pc) { MakerStores(heap, s, t); }
        else { MakerRuns(heap, s, t); }
      }
    }
  }

  /** No table yet; fresh memory holds anything. */
  predicate StartMem(mem: Mem<Addr>) {
    Get(mem, Table) == NULL && Get(mem, Mutex) == 0
  }

  function Begin(mem: Mem<Addr>, calls: seq<nat>): ScConf<Addr, Local> {
    ScConf(mem, seq(|calls|, i requires 0 <= i < |calls| => Local(Idle, calls[i], [], [])))
  }

  lemma {:induction false} Reachable(heap: Heap, mem: Mem<Addr>, calls: seq<nat>, sched: seq<Choice>) returns (s: State)
    requires NeverNull(heap) && StartMem(mem)
    ensures Inv(heap, s) && s.c == TsoExec(Prog(heap), TsoInit(Begin(mem, calls)), sched)
  {
    if sched == [] {
      s := State(TsoInit(Begin(mem, calls)), NOBODY, NOBODY, NULL);
    } else {
      var n := |sched| - 1;
      var pre := Reachable(heap, mem, calls, sched[..n]);
      s := Next(heap, pre, sched[n]);
      StepKeepsInv(heap, pre, sched[n]);
      StepIsTso(heap, pre, sched[n]);
    }
  }

  /** What was allocated, if anything, is one table by one thread, and it is what every call returned. */
  ghost predicate OneTable(heap: Heap, locs: seq<Local>, table: int) {
    && table != NULL
    && (forall t :: 0 <= t < |locs| ==> forall r :: r in locs[t].results ==> r == table)
    && (forall t: nat :: t < |locs| ==>
          locs[t].made == [] || (|locs[t].made| == 1 && heap(t, locs[t].made[0]) == table))
    && (forall t, u :: 0 <= t < u < |locs| ==> locs[t].made == [] || locs[u].made == [])
    && (forall t :: 0 <= t < |locs| && locs[t].results != [] ==> exists u :: 0 <= u < |locs| && locs[u].made != [])
  }

  lemma InvIsOneTable(heap: Heap, s: State)
    requires Inv(heap, s)
    ensures exists table :: OneTable(heap, s.c.loc, table)
    ensures forall t :: 0 <= t < N(s) ==> !s.c.loc[t].pc.Failed?
  {
    forall t | 0 <= t < N(s)
      ensures !s.c.loc[t].pc.Failed? && |s.c.loc[t].made| == (if t == s.maker then 1 else 0)
      ensures forall r :: r in s.c.loc[t].results ==> r == s.table != NULL
      ensures s.c.loc[t].results != [] ==> s.maker != NOBODY
    {
      assert ThreadOk(s, t) && LocOf(s, t) == s.c.loc[t];
    }
    if s.maker != NOBODY { assert LocOf(s, s.maker) == s.c.loc[s.maker]; }
    assert OneTable(heap, s.c.loc, if s.table == NULL then 1 else s.table);
  }

  /** Calls still to come, finished, or about to return. */
  predicate Counted(l: Local, calls: nat) {
    |l.results| + l.todo + (if l.pc.Idle? || l.pc.Look? || l.pc.Failed? then 0 else 1) == calls
  }

  lemma {:induction false} CallsCounted(heap: Heap, mem: Mem<Addr>, calls: seq<nat>, sched: seq<Choice>)
    ensures var c := TsoExec(Prog(heap), TsoInit(Begin(mem, calls)), sched);
      |c.loc| == |calls| && forall t :: 0 <= t < |calls| ==> Counted(c.loc[t], calls[t])
  {
    if sched != [] {
      var n := |sched| - 1;
      CallsCounted(heap, mem, calls, sched[..n]);
      var c, t := TsoExec(Prog(heap), TsoInit(Begin(mem, calls)), sched[..n]), sched[n].t;
      if t < |c.loc| {
        assert Counted(c.loc[t], calls[t]) && Prog(heap).op(t, c.loc[t]) == OpOf(heap, t, c.loc[t]);
      }
    }
  }

  /** Every finished call has returned, once, and whoever has a table sees all its buckets empty. */
  ghost predicate AllReturned(c: TsoConf<Addr, Local>, calls: seq<nat>) {
    && TsoWf(c) && |c.loc| == |calls|
    && (forall t :: 0 <= t < |calls| && c.loc[t].pc.Idle? ==> |c.loc[t].results| + c.loc[t].todo == calls[t])
    && (forall t, r, j :: 0 <= t < |calls| && r in c.loc[t].results && 0 <= j < SIZE ==>
          Read(c.mem, c.buf[t], Bucket(r, j)) == NULL)
  }

  lemma ReturnedSeesBuckets(heap: Heap, s: State, t: nat, r: int, j: nat)
    requires Inv(heap, s) && IsThread(s, t) && r in s.c.loc[t].results && j < SIZE
    ensures Read(s.c.mem, s.c.buf[t], Bucket(r, j)) == NULL
  {
    assert ThreadOk(s, t) && LocOf(s, t) == s.c.loc[t] && BufOf(s, t) == s.c.buf[t];
    MemoryHasBuckets(heap, s, j);
  }

  lemma InvAllReturned(heap: Heap, s: State, calls: seq<nat>)
    requires Inv(heap, s) && N(s) == |calls| && forall t :: 0 <= t < |calls| ==> Counted(s.c.loc[t], calls[t])
    ensures AllReturned(s.c, calls)
  {
    forall t, r, j | 0 <= t < |calls| && r in s.c.loc[t].results && 0 <= j < SIZE
      ensures Read(s.c.mem, s.c.buf[t], Bucket(r, j)) == NULL
    {
      ReturnedSeesBuckets(heap, s, t, r, j);
    }
    assert forall t :: 0 <= t < |calls| && s.c.loc[t].pc.Idle? ==> Counted(s.c.loc[t], calls[t]);
  }

  /** At most one table is allocated over all threads and calls, every call that has finished has
      returned that one, and no caller, locked path or not, sees an uninitialised bucket. */
  lemma CreatedOnce(heap: Heap, mem: Mem<Addr>, calls: seq<nat>, sched: seq<Choice>)
    requires NeverNull(heap) && StartMem(mem)
    ensures var c := TsoExec(Prog(heap), TsoInit(Begin(mem, calls)), sched);
      && (exists table :: OneTable(heap, c.loc, table))
      && AllReturned(c, calls)
      && (forall t :: 0 <= t < |c.loc| ==> !c.loc[t].pc.Failed?)
  {
    var s := Reachable(heap, mem, calls, sched);
    InvIsOneTable(heap, s);
    CallsCounted(heap, mem, calls, sched);
    InvAllReturned(heap, s, calls);
  }

  /** A caller that has found `k` buckets of its table empty. */
  function Looking(l: Local, k: nat): Local {
    if k == 0 then l else AfterOp(Looking(l, k - 1), NULL)
  }

  /** It looks at every bucket, in order, before it is through. */
  lemma {:induction false} LooksAtAll(heap: Heap, t: nat, l: Local, p: int, k: nat)
    requires l.pc == Look(p, 0) && k <= SIZE
    ensures k < SIZE ==> OpOf(heap, t, Looking(l, k)) == Load(Bucket(p, k))
    ensures k == SIZE ==> Looking(l, k) == l.(pc := Idle)
  {
    if k > 0 {
      LooksAtAll(heap, t, l, p, k - 1);
      LookingAt(l, p, k - 1);
    }
  }

  lemma {:induction false} LookingAt(l: Local, p: int, k: nat)
    requires l.pc == Look(p, 0) && k < SIZE
    ensures Looking(l, k) == l.(pc := Look(p, k))
  {
    if k > 0 { LookingAt(l, p, k - 1); }
  }

  /** A call that finds the table there does not touch the mutex: its next access loads and returns it. */
  lemma FastPath(heap: Heap, c: TsoConf<Addr, Local>, t: nat)
    requires TsoWf(c) && t < |c.loc| && c.loc[t].pc.Idle? && c.loc[t].todo > 0
    requires Read(c.mem, c.buf[t], Table) != NULL
    ensures var one := TsoStep(Prog(heap), c, Run(t));
      var two := TsoStep(Prog(heap), one, Run(t));
      && one.mem == two.mem == c.mem && one.buf == two.buf == c.buf
      && two.loc[t].results == c.loc[t].results + [Read(c.mem, c.buf[t], Table)]
  {
    var one := TsoStep(Prog(heap), c, Run(t));
    assert Prog(heap).op(t, c.loc[t]) == Load(Table);
    assert one.buf == c.buf && one.loc[t].pc == Return;
    assert Prog(heap).op(t, one.loc[t]) == Load(Table);
  }

  /** getOrCreatePackageEntryTable and the constructor, on the shared memory in place. */
  class Creator {
    const heap: Heap
    const memory: Memory<Addr>
    var loc: seq<Local>

    ghost predicate Valid()
      reads this, memory
    {
      |memory.buf| == |loc|
    }

    ghost function Conf(): TsoConf<Addr, Local>
      reads this, memory
    {
      TsoConf(memory.mem, memory.buf, loc)
    }

    constructor (heap: Heap, mem: Mem<Addr>, calls: seq<nat>)
      ensures Valid() && fresh(memory) && this.heap == heap && Conf() == TsoInit(Begin(mem, calls))
    {
      this.heap := heap;
      memory := new Memory(mem, |calls|);
      loc := seq(|calls|, i requires 0 <= i < |calls| => Local(Idle, calls[i], [], []));
    }

    /** One access of a call that has not found or made a table yet. */
    method CreateStep(t: nat)
      requires Valid() && t < |loc|
      requires var pc := loc[t].pc; pc.Idle? || pc.Enter? || pc.Recheck? || pc.Fill? || pc.Publish?
      modifies this, memory
      ensures Valid() && Conf() == TsoStep(Prog(heap), old(Conf()), Run(t))
    {
      assert Prog(heap).op(t, loc[t]) == OpOf(heap, t, loc[t]);
      assert memory.buf[t := memory.buf[t]] == memory.buf && loc[t := loc[t]] == loc;
      var l := loc[t];
      match l.pc
      case Idle =>
        if l.todo == 0 { return; }
        var table := memory.Load(t, Table);
        loc := loc[t := Local(if table == NULL then Enter else Return, l.todo - 1, l.results, l.made)];
      case Enter =>
        if memory.buf[t] != [] { return; }
        var was := memory.CompareAndSwap(t, Mutex, 0, 1);
        if was == 0 { loc := loc[t := l.(pc := Recheck)]; }
      case Recheck =>
        var table := memory.Load(t, Table);
        loc := loc[t := if table == NULL then l.(pc := Fill(0), made := l.made + [|l.results|]) else l.(pc := Exit)];
      case Fill(i) =>
        memory.Store(t, Bucket(heap(t, |l.results|), i % SIZE), NULL);
        loc := loc[t := l.(pc := if i + 1 < 2 * SIZE then Fill(i + 1) else Publish)];
      case Publish =>
        memory.Store(t, Table, heap(t, |l.results|));
        loc := loc[t := l.(pc := Exit)];
    }

    /** One access from the end of the locked region on. */
    method ReturnStep(t: nat)
      requires Valid() && t < |loc| && (loc[t].pc.Exit? || loc[t].pc.Return? || loc[t].pc.Look?)
      modifies this, memory
      ensures Valid() && Conf() == TsoStep(Prog(heap), old(Conf()), Run(t))
    {
      assert Prog(heap).op(t, loc[t]) == OpOf(heap, t, loc[t]);
      assert memory.buf[t := memory.buf[t]] == memory.buf;
      var l := loc[t];
      match l.pc
      case Exit =>
        if memory.buf[t] != [] { return; }
        var _ := memory.Exchange(t, Mutex, 0);
        loc := loc[t := l.(pc := Return)];
      case Return =>
        var table := memory.Load(t, Table);
        loc := loc[t := l.(pc := if table == NULL then Failed else Look(table, 0), results := l.results + [table])];
      case Look(p, i) =>
        var bucket := memory.Load(t, Bucket(p, i));
        loc := loc[t := l.(pc := if bucket != NULL then Failed else if i + 1 < SIZE then Look(p, i + 1) else Idle)];
    }

    method Step(ch: Choice)
      requires Valid()
      modifies this, memory
      ensures Valid() && Conf() == TsoStep(Prog(heap), old(Conf()), ch)
    {
      var t := ch.t;
      if t >= |loc| { return; }
      if ch.Drain? { memory.Drain(t); return; }
      var pc := loc[t].pc;
      if pc.Idle? || pc.Enter? || pc.Recheck? || pc.Fill? || pc.Publish? { CreateStep(t); }
      else if !pc.Failed? { ReturnStep(t); }
      else { assert Prog(heap).op(t, loc[t]) == Halt; }
    }

    /** A whole run of the threads under a schedule: one table for everyone, fully initialised. */
    method Execute(sched: seq<Choice>, ghost mem: Mem<Addr>, ghost calls: seq<nat>)
      requires Valid() && NeverNull(heap) && StartMem(mem) && Conf() == TsoInit(Begin(mem, calls))
      modifies this, memory
      ensures Valid() && Conf() == TsoExec(Prog(heap), old(Conf()), sched)
      ensures exists table :: OneTable(heap, loc, table)
      ensures AllReturned(Conf(), calls)
      ensures forall t :: 0 <= t < |loc| ==> !loc[t].pc.Failed?
    {
      for i := 0 to |sched|
        invariant Valid() && Conf() == TsoExec(Prog(heap), old(Conf()), sched[..i])
      {
        Step(sched[i]);
        assert sched[..i + 1] == sched[..i] + [sched[i]];
        TsoSnoc(Prog(heap), old(Conf()), sched[..i], sched[i]);
      }
      assert sched[..|sched|] == sched;
      CreatedOnce(heap, mem, calls, sched);
    }
  }
}
