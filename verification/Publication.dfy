/** Publication of a payload of any length through a flag: thread 0 stores the payload and then the
    flag, with or without something to keep them in order; every other thread reads the flag and,
    if it is set, the payload. */
module Publication {
  import opened StoreBuffer
  import opened Machine
  import opened SharedMemory

  datatype Addr = Payload(i: nat) | Flag

  /** What stands between the payload and the flag: nothing, the flag's own release order, a store
      barrier or a full fence. */
  datatype Guard = Unguarded | Released | Barrier | FullFence

  datatype Message = Message(payload: seq<int>, guard: Guard)

  datatype Local =
    | Fill(i: nat) | Guarding | Raise | Sent         // writer
    | Poll | Take(i: nat) | Skipped | Taken          // reader
    | Failed                                         // a payload field not yet there

  function AfterPayload(m: Message): Local {
    if m.guard == Barrier || m.guard == FullFence then Guarding else Raise
  }

  function OpOf(m: Message, l: Local): Op<Addr> {
    match l
    case Fill(i) => if i < |m.payload| then Store(Payload(i), m.payload[i], Plain) else Halt
    case Guarding => if m.guard == FullFence then Fence else StoreBarrier
    case Raise => Store(Flag, 1, if m.guard == Released then Release else Plain)
    case Poll => Load(Flag)
    case Take(i) => Load(Payload(i))
    case _ => Halt
  }

  function AfterOp(m: Message, l: Local, v: int): Local {
    match l
    case Fill(i) => if i + 1 < |m.payload| then Fill(i + 1) else AfterPayload(m)
    case Guarding => Raise
    case Raise => Sent
    case Poll => if v != 1 then Skipped else if |m.payload| == 0 then Taken else Take(0)
    case Take(i) =>
      if i >= |m.payload| || v != m.payload[i] then Failed else if i + 1 < |m.payload| then Take(i + 1) else Taken
    case _ => l
  }

  function Prog(m: Message): Program<Addr, Local> {
    Program((t: nat, l: Local) => OpOf(m, l), (t: nat, l: Local, v: int) => AfterOp(m, l, v))
  }

  function Begin(m: Message, readers: nat): ScConf<Addr, Local> {
    ScConf(map[], [if m.payload == [] then AfterPayload(m) else Fill(0)] + seq(readers, _ => Poll))
  }

  ghost predicate NobodyFailed(locs: seq<Local>) {
    forall t :: 0 <= t < |locs| ==> locs[t] != Failed
  }

  ghost predicate ReaderOk(m: Message, mem: Mem<Addr>, l: Local) {
    match l
    case Poll => true
    case Take(i) => i < |m.payload| && Get(mem, Flag) == 1
    case Skipped => true
    case Taken => true
    case _ => false
  }

  /** Once the flag is up so is the payload. */
  ghost predicate FlagOk(m: Message, mem: Mem<Addr>) {
    && (Get(mem, Flag) == 0 || Get(mem, Flag) == 1)
    && (Get(mem, Flag) == 1 ==> forall i :: 0 <= i < |m.payload| ==> Get(mem, Payload(i)) == m.payload[i])
  }

  predicate Putting(l: Local) { l.Fill? || l.Guarding? || l.Raise? }

  /** How many payload stores the writer has issued. */
  function Stored(m: Message, l: Local): nat {
    if l.Fill? then l.i else |m.payload|
  }

  // TSO, fence or no fence.

  ghost predicate TsoWriterOk(m: Message, mem: Mem<Addr>, b: Buf<Addr>, l: Local) {
    && (Putting(l) || l == Sent)
    && (l.Fill? ==> l.i < |m.payload|)
    && (forall i :: 0 <= i < Stored(m, l) ==> Read(mem, b, Payload(i)) == m.payload[i])
    && (forall i :: 0 <= i < |b| && b[i].addr == Flag ==> i == |b| - 1 && b[i].val == 1 && l == Sent)
    && (Get(mem, Flag) == 1 ==> b == [] && l == Sent)
  }

  ghost predicate TsoInv(m: Message, c: TsoConf<Addr, Local>) {
    && TsoWf(c) && |c.loc| > 0
    && TsoWriterOk(m, c.mem, c.buf[0], c.loc[0]) && FlagOk(m, c.mem)
    && (forall t :: 0 < t < |c.loc| ==> c.buf[t] == [] && ReaderOk(m, c.mem, c.loc[t]))
  }

  lemma TsoWriterRuns(m: Message, mem: Mem<Addr>, b: Buf<Addr>, l: Local)
    requires TsoWriterOk(m, mem, b, l) && Enabled(b, OpOf(m, l))
    ensures var e := Issue(mem, b, OpOf(m, l)); e.mem == mem && TsoWriterOk(m, mem, e.buf, AfterOp(m, l, e.val))
  {
    var op := OpOf(m, l);
    if op.Store? {
      var b' := b + [Write(op.a, op.v)];
      forall i: nat ensures Read(mem, b', Payload(i)) == if op.a == Payload(i) then op.v else Read(mem, b, Payload(i)) {
        ReadAppend(mem, b, Write(op.a, op.v), Payload(i));
      }
      assert forall i :: 0 <= i < |b| ==> b'[i] == b[i];
    } else {
      assert Issue(mem, b, op).buf == b;
    }
  }

  lemma TsoWriterDrains(m: Message, mem: Mem<Addr>, b: Buf<Addr>, l: Local)
    requires TsoWriterOk(m, mem, b, l) && FlagOk(m, mem) && b != []
    ensures var mem' := mem[b[0].addr := b[0].val];
      TsoWriterOk(m, mem', b[1..], l) && FlagOk(m, mem') && (Get(mem, Flag) == 1 ==> Get(mem', Flag) == 1)
  {
    var mem' := mem[b[0].addr := b[0].val];
    forall a ensures Read(mem', b[1..], a) == Read(mem, b, a) { ReadDrain(mem, b, a); }
    assert forall i :: 0 <= i < |b| - 1 ==> b[1..][i] == b[i + 1];
    if b[0].addr == Flag {
      forall i | 0 <= i < |m.payload| ensures Get(mem', Payload(i)) == m.payload[i] {
        assert Read(mem, b, Payload(i)) == m.payload[i];
      }
    }
  }

  lemma TsoStepKeeps(m: Message, c: TsoConf<Addr, Local>, ch: Choice)
    requires TsoInv(m, c)
    ensures TsoInv(m, TsoStep(Prog(m), c, ch))
  {
    var t := ch.t;
    if t < |c.loc| {
      assert Prog(m).op(t, c.loc[t]) == OpOf(m, c.loc[t]);
      if ch.Drain? {
        if c.buf[t] != [] { TsoWriterDrains(m, c.mem, c.buf[0], c.loc[0]); }
      } else if t == 0 && Enabled(c.buf[0], OpOf(m, c.loc[0])) {
        TsoWriterRuns(m, c.mem, c.buf[0], c.loc[0]);
      }
    }
  }

  lemma {:induction false} TsoInvHolds(m: Message, readers: nat, sched: seq<Choice>)
    ensures TsoInv(m, TsoExec(Prog(m), TsoInit(Begin(m, readers)), sched))
  {
    if sched != [] {
      var n := |sched| - 1;
      TsoInvHolds(m, readers, sched[..n]);
      TsoStepKeeps(m, TsoExec(Prog(m), TsoInit(Begin(m, readers)), sched[..n]), sched[n]);
    }
  }

  /** On TSO the flag is never in memory before the whole payload, with or without a guard, and a reader
      that sees the flag sees every payload store. */
  lemma TsoPublishes(m: Message, readers: nat, sched: seq<Choice>)
    ensures var c := TsoExec(Prog(m), TsoInit(Begin(m, readers)), sched); NobodyFailed(c.loc) && FlagOk(m, c.mem)
  {
    TsoInvHolds(m, readers, sched);
  }

  // PSO with a guard.

  predicate NoFlag(b: PBuf<Addr>) {
    forall i :: 0 <= i < |b| && b[i].Put? ==> b[i].addr != Flag
  }

  /** The flag store ends the buffer, behind a barrier unless it is alone. */
  predicate FlagLast(b: PBuf<Addr>) {
    b == [] ||
    (&& b[|b| - 1] == Put(Flag, 1) && (|b| > 1 ==> b[|b| - 2].Wall?)
     && (forall i :: 0 <= i < |b| - 1 && b[i].Put? ==> b[i].addr != Flag))
  }

  ghost predicate PsoWriterOk(m: Message, mem: Mem<Addr>, b: PBuf<Addr>, l: Local) {
    && (Putting(l) || l == Sent)
    && (l.Fill? ==> l.i < |m.payload|)
    && (forall i :: 0 <= i < Stored(m, l) ==> PRead(mem, b, Payload(i)) == m.payload[i])
    && (if l == Sent then FlagLast(b) else NoFlag(b) && Get(mem, Flag) == 0)
    && (l == Raise && m.guard != Released ==> b == [] || b[|b| - 1].Wall?)
    && (l == Guarding ==> m.guard == Barrier || m.guard == FullFence)
    && (Get(mem, Flag) == 1 ==> b == [])
  }

  ghost predicate PsoInv(m: Message, c: PsoConf<Addr, Local>) {
    && PsoWf(c) && |c.loc| > 0
    && PsoWriterOk(m, c.mem, c.buf[0], c.loc[0]) && FlagOk(m, c.mem)
    && (forall t :: 0 < t < |c.loc| ==> c.buf[t] == [] && ReaderOk(m, c.mem, c.loc[t]))
  }

  lemma PayloadIssued(m: Message, mem: Mem<Addr>, b: PBuf<Addr>, k: nat)
    requires k < |m.payload| && NoFlag(b)
    requires forall i :: 0 <= i < k ==> PRead(mem, b, Payload(i)) == m.payload[i]
    ensures var b' := Enqueue(b, Payload(k), m.payload[k]);
      NoFlag(b') && forall i :: 0 <= i <= k ==> PRead(mem, b', Payload(i)) == m.payload[i]
  {
    forall i | 0 <= i <= k ensures PRead(mem, Enqueue(b, Payload(k), m.payload[k]), Payload(i)) == m.payload[i] {
      PReadEnqueue(mem, b, Payload(k), m.payload[k], Payload(i));
    }
  }

  lemma PayloadComplete(m: Message, mem: Mem<Addr>, b: PBuf<Addr>)
    requires m.guard != Unguarded && m.payload != [] && NoFlag(b) && Get(mem, Flag) == 0
    requires forall i :: 0 <= i < |m.payload| ==> PRead(mem, b, Payload(i)) == m.payload[i]
    ensures PsoWriterOk(m, mem, b, AfterPayload(m))
  {}

  lemma WriterFills(m: Message, mem: Mem<Addr>, b: PBuf<Addr>, l: Local)
    requires m.guard != Unguarded && PsoWriterOk(m, mem, b, l) && l.Fill?
    ensures PsoWriterOk(m, mem, PIssue(mem, b, OpOf(m, l)).buf, AfterOp(m, l, 0))
  {
    var b' := Enqueue(b, Payload(l.i), m.payload[l.i]);
    PayloadIssued(m, mem, b, l.i);
    assert PIssue(mem, b, OpOf(m, l)).buf == b';
    if l.i + 1 < |m.payload| {
      assert PsoWriterOk(m, mem, b', Fill(l.i + 1));
    } else {
      PayloadComplete(m, mem, b');
    }
  }

  lemma PReadWalled(mem: Mem<Addr>, b: PBuf<Addr>, a: Addr)
    ensures PRead(mem, Walled(b), a) == PRead(mem, b, a)
  {
    QueueOfWalled(b, a);
  }

  lemma PReadBehind(mem: Mem<Addr>, b: PBuf<Addr>, i: nat)
    ensures PRead(mem, Enqueue(b, Flag, 1), Payload(i)) == PRead(mem, b, Payload(i))
    ensures PRead(mem, Enqueue(Walled(b), Flag, 1), Payload(i)) == PRead(mem, b, Payload(i))
  {
    PReadWalled(mem, b, Payload(i));
    PReadEnqueue(mem, b, Flag, 1, Payload(i));
    PReadEnqueue(mem, Walled(b), Flag, 1, Payload(i));
  }

  lemma WriterRaises(m: Message, mem: Mem<Addr>, b: PBuf<Addr>)
    requires m.guard != Unguarded && PsoWriterOk(m, mem, b, Raise)
    ensures PsoWriterOk(m, mem, PIssue(mem, b, OpOf(m, Raise)).buf, Sent)
  {
    var b' := if m.guard == Released then Enqueue(Walled(b), Flag, 1) else Enqueue(b, Flag, 1);
    assert PIssue(mem, b, OpOf(m, Raise)).buf == b';
    forall i | 0 <= i < |m.payload| ensures PRead(mem, b', Payload(i)) == m.payload[i] {
      assert 0 <= i < Stored(m, Raise);
      PReadBehind(mem, b, i);
    }
    assert FlagLast(b');
  }

  lemma WriterGuards(m: Message, mem: Mem<Addr>, b: PBuf<Addr>)
    requires m.guard == Barrier && PsoWriterOk(m, mem, b, Guarding)
    ensures PsoWriterOk(m, mem, Walled(b), Raise)
  {
    forall i | 0 <= i < |m.payload| ensures PRead(mem, Walled(b), Payload(i)) == m.payload[i] {
      PReadWalled(mem, b, Payload(i));
    }
  }

  lemma PsoWriterRuns(m: Message, mem: Mem<Addr>, b: PBuf<Addr>, l: Local)
    requires m.guard != Unguarded && PsoWriterOk(m, mem, b, l) && PEnabled(b, OpOf(m, l))
    ensures var e := PIssue(mem, b, OpOf(m, l)); e.mem == mem && PsoWriterOk(m, mem, e.buf, AfterOp(m, l, e.val))
  {
    match l
    case Fill(_) => WriterFills(m, mem, b, l);
    case Guarding => if m.guard == Barrier { WriterGuards(m, mem, b); }
    case Raise => WriterRaises(m, mem, b);
    case _ =>
  }

  lemma CutKeepsFlagLast(b: PBuf<Addr>, i: nat)
    requires FlagLast(b) && i < |b| - 2
    ensures FlagLast(b[..i] + b[i + 1..])
  {
    var c := b[..i] + b[i + 1..];
    assert c[|c| - 1] == b[|b| - 1] && c[|c| - 2] == b[|b| - 2];
    forall j | 0 <= j < |c| - 1 && c[j].Put? ensures c[j].addr != Flag {
      assert c[j] == if j < i then b[j] else b[j + 1];
    }
  }

  lemma UnwalledKeepsFlagLast(c: PBuf<Addr>)
    requires FlagLast(c)
    ensures FlagLast(Unwalled(c))
  {}

  /** What lands before the flag leaves the flag last; the flag lands when it is alone. */
  lemma LandingKeepsFlagLast(b: PBuf<Addr>, a: Addr)
    requires FlagLast(b) && CanLand(b, a)
    ensures FlagLast(Dequeue(b, a)) && (a == Flag ==> |b| == 1 && Landing(b, a) == 1)
  {
    NothingBeforeReach(b, a);
    var i := Reach(b, a);
    assert i == |b| - 1 ==> |b| == 1;
    if |b| == 1 {
      assert Dequeue(b, a) == [];
    } else {
      CutKeepsFlagLast(b, i);
      UnwalledKeepsFlagLast(b[..i] + b[i + 1..]);
    }
  }

  lemma LandingKeepsNoFlag(b: PBuf<Addr>, a: Addr)
    requires NoFlag(b) && CanLand(b, a)
    ensures NoFlag(Dequeue(b, a)) && a != Flag
  {
    var b' := Dequeue(b, a);
    forall i | 0 <= i < |b'| && b'[i].Put? ensures b'[i].addr != Flag {
      assert b'[i] in b;
    }
  }

  lemma PsoWriterDrains(m: Message, mem: Mem<Addr>, b: PBuf<Addr>, l: Local, a: Addr)
    requires PsoWriterOk(m, mem, b, l) && FlagOk(m, mem) && CanLand(b, a)
    ensures var mem' := mem[a := Landing(b, a)];
      PsoWriterOk(m, mem', Dequeue(b, a), l) && FlagOk(m, mem') && (Get(mem, Flag) == 1 ==> Get(mem', Flag) == 1)
  {
    var mem', b' := mem[a := Landing(b, a)], Dequeue(b, a);
    forall i | 0 <= i < Stored(m, l) ensures PRead(mem', b', Payload(i)) == m.payload[i] {
      PReadDrain(mem, b, a, Payload(i));
    }
    if l == Sent { LandingKeepsFlagLast(b, a); } else { LandingKeepsNoFlag(b, a); }
    if a == Flag {
      assert b' == [];
      forall i | 0 <= i < |m.payload| ensures Get(mem', Payload(i)) == m.payload[i] {
        assert PRead(mem', b', Payload(i)) == m.payload[i];
      }
    }
    assert l == Raise && b' != [] && m.guard != Released ==> b'[|b'| - 1] == b[|b| - 1];
  }

  lemma PsoStepKeeps(m: Message, c: PsoConf<Addr, Local>, ch: PChoice<Addr>)
    requires m.guard != Unguarded && PsoInv(m, c)
    ensures PsoInv(m, PsoStep(Prog(m), c, ch))
  {
    var t := ch.t;
    if t < |c.loc| {
      assert Prog(m).op(t, c.loc[t]) == OpOf(m, c.loc[t]);
      if ch.PDrain? {
        if CanLand(c.buf[t], ch.a) { PsoWriterDrains(m, c.mem, c.buf[0], c.loc[0], ch.a); }
      } else if t == 0 && PEnabled(c.buf[0], OpOf(m, c.loc[0])) {
        PsoWriterRuns(m, c.mem, c.buf[0], c.loc[0]);
      }
    }
  }

  lemma {:induction false} PsoInvHolds(m: Message, readers: nat, sched: seq<PChoice<Addr>>)
    requires m.guard != Unguarded
    ensures PsoInv(m, PsoExec(Prog(m), PsoInit(Begin(m, readers)), sched))
  {
    if sched != [] {
      var n := |sched| - 1;
      PsoInvHolds(m, readers, sched[..n]);
      PsoStepKeeps(m, PsoExec(Prog(m), PsoInit(Begin(m, readers)), sched[..n]), sched[n]);
    }
  }

  lemma PsoPublishes(m: Message, readers: nat, sched: seq<PChoice<Addr>>)
    requires m.guard != Unguarded
    ensures var c := PsoExec(Prog(m), PsoInit(Begin(m, readers)), sched); NobodyFailed(c.loc) && FlagOk(m, c.mem)
  {
    PsoInvHolds(m, readers, sched);
  }

  // PSO without a guard.

  predicate AllZero(q: seq<int>) {
    forall i :: 0 <= i < |q| ==> q[i] == 0
  }

  predicate Zeros(b: PBuf<Addr>) {
    forall i :: 0 <= i < |b| && b[i].Put? && b[i].addr.Payload? ==> b[i].val == 0
  }

  /** A payload of zeros cannot be told from one that has not arrived. */
  ghost predicate ZeroInv(m: Message, c: PsoConf<Addr, Local>) {
    && PsoWf(c) && |c.loc| > 0
    && (forall i :: Get(c.mem, Payload(i)) == 0) && Zeros(c.buf[0])
    && (Putting(c.loc[0]) || c.loc[0] == Sent) && (c.loc[0].Fill? ==> c.loc[0].i < |m.payload|)
    && (forall t :: 0 < t < |c.loc| ==> c.buf[t] == [])
    && (forall t :: 0 < t < |c.loc| ==> ZeroReaderOk(m, c.loc[t]))
  }

  predicate ZeroReaderOk(m: Message, l: Local) {
    l.Poll? || l.Skipped? || l.Taken? || (l.Take? && l.i < |m.payload|)
  }

  lemma ZeroDrain(b: PBuf<Addr>, a: Addr)
    requires Zeros(b) && CanLand(b, a)
    ensures Zeros(Dequeue(b, a)) && (a.Payload? ==> Landing(b, a) == 0)
  {
    var b' := Dequeue(b, a);
    forall i | 0 <= i < |b'| && b'[i].Put? && b'[i].addr.Payload? ensures b'[i].val == 0 {
      assert b'[i] in b;
    }
  }

  lemma ZeroStepKeeps(m: Message, c: PsoConf<Addr, Local>, ch: PChoice<Addr>)
    requires AllZero(m.payload) && ZeroInv(m, c)
    ensures ZeroInv(m, PsoStep(Prog(m), c, ch))
  {
    var t := ch.t;
    if t < |c.loc| {
      assert Prog(m).op(t, c.loc[t]) == OpOf(m, c.loc[t]);
      if ch.PDrain? && CanLand(c.buf[t], ch.a) { ZeroDrain(c.buf[t], ch.a); }
    }
  }

  lemma {:induction false} ZerosNeverFail(m: Message, readers: nat, sched: seq<PChoice<Addr>>)
    requires AllZero(m.payload)
    ensures ZeroInv(m, PsoExec(Prog(m), PsoInit(Begin(m, readers)), sched))
  {
    if sched != [] {
      var n := |sched| - 1;
      ZerosNeverFail(m, readers, sched[..n]);
      ZeroStepKeeps(m, PsoExec(Prog(m), PsoInit(Begin(m, readers)), sched[..n]), sched[n]);
    }
  }

  /** One writer and one reader, the writer having issued `k` payload stores and no other. */
  predicate Issued(m: Message, c: PsoConf<Addr, Local>, k: nat) {
    && PsoWf(c) && |c.loc| == 2 && c.mem == map[]
    && c.loc == [if k < |m.payload| then Fill(k) else AfterPayload(m), Poll]
    && c.buf[1] == [] && Overtakable(c.buf[0])
  }

  /** Payload stores with no barrier among them. */
  predicate Overtakable(b: PBuf<Addr>) {
    forall i :: 0 <= i < |b| ==> b[i].Put? && b[i].addr != Flag
  }

  lemma {:induction false} FlagReachable(b: PBuf<Addr>)
    requires Overtakable(b)
    ensures Reach(b + [Put(Flag, 1)], Flag) == |b|
  {
    var b' := b + [Put(Flag, 1)];
    if b != [] {
      assert b'[0] == b[0] && b'[1..] == b[1..] + [Put(Flag, 1)];
      FlagReachable(b[1..]);
    }
  }

  lemma FillIssued(m: Message, c: PsoConf<Addr, Local>, k: nat)
    requires k < |m.payload| && Issued(m, c, k)
    ensures Issued(m, PsoStep(Prog(m), c, PRun(0)), k + 1)
  {
    var b := c.buf[0];
    assert Prog(m).op(0, c.loc[0]) == OpOf(m, c.loc[0]) == Store(Payload(k), m.payload[k], Plain);
    assert PsoStep(Prog(m), c, PRun(0)).buf[0] == b + [Put(Payload(k), m.payload[k])];
  }

  lemma NothingIssued(m: Message)
    ensures Issued(m, PsoInit(Begin(m, 1)), 0)
  {}

  lemma {:induction false} IssuePayload(m: Message, k: nat) returns (sched: seq<PChoice<Addr>>)
    requires k <= |m.payload|
    ensures Issued(m, PsoExec(Prog(m), PsoInit(Begin(m, 1)), sched), k)
  {
    var c0 := PsoInit(Begin(m, 1));
    if k == 0 {
      sched := [];
      NothingIssued(m);
    } else {
      var pre := IssuePayload(m, k - 1);
      sched := pre + [PRun(0)];
      PsoSnoc(Prog(m), c0, pre, PRun(0));
      FillIssued(m, PsoExec(Prog(m), c0, pre), k - 1);
    }
  }

  /** The flag has landed, none of the payload has, and the reader is at field `k`. */
  ghost predicate Overtaken(m: Message, c: PsoConf<Addr, Local>, k: nat) {
    && PsoWf(c) && |c.loc| == 2 && c.loc[1] == Take(k) && c.buf[1] == []
    && forall i :: Get(c.mem, Payload(i)) == 0
  }

  predicate FlagPending(c: PsoConf<Addr, Local>) {
    && PsoWf(c) && c.mem == map[] && |c.loc| == 2 && c.loc[1] == Poll && c.buf[1] == []
    && CanLand(c.buf[0], Flag) && Landing(c.buf[0], Flag) == 1
  }

  lemma FlagIssued(m: Message, c: PsoConf<Addr, Local>)
    requires m.guard == Unguarded && Issued(m, c, |m.payload|)
    ensures FlagPending(PsoStep(Prog(m), c, PRun(0)))
  {
    assert Prog(m).op(0, c.loc[0]) == Store(Flag, 1, Plain);
    FlagReachable(c.buf[0]);
  }

  lemma FlagSeen(m: Message, c: PsoConf<Addr, Local>)
    requires m.payload != [] && PsoWf(c) && |c.loc| == 2 && c.loc[1] == Poll && c.buf[1] == [] &&
        c.mem == map[Flag := 1]
    ensures Overtaken(m, PsoStep(Prog(m), c, PRun(1)), 0)
  {
    assert Prog(m).op(1, c.loc[1]) == Load(Flag);
  }

  lemma FlagOvertakes(m: Message) returns (sched: seq<PChoice<Addr>>)
    requires m.guard == Unguarded && m.payload != []
    ensures Overtaken(m, PsoExec(Prog(m), PsoInit(Begin(m, 1)), sched), 0)
  {
    var p, c0 := Prog(m), PsoInit(Begin(m, 1));
    var s := IssuePayload(m, |m.payload|);
    sched := s + [PRun(0)] + [PDrain(0, Flag)] + [PRun(1)];
    FlagIssued(m, PsoExec(p, c0, s));
    PsoSnoc(p, c0, s, PRun(0));
    PsoSnoc(p, c0, s + [PRun(0)], PDrain(0, Flag));
    FlagSeen(m, PsoExec(p, c0, s + [PRun(0)] + [PDrain(0, Flag)]));
    PsoSnoc(p, c0, s + [PRun(0)] + [PDrain(0, Flag)], PRun(1));
  }

  /** The reader goes over fields that are to be zero and fails at the first that is not. */
  lemma {:induction false} ReadZeros(m: Message, k: nat) returns (sched: seq<PChoice<Addr>>)
    requires m.guard == Unguarded && k < |m.payload| && AllZero(m.payload[..k])
    ensures Overtaken(m, PsoExec(Prog(m), PsoInit(Begin(m, 1)), sched), k)
  {
    if k == 0 {
      sched := FlagOvertakes(m);
    } else {
      assert m.payload[..k][k - 1] == 0;
      assert m.payload[..k - 1] == m.payload[..k][..k - 1];
      var pre := ReadZeros(m, k - 1);
      sched := pre + [PRun(1)];
      PsoSnoc(Prog(m), PsoInit(Begin(m, 1)), pre, PRun(1));
      assert Prog(m).op(1, Take(k - 1)) == Load(Payload(k - 1));
    }
  }

  lemma {:induction false} FirstNonZero(q: seq<int>) returns (k: nat)
    requires !AllZero(q)
    ensures k < |q| && q[k] != 0 && AllZero(q[..k])
  {
    if AllZero(q[..|q| - 1]) {
      k := |q| - 1;
      assert q == q[..k] + [q[k]];
    } else {
      k := FirstNonZero(q[..|q| - 1]);
      assert q[..|q| - 1][..k] == q[..k];
    }
  }

  lemma UnguardedFails(m: Message) returns (sched: seq<PChoice<Addr>>)
    requires m.guard == Unguarded && !AllZero(m.payload)
    ensures !NobodyFailed(PsoExec(Prog(m), PsoInit(Begin(m, 1)), sched).loc)
  {
    var k := FirstNonZero(m.payload);
    var pre := ReadZeros(m, k);
    sched := pre + [PRun(1)];
    PsoSnoc(Prog(m), PsoInit(Begin(m, 1)), pre, PRun(1));
    assert Prog(m).op(1, Take(k)) == Load(Payload(k));
    assert PsoExec(Prog(m), PsoInit(Begin(m, 1)), sched).loc[1] == Failed;
  }

  /** On PSO publication works exactly with a guard of any kind, and for the payload of zeros, which
      the globals hold from the start. */
  lemma PsoPublishesIff(m: Message)
    ensures m.guard != Unguarded || AllZero(m.payload) <==>
      forall readers, sched :: NobodyFailed(PsoExec(Prog(m), PsoInit(Begin(m, readers)), sched).loc)
  {
    if m.guard != Unguarded || AllZero(m.payload) {
      forall readers, sched ensures NobodyFailed(PsoExec(Prog(m), PsoInit(Begin(m, readers)), sched).loc) {
        if m.guard != Unguarded { PsoPublishes(m, readers, sched); } else { ZerosNeverFail(m, readers, sched); }
      }
    } else {
      var sched := UnguardedFails(m);
      var readers: nat := 1;
      assert !NobodyFailed(PsoExec(Prog(m), PsoInit(Begin(m, readers)), sched).loc);
    }
  }

  /** The writer and the readers on the PSO memory in place. */
  class Channel {
    const m: Message
    const memory: PsoMemory<Addr>
    var loc: seq<Local>

    ghost predicate Valid()
      reads this, memory
    {
      |memory.buf| == |loc|
    }

    ghost function Conf(): PsoConf<Addr, Local>
      reads this, memory
    {
      PsoConf(memory.mem, memory.buf, loc)
    }

    constructor (m: Message, readers: nat)
      ensures Valid() && fresh(memory) && this.m == m && Conf() == PsoInit(Begin(m, readers))
    {
      this.m := m;
      memory := new PsoMemory(map[], readers + 1);
      loc := [if m.payload == [] then AfterPayload(m) else Fill(0)] + seq(readers, _ => Poll);
    }

    method WriterStep(t: nat)
      requires Valid() && t < |loc| && Putting(loc[t])
      modifies this, memory
      ensures Valid() && Conf() == PsoStep(Prog(m), old(Conf()), PRun(t))
    {
      assert Prog(m).op(t, loc[t]) == OpOf(m, loc[t]);
      assert memory.buf[t := memory.buf[t]] == memory.buf;
      match loc[t]
      case Fill(i) =>
        if i >= |m.payload| { return; }
        memory.Store(t, Payload(i), m.payload[i]);
        loc := loc[t := if i + 1 < |m.payload| then Fill(i + 1) else AfterPayload(m)];
      case Guarding =>
        if m.guard != FullFence {
          memory.Barrier(t);
        } else if memory.buf[t] != [] {
          return;
        }
        loc := loc[t := Raise];
      case Raise =>
        if m.guard == Released { memory.Barrier(t); }
        memory.Store(t, Flag, 1);
        loc := loc[t := Sent];
    }

    method ReaderStep(t: nat)
      requires Valid() && t < |loc| && (loc[t].Poll? || loc[t].Take?)
      modifies this`loc
      ensures Valid() && Conf() == PsoStep(Prog(m), old(Conf()), PRun(t))
    {
      assert Prog(m).op(t, loc[t]) == OpOf(m, loc[t]);
      assert memory.buf[t := memory.buf[t]] == memory.buf;
      if loc[t].Poll? {
        var flag := memory.Load(t, Flag);
        loc := loc[t := if flag != 1 then Skipped else if |m.payload| == 0 then Taken else Take(0)];
      } else {
        var i := loc[t].i;
        var v := memory.Load(t, Payload(i));
        var wrong := i >= |m.payload| || v != m.payload[i];
        loc := loc[t := if wrong then Failed else if i + 1 < |m.payload| then Take(i + 1) else Taken];
      }
    }

    method Step(ch: PChoice<Addr>)
      requires Valid()
      modifies this, memory
      ensures Valid() && Conf() == PsoStep(Prog(m), old(Conf()), ch)
    {
      var t := ch.t;
      if t >= |loc| { return; }
      if ch.PDrain? { memory.Drain(t, ch.a); return; }
      if Putting(loc[t]) { WriterStep(t); }
      else if loc[t].Poll? || loc[t].Take? { ReaderStep(t); }
      else { assert Prog(m).op(t, loc[t]) == Halt; }
    }

    /** A whole run under a schedule: with a guard no reader has seen the flag before the payload. */
    method Execute(sched: seq<PChoice<Addr>>, ghost readers: nat)
      requires Valid() && Conf() == PsoInit(Begin(m, readers))
      modifies this, memory
      ensures Valid() && Conf() == PsoExec(Prog(m), old(Conf()), sched)
      ensures m.guard != Unguarded ==> NobodyFailed(loc) && FlagOk(m, memory.mem)
    {
      for i := 0 to |sched|
        invariant Valid() && Conf() == PsoExec(Prog(m), old(Conf()), sched[..i])
      {
        Step(sched[i]);
        assert sched[..i + 1] == sched[..i] + [sched[i]];
        PsoSnoc(Prog(m), old(Conf()), sched[..i], sched[i]);
      }
      assert sched[..|sched|] == sched;
      if m.guard != Unguarded { PsoPublishes(m, readers, sched); }
    }
  }
}
