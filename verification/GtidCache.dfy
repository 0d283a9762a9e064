/** MySQL's cached gtid mode on a TSO machine: thread 0 stores the mode and counts each change with
    a fetch_add, thread 1 refreshes its copy when the counter has moved. */
module GtidCache {
  import opened StoreBuffer
  import opened Machine
  import opened SharedMemory

  datatype Addr = Mode | Count | Running

  datatype Pc =
    | WriteMode | Bump | Stopped                      // writer
    | TestRunning | ReadCount | ReadMode(cur: int)    // reader
    | Finished

  /** Writer: `left` rounds to come, `value` the mode of the last one. Reader: the cached copies. */
  datatype Local = Local(pc: Pc, left: nat, value: int, mode: int, count: int)

  function Flip(v: int): int { if v == 0 then 1 else 0 }

  function OpOf(l: Local): Op<Addr> {
    match l.pc
    case WriteMode => if l.left == 0 then Store(Running, 0, Plain) else Store(Mode, Flip(l.value), Plain)
    case Bump => FetchAdd(Count, 1)
    case Stopped => Halt
    case TestRunning => Load(Running)
    case ReadCount => Load(Count)
    case ReadMode(_) => Load(Mode)
    case Finished => Halt
  }

  function AfterOp(l: Local, v: int): Local {
    match l.pc
    case WriteMode =>
      if l.left == 0 then l.(pc := Stopped) else l.(pc := Bump, value := Flip(l.value), left := l.left - 1)
    case Bump => l.(pc := WriteMode)
    case TestRunning => l.(pc := if v == 0 then Finished else ReadCount)
    case ReadCount => l.(pc := if v != l.count then ReadMode(v) else TestRunning)
    case ReadMode(cur) => l.(pc := TestRunning, mode := v, count := cur)
    case _ => l
  }

  function Prog(): Program<Addr, Local> {
    Program((t: nat, l: Local) => OpOf(l), (t: nat, l: Local, v: int) => AfterOp(l, v))
  }

  function Begin(rounds: nat): ScConf<Addr, Local> {
    ScConf(map[Mode := 0, Count := 0, Running := 1],
           [Local(WriteMode, rounds, 0, 0, 0), Local(TestRunning, 0, 0, -1, -1)])
  }

  /** The mode the writer stores in a round; round 0 is the initial value. */
  function ModeOf(round: nat): int { round % 2 }

  /** A configuration and its history: how many mode stores have been issued and landed, and the
      round whose mode the reader cached last. */
  datatype State = State(c: TsoConf<Addr, Local>, issued: nat, landed: nat, cached: nat)

  function Next(s: State, ch: Choice): (s': State)
    requires TsoWf(s.c)
    ensures TsoWf(s'.c) && |s'.c.loc| == |s.c.loc|
  {
    var t := ch.t;
    if t >= |s.c.loc| then s
    else
      var b, l := s.c.buf[t], s.c.loc[t];
      if ch.Drain? then
        if b == [] then s
        else s.(c := TsoDrain(s.c, t), landed := if b[0].addr == Mode then s.landed + 1 else s.landed)
      else if !Enabled(b, OpOf(l)) then s
      else
        var e := Issue(s.c.mem, b, OpOf(l));
        State(TsoConf(e.mem, s.c.buf[t := e.buf], s.c.loc[t := AfterOp(l, e.val)]),
              if l.pc.WriteMode? && l.left > 0 then s.issued + 1 else s.issued,
              s.landed,
              if l.pc.ReadMode? then s.landed else s.cached)
  }

  lemma NextIsTso(s: State, ch: Choice)
    requires TsoWf(s.c)
    ensures Next(s, ch).c == TsoStep(Prog(), s.c, ch)
  {}

  function Exec(s: State, sched: seq<Choice>): (s': State)
    requires TsoWf(s.c)
    ensures TsoWf(s'.c) && |s'.c.loc| == |s.c.loc|
  {
    if sched == [] then s else Next(Exec(s, sched[..|sched| - 1]), sched[|sched| - 1])
  }

  lemma {:induction false} ExecIsTso(s: State, sched: seq<Choice>)
    requires TsoWf(s.c)
    ensures Exec(s, sched).c == TsoExec(Prog(), s.c, sched)
  {
    if sched != [] {
      var n := |sched| - 1;
      ExecIsTso(s, sched[..n]);
      NextIsTso(Exec(s, sched[..n]), sched[n]);
    }
  }

  function Start(rounds: nat): State {
    State(TsoInit(Begin(rounds)), 0, 0, 0)
  }

  ghost predicate WriterOk(s: State)
    requires TsoWf(s.c) && |s.c.loc| == 2
  {
    var l, b, k := s.c.loc[0], s.c.buf[0], Get(s.c.mem, Count);
    && 0 <= k && l.value == ModeOf(s.issued) && Get(s.c.mem, Mode) == ModeOf(s.landed)
    && match l.pc
       case WriteMode => k == s.landed == s.issued && b == []
       case Bump =>
         && k + 1 == s.issued
         && (if b == [] then s.landed == s.issued else s.landed == k && b == [Write(Mode, l.value)])
       case Stopped => k == s.landed == s.issued && (b == [] || b == [Write(Running, 0)])
       case _ => false
  }

  ghost predicate ReaderOk(s: State)
    requires TsoWf(s.c) && |s.c.loc| == 2
  {
    var l := s.c.loc[1];
    && s.c.buf[1] == []
    && l.count <= Get(s.c.mem, Count)
    && (l.count >= 0 ==> l.count <= s.cached <= s.landed && l.mode == ModeOf(s.cached))
    && match l.pc
       case TestRunning => true
       case ReadCount => true
       case ReadMode(cur) => 0 <= cur <= Get(s.c.mem, Count)
       case Finished => true
       case _ => false
  }

  ghost predicate Inv(s: State) {
    TsoWf(s.c) && |s.c.loc| == 2 && WriterOk(s) && ReaderOk(s)
  }

  lemma WriterRuns(s: State)
    requires Inv(s)
    ensures Inv(Next(s, Run(0)))
  {}

  lemma ReaderRuns(s: State)
    requires Inv(s)
    ensures Inv(Next(s, Run(1)))
  {}

  lemma WriterDrains(s: State)
    requires Inv(s)
    ensures Inv(Next(s, Drain(0)))
  {}

  lemma {:induction false} Reachable(rounds: nat, sched: seq<Choice>)
    ensures Inv(Exec(Start(rounds), sched))
  {
    if sched != [] {
      var n := |sched| - 1;
      Reachable(rounds, sched[..n]);
      var pre := Exec(Start(rounds), sched[..n]);
      if sched[n] == Run(0) { WriterRuns(pre); }
      if sched[n] == Run(1) { ReaderRuns(pre); }
      if sched[n] == Drain(0) { WriterDrains(pre); }
    }
  }

  predicate Agrees(c: TsoConf<Addr, Local>) {
    && |c.loc| == 2
    && (!c.loc[0].pc.Bump? && !c.loc[1].pc.ReadMode? && c.loc[1].count == Get(c.mem, Count) ==>
          c.loc[1].mode == Get(c.mem, Mode))
  }

  lemma InvAgrees(s: State)
    requires Inv(s)
    ensures Agrees(s.c)
  {}

  /** When the cached counter is current, the writer is between rounds and the reader not in a
      refresh, the cached mode is the mode. */
  lemma CacheAgrees(rounds: nat, sched: seq<Choice>)
    ensures Agrees(TsoExec(Prog(), TsoInit(Begin(rounds)), sched))
  {
    Reachable(rounds, sched);
    InvAgrees(Exec(Start(rounds), sched));
    ExecIsTso(Start(rounds), sched);
  }

  /** At any time, once there has been a refresh, the round whose mode the reader took is no older
      than the cached counter, and at most one ahead of the counter in memory. */
  lemma CacheIsNotStale(rounds: nat, sched: seq<Choice>)
    ensures var s := Exec(Start(rounds), sched);
      && s.c == TsoExec(Prog(), TsoInit(Begin(rounds)), sched)
      && |s.c.loc| == 2 && Get(s.c.mem, Mode) == ModeOf(s.landed)
      && (s.c.loc[1].count >= 0 ==>
            && s.c.loc[1].count <= s.cached <= s.landed <= Get(s.c.mem, Count) + 1
            && s.c.loc[1].mode == ModeOf(s.cached))
  {
    Reachable(rounds, sched);
    ExecIsTso(Start(rounds), sched);
  }

  /** What the reader's last load of the counter returned, if there was one. */
  function LastCount(rounds: nat, sched: seq<Choice>): int {
    if sched == [] then -1
    else
      var n := |sched| - 1;
      var c := TsoExec(Prog(), TsoInit(Begin(rounds)), sched[..n]);
      if sched[n] == Run(1) && |c.loc| == 2 && OpOf(c.loc[1]) == Load(Count) then Read(c.mem, c.buf[1], Count)
      else LastCount(rounds, sched[..n])
  }

  /** The reader has taken over what it read last, or is about to. */
  predicate Current(l: Local, last: int) {
    if l.pc.ReadMode? then l.pc.cur == last else l.count == last
  }

  /** Whenever the counter it read has moved the reader refreshes its copy: after a turn of its loop
      the cached counter is the one it read. */
  lemma {:induction false} ReaderRefreshes(rounds: nat, sched: seq<Choice>)
    ensures var c := TsoExec(Prog(), TsoInit(Begin(rounds)), sched);
      |c.loc| == 2 && Current(c.loc[1], LastCount(rounds, sched))
  {
    if sched != [] {
      var n := |sched| - 1;
      ReaderRefreshes(rounds, sched[..n]);
      var pre := Exec(Start(rounds), sched[..n]);
      Reachable(rounds, sched[..n]);
      ExecIsTso(Start(rounds), sched[..n]);
      assert ReaderOk(pre);
      var t := sched[n].t;
      if t < 2 { assert Prog().op(t, pre.c.loc[t]) == OpOf(pre.c.loc[t]); }
    }
  }

  /** Rounds counted, the one being counted and those to come are the rounds asked for. */
  predicate RoundsOk(rounds: nat, c: TsoConf<Addr, Local>) {
    && |c.loc| == 2
    && Get(c.mem, Count) + c.loc[0].left + (if c.loc[0].pc.Bump? then 1 else 0) == rounds
    && (c.loc[0].pc.Stopped? ==> c.loc[0].left == 0)
  }

  lemma StepKeepsRounds(rounds: nat, s: State, ch: Choice)
    requires Inv(s) && RoundsOk(rounds, s.c)
    ensures RoundsOk(rounds, Next(s, ch).c)
  {
    if ch == Drain(0) && s.c.buf[0] != [] { assert s.c.buf[0][0].addr != Count; }
  }

  lemma {:induction false} RoundsCounted(rounds: nat, sched: seq<Choice>)
    ensures RoundsOk(rounds, Exec(Start(rounds), sched).c)
  {
    if sched != [] {
      var n := |sched| - 1;
      RoundsCounted(rounds, sched[..n]);
      Reachable(rounds, sched[..n]);
      StepKeepsRounds(rounds, Exec(Start(rounds), sched[..n]), sched[n]);
    }
  }

  /** The flag that keeps the reader going falls when the writer has done all its rounds, and not before. */
  ghost predicate StopOk(s: State)
    requires TsoWf(s.c) && |s.c.loc| == 2
  {
    && (Get(s.c.mem, Running) != 1 ==> Get(s.c.mem, Running) == 0 && s.c.loc[0].pc.Stopped? && s.c.buf[0] == [])
    && (s.c.loc[0].pc.Stopped? && s.c.buf[0] == [] ==> Get(s.c.mem, Running) == 0)
    && (s.c.loc[1].pc.Finished? ==> Get(s.c.mem, Running) == 0)
  }

  lemma StepKeepsStop(s: State, ch: Choice)
    requires Inv(s) && StopOk(s)
    ensures var s' := Next(s, ch); TsoWf(s'.c) && |s'.c.loc| == 2 && StopOk(s')
  {
    if ch == Drain(0) && s.c.buf[0] != [] { assert s.c.buf[0][1..] == []; }
    if ch == Run(0) && s.c.loc[0].pc.Stopped? { assert Next(s, ch) == s; }
  }

  lemma {:induction false} StopHolds(rounds: nat, sched: seq<Choice>)
    ensures var s := Exec(Start(rounds), sched); Inv(s) && StopOk(s)
  {
    Reachable(rounds, sched);
    if sched != [] {
      var n := |sched| - 1;
      StopHolds(rounds, sched[..n]);
      StepKeepsStop(Exec(Start(rounds), sched[..n]), sched[n]);
    }
  }

  /** A writer that is through has counted every round and left the last round's mode; a reader that is
      through has seen it say so, and one that asks before that goes on to the counter. */
  lemma Finishing(rounds: nat, sched: seq<Choice>)
    ensures var c := TsoExec(Prog(), TsoInit(Begin(rounds)), sched);
      && |c.loc| == 2
      && (c.loc[0].pc.Stopped? ==> Get(c.mem, Count) == rounds && Get(c.mem, Mode) == ModeOf(rounds))
      && (c.loc[1].pc.Finished? ==> c.loc[0].pc.Stopped? && Get(c.mem, Running) == 0)
      && (c.loc[1].pc.TestRunning? ==>
            var l := TsoStep(Prog(), c, Run(1)).loc[1];
            if c.loc[0].pc.Stopped? && c.buf[0] == [] then OpOf(l) == Halt else OpOf(l) == Load(Count))
  {
    var s := Exec(Start(rounds), sched);
    ExecIsTso(Start(rounds), sched);
    StopHolds(rounds, sched);
    RoundsCounted(rounds, sched);
    assert WriterOk(s) && ReaderOk(s);
    assert Prog().op(1, s.c.loc[1]) == OpOf(s.c.loc[1]);
  }

  /** The reader's and the writer's loops on the shared memory in place. */
  class ModeCache {
    const memory: Memory<Addr>
    var loc: seq<Local>

    ghost predicate Valid()
      reads this, memory
    {
      |memory.buf| == |loc|
    }

    ghost function Conf(): TsoConf<Addr, Local>
      reads this, memory
    {
      TsoConf(memory.mem, memory.buf, loc)
    }

    constructor (rounds: nat)
      ensures Valid() && fresh(memory) && Conf() == TsoInit(Begin(rounds))
    {
      memory := new Memory(map[Mode := 0, Count := 0, Running := 1], 2);
      loc := [Local(WriteMode, rounds, 0, 0, 0), Local(TestRunning, 0, 0, -1, -1)];
    }

    method WriterStep(t: nat)
      requires Valid() && t < |loc| && (loc[t].pc.WriteMode? || loc[t].pc.Bump?)
      modifies this, memory
      ensures Valid() && Conf() == TsoStep(Prog(), old(Conf()), Run(t))
    {
      assert Prog().op(t, loc[t]) == OpOf(loc[t]);
      assert memory.buf[t := memory.buf[t]] == memory.buf;
      var l := loc[t];
      if l.pc.Bump? {
        if memory.buf[t] != [] { return; }
        var _ := memory.FetchAdd(t, Count, 1);
        loc := loc[t := l.(pc := WriteMode)];
      } else if l.left == 0 {
        memory.Store(t, Running, 0);
        loc := loc[t := l.(pc := Stopped)];
      } else {
        var value := if l.value == 0 then 1 else 0;
        memory.Store(t, Mode, value);
        loc := loc[t := l.(pc := Bump, value := value, left := l.left - 1)];
      }
    }

    method ReaderStep(t: nat)
      requires Valid() && t < |loc| && (loc[t].pc.TestRunning? || loc[t].pc.ReadCount? || loc[t].pc.ReadMode?)
      modifies this`loc
      ensures Valid() && Conf() == TsoStep(Prog(), old(Conf()), Run(t))
    {
      assert Prog().op(t, loc[t]) == OpOf(loc[t]);
      assert memory.buf[t := memory.buf[t]] == memory.buf;
      var l := loc[t];
      match l.pc
      case TestRunning =>
        var running := memory.Load(t, Running);
        loc := loc[t := l.(pc := if running == 0 then Finished else ReadCount)];
      case ReadCount =>
        var cur := memory.Load(t, Count);
        loc := loc[t := l.(pc := if cur != l.count then ReadMode(cur) else TestRunning)];
      case ReadMode(cur) =>
        var mode := memory.Load(t, Mode);
        loc := loc[t := l.(pc := TestRunning, mode := mode, count := cur)];
    }

    method Step(ch: Choice)
      requires Valid()
      modifies this, memory
      ensures Valid() && Conf() == TsoStep(Prog(), old(Conf()), ch)
    {
      var t := ch.t;
      if t >= |loc| { return; }
      if ch.Drain? { memory.Drain(t); return; }
      var pc := loc[t].pc;
      if pc.WriteMode? || pc.Bump? { WriterStep(t); }
      else if pc.TestRunning? || pc.ReadCount? || pc.ReadMode? { ReaderStep(t); }
      else { assert Prog().op(t, loc[t]) == Halt; }
    }

    /** A whole run under a schedule ends with a cache that agrees whenever it claims to be current. */
    method Execute(sched: seq<Choice>, ghost rounds: nat)
      requires Valid() && Conf() == TsoInit(Begin(rounds))
      modifies this, memory
      ensures Valid() && Conf() == TsoExec(Prog(), old(Conf()), sched) && Agrees(Conf())
    {
      for i := 0 to |sched|
        invariant Valid() && Conf() == TsoExec(Prog(), old(Conf()), sched[..i])
      {
        Step(sched[i]);
        assert sched[..i + 1] == sched[..i] + [sched[i]];
        TsoSnoc(Prog(), old(Conf()), sched[..i], sched[i]);
      }
      assert sched[..|sched|] == sched;
      CacheAgrees(rounds, sched);
    }
  }
}
