/** What the recursion flag is for: which calls of the rw-lock's winner return 1, in every PSO run. */
module RwLockFlag {
  import opened StoreBuffer
  import opened Machine
  import opened RwLock
  import opened RwLockOwner

  function Zeros(passes: seq<int>): nat {
    if passes == [] then 0
    else
      var n := |passes| - 1;
      Zeros(passes[..n]) + if passes[n] == 0 then 1 else 0
  }

  /** How many of the winner's first `n` calls return 1: the first one does, and the later ones do
      that ask for recursion, if the first one allowed it. */
  function Wins(passes: seq<int>, n: nat): nat
    requires 0 < n <= |passes|
  {
    if passes[0] == 0 then 1 + Zeros(passes[1..n]) else 1
  }

  lemma WinsNext(passes: seq<int>, n: nat)
    requires 0 < n < |passes|
    ensures Wins(passes, n + 1) == Wins(passes, n) + if passes[0] == 0 && passes[n] == 0 then 1 else 0
  {
    assert passes[1..n + 1][..n - 1] == passes[1..n];
  }

  /** The flag as the first call leaves it. */
  function Flag(passes: seq<int>): int
    requires passes != []
  {
    if passes[0] == 0 then 1 else 0
  }

  /** How many of its calls a thread has finished. */
  function Done(passes: seq<int>, l: Local): int {
    |passes| - |l.calls| - if l.pc.Idle? then 0 else 1
  }

  /** A thread takes the calls it was given one by one, each with its own pass value. */
  predicate OnTrack(passes: seq<int>, l: Local) {
    && |l.calls| <= |passes| && l.calls == passes[|passes| - |l.calls|..]
    && (!l.pc.Idle? ==> |l.calls| < |passes| && l.pass == passes[|passes| - |l.calls| - 1])
  }

  lemma OnTrackStep(passes: seq<int>, t: nat, l: Local, v: int)
    requires OnTrack(passes, l)
    ensures OnTrack(passes, AfterOp(t, l, v))
  {}

  predicate FirstWin(pc: Pc) {
    pc == Exit1(true) || pc.SetEnter? || pc.SetWriter? || pc.SetRecursive? || pc.SetExit?
  }

  predicate Relocking(pc: Pc) {
    pc.ReadWriter? || pc.Enter2? || pc.Test2? || pc.Load2? || pc.Store2? || pc.Exit2? || pc.IsZero? || pc.IsMinusHalf?
    || pc.SubLoad? || pc.SubStore? || pc.DecLoad? || pc.DecStore?
  }

  /** The winner in or after its first winning call, with what it sees of the owner and the flag. */
  predicate WinnerAt(passes: seq<int>, o: nat, l: Local, writer: int, flag: int)
    requires OnTrack(passes, l)
  {
    if FirstWin(l.pc) then
      && Done(passes, l) == 0
      && (l.pc.SetRecursive? || l.pc.SetExit? ==> writer == Id(o))
      && (l.pc.SetExit? ==> flag == Flag(passes))
    else
      && Done(passes, l) > 0 && writer == Id(o) && flag == Flag(passes)
      && l.won == Wins(passes, Done(passes, l))
      && (l.pc.ReadRecursive? || Relocking(l.pc) ==> l.pass == 0)
      && (Relocking(l.pc) ==> passes[0] == 0)
  }

  ghost predicate FlagInv(calls: seq<seq<int>>, s: State) {
    && PsoWf(s.c) && N(s) == |calls|
    && (forall t :: 0 <= t < N(s) ==> OnTrack(calls[t], s.c.loc[t]))
    && (if s.owner == NOBODY then forall t :: 0 <= t < N(s) ==> Done(calls[t], s.c.loc[t]) == 0
        else IsThread(s, s.owner) && WinnerSees(calls, s))
  }

  ghost predicate WinnerSees(calls: seq<seq<int>>, s: State)
    requires IsThread(s, s.owner) && N(s) == |calls| && OnTrack(calls[s.owner], s.c.loc[s.owner])
  {
    WinnerAt(calls[s.owner], s.owner, s.c.loc[s.owner], View(s, s.owner, Writer), View(s, s.owner, Recursive))
  }

  lemma FirstWinMoves(passes: seq<int>, o: nat, l: Local, writer: int, flag: int, v: int, writer': int, flag': int)
    requires OnTrack(passes, l) && WinnerAt(passes, o, l, writer, flag) && FirstWin(l.pc) && l.won == 0
    requires writer' == if l.pc.SetWriter? then Id(o) else writer
    requires flag' == if l.pc.SetRecursive? then (if l.pass == 0 then 1 else 0) else flag
    ensures OnTrack(passes, AfterOp(o, l, v)) && WinnerAt(passes, o, AfterOp(o, l, v), writer', flag')
  {
    OnTrackStep(passes, o, l, v);
    assert l.pass == passes[0];
    if l.pc.SetExit? { assert passes[1..1] == []; }
  }

  /** A later call in progress: on its way out it counts as won exactly if it should. */
  lemma LaterMoves(passes: seq<int>, o: nat, l: Local, writer: int, flag: int, v: int)
    requires OnTrack(passes, l) && WinnerAt(passes, o, l, writer, flag) && !FirstWin(l.pc) && !l.pc.Idle?
    requires !l.pc.Load1? && !l.pc.Store1?
    requires l.pc.ReadRecursive? ==> v == flag
    requires l.pc.ReadWriter? ==> v == writer
    requires l.pc.Test1? ==> v <= X_LOCK_HALF_DECR
    ensures OnTrack(passes, AfterOp(o, l, v)) && WinnerAt(passes, o, AfterOp(o, l, v), writer, flag)
  {
    OnTrackStep(passes, o, l, v);
    var d, l' := Done(passes, l), AfterOp(o, l, v);
    assert l.pass == passes[d];
    WinsNext(passes, d);
    if l'.pc.Idle? {
      assert Done(passes, l') == d + 1;
    } else {
      assert l'.won == l.won && Done(passes, l') == d;
    }
  }

  lemma IdleMoves(passes: seq<int>, o: nat, l: Local, writer: int, flag: int, v: int)
    requires OnTrack(passes, l) && WinnerAt(passes, o, l, writer, flag) && l.pc.Idle?
    ensures OnTrack(passes, AfterOp(o, l, v)) && WinnerAt(passes, o, AfterOp(o, l, v), writer, flag)
  {
    OnTrackStep(passes, o, l, v);
  }

  lemma OwnerViews(w0: int, s: State, t: nat)
    requires Inv(w0, s) && CanRun(s, t) && t == s.owner
    ensures var s' := AfterRun(s, t);
      && s'.owner == t && IsThread(s', t)
      && View(s', t, Writer) == (if LocOf(s, t).pc.SetWriter? then Id(t) else View(s, t, Writer))
      && View(s', t, Recursive) ==
           if LocOf(s, t).pc.SetRecursive? then (if LocOf(s, t).pass == 0 then 1 else 0) else View(s, t, Recursive)
  {
    var s', op := AfterRun(s, t), OpOf(t, LocOf(s, t));
    assert OwnerAt(s, LocOf(s, t), View(s, t, Word));
    if op.Store? {
      PReadEnqueue(s.c.mem, s.c.buf[t], op.a, op.v, Writer);
      PReadEnqueue(s.c.mem, s.c.buf[t], op.a, op.v, Recursive);
    }
  }

  lemma WinnerRuns(w0: int, calls: seq<seq<int>>, s: State, t: nat)
    requires Inv(w0, s) && FlagInv(calls, s) && CanRun(s, t) && t == s.owner
    ensures FlagInv(calls, AfterRun(s, t))
  {
    var s', l := AfterRun(s, t), LocOf(s, t);
    var v := PIssue(s.c.mem, s.c.buf[t], OpOf(t, l)).val;
    OwnerViews(w0, s, t);
    WordBelowThreshold(w0, s.depth);
    assert OwnerAt(s, l, View(s, t, Word));
    assert s'.c.loc == s.c.loc[t := AfterOp(t, l, v)];
    var writer, flag := View(s, t, Writer), View(s, t, Recursive);
    if FirstWin(l.pc) {
      FirstWinMoves(calls[t], t, l, writer, flag, v, View(s', t, Writer), View(s', t, Recursive));
    } else if l.pc.Idle? {
      IdleMoves(calls[t], t, l, writer, flag, v);
    } else {
      LaterMoves(calls[t], t, l, writer, flag, v);
    }
  }

  /** Nobody finishes a call before there is an owner. */
  lemma LoserMoves(w0: int, s: State, t: nat, passes: seq<int>)
    requires Inv(w0, s) && CanRun(s, t) && t != s.owner && OnTrack(passes, LocOf(s, t))
    ensures var s', l, l' := AfterRun(s, t), LocOf(s, t), LocOf(AfterRun(s, t), t);
      && OnTrack(passes, l')
      && (s.owner != NOBODY ==> s'.owner == s.owner && s'.c.buf == s.c.buf)
      && (s.owner == NOBODY ==> Done(passes, l') == Done(passes, l))
      && (s.owner == NOBODY && s'.owner != NOBODY ==> s'.owner == t && l'.pc == Exit1(true))
      && Get(s'.c.mem, Writer) == Get(s.c.mem, Writer) && Get(s'.c.mem, Recursive) == Get(s.c.mem, Recursive)
  {
    assert ThreadOk(w0, s, t);
    OnTrackStep(passes, t, LocOf(s, t), PIssue(s.c.mem, s.c.buf[t], OpOf(t, LocOf(s, t))).val);
  }

  lemma LoserRuns(w0: int, calls: seq<seq<int>>, s: State, t: nat)
    requires Inv(w0, s) && FlagInv(calls, s) && CanRun(s, t) && t != s.owner
    ensures FlagInv(calls, AfterRun(s, t))
  {
    var s' := AfterRun(s, t);
    LoserMoves(w0, s, t, calls[t]);
    assert s'.c.loc == s.c.loc[t := LocOf(s', t)];
  }

  lemma Lands(w0: int, calls: seq<seq<int>>, s: State, t: nat, a: Addr)
    requires Inv(w0, s) && FlagInv(calls, s) && IsThread(s, t)
    ensures FlagInv(calls, s.(c := PsoDrain(s.c, t, a)))
  {
    assert ThreadOk(w0, s, t);
    if CanLand(s.c.buf[t], a) {
      PReadDrain(s.c.mem, s.c.buf[t], a, Writer);
      PReadDrain(s.c.mem, s.c.buf[t], a, Recursive);
    }
  }

  lemma StepKeepsFlag(w0: int, calls: seq<seq<int>>, s: State, ch: PChoice<Addr>)
    requires Inv(w0, s) && FlagInv(calls, s)
    ensures FlagInv(calls, Step(s, ch))
  {
    var t := ch.t;
    if t < N(s) {
      if ch.PDrain? { Lands(w0, calls, s, t, ch.a); }
      else if CanRun(s, t) {
        if t == s.owner { WinnerRuns(w0, calls, s, t); } else { LoserRuns(w0, calls, s, t); }
      }
    }
  }

  lemma {:induction false} FlagHolds(w0: int, calls: seq<seq<int>>, sched: seq<PChoice<Addr>>) returns (s: State)
    requires StartWord(w0)
    ensures Inv(w0, s) && FlagInv(calls, s) && s.c == PsoExec(Prog(), PsoInit(Begin(w0, calls)), sched)
  {
    if sched == [] {
      s := State(PsoInit(Begin(w0, calls)), NOBODY, 0, NOBODY);
      assert Inv(w0, s);
    } else {
      var n := |sched| - 1;
      var pre := FlagHolds(w0, calls, sched[..n]);
      s := Step(pre, sched[n]);
      StepKeepsInv(w0, pre, sched[n]);
      StepKeepsFlag(w0, calls, pre, sched[n]);
      StepIsPso(pre, sched[n]);
    }
  }

  lemma WonByOwner(w0: int, calls: seq<seq<int>>, s: State, t: nat)
    requires Inv(w0, s) && FlagInv(calls, s) && t < N(s) && s.c.loc[t].won > 0
    ensures t == s.owner
  {
    assert ThreadOk(w0, s, t) && LocOf(s, t) == s.c.loc[t];
  }

  /** Between its calls the winner sees itself as the owner and the flag as its first call set it. */
  lemma RecursionFlag(w0: int, calls: seq<seq<int>>, sched: seq<PChoice<Addr>>, t: nat)
    requires StartWord(w0) && t < |calls|
    ensures var c := PsoExec(Prog(), PsoInit(Begin(w0, calls)), sched);
      c.loc[t].pc.Idle? && c.loc[t].won > 0 ==>
        && calls[t] != [] && PRead(c.mem, c.buf[t], Recursive) == (if calls[t][0] == 0 then 1 else 0)
        && PRead(c.mem, c.buf[t], Writer) == Id(t)
  {
    var s := FlagHolds(w0, calls, sched);
    if s.c.loc[t].won > 0 { WonByOwner(w0, calls, s, t); }
  }

  lemma WinnerWins(w0: int, calls: seq<seq<int>>, s: State, t: nat)
    requires Inv(w0, s) && FlagInv(calls, s) && t < N(s) && s.c.loc[t].won > 0 && s.c.loc[t].pc.Idle?
    ensures var n := |calls[t]| - |s.c.loc[t].calls|;
      0 < n <= |calls[t]| && s.c.loc[t].won == Wins(calls[t], n)
  {
    WonByOwner(w0, calls, s, t);
    assert WinnerSees(calls, s);
  }

  /** Between its calls a thread has won none, or every one that it should have. */
  lemma WinsExactly(w0: int, calls: seq<seq<int>>, sched: seq<PChoice<Addr>>, t: nat)
    requires StartWord(w0) && t < |calls|
    ensures var l := PsoExec(Prog(), PsoInit(Begin(w0, calls)), sched).loc[t];
      var n := |calls[t]| - |l.calls|;
      l.pc.Idle? && l.won > 0 ==> 0 < n <= |calls[t]| && l.won == Wins(calls[t], n)
  {
    var s := FlagHolds(w0, calls, sched);
    if s.c.loc[t].won > 0 && s.c.loc[t].pc.Idle? { WinnerWins(w0, calls, s, t); }
  }

  lemma OwnerIsAhead(calls: seq<seq<int>>, s: State, t: nat)
    requires FlagInv(calls, s) && t < N(s) && Done(calls[t], s.c.loc[t]) > 0
    ensures IsThread(s, s.owner) && (s.c.loc[s.owner].won > 0 || FirstWin(s.c.loc[s.owner].pc))
  {}

  /** A call is lost to another thread only: whoever has finished a call without winning one has
      someone else ahead. */
  lemma SomeoneWins(w0: int, calls: seq<seq<int>>, sched: seq<PChoice<Addr>>, t: nat)
    requires StartWord(w0) && t < |calls|
    ensures var locs := PsoExec(Prog(), PsoInit(Begin(w0, calls)), sched).loc;
      locs[t].pc.Idle? && locs[t].won == 0 && |locs[t].calls| < |calls[t]| ==>
        exists u :: 0 <= u < |locs| && u != t && (locs[u].won > 0 || FirstWin(locs[u].pc))
  {
    var s := FlagHolds(w0, calls, sched);
    var l := s.c.loc[t];
    if l.pc.Idle? && l.won == 0 && |l.calls| < |calls[t]| { OwnerIsAhead(calls, s, t); }
  }

  lemma {:induction false} AllZeros(passes: seq<int>)
    requires forall i :: 0 <= i < |passes| ==> passes[i] == 0
    ensures Zeros(passes) == |passes|
  {
    if passes != [] { AllZeros(passes[..|passes| - 1]); }
  }

  /** A single thread that always asks for recursion wins every call it begins. */
  lemma AloneWinsAll(w0: int, passes: seq<int>, sched: seq<PChoice<Addr>>)
    requires StartWord(w0) && forall i :: 0 <= i < |passes| ==> passes[i] == 0
    ensures var l := PsoExec(Prog(), PsoInit(Begin(w0, [passes])), sched).loc[0];
      l.pc.Idle? ==> l.won == |passes| - |l.calls|
  {
    var s := FlagHolds(w0, [passes], sched);
    AloneWon(w0, passes, s);
  }

  lemma AloneWon(w0: int, passes: seq<int>, s: State)
    requires Inv(w0, s) && FlagInv([passes], s) && forall i :: 0 <= i < |passes| ==> passes[i] == 0
    ensures var l := s.c.loc[0]; l.pc.Idle? ==> l.won == |passes| - |l.calls|
  {
    var l := s.c.loc[0];
    var n := |passes| - |l.calls|;
    assert ThreadOk(w0, s, 0) && LocOf(s, 0) == l && OnTrack([passes][0], l);
    if l.pc.Idle? && n > 0 {
      OwnerIsAhead([passes], s, 0);
      WinnerWins(w0, [passes], s, 0);
      AllZeros(passes[1..n]);
    }
  }
}
