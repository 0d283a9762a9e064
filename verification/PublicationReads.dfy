/** What the readers of a publication have read when they are through, and that everyone gets through. */
module PublicationReads {
  import opened StoreBuffer
  import opened Machine
  import opened Reads
  import opened Progress
  import opened Publication

  /** A reader that took the message loaded the flag and then every field of the payload, in order; one
      that skipped it loaded the flag only. */
  predicate LogOk(m: Message, l: Local, log: seq<int>) {
    match l
    case Poll => log == []
    case Take(i) => i < |m.payload| && log == [1] + m.payload[..i]
    case Taken => log == [1] + m.payload
    case Skipped => |log| == 1 && log[0] != 1
    case _ => true
  }

  lemma LogStep(m: Message, l: Local, log: seq<int>, v: int)
    requires LogOk(m, l, log) && !OpOf(m, l).Halt?
    ensures LogOk(m, AfterOp(m, l, v), log + [v])
  {
    if l.Take? {
      assert m.payload[..l.i + 1] == m.payload[..l.i] + [m.payload[l.i]];
      assert l.i + 1 == |m.payload| ==> m.payload[..l.i + 1] == m.payload;
    }
  }

  lemma {:induction false} TsoLogs(m: Message, readers: nat, sched: seq<Choice>, t: nat)
    requires t <= readers
    ensures var c := TsoExec(Prog(m), TsoInit(Begin(m, readers)), sched);
      var logs := TsoReads(Prog(m), Begin(m, readers), sched);
      |c.loc| == |logs| == readers + 1 && LogOk(m, c.loc[t], logs[t])
  {
    var p, c0 := Prog(m), Begin(m, readers);
    if sched == [] {
      ReadsStart(p, c0);
    } else {
      var n := |sched| - 1;
      TsoLogs(m, readers, sched[..n], t);
      assert sched[..n] + [sched[n]] == sched;
      TsoReadsStep(p, c0, sched[..n], sched[n]);
      var c, ch := TsoExec(p, TsoInit(c0), sched[..n]), sched[n];
      if ch == Run(t) && Enabled(c.buf[t], OpOf(m, c.loc[t])) {
        LogStep(m, c.loc[t], TsoReads(p, c0, sched[..n])[t], Issue(c.mem, c.buf[t], OpOf(m, c.loc[t])).val);
      }
    }
  }

  lemma {:induction false} PsoLogs(m: Message, readers: nat, sched: seq<PChoice<Addr>>, t: nat)
    requires t <= readers
    ensures var c := PsoExec(Prog(m), PsoInit(Begin(m, readers)), sched);
      var logs := PsoReads(Prog(m), Begin(m, readers), sched);
      |c.loc| == |logs| == readers + 1 && LogOk(m, c.loc[t], logs[t])
  {
    var p, c0 := Prog(m), Begin(m, readers);
    if sched == [] {
      ReadsStart(p, c0);
    } else {
      var n := |sched| - 1;
      PsoLogs(m, readers, sched[..n], t);
      assert sched[..n] + [sched[n]] == sched;
      PsoReadsStep(p, c0, sched[..n], sched[n]);
      var c, ch := PsoExec(p, PsoInit(c0), sched[..n]), sched[n];
      if ch == PRun(t) && PEnabled(c.buf[t], OpOf(m, c.loc[t])) {
        LogStep(m, c.loc[t], PsoReads(p, c0, sched[..n])[t], PIssue(c.mem, c.buf[t], OpOf(m, c.loc[t])).val);
      }
    }
  }

  // Everyone gets through.

  function Rank(m: Message, l: Local): nat {
    match l
    case Fill(i) => 3 + if i < |m.payload| then |m.payload| - i else 0
    case Guarding => 3
    case Raise => 2
    case Poll => |m.payload| + 1
    case Take(i) => if i < |m.payload| then |m.payload| - i else 1
    case _ => 0
  }

  function Weight(m: Message): (Local, Buf<Addr>) -> nat {
    (l: Local, b: Buf<Addr>) => 2 * Rank(m, l) + |b|
  }

  lemma OpDescends(m: Message, l: Local, mem: Mem<Addr>, b: Buf<Addr>)
    requires Enabled(b, OpOf(m, l))
    ensures var e := Issue(mem, b, OpOf(m, l)); Weight(m)(AfterOp(m, l, e.val), e.buf) < Weight(m)(l, b)
  {}

  lemma PublicationDescends(m: Message)
    ensures Descends(Prog(m), Weight(m))
  {
    forall t: nat, l: Local, mem: Mem<Addr>, b: Buf<Addr> | Enabled(b, Prog(m).op(t, l))
      ensures RunDescends(Prog(m), Weight(m), t, l, mem, b)
    {
      OpDescends(m, l, mem, b);
    }
  }

  lemma OpMoves(m: Message, c: TsoConf<Addr, Local>, t: nat)
    requires TsoWf(c) && t < |c.loc| && Enabled(c.buf[t], OpOf(m, c.loc[t]))
    ensures Moves(Prog(m), c, Run(t))
  {
    OpDescends(m, c.loc[t], c.mem, c.buf[t]);
    var c' := TsoStep(Prog(m), c, Run(t));
    assert c'.loc[t] != c.loc[t] || c'.buf[t] != c.buf[t];
  }

  lemma PublicationIsLive(m: Message, readers: nat)
    ensures Live(Prog(m), TsoInit(Begin(m, readers)))
  {
    var p, c0 := Prog(m), TsoInit(Begin(m, readers));
    forall sched ensures
      var c := TsoExec(p, c0, sched);
      Stopped(p, c) || exists ch :: Moves(p, c, ch)
    {
      var c := TsoExec(p, c0, sched);
      if !Stopped(p, c) {
        var t: nat :| t < |c.loc| && !(p.op(t, c.loc[t]).Halt? && c.buf[t] == []);
        if c.buf[t] != [] {
          assert TsoStep(p, c, Drain(t)).buf[t] != c.buf[t];
          assert Moves(p, c, Drain(t));
        } else {
          OpMoves(m, c, t);
        }
      }
    }
  }

  /** A writer that is through has stored the flag. */
  predicate FlagStored(c: TsoConf<Addr, Local>) {
    TsoWf(c) && |c.loc| > 0 && (c.loc[0] == Sent ==> Read(c.mem, c.buf[0], Flag) == 1)
  }

  lemma StepKeepsFlag(m: Message, c: TsoConf<Addr, Local>, ch: Choice)
    requires TsoInv(m, c) && FlagStored(c)
    ensures FlagStored(TsoStep(Prog(m), c, ch))
  {
    if ch.t < |c.loc| {
      var op := OpOf(m, c.loc[ch.t]);
      assert Prog(m).op(ch.t, c.loc[ch.t]) == op;
      if ch == Drain(0) && c.buf[0] != [] {
        ReadDrain(c.mem, c.buf[0], Flag);
      } else if ch == Run(0) && op.Store? {
        ReadAppend(c.mem, c.buf[0], Write(op.a, op.v), Flag);
      }
    }
  }

  lemma {:induction false} FlagIsStored(m: Message, readers: nat, sched: seq<Choice>)
    ensures FlagStored(TsoExec(Prog(m), TsoInit(Begin(m, readers)), sched))
  {
    if sched != [] {
      var n := |sched| - 1;
      FlagIsStored(m, readers, sched[..n]);
      TsoInvHolds(m, readers, sched[..n]);
      StepKeepsFlag(m, TsoExec(Prog(m), TsoInit(Begin(m, readers)), sched[..n]), sched[n]);
    }
  }

  ghost predicate Delivered(m: Message, c: TsoConf<Addr, Local>) {
    && |c.loc| > 0 && c.loc[0] == Sent && Get(c.mem, Flag) == 1
    && (forall i :: 0 <= i < |m.payload| ==> Get(c.mem, Payload(i)) == m.payload[i])
    && (forall t :: 0 < t < |c.loc| ==> c.loc[t] == Taken || c.loc[t] == Skipped)
  }

  lemma StoppedIsDelivered(m: Message, c: TsoConf<Addr, Local>)
    requires TsoInv(m, c) && FlagStored(c) && Stopped(Prog(m), c)
    ensures Delivered(m, c)
  {
    forall t: nat | t < |c.loc| ensures OpOf(m, c.loc[t]).Halt? && c.buf[t] == [] {
      assert Prog(m).op(t, c.loc[t]) == OpOf(m, c.loc[t]);
    }
  }

  /** After enough fair stretches flag and payload are in memory and every reader is through. */
  lemma NeverWedges(m: Message, readers: nat, blocks: seq<seq<Choice>>)
    requires forall b :: b in blocks ==> Fair(readers + 1, b)
    requires |blocks| > Measure(Weight(m), TsoInit(Begin(m, readers)))
    ensures Delivered(m, TsoExec(Prog(m), TsoInit(Begin(m, readers)), Flatten(blocks)))
  {
    PublicationDescends(m);
    PublicationIsLive(m, readers);
    FairRunsStop(Prog(m), Weight(m), TsoInit(Begin(m, readers)), blocks);
    TsoInvHolds(m, readers, Flatten(blocks));
    FlagIsStored(m, readers, Flatten(blocks));
    StoppedIsDelivered(m, TsoExec(Prog(m), TsoInit(Begin(m, readers)), Flatten(blocks)));
  }
}
