/** The CLH test of the rewrite script's batch, for any number of threads: it looks at its
    predecessor's node once instead of spinning, counts entries by read-modify-write, and gives up
    its node by a release store, which the rewrite leaves alone. */
module ClhTest {
  import opened StoreBuffer
  import opened Machine
  import opened Fenced
  import opened Verdicts

  datatype Addr = Tail | Locked(id: int) | InCs

  datatype Local = Claim | Xchg | Look(pred: int) | Enter | Leave | GiveUp | Done | Wrong

  function Id(t: nat): int { t + 1 }

  function OpOf(t: nat, l: Local): Op<Addr> {
    match l
    case Claim => Store(Locked(Id(t)), 1, Relaxed)
    case Xchg => Exchange(Tail, Id(t))
    case Look(pred) => Load(Locked(pred))
    case Enter => FetchAdd(InCs, 1)
    case Leave => FetchAdd(InCs, -1)
    case GiveUp => Store(Locked(Id(t)), 0, Release)
    case _ => Halt
  }

  function AfterOp(l: Local, v: int): Local {
    match l
    case Claim => Xchg
    case Xchg => if v != 0 then Look(v) else GiveUp
    case Look(_) => if v == 0 then Enter else GiveUp
    case Enter => if v == 0 then Leave else Wrong
    case Leave => GiveUp
    case GiveUp => Done
    case _ => l
  }

  function Prog(): Program<Addr, Local> {
    Program((t: nat, l: Local) => OpOf(t, l), (t: nat, l: Local, v: int) => AfterOp(l, v))
  }

  function Begin(threads: nat): ScConf<Addr, Local> {
    ScConf(map[], seq(threads, _ => Claim))
  }

  /** The assertion that the counter was zero on entry. */
  function SomeoneWrong(locs: seq<Local>): bool {
    exists t :: 0 <= t < |locs| && locs[t] == Wrong
  }

  /** Only a thread that is done has stored since its last read-modify-write or seq_cst store. */
  lemma {:induction false} DirtyIsDone(threads: nat, sched: seq<nat>, t: nat)
    requires t < threads
    ensures var p := Rewrite(Prog()); var c := ScExec(p, Begin(threads), sched);
      && |c.loc| == threads
      && (Dirty(p, Begin(threads), sched, t) || LastStore(p, Begin(threads), sched, t).At? ==> c.loc[t] == Done)
  {
    if sched != [] {
      var n := |sched| - 1;
      DirtyIsDone(threads, sched[..n], t);
      var p, u := Rewrite(Prog()), sched[n];
      var c := ScExec(p, Begin(threads), sched[..n]);
      assert sched[..n] + [u] == sched;
      ScSnoc(p, Begin(threads), sched[..n], u);
      if u < threads { assert p.op(u, c.loc[u]) == Harden(OpOf(u, c.loc[u])); }
    }
  }

  /** So the rewritten test is fenced, its release store notwithstanding, and shows under TSO and PSO
      exactly the violations of the original under sequential consistency. */
  lemma RewriteIsFaithful(threads: nat)
    ensures FencedForPso(Rewrite(Prog()), Begin(threads))
    ensures ScBug(Prog(), Begin(threads), SomeoneWrong) <==> TsoBug(Rewrite(Prog()), Begin(threads), SomeoneWrong)
    ensures ScBug(Prog(), Begin(threads), SomeoneWrong) <==> PsoBug(Rewrite(Prog()), Begin(threads), SomeoneWrong)
  {
    var p, c0 := Rewrite(Prog()), Begin(threads);
    forall sched: seq<nat>, t: nat | t < |ScExec(p, c0, sched).loc|
      ensures Dirty(p, c0, sched, t) ==> !p.op(t, ScExec(p, c0, sched).loc[t]).Load?
      ensures StoresInOrder(p.op(t, ScExec(p, c0, sched).loc[t]), LastStore(p, c0, sched, t))
    {
      ScLocs(p, c0, sched);
      DirtyIsDone(threads, sched, t);
      assert p.op(t, ScExec(p, c0, sched).loc[t]) == Harden(OpOf(t, ScExec(p, c0, sched).loc[t]));
    }
    RewriteShowsScBugs(Prog(), c0, SomeoneWrong);
    RewriteShowsScBugsOnPso(Prog(), c0, SomeoneWrong);
  }

  lemma {:induction false} ScLocs(p: Program<Addr, Local>, c0: ScConf<Addr, Local>, sched: seq<nat>)
    ensures |ScExec(p, c0, sched).loc| == |c0.loc|
  {
    if sched != [] { ScLocs(p, c0, sched[..|sched| - 1]); }
  }

  // When the test itself is right.

  /** The threads in the order of their exchanges. */
  function Order(threads: nat, sched: seq<nat>): seq<nat> {
    if sched == [] then []
    else
      var n := |sched| - 1;
      var c, t := ScExec(Prog(), Begin(threads), sched[..n]), sched[n];
      Order(threads, sched[..n]) + if t < |c.loc| && OpOf(t, c.loc[t]).Exchange? then [t] else []
  }

  predicate Inside(l: Local) { l.Enter? || l.Leave? }

  /** A thread that is inside found its predecessor done; nobody is both first and inside. */
  ghost predicate PlaceOk(c: ScConf<Addr, Local>, order: seq<nat>, k: nat)
    requires k < |order| && forall j :: 0 <= j < |order| ==> order[j] < |c.loc|
  {
    var l := c.loc[order[k]];
    && !l.Claim? && !l.Xchg?
    && (l.Look? ==> k > 0 && l.pred == Id(order[k - 1]))
    && (Inside(l) ==> k > 0 && c.loc[order[k - 1]] == Done)
  }

  ghost predicate ThreadOk(c: ScConf<Addr, Local>, order: seq<nat>, t: nat)
    requires t < |c.loc|
  {
    var l := c.loc[t];
    && Get(c.mem, Locked(Id(t))) == (if l.Claim? || l.Done? then 0 else 1)
    && (t in order <==> !l.Claim? && !l.Xchg?)
  }

  ghost predicate Inv(threads: nat, c: ScConf<Addr, Local>, order: seq<nat>) {
    && |c.loc| == threads
    && (forall k :: 0 <= k < |order| ==> order[k] < threads)
    && (forall j, k :: 0 <= j < k < |order| ==> order[j] != order[k])
    && (forall k: nat :: k < |order| ==> PlaceOk(c, order, k))
    && (forall t: nat :: t < threads ==> ThreadOk(c, order, t))
    && Get(c.mem, Tail) == (if order == [] then 0 else Id(order[|order| - 1]))
    && !SomeoneWrong(c.loc)
    && Get(c.mem, InCs) == (if exists t :: 0 <= t < threads && c.loc[t].Leave? then 1 else 0)
  }

  lemma {:induction false} DistinctBelow(order: seq<nat>, n: nat)
    requires forall j, k :: 0 <= j < k < |order| ==> order[j] != order[k]
    requires forall k :: 0 <= k < |order| ==> order[k] < n
    ensures |order| <= n
  {
    if order != [] {
      var first := order[0];
      if i :| 0 <= i < |order| && order[i] == n - 1 {
        DistinctBelow(order[..i] + order[i + 1..], n - 1);
      } else {
        assert first < n - 1;
        DistinctBelow(order, n - 1);
      }
    }
  }

  /** Two threads inside take four in the queue: each has a predecessor that is done, the first of all
      is neither of those inside, and the second one inside does not follow the first. */
  lemma NoTwoInside(threads: nat, c: ScConf<Addr, Local>, order: seq<nat>, j: nat, k: nat)
    requires Inv(threads, c, order) && threads <= 3 && j < k < |order|
    ensures !(Inside(c.loc[order[j]]) && Inside(c.loc[order[k]]))
  {
    DistinctBelow(order, threads);
    assert PlaceOk(c, order, j) && PlaceOk(c, order, k);
  }

  lemma OnlyOneInside(threads: nat, c: ScConf<Addr, Local>, order: seq<nat>, t: nat, u: nat)
    requires Inv(threads, c, order) && threads <= 3 && t < threads && u < threads && t != u
    ensures !(Inside(c.loc[t]) && Inside(c.loc[u]))
  {
    if Inside(c.loc[t]) && Inside(c.loc[u]) {
      assert ThreadOk(c, order, t) && ThreadOk(c, order, u);
      var j, k :| 0 <= j < |order| && 0 <= k < |order| && order[j] == t && order[k] == u;
      if j < k { NoTwoInside(threads, c, order, j, k); } else { NoTwoInside(threads, c, order, k, j); }
    }
  }

  function Stepped(c: ScConf<Addr, Local>, t: nat): ScConf<Addr, Local>
    requires t < |c.loc|
  {
    ScConf(MemAfter(c.mem, OpOf(t, c.loc[t])), c.loc[t := AfterOp(c.loc[t], Result(c.mem, OpOf(t, c.loc[t])))])
  }

  /** An exchange puts its thread at the end of the queue. */
  lemma XchgKeeps(threads: nat, c: ScConf<Addr, Local>, order: seq<nat>, t: nat)
    requires Inv(threads, c, order) && t < threads && c.loc[t].Xchg?
    ensures Inv(threads, Stepped(c, t), order + [t])
  {
    var c', order' := Stepped(c, t), order + [t];
    assert ThreadOk(c, order, t);
    forall u: nat | u < threads ensures ThreadOk(c', order', u) { assert ThreadOk(c, order, u); }
    forall k: nat | k < |order'| ensures PlaceOk(c', order', k) {
      if k < |order| { assert PlaceOk(c, order, k); }
    }
    assert forall u :: 0 <= u < threads ==> (c'.loc[u].Leave? <==> c.loc[u].Leave?);
  }

  lemma CounterAfter(threads: nat, c: ScConf<Addr, Local>, order: seq<nat>, t: nat)
    requires Inv(threads, c, order) && threads <= 3 && t < threads && !c.loc[t].Xchg? && !OpOf(t, c.loc[t]).Halt?
    ensures var c' := Stepped(c, t);
      && !c'.loc[t].Wrong?
      && Get(c'.mem, InCs) == (if exists u :: 0 <= u < threads && c'.loc[u].Leave? then 1 else 0)
  {
    var c' := Stepped(c, t);
    forall u: nat | u < threads && u != t ensures c'.loc[u] == c.loc[u] && !(Inside(c.loc[t]) && Inside(c.loc[u])) {
      OnlyOneInside(threads, c, order, t, u);
    }
    if c.loc[t].Enter? {
      assert c'.loc[t].Leave?;
    } else if c.loc[t].Leave? {
      assert forall u :: 0 <= u < threads ==> !c'.loc[u].Leave?;
    } else {
      assert forall u :: 0 <= u < threads ==> (c'.loc[u].Leave? <==> c.loc[u].Leave?);
    }
  }

  lemma OtherKeeps(threads: nat, c: ScConf<Addr, Local>, order: seq<nat>, t: nat)
    requires Inv(threads, c, order) && threads <= 3 && t < threads && !c.loc[t].Xchg? && !OpOf(t, c.loc[t]).Halt?
    ensures Inv(threads, Stepped(c, t), order)
  {
    var c' := Stepped(c, t);
    assert ThreadOk(c, order, t);
    CounterAfter(threads, c, order, t);
    forall u: nat | u < threads ensures ThreadOk(c', order, u) { assert ThreadOk(c, order, u); }
    forall k: nat | k < |order| ensures PlaceOk(c', order, k) {
      assert PlaceOk(c, order, k);
      if k > 0 { assert ThreadOk(c, order, order[k - 1]); }
    }
  }

  lemma StartKept(threads: nat)
    ensures Inv(threads, Begin(threads), [])
  {}

  lemma StepKeeps(threads: nat, c: ScConf<Addr, Local>, order: seq<nat>, t: nat)
    requires Inv(threads, c, order) && threads <= 3
    ensures Inv(threads, ScStep(Prog(), c, t), order + if t < threads && OpOf(t, c.loc[t]).Exchange? then [t] else [])
  {
    assert order + [] == order;
    if t < threads {
      assert Prog().op(t, c.loc[t]) == OpOf(t, c.loc[t]);
      if c.loc[t].Xchg? { XchgKeeps(threads, c, order, t); }
      else if !OpOf(t, c.loc[t]).Halt? { OtherKeeps(threads, c, order, t); }
    }
  }

  lemma {:induction false} InvHolds(threads: nat, sched: seq<nat>)
    requires threads <= 3
    ensures Inv(threads, ScExec(Prog(), Begin(threads), sched), Order(threads, sched))
  {
    if sched == [] {
      StartKept(threads);
    } else {
      var n := |sched| - 1;
      InvHolds(threads, sched[..n]);
      StepKeeps(threads, ScExec(Prog(), Begin(threads), sched[..n]), Order(threads, sched[..n]), sched[n]);
    }
  }

  // With four threads the second and the fourth meet.

  ghost predicate Leads(threads: nat, four: seq<Local>, m: Mem<Addr>) {
    exists sched :: At(ScExec(Prog(), Begin(threads), sched), four, m)
  }

  predicate At(c: ScConf<Addr, Local>, four: seq<Local>, m: Mem<Addr>) {
    |four| == 4 <= |c.loc| && c.loc[..4] == four && c.mem == m
  }

  lemma Acts(threads: nat, four: seq<Local>, m: Mem<Addr>, t: nat)
    requires Leads(threads, four, m) && |four| == 4 && t < 4 && !OpOf(t, four[t]).Halt?
    ensures Leads(threads, four[t := AfterOp(four[t], Result(m, OpOf(t, four[t])))], MemAfter(m, OpOf(t, four[t])))
  {
    var sched :| At(ScExec(Prog(), Begin(threads), sched), four, m);
    var c := ScExec(Prog(), Begin(threads), sched);
    ScSnoc(Prog(), Begin(threads), sched, t);
    assert c.loc[t] == four[t] && Prog().op(t, c.loc[t]) == OpOf(t, four[t]);
    var c' := ScExec(Prog(), Begin(threads), sched + [t]);
    assert At(c', four[t := AfterOp(four[t], Result(m, OpOf(t, four[t])))], MemAfter(m, OpOf(t, four[t])));
  }

  lemma Overwrites(four: seq<Local>, t: nat, l: Local, l': Local)
    requires t < |four|
    ensures four[t := l][t := l'] == four[t := l']
  {}

  /** A thread claims its node and exchanges. */
  lemma Queues(threads: nat, four: seq<Local>, m: Mem<Addr>, t: nat)
    requires Leads(threads, four, m) && |four| == 4 && t < 4 && four[t] == Claim
    ensures var next := if Get(m, Tail) != 0 then Look(Get(m, Tail)) else GiveUp;
      Leads(threads, four[t := next], m[Locked(Id(t)) := 1][Tail := Id(t)])
  {
    Acts(threads, four, m, t);
    var f := four[t := Xchg];
    Acts(threads, f, m[Locked(Id(t)) := 1], t);
    Overwrites(four, t, Xchg, if Get(m, Tail) != 0 then Look(Get(m, Tail)) else GiveUp);
  }

  /** It finds its predecessor's node unlocked and counts itself in. */
  lemma Enters(threads: nat, four: seq<Local>, m: Mem<Addr>, t: nat, pred: int)
    requires Leads(threads, four, m) && |four| == 4 && t < 4 && four[t] == Look(pred) && Get(m, Locked(pred)) == 0
    ensures Leads(threads, four[t := if Get(m, InCs) == 0 then Leave else Wrong], m[InCs := Get(m, InCs) + 1])
  {
    Acts(threads, four, m, t);
    var f := four[t := Enter];
    Acts(threads, f, m, t);
    Overwrites(four, t, Enter, if Get(m, InCs) == 0 then Leave else Wrong);
  }

  /** Or it finds it locked and gives up. */
  lemma PassesBy(threads: nat, four: seq<Local>, m: Mem<Addr>, t: nat, pred: int)
    requires Leads(threads, four, m) && |four| == 4 && t < 4 && four[t] == Look(pred) && Get(m, Locked(pred)) != 0
    ensures Leads(threads, four[t := Done], m[Locked(Id(t)) := 0])
  {
    Acts(threads, four, m, t);
    var f := four[t := GiveUp];
    Acts(threads, f, m, t);
    Overwrites(four, t, GiveUp, Done);
  }

  lemma FirstPasses(threads: nat) returns (m: Mem<Addr>)
    requires threads >= 4
    ensures Leads(threads, [Done, Claim, Claim, Claim], m)
    ensures Get(m, Tail) == 1 && Get(m, Locked(1)) == 0 && Get(m, InCs) == 0
  {
    var f := [Claim, Claim, Claim, Claim];
    assert Leads(threads, f, map[]) by { assert At(ScExec(Prog(), Begin(threads), []), f, map[]); }
    Queues(threads, f, map[], 0);
    m := map[][Locked(1) := 1][Tail := 1];
    assert f[0 := GiveUp] == [GiveUp, Claim, Claim, Claim];
    Acts(threads, [GiveUp, Claim, Claim, Claim], m, 0);
    m := m[Locked(1) := 0];
    assert [GiveUp, Claim, Claim, Claim][0 := Done] == [Done, Claim, Claim, Claim];
  }

  lemma SecondEnters(threads: nat, m: Mem<Addr>) returns (m': Mem<Addr>)
    requires Leads(threads, [Done, Claim, Claim, Claim], m)
    requires Get(m, Tail) == 1 && Get(m, Locked(1)) == 0 && Get(m, InCs) == 0
    ensures Leads(threads, [Done, Leave, Claim, Claim], m')
    ensures Get(m', Tail) == 2 && Get(m', Locked(2)) == 1 && Get(m', InCs) == 1
  {
    Queues(threads, [Done, Claim, Claim, Claim], m, 1);
    m' := m[Locked(2) := 1][Tail := 2];
    assert [Done, Claim, Claim, Claim][1 := Look(1)] == [Done, Look(1), Claim, Claim];
    Enters(threads, [Done, Look(1), Claim, Claim], m', 1, 1);
    m' := m'[InCs := 1];
    assert [Done, Look(1), Claim, Claim][1 := Leave] == [Done, Leave, Claim, Claim];
  }

  lemma FourMeet(threads: nat) returns (sched: seq<nat>)
    requires threads >= 4
    ensures SomeoneWrong(ScExec(Prog(), Begin(threads), sched).loc)
  {
    var m := FirstPasses(threads);
    m := SecondEnters(threads, m);
    Queues(threads, [Done, Leave, Claim, Claim], m, 2);
    m := m[Locked(3) := 1][Tail := 3];
    assert [Done, Leave, Claim, Claim][2 := Look(2)] == [Done, Leave, Look(2), Claim];
    PassesBy(threads, [Done, Leave, Look(2), Claim], m, 2, 2);
    m := m[Locked(3) := 0];
    assert [Done, Leave, Look(2), Claim][2 := Done] == [Done, Leave, Done, Claim];
    Queues(threads, [Done, Leave, Done, Claim], m, 3);
    m := m[Locked(4) := 1][Tail := 4];
    assert [Done, Leave, Done, Claim][3 := Look(3)] == [Done, Leave, Done, Look(3)];
    Enters(threads, [Done, Leave, Done, Look(3)], m, 3, 3);
    assert [Done, Leave, Done, Look(3)][3 := Wrong] == [Done, Leave, Done, Wrong];
    m := m[InCs := 2];
    var four := [Done, Leave, Done, Wrong];
    sched :| At(ScExec(Prog(), Begin(threads), sched), four, m);
    assert ScExec(Prog(), Begin(threads), sched).loc[..4][3] == Wrong;
  }

  /** The test is right under sequential consistency for up to three threads, of which the source
      starts two, and wrong from four on: its threads do not wait for their predecessors. */
  lemma WrongIff(threads: nat)
    ensures ScBug(Prog(), Begin(threads), SomeoneWrong) <==> threads >= 4
  {
    if threads >= 4 {
      var sched := FourMeet(threads);
    } else {
      forall sched ensures !SomeoneWrong(ScExec(Prog(), Begin(threads), sched).loc) {
        InvHolds(threads, sched);
      }
    }
  }
}
