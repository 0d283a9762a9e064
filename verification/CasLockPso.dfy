/** Under PSO the compare-and-swap lock is safe exactly when it is not unlocked by a plain store. */
module CasLockPso {
  import opened StoreBuffer
  import opened Machine
  import opened TwoThreads
  import opened CasLock

  /** Two threads, one round each. */
  const Both: PsoConf<Addr, Local> := PsoInit(Begin([1, 1]))

  ghost predicate Reaches(k: Lock, s: Spot<Addr, Local>) {
    Leads(Prog(k), Both, s)
  }

  lemma FirstCountsUp(k: Lock, m: Mem<Addr>, o: Local)
    requires k.section.Counter? && Get(m, Shared) == 0
    requires Reaches(k, Spot(Local(IncLoad, 0), o, [], [], m))
    ensures Reaches(k, Spot(Local(Check, 0), o, [Put(Shared, 1)], [], m))
  {
    var p, b := Prog(k), [Put(Shared, 1)];
    assert Reaches(k, Spot(Local(IncStore(0), 0), o, [], [], m)) by {
      Loads(p, Both, Spot(Local(IncLoad, 0), o, [], [], m), 0, Shared);
    }
    Stores(p, Both, Spot(Local(IncStore(0), 0), o, [], [], m), 0);
    assert [] + b == b;
  }

  /** The first thread goes through its critical section with both its stores still buffered. */
  lemma FirstCounts(k: Lock, m: Mem<Addr>, o: Local)
    requires k.section.Counter? && k.unlock == PlainStore && Get(m, Shared) == 0
    requires Reaches(k, Spot(Local(IncLoad, 0), o, [], [], m))
    ensures Reaches(k, Spot(Local(Free, 0), o, [Put(Shared, 1), Put(Shared, 0)], [], m))
  {
    FirstCountsUp(k, m, o);
    OwnStoreSeen(m, 1);
    FirstCountsDown(k, m, o, [Put(Shared, 1)]);
    assert [Put(Shared, 1)] + [Put(Shared, 0)] == [Put(Shared, 1), Put(Shared, 0)];
  }

  lemma FirstCountsDown(k: Lock, m: Mem<Addr>, o: Local, b: PBuf<Addr>)
    requires k.section.Counter? && k.unlock == PlainStore && PRead(m, b, Shared) == 1
    requires Reaches(k, Spot(Local(Check, 0), o, b, [], m))
    ensures Reaches(k, Spot(Local(Free, 0), o, b + [Put(Shared, 0)], [], m))
  {
    var p := Prog(k);
    assert Reaches(k, Spot(Local(DecLoad, 0), o, b, [], m)) by {
      Loads(p, Both, Spot(Local(Check, 0), o, b, [], m), 0, Shared);
    }
    assert Reaches(k, Spot(Local(DecStore(1), 0), o, b, [], m)) by {
      Loads(p, Both, Spot(Local(DecLoad, 0), o, b, [], m), 0, Shared);
    }
    Stores(p, Both, Spot(Local(DecStore(1), 0), o, b, [], m), 0);
  }

  lemma OwnStoreSeen(m: Mem<Addr>, v: int)
    ensures PRead(m, [Put(Shared, v)], Shared) == v
  {
    assert [Put(Shared, v)][..0] == [];
  }

  lemma FirstWrites(k: Lock, m: Mem<Addr>, o: Local)
    requires k.section.Data? && k.unlock == PlainStore && Get(m, Shared) == 0
    requires Reaches(k, Spot(Local(TestZero, 0), o, [], [], m))
    ensures Reaches(k, Spot(Local(Free, 0), o, [Put(Shared, 1), Put(Shared, 0)], [], m))
  {
    var p, b := Prog(k), [Put(Shared, 1)];
    assert Reaches(k, Spot(Local(SetOne, 0), o, [], [], m)) by {
      Loads(p, Both, Spot(Local(TestZero, 0), o, [], [], m), 0, Shared);
    }
    assert Reaches(k, Spot(Local(SetZero, 0), o, b, [], m)) by {
      Stores(p, Both, Spot(Local(SetOne, 0), o, [], [], m), 0);
      assert [] + b == b;
    }
    Stores(p, Both, Spot(Local(SetZero, 0), o, b, [], m), 0);
    assert b + [Put(Shared, 0)] == [Put(Shared, 1), Put(Shared, 0)];
  }

  /** Its unlocking store overtakes the two before it, the first of which then lands. */
  lemma UnlockOvertakes(k: Lock, m: Mem<Addr>, o: Local)
    requires k.unlock == PlainStore
    requires Reaches(k, Spot(Local(Free, 0), o, [Put(Shared, 1), Put(Shared, 0)], [], m))
    ensures Reaches(k, Spot(Local(Acquire, 0), o, [Put(Shared, 0)], [], m[Word := 0][Shared := 1]))
  {
    var p, s := Prog(k), [Put(Shared, 1), Put(Shared, 0)];
    var b := s + [Put(Word, 0)];
    assert Reaches(k, Spot(Local(Acquire, 0), o, b, [], m)) by {
      Stores(p, Both, Spot(Local(Free, 0), o, s, [], m), 0);
    }
    assert Reaches(k, Spot(Local(Acquire, 0), o, s, [], m[Word := 0])) by {
      WordReachable(b);
      Lands(p, Both, Spot(Local(Acquire, 0), o, b, [], m), 0, Word);
    }
    assert Reach(s, Shared) == 0 && s[..0] + s[1..] == [Put(Shared, 0)];
    Lands(p, Both, Spot(Local(Acquire, 0), o, s, [], m[Word := 0]), 0, Shared);
  }

  lemma WordReachable(b: PBuf<Addr>)
    requires b == [Put(Shared, 1), Put(Shared, 0), Put(Word, 0)]
    ensures CanLand(b, Word) && Landing(b, Word) == 0 && Dequeue(b, Word) == [Put(Shared, 1), Put(Shared, 0)]
  {
    assert b[1..][1..] == [Put(Word, 0)];
    assert Reach(b[1..][1..], Word) == 0;
    assert Reach(b, Word) == 2;
    assert b[..2] + b[3..] == [Put(Shared, 1), Put(Shared, 0)];
  }

  /** The second thread then enters and fails its assertion. */
  lemma SecondFails(k: Lock, m: Mem<Addr>, o: Local, b0: PBuf<Addr>)
    requires k.unlock == PlainStore && Get(m, Shared) == 1
    requires Reaches(k, Spot(o, Local(if k.section.Counter? then IncLoad else TestZero, 0), b0, [], m))
    ensures exists s :: Reaches(k, s) && s.l1.pc.Failed?
  {
    var p, b := Prog(k), [Put(Shared, 2)];
    if k.section.Counter? {
      assert Reaches(k, Spot(o, Local(IncStore(1), 0), b0, [], m)) by {
        Loads(p, Both, Spot(o, Local(IncLoad, 0), b0, [], m), 1, Shared);
      }
      assert Reaches(k, Spot(o, Local(Check, 0), b0, b, m)) by {
        Stores(p, Both, Spot(o, Local(IncStore(1), 0), b0, [], m), 1);
        assert [] + b == b;
      }
      OwnStoreSeen(m, 2);
      Loads(p, Both, Spot(o, Local(Check, 0), b0, b, m), 1, Shared);
      assert Reaches(k, Spot(o, Local(Failed, 0), b0, b, m));
    } else {
      Loads(p, Both, Spot(o, Local(TestZero, 0), b0, [], m), 1, Shared);
      assert Reaches(k, Spot(o, Local(Failed, 0), b0, [], m));
    }
  }

  lemma PlainStoreFails(k: Lock) returns (sched: seq<PChoice<Addr>>)
    requires k.unlock == PlainStore
    ensures !Safe(PsoExec(Prog(k), Both, sched).loc)
  {
    var p, idle, inside := Prog(k), Local(Acquire, 1), Local(if k.section.Counter? then IncLoad else TestZero, 0);
    var m: Mem<Addr> := map[Word := 0, Shared := 0];
    var m1, b0 := m[Word := Taken(k)], [Put(Shared, 0)];
    var m2 := m1[Word := 0][Shared := 1];
    assert Reaches(k, Spot(inside, idle, [], [], m1)) by {
      assert Both == Conf(Spot(idle, idle, [], [], m));
      Starts(p, Spot(idle, idle, [], [], m));
      Acts(p, Both, Spot(idle, idle, [], [], m), 0);
    }
    if k.section.Counter? { FirstCounts(k, m1, idle); } else { FirstWrites(k, m1, idle); }
    UnlockOvertakes(k, m1, idle);
    assert Reaches(k, Spot(Local(Acquire, 0), inside, b0, [], m2[Word := Taken(k)])) by {
      Acts(p, Both, Spot(Local(Acquire, 0), idle, b0, [], m2), 1);
    }
    SecondFails(k, m2[Word := Taken(k)], Local(Acquire, 0), b0);
    var s :| Reaches(k, s) && s.l1.pc.Failed?;
    sched :| PsoExec(p, Both, sched) == Conf(s);
    assert Conf(s).loc[1].pc.Failed?;
  }

  lemma PsoSafeIff(k: Lock)
    ensures k.unlock != PlainStore <==>
      forall rounds, sched :: Safe(PsoExec(Prog(k), PsoInit(Begin(rounds)), sched).loc)
  {
    if k.unlock == PlainStore {
      var sched := PlainStoreFails(k);
      var rounds: seq<nat> := [1, 1];
      assert !Safe(PsoExec(Prog(k), PsoInit(Begin(rounds)), sched).loc);
    } else {
      forall rounds, sched ensures Safe(PsoExec(Prog(k), PsoInit(Begin(rounds)), sched).loc) {
        PsoSafe(k, rounds, sched);
      }
    }
  }
}
