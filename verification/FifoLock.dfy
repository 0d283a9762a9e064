/** The abstract lock both queue locks refine: threads queue up on arrival, only the head may
    enter, only the thread inside may leave. */
module FifoLock {
  datatype Event = Arrive(t: nat) | Enter(t: nat) | Leave(t: nat)

  datatype Fifo = Fifo(queue: seq<nat>, held: bool) | Rejected

  function Act(f: Fifo, e: Event): Fifo {
    if f.Rejected? then Rejected
    else
      match e
      case Arrive(t) => f.(queue := f.queue + [t])
      case Enter(t) => if !f.held && f.queue != [] && f.queue[0] == t then f.(held := true) else Rejected
      case Leave(t) => if f.held && f.queue != [] && f.queue[0] == t then Fifo(f.queue[1..], false) else Rejected
  }

  function Replay(es: seq<Event>): Fifo {
    if es == [] then Fifo([], false) else Act(Replay(es[..|es| - 1]), es[|es| - 1])
  }

  function Arrivals(es: seq<Event>): seq<nat> {
    if es == [] then []
    else
      var e := es[|es| - 1];
      Arrivals(es[..|es| - 1]) + if e.Arrive? then [e.t] else []
  }

  function Entries(es: seq<Event>): seq<nat> {
    if es == [] then []
    else
      var e := es[|es| - 1];
      Entries(es[..|es| - 1]) + if e.Enter? then [e.t] else []
  }

  function Exits(es: seq<Event>): seq<nat> {
    if es == [] then []
    else
      var e := es[|es| - 1];
      Exits(es[..|es| - 1]) + if e.Leave? then [e.t] else []
  }

  /** How often a thread leaves. */
  function Leaves(es: seq<Event>, t: nat): nat {
    if es == [] then 0
    else
      var n := |es| - 1;
      Leaves(es[..n], t) + if es[n] == Leave(t) then 1 else 0
  }

  lemma {:induction false} LeavesAppend(es: seq<Event>, more: seq<Event>, t: nat)
    ensures Leaves(es + more, t) == Leaves(es, t) + Leaves(more, t)
  {
    if more == [] {
      assert es + more == es;
    } else {
      var n := |more| - 1;
      assert (es + more)[..|es| + n] == es + more[..n];
      LeavesAppend(es, more[..n], t);
    }
  }

  lemma LeavesOfOne(e: Event, t: nat)
    ensures Leaves([e], t) == if e == Leave(t) then 1 else 0
  {
    assert [e][..0] == [];
  }

  lemma LeavesOfTwo(e: Event, e': Event, t: nat)
    ensures Leaves([e, e'], t) == Leaves([e], t) + Leaves([e'], t)
  {
    assert [e, e'] == [e] + [e'];
    LeavesAppend([e], [e'], t);
  }

  function Acts(f: Fifo, es: seq<Event>): Fifo {
    if es == [] then f else Act(Acts(f, es[..|es| - 1]), es[|es| - 1])
  }

  lemma {:induction false} ReplayAppend(es: seq<Event>, more: seq<Event>)
    ensures Replay(es + more) == Acts(Replay(es), more)
  {
    if more == [] {
      assert es + more == es;
    } else {
      var n := |more| - 1;
      assert (es + more)[..|es| + n] == es + more[..n];
      ReplayAppend(es, more[..n]);
    }
  }

  lemma OneAct(f: Fifo, e: Event)
    ensures Acts(f, [e]) == Act(f, e)
  {}

  lemma TwoActs(f: Fifo, e: Event, e': Event)
    ensures Acts(f, [e, e']) == Act(Act(f, e), e')
  {
    assert [e, e'][..1] == [e];
    OneAct(f, e);
  }

  lemma QueueAct(arrived: seq<nat>, k: nat, f: Fifo, e: Event)
    requires f.Fifo? && k <= |arrived| && f.queue == arrived[k..] && Act(f, e).Fifo?
    ensures var q := Act(f, e).queue;
      match e
      case Arrive(t) => q == (arrived + [t])[k..]
      case Enter(t) => q == arrived[k..] && k < |arrived| && arrived[k] == t
      case Leave(t) => q == arrived[k + 1..] && k < |arrived|
  {}

  /** An accepted trace enters in arrival order and is left before it is entered again. */
  lemma {:induction false} AcceptedIsFifo(es: seq<Event>)
    requires Replay(es).Fifo?
    ensures Entries(es) <= Arrivals(es) && Exits(es) <= Entries(es)
    ensures |Entries(es)| == |Exits(es)| + if Replay(es).held then 1 else 0
    ensures Replay(es).queue == Arrivals(es)[|Exits(es)|..]
  {
    if es != [] {
      var pre := es[..|es| - 1];
      AcceptedIsFifo(pre);
      QueueAct(Arrivals(pre), |Exits(pre)|, Replay(pre), es[|es| - 1]);
    }
  }
}
