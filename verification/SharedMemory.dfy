/** The TSO memory as an object: one memory and one FIFO buffer per thread, updated in place. */
module SharedMemory {
  import opened StoreBuffer
  import opened Machine

  class Memory<A(==)> {
    var mem: Mem<A>
    var buf: seq<Buf<A>>

    constructor (m: Mem<A>, threads: nat)
      ensures mem == m && buf == seq(threads, _ => [])
    {
      mem := m;
      buf := seq(threads, _ => []);
    }

    method Load(t: nat, a: A) returns (v: int)
      requires t < |buf|
      ensures v == Read(mem, buf[t], a)
    {
      var i := |buf[t]|;
      assert buf[t][..i] == buf[t];
      while i > 0
        invariant 0 <= i <= |buf[t]|
        invariant Read(mem, buf[t], a) == Read(mem, buf[t][..i], a)
      {
        i := i - 1;
        assert buf[t][..i + 1][..i] == buf[t][..i];
        if buf[t][i].addr == a { return buf[t][i].val; }
      }
      v := Get(mem, a);
    }

    method Store(t: nat, a: A, v: int)
      requires t < |buf|
      modifies this
      ensures mem == old(mem) && buf == old(buf)[t := old(buf)[t] + [Write(a, v)]]
    {
      buf := buf[t := buf[t] + [Write(a, v)]];
    }

    method Exchange(t: nat, a: A, v: int) returns (was: int)
      requires t < |buf| && buf[t] == []
      modifies this
      ensures was == Get(old(mem), a) && mem == old(mem)[a := v] && buf == old(buf)
    {
      was := Get(mem, a);
      mem := mem[a := v];
    }

    method CompareAndSwap(t: nat, a: A, expected: int, v: int) returns (was: int)
      requires t < |buf| && buf[t] == []
      modifies this
      ensures was == Get(old(mem), a) && buf == old(buf)
      ensures mem == if was == expected then old(mem)[a := v] else old(mem)
    {
      was := Get(mem, a);
      if was == expected { mem := mem[a := v]; }
    }

    method FetchAdd(t: nat, a: A, k: int) returns (was: int)
      requires t < |buf| && buf[t] == []
      modifies this
      ensures was == Get(old(mem), a) && mem == old(mem)[a := was + k] && buf == old(buf)
    {
      was := Get(mem, a);
      mem := mem[a := was + k];
    }

    /** The oldest buffered store of a thread lands, if there is one. */
    method Drain(t: nat)
      requires t < |buf|
      modifies this
      ensures old(buf)[t] == [] ==> mem == old(mem) && buf == old(buf)
      ensures old(buf)[t] != [] ==>
        var w := old(buf)[t][0];
        mem == old(mem)[w.addr := w.val] && buf == old(buf)[t := old(buf)[t][1..]]
    {
      if buf[t] != [] {
        var w := buf[t][0];
        mem := mem[w.addr := w.val];
        buf := buf[t := buf[t][1..]];
      }
    }
  }

  /** The PSO memory as an object: stores with no barrier between them land independently. */
  class PsoMemory<A(==)> {
    var mem: Mem<A>
    var buf: seq<PBuf<A>>

    constructor (m: Mem<A>, threads: nat)
      ensures mem == m && buf == seq(threads, _ => [])
    {
      mem := m;
      buf := seq(threads, _ => []);
    }

    method Load(t: nat, a: A) returns (v: int)
      requires t < |buf|
      ensures v == PRead(mem, buf[t], a)
    {
      var i := |buf[t]|;
      assert buf[t][..i] == buf[t];
      while i > 0
        invariant 0 <= i <= |buf[t]|
        invariant PRead(mem, buf[t], a) == PRead(mem, buf[t][..i], a)
      {
        i := i - 1;
        assert buf[t][..i + 1][..i] == buf[t][..i];
        if buf[t][i].Put? && buf[t][i].addr == a { return buf[t][i].val; }
      }
      v := Get(mem, a);
    }

    method Store(t: nat, a: A, v: int)
      requires t < |buf|
      modifies this
      ensures mem == old(mem) && buf == old(buf)[t := Enqueue(old(buf)[t], a, v)]
    {
      buf := buf[t := buf[t] + [Put(a, v)]];
    }

    /** Stores issued from now on stay behind those issued so far. */
    method Barrier(t: nat)
      requires t < |buf|
      modifies this
      ensures mem == old(mem) && buf == old(buf)[t := Walled(old(buf)[t])]
    {
      var b := buf[t];
      if b != [] && b[|b| - 1].Put? {
        buf := buf[t := b + [Wall]];
      } else {
        assert buf[t := b] == buf;
      }
    }

    method Exchange(t: nat, a: A, v: int) returns (was: int)
      requires t < |buf| && buf[t] == []
      modifies this
      ensures was == Get(old(mem), a) && mem == old(mem)[a := v] && buf == old(buf)
    {
      was := Get(mem, a);
      mem := mem[a := v];
    }

    method CompareAndSwap(t: nat, a: A, expected: int, v: int) returns (was: int)
      requires t < |buf| && buf[t] == []
      modifies this
      ensures was == Get(old(mem), a) && buf == old(buf)
      ensures mem == if was == expected then old(mem)[a := v] else old(mem)
    {
      was := Get(mem, a);
      if was == expected { mem := mem[a := v]; }
    }

    /** The oldest buffered store of a thread to one address lands, if it may. */
    method Drain(t: nat, a: A)
      requires t < |buf|
      modifies this
      ensures !CanLand(old(buf)[t], a) ==> mem == old(mem) && buf == old(buf)
      ensures CanLand(old(buf)[t], a) ==>
        mem == old(mem)[a := Landing(old(buf)[t], a)] && buf == old(buf)[t := Dequeue(old(buf)[t], a)]
    {
      var b := buf[t];
      var i := FirstReachable(b, a);
      if i < |b| {
        mem := mem[a := b[i].val];
        buf := buf[t := Unwalled(b[..i] + b[i + 1..])];
      }
    }
  }

  /** The search through a buffer, from its oldest entry to the first barrier. */
  method FirstReachable<A(==)>(b: PBuf<A>, a: A) returns (i: nat)
    ensures i == Reach(b, a)
  {
    i := 0;
    while i < |b| && b[i].Put? && b[i].addr != a
      invariant 0 <= i <= |b|
      invariant Reach(b, a) == i + Reach(b[i..], a)
    {
      i := i + 1;
    }
    if i < |b| && b[i].Wall? { i := |b|; }
  }
}
