/** Publication from a circular arena on a TSO machine: thread 0 fills slots and publishes them for
    ever, every other thread is a reader. Pointers are slot numbers plus one, NULL is 0. */
module Arena {
  import opened StoreBuffer
  import opened Machine
  import opened SharedMemory

  const ARENA_SIZE := 1000000

  datatype Addr = X(slot: int) | Y(slot: int) | Current

  datatype Local =
    | FillX(seed: nat, idx: nat) | FillY(seed: nat, idx: nat) | Publish(seed: nat, idx: nat)
    | GetPointer
    | GetX(p: int)
    | GetY(p: int, x: int)
    | Got(x: int, y: int)

  function OpOf(l: Local): Op<Addr> {
    match l
    case FillX(seed, idx) => Store(X(idx), seed, Plain)
    case FillY(seed, idx) => Store(Y(idx), seed + 1, Plain)
    case Publish(_, idx) => Store(Current, idx + 1, Plain)
    case GetPointer => Load(Current)
    case GetX(p) => Load(X(p - 1))
    case GetY(p, _) => Load(Y(p - 1))
    case Got(_, _) => Load(Current)
  }

  function AfterOp(l: Local, v: int): Local {
    match l
    case FillX(seed, idx) => FillY(seed, idx)
    case FillY(seed, idx) => Publish(seed, idx)
    case Publish(seed, idx) => FillX(seed + 1, (idx + 1) % ARENA_SIZE)
    case GetPointer => if v == 0 then GetPointer else GetX(v)
    case GetX(p) => GetY(p, v)
    case GetY(_, x) => Got(x, v)
    case Got(_, _) => if v == 0 then GetPointer else GetX(v)
  }

  function Prog(): Program<Addr, Local> {
    Program((t: nat, l: Local) => OpOf(l), (t: nat, l: Local, v: int) => AfterOp(l, v))
  }

  function Begin(readers: nat): ScConf<Addr, Local> {
    ScConf(map[], [FillX(1, 0)] + seq(readers, _ => GetPointer))
  }

  /** Where the writer is: in which round, and at which of that round's three stores. */
  datatype Place = Place(round: nat, phase: nat)

  function PlaceOf(l: Local): Place {
    match l
    case FillX(seed, _) => Place(if seed == 0 then 0 else seed - 1, 0)
    case FillY(seed, _) => Place(if seed == 0 then 0 else seed - 1, 1)
    case Publish(seed, _) => Place(if seed == 0 then 0 else seed - 1, 2)
    case _ => Place(0, 0)
  }

  /** A configuration and its history: how many first-field, second-field and pointer stores have
      landed; for each reader, how many pointer stores had landed when it last loaded the pointer,
      and how many further fillings had begun to land when it last loaded a second field; the
      places in the writer's loop its buffered stores come from. */
  datatype State = State(
    c: TsoConf<Addr, Local>,
    xs: nat, ys: nat, pubs: nat,
    mark: seq<nat>, late: seq<int>,
    pending: seq<Place>)

  predicate Wf(s: State) {
    TsoWf(s.c) && |s.mark| == |s.late| == |s.c.loc|
  }

  function Next(s: State, ch: Choice): (s': State)
    requires Wf(s)
    ensures Wf(s') && |s'.c.loc| == |s.c.loc|
  {
    var t := ch.t;
    if t >= |s.c.loc| then s
    else
      var b, l := s.c.buf[t], s.c.loc[t];
      if ch.Drain? then
        if b == [] then s
        else
          var rest := if t == 0 && s.pending != [] then s.pending[1..] else s.pending;
          var s' := s.(c := TsoDrain(s.c, t), pending := rest);
          match b[0].addr
          case X(_) => s'.(xs := s.xs + 1)
          case Y(_) => s'.(ys := s.ys + 1)
          case Current => s'.(pubs := s.pubs + 1)
      else if !Enabled(b, OpOf(l)) then s
      else
        var e := Issue(s.c.mem, b, OpOf(l));
        var s' := s.(c := TsoConf(e.mem, s.c.buf[t := e.buf], s.c.loc[t := AfterOp(l, e.val)]));
        match l
        case GetPointer => s'.(mark := s.mark[t := s.pubs])
        case Got(_, _) => s'.(mark := s.mark[t := s.pubs])
        case GetX(_) => s'
        case GetY(_, _) => s'.(late := s.late[t := s.xs - s.mark[t]])
        case _ => if t == 0 then s'.(pending := s.pending + [PlaceOf(l)]) else s'
  }

  function Exec(s: State, sched: seq<Choice>): (s': State)
    requires Wf(s)
    ensures Wf(s') && |s'.c.loc| == |s.c.loc|
  {
    if sched == [] then s else Next(Exec(s, sched[..|sched| - 1]), sched[|sched| - 1])
  }

  function Start(readers: nat): State {
    State(TsoInit(Begin(readers)), 0, 0, 0, seq(readers + 1, _ => 0), seq(readers + 1, _ => 0), [])
  }

  lemma {:induction false} ExecIsTso(s: State, sched: seq<Choice>)
    requires Wf(s)
    ensures Exec(s, sched).c == TsoExec(Prog(), s.c, sched)
  {
    if sched != [] {
      var n := |sched| - 1;
      ExecIsTso(s, sched[..n]);
      var c, t := Exec(s, sched[..n]).c, sched[n].t;
      if t < |c.loc| { assert Prog().op(t, c.loc[t]) == OpOf(c.loc[t]); }
    }
  }

  /** The slot a round fills, counted up as the writer does. */
  function SlotOf(r: nat): nat {
    if r == 0 then 0 else (SlotOf(r - 1) + 1) % ARENA_SIZE
  }

  lemma NextRemainder(a: nat)
    ensures (a % ARENA_SIZE + 1) % ARENA_SIZE == (a + 1) % ARENA_SIZE
  {
    var q, r := a / ARENA_SIZE, a % ARENA_SIZE;
    assert a == q * ARENA_SIZE + r;
    if r + 1 == ARENA_SIZE {
      assert a + 1 == (q + 1) * ARENA_SIZE;
    } else {
      assert a + 1 == q * ARENA_SIZE + (r + 1);
    }
  }

  lemma {:induction false} SlotIsRemainder(r: nat)
    ensures SlotOf(r) == r % ARENA_SIZE
  {
    if r > 0 {
      SlotIsRemainder(r - 1);
      NextRemainder(r - 1);
    }
  }

  lemma DifferentSlots(a: nat, b: nat)
    requires a < b < a + ARENA_SIZE
    ensures SlotOf(a) != SlotOf(b)
  {
    SlotIsRemainder(a);
    SlotIsRemainder(b);
    DifferentRemainders(a, b);
  }

  lemma DifferentRemainders(a: nat, b: nat)
    requires a < b < a + ARENA_SIZE
    ensures a % ARENA_SIZE != b % ARENA_SIZE
  {}

  /** The store that belongs to a place in the writer's loop. */
  function StoreAt(p: Place): Write<Addr> {
    if p.phase == 0 then Write(X(SlotOf(p.round)), p.round + 1)
    else if p.phase == 1 then Write(Y(SlotOf(p.round)), p.round + 2)
    else Write(Current, SlotOf(p.round) + 1)
  }

  function After(p: Place): Place {
    if p.phase < 2 then Place(p.round, p.phase + 1) else Place(p.round + 1, 0)
  }

  /** The place of the next store to land. */
  function NextToLand(s: State): Place {
    Place(s.pubs, if s.xs == s.pubs then 0 else if s.ys == s.pubs then 1 else 2)
  }

  /** The slot of a round that no later filling has reached yet still holds that round's values. */
  ghost predicate SlotOk(s: State, r: nat) {
    && (r < s.xs <= r + ARENA_SIZE ==> Get(s.c.mem, X(SlotOf(r))) == r + 1)
    && (r < s.ys <= r + ARENA_SIZE ==> Get(s.c.mem, Y(SlotOf(r))) == r + 2)
  }

  /** The buffered stores are the next ones of the writer's loop, in its order. */
  ghost predicate Ordered(b: Buf<Addr>, p: seq<Place>, first: Place, last: Place) {
    && |p| == |b|
    && (forall i :: 0 <= i < |b| ==> b[i] == StoreAt(p[i]))
    && (forall i :: 0 <= i < |p| - 1 ==> After(p[i]) == p[i + 1])
    && first == (if p == [] then last else p[0])
    && (p != [] ==> After(p[|p| - 1]) == last)
  }

  ghost predicate CountsOk(s: State) {
    && s.pubs <= s.ys <= s.xs <= s.pubs + 1
    && Get(s.c.mem, Current) == (if s.pubs == 0 then 0 else SlotOf(s.pubs - 1) + 1)
  }

  predicate Writing(l: Local) {
    && (l.FillX? || l.FillY? || l.Publish?)
    && l.seed >= 1 && l.idx == SlotOf(l.seed - 1)
  }

  ghost predicate WriterOk(s: State)
    requires Wf(s) && |s.c.loc| > 0
  {
    && Writing(s.c.loc[0])
    && Ordered(s.c.buf[0], s.pending, NextToLand(s), PlaceOf(s.c.loc[0]))
    && CountsOk(s)
  }

  lemma OrderedDrain(b: Buf<Addr>, p: seq<Place>, first: Place, last: Place)
    requires Ordered(b, p, first, last) && b != []
    ensures b[0] == StoreAt(first) && Ordered(b[1..], p[1..], After(first), last)
  {}

  lemma OrderedAppend(b: Buf<Addr>, p: seq<Place>, first: Place, last: Place)
    requires Ordered(b, p, first, last)
    ensures Ordered(b + [StoreAt(last)], p + [last], first, After(last))
  {}

  /** A reader that has the pointer of round `mark - 1`, as long as few enough fillings began. */
  ghost predicate ReaderOk(s: State, t: nat)
    requires Wf(s) && 0 < t < |s.c.loc|
  {
    var m := s.mark[t];
    && s.c.buf[t] == [] && m <= s.pubs
    && match s.c.loc[t]
       case GetPointer => true
       case GetX(p) => m > 0 && p == SlotOf(m - 1) + 1
       case GetY(p, x) => m > 0 && p == SlotOf(m - 1) + 1 && (s.xs - m < ARENA_SIZE ==> x == m)
       case Got(x, y) => s.late[t] < ARENA_SIZE ==> x + 1 == y
       case _ => false
  }

  ghost predicate Inv(s: State) {
    && Wf(s) && |s.c.loc| > 0
    && WriterOk(s)
    && (forall t :: 0 < t < |s.c.loc| ==> ReaderOk(s, t))
    && (forall r: nat :: SlotOk(s, r))
  }

  lemma ReaderFrame(s: State, s': State, t: nat)
    requires Wf(s) && Wf(s') && 0 < t < |s.c.loc| == |s'.c.loc| && ReaderOk(s, t)
    requires s.c.loc[t] == s'.c.loc[t] && s.c.buf[t] == s'.c.buf[t]
    requires s.mark[t] == s'.mark[t] && s.late[t] == s'.late[t] && s.xs <= s'.xs && s.pubs <= s'.pubs
    ensures ReaderOk(s', t)
  {}

  lemma ReadersFrame(s: State, s': State, t: nat)
    requires Inv(s) && Wf(s') && |s.c.loc| == |s'.c.loc| && s.xs <= s'.xs && s.pubs <= s'.pubs
    requires forall u :: 0 <= u < |s.c.loc| && u != t ==>
      s.c.loc[u] == s'.c.loc[u] && s.c.buf[u] == s'.c.buf[u] && s.mark[u] == s'.mark[u] && s.late[u] == s'.late[u]
    ensures forall u :: 0 < u < |s.c.loc| && u != t ==> ReaderOk(s', u)
  {
    forall u | 0 < u < |s.c.loc| && u != t ensures ReaderOk(s', u) {
      assert ReaderOk(s, u);
      ReaderFrame(s, s', u);
    }
  }

  lemma SlotsFrame(s: State, s': State)
    requires forall r: nat :: SlotOk(s, r)
    requires s.c.mem == s'.c.mem && s.xs == s'.xs && s.ys == s'.ys
    ensures forall r: nat :: SlotOk(s', r)
  {
    forall r: nat ensures SlotOk(s', r) { assert SlotOk(s, r); }
  }

  /** A landing store moves on the counter of its kind. */
  lemma Lands(s: State, s': State)
    requires Wf(s) && |s.c.loc| > 0 && CountsOk(s) && s.c.buf[0] != [] && s' == Next(s, Drain(0))
    requires s.c.buf[0][0] == StoreAt(NextToLand(s))
    ensures CountsOk(s') && NextToLand(s') == After(NextToLand(s))
  {}

  lemma SlotsDrain(s: State, s': State)
    requires Wf(s) && |s.c.loc| > 0 && CountsOk(s) && s.c.buf[0] != [] && s' == Next(s, Drain(0))
    requires s.c.buf[0][0] == StoreAt(NextToLand(s))
    requires forall r: nat :: SlotOk(s, r)
    ensures forall r: nat :: SlotOk(s', r)
  {
    var q := s.pubs;
    forall r: nat ensures SlotOk(s', r) {
      assert SlotOk(s, r);
      if r < q < r + ARENA_SIZE { DifferentSlots(r, q); }
    }
  }

  lemma WriterDrains(s: State)
    requires Inv(s) && s.c.buf[0] != []
    ensures Inv(Next(s, Drain(0)))
  {
    var s' := Next(s, Drain(0));
    OrderedDrain(s.c.buf[0], s.pending, NextToLand(s), PlaceOf(s.c.loc[0]));
    Lands(s, s');
    SlotsDrain(s, s');
    ReadersFrame(s, s', 0);
  }

  lemma WriterMoves(l: Local)
    requires Writing(l)
    ensures OpOf(l) == Store(StoreAt(PlaceOf(l)).addr, StoreAt(PlaceOf(l)).val, Plain)
    ensures Writing(AfterOp(l, 0)) && PlaceOf(AfterOp(l, 0)) == After(PlaceOf(l))
  {}

  lemma WriterRuns(s: State)
    requires Inv(s)
    ensures Inv(Next(s, Run(0)))
  {
    var s' := Next(s, Run(0));
    WriterMoves(s.c.loc[0]);
    OrderedAppend(s.c.buf[0], s.pending, NextToLand(s), PlaceOf(s.c.loc[0]));
    SlotsFrame(s, s');
    ReadersFrame(s, s', 0);
  }

  lemma ReaderRunSelf(s: State, s': State, t: nat)
    requires Wf(s) && 0 < t < |s.c.loc| && ReaderOk(s, t) && s' == Next(s, Run(t))
    requires CountsOk(s) && (s.mark[t] > 0 ==> SlotOk(s, s.mark[t] - 1))
    ensures ReaderOk(s', t)
  {}

  lemma ReaderRuns(s: State, t: nat)
    requires Inv(s) && 0 < t < |s.c.loc|
    ensures Inv(Next(s, Run(t)))
  {
    var s' := Next(s, Run(t));
    assert ReaderOk(s, t);
    assert s.mark[t] > 0 ==> SlotOk(s, s.mark[t] - 1);
    ReaderStoresNothing(s, t);
    ReaderRunSelf(s, s', t);
    SlotsFrame(s, s');
    ReadersFrame(s, s', t);
  }

  lemma ReaderStoresNothing(s: State, t: nat)
    requires Wf(s) && 0 < t < |s.c.loc| && ReaderOk(s, t)
    ensures var s' := Next(s, Run(t));
      && s'.c.mem == s.c.mem && s'.c.buf == s.c.buf && s'.c.loc[0] == s.c.loc[0]
      && s'.xs == s.xs && s'.ys == s.ys && s'.pubs == s.pubs && s'.pending == s.pending
  {}

  lemma {:induction false} Reachable(readers: nat, sched: seq<Choice>)
    ensures Inv(Exec(Start(readers), sched))
  {
    if sched == [] {
      assert Inv(Start(readers));
    } else {
      var n := |sched| - 1;
      Reachable(readers, sched[..n]);
      var s, ch := Exec(Start(readers), sched[..n]), sched[n];
      if ch.t < |s.c.loc| {
        if ch.t > 0 { assert ReaderOk(s, ch.t); }
        if ch.Run? {
          if ch.t == 0 { WriterRuns(s); } else { ReaderRuns(s, ch.t); }
        } else if s.c.buf[ch.t] != [] {
          WriterDrains(s);
        }
      }
    }
  }

  // The history, counted on the runs themselves.

  function Before(readers: nat, sched: seq<Choice>): TsoConf<Addr, Local>
    requires sched != []
  {
    TsoExec(Prog(), TsoInit(Begin(readers)), sched[..|sched| - 1])
  }

  /** Whether the last choice of a run lets a store of thread 0 to such an address land. */
  predicate Landed(readers: nat, sched: seq<Choice>, kind: Addr -> bool)
    requires sched != []
  {
    var c, ch := Before(readers, sched), sched[|sched| - 1];
    ch.Drain? && ch.t < |c.buf| && c.buf[ch.t] != [] && kind(c.buf[ch.t][0].addr)
  }

  /** How many slot fillings have begun to reach memory, and how many publications have reached it. */
  function Fillings(readers: nat, sched: seq<Choice>): nat {
    if sched == [] then 0
    else Fillings(readers, sched[..|sched| - 1]) + if Landed(readers, sched, (a: Addr) => a.X?) then 1 else 0
  }

  function Publications(readers: nat, sched: seq<Choice>): nat {
    if sched == [] then 0
    else Publications(readers, sched[..|sched| - 1]) + if Landed(readers, sched, (a: Addr) => a.Current?) then 1 else 0
  }

  /** Whether the last choice of a run is such a load of thread `t`. */
  predicate Loaded(readers: nat, sched: seq<Choice>, t: nat, kind: Addr -> bool)
    requires sched != []
  {
    var c := Before(readers, sched);
    && sched[|sched| - 1] == Run(t) && t < |c.loc|
    && OpOf(c.loc[t]).Load? && kind(OpOf(c.loc[t]).a)
  }

  /** How many publications had reached memory when thread `t` last loaded the pointer. */
  function PointerAge(readers: nat, sched: seq<Choice>, t: nat): nat {
    if sched == [] then 0
    else if Loaded(readers, sched, t, (a: Addr) => a.Current?) then Publications(readers, sched[..|sched| - 1])
    else PointerAge(readers, sched[..|sched| - 1], t)
  }

  /** How many fillings more than those publications had begun when it last loaded a second field. */
  function Lateness(readers: nat, sched: seq<Choice>, t: nat): int {
    if sched == [] then 0
    else
      var pre := sched[..|sched| - 1];
      if Loaded(readers, sched, t, (a: Addr) => a.Y?) then Fillings(readers, pre) - PointerAge(readers, pre, t)
      else Lateness(readers, pre, t)
  }

  ghost predicate HistoryIs(readers: nat, sched: seq<Choice>, s: State) {
    && Wf(s) && |s.c.loc| == readers + 1
    && s.xs == Fillings(readers, sched) && s.pubs == Publications(readers, sched)
    && (forall t: nat :: t < |s.c.loc| ==> ReaderHistory(readers, sched, s, t))
  }

  predicate ReaderHistory(readers: nat, sched: seq<Choice>, s: State, t: nat)
    requires Wf(s) && t < |s.c.loc|
  {
    s.mark[t] == PointerAge(readers, sched, t) && s.late[t] == Lateness(readers, sched, t)
  }

  /** What one more choice does to a reader's two counts. */
  lemma CountsStep(readers: nat, sched: seq<Choice>, ch: Choice, t: nat)
    requires var c := TsoExec(Prog(), TsoInit(Begin(readers)), sched); t < |c.loc|
    ensures var l, next := TsoExec(Prog(), TsoInit(Begin(readers)), sched).loc[t], sched + [ch];
      && PointerAge(readers, next, t) ==
           (if ch == Run(t) && (l.GetPointer? || l.Got?) then Publications(readers, sched)
            else PointerAge(readers, sched, t))
      && Lateness(readers, next, t) ==
           if ch == Run(t) && l.GetY? then Fillings(readers, sched) - PointerAge(readers, sched, t)
           else Lateness(readers, sched, t)
  {
    var next := sched + [ch];
    assert next[..|next| - 1] == sched && next[|next| - 1] == ch;
    assert Before(readers, next) == TsoExec(Prog(), TsoInit(Begin(readers)), sched);
  }

  lemma MarksStep(s: State, ch: Choice, t: nat)
    requires Wf(s) && t < |s.c.loc|
    ensures var s', l := Next(s, ch), s.c.loc[t];
      && s'.mark[t] == (if ch == Run(t) && (l.GetPointer? || l.Got?) then s.pubs else s.mark[t])
      && s'.late[t] == (if ch == Run(t) && l.GetY? then s.xs - s.mark[t] else s.late[t])
  {}

  lemma ReaderHistoryStep(readers: nat, sched: seq<Choice>, ch: Choice, s: State, t: nat)
    requires s == Exec(Start(readers), sched) && HistoryIs(readers, sched, s) && t < |s.c.loc|
    requires s.c == TsoExec(Prog(), TsoInit(Begin(readers)), sched)
    ensures ReaderHistory(readers, sched + [ch], Next(s, ch), t)
  {
    assert ReaderHistory(readers, sched, s, t);
    CountsStep(readers, sched, ch, t);
    MarksStep(s, ch, t);
  }

  lemma HistoryStep(readers: nat, sched: seq<Choice>, ch: Choice)
    requires HistoryIs(readers, sched, Exec(Start(readers), sched))
    ensures HistoryIs(readers, sched + [ch], Exec(Start(readers), sched + [ch]))
  {
    var s, next := Exec(Start(readers), sched), sched + [ch];
    assert next[..|sched|] == sched;
    ExecIsTso(Start(readers), sched);
    var s' := Next(s, ch);
    forall t: nat | t < |s'.c.loc| ensures ReaderHistory(readers, next, s', t) {
      ReaderHistoryStep(readers, sched, ch, s, t);
    }
  }

  lemma {:induction false} HistoryHolds(readers: nat, sched: seq<Choice>)
    ensures HistoryIs(readers, sched, Exec(Start(readers), sched))
  {
    if sched != [] {
      var n := |sched| - 1;
      HistoryHolds(readers, sched[..n]);
      HistoryStep(readers, sched[..n], sched[n]);
      assert sched[..n] + [sched[n]] == sched;
    }
  }

  /** Over any number of wrap-arounds, a reader's two fields belong together if fewer than
      ARENA_SIZE further slot fillings had begun to reach memory, when it read the second, since
      the publication whose pointer it had loaded. */
  lemma FieldsBelongTogether(readers: nat, sched: seq<Choice>, t: nat)
    requires 0 < t <= readers
    ensures var c := TsoExec(Prog(), TsoInit(Begin(readers)), sched);
      |c.loc| == readers + 1 &&
      (c.loc[t].Got? && Lateness(readers, sched, t) < ARENA_SIZE ==> c.loc[t].x + 1 == c.loc[t].y)
  {
    var s := Exec(Start(readers), sched);
    Reachable(readers, sched);
    ExecIsTso(Start(readers), sched);
    HistoryHolds(readers, sched);
    assert ReaderOk(s, t) && ReaderHistory(readers, sched, s, t);
  }

  /** A pointer that is not null is followed: the next two loads of the reader are of that slot's two
      fields, and what they return is what it compares. A null one is loaded again. */
  lemma PointerIsFollowed(c: TsoConf<Addr, Local>, t: nat)
    requires TsoWf(c) && t < |c.loc| && OpOf(c.loc[t]) == Load(Current)
    ensures var p, one := Read(c.mem, c.buf[t], Current), TsoStep(Prog(), c, Run(t));
      var three := TsoStep(Prog(), TsoStep(Prog(), one, Run(t)), Run(t));
      && one.mem == three.mem == c.mem && one.buf == three.buf == c.buf
      && (p == 0 ==> OpOf(one.loc[t]) == Load(Current))
      && (p != 0 ==> three.loc[t] == Got(Read(c.mem, c.buf[t], X(p - 1)), Read(c.mem, c.buf[t], Y(p - 1))))
  {
    var one := TsoStep(Prog(), c, Run(t));
    LooksOnly(c, t);
    LooksOnly(one, t);
    LooksOnly(TsoStep(Prog(), one, Run(t)), t);
  }

  lemma LooksOnly(c: TsoConf<Addr, Local>, t: nat)
    requires TsoWf(c) && t < |c.loc| && OpOf(c.loc[t]).Load?
    ensures var c' := TsoStep(Prog(), c, Run(t));
      && c'.mem == c.mem && c'.buf == c.buf && OpOf(c'.loc[t]).Load?
      && c'.loc[t] == AfterOp(c.loc[t], Read(c.mem, c.buf[t], OpOf(c.loc[t]).a))
  {
    assert Prog().op(t, c.loc[t]) == OpOf(c.loc[t]);
  }

  /** The two loops on the shared memory in place. */
  class Publisher {
    const memory: Memory<Addr>
    var loc: seq<Local>

    ghost predicate Valid()
      reads this, memory
    {
      |memory.buf| == |loc|
    }

    ghost function Conf(): TsoConf<Addr, Local>
      reads this, memory
    {
      TsoConf(memory.mem, memory.buf, loc)
    }

    constructor (readers: nat)
      ensures Valid() && fresh(memory) && Conf() == TsoInit(Begin(readers))
    {
      memory := new Memory(map[], readers + 1);
      loc := [FillX(1, 0)] + seq(readers, _ => GetPointer);
    }

    method WriterStep(t: nat)
      requires Valid() && t < |loc| && (loc[t].FillX? || loc[t].FillY? || loc[t].Publish?)
      modifies this, memory
      ensures Valid() && Conf() == TsoStep(Prog(), old(Conf()), Run(t))
    {
      assert Prog().op(t, loc[t]) == OpOf(loc[t]);
      match loc[t]
      case FillX(seed, idx) =>
        memory.Store(t, X(idx), seed);
        loc := loc[t := FillY(seed, idx)];
      case FillY(seed, idx) =>
        memory.Store(t, Y(idx), seed + 1);
        loc := loc[t := Publish(seed, idx)];
      case Publish(seed, idx) =>
        memory.Store(t, Current, idx + 1);
        loc := loc[t := FillX(seed + 1, (idx + 1) % ARENA_SIZE)];
    }

    method ReaderStep(t: nat)
      requires Valid() && t < |loc| && (loc[t].GetPointer? || loc[t].GetX? || loc[t].GetY? || loc[t].Got?)
      modifies this`loc
      ensures Valid() && Conf() == TsoStep(Prog(), old(Conf()), Run(t))
    {
      assert Prog().op(t, loc[t]) == OpOf(loc[t]);
      assert memory.buf[t := memory.buf[t]] == memory.buf;
      if loc[t].GetX? {
        var x := memory.Load(t, X(loc[t].p - 1));
        loc := loc[t := GetY(loc[t].p, x)];
      } else if loc[t].GetY? {
        var y := memory.Load(t, Y(loc[t].p - 1));
        loc := loc[t := Got(loc[t].x, y)];
      } else {
        var p := memory.Load(t, Current);
        loc := loc[t := if p == 0 then GetPointer else GetX(p)];
      }
    }

    method Step(ch: Choice)
      requires Valid()
      modifies this, memory
      ensures Valid() && Conf() == TsoStep(Prog(), old(Conf()), ch)
    {
      var t := ch.t;
      if t >= |loc| { return; }
      if ch.Drain? { memory.Drain(t); return; }
      if loc[t].FillX? || loc[t].FillY? || loc[t].Publish? { WriterStep(t); } else { ReaderStep(t); }
    }

    /** A whole run under a schedule: fields read soon enough after their publication belong
        together, whichever reader holds them. */
    method Execute(sched: seq<Choice>, ghost readers: nat)
      requires Valid() && Conf() == TsoInit(Begin(readers))
      modifies this, memory
      ensures Valid() && Conf() == TsoExec(Prog(), old(Conf()), sched) && |loc| == readers + 1
      ensures forall t :: 0 < t <= readers && loc[t].Got? && Lateness(readers, sched, t) < ARENA_SIZE ==>
        loc[t].x + 1 == loc[t].y
    {
      for i := 0 to |sched|
        invariant Valid() && Conf() == TsoExec(Prog(), old(Conf()), sched[..i])
      {
        Step(sched[i]);
        assert sched[..i + 1] == sched[..i] + [sched[i]];
        TsoSnoc(Prog(), old(Conf()), sched[..i], sched[i]);
      }
      assert sched[..|sched|] == sched;
      forall t | 0 < t <= readers && loc[t].Got? && Lateness(readers, sched, t) < ARENA_SIZE
        ensures loc[t].x + 1 == loc[t].y
      {
        FieldsBelongTogether(readers, sched, t);
      }
    }
  }
}
