/** MySQL's exclusive rw-lock entry, run by any number of threads with any number of calls each, on
    a PSO machine: the word, the owner and the recursion flag each drain on their own. The mutex is
    a draining compare-and-swap and exchange. Nothing in the program unlocks the rw-lock. */
module RwLock {
  import opened StoreBuffer
  import opened Machine

  const X_LOCK_DECR := 0x20000000
  const X_LOCK_HALF_DECR := 0x10000000

  datatype Addr = Word | Writer | Recursive | Mutex

  datatype Pc =
    | Idle                                   // mutex of the first decrement comes next
    | Test1 | Load1 | Store1(w: int) | Exit1(ok: bool)
    | SetEnter | SetWriter | SetRecursive | SetExit
    | ReadRecursive | ReadWriter             // outside the mutex
    | Enter2 | Test2 | Load2 | Store2(w: int) | Exit2(ok: bool)
    | IsZero | IsMinusHalf                   // lock_word == 0 || lock_word == -X_LOCK_HALF_DECR
    | SubLoad | SubStore(w: int)             // lock_word -= X_LOCK_DECR, no mutex
    | DecLoad | DecStore(w: int)             // --lock_word, no mutex

  /** `calls` are the pass values of the calls not begun, `pass` that of the current call; `won`
      counts the calls that returned 1. */
  datatype Local = Local(pc: Pc, pass: int, calls: seq<int>, won: nat)

  function Id(t: nat): int { t + 1 }

  function OpOf(t: nat, l: Local): Op<Addr> {
    match l.pc
    case Idle => if l.calls == [] then Halt else Cas(Mutex, 0, 1)
    case Test1 => Load(Word)
    case Load1 => Load(Word)
    case Store1(w) => Store(Word, w - X_LOCK_DECR, Plain)
    case Exit1(_) => Exchange(Mutex, 0)
    case SetEnter => Cas(Mutex, 0, 1)
    case SetWriter => Store(Writer, Id(t), Plain)
    case SetRecursive => Store(Recursive, if l.pass == 0 then 1 else 0, Plain)
    case SetExit => Exchange(Mutex, 0)
    case ReadRecursive => Load(Recursive)
    case ReadWriter => Load(Writer)
    case Enter2 => Cas(Mutex, 0, 1)
    case Test2 => Load(Word)
    case Load2 => Load(Word)
    case Store2(w) => Store(Word, w - X_LOCK_DECR, Plain)
    case Exit2(_) => Exchange(Mutex, 0)
    case IsZero => Load(Word)
    case IsMinusHalf => Load(Word)
    case SubLoad => Load(Word)
    case SubStore(w) => Store(Word, w - X_LOCK_DECR, Plain)
    case DecLoad => Load(Word)
    case DecStore(w) => Store(Word, w - 1, Plain)
  }

  function Return(l: Local, one: bool): Local {
    l.(pc := Idle, won := if one then l.won + 1 else l.won)
  }

  function AfterOp(t: nat, l: Local, v: int): Local {
    match l.pc
    case Idle => if v == 0 && l.calls != [] then l.(pc := Test1, pass := l.calls[0], calls := l.calls[1..]) else l
    case Test1 => l.(pc := if v > X_LOCK_HALF_DECR then Load1 else Exit1(false))
    case Load1 => l.(pc := Store1(v))
    case Store1(_) => l.(pc := Exit1(true))
    case Exit1(ok) =>
      if ok then l.(pc := SetEnter) else if l.pass == 0 then l.(pc := ReadRecursive) else Return(l, false)
    case SetEnter => if v == 0 then l.(pc := SetWriter) else l
    case SetWriter => l.(pc := SetRecursive)
    case SetRecursive => l.(pc := SetExit)
    case SetExit => Return(l, true)
    case ReadRecursive => if v != 0 then l.(pc := ReadWriter) else Return(l, false)
    case ReadWriter => if v == Id(t) then l.(pc := Enter2) else Return(l, false)
    case Enter2 => if v == 0 then l.(pc := Test2) else l
    case Test2 => l.(pc := if v > 0 then Load2 else Exit2(false))
    case Load2 => l.(pc := Store2(v))
    case Store2(_) => l.(pc := Exit2(true))
    case Exit2(ok) => if ok then Return(l, true) else l.(pc := IsZero)
    case IsZero => l.(pc := if v == 0 then SubLoad else IsMinusHalf)
    case IsMinusHalf => l.(pc := if v == -X_LOCK_HALF_DECR then SubLoad else DecLoad)
    case SubLoad => l.(pc := SubStore(v))
    case SubStore(_) => Return(l, true)
    case DecLoad => l.(pc := DecStore(v))
    case DecStore(_) => Return(l, true)
  }

  function Prog(): Program<Addr, Local> {
    Program((t: nat, l: Local) => OpOf(t, l), (t: nat, l: Local, v: int) => AfterOp(t, l, v))
  }

  // The word as a function of the recursion depth.

  /** One more exclusive lock by the owner, from a word that is no longer above the first threshold. */
  function Deeper(w: int): int {
    if w > 0 || w == 0 || w == -X_LOCK_HALF_DECR then w - X_LOCK_DECR else w - 1
  }

  function WordAt(w0: int, depth: nat): int {
    if depth == 0 then w0
    else if depth == 1 then w0 - X_LOCK_DECR
    else Deeper(WordAt(w0, depth - 1))
  }

  /** Initial words that let one thread take the lock and no second one. */
  predicate StartWord(w0: int) {
    X_LOCK_HALF_DECR < w0 <= 0x30000000
  }

  lemma {:induction false} WordBelowThreshold(w0: int, depth: nat)
    requires StartWord(w0) && depth >= 1
    ensures WordAt(w0, depth) <= X_LOCK_HALF_DECR
  {
    if depth > 1 { WordBelowThreshold(w0, depth - 1); }
  }

  lemma {:induction false} WordDecreases(w0: int, d: nat, e: nat)
    requires d < e
    ensures WordAt(w0, e) < WordAt(w0, d)
  {
    if d + 1 < e { WordDecreases(w0, d, e - 1); }
  }

  /** The word determines the depth. */
  lemma WordDeterminesDepth(w0: int, d: nat, e: nat)
    ensures WordAt(w0, d) == WordAt(w0, e) <==> d == e
  {
    if d < e { WordDecreases(w0, d, e); }
    if e < d { WordDecreases(w0, e, d); }
  }

  /** From the initial word of the program the depths 1 and 2 are +-0x10000000, and from the third
      on the word counts down by one from -0x30000000. */
  lemma {:induction false} WordFormula(depth: nat)
    requires depth >= 3
    ensures WordAt(0x30000000, 1) == 0x10000000 && WordAt(0x30000000, 2) == -0x10000000
    ensures WordAt(0x30000000, depth) == -0x30000000 - (depth - 3)
  {
    assert WordAt(0x30000000, 2) == Deeper(WordAt(0x30000000, 1)) == -0x10000000;
    if depth > 3 { WordFormula(depth - 1); }
  }

  /** From a word that the first decrement brings to zero the second takes another X_LOCK_DECR off. */
  lemma {:induction false} WordFromZero(depth: nat)
    requires depth >= 2
    ensures WordAt(0x20000000, 1) == 0 && WordAt(0x20000000, depth) == -0x20000000 - (depth - 2)
  {
    assert WordAt(0x20000000, 2) == Deeper(WordAt(0x20000000, 1)) == -0x20000000;
    if depth > 2 { WordFromZero(depth - 1); }
  }

  /** It stays within a 32-bit int exactly up to this depth. */
  lemma WordFits(depth: nat)
    ensures -0x80000000 <= WordAt(0x30000000, depth) < 0x80000000 <==> depth <= 0x50000003
  {
    if depth >= 3 { WordFormula(depth); }
  }
}
