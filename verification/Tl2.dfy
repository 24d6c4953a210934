/** The TL2 commit protocol as a transition system.

    Every load or store of a shared word, lock bit, version or of the global clock is a step of
    its own, and the steps of any number of transactions interleave freely. */
module Tl2 {
  import opened Striping

  type TxId = nat

  type Memory = map<Addr, Word>

  /** Memory starts zeroed, so an address that was never stored holds zero. */
  function Lookup(m: Memory, a: Addr): Word {
    if a in m then m[a] else 0
  }

  /** The addresses a, ..., a + n - 1 of one allocated segment. */
  datatype Segment = Segment(a: Addr, n: nat)

  predicate Apart(x: Segment, y: Segment) {
    x.a + x.n <= y.a || y.a + y.n <= x.a
  }

  /** What a client did with a transaction. `own` tells that the value came from the transaction's
      own write buffer. `asof` is auxiliary: the version whose value the read returned. */
  datatype Op =
    | Read(a: Addr, w: Word, own: bool, asof: nat)
    | Write(a: Addr, w: Word)
    | Alloc(a: Addr, n: nat)

  /** The three statements of the store loop. */
  datatype Phase = ToStore | ToVersion | ToRelease

  /** Where a transaction stands inside the library. */
  datatype Pc =
    | Active                                            // between two library calls
    | Copied(a: Addr, w: Word, own: bool, asof: nat)    // in tm_read, before the load of the lock bit
    | Tested(a: Addr, w: Word, own: bool, asof: nat)    // in tm_read, before the load of the version
    | Locking(i: nat, bound: nat, polling: bool)        // in lock_write_set, i locks taken
    | Validating(j: nat, loaded: bool)                  // in tm_end, j read nodes accepted
    | Storing(i: nat, phase: Phase)                     // in store_write_set, i write nodes finished
    | Unlocking(i: nat, n: nat)                         // in unlock_write_set, i of n locks released
    | Committed
    | Aborted

  /** One transaction: `rs` and `ws` are the addresses of the read and write nodes in list order,
      `buf` the values of the write nodes, `wv` the write version (0 until it is taken). */
  datatype Tx = Tx(ro: bool, rv: nat, rs: seq<Addr>, ws: seq<Addr>, buf: Memory, wv: nat, pc: Pc, ops: seq<Op>)

  /** The shared region and all transactions ever begun, in the order in which they began.

      A lock bit is set iff its index is in `locks`; the value stored there (the owner) is auxiliary
      and no step looks at it. `hist` and `writer` are auxiliary too: `hist[0]` is the initial memory,
      `hist[v]` the write set committed with version v (empty while undecided, and when its
      transaction aborts), `writer[v]` the transaction that drew version v. */
  datatype State = State(
    mem: Memory, clock: nat, locks: map<int, TxId>, version: seq<nat>, first: Segment, alloced: set<Segment>,
    txns: seq<Tx>, hist: seq<Memory>, writer: seq<TxId>)

  datatype Event =
    | Begin(ro: bool)                      // tm_begin
    | WriteWord(t: TxId, a: Addr, w: Word) // one iteration of tm_write
    | AllocSegment(t: TxId, a: Addr, n: nat) // tm_alloc
    | CopyWord(t: TxId, a: Addr)           // first half of an iteration of tm_read
    | End(t: TxId)                         // call of tm_end
    | Advance(t: TxId)                     // next statement of the call in progress

  /** A region just created, with its first segment. */
  function Init(m: Memory, first: Segment): State {
    State(m, 0, map[], seq(NUM_LOCKS, _ => 0), first, {first}, [], [m], [0])
  }

  predicate Sized(s: State) {
    |s.version| == NUM_LOCKS
  }

  predicate Finished(T: Tx) {
    T.pc.Committed? || T.pc.Aborted?
  }

  /** The transaction passed the point of no return of a read-write commit. */
  predicate Decided(T: Tx) {
    T.pc.Storing? || (T.pc.Committed? && !T.ro)
  }

  predicate Reading(T: Tx) {
    T.pc.Copied? || T.pc.Tested?
  }

  predicate InEnd(T: Tx) {
    T.pc.Locking? || T.pc.Validating? || T.pc.Storing? || T.pc.Unlocking?
  }

  /** Whether the lock of the i-th write node is held by the transaction. */
  predicate Held(T: Tx, i: int) {
    0 <= i < |T.ws| &&
    match T.pc
    case Locking(n, _, _) => i < n
    case Validating(_, _) => true
    case Storing(n, _) => n <= i
    case Unlocking(n, m) => n <= i < m
    case _ => false
  }

  /** Whether a decided transaction has yet to store the i-th write node. */
  predicate ToBeStored(T: Tx, i: int) {
    0 <= i < |T.ws| && T.pc.Storing? && (T.pc.i < i || (T.pc.i == i && T.pc.phase.ToStore?))
  }

  predicate Pending(T: Tx, a: Addr) {
    exists i :: 0 <= i < |T.ws| && ToBeStored(T, i) && T.ws[i] == a
  }

  // ---------------------------------------------------------------- steps

  function SetTx(s: State, t: TxId, T: Tx): State
    requires t < |s.txns|
  {
    s.(txns := s.txns[t := T])
  }

  function SetPc(s: State, t: TxId, pc: Pc): State
    requires t < |s.txns|
  {
    SetTx(s, t, s.txns[t].(pc := pc))
  }

  /** tm_begin samples the clock. */
  function BeginTx(s: State, ro: bool): State {
    s.(txns := s.txns + [Tx(ro, s.clock, [], [], map[], 0, Active, [])])
  }

  function WriteTx(T: Tx, a: Addr, w: Word): Tx {
    T.(ws := if a in T.buf then T.ws else T.ws + [a], buf := T.buf[a := w], ops := T.ops + [Write(a, w)])
  }

  /** The owner of the lock of `a`, if it drew a version not above `rv` and still has to store `a`
      (or has not decided yet whether it will). A copy of `a` made now returns the value that
      precedes this version. */
  predicate Overlaps(s: State, rv: nat, a: Addr) {
    var k := FindLock(a);
    k in s.locks && s.locks[k] < |s.txns| &&
    var U := s.txns[s.locks[k]];
    0 < U.wv <= rv && a in U.buf && (!Decided(U) || Pending(U, a))
  }

  function AsOf(s: State, rv: nat, a: Addr): nat {
    if Overlaps(s, rv, a) then s.txns[s.locks[FindLock(a)]].wv - 1 else rv
  }

  /** The copy of one word in tm_read: from the write buffer, or logged and from shared memory. */
  function CopyTx(s: State, T: Tx, a: Addr): Tx {
    if !T.ro && a in T.buf then
      T.(pc := Copied(a, T.buf[a], true, T.rv))
    else
      T.(rs := if T.ro then T.rs else T.rs + [a], pc := Copied(a, Lookup(s.mem, a), false, AsOf(s, T.rv, a)))
  }

  function EndTx(T: Tx): Tx {
    T.(pc := if T.ro then Committed else Locking(0, 0, false))
  }

  /** versioned_spinlock_acquire gives up when its back-off bound exceeds 3. */
  function Backoff(i: nat, bound: nat): Pc {
    if bound > 3 then Unlocking(0, i) else Locking(i, bound + 1, true)
  }

  /** The next access of lock_write_set, or the increment of the clock once all locks are taken. */
  function LockingStep(s: State, t: TxId): State
    requires t < |s.txns| && s.txns[t].pc.Locking? && s.txns[t].pc.i <= |s.txns[t].ws|
  {
    var T := s.txns[t];
    var Locking(i, bound, polling) := T.pc;
    if i == |T.ws| then
      TakeVersion(s, t)
    else
      var k := FindLock(T.ws[i]);
      if k in s.locks then SetPc(s, t, Backoff(i, bound))
      else if polling then SetPc(s, t, Locking(i, bound, false))
      else SetPc(s, t, Locking(i + 1, 0, false)).(locks := s.locks[k := t])
  }

  /** Increment of the clock; when the write version is rv + 1 the read set is not validated. */
  function TakeVersion(s: State, t: TxId): State
    requires t < |s.txns|
  {
    var T := s.txns[t];
    var wv := s.clock + 1;
    SetTx(s, t, T.(wv := wv, pc := Validating(if wv == T.rv + 1 then |T.rs| else 0, false)))
      .(clock := wv, hist := s.hist + [map[]], writer := s.writer + [t])
  }

  /** The next load of validate_read_set, or the decision to commit when all nodes are accepted. */
  function ValidatingStep(s: State, t: TxId): State
    requires Sized(s) && t < |s.txns| && s.txns[t].pc.Validating? && s.txns[t].pc.j <= |s.txns[t].rs|
    requires s.txns[t].wv < |s.hist|
  {
    var T := s.txns[t];
    var Validating(j, loaded) := T.pc;
    if j == |T.rs| then
      SetPc(s, t, Storing(0, ToStore)).(hist := s.hist[T.wv := T.buf])
    else
      var k := FindLock(T.rs[j]);
      if !loaded then
        SetPc(s, t, if k in s.locks then Unlocking(0, |T.ws|) else Validating(j, true))
      else
        SetPc(s, t, if s.version[k] > T.rv then Unlocking(0, |T.ws|) else Validating(j + 1, false))
  }

  /** The next statement of store_write_set. */
  function StoringStep(s: State, t: TxId): State
    requires Sized(s) && t < |s.txns| && s.txns[t].pc.Storing? && s.txns[t].pc.i <= |s.txns[t].ws|
    requires forall a :: a in s.txns[t].ws ==> a in s.txns[t].buf
  {
    var T := s.txns[t];
    var Storing(i, phase) := T.pc;
    if i == |T.ws| then
      SetPc(s, t, Committed)
    else
      var a := T.ws[i];
      var k := FindLock(a);
      match phase
      case ToStore => SetPc(s, t, Storing(i, ToVersion)).(mem := s.mem[a := T.buf[a]])
      case ToVersion => SetPc(s, t, Storing(i, ToRelease)).(version := s.version[k := T.wv])
      case ToRelease => SetPc(s, t, Storing(i + 1, ToStore)).(locks := s.locks - {k})
  }

  /** The next release of unlock_write_set. */
  function UnlockingStep(s: State, t: TxId): State
    requires t < |s.txns| && s.txns[t].pc.Unlocking? && s.txns[t].pc.n <= |s.txns[t].ws|
  {
    var T := s.txns[t];
    var Unlocking(i, n) := T.pc;
    if i >= n then SetPc(s, t, Aborted)
    else SetPc(s, t, Unlocking(i + 1, n)).(locks := s.locks - {FindLock(T.ws[i])})
  }

  /** The load of the lock bit, then of the version, that validate one copied word. */
  function ReadingStep(s: State, t: TxId): State
    requires Sized(s) && t < |s.txns| && Reading(s.txns[t])
  {
    var T := s.txns[t];
    match T.pc
    case Copied(a, w, own, asof) =>
      SetPc(s, t, if FindLock(a) in s.locks then Aborted else Tested(a, w, own, asof))
    case Tested(a, w, own, asof) =>
      if s.version[FindLock(a)] > T.rv then SetPc(s, t, Aborted)
      else SetTx(s, t, T.(pc := Active, ops := T.ops + [Read(a, w, own, asof)]))
  }

  /** The bounds a transaction's cursors keep; the steps below index with them. */
  ghost predicate Shape(T: Tx, clock: nat) {
    && T.rv <= clock
    && (T.ro ==> T.ws == [] && T.rs == [] && T.buf == map[] && T.wv == 0 && !InEnd(T))
    && (forall a :: a in T.buf <==> a in T.ws)
    && (forall i, j :: 0 <= i < j < |T.ws| ==> T.ws[i] != T.ws[j])
    && (T.wv > 0 ==> T.rv < T.wv <= clock)
    && match T.pc
       case Active => T.wv == 0
       case Copied(a, w, own, asof) => T.wv == 0 && CopyShape(T, a, w, own, asof)
       case Tested(a, w, own, asof) => T.wv == 0 && CopyShape(T, a, w, own, asof)
       case Locking(i, bound, polling) => T.wv == 0 && i <= |T.ws| && bound <= 4 && StripesDistinct(T.ws, i)
       case Validating(j, loaded) =>
         T.wv > 0 && j <= |T.rs| && (loaded ==> j < |T.rs|) && StripesDistinct(T.ws, |T.ws|)
       case Storing(i, phase) =>
         T.wv > 0 && i <= |T.ws| && (i == |T.ws| ==> phase.ToStore?) && StripesDistinct(T.ws, |T.ws|)
       case Unlocking(i, n) => i <= n <= |T.ws| && StripesDistinct(T.ws, n)
       case Committed => T.ro || (T.wv > 0 && StripesDistinct(T.ws, |T.ws|))
       case Aborted => true
  }

  predicate CopyShape(T: Tx, a: Addr, w: Word, own: bool, asof: nat) {
    && asof <= T.rv
    && (own ==> !T.ro && a in T.buf && w == T.buf[a])
    && (!own ==> a !in T.buf && (T.ro || (|T.rs| > 0 && T.rs[|T.rs| - 1] == a)))
  }

  /** The part of the invariant under which every step is defined. */
  ghost predicate Shapes(s: State) {
    && Sized(s)
    && |s.hist| == s.clock + 1
    && |s.writer| == s.clock + 1
    && forall t :: 0 <= t < |s.txns| ==> Shape(s.txns[t], s.clock)
  }

  /** Client calls are possible between two library calls only; a read-only transaction does not
      write, and an allocation returns addresses nobody was given before. A started call can
      always make its next step. */
  predicate Enabled(s: State, e: Event) {
    match e
    case Begin(_) => true
    case WriteWord(t, _, _) => t < |s.txns| && s.txns[t].pc.Active? && !s.txns[t].ro
    case AllocSegment(t, a, n) =>
      t < |s.txns| && s.txns[t].pc.Active? && !s.txns[t].ro && a > 0 && n > 0 &&
      forall r :: r in s.alloced ==> Apart(Segment(a, n), r)
    case CopyWord(t, _) => t < |s.txns| && s.txns[t].pc.Active?
    case End(t) => t < |s.txns| && s.txns[t].pc.Active?
    case Advance(t) => t < |s.txns| && (Reading(s.txns[t]) || InEnd(s.txns[t]))
  }

  function Next(s: State, e: Event): State
    requires Shapes(s) && Enabled(s, e)
  {
    match e
    case Begin(ro) => BeginTx(s, ro)
    case WriteWord(t, a, w) => SetTx(s, t, WriteTx(s.txns[t], a, w))
    case AllocSegment(t, a, n) =>
      SetTx(s, t, s.txns[t].(ops := s.txns[t].ops + [Alloc(a, n)])).(alloced := s.alloced + {Segment(a, n)})
    case CopyWord(t, a) => SetTx(s, t, CopyTx(s, s.txns[t], a))
    case End(t) => SetTx(s, t, EndTx(s.txns[t]))
    case Advance(t) =>
      var pc := s.txns[t].pc;
      if pc.Locking? then LockingStep(s, t)
      else if pc.Validating? then ValidatingStep(s, t)
      else if pc.Storing? then StoringStep(s, t)
      else if pc.Unlocking? then UnlockingStep(s, t)
      else ReadingStep(s, t)
  }

  /** A run: the states passed through, and the events between them. */
  ghost predicate IsRun(states: seq<State>, events: seq<Event>) {
    && |states| == |events| + 1
    && (exists m: Memory, first: Segment :: states[0] == Init(m, first))
    && forall i :: 0 <= i < |events| ==>
         Shapes(states[i]) && Enabled(states[i], events[i]) && states[i + 1] == Next(states[i], events[i])
  }
}
