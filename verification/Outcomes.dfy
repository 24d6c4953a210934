/** What decides the answers of the library: every call of a client takes its effect, every finished
    read was validated by two loads, and a transaction aborts exactly when one of its accesses found a
    reason to. All of it is said of the words, locks and versions in the states of a run. */
module Outcomes {
  import opened Striping
  import opened Tl2
  import opened Tl2Invariant
  import opened Tl2Trace
  import opened Serializability
  import opened Tl2Runs

  // ---------------------------------------------------------------- the calls of a client

  /** Nothing changed but transaction t. */
  ghost predicate OnlyTx(s: State, s': State, t: TxId) {
    && |s'.txns| == |s.txns| && (forall u :: 0 <= u < |s.txns| && u != t ==> s'.txns[u] == s.txns[u])
    && s'.mem == s.mem && s'.clock == s.clock && s'.locks == s.locks && s'.version == s.version && s'.hist == s.hist
  }

  /** Every write of a client is added to what its transaction did, and is the buffered value of the
      word from then on, whether or not the word was written before. */
  lemma WriteTakesEffect(states: seq<State>, events: seq<Event>, i: nat)
    requires IsRun(states, events) && i < |events| && events[i].WriteWord?
    ensures var WriteWord(t, a, w) := events[i];
            && t < |states[i].txns| && OnlyTx(states[i], states[i + 1], t) && states[i + 1].alloced == states[i].alloced
            && var T, T' := states[i].txns[t], states[i + 1].txns[t];
            && T'.ops == T.ops + [Write(a, w)] && a in T'.buf && T'.buf[a] == w
            && (forall b :: b != a ==> (b in T'.buf <==> b in T.buf) && (b in T.buf ==> T'.buf[b] == T.buf[b]))
            && T'.ws == (if a in T.ws then T.ws else T.ws + [a])
            && T'.rs == T.rs && T'.rv == T.rv && T'.ro == T.ro && T'.pc.Active?
  {
    RunInv(states, events, i);
    assert Shape(states[i].txns[events[i].t], states[i].clock);
  }

  /** Every allocation of a client is added to what its transaction did, and is taken from then on. */
  lemma AllocTakesEffect(states: seq<State>, events: seq<Event>, i: nat)
    requires IsRun(states, events) && i < |events| && events[i].AllocSegment?
    ensures var AllocSegment(t, a, n) := events[i];
            && t < |states[i].txns| && OnlyTx(states[i], states[i + 1], t)
            && states[i + 1].alloced == states[i].alloced + {Segment(a, n)}
            && states[i + 1].txns[t] == states[i].txns[t].(ops := states[i].txns[t].ops + [Alloc(a, n)])
  {
  }

  /** A transaction begins with empty lists, at the version the clock then shows. */
  lemma BeginTakesEffect(states: seq<State>, events: seq<Event>, i: nat)
    requires IsRun(states, events) && i < |events| && events[i].Begin?
    ensures var s, s' := states[i], states[i + 1];
            && |s'.txns| == |s.txns| + 1 && (forall u :: 0 <= u < |s.txns| ==> s'.txns[u] == s.txns[u])
            && s'.mem == s.mem && s'.clock == s.clock && s'.locks == s.locks && s'.version == s.version
            && var T := s'.txns[|s.txns|];
            && T.ro == events[i].ro && T.rv == s.clock && T.pc.Active? && T.wv == 0
            && T.rs == [] && T.ws == [] && T.buf == map[] && T.ops == []
  {
  }

  // ---------------------------------------------------------------- accesses

  /** Step p of the run is the next access of transaction t. */
  ghost predicate Accesses(states: seq<State>, events: seq<Event>, p: int, t: TxId)
    requires |states| == |events| + 1
  {
    0 <= p < |events| && events[p] == Advance(t) && t < |states[p].txns|
  }

  /** ... and finds the lock of `a` free, for operation n of the transaction. */
  ghost predicate FindsFree(states: seq<State>, events: seq<Event>, p: int, t: TxId, n: int, a: Addr)
    requires |states| == |events| + 1
  {
    Accesses(states, events, p, t) && |states[p].txns[t].ops| == n && FindLock(a) !in states[p].locks
  }

  /** ... and finds the version of that lock not above the transaction's own. */
  ghost predicate FindsOld(states: seq<State>, events: seq<Event>, p: int, t: TxId, n: int, a: Addr)
    requires |states| == |events| + 1
  {
    Accesses(states, events, p, t) && |states[p].txns[t].ops| == n &&
    Sized(states[p]) && states[p].version[FindLock(a)] <= states[p].txns[t].rv
  }

  // ---------------------------------------------------------------- reads are validated

  /** Step i copied the word for operation n, and step p, after it, found its lock free. */
  ghost predicate CopiedFree(states: seq<State>, events: seq<Event>, i: int, p: int, t: TxId, n: int, a: Addr)
    requires |states| == |events| + 1
  {
    CopiesFor(states, events, i, t, n, a) && i < p && FindsFree(states, events, p, t, n, a)
  }

  /** ... and step q, after that, found its version acceptable. */
  ghost predicate ReadBySteps(states: seq<State>, events: seq<Event>, i: int, p: int, q: int, t: TxId, n: int, a: Addr)
    requires |states| == |events| + 1
  {
    CopiedFree(states, events, i, p, t, n, a) && p < q && FindsOld(states, events, q, t, n, a)
  }

  /** Where the read in hand, and every finished read, comes from. */
  ghost predicate ReadsFound(states: seq<State>, events: seq<Event>, j: nat, t: TxId)
    requires |states| == |events| + 1 && j < |states|
  {
    t < |states[j].txns| ==>
      var T := states[j].txns[t];
      && (T.pc.Copied? ==> exists i :: i < j && CopiesFor(states, events, i, t, |T.ops|, T.pc.a))
      && (T.pc.Tested? ==> exists i, p :: p < j && CopiedFree(states, events, i, p, t, |T.ops|, T.pc.a))
      && (forall n :: 0 <= n < |T.ops| && T.ops[n].Read? ==>
            exists i, p, q :: q < j && ReadBySteps(states, events, i, p, q, t, n, T.ops[n].a))
  }

  lemma ReadsFoundOwn(states: seq<State>, events: seq<Event>, j: nat, t: TxId)
    requires IsRun(states, events) && j < |events| && events[j] == Advance(t) && ReadsFound(states, events, j, t)
    ensures ReadsFound(states, events, j + 1, t)
  {
    var s, s', T := states[j], states[j + 1], states[j].txns[t];
    AdvanceTx(s, t);
    assert Accesses(states, events, j, t);
    if T.pc.Copied? {
      ReadsFoundCopied(states, events, j, t);
    } else if T.pc.Tested? {
      ReadsFoundTested(states, events, j, t);
    } else {
      EndingReadsNothing(s, t);
      hide Next, ReadBySteps;
    }
  }

  lemma ReadsFoundCopied(states: seq<State>, events: seq<Event>, j: nat, t: TxId)
    requires IsRun(states, events) && j < |events| && events[j] == Advance(t) && ReadsFound(states, events, j, t)
    requires t < |states[j].txns| && states[j].txns[t].pc.Copied?
    ensures ReadsFound(states, events, j + 1, t)
  {
    var n, a := |states[j].txns[t].ops|, states[j].txns[t].pc.a;
    hide CopiesFor, ReadBySteps;
    var i :| i < j && CopiesFor(states, events, i, t, n, a);
    assert states[j + 1].txns[t].pc.Tested? ==> CopiedFree(states, events, i, j, t, n, a);
  }

  lemma ReadsFoundTested(states: seq<State>, events: seq<Event>, j: nat, t: TxId)
    requires IsRun(states, events) && j < |events| && events[j] == Advance(t) && ReadsFound(states, events, j, t)
    requires t < |states[j].txns| && states[j].txns[t].pc.Tested?
    ensures ReadsFound(states, events, j + 1, t)
  {
    var n, a := |states[j].txns[t].ops|, states[j].txns[t].pc.a;
    TestedEnds(states[j], t);
    hide CopiesFor, CopiedFree, Next;
    var i, p :| p < j && CopiedFree(states, events, i, p, t, n, a);
    if |states[j + 1].txns[t].ops| > n {
      assert FindsOld(states, events, j, t, n, a);
      assert ReadBySteps(states, events, i, p, j, t, n, a);
    }
    hide ReadBySteps;
  }

  /** The load of the version ends the read: with its operation done, or with an abort. */
  lemma TestedEnds(s: State, t: TxId)
    requires Shapes(s) && t < |s.txns| && s.txns[t].pc.Tested?
    ensures var T, s' := s.txns[t], Next(s, Advance(t));
            && |s'.txns| == |s.txns| && !s'.txns[t].pc.Copied? && !s'.txns[t].pc.Tested?
            && (s'.txns[t].ops == T.ops ||
                (s'.txns[t].ops == T.ops + [Read(T.pc.a, T.pc.w, T.pc.own, T.pc.asof)] &&
                 s.version[FindLock(T.pc.a)] <= T.rv))
  {
  }

  lemma ReadsFoundStep(states: seq<State>, events: seq<Event>, j: nat, t: TxId)
    requires IsRun(states, events) && j < |events| && ReadsFound(states, events, j, t)
    ensures ReadsFound(states, events, j + 1, t)
  {
    var s, e := states[j], events[j];
    hide ReadBySteps, CopiedFree;
    if e.Begin? {
      assert t < |s.txns| ==> states[j + 1].txns[t] == s.txns[t];
    } else {
      NextTx(s, e);
      if e == Advance(t) {
        ReadsFoundOwn(states, events, j, t);
      } else if e.t == t && e.CopyWord? {
        assert CopiesFor(states, events, j, t, |s.txns[t].ops|, e.a);
      }
    }
  }

  lemma {:induction false} ReadsFoundRun(states: seq<State>, events: seq<Event>, j: nat, t: TxId)
    requires IsRun(states, events) && j < |states|
    ensures ReadsFound(states, events, j, t)
  {
    if j > 0 {
      ReadsFoundRun(states, events, j - 1, t);
      hide Next, ReadsFound;
      ReadsFoundStep(states, events, j - 1, t);
    }
  }

  /** In every run, every finished read, from the own buffer or not, was made of three accesses in this
      order: a copy, a load of the lock bit that found it clear, and a load of a version not above rv.
      The value is that of the copy: the buffered one exactly when the transaction had written the
      word, and that of memory otherwise. */
  lemma ReadIsValidated(states: seq<State>, events: seq<Event>, j: nat, t: TxId, n: nat)
      returns (i: nat, p: nat, q: nat)
    requires IsRun(states, events) && j < |states| && t < |states[j].txns| && n < |states[j].txns[t].ops|
    requires states[j].txns[t].ops[n].Read?
    ensures var op := states[j].txns[t].ops[n];
            && i < p < q < j && CopiesFor(states, events, i, t, n, op.a)
            && FindsFree(states, events, p, t, n, op.a) && FindsOld(states, events, q, t, n, op.a)
            && var C := states[i].txns[t];
            && (op.own <==> !C.ro && op.a in C.buf)
            && op.w == if op.own then C.buf[op.a] else Lookup(states[i].mem, op.a)
  {
    var op := states[j].txns[t].ops[n];
    ReadsFoundRun(states, events, j, t);
    i, p, q :| q < j && ReadBySteps(states, events, i, p, q, t, n, op.a);
    CopyGivesRead(states, events, i, j, t, n, op.a);
  }

  // ---------------------------------------------------------------- refusals

  /** How often, among the first j steps, the transaction polled the lock of its i-th write node. */
  function Polls(states: seq<State>, events: seq<Event>, j: nat, t: TxId, i: nat): nat
    requires |states| == |events| + 1 && j <= |events|
  {
    if j == 0 then 0
    else Polls(states, events, j - 1, t, i) + if PollsAt(states[j - 1], events[j - 1], t, i) then 1 else 0
  }

  predicate PollsAt(s: State, e: Event, t: TxId, i: nat) {
    e == Advance(t) && t < |s.txns| && s.txns[t].pc.Locking? && s.txns[t].pc.polling && s.txns[t].pc.i == i
  }

  /** The state gives the next access of the transaction a reason to abort: the lock of the word it reads
      or validates is held, or its version is above rv; or a lock it wants is held, and this was the
      last of `polls` polls, which must be four, or the exchange that follows them. */
  predicate Refused(s: State, T: Tx, polls: nat)
    requires Sized(s)
  {
    match T.pc
    case Copied(a, _, _, _) => FindLock(a) in s.locks
    case Tested(a, _, _, _) => s.version[FindLock(a)] > T.rv
    case Locking(i, _, _) => i < |T.ws| && FindLock(T.ws[i]) in s.locks && polls == 4
    case Validating(j, loaded) =>
      j < |T.rs| && if loaded then s.version[FindLock(T.rs[j])] > T.rv else FindLock(T.rs[j]) in s.locks
    case _ => false
  }

  ghost predicate RefusedAt(states: seq<State>, events: seq<Event>, p: int, t: TxId)
    requires |states| == |events| + 1
  {
    Accesses(states, events, p, t) && Sized(states[p]) &&
    var T := states[p].txns[t];
    Refused(states[p], T, if T.pc.Locking? then Polls(states, events, p + 1, t, T.pc.i) else 0)
  }

  /** The transaction is giving its locks back, or aborted. */
  predicate Failing(T: Tx) {
    T.pc.Unlocking? || T.pc.Aborted?
  }

  /** Before tm_end no lock was polled; in it, as often as the bound of the back-off says. */
  ghost predicate PollsOk(states: seq<State>, events: seq<Event>, j: nat, t: TxId)
    requires |states| == |events| + 1 && j < |states|
  {
    if t >= |states[j].txns| then forall i :: Polls(states, events, j, t, i) == 0
    else
      match states[j].txns[t].pc
      case Locking(l, bound, polling) =>
        && Polls(states, events, j, t, l) == bound - (if polling then 1 else 0)
        && forall i :: i > l ==> Polls(states, events, j, t, i) == 0
      case Active => forall i :: Polls(states, events, j, t, i) == 0
      case Copied(_, _, _, _) => forall i :: Polls(states, events, j, t, i) == 0
      case Tested(_, _, _, _) => forall i :: Polls(states, events, j, t, i) == 0
      case _ => true
  }

  lemma PollsNext(states: seq<State>, events: seq<Event>, j: nat, t: TxId)
    requires IsRun(states, events) && j < |events| && PollsOk(states, events, j, t)
    ensures PollsOk(states, events, j + 1, t)
  {
    var s, e := states[j], events[j];
    forall i: nat
      ensures Polls(states, events, j + 1, t, i) ==
                Polls(states, events, j, t, i) + if PollsAt(s, e, t, i) then 1 else 0
    {
    }
    hide Polls;
    if e == Advance(t) {
      assert Shape(s.txns[t], s.clock);
      AdvancePolls(s, t);
    } else if !e.Begin? {
      NextTx(s, e);
    }
  }

  /** The access starts no read, and it takes the next lock or counts for the present one. */
  lemma AdvancePolls(s: State, t: TxId)
    requires Shapes(s) && Enabled(s, Advance(t))
    ensures |Next(s, Advance(t)).txns| == |s.txns|
    ensures var pc, pc' := s.txns[t].pc, Next(s, Advance(t)).txns[t].pc;
            && !pc'.Copied? && (pc'.Tested? || pc'.Active? ==> Reading(s.txns[t]))
            && (pc'.Locking? ==> pc.Locking? && CountsOn(pc, pc'))
  {
    AdvanceTx(s, t);
    assert Shape(s.txns[t], s.clock);
    if s.txns[t].pc.Locking? {
      LockingPolls(s, t);
    } else {
      OthersLockNothing(s, t);
    }
  }

  lemma LockingPolls(s: State, t: TxId)
    requires t < |s.txns| && s.txns[t].pc.Locking? && s.txns[t].pc.i <= |s.txns[t].ws|
    ensures |LockingStep(s, t).txns| == |s.txns|
    ensures var pc' := LockingStep(s, t).txns[t].pc;
            !pc'.Copied? && !pc'.Tested? && !pc'.Active? && (pc'.Locking? ==> CountsOn(s.txns[t].pc, pc'))
  {
  }

  lemma OthersLockNothing(s: State, t: TxId)
    requires Shapes(s) && Enabled(s, Advance(t)) && !s.txns[t].pc.Locking?
    ensures |Next(s, Advance(t)).txns| == |s.txns|
    ensures var pc' := Next(s, Advance(t)).txns[t].pc;
            !pc'.Copied? && !pc'.Locking? && (pc'.Tested? || pc'.Active? ==> Reading(s.txns[t]))
  {
    assert Shape(s.txns[t], s.clock);
  }

  predicate CountsOn(pc: Pc, pc': Pc)
    requires pc.Locking? && pc'.Locking?
  {
    if pc'.i == pc.i then pc'.bound - (if pc'.polling then 1 else 0) == pc.bound
    else pc'.i == pc.i + 1 && pc'.bound == 0 && !pc'.polling && !pc.polling
  }

  lemma {:induction false} PollsRun(states: seq<State>, events: seq<Event>, j: nat, t: TxId)
    requires IsRun(states, events) && j < |states|
    ensures PollsOk(states, events, j, t)
  {
    if j > 0 {
      PollsRun(states, events, j - 1, t);
      hide Next, PollsOk;
      PollsNext(states, events, j - 1, t);
    }
  }

  /** An access fails its transaction exactly when it is refused. */
  lemma FailsWhenRefused(s: State, t: TxId, polls: nat)
    requires Shapes(s) && Enabled(s, Advance(t)) && !Failing(s.txns[t])
    requires var pc := s.txns[t].pc; pc.Locking? ==> polls == pc.bound
    ensures |Next(s, Advance(t)).txns| == |s.txns|
    ensures Failing(Next(s, Advance(t)).txns[t]) <==> Refused(s, s.txns[t], polls)
  {
    AdvanceTx(s, t);
    assert Shape(s.txns[t], s.clock);
  }

  lemma FailingStays(states: seq<State>, events: seq<Event>, j: nat, t: TxId)
    requires IsRun(states, events) && j < |events| && t < |states[j].txns| && Failing(states[j].txns[t])
    ensures t < |states[j + 1].txns| && Failing(states[j + 1].txns[t]) && !RefusedAt(states, events, j, t)
  {
    var s, e := states[j], events[j];
    if !e.Begin? {
      NextTx(s, e);
      assert Shape(s.txns[e.t], s.clock);
    }
  }

  lemma RefusalStep(states: seq<State>, events: seq<Event>, j: nat, t: TxId)
    requires IsRun(states, events) && j < |events| && t < |states[j].txns| && !Failing(states[j].txns[t])
    ensures t < |states[j + 1].txns| && (Failing(states[j + 1].txns[t]) <==> RefusedAt(states, events, j, t))
  {
    var s, e := states[j], events[j];
    PollsRun(states, events, j, t);
    if e == Advance(t) {
      var T := s.txns[t];
      var polls := if T.pc.Locking? then Polls(states, events, j + 1, t, T.pc.i) else 0;
      hide Next;
      FailsWhenRefused(s, t, polls);
    } else if !e.Begin? {
      NextTx(s, e);
      assert Shape(s.txns[e.t], s.clock);
    }
  }

  /** In every run, a transaction is on its way to abort, or aborted, exactly when one of its accesses was
      refused. */
  lemma {:induction false} FailsIffRefused(states: seq<State>, events: seq<Event>, j: nat, t: TxId)
    requires IsRun(states, events) && j < |states|
    ensures t < |states[j].txns| && Failing(states[j].txns[t]) <==>
              exists p :: 0 <= p < j && RefusedAt(states, events, p, t)
  {
    hide Next, RefusedAt, Failing;
    if j > 0 {
      FailsIffRefused(states, events, j - 1, t);
      if t >= |states[j - 1].txns| {
        NotYetRefused(states, events, j - 1, t);
      } else if Failing(states[j - 1].txns[t]) {
        FailingStays(states, events, j - 1, t);
      } else {
        RefusalStep(states, events, j - 1, t);
      }
    }
  }

  /** A transaction that just began, or has not, was not refused. */
  lemma NotYetRefused(states: seq<State>, events: seq<Event>, j: nat, t: TxId)
    requires IsRun(states, events) && j < |events| && t >= |states[j].txns|
    ensures !RefusedAt(states, events, j, t)
    ensures t < |states[j + 1].txns| ==> !Failing(states[j + 1].txns[t])
  {
    if !events[j].Begin? {
      NextTx(states[j], events[j]);
    }
  }

  /** So a transaction that is over committed exactly when none of its accesses was refused. */
  lemma CommitsIffNeverRefused(states: seq<State>, events: seq<Event>, j: nat, t: TxId)
    requires IsRun(states, events) && j < |states| && t < |states[j].txns| && Finished(states[j].txns[t])
    ensures states[j].txns[t].pc.Committed? <==> forall p :: 0 <= p < j ==> !RefusedAt(states, events, p, t)
  {
    FailsIffRefused(states, events, j, t);
  }

  // ---------------------------------------------------------------- one by one

  /** A read aborts only because the lock bit of its word was set when it loaded it, or the version there
      was above rv when it loaded that; this holds for words of the own buffer too. */
  lemma ReadFails(states: seq<State>, events: seq<Event>, p: nat, t: TxId)
    requires IsRun(states, events) && p < |events| && t < |states[p].txns| && Reading(states[p].txns[t])
    requires t < |states[p + 1].txns| && states[p + 1].txns[t].pc.Aborted?
    ensures var s, T := states[p], states[p].txns[t];
            && Accesses(states, events, p, t) && Sized(s)
            && if T.pc.Copied? then FindLock(T.pc.a) in s.locks else s.version[FindLock(T.pc.a)] > T.rv
  {
    RefusalStep(states, events, p, t);
  }

  /** A transaction gives up a lock only after four polls of it, when its last access, a poll or an
      exchange, found the bit set. */
  lemma GivesUp(states: seq<State>, events: seq<Event>, p: nat, t: TxId)
    requires IsRun(states, events) && p < |events| && t < |states[p].txns| && states[p].txns[t].pc.Locking?
    requires t < |states[p + 1].txns| && states[p + 1].txns[t].pc.Unlocking?
    ensures var s, T := states[p], states[p].txns[t];
            && Accesses(states, events, p, t) && T.pc.i < |T.ws| && FindLock(T.ws[T.pc.i]) in s.locks
            && Polls(states, events, p + 1, t, T.pc.i) == 4
  {
    RefusalStep(states, events, p, t);
  }

  /** What each access to a lock that a transaction wants does: an exchange of a clear bit takes the lock,
      a poll of a clear bit is followed by an exchange, and a set bit by another poll, until the fourth. */
  lemma LockAccess(states: seq<State>, events: seq<Event>, p: nat, t: TxId)
    requires IsRun(states, events) && Accesses(states, events, p, t) && states[p].txns[t].pc.Locking?
    requires states[p].txns[t].pc.i < |states[p].txns[t].ws|
    ensures var s, s', pc := states[p], states[p + 1], states[p].txns[t].pc;
            var k := FindLock(s.txns[t].ws[pc.i]);
            && |s'.txns| == |s.txns| && s'.mem == s.mem && s'.version == s.version && s'.clock == s.clock
            && var pc' := s'.txns[t].pc;
            if k !in s.locks && !pc.polling then
              s'.locks == s.locks[k := t] && pc' == Locking(pc.i + 1, 0, false)
            else
              && s'.locks == s.locks
              && if k !in s.locks then pc'.Locking? && pc'.i == pc.i && !pc'.polling
                 else if Polls(states, events, p + 1, t, pc.i) == 4 then pc' == Unlocking(0, pc.i)
                 else pc'.Locking? && pc'.i == pc.i && pc'.polling
  {
    PollsRun(states, events, p, t);
    assert Shape(states[p].txns[t], states[p].clock);
  }

  /** Validation fails only because the lock of the read node it is at was held, or its version was above
      rv, when it loaded it. */
  lemma ValidationFails(states: seq<State>, events: seq<Event>, p: nat, t: TxId)
    requires IsRun(states, events) && p < |events| && t < |states[p].txns| && states[p].txns[t].pc.Validating?
    requires t < |states[p + 1].txns| && states[p + 1].txns[t].pc.Unlocking?
    ensures var s, T := states[p], states[p].txns[t];
            && Accesses(states, events, p, t) && Sized(s) && T.pc.j < |T.rs|
            && if T.pc.loaded then s.version[FindLock(T.rs[T.pc.j])] > T.rv else FindLock(T.rs[T.pc.j]) in s.locks
  {
    RefusalStep(states, events, p, t);
  }

  /** All words of the read set are free and not newer than the transaction. */
  ghost predicate ReadSetFresh(s: State, T: Tx)
    requires Sized(s)
  {
    forall a :: a in T.rs ==> FindLock(a) !in s.locks && s.version[FindLock(a)] <= T.rv
  }

  /** And it succeeds when it has no such cause: a transaction that took its locks and drew a version
      commits, if at each of its accesses until its end the words it read were free and not newer than rv. */
  lemma CommitsWhenFresh(states: seq<State>, events: seq<Event>, i: nat, j: nat, t: TxId)
    requires IsRun(states, events) && i <= j < |states| && t < |states[i].txns| && states[i].txns[t].pc.Validating?
    requires forall p :: i <= p < j && Accesses(states, events, p, t) ==>
               Sized(states[p]) && ReadSetFresh(states[p], states[p].txns[t])
    requires t < |states[j].txns| && Finished(states[j].txns[t])
    ensures states[j].txns[t].pc.Committed?
  {
    FailsIffRefused(states, events, i, t);
    FailsIffRefused(states, events, j, t);
    forall p | i <= p < j ensures !RefusedAt(states, events, p, t) {
      if Accesses(states, events, p, t) {
        FreshNotRefused(states, events, i, p, t);
      }
    }
  }

  lemma FreshNotRefused(states: seq<State>, events: seq<Event>, i: nat, p: nat, t: TxId)
    requires IsRun(states, events) && i <= p < |events| && t < |states[i].txns| && states[i].txns[t].pc.Validating?
    requires t < |states[p].txns| && Sized(states[p]) && ReadSetFresh(states[p], states[p].txns[t])
    ensures !RefusedAt(states, events, p, t)
  {
    RunInv(states, events, i);
    RunInv(states, events, p);
    assert Shape(states[i].txns[t], states[i].clock) && Shape(states[p].txns[t], states[p].clock);
    SealedRun(states, events, i, p, t);
  }

  // ---------------------------------------------------------------- longer runs

  lemma {:induction false} PollsPrefix(states: seq<State>, events: seq<Event>, states': seq<State>, events': seq<Event>,
      j: nat, t: TxId, i: nat)
    requires |states| == |events| + 1 && |states'| == |events'| + 1 && states <= states' && events <= events'
    requires j <= |events|
    ensures Polls(states', events', j, t, i) == Polls(states, events, j, t, i)
  {
    if j > 0 {
      PollsPrefix(states, events, states', events', j - 1, t, i);
    }
  }

  /** Whether a step was a refusal does not depend on what comes later. */
  lemma RefusedPrefix(states: seq<State>, events: seq<Event>, states': seq<State>, events': seq<Event>, p: nat, t: TxId)
    requires |states| == |events| + 1 && |states'| == |events'| + 1 && states <= states' && events <= events'
    requires p < |events|
    ensures RefusedAt(states', events', p, t) <==> RefusedAt(states, events, p, t)
  {
    if t < |states[p].txns| && states[p].txns[t].pc.Locking? {
      PollsPrefix(states, events, states', events', p + 1, t, states[p].txns[t].pc.i);
    }
  }

  /** What a stretch of a run makes of a transaction that was not failing when it began. */
  lemma FailsSince(states: seq<State>, events: seq<Event>, states': seq<State>, events': seq<Event>, t: TxId)
    requires IsRun(states, events) && IsRun(states', events') && states <= states' && events <= events'
    requires t < |states[|events|].txns| && !Failing(states[|events|].txns[t])
    ensures t < |states'[|events'|].txns| && Failing(states'[|events'|].txns[t]) <==>
              exists p :: |events| <= p < |events'| && RefusedAt(states', events', p, t)
  {
    hide IsRun, RefusedAt, Failing;
    assert |states| == |events| + 1 && |states'| == |events'| + 1 by {
      RunLength(states, events);
      RunLength(states', events');
    }
    FailsIffRefused(states, events, |events|, t);
    FailsIffRefused(states', events', |events'|, t);
    forall p | 0 <= p < |events| ensures !RefusedAt(states', events', p, t) {
      RefusedPrefix(states, events, states', events', p, t);
    }
  }

  lemma RunLength(states: seq<State>, events: seq<Event>)
    requires IsRun(states, events)
    ensures |states| == |events| + 1
  {
  }
}
