/** What later steps keep: decisions, finished reads, and the silence of aborted transactions. */
module Tl2Runs {
  import opened Striping
  import opened Tl2
  import opened Snapshots
  import opened Tl2Invariant
  import opened Tl2Trace
  import opened Tl2Theorems
  import opened Reference
  import opened Serializability

  // ---------------------------------------------------------------- decisions are final

  lemma DecidedStep(s: State, e: Event, t: TxId)
    requires Shapes(s) && Enabled(s, e) && t < |s.txns| && Decided(s.txns[t])
    ensures t < |Next(s, e).txns| && Decided(Next(s, e).txns[t])
  {
    if !e.Begin? {
      NextTx(s, e);
      assert Shape(s.txns[e.t], s.clock);
    }
  }

  lemma {:induction false} DecidedForever(states: seq<State>, events: seq<Event>, i: nat, j: nat, t: TxId)
    requires IsRun(states, events) && i <= j < |states| && t < |states[i].txns| && Decided(states[i].txns[t])
    ensures t < |states[j].txns| && Decided(states[j].txns[t])
  {
    hide Next;
    if i < j {
      DecidedForever(states, events, i, j - 1, t);
      DecidedStep(states[j - 1], events[j - 1], t);
    }
  }

  lemma SharedStep(s: State, e: Event)
    requires Shapes(s) && Enabled(s, e) && (Next(s, e).mem != s.mem || Next(s, e).version != s.version)
    ensures e.Advance? && s.txns[e.t].pc.Storing?
  {
    assert e.Advance? ==> Shape(s.txns[e.t], s.clock);
  }

  /** No step of a transaction that aborts ever changed a word or a version. */
  lemma AbortedIsSilent(states: seq<State>, events: seq<Event>, i: nat, j: nat)
    requires IsRun(states, events) && i < j < |states| && !events[i].Begin?
    requires events[i].t < |states[j].txns| && states[j].txns[events[i].t].pc.Aborted?
    ensures states[i + 1].mem == states[i].mem && states[i + 1].version == states[i].version
  {
    var t := events[i].t;
    if states[i + 1].mem != states[i].mem || states[i + 1].version != states[i].version {
      SharedStep(states[i], events[i]);
      DecidedForever(states, events, i, j, t);
    }
  }

  // ---------------------------------------------------------------- finished reads are final

  ghost predicate SameHistoryAt(h: seq<Memory>, h': seq<Memory>, rv: nat, a: Addr)
    requires rv < |h| && rv < |h'|
  {
    h[0] == h'[0] &&
    forall v :: 0 < v <= rv ==> (a in h[v] <==> a in h'[v]) && (a in h[v] ==> h[v][a] == h'[v][a])
  }

  /** A step changes what versions up to rv say about an address only under its lock. */
  lemma HistoryStep(s: State, e: Event, rv: nat, a: Addr)
    requires Inv(s) && Enabled(s, e) && rv <= s.clock && Settled(s, FindLock(a), rv)
    ensures rv < |Next(s, e).hist| && SameHistoryAt(s.hist, Next(s, e).hist, rv, a)
    ensures Settled(Next(s, e), FindLock(a), rv)
  {
    if e.Advance? {
      HistoryAdvance(s, e.t, rv, a);
    } else if e.Begin? {
      BeginSettled(s, e.ro);
    }
  }

  lemma HistoryDecide(s: State, t: TxId, rv: nat, a: Addr)
    requires Inv(s) && Decides(s, t) && rv <= s.clock && Settled(s, FindLock(a), rv)
    ensures SameHistoryAt(s.hist, AfterDecide(s, t).hist, rv, a) && Settled(AfterDecide(s, t), FindLock(a), rv)
  {
    DeciderHolds(s, t);
    DecideSettled(s, t);
  }

  lemma HistoryTake(s: State, t: TxId, rv: nat, a: Addr)
    requires Shapes(s) && TakesVersion(s, t) && rv <= s.clock && Settled(s, FindLock(a), rv)
    ensures SameHistoryAt(s.hist, TakeVersion(s, t).hist, rv, a) && Settled(TakeVersion(s, t), FindLock(a), rv)
  {
    TakeSettled(s, t, FindLock(a), rv);
  }

  /** Every other step leaves the history alone, and takes a lock only before it has a version. */
  lemma HistoryKept(s: State, t: TxId, k: int, v: int)
    requires Shapes(s) && Enabled(s, Advance(t)) && !TakesVersion(s, t) && !Decides(s, t) && Settled(s, k, v)
    ensures Next(s, Advance(t)).hist == s.hist && Settled(Next(s, Advance(t)), k, v)
  {
    assert Shape(s.txns[t], s.clock);
  }

  lemma HistoryAdvance(s: State, t: TxId, rv: nat, a: Addr)
    requires Inv(s) && Enabled(s, Advance(t)) && rv <= s.clock && Settled(s, FindLock(a), rv)
    ensures var s' := Next(s, Advance(t));
            rv < |s'.hist| && SameHistoryAt(s.hist, s'.hist, rv, a) && Settled(s', FindLock(a), rv)
  {
    if Decides(s, t) {
      HistoryDecide(s, t, rv, a);
      assert Next(s, Advance(t)) == AfterDecide(s, t);
    } else if TakesVersion(s, t) {
      HistoryTake(s, t, rv, a);
      assert Next(s, Advance(t)) == TakeVersion(s, t);
    } else {
      HistoryKept(s, t, FindLock(a), rv);
    }
  }

  lemma SameHistoryTrans(h0: seq<Memory>, h1: seq<Memory>, h2: seq<Memory>, rv: nat, a: Addr)
    requires rv < |h0| && rv < |h1| && rv < |h2| && SameHistoryAt(h0, h1, rv, a) && SameHistoryAt(h1, h2, rv, a)
    ensures SameHistoryAt(h0, h2, rv, a)
  {
  }

  lemma {:induction false} HistoryRun(states: seq<State>, events: seq<Event>, i: nat, j: nat, rv: nat, a: Addr)
    requires IsRun(states, events) && i <= j < |states| && rv <= states[i].clock
    requires Settled(states[i], FindLock(a), rv)
    ensures rv < |states[i].hist| && rv < |states[j].hist| && rv <= states[j].clock
    ensures SameHistoryAt(states[i].hist, states[j].hist, rv, a) && Settled(states[j], FindLock(a), rv)
  {
    hide Next;
    RunInv(states, events, i);
    if i < j {
      HistoryRun(states, events, i, j - 1, rv, a);
      HistoryRunStep(states, events, j - 1, rv, a);
      SameHistoryTrans(states[i].hist, states[j - 1].hist, states[j].hist, rv, a);
    }
  }

  lemma HistoryRunStep(states: seq<State>, events: seq<Event>, i: nat, rv: nat, a: Addr)
    requires IsRun(states, events) && i < |events| && rv <= states[i].clock
    requires Settled(states[i], FindLock(a), rv)
    ensures rv < |states[i].hist| && rv < |states[i + 1].hist| && rv <= states[i + 1].clock
    ensures SameHistoryAt(states[i].hist, states[i + 1].hist, rv, a) && Settled(states[i + 1], FindLock(a), rv)
  {
    RunInv(states, events, i);
    HistoryStep(states[i], events[i], rv, a);
    VersionsMonotone(states, events, i, 0);
  }

  /** Whatever others do after a read finished, the snapshot it is measured against keeps the value
      at its address, and the read keeps being stale or not. */
  lemma OpacityIsStable(states: seq<State>, events: seq<Event>, i: nat, j: nat, t: TxId, n: nat)
    requires IsRun(states, events) && i <= j < |states|
    requires t < |states[i].txns| && n < |states[i].txns[t].ops|
    requires states[i].txns[t].ops[n].Read? && !states[i].txns[t].ops[n].own
    ensures var s, s' := states[i], states[j]; var rv := s.txns[t].rv; var op := s.txns[t].ops[n];
            && rv < |s.hist| && rv < |s'.hist|
            && Snapshot(s'.hist, rv, op.a) == Snapshot(s.hist, rv, op.a)
            && (Stale(s'.hist, rv, op) <==> Stale(s.hist, rv, op))
  {
    RunInv(states, events, i);
    var s := states[i];
    var rv, op := s.txns[t].rv, s.txns[t].ops[n];
    assert Shape(s.txns[t], s.clock) && TxReadsOk(s, s.txns[t]);
    assert OpOk(s, rv, op);
    HistoryRun(states, events, i, j, rv, op.a);
    SnapshotFrame(s.hist, states[j].hist, rv, op.a);
  }

  // ---------------------------------------------------------------- from a copy to its read

  /** The read that a copy of `a` by transaction T leads to, if it is accepted. */
  function CopyOp(s: State, T: Tx, a: Addr): Op {
    if !T.ro && a in T.buf then Read(a, T.buf[a], true, T.rv)
    else Read(a, Lookup(s.mem, a), false, AsOf(s, T.rv, a))
  }

  predicate InHand(pc: Pc, op: Op) {
    op.Read? &&
    ((pc.Copied? && op == Read(pc.a, pc.w, pc.own, pc.asof)) || (pc.Tested? && op == Read(pc.a, pc.w, pc.own, pc.asof)))
  }

  /** What has become of a copy for `op` that transaction T made: nothing, or it is in hand, or done. */
  ghost predicate Copying(T: Tx, T': Tx, op: Op) {
    && T'.rv == T.rv && |T.ops| <= |T'.ops|
    && (if |T'.ops| == |T.ops| then T'.pc.Aborted? || InHand(T'.pc, op) else T'.ops[|T.ops|] == op)
  }

  lemma CopyingAdvance(s: State, t: TxId, T: Tx, op: Op)
    requires Shapes(s) && Enabled(s, Advance(t)) && Copying(T, s.txns[t], op)
    ensures |Next(s, Advance(t)).txns| == |s.txns| && Copying(T, Next(s, Advance(t)).txns[t], op)
  {
    AdvanceTx(s, t);
  }

  lemma CopyingStep(s: State, e: Event, t: TxId, T: Tx, op: Op)
    requires Shapes(s) && Enabled(s, e) && t < |s.txns| && Copying(T, s.txns[t], op)
    ensures t < |Next(s, e).txns| && Copying(T, Next(s, e).txns[t], op)
  {
    if !e.Begin? {
      NextTx(s, e);
      if e.Advance? && e.t == t {
        CopyingAdvance(s, t, T, op);
      }
    }
  }

  lemma {:induction false} CopyingRun(states: seq<State>, events: seq<Event>, i: nat, j: nat, t: TxId, T: Tx, op: Op)
    requires IsRun(states, events) && i <= j < |states| && t < |states[i].txns| && Copying(T, states[i].txns[t], op)
    ensures t < |states[j].txns| && Copying(T, states[j].txns[t], op)
  {
    hide Next, Copying;
    if i < j {
      CopyingRun(states, events, i, j - 1, t, T, op);
      CopyingStep(states[j - 1], events[j - 1], t, T, op);
    }
  }

  /** Step i is the copy for operation n of transaction t. */
  ghost predicate CopiesFor(states: seq<State>, events: seq<Event>, i: int, t: TxId, n: int, a: Addr)
    requires |states| == |events| + 1
  {
    0 <= i < |events| && events[i] == CopyWord(t, a) && t < |states[i].txns| && |states[i].txns[t].ops| == n
  }

  /** The operation that follows a copy, if any, is the read that the copy leads to. */
  lemma CopyGivesRead(states: seq<State>, events: seq<Event>, i: nat, j: nat, t: TxId, n: nat, a: Addr)
    requires IsRun(states, events) && CopiesFor(states, events, i, t, n, a) && i < j < |states|
    ensures t < |states[j].txns| && states[j].txns[t].rv == states[i].txns[t].rv
    ensures |states[j].txns[t].ops| > n ==> states[j].txns[t].ops[n] == CopyOp(states[i], states[i].txns[t], a)
  {
    var T := states[i].txns[t];
    assert states[i + 1].txns[t] == CopyTx(states[i], T, a);
    CopyingRun(states, events, i + 1, j, t, T, CopyOp(states[i], T, a));
  }

  /** A copy from memory made while the lock of the word is free, at step i, is the value of the
      reader's version, whatever happens before the two loads that validate it. */
  lemma FreeCopyIsCurrent(states: seq<State>, events: seq<Event>, i: nat, j: nat, t: TxId, a: Addr)
    requires IsRun(states, events) && i < j < |states| && events[i] == CopyWord(t, a)
    requires FindLock(a) !in states[i].locks
    requires t < |states[i].txns| && (states[i].txns[t].ro || a !in states[i].txns[t].buf)
    ensures t < |states[j].txns|
    ensures var n, s, T := |states[i].txns[t].ops|, states[j], states[j].txns[t];
            |T.ops| > n ==>
              T.rv < |s.hist| && T.ops[n].Read? && T.ops[n].a == a && T.ops[n].w == Snapshot(s.hist, T.rv, a)
  {
    var n := |states[i].txns[t].ops|;
    CopyGivesRead(states, events, i, j, t, n, a);
    if |states[j].txns[t].ops| > n {
      ReadGuarantee(states, events, j, t, n);
    }
  }

  /** Every read in hand, and every finished read, goes back to its copy. */
  ghost predicate CopyFound(states: seq<State>, events: seq<Event>, j: nat, t: TxId)
    requires |states| == |events| + 1 && j < |states|
  {
    t < |states[j].txns| ==>
      var T := states[j].txns[t];
      && (Reading(T) ==> exists i :: i < j && CopiesFor(states, events, i, t, |T.ops|, T.pc.a))
      && (forall n :: 0 <= n < |T.ops| && T.ops[n].Read? ==>
            exists i :: i < j && CopiesFor(states, events, i, t, n, T.ops[n].a))
  }

  lemma CopyFoundStep(states: seq<State>, events: seq<Event>, j: nat, t: TxId)
    requires IsRun(states, events) && j < |events| && CopyFound(states, events, j, t)
    ensures CopyFound(states, events, j + 1, t)
  {
    var s, e := states[j], events[j];
    if e.Begin? {
      assert t < |s.txns| ==> states[j + 1].txns[t] == s.txns[t];
    } else {
      NextTx(s, e);
      if e.t == t {
        CopyFoundOwn(states, events, j, t);
      }
    }
  }

  lemma CopyFoundOwn(states: seq<State>, events: seq<Event>, j: nat, t: TxId)
    requires IsRun(states, events) && j < |events| && !events[j].Begin? && events[j].t == t
    requires CopyFound(states, events, j, t)
    ensures CopyFound(states, events, j + 1, t)
  {
    var s, e := states[j], events[j];
    var T := s.txns[t];
    match e
    case CopyWord(_, a) => assert CopiesFor(states, events, j, t, |T.ops|, a);
    case Advance(_) => CopyFoundAdvance(states, events, j, t);
    case _ =>
  }

  lemma CopyFoundAdvance(states: seq<State>, events: seq<Event>, j: nat, t: TxId)
    requires IsRun(states, events) && j < |events| && events[j] == Advance(t) && CopyFound(states, events, j, t)
    ensures CopyFound(states, events, j + 1, t)
  {
    AdvanceTx(states[j], t);
    AdvanceReads(states[j], t);
    hide Next, CopiesFor;
  }

  lemma AdvanceReads(s: State, t: TxId)
    requires Shapes(s) && Enabled(s, Advance(t))
    ensures var s' := Next(s, Advance(t));
            |s'.txns| == |s.txns| &&
            (Reading(s'.txns[t]) ==>
               Reading(s.txns[t]) && s'.txns[t].pc.a == s.txns[t].pc.a && s'.txns[t].ops == s.txns[t].ops)
  {
    if InEnd(s.txns[t]) {
      EndingReadsNothing(s, t);
    }
  }

  lemma EndingReadsNothing(s: State, t: TxId)
    requires Shapes(s) && t < |s.txns| && InEnd(s.txns[t])
    ensures |Next(s, Advance(t)).txns| == |s.txns| && !Reading(Next(s, Advance(t)).txns[t])
  {
    assert Shape(s.txns[t], s.clock);
  }

  lemma {:induction false} CopyFoundRun(states: seq<State>, events: seq<Event>, j: nat, t: TxId)
    requires IsRun(states, events) && j < |states|
    ensures CopyFound(states, events, j, t)
  {
    hide Next, CopyFound;
    if j == 0 {
      NothingFound(states, events, t);
    } else {
      CopyFoundRun(states, events, j - 1, t);
      CopyFoundStep(states, events, j - 1, t);
    }
  }

  lemma NothingFound(states: seq<State>, events: seq<Event>, t: TxId)
    requires IsRun(states, events)
    ensures CopyFound(states, events, 0, t)
  {
  }

  // ---------------------------------------------------------------- stale reads, by the schedule

  /** A transaction that drew a version changes its buffer no more. */
  lemma SealedStep(s: State, e: Event, u: TxId)
    requires Shapes(s) && Enabled(s, e) && u < |s.txns| && s.txns[u].wv > 0
    ensures u < |Next(s, e).txns| && Next(s, e).txns[u].wv == s.txns[u].wv && Next(s, e).txns[u].buf == s.txns[u].buf
  {
    assert Shape(s.txns[u], s.clock);
    if !e.Begin? {
      NextTx(s, e);
      if e.Advance? {
        AdvanceTx(s, e.t);
        if e.t == u {
          SealedAdvance(s, u);
        }
      }
    }
  }

  lemma SealedAdvance(s: State, u: TxId)
    requires Shapes(s) && Enabled(s, Advance(u)) && s.txns[u].wv > 0
    ensures |Next(s, Advance(u)).txns| == |s.txns| && Next(s, Advance(u)).txns[u].wv == s.txns[u].wv
  {
    assert Shape(s.txns[u], s.clock);
  }

  lemma {:induction false} SealedRun(states: seq<State>, events: seq<Event>, i: nat, j: nat, u: TxId)
    requires IsRun(states, events) && i <= j < |states| && u < |states[i].txns| && states[i].txns[u].wv > 0
    ensures u < |states[j].txns| && states[j].txns[u].wv == states[i].txns[u].wv
    ensures states[j].txns[u].buf == states[i].txns[u].buf
  {
    hide Next;
    if i < j {
      SealedRun(states, events, i, j - 1, u);
      SealedStep(states[j - 1], events[j - 1], u);
    }
  }

  /** Step i copies a word for operation n of transaction t while the owner of the lock drew a version
      that t may see, has yet to store another value there, and turns out, in state j, to do so. */
  ghost predicate OverlapsAt(states: seq<State>, events: seq<Event>, i: int, j: nat, t: TxId, n: int, a: Addr)
    requires |states| == |events| + 1 && j < |states|
  {
    CopiesFor(states, events, i, t, n, a) && i < j &&
    var s := states[i];
    Overlaps(s, s.txns[t].rv, a) &&
    var u := s.locks[FindLock(a)];
    u < |states[j].txns| && Decided(states[j].txns[u]) && s.txns[u].buf[a] != Lookup(s.mem, a)
  }

  lemma StaleByCopy(states: seq<State>, events: seq<Event>, i: nat, j: nat, t: TxId, n: nat)
    requires IsRun(states, events) && i < j < |states| && t < |states[j].txns| && n < |states[j].txns[t].ops|
    requires states[j].txns[t].ops[n].Read? && !states[j].txns[t].ops[n].own
    requires CopiesFor(states, events, i, t, n, states[j].txns[t].ops[n].a)
    ensures var T := states[j].txns[t];
            Stale(states[j].hist, T.rv, T.ops[n]) <==> OverlapsAt(states, events, i, j, t, n, T.ops[n].a)
  {
    var op := states[j].txns[t].ops[n];
    var s, rv := states[i], states[i].txns[t].rv;
    CopyGivesRead(states, events, i, j, t, n, op.a);
    assert op == CopyOp(s, s.txns[t], op.a);
    if Overlaps(s, rv, op.a) {
      var u := s.locks[FindLock(op.a)];
      SealedRun(states, events, i, j, u);
      VersionHistory(states, events, j, u);
    }
  }

  lemma VersionHistory(states: seq<State>, events: seq<Event>, j: nat, u: TxId)
    requires IsRun(states, events) && j < |states| && u < |states[j].txns| && states[j].txns[u].wv > 0
    ensures var U := states[j].txns[u];
            U.wv < |states[j].hist| && states[j].hist[U.wv] == if Decided(U) then U.buf else map[]
  {
    RunInv(states, events, j);
    assert Shape(states[j].txns[u], states[j].clock);
  }

  /** In every run, a finished read is stale exactly when its copy was made, at some step, under the
      lock of a writer with a version the reader may see, before that writer stored the word, when
      the writer was bound to store another value than memory held. */
  lemma StaleBySchedule(states: seq<State>, events: seq<Event>, j: nat, t: TxId, n: nat)
    requires IsRun(states, events) && j < |states| && t < |states[j].txns| && n < |states[j].txns[t].ops|
    requires states[j].txns[t].ops[n].Read? && !states[j].txns[t].ops[n].own
    ensures var T := states[j].txns[t];
            Stale(states[j].hist, T.rv, T.ops[n]) <==>
              exists i :: OverlapsAt(states, events, i, j, t, n, T.ops[n].a)
  {
    var T := states[j].txns[t];
    var a := T.ops[n].a;
    CopyFoundRun(states, events, j, t);
    var i :| i < j && CopiesFor(states, events, i, t, n, a);
    hide Stale, OverlapsAt, IsRun;
    StaleByCopy(states, events, i, j, t, n);
    forall k | OverlapsAt(states, events, k, j, t, n, a) ensures Stale(states[j].hist, T.rv, T.ops[n]) {
      OverlapsCopies(states, events, k, j, t, n, a);
      StaleByCopy(states, events, k, j, t, n);
    }
  }

  lemma OverlapsCopies(states: seq<State>, events: seq<Event>, i: int, j: nat, t: TxId, n: int, a: Addr)
    requires |states| == |events| + 1 && j < |states| && OverlapsAt(states, events, i, j, t, n, a)
    ensures CopiesFor(states, events, i, t, n, a) && i < j
  {
  }

  /** Some read of the transaction came from such a copy. */
  ghost predicate Torn(states: seq<State>, events: seq<Event>, j: nat, t: TxId)
    requires |states| == |events| + 1 && j < |states| && t < |states[j].txns|
  {
    exists n, i :: TornAt(states, events, j, t, n, i)
  }

  ghost predicate TornAt(states: seq<State>, events: seq<Event>, j: nat, t: TxId, n: int, i: int)
    requires |states| == |events| + 1 && j < |states| && t < |states[j].txns|
  {
    var ops := states[j].txns[t].ops;
    0 <= n < |ops| && ops[n].Read? && !ops[n].own && OverlapsAt(states, events, i, j, t, n, ops[n].a)
  }

  lemma StaleIffTorn(states: seq<State>, events: seq<Event>, j: nat, t: TxId)
    requires IsRun(states, events) && j < |states| && t < |states[j].txns|
    ensures HasStale(states[j], states[j].txns[t]) <==> Torn(states, events, j, t)
  {
    var s, T := states[j], states[j].txns[t];
    hide OverlapsAt, IsRun;
    if HasStale(s, T) {
      var n :| 0 <= n < |T.ops| && Stale(s.hist, T.rv, T.ops[n]);
      StaleBySchedule(states, events, j, t, n);
      var i :| OverlapsAt(states, events, i, j, t, n, T.ops[n].a);
      assert TornAt(states, events, j, t, n, i);
    }
    if Torn(states, events, j, t) {
      var n, i :| TornAt(states, events, j, t, n, i);
      StaleBySchedule(states, events, j, t, n);
    }
  }

  /** The committed transactions replay in version order on the reference implementation exactly when
      the schedule let none of their copies overlap the store of another value by a writer they may
      see. */
  lemma SerializableBySchedule(states: seq<State>, events: seq<Event>, j: nat, order: seq<TxId>)
    requires IsRun(states, events) && j < |states| && SerialOrder(states[j], order)
    ensures |states[j].hist| > 0 && states[j].hist[0] == states[0].mem
    ensures SerialReplays(states[j], order) <==> forall n :: 0 <= n < |order| ==> !Torn(states, events, j, order[n])
  {
    Serializable(states, events, j, order);
    hide SerialReplays, HasStale, Torn, IsRun;
    forall n | 0 <= n < |order|
      ensures HasStale(states[j], states[j].txns[order[n]]) <==> Torn(states, events, j, order[n])
    {
      StaleIffTorn(states, events, j, order[n]);
    }
  }

  /** The same for what a single transaction, whatever became of it, saw of its snapshot. */
  lemma OpacityBySchedule(states: seq<State>, events: seq<Event>, j: nat, t: TxId)
    requires IsRun(states, events) && j < |states| && t < |states[j].txns|
    ensures var s := states[j]; var T := s.txns[t];
            T.rv < |s.hist| && (Replays(SnapshotMemory(s.hist, T.rv), T.ops) <==> !Torn(states, events, j, t))
  {
    Opacity(states, events, j, t);
    StaleIffTorn(states, events, j, t);
  }

  // ---------------------------------------------------------------- guarded copies

  /** A copy is guarded when the lock is free at the copy, or nobody steps in before the load of
      the lock bit. */
  ghost predicate Guarded(states: seq<State>, events: seq<Event>, i: int)
    requires |states| == |events| + 1 && 0 <= i < |events|
  {
    events[i].CopyWord? ==>
      FindLock(events[i].a) !in states[i].locks ||
      (i + 1 < |events| ==> events[i + 1] == Advance(events[i].t))
  }

  ghost predicate GuardedRun(states: seq<State>, events: seq<Event>) {
    IsRun(states, events) && forall i :: 0 <= i < |events| ==> Guarded(states, events, i)
  }

  ghost predicate Current(T: Tx) {
    && (forall n :: 0 <= n < |T.ops| && T.ops[n].Read? && !T.ops[n].own ==> T.ops[n].asof == T.rv)
    && (T.pc.Tested? && !T.pc.own ==> T.pc.asof == T.rv)
  }

  /** An overlapping copy exists only right after it was made, under a held lock. */
  ghost predicate CurrentAt(states: seq<State>, events: seq<Event>, i: nat)
    requires |states| == |events| + 1 && i < |states|
  {
    forall t :: 0 <= t < |states[i].txns| ==>
      && Current(states[i].txns[t])
      && (states[i].txns[t].pc.Copied? && !states[i].txns[t].pc.own &&
          states[i].txns[t].pc.asof != states[i].txns[t].rv ==>
            FindLock(states[i].txns[t].pc.a) in states[i].locks && (i < |events| ==> events[i] == Advance(t)))
  }

  lemma CurrentReading(s: State, t: TxId)
    requires Sized(s) && t < |s.txns| && Reading(s.txns[t]) && Current(s.txns[t])
    requires s.txns[t].pc.Copied? && !s.txns[t].pc.own && s.txns[t].pc.asof != s.txns[t].rv ==>
               FindLock(s.txns[t].pc.a) in s.locks
    ensures var T' := ReadingStep(s, t).txns[t]; Current(T') && !T'.pc.Copied?
  {
  }

  lemma CurrentAdvance(s: State, t: TxId)
    requires Shapes(s) && Enabled(s, Advance(t)) && Current(s.txns[t])
    requires s.txns[t].pc.Copied? && !s.txns[t].pc.own && s.txns[t].pc.asof != s.txns[t].rv ==>
               FindLock(s.txns[t].pc.a) in s.locks
    ensures var s' := Next(s, Advance(t)); |s'.txns| == |s.txns| && Current(s'.txns[t]) && !s'.txns[t].pc.Copied?
  {
    AdvanceTx(s, t);
    if Reading(s.txns[t]) {
      CurrentReading(s, t);
    } else {
      hide Next;
      EndingReadsNothing(s, t);
    }
  }

  lemma CurrentStep(states: seq<State>, events: seq<Event>, i: nat)
    requires GuardedRun(states, events) && i < |events| && CurrentAt(states, events, i)
    ensures CurrentAt(states, events, i + 1)
  {
    var s, e := states[i], events[i];
    assert Guarded(states, events, i);
    if e.Begin? {
      assert forall u :: 0 <= u < |s.txns| ==> states[i + 1].txns[u] == s.txns[u];
    } else {
      NextTx(s, e);
      assert Current(s.txns[e.t]);
      if e.Advance? {
        CurrentAdvance(s, e.t);
      }
    }
  }

  lemma {:induction false} CurrentRun(states: seq<State>, events: seq<Event>, i: nat)
    requires GuardedRun(states, events) && i < |states|
    ensures CurrentAt(states, events, i)
  {
    hide Next;
    if i > 0 {
      CurrentRun(states, events, i - 1);
      CurrentStep(states, events, i - 1);
    }
  }

  /** With guarded copies nothing is ever stale. */
  lemma GuardedNotStale(states: seq<State>, events: seq<Event>, j: nat, t: TxId)
    requires GuardedRun(states, events) && j < |states| && t < |states[j].txns|
    ensures !HasStale(states[j], states[j].txns[t]) && Clean(states[j], t)
  {
    CurrentRun(states, events, j);
    assert Current(states[j].txns[t]);
  }

  /** With guarded copies the committed transactions, in the order of their versions, are an
      execution of the reference implementation. */
  lemma SerializableGuarded(states: seq<State>, events: seq<Event>, i: nat, order: seq<TxId>)
    requires GuardedRun(states, events) && i < |states| && SerialOrder(states[i], order)
    ensures |states[i].hist| > 0 && states[i].hist[0] == states[0].mem && SerialReplays(states[i], order)
  {
    CurrentRun(states, events, i);
    Serializable(states, events, i, order);
    forall n | 0 <= n < |order| ensures !HasStale(states[i], states[i].txns[order[n]]) {
      assert Current(states[i].txns[order[n]]);
    }
  }

  /** With guarded copies every transaction, even one that will abort, only ever sees the snapshot
      of its read version. */
  lemma OpacityGuarded(states: seq<State>, events: seq<Event>, i: nat, t: TxId)
    requires GuardedRun(states, events) && i < |states| && t < |states[i].txns|
    ensures var s := states[i]; var T := s.txns[t];
            T.rv < |s.hist| && Replays(SnapshotMemory(s.hist, T.rv), T.ops)
  {
    CurrentRun(states, events, i);
    assert Current(states[i].txns[t]);
    Opacity(states, events, i, t);
  }
}
