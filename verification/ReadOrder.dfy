/** What even a stale read keeps to: real time. A read never misses a commit that was over when its
    transaction began, and later transactions never see earlier versions of a word. */
module ReadOrder {
  import opened Striping
  import opened Tl2
  import opened Tl2Invariant
  import opened Tl2Trace
  import opened Tl2Theorems
  import opened Serializability
  import opened Tl2Runs

  // ---------------------------------------------------------------- who is about to store

  /** The owner u of the lock of `a` drew a version, and may still store `a`. */
  ghost predicate MayStore(s: State, u: TxId, a: Addr) {
    && u < |s.txns| && FindLock(a) in s.locks && s.locks[FindLock(a)] == u && s.txns[u].wv > 0
    && a in s.txns[u].buf && (!Decided(s.txns[u]) || Pending(s.txns[u], a))
  }

  lemma StoringShrinks(s: State, u: TxId, a: Addr)
    requires Shapes(s) && u < |s.txns| && s.txns[u].pc.Storing?
    requires u < |Next(s, Advance(u)).txns| && Pending(Next(s, Advance(u)).txns[u], a)
    ensures Pending(s.txns[u], a)
  {
    assert Shape(s.txns[u], s.clock);
    var U, U' := s.txns[u], Next(s, Advance(u)).txns[u];
    var i :| 0 <= i < |U'.ws| && ToBeStored(U', i) && U'.ws[i] == a;
    assert ToBeStored(U, i);
  }

  lemma PendingBefore(s: State, e: Event, u: TxId, a: Addr)
    requires Shapes(s) && Enabled(s, e) && u < |s.txns| && Decided(s.txns[u])
    requires u < |Next(s, e).txns| && Pending(Next(s, e).txns[u], a)
    ensures Pending(s.txns[u], a)
  {
    if e.Begin? {
      assert Next(s, e).txns[u] == s.txns[u];
    } else {
      NextTx(s, e);
      if e == Advance(u) {
        StoringShrinks(s, u, a);
      }
    }
  }

  /** Since it drew its version, a writer about to store was about to store all the time. */
  lemma MayStoreBefore(states: seq<State>, events: seq<Event>, i: nat, u: TxId, a: Addr)
    requires IsRun(states, events) && i < |events| && u < |states[i].txns| && states[i].txns[u].wv > 0
    requires MayStore(states[i + 1], u, a)
    ensures MayStore(states[i], u, a)
  {
    var s, e := states[i], events[i];
    StepLocks(states, events, i, FindLock(a));
    SealedStep(s, e, u);
    NotTaken(s, e, u, FindLock(a));
    if Decided(s.txns[u]) {
      DecidedStep(s, e, u);
      PendingBefore(s, e, u, a);
    }
  }

  /** A transaction that drew a version takes no further lock. */
  lemma NotTaken(s: State, e: Event, u: TxId, k: int)
    requires Shapes(s) && Enabled(s, e) && u < |s.txns| && s.txns[u].wv > 0
    ensures k !in s.locks && k in Next(s, e).locks ==> e != Advance(u)
  {
    assert Shape(s.txns[u], s.clock);
  }

  lemma {:induction false} MayStoreRun(states: seq<State>, events: seq<Event>, i: nat, j: nat, u: TxId, a: Addr)
    requires IsRun(states, events) && i <= j < |states| && u < |states[i].txns| && states[i].txns[u].wv > 0
    requires MayStore(states[j], u, a)
    ensures MayStore(states[i], u, a)
  {
    hide Next, MayStore;
    if i < j {
      SealedRun(states, events, i, j - 1, u);
      MayStoreBefore(states, events, j - 1, u, a);
      MayStoreRun(states, events, i, j - 1, u, a);
    }
  }

  /** A version not above the clock has been drawn, by the transaction that has it later on. */
  lemma DrawnBefore(states: seq<State>, events: seq<Event>, i: nat, j: nat, u: TxId)
    requires IsRun(states, events) && i <= j < |states| && u < |states[j].txns|
    requires 0 < states[j].txns[u].wv <= states[i].clock
    ensures u < |states[i].txns| && states[i].txns[u].wv == states[j].txns[u].wv
  {
    RunInv(states, events, i);
    RunInv(states, events, j);
    var v := states[j].txns[u].wv;
    var w := states[i].writer[v];
    assert states[i].txns[w].wv == v;
    SealedRun(states, events, i, j, w);
    assert states[j].writer[states[j].txns[w].wv] == w && states[j].writer[v] == u;
  }

  // ---------------------------------------------------------------- copies in order

  /** Of two copies of a word, the later one, for a reader of no older version, is of no older value. */
  lemma AsOfGrows(states: seq<State>, events: seq<Event>, i: nat, j: nat, rv: nat, rv': nat, a: Addr)
    requires IsRun(states, events) && i <= j < |states| && rv <= rv' && rv <= states[i].clock
    ensures AsOf(states[i], rv, a) <= AsOf(states[j], rv', a)
  {
    if Overlaps(states[j], rv', a) {
      var u := states[j].locks[FindLock(a)];
      if states[j].txns[u].wv <= rv {
        DrawnBefore(states, events, i, j, u);
        assert MayStore(states[j], u, a);
        MayStoreRun(states, events, i, j, u, a);
        assert Overlaps(states[i], rv, a);
      }
    }
  }

  /** The copy behind a finished read of shared memory. */
  lemma CopyOf(states: seq<State>, events: seq<Event>, j: nat, t: TxId, n: nat) returns (i: nat)
    requires IsRun(states, events) && j < |states| && t < |states[j].txns| && n < |states[j].txns[t].ops|
    requires states[j].txns[t].ops[n].Read? && !states[j].txns[t].ops[n].own
    ensures i < j && t < |states[i].txns| && states[i].txns[t].rv == states[j].txns[t].rv <= states[i].clock
    ensures states[j].txns[t].ops[n].asof == AsOf(states[i], states[j].txns[t].rv, states[j].txns[t].ops[n].a)
  {
    var a := states[j].txns[t].ops[n].a;
    CopyFoundRun(states, events, j, t);
    i :| 0 <= i < j && CopiesFor(states, events, i, t, n, a);
    CopyGivesRead(states, events, i, j, t, n, a);
    RunInv(states, events, i);
    assert Shape(states[i].txns[t], states[i].clock);
  }

  /** Later transactions never see earlier versions: a read finished before another transaction began
      is of no newer a version of the word than any read of the other, stale or not. */
  lemma ReadsInOrder(states: seq<State>, events: seq<Event>, k: nat, j: nat, t: TxId, n: nat, u: TxId, m: nat)
    requires IsRun(states, events) && k <= j < |states| && t < |states[k].txns| <= u < |states[j].txns|
    requires n < |states[k].txns[t].ops| && m < |states[j].txns[u].ops|
    requires var op, op' := states[k].txns[t].ops[n], states[j].txns[u].ops[m];
             op.Read? && !op.own && op'.Read? && !op'.own && op.a == op'.a
    ensures states[k].txns[t].ops[n].asof <= states[j].txns[u].ops[m].asof
  {
    var i := CopyOf(states, events, k, t, n);
    var i' := CopyOf(states, events, j, u, m);
    if i' < k {
      LaterRun(states, events, i', k);
      assert false;
    }
    LaterRun(states, events, i, k);
    LaterRun(states, events, k, j);
    AsOfGrows(states, events, i, i', states[k].txns[t].rv, states[j].txns[u].rv, states[k].txns[t].ops[n].a);
  }

  // ---------------------------------------------------------------- commits that were over

  /** A copy made after a commit is not of a value from before it. */
  lemma AsOfCommitted(states: seq<State>, events: seq<Event>, i: nat, t: TxId, rv: nat, a: Addr)
    requires IsRun(states, events) && i < |states| && t < |states[i].txns| && states[i].txns[t].pc.Committed?
    requires a in states[i].txns[t].buf && states[i].txns[t].wv <= rv <= states[i].clock
    ensures AsOf(states[i], rv, a) >= states[i].txns[t].wv
  {
    RunInv(states, events, i);
    var s := states[i];
    if Overlaps(s, rv, a) {
      var k := FindLock(a);
      var u := s.locks[k];
      LockOwner(states, events, i, k);
      HolderIsLast(s, k, a);
      assert Shape(s.txns[t], s.clock);
      assert s.writer[s.txns[t].wv] == t && s.writer[s.txns[u].wv] == u;
      assert a in s.hist[s.txns[t].wv];
    }
  }

  /** A read never misses a commit of the word that was over when its transaction began: it is of the
      committed version or a later one, stale or not. */
  lemma SeesCommitted(states: seq<State>, events: seq<Event>, k: nat, j: nat, t: TxId, u: TxId, n: nat)
    requires IsRun(states, events) && k <= j < |states| && t < |states[k].txns| <= u < |states[j].txns|
    requires states[k].txns[t].pc.Committed? && n < |states[j].txns[u].ops|
    requires var op := states[j].txns[u].ops[n]; op.Read? && !op.own && op.a in states[k].txns[t].buf
    ensures states[k].txns[t].wv <= states[j].txns[u].ops[n].asof <= states[j].txns[u].rv
  {
    var op := states[j].txns[u].ops[n];
    var i := CopyOf(states, events, j, u, n);
    if i < k {
      LaterRun(states, events, i, k);
      assert false;
    }
    SinceRun(states, events, k, i, t);
    LaterRun(states, events, k, j);
    RunInv(states, events, k);
    assert Shape(states[k].txns[t], states[k].clock);
    AsOfCommitted(states, events, i, t, states[j].txns[u].rv, op.a);
  }
}
