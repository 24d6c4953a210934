/** What the protocol guarantees in every state of every run. */
module Tl2Theorems {
  import opened Striping
  import opened Tl2
  import opened Snapshots
  import opened Tl2Invariant
  import opened Tl2Trace
  import opened Reference

  // ---------------------------------------------------------------- reads

  /** A finished read whose copy was made while a writer entitled to the reader's version still had
      to store the word, and whose value that store changed. */
  ghost predicate Stale(hist: seq<Memory>, rv: nat, op: Op) {
    op.Read? && !op.own && op.asof < rv && op.asof + 1 < |hist| &&
    op.a in hist[op.asof + 1] && hist[op.asof + 1][op.a] != op.w
  }

  ghost predicate HasStale(s: State, T: Tx) {
    exists n :: 0 <= n < |T.ops| && Stale(s.hist, T.rv, T.ops[n])
  }

  /** A read returns the value of the reader's version exactly when it is not stale. */
  lemma ReadValue(hist: seq<Memory>, rv: nat, op: Op)
    requires op.Read? && !op.own && Seen(hist, rv, op.a, op.w, op.asof)
    ensures op.w == Snapshot(hist, rv, op.a) <==> !Stale(hist, rv, op)
  {
    if op.asof < rv {
      SnapshotSkip(hist, op.a, op.asof + 1, rv);
    }
  }

  /** A memory that holds version `v` of every address. */
  ghost predicate HoldsVersion(m: Memory, hist: seq<Memory>, v: nat)
    requires v < |hist|
  {
    forall a :: Lookup(m, a) == Snapshot(hist, v, a)
  }

  ghost function SnapshotMemory(hist: seq<Memory>, v: nat): Memory
    requires v < |hist|
  {
    if v == 0 then hist[0] else SnapshotMemory(hist, v - 1) + hist[v]
  }

  lemma {:induction false} SnapshotMemoryHolds(hist: seq<Memory>, v: nat)
    requires v < |hist|
    ensures HoldsVersion(SnapshotMemory(hist, v), hist, v)
  {
    if v > 0 {
      SnapshotMemoryHolds(hist, v - 1);
      forall a ensures Lookup(SnapshotMemory(hist, v), a) == Snapshot(hist, v, a) {
        assert Lookup(SnapshotMemory(hist, v - 1), a) == Snapshot(hist, v - 1, a);
      }
    }
  }

  /** On a memory that agrees with the reader's version wherever the transaction read, its trace is
      an execution of the reference implementation exactly when no read is stale. */
  lemma TraceReplays(s: State, t: TxId, m: Memory)
    requires FullInv(s) && t < |s.txns|
    requires forall n :: 0 <= n < |s.txns[t].ops| && s.txns[t].ops[n].Read? && !s.txns[t].ops[n].own ==>
               Lookup(m, s.txns[t].ops[n].a) == Snapshot(s.hist, s.txns[t].rv, s.txns[t].ops[n].a)
    ensures Replays(m, s.txns[t].ops) <==> !HasStale(s, s.txns[t])
  {
    var T := s.txns[t];
    assert TraceOk(T) && TxReadsOk(s, T);
    forall n | 0 <= n < |T.ops| ensures ReplaysAt(m, T.ops, n) <==> !Stale(s.hist, T.rv, T.ops[n]) {
      var op := T.ops[n];
      if op.Read? {
        assert OwnOk(T.ops, n);
        RunOpsLookup(m, T.ops[..n], op.a);
        if !op.own {
          assert OpOk(s, T.rv, op);
          ReadValue(s.hist, T.rv, op);
        }
      }
    }
  }

  /** Opacity: what any transaction, live, committed or aborted, has done so far is an execution of
      the reference implementation on the snapshot of its read version, exactly when none of its
      reads is stale. */
  lemma Opacity(states: seq<State>, events: seq<Event>, i: nat, t: TxId)
    requires IsRun(states, events) && i < |states| && t < |states[i].txns|
    ensures var s := states[i]; var T := s.txns[t];
            T.rv < |s.hist| && (Replays(SnapshotMemory(s.hist, T.rv), T.ops) <==> !HasStale(s, T))
  {
    RunFullInv(states, events, i);
    var s := states[i];
    assert Shape(s.txns[t], s.clock);
    SnapshotMemoryHolds(s.hist, s.txns[t].rv);
    TraceReplays(s, t, SnapshotMemory(s.hist, s.txns[t].rv));
  }

  /** Read by read: the value is that of version rv, or the copy overlapped an unfinished store of
      the word by the writer of some version wv <= rv and the value is the one of version wv - 1. */
  lemma ReadGuarantee(states: seq<State>, events: seq<Event>, i: nat, t: TxId, n: nat)
    requires IsRun(states, events) && i < |states| && t < |states[i].txns| && n < |states[i].txns[t].ops|
    requires states[i].txns[t].ops[n].Read? && !states[i].txns[t].ops[n].own
    ensures var s := states[i]; var rv := s.txns[t].rv; var op := s.txns[t].ops[n];
            && op.asof <= rv < |s.hist| && op.w == Snapshot(s.hist, op.asof, op.a)
            && (op.asof == rv ==> op.w == Snapshot(s.hist, rv, op.a))
            && (op.w == Snapshot(s.hist, rv, op.a) <==> !Stale(s.hist, rv, op))
  {
    RunFullInv(states, events, i);
    var s := states[i];
    assert TxReadsOk(s, s.txns[t]);
    assert OpOk(s, s.txns[t].rv, s.txns[t].ops[n]);
    ReadValue(s.hist, s.txns[t].rv, s.txns[t].ops[n]);
  }

  // ---------------------------------------------------------------- commits

  /** Whichever way a transaction passed validation, nothing it read changed between its versions. */
  lemma CommitPathsSound(states: seq<State>, events: seq<Event>, i: nat, t: TxId, a: Addr)
    requires IsRun(states, events) && i < |states| && t < |states[i].txns|
    requires Decided(states[i].txns[t]) && a in states[i].txns[t].rs
    ensures var s := states[i]; var T := s.txns[t];
            T.rv < T.wv < |s.hist| && NoWriter(s.hist, a, T.rv, T.wv - 1) &&
            Snapshot(s.hist, T.wv - 1, a) == Snapshot(s.hist, T.rv, a)
  {
    RunInv(states, events, i);
    DecidedRead(states[i], t, a);
  }

  lemma DecidedRead(s: State, t: TxId, a: Addr)
    requires Inv(s) && t < |s.txns| && Decided(s.txns[t]) && a in s.txns[t].rs
    ensures var T := s.txns[t];
            T.rv < T.wv < |s.hist| && NoWriter(s.hist, a, T.rv, T.wv - 1) &&
            Snapshot(s.hist, T.wv - 1, a) == Snapshot(s.hist, T.rv, a)
  {
    var T := s.txns[t];
    assert Shape(T, s.clock) && TxValidated(s, T);
    var j :| 0 <= j < |T.rs| && T.rs[j] == a;
    assert NodeOk(s, T, j);
    SnapshotSkip(s.hist, a, T.rv, T.wv - 1);
  }

  /** Validation meets the transaction's own lock, so a transaction that read and wrote under one
      lock commits by the shortcut only. */
  lemma ReadModifyWriteShortcut(states: seq<State>, events: seq<Event>, i: nat, t: TxId, a: Addr, b: Addr)
    requires IsRun(states, events) && i < |states| && t < |states[i].txns| && Decided(states[i].txns[t])
    requires a in states[i].txns[t].rs && b in states[i].txns[t].ws && FindLock(a) == FindLock(b)
    ensures states[i].txns[t].wv == states[i].txns[t].rv + 1
  {
    RunInv(states, events, i);
    var s := states[i];
    var T := s.txns[t];
    assert Shape(T, s.clock) && TxValidated(s, T);
    var j :| 0 <= j < |T.rs| && T.rs[j] == a;
    assert NodeOk(s, T, j);
  }

  /** A write set with two addresses under one lock never commits; nor does one with more words than
      there are locks. */
  lemma CommitsDistinctStripes(states: seq<State>, events: seq<Event>, i: nat, t: TxId)
    requires IsRun(states, events) && i < |states| && t < |states[i].txns| && Decided(states[i].txns[t])
    ensures StripesDistinct(states[i].txns[t].ws, |states[i].txns[t].ws|)
    ensures |states[i].txns[t].ws| <= NUM_LOCKS
  {
    RunInv(states, events, i);
    var T := states[i].txns[t];
    assert Shape(T, states[i].clock);
    Pigeonhole(T.ws);
  }

  // ---------------------------------------------------------------- memory

  /** In every state, even in the middle of commits that store out of version order, a word whose
      lock is free holds the last committed value. */
  lemma FreeWordIsCurrent(states: seq<State>, events: seq<Event>, i: nat, a: Addr)
    requires IsRun(states, events) && i < |states| && FindLock(a) !in states[i].locks
    ensures |states[i].hist| == states[i].clock + 1
    ensures Lookup(states[i].mem, a) == Snapshot(states[i].hist, states[i].clock, a)
  {
    RunInv(states, events, i);
    assert MemVersion(states[i], a) == states[i].clock;
  }

  /** Under a held lock a word holds the last committed value too, unless its owner is about to
      store it; then it holds the value just before. */
  lemma LockedWord(states: seq<State>, events: seq<Event>, i: nat, a: Addr)
    requires IsRun(states, events) && i < |states| && FindLock(a) in states[i].locks
    ensures var s := states[i]; var u := s.locks[FindLock(a)];
            && u < |s.txns| && |s.hist| == s.clock + 1
            && (!Pending(s.txns[u], a) ==> Lookup(s.mem, a) == Snapshot(s.hist, s.clock, a))
            && (Pending(s.txns[u], a) ==>
                  0 < s.txns[u].wv <= s.clock && a in s.txns[u].buf &&
                  Lookup(s.mem, a) == Snapshot(s.hist, s.txns[u].wv - 1, a) &&
                  s.txns[u].buf[a] == Snapshot(s.hist, s.clock, a))
  {
    RunInv(states, events, i);
    var s := states[i];
    var u := s.locks[FindLock(a)];
    assert Lookup(s.mem, a) == Snapshot(s.hist, MemVersion(s, a), a);
    if Pending(s.txns[u], a) {
      PendingHolder(s, a);
      HolderIsLast(s, FindLock(a), a);
      assert s.writer[s.txns[u].wv] == u;
      SnapshotSkip(s.hist, a, s.txns[u].wv, s.clock);
    }
  }

  // ---------------------------------------------------------------- locks

  /** A held lock has one owner, inside tm_end. */
  lemma LockOwner(states: seq<State>, events: seq<Event>, i: nat, k: int)
    requires IsRun(states, events) && i < |states| && k in states[i].locks
    ensures var s := states[i]; var u := s.locks[k];
            && u < |s.txns| && InEnd(s.txns[u])
            && (exists j :: Held(s.txns[u], j) && FindLock(s.txns[u].ws[j]) == k)
            && (forall t, j :: 0 <= t < |s.txns| && Held(s.txns[t], j) && FindLock(s.txns[t].ws[j]) == k ==> t == u)
  {
    RunInv(states, events, i);
  }

  /** With no transaction inside tm_end every lock is free, and memory is the last snapshot. */
  lemma Quiescent(states: seq<State>, events: seq<Event>, i: nat)
    requires IsRun(states, events) && i < |states|
    requires forall t :: 0 <= t < |states[i].txns| ==> !InEnd(states[i].txns[t])
    ensures states[i].locks == map[]
    ensures |states[i].hist| == states[i].clock + 1 && HoldsVersion(states[i].mem, states[i].hist, states[i].clock)
  {
    RunInv(states, events, i);
    var s := states[i];
    forall k ensures k !in s.locks {
      if k in s.locks {
        LockOwner(states, events, i, k);
      }
    }
    forall a ensures Lookup(s.mem, a) == Snapshot(s.hist, s.clock, a) {
      FreeWordIsCurrent(states, events, i, a);
    }
  }

  lemma ReleaseClears(s: State, t: TxId)
    requires Shapes(s) && Releases(s, t)
    ensures Next(s, Advance(t)).locks == s.locks - {FindLock(s.txns[t].ws[s.txns[t].pc.i])}
  {
    assert Shape(s.txns[t], s.clock);
  }

  /** Any other access of tm_end leaves the locks alone or takes a free one. */
  lemma OthersTake(s: State, t: TxId)
    requires Shapes(s) && Enabled(s, Advance(t)) && !Releases(s, t)
    ensures var locks' := Next(s, Advance(t)).locks;
            locks' == s.locks || exists k :: k !in s.locks && locks' == s.locks[k := t]
  {
    var T := s.txns[t];
    assert Shape(T, s.clock);
    match T.pc
    case Locking(i, _, _) =>
      if i < |T.ws| && FindLock(T.ws[i]) !in s.locks {
        var k := FindLock(T.ws[i]);
        assert LockingStep(s, t).locks == s.locks || LockingStep(s, t).locks == s.locks[k := t];
      }
    case _ =>
  }

  /** Every step that executes a release finds the lock set by its own transaction, and clears it. */
  lemma ReleasesOwnLock(states: seq<State>, events: seq<Event>, i: nat)
    requires IsRun(states, events) && i < |events| && events[i].Advance? && Releases(states[i], events[i].t)
    ensures var s, t := states[i], events[i].t; var k := FindLock(s.txns[t].ws[s.txns[t].pc.i]);
            k in s.locks && s.locks[k] == t && Held(s.txns[t], s.txns[t].pc.i) && states[i + 1].locks == s.locks - {k}
  {
    RunInv(states, events, i);
    var s, t := states[i], events[i].t;
    hide Inv, Next;
    assert Shapes(s) && LocksOwned(s) by {
      InvParts(s);
    }
    assert Held(s.txns[t], s.txns[t].pc.i);
    ReleaseClears(s, t);
  }

  lemma InvParts(s: State)
    requires Inv(s)
    ensures Shapes(s) && LocksOwned(s)
  {
  }

  /** A step takes away only a lock of its own transaction, by a release, and takes only a free one. */
  lemma StepLocks(states: seq<State>, events: seq<Event>, i: nat, k: int)
    requires IsRun(states, events) && i < |events|
    ensures k in states[i].locks && k !in states[i + 1].locks ==>
              events[i].Advance? && states[i].locks[k] == events[i].t && Releases(states[i], events[i].t) &&
              var T := states[i].txns[events[i].t]; k == FindLock(T.ws[T.pc.i]) && Held(T, T.pc.i)
    ensures k !in states[i].locks && k in states[i + 1].locks ==>
              events[i].Advance? && states[i + 1].locks[k] == events[i].t
    ensures k in states[i].locks && k in states[i + 1].locks ==> states[i + 1].locks[k] == states[i].locks[k]
  {
    if events[i].Advance? {
      if Releases(states[i], events[i].t) {
        ReleasesOwnLock(states, events, i);
      } else {
        OthersTake(states[i], events[i].t);
      }
    }
  }

  // ---------------------------------------------------------------- versions

  /** Versions only grow, never past the clock, and neither does the clock shrink. */
  lemma VersionsMonotone(states: seq<State>, events: seq<Event>, i: nat, k: int)
    requires IsRun(states, events) && i < |events| && 0 <= k < NUM_LOCKS
    ensures Sized(states[i]) && Sized(states[i + 1])
    ensures states[i].version[k] <= states[i + 1].version[k] <= states[i + 1].clock
    ensures states[i].clock <= states[i + 1].clock
  {
    RunInv(states, events, i);
    RunInv(states, events, i + 1);
    var s := states[i];
    var e := events[i];
    if e.Advance? {
      assert Shape(s.txns[e.t], s.clock);
      if StoresVersion(s, e.t) {
        VersionOwned(s, e.t);
      }
    }
  }

  /** Until it stores its own version, a transaction that drew one is ahead of every lock it holds. */
  lemma VersionAhead(states: seq<State>, events: seq<Event>, i: nat, t: TxId, j: nat)
    requires IsRun(states, events) && i < |states| && t < |states[i].txns|
    requires Held(states[i].txns[t], j) && states[i].txns[t].wv > 0
    ensures Sized(states[i]) && VersionBefore(states[i], states[i].txns[t], j)
  {
    RunInv(states, events, i);
  }
}
