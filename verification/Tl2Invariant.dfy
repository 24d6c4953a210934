/** The inductive invariant of the TL2 transition system. */
module Tl2Invariant {
  import opened Striping
  import opened Tl2
  import opened Snapshots

  // ---------------------------------------------------------------- the invariant

  /** Every drawn version has exactly one transaction; its history entry is the write buffer once
      the transaction decided, and empty before. */
  ghost predicate History(s: State)
    requires Shapes(s)
  {
    && (forall v :: 0 < v <= s.clock ==>
          s.writer[v] < |s.txns| && s.txns[s.writer[v]].wv == v &&
          s.hist[v] == if Decided(s.txns[s.writer[v]]) then s.txns[s.writer[v]].buf else map[])
    && (forall t :: 0 <= t < |s.txns| && s.txns[t].wv > 0 ==> s.writer[s.txns[t].wv] == t)
  }

  /** A set lock bit belongs to exactly one transaction, inside tm_end. */
  ghost predicate LocksOwned(s: State) {
    && (forall k :: k in s.locks ==>
          0 <= k < NUM_LOCKS && s.locks[k] < |s.txns| &&
          exists i :: Held(s.txns[s.locks[k]], i) && FindLock(s.txns[s.locks[k]].ws[i]) == k)
    && (forall t, i :: 0 <= t < |s.txns| && Held(s.txns[t], i) ==>
          FindLock(s.txns[t].ws[i]) in s.locks && s.locks[FindLock(s.txns[t].ws[i])] == t)
  }

  ghost predicate VersionBefore(s: State, T: Tx, i: int)
    requires Sized(s) && 0 <= i < |T.ws|
  {
    var v := s.version[FindLock(T.ws[i])];
    if T.pc.Storing? && T.pc.i == i && T.pc.phase.ToRelease? then v == T.wv else v < T.wv
  }

  /** Versions do not pass the clock, and the holder of a lock that drew a write version is ahead of
      the version stored there until it stores its own. */
  ghost predicate Versions(s: State)
    requires Sized(s)
  {
    && (forall k :: 0 <= k < NUM_LOCKS ==> s.version[k] <= s.clock)
    && (forall t, i :: 0 <= t < |s.txns| && Held(s.txns[t], i) && s.txns[t].wv > 0 ==>
          VersionBefore(s, s.txns[t], i))
  }

  /** Every committed write is either announced by the version of its lock, or still locked. */
  ghost predicate Announced(s: State)
    requires Shapes(s)
  {
    forall v, a :: 0 < v <= s.clock && a in s.hist[v] ==>
      s.version[FindLock(a)] >= v || (FindLock(a) in s.locks && s.locks[FindLock(a)] == s.writer[v])
  }

  ghost predicate PendingAt(s: State, a: Addr) {
    FindLock(a) in s.locks && s.locks[FindLock(a)] < |s.txns| &&
    Pending(s.txns[s.locks[FindLock(a)]], a)
  }

  /** The version whose value a word of memory holds. */
  ghost function MemVersion(s: State, a: Addr): (v: int) {
    if PendingAt(s, a) then s.txns[s.locks[FindLock(a)]].wv - 1 else s.clock
  }

  ghost predicate MemoryOk(s: State)
    requires Shapes(s)
  {
    forall a :: 0 <= MemVersion(s, a) <= s.clock && Lookup(s.mem, a) == Snapshot(s.hist, MemVersion(s, a), a)
  }

  /** Nobody holding the lock drew a version not above `v`; once so, always so. */
  ghost predicate Settled(s: State, k: int, v: int) {
    k in s.locks && s.locks[k] < |s.txns| ==> s.txns[s.locks[k]].wv == 0 || s.txns[s.locks[k]].wv > v
  }

  /** The value of version `asof`, which is that of version `rv` unless version asof + 1 wrote. */
  ghost predicate Seen(hist: seq<Memory>, rv: nat, a: Addr, w: Word, asof: nat) {
    asof <= rv < |hist| && w == Snapshot(hist, asof, a) && NoWriter(hist, a, asof + 1, rv)
  }

  ghost predicate ReadOk(s: State, rv: nat, a: Addr, w: Word, asof: nat) {
    Settled(s, FindLock(a), rv) && Seen(s.hist, rv, a, w, asof)
  }

  ghost predicate OpOk(s: State, rv: nat, op: Op) {
    op.Read? && !op.own ==> ReadOk(s, rv, op.a, op.w, op.asof)
  }

  /** Every finished read that missed the write buffer. */
  ghost predicate TxReadsOk(s: State, T: Tx) {
    forall n :: 0 <= n < |T.ops| ==> OpOk(s, T.rv, T.ops[n])
  }

  ghost predicate ReadsOk(s: State) {
    forall t :: 0 <= t < |s.txns| ==> TxReadsOk(s, s.txns[t])
  }

  /** A copy that the version check is bound to reject. */
  ghost predicate Doomed(s: State, k: int, rv: nat)
    requires Sized(s) && 0 <= k < NUM_LOCKS
  {
    s.version[k] > rv ||
    (k in s.locks && s.locks[k] < |s.txns| && Decided(s.txns[s.locks[k]]) && s.txns[s.locks[k]].wv > rv)
  }

  ghost predicate CopyOk(s: State, rv: nat, a: Addr, w: Word, asof: nat)
    requires Sized(s)
  {
    var k := FindLock(a);
    && (Doomed(s, k, rv) || Seen(s.hist, rv, a, w, asof))
    && (!Settled(s, k, rv) && !Decided(s.txns[s.locks[k]]) && a in s.txns[s.locks[k]].buf ==>
          asof + 1 == s.txns[s.locks[k]].wv)
  }

  ghost predicate TestedOk(s: State, rv: nat, a: Addr, w: Word, asof: nat)
    requires Sized(s)
  {
    var k := FindLock(a);
    Settled(s, k, rv) && (s.version[k] > rv || Seen(s.hist, rv, a, w, asof))
  }

  /** A read in progress that missed the write buffer. */
  ghost predicate TxCopyOk(s: State, T: Tx)
    requires Sized(s)
  {
    match T.pc
    case Copied(a, w, own, asof) => own || CopyOk(s, T.rv, a, w, asof)
    case Tested(a, w, own, asof) => own || TestedOk(s, T.rv, a, w, asof)
    case _ => true
  }

  ghost predicate CopiesOk(s: State)
    requires Sized(s)
  {
    forall t :: 0 <= t < |s.txns| ==> TxCopyOk(s, s.txns[t])
  }

  /** How many read nodes of a transaction are known to be unchanged up to its write version. */
  ghost function Accepted(T: Tx): int {
    if T.pc.Validating? then T.pc.j else if Decided(T) then |T.rs| else 0
  }

  /** How many read nodes were validated by the tm_read that logged them. */
  ghost function Logged(T: Tx): int {
    if T.pc.Aborted? then 0
    else if Reading(T) && !T.pc.own then |T.rs| - 1
    else |T.rs|
  }

  ghost predicate NodeOk(s: State, T: Tx, j: int)
    requires 0 <= j < |T.rs|
  {
    && Settled(s, FindLock(T.rs[j]), T.wv - 1)
    && NoWriter(s.hist, T.rs[j], T.rv, T.wv - 1)
    && (T.wv != T.rv + 1 ==> forall i :: 0 <= i < |T.ws| ==> FindLock(T.ws[i]) != FindLock(T.rs[j]))
  }

  ghost predicate LoadedOk(s: State, T: Tx, j: int)
    requires 0 <= j < |T.rs|
  {
    && Settled(s, FindLock(T.rs[j]), T.wv - 1)
    && (T.wv != T.rv + 1 ==> forall i :: 0 <= i < |T.ws| ==> FindLock(T.ws[i]) != FindLock(T.rs[j]))
  }

  /** Both ways past the validation of the read set. */
  ghost predicate TxValidated(s: State, T: Tx) {
    && (forall j :: 0 <= j < Logged(T) && j < |T.rs| ==> Settled(s, FindLock(T.rs[j]), T.rv))
    && (forall j :: 0 <= j < Accepted(T) && j < |T.rs| ==> NodeOk(s, T, j))
    && (T.pc.Validating? && T.pc.loaded && T.pc.j < |T.rs| ==> LoadedOk(s, T, T.pc.j))
  }

  ghost predicate Validated(s: State) {
    forall t :: 0 <= t < |s.txns| ==> TxValidated(s, s.txns[t])
  }

  ghost predicate Inv(s: State) {
    && Shapes(s)
    && History(s)
    && LocksOwned(s)
    && Versions(s)
    && Announced(s)
    && MemoryOk(s)
    && ReadsOk(s)
    && CopiesOk(s)
    && Validated(s)
  }

  lemma InitInv(m: Memory, first: Segment)
    ensures Inv(Init(m, first))
  {
  }

  // ---------------------------------------------------------------- steps that change no shared word

  /** A transaction other than in its own cursor, log and buffer stays as it is for the others. */
  ghost predicate Quiet(T: Tx, T': Tx) {
    && T'.wv == T.wv && T'.rv == T.rv && T'.ro == T.ro
    && !Decided(T) && !Decided(T')
    && (forall i :: Held(T, i) <==> Held(T', i))
    && ((exists i :: Held(T, i)) ==> T'.ws == T.ws && T'.buf == T.buf)
  }

  lemma QuietShape(s: State, t: TxId, T': Tx)
    requires Shapes(s) && t < |s.txns| && Quiet(s.txns[t], T') && Shape(T', s.clock)
    ensures Shapes(SetTx(s, t, T'))
  {
  }

  lemma QuietHistory(s: State, t: TxId, T': Tx)
    requires Shapes(s) && History(s) && t < |s.txns| && Quiet(s.txns[t], T') && Shapes(SetTx(s, t, T'))
    ensures History(SetTx(s, t, T'))
  {
  }

  lemma QuietVersions(s: State, t: TxId, T': Tx)
    requires Shapes(s) && Versions(s) && Announced(s) && t < |s.txns| && Quiet(s.txns[t], T') && Shapes(SetTx(s, t, T'))
    ensures Versions(SetTx(s, t, T')) && Announced(SetTx(s, t, T'))
  {
  }

  lemma QuietLocks(s: State, t: TxId, T': Tx)
    requires Shapes(s) && LocksOwned(s) && t < |s.txns| && Quiet(s.txns[t], T') && Shape(T', s.clock)
    ensures LocksOwned(SetTx(s, t, T'))
  {
    var s' := SetTx(s, t, T');
    forall k | k in s.locks
      ensures exists i :: Held(s'.txns[s.locks[k]], i) && FindLock(s'.txns[s.locks[k]].ws[i]) == k
    {
      var i :| Held(s.txns[s.locks[k]], i) && FindLock(s.txns[s.locks[k]].ws[i]) == k;
      assert Held(s'.txns[s.locks[k]], i);
    }
  }

  lemma QuietMemory(s: State, t: TxId, T': Tx)
    requires Shapes(s) && LocksOwned(s) && MemoryOk(s) && t < |s.txns| && Quiet(s.txns[t], T') && Shape(T', s.clock)
    ensures Shapes(SetTx(s, t, T')) && MemoryOk(SetTx(s, t, T'))
  {
    QuietShape(s, t, T');
    forall a ensures MemVersion(SetTx(s, t, T'), a) == MemVersion(s, a) {
    }
  }

  lemma QuietReads(s: State, t: TxId, T': Tx)
    requires Shapes(s) && ReadsOk(s) && t < |s.txns| && Quiet(s.txns[t], T') && Shape(T', s.clock)
    requires TxReadsOk(s, T')
    ensures ReadsOk(SetTx(s, t, T'))
  {
    var s' := SetTx(s, t, T');
    forall u, n | 0 <= u < |s'.txns| && 0 <= n < |s'.txns[u].ops| ensures OpOk(s', s'.txns[u].rv, s'.txns[u].ops[n]) {
      assert u < |s.txns| ==> TxReadsOk(s, s.txns[u]);
      assert OpOk(s, s'.txns[u].rv, s'.txns[u].ops[n]);
    }
  }

  lemma QuietCopies(s: State, t: TxId, T': Tx)
    requires Shapes(s) && LocksOwned(s) && CopiesOk(s) && t < |s.txns| && Quiet(s.txns[t], T') && Shape(T', s.clock)
    requires TxCopyOk(s, T')
    ensures CopiesOk(SetTx(s, t, T'))
  {
    var s' := SetTx(s, t, T');
    forall u | 0 <= u < |s'.txns| ensures TxCopyOk(s', s'.txns[u]) {
      assert TxCopyOk(s, s'.txns[u]);
    }
  }

  lemma QuietNodes(s: State, t: TxId, T': Tx)
    requires Shapes(s) && LocksOwned(s) && Validated(s) && t < |s.txns| && Quiet(s.txns[t], T') && Shape(T', s.clock)
    requires TxValidated(s, T')
    ensures Validated(SetTx(s, t, T'))
  {
    var s' := SetTx(s, t, T');
    forall u | 0 <= u < |s'.txns| ensures TxValidated(s', s'.txns[u]) {
      var U := s'.txns[u];
      assert TxValidated(s, U);
      forall j | 0 <= j < Accepted(U) && j < |U.rs| ensures NodeOk(s', U, j) {
        assert NodeOk(s, U, j);
      }
    }
  }

  lemma QuietStep(s: State, t: TxId, T': Tx)
    requires Inv(s) && t < |s.txns| && Quiet(s.txns[t], T') && Shape(T', s.clock)
    requires TxReadsOk(s, T') && TxCopyOk(s, T') && TxValidated(s, T')
    ensures Inv(SetTx(s, t, T'))
  {
    QuietShape(s, t, T');
    QuietHistory(s, t, T');
    QuietVersions(s, t, T');
    QuietLocks(s, t, T');
    QuietMemory(s, t, T');
    QuietReads(s, t, T');
    QuietCopies(s, t, T');
    QuietNodes(s, t, T');
  }
  // ---------------------------------------------------------------- steps that move one cursor of tm_end

  /** Only the cursor changed, and it stays in the same part of tm_end. */
  ghost predicate SameLog(T: Tx, T': Tx) {
    && T' == T.(pc := T'.pc)
    && Decided(T') == Decided(T) && Accepted(T') == Accepted(T) && Logged(T') == Logged(T)
    && (T'.pc != T.pc ==> !Reading(T') && !T'.pc.Validating?)
  }

  /** What readers rely on when another transaction makes a step. */
  ghost predicate Carries(s: State, s': State)
    requires Sized(s)
  {
    && Sized(s') && s'.hist == s.hist
    && |s'.txns| == |s.txns| && (forall u :: 0 <= u < |s.txns| ==> SameLog(s.txns[u], s'.txns[u]))
    && (forall k, v :: Settled(s, k, v) ==> Settled(s', k, v))
    && (forall k, v :: !Settled(s', k, v) ==> k in s.locks && s'.locks[k] == s.locks[k])
    && (forall k :: 0 <= k < NUM_LOCKS ==> s.version[k] <= s'.version[k])
    && (forall k, rv :: 0 <= k < NUM_LOCKS && Doomed(s, k, rv) ==> Doomed(s', k, rv))
  }

  lemma CarryReads(s: State, s': State)
    requires Shapes(s) && ReadsOk(s) && Carries(s, s')
    ensures ReadsOk(s')
  {
    forall u, n | 0 <= u < |s'.txns| && 0 <= n < |s'.txns[u].ops| ensures OpOk(s', s'.txns[u].rv, s'.txns[u].ops[n]) {
      assert u < |s.txns| ==> TxReadsOk(s, s.txns[u]);
      assert SameLog(s.txns[u], s'.txns[u]);
      assert OpOk(s, s.txns[u].rv, s.txns[u].ops[n]);
    }
  }

  lemma CarryCopies(s: State, s': State)
    requires Shapes(s) && LocksOwned(s) && CopiesOk(s) && Carries(s, s')
    ensures CopiesOk(s')
  {
    forall u | 0 <= u < |s'.txns| ensures TxCopyOk(s', s'.txns[u]) {
      assert SameLog(s.txns[u], s'.txns[u]);
      assert TxCopyOk(s, s.txns[u]);
      var T := s'.txns[u];
      if T.pc.Copied? && !T.pc.own {
        var k := FindLock(T.pc.a);
        if !Settled(s', k, T.rv) {
          assert SameLog(s.txns[s.locks[k]], s'.txns[s.locks[k]]);
        }
      }
    }
  }

  lemma CarryNodes(s: State, s': State)
    requires Shapes(s) && Validated(s) && Carries(s, s')
    ensures Validated(s')
  {
    forall u | 0 <= u < |s'.txns| ensures TxValidated(s', s'.txns[u]) {
      assert SameLog(s.txns[u], s'.txns[u]);
      assert TxValidated(s, s.txns[u]);
      forall j | 0 <= j < Accepted(s'.txns[u]) && j < |s'.txns[u].rs| ensures NodeOk(s', s'.txns[u], j) {
        assert NodeOk(s, s.txns[u], j);
      }
    }
  }

  lemma Carry(s: State, s': State)
    requires Inv(s) && Carries(s, s')
    ensures ReadsOk(s') && CopiesOk(s') && Validated(s')
  {
    CarryReads(s, s');
    CarryCopies(s, s');
    CarryNodes(s, s');
  }

  // ---------------------------------------------------------------- taking and releasing locks

  ghost predicate Acquires(s: State, t: TxId) {
    t < |s.txns| && s.txns[t].pc.Locking? && s.txns[t].pc.i < |s.txns[t].ws| &&
    FindLock(s.txns[t].ws[s.txns[t].pc.i]) !in s.locks
  }

  ghost function AfterAcquire(s: State, t: TxId): State
    requires Acquires(s, t)
  {
    var i := s.txns[t].pc.i;
    SetPc(s, t, Locking(i + 1, 0, false)).(locks := s.locks[FindLock(s.txns[t].ws[i]) := t])
  }

  lemma AcquireShape(s: State, t: TxId)
    requires Shapes(s) && LocksOwned(s) && Acquires(s, t)
    ensures Shapes(AfterAcquire(s, t))
  {
    var T := s.txns[t];
    assert Shape(T, s.clock);
    forall j | 0 <= j < T.pc.i ensures FindLock(T.ws[j]) != FindLock(T.ws[T.pc.i]) {
      assert Held(T, j);
    }
    assert Shape(AfterAcquire(s, t).txns[t], s.clock);
  }

  lemma AcquireHistory(s: State, t: TxId)
    requires Shapes(s) && History(s) && Acquires(s, t) && Shapes(AfterAcquire(s, t))
    ensures History(AfterAcquire(s, t))
  {
  }

  lemma AcquireVersions(s: State, t: TxId)
    requires Shapes(s) && Versions(s) && Announced(s) && Acquires(s, t) && Shapes(AfterAcquire(s, t))
    ensures Versions(AfterAcquire(s, t)) && Announced(AfterAcquire(s, t))
  {
    assert Shape(s.txns[t], s.clock);
  }

  lemma AcquireLocks(s: State, t: TxId)
    requires LocksOwned(s) && Acquires(s, t)
    ensures LocksOwned(AfterAcquire(s, t))
  {
    var s' := AfterAcquire(s, t);
    var i := s.txns[t].pc.i;
    forall k | k in s'.locks
      ensures exists j :: Held(s'.txns[s'.locks[k]], j) && FindLock(s'.txns[s'.locks[k]].ws[j]) == k
    {
      if k == FindLock(s.txns[t].ws[i]) {
        assert Held(s'.txns[t], i);
      } else {
        var j :| Held(s.txns[s.locks[k]], j) && FindLock(s.txns[s.locks[k]].ws[j]) == k;
        assert Held(s'.txns[s.locks[k]], j);
      }
    }
  }

  lemma AcquireMemory(s: State, t: TxId)
    requires Shapes(s) && LocksOwned(s) && MemoryOk(s) && Acquires(s, t) && Shapes(AfterAcquire(s, t))
    ensures MemoryOk(AfterAcquire(s, t))
  {
    forall a ensures MemVersion(AfterAcquire(s, t), a) == MemVersion(s, a) {
    }
  }

  lemma AcquireCarries(s: State, t: TxId)
    requires Sized(s) && Acquires(s, t) && s.txns[t].wv == 0
    ensures Carries(s, AfterAcquire(s, t))
  {
  }

  lemma AcquireInv(s: State, t: TxId)
    requires Inv(s) && Acquires(s, t)
    ensures Inv(AfterAcquire(s, t))
  {
    assert Shape(s.txns[t], s.clock);
    AcquireShape(s, t);
    AcquireHistory(s, t);
    AcquireVersions(s, t);
    AcquireLocks(s, t);
    AcquireMemory(s, t);
    AcquireCarries(s, t);
    Carry(s, AfterAcquire(s, t));
  }

  ghost predicate Releases(s: State, t: TxId) {
    t < |s.txns| &&
    ((s.txns[t].pc.Unlocking? && s.txns[t].pc.i < s.txns[t].pc.n <= |s.txns[t].ws|) ||
     (s.txns[t].pc.Storing? && s.txns[t].pc.i < |s.txns[t].ws| && s.txns[t].pc.phase.ToRelease?))
  }

  ghost function AfterRelease(s: State, t: TxId): State
    requires Releases(s, t)
  {
    var pc := s.txns[t].pc;
    SetPc(s, t, if pc.Unlocking? then Unlocking(pc.i + 1, pc.n) else Storing(pc.i + 1, ToStore))
      .(locks := s.locks - {FindLock(s.txns[t].ws[pc.i])})
  }

  /** The lock released is the transaction's own, it is released once, and after the version of a
      commit was stored there. */
  ghost predicate OwnRelease(s: State, t: TxId)
    requires Sized(s) && Releases(s, t)
  {
    var T := s.txns[t];
    var k := FindLock(T.ws[T.pc.i]);
    && k in s.locks && s.locks[k] == t
    && (forall j :: Held(T, j) && j != T.pc.i ==> FindLock(T.ws[j]) != k)
    && (T.pc.Storing? ==> s.version[k] == T.wv)
  }

  lemma ReleaseOwned(s: State, t: TxId)
    requires Shapes(s) && LocksOwned(s) && Versions(s) && Releases(s, t)
    ensures OwnRelease(s, t)
  {
    var T := s.txns[t];
    assert Shape(T, s.clock);
    assert Held(T, T.pc.i);
    assert T.wv > 0 ==> VersionBefore(s, T, T.pc.i);
  }

  lemma ReleaseShape(s: State, t: TxId)
    requires Shapes(s) && Releases(s, t)
    ensures Shapes(AfterRelease(s, t))
  {
    assert Shape(AfterRelease(s, t).txns[t], s.clock);
  }

  lemma ReleaseHistory(s: State, t: TxId)
    requires Shapes(s) && History(s) && Releases(s, t) && Shapes(AfterRelease(s, t))
    ensures History(AfterRelease(s, t))
  {
  }

  lemma ReleaseLocks(s: State, t: TxId)
    requires Shapes(s) && LocksOwned(s) && Releases(s, t) && OwnRelease(s, t)
    ensures LocksOwned(AfterRelease(s, t))
  {
    var s' := AfterRelease(s, t);
    forall k | k in s'.locks
      ensures exists j :: Held(s'.txns[s'.locks[k]], j) && FindLock(s'.txns[s'.locks[k]].ws[j]) == k
    {
      var j :| Held(s.txns[s.locks[k]], j) && FindLock(s.txns[s.locks[k]].ws[j]) == k;
      assert Held(s'.txns[s.locks[k]], j);
    }
    forall u, i | 0 <= u < |s'.txns| && Held(s'.txns[u], i)
      ensures FindLock(s'.txns[u].ws[i]) in s'.locks && s'.locks[FindLock(s'.txns[u].ws[i])] == u
    {
      assert Held(s.txns[u], i);
    }
  }

  lemma ReleaseVersions(s: State, t: TxId)
    requires Shapes(s) && Versions(s) && Releases(s, t) && Shapes(AfterRelease(s, t))
    ensures Versions(AfterRelease(s, t))
  {
    var s' := AfterRelease(s, t);
    forall u, i | 0 <= u < |s'.txns| && Held(s'.txns[u], i) && s'.txns[u].wv > 0
      ensures VersionBefore(s', s'.txns[u], i)
    {
      assert Held(s.txns[u], i);
      assert VersionBefore(s, s.txns[u], i);
    }
  }

  lemma ReleaseAnnounced(s: State, t: TxId)
    requires Shapes(s) && History(s) && Announced(s) && Releases(s, t) && OwnRelease(s, t) && Shapes(AfterRelease(s, t))
    ensures Announced(AfterRelease(s, t))
  {
    var s' := AfterRelease(s, t);
    forall v, a | 0 < v <= s'.clock && a in s'.hist[v]
      ensures s'.version[FindLock(a)] >= v || (FindLock(a) in s'.locks && s'.locks[FindLock(a)] == s'.writer[v])
    {
      assert s.txns[s.writer[v]].wv == v;
    }
  }

  lemma ReleaseMemory(s: State, t: TxId)
    requires Shapes(s) && LocksOwned(s) && MemoryOk(s) && Releases(s, t) && OwnRelease(s, t) &&
             Shapes(AfterRelease(s, t))
    ensures MemoryOk(AfterRelease(s, t))
  {
    var s' := AfterRelease(s, t);
    forall j ensures ToBeStored(s'.txns[t], j) <==> ToBeStored(s.txns[t], j) {
    }
    forall a ensures MemVersion(s', a) == MemVersion(s, a) {
      if PendingAt(s, a) && s.locks[FindLock(a)] == t {
        var j :| ToBeStored(s.txns[t], j) && s.txns[t].ws[j] == a;
        assert Held(s.txns[t], j);
      }
    }
  }

  lemma ReleaseCarries(s: State, t: TxId)
    requires Sized(s) && Releases(s, t) && OwnRelease(s, t)
    ensures Carries(s, AfterRelease(s, t))
  {
    var s' := AfterRelease(s, t);
    forall k, rv | 0 <= k < NUM_LOCKS && Doomed(s, k, rv) ensures Doomed(s', k, rv) {
    }
    forall k, v | Settled(s, k, v) ensures Settled(s', k, v) {
    }
  }

  lemma ReleaseInv(s: State, t: TxId)
    requires Inv(s) && Releases(s, t)
    ensures Inv(AfterRelease(s, t))
  {
    ReleaseOwned(s, t);
    ReleaseShape(s, t);
    ReleaseHistory(s, t);
    ReleaseLocks(s, t);
    ReleaseVersions(s, t);
    ReleaseAnnounced(s, t);
    ReleaseMemory(s, t);
    ReleaseCarries(s, t);
    Carry(s, AfterRelease(s, t));
  }

  // ---------------------------------------------------------------- storing

  /** A cursor step that holds the same locks. */
  ghost predicate SameHeld(s: State, s': State) {
    && s'.locks == s.locks && |s'.txns| == |s.txns|
    && forall u :: 0 <= u < |s.txns| ==>
         s'.txns[u] == s.txns[u].(pc := s'.txns[u].pc) && forall i :: Held(s'.txns[u], i) <==> Held(s.txns[u], i)
  }

  lemma KeepLocks(s: State, s': State)
    requires LocksOwned(s) && SameHeld(s, s')
    ensures LocksOwned(s')
  {
    forall k | k in s'.locks
      ensures exists j :: Held(s'.txns[s'.locks[k]], j) && FindLock(s'.txns[s'.locks[k]].ws[j]) == k
    {
      var j :| Held(s.txns[s.locks[k]], j) && FindLock(s.txns[s.locks[k]].ws[j]) == k;
      assert Held(s'.txns[s.locks[k]], j);
    }
    forall u, i | 0 <= u < |s'.txns| && Held(s'.txns[u], i)
      ensures FindLock(s'.txns[u].ws[i]) in s'.locks && s'.locks[FindLock(s'.txns[u].ws[i])] == u
    {
      assert Held(s.txns[u], i);
    }
  }

  ghost predicate StoresWord(s: State, t: TxId) {
    t < |s.txns| && s.txns[t].pc.Storing? && s.txns[t].pc.i < |s.txns[t].ws| && s.txns[t].pc.phase.ToStore? &&
    s.txns[t].ws[s.txns[t].pc.i] in s.txns[t].buf
  }

  ghost function AfterStore(s: State, t: TxId): State
    requires StoresWord(s, t)
  {
    var T := s.txns[t];
    var a := T.ws[T.pc.i];
    SetPc(s, t, Storing(T.pc.i, ToVersion)).(mem := s.mem[a := T.buf[a]])
  }

  /** Only one lock guards an address, so only its holder can be about to store it. */
  lemma StoredWord(s: State, t: TxId)
    requires Shapes(s) && History(s) && LocksOwned(s) && Versions(s) && Announced(s) && StoresWord(s, t)
    ensures var T := s.txns[t]; var b := T.ws[T.pc.i];
            T.wv <= s.clock && FindLock(b) in s.locks && s.locks[FindLock(b)] == t &&
            Snapshot(s.hist, s.clock, b) == T.buf[b]
  {
    var T := s.txns[t];
    var b := T.ws[T.pc.i];
    assert Shape(T, s.clock) && Held(T, T.pc.i);
    assert VersionBefore(s, T, T.pc.i);
    assert s.writer[T.wv] == t;
    assert NoWriter(s.hist, b, T.wv, s.clock);
    SnapshotSkip(s.hist, b, T.wv, s.clock);
  }

  lemma StoreMemory(s: State, t: TxId)
    requires Shapes(s) && MemoryOk(s) && StoresWord(s, t) && Shapes(AfterStore(s, t))
    requires var T := s.txns[t]; var b := T.ws[T.pc.i];
             FindLock(b) in s.locks && s.locks[FindLock(b)] == t && Snapshot(s.hist, s.clock, b) == T.buf[b]
    ensures MemoryOk(AfterStore(s, t))
  {
    var s' := AfterStore(s, t);
    var T := s.txns[t];
    var i := T.pc.i;
    assert Shape(T, s.clock);
    forall j | j != i ensures ToBeStored(s'.txns[t], j) <==> ToBeStored(T, j) {
    }
    forall a ensures 0 <= MemVersion(s', a) <= s.clock && Lookup(s'.mem, a) == Snapshot(s.hist, MemVersion(s', a), a) {
      assert Lookup(s.mem, a) == Snapshot(s.hist, MemVersion(s, a), a);
      if a == T.ws[i] {
        assert !PendingAt(s', a);
      } else {
        assert PendingAt(s', a) == PendingAt(s, a);
      }
    }
  }

  lemma StoreShape(s: State, t: TxId)
    requires Shapes(s) && StoresWord(s, t)
    ensures Shapes(AfterStore(s, t)) && SameHeld(s, AfterStore(s, t))
  {
    assert Shape(AfterStore(s, t).txns[t], s.clock);
  }

  lemma StoreHistory(s: State, t: TxId)
    requires Shapes(s) && History(s) && Announced(s) && StoresWord(s, t) && Shapes(AfterStore(s, t))
    ensures History(AfterStore(s, t)) && Announced(AfterStore(s, t))
  {
  }

  lemma StoreVersions(s: State, t: TxId)
    requires Shapes(s) && Versions(s) && StoresWord(s, t) && Shapes(AfterStore(s, t))
    ensures Versions(AfterStore(s, t))
  {
    var s' := AfterStore(s, t);
    forall u, i | 0 <= u < |s'.txns| && Held(s'.txns[u], i) && s'.txns[u].wv > 0
      ensures VersionBefore(s', s'.txns[u], i)
    {
      assert Held(s.txns[u], i);
      assert VersionBefore(s, s.txns[u], i);
    }
  }

  lemma StoreCarries(s: State, t: TxId)
    requires Sized(s) && StoresWord(s, t)
    ensures Carries(s, AfterStore(s, t))
  {
  }

  lemma StoreInv(s: State, t: TxId)
    requires Inv(s) && StoresWord(s, t)
    ensures Inv(AfterStore(s, t))
  {
    StoreShape(s, t);
    StoredWord(s, t);
    StoreMemory(s, t);
    StoreHistory(s, t);
    StoreVersions(s, t);
    KeepLocks(s, AfterStore(s, t));
    StoreCarries(s, t);
    Carry(s, AfterStore(s, t));
  }

  ghost predicate StoresVersion(s: State, t: TxId)
    requires Sized(s)
  {
    t < |s.txns| && s.txns[t].pc.Storing? && s.txns[t].pc.i < |s.txns[t].ws| && s.txns[t].pc.phase.ToVersion?
  }

  ghost function AfterVersion(s: State, t: TxId): State
    requires Sized(s) && StoresVersion(s, t)
  {
    var T := s.txns[t];
    SetPc(s, t, Storing(T.pc.i, ToRelease)).(version := s.version[FindLock(T.ws[T.pc.i]) := T.wv])
  }

  /** The version stored is larger than the one it replaces, and the lock is the transaction's own. */
  ghost predicate OwnVersion(s: State, t: TxId)
    requires Sized(s) && StoresVersion(s, t)
  {
    var T := s.txns[t];
    var k := FindLock(T.ws[T.pc.i]);
    && k in s.locks && s.locks[k] == t && s.version[k] < T.wv <= s.clock
    && (forall j :: Held(T, j) && j != T.pc.i ==> FindLock(T.ws[j]) != k)
  }

  lemma VersionOwned(s: State, t: TxId)
    requires Shapes(s) && LocksOwned(s) && Versions(s) && StoresVersion(s, t)
    ensures OwnVersion(s, t)
  {
    var T := s.txns[t];
    assert Shape(T, s.clock) && Held(T, T.pc.i);
    assert VersionBefore(s, T, T.pc.i);
  }

  lemma VersionShape(s: State, t: TxId)
    requires Shapes(s) && StoresVersion(s, t)
    ensures Shapes(AfterVersion(s, t)) && SameHeld(s, AfterVersion(s, t))
  {
    assert Shape(AfterVersion(s, t).txns[t], s.clock);
  }

  lemma VersionHistory(s: State, t: TxId)
    requires Shapes(s) && History(s) && StoresVersion(s, t) && Shapes(AfterVersion(s, t))
    ensures History(AfterVersion(s, t))
  {
  }

  lemma VersionVersions(s: State, t: TxId)
    requires Shapes(s) && LocksOwned(s) && Versions(s) && StoresVersion(s, t) && OwnVersion(s, t) &&
             Shapes(AfterVersion(s, t))
    ensures Versions(AfterVersion(s, t))
  {
    var s' := AfterVersion(s, t);
    forall u, i | 0 <= u < |s'.txns| && Held(s'.txns[u], i) && s'.txns[u].wv > 0
      ensures VersionBefore(s', s'.txns[u], i)
    {
      assert Held(s.txns[u], i);
      assert VersionBefore(s, s.txns[u], i);
    }
  }

  lemma VersionAnnounced(s: State, t: TxId)
    requires Shapes(s) && Announced(s) && StoresVersion(s, t) && OwnVersion(s, t) && Shapes(AfterVersion(s, t))
    ensures Announced(AfterVersion(s, t))
  {
  }

  lemma VersionMemory(s: State, t: TxId)
    requires Shapes(s) && MemoryOk(s) && StoresVersion(s, t) && Shapes(AfterVersion(s, t))
    ensures MemoryOk(AfterVersion(s, t))
  {
    var s' := AfterVersion(s, t);
    forall j ensures ToBeStored(s'.txns[t], j) <==> ToBeStored(s.txns[t], j) {
    }
    forall a ensures MemVersion(s', a) == MemVersion(s, a) {
    }
  }

  lemma VersionCarries(s: State, t: TxId)
    requires Sized(s) && StoresVersion(s, t) && OwnVersion(s, t)
    ensures Carries(s, AfterVersion(s, t))
  {
    var s' := AfterVersion(s, t);
    forall k, rv | 0 <= k < NUM_LOCKS && Doomed(s, k, rv) ensures Doomed(s', k, rv) {
    }
    forall k, v ensures Settled(s, k, v) <==> Settled(s', k, v) {
    }
  }

  lemma VersionInv(s: State, t: TxId)
    requires Inv(s) && StoresVersion(s, t)
    ensures Inv(AfterVersion(s, t))
  {
    VersionOwned(s, t);
    VersionShape(s, t);
    VersionHistory(s, t);
    VersionVersions(s, t);
    VersionAnnounced(s, t);
    VersionMemory(s, t);
    KeepLocks(s, AfterVersion(s, t));
    VersionCarries(s, t);
    Carry(s, AfterVersion(s, t));
  }

  ghost predicate Finishes(s: State, t: TxId) {
    t < |s.txns| && s.txns[t].pc == Storing(|s.txns[t].ws|, ToStore)
  }

  lemma FinishShape(s: State, t: TxId)
    requires Shapes(s) && Finishes(s, t)
    ensures var s' := SetPc(s, t, Committed); Shapes(s') && SameHeld(s, s')
  {
    assert Shape(SetPc(s, t, Committed).txns[t], s.clock);
  }

  lemma FinishHistory(s: State, t: TxId)
    requires Shapes(s) && History(s) && Announced(s) && Finishes(s, t) && Shapes(SetPc(s, t, Committed))
    ensures History(SetPc(s, t, Committed)) && Announced(SetPc(s, t, Committed))
  {
    assert Shape(s.txns[t], s.clock);
  }

  lemma FinishVersions(s: State, t: TxId)
    requires Shapes(s) && Versions(s) && Finishes(s, t) && Shapes(SetPc(s, t, Committed))
    ensures Versions(SetPc(s, t, Committed))
  {
    var s' := SetPc(s, t, Committed);
    forall u, i | 0 <= u < |s'.txns| && Held(s'.txns[u], i) && s'.txns[u].wv > 0
      ensures VersionBefore(s', s'.txns[u], i)
    {
      assert Held(s.txns[u], i);
      assert VersionBefore(s, s.txns[u], i);
    }
  }

  lemma FinishMemory(s: State, t: TxId)
    requires Shapes(s) && MemoryOk(s) && Finishes(s, t) && Shapes(SetPc(s, t, Committed))
    ensures MemoryOk(SetPc(s, t, Committed))
  {
    var s' := SetPc(s, t, Committed);
    forall j ensures !ToBeStored(s'.txns[t], j) && !ToBeStored(s.txns[t], j) {
    }
    forall a ensures MemVersion(s', a) == MemVersion(s, a) {
    }
  }

  lemma FinishCarries(s: State, t: TxId)
    requires Sized(s) && Finishes(s, t) && !s.txns[t].ro
    ensures Carries(s, SetPc(s, t, Committed))
  {
  }

  lemma FinishInv(s: State, t: TxId)
    requires Inv(s) && Finishes(s, t)
    ensures Inv(SetPc(s, t, Committed))
  {
    assert Shape(s.txns[t], s.clock);
    FinishShape(s, t);
    FinishHistory(s, t);
    FinishVersions(s, t);
    FinishMemory(s, t);
    KeepLocks(s, SetPc(s, t, Committed));
    FinishCarries(s, t);
    Carry(s, SetPc(s, t, Committed));
  }

  // ---------------------------------------------------------------- beginning

  lemma BeginShape(s: State, ro: bool)
    requires Shapes(s)
    ensures Shapes(BeginTx(s, ro))
  {
    assert Shape(BeginTx(s, ro).txns[|s.txns|], s.clock);
  }

  lemma BeginLedger(s: State, ro: bool)
    requires Shapes(s) && History(s) && Versions(s) && Announced(s) && Shapes(BeginTx(s, ro))
    ensures History(BeginTx(s, ro)) && Versions(BeginTx(s, ro)) && Announced(BeginTx(s, ro))
  {
    var s' := BeginTx(s, ro);
    assert forall u :: 0 <= u < |s.txns| ==> s'.txns[u] == s.txns[u];
    forall u, i | 0 <= u < |s'.txns| && Held(s'.txns[u], i) && s'.txns[u].wv > 0
      ensures VersionBefore(s', s'.txns[u], i)
    {
      assert Held(s.txns[u], i);
      assert VersionBefore(s, s.txns[u], i);
    }
  }

  lemma BeginLocks(s: State, ro: bool)
    requires LocksOwned(s)
    ensures LocksOwned(BeginTx(s, ro))
  {
    var s' := BeginTx(s, ro);
    assert forall u :: 0 <= u < |s.txns| ==> s'.txns[u] == s.txns[u];
  }

  lemma BeginMemory(s: State, ro: bool)
    requires Shapes(s) && LocksOwned(s) && MemoryOk(s) && Shapes(BeginTx(s, ro))
    ensures MemoryOk(BeginTx(s, ro))
  {
    var s' := BeginTx(s, ro);
    assert forall u :: 0 <= u < |s.txns| ==> s'.txns[u] == s.txns[u];
    forall a ensures MemVersion(s', a) == MemVersion(s, a) {
    }
  }

  lemma BeginSettled(s: State, ro: bool)
    requires LocksOwned(s)
    ensures forall k, v :: Settled(BeginTx(s, ro), k, v) == Settled(s, k, v)
  {
    var s' := BeginTx(s, ro);
    assert forall u :: 0 <= u < |s.txns| ==> s'.txns[u] == s.txns[u];
  }

  lemma BeginReads(s: State, ro: bool)
    requires LocksOwned(s) && ReadsOk(s)
    ensures ReadsOk(BeginTx(s, ro))
  {
    var s' := BeginTx(s, ro);
    BeginSettled(s, ro);
    forall u, n | 0 <= u < |s'.txns| && 0 <= n < |s'.txns[u].ops| ensures OpOk(s', s'.txns[u].rv, s'.txns[u].ops[n]) {
      assert TxReadsOk(s, s.txns[u]);
      assert OpOk(s, s.txns[u].rv, s.txns[u].ops[n]);
    }
  }

  lemma BeginCopies(s: State, ro: bool)
    requires Shapes(s) && LocksOwned(s) && CopiesOk(s)
    ensures CopiesOk(BeginTx(s, ro))
  {
    var s' := BeginTx(s, ro);
    BeginSettled(s, ro);
    forall u | 0 <= u < |s'.txns| ensures TxCopyOk(s', s'.txns[u]) {
      assert u < |s.txns| ==> TxCopyOk(s, s.txns[u]);
    }
  }

  lemma BeginNodes(s: State, ro: bool)
    requires LocksOwned(s) && Validated(s)
    ensures Validated(BeginTx(s, ro))
  {
    var s' := BeginTx(s, ro);
    BeginSettled(s, ro);
    forall u | 0 <= u < |s'.txns| ensures TxValidated(s', s'.txns[u]) {
      if u < |s.txns| {
        assert TxValidated(s, s.txns[u]);
        forall j | 0 <= j < Accepted(s'.txns[u]) && j < |s'.txns[u].rs| ensures NodeOk(s', s'.txns[u], j) {
          assert NodeOk(s, s.txns[u], j);
        }
      }
    }
  }

  lemma BeginInv(s: State, ro: bool)
    requires Inv(s)
    ensures Inv(BeginTx(s, ro))
  {
    BeginShape(s, ro);
    BeginLedger(s, ro);
    BeginLocks(s, ro);
    BeginMemory(s, ro);
    BeginReads(s, ro);
    BeginCopies(s, ro);
    BeginNodes(s, ro);
  }

  // ---------------------------------------------------------------- drawing a version

  ghost predicate TakesVersion(s: State, t: TxId) {
    t < |s.txns| && s.txns[t].pc.Locking? && s.txns[t].pc.i == |s.txns[t].ws|
  }

  lemma TakeShape(s: State, t: TxId)
    requires Shapes(s) && TakesVersion(s, t)
    ensures Shapes(TakeVersion(s, t))
  {
    var s' := TakeVersion(s, t);
    assert Shape(s.txns[t], s.clock);
    assert Shape(s'.txns[t], s'.clock);
    forall u | 0 <= u < |s.txns| && u != t ensures Shape(s'.txns[u], s'.clock) {
      assert Shape(s.txns[u], s.clock);
    }
  }

  lemma TakeHistory(s: State, t: TxId)
    requires Shapes(s) && History(s) && Announced(s) && TakesVersion(s, t) && Shapes(TakeVersion(s, t))
    ensures History(TakeVersion(s, t)) && Announced(TakeVersion(s, t))
  {
    assert Shape(s.txns[t], s.clock);
  }

  lemma TakeHeld(s: State, t: TxId)
    requires Shapes(s) && TakesVersion(s, t)
    ensures forall u, i :: 0 <= u < |s.txns| ==> (Held(TakeVersion(s, t).txns[u], i) <==> Held(s.txns[u], i))
  {
    assert Shape(s.txns[t], s.clock);
  }

  lemma TakeLocks(s: State, t: TxId)
    requires Shapes(s) && LocksOwned(s) && TakesVersion(s, t)
    ensures LocksOwned(TakeVersion(s, t))
  {
    var s' := TakeVersion(s, t);
    TakeHeld(s, t);
    forall k | k in s'.locks
      ensures exists j :: Held(s'.txns[s'.locks[k]], j) && FindLock(s'.txns[s'.locks[k]].ws[j]) == k
    {
      var j :| Held(s.txns[s.locks[k]], j) && FindLock(s.txns[s.locks[k]].ws[j]) == k;
      assert Held(s'.txns[s.locks[k]], j);
    }
    forall u, i | 0 <= u < |s'.txns| && Held(s'.txns[u], i)
      ensures FindLock(s'.txns[u].ws[i]) in s'.locks && s'.locks[FindLock(s'.txns[u].ws[i])] == u
    {
      assert Held(s.txns[u], i);
    }
  }

  lemma TakeVersions(s: State, t: TxId)
    requires Shapes(s) && Versions(s) && TakesVersion(s, t) && Shapes(TakeVersion(s, t))
    ensures Versions(TakeVersion(s, t))
  {
    var s' := TakeVersion(s, t);
    forall u, i | 0 <= u < |s'.txns| && Held(s'.txns[u], i) && s'.txns[u].wv > 0
      ensures VersionBefore(s', s'.txns[u], i)
    {
      if u != t {
        assert Held(s.txns[u], i);
        assert VersionBefore(s, s.txns[u], i);
      }
    }
  }

  lemma TakeMemory(s: State, t: TxId)
    requires Shapes(s) && LocksOwned(s) && MemoryOk(s) && TakesVersion(s, t) && Shapes(TakeVersion(s, t))
    ensures MemoryOk(TakeVersion(s, t))
  {
    var s' := TakeVersion(s, t);
    SnapshotAppend(s.hist, map[]);
    forall a ensures 0 <= MemVersion(s', a) <= s'.clock &&
        Lookup(s'.mem, a) == Snapshot(s'.hist, MemVersion(s', a), a) {
      assert Lookup(s.mem, a) == Snapshot(s.hist, MemVersion(s, a), a);
      assert PendingAt(s', a) == PendingAt(s, a);
    }
  }

  lemma TakeSettled(s: State, t: TxId, k: int, v: int)
    requires Sized(s) && t < |s.txns| && Settled(s, k, v) && v <= s.clock
    ensures Settled(TakeVersion(s, t), k, v)
  {
  }

  lemma TakeSeen(s: State, t: TxId, rv: nat, a: Addr, w: Word, asof: nat)
    requires t < |s.txns| && |s.hist| == s.clock + 1 && Seen(s.hist, rv, a, w, asof)
    ensures Seen(TakeVersion(s, t).hist, rv, a, w, asof)
  {
    SnapshotAppend(s.hist, map[]);
  }

  lemma TakeReads(s: State, t: TxId)
    requires Shapes(s) && ReadsOk(s) && TakesVersion(s, t)
    ensures ReadsOk(TakeVersion(s, t))
  {
    var s' := TakeVersion(s, t);
    forall u, n | 0 <= u < |s'.txns| && 0 <= n < |s'.txns[u].ops| ensures OpOk(s', s'.txns[u].rv, s'.txns[u].ops[n]) {
      assert TxReadsOk(s, s.txns[u]);
      var rv, op := s.txns[u].rv, s.txns[u].ops[n];
      assert OpOk(s, rv, op);
      if op.Read? && !op.own {
        TakeSettled(s, t, FindLock(op.a), rv);
        TakeSeen(s, t, rv, op.a, op.w, op.asof);
      }
    }
  }

  lemma TakeCopy(s: State, t: TxId, rv: nat, a: Addr, w: Word, asof: nat)
    requires Shapes(s) && TakesVersion(s, t) && CopyOk(s, rv, a, w, asof) && rv <= s.clock
    ensures CopyOk(TakeVersion(s, t), rv, a, w, asof)
  {
    assert Shape(s.txns[t], s.clock);
    if Seen(s.hist, rv, a, w, asof) {
      TakeSeen(s, t, rv, a, w, asof);
    }
  }

  lemma TakeTested(s: State, t: TxId, rv: nat, a: Addr, w: Word, asof: nat)
    requires Shapes(s) && TakesVersion(s, t) && TestedOk(s, rv, a, w, asof) && rv <= s.clock
    ensures TestedOk(TakeVersion(s, t), rv, a, w, asof)
  {
    if Seen(s.hist, rv, a, w, asof) {
      TakeSeen(s, t, rv, a, w, asof);
    }
  }

  lemma TakeCopies(s: State, t: TxId)
    requires Shapes(s) && CopiesOk(s) && TakesVersion(s, t)
    ensures Sized(TakeVersion(s, t)) && CopiesOk(TakeVersion(s, t))
  {
    var s' := TakeVersion(s, t);
    forall u | 0 <= u < |s'.txns| ensures TxCopyOk(s', s'.txns[u]) {
      var T := s.txns[u];
      assert TxCopyOk(s, T) && Shape(T, s.clock);
      if T.pc.Copied? && !T.pc.own {
        TakeCopy(s, t, T.rv, T.pc.a, T.pc.w, T.pc.asof);
      } else if T.pc.Tested? && !T.pc.own {
        TakeTested(s, t, T.rv, T.pc.a, T.pc.w, T.pc.asof);
      }
    }
  }

  lemma TakeNodes(s: State, t: TxId)
    requires Shapes(s) && Validated(s) && TakesVersion(s, t)
    ensures Validated(TakeVersion(s, t))
  {
    var s' := TakeVersion(s, t);
    forall u | 0 <= u < |s'.txns| ensures TxValidated(s', s'.txns[u]) {
      var T := s.txns[u];
      assert TxValidated(s, T) && Shape(T, s.clock);
      forall j | 0 <= j < Logged(s'.txns[u]) && j < |T.rs| ensures Settled(s', FindLock(T.rs[j]), T.rv) {
        TakeSettled(s, t, FindLock(T.rs[j]), T.rv);
      }
      forall j | 0 <= j < Accepted(s'.txns[u]) && j < |T.rs| ensures NodeOk(s', s'.txns[u], j) {
        if u != t {
          assert NodeOk(s, T, j);
          TakeSettled(s, t, FindLock(T.rs[j]), T.wv - 1);
        } else {
          TakeSettled(s, t, FindLock(T.rs[j]), T.rv);
        }
      }
      if u != t && T.pc.Validating? && T.pc.loaded && T.pc.j < |T.rs| {
        TakeSettled(s, t, FindLock(T.rs[T.pc.j]), T.wv - 1);
      }
    }
  }

  lemma TakeInv(s: State, t: TxId)
    requires Inv(s) && TakesVersion(s, t)
    ensures Inv(TakeVersion(s, t))
  {
    TakeShape(s, t);
    TakeHistory(s, t);
    TakeLocks(s, t);
    TakeVersions(s, t);
    TakeMemory(s, t);
    TakeReads(s, t);
    TakeCopies(s, t);
    TakeNodes(s, t);
  }

  // ---------------------------------------------------------------- the decision to commit

  ghost predicate Decides(s: State, t: TxId)
    requires Shapes(s)
  {
    t < |s.txns| && s.txns[t].pc.Validating? && s.txns[t].pc.j == |s.txns[t].rs|
  }

  ghost function AfterDecide(s: State, t: TxId): State
    requires Shapes(s) && Decides(s, t)
  {
    SetPc(s, t, Storing(0, ToStore)).(hist := s.hist[s.txns[t].wv := s.txns[t].buf])
  }

  /** The decider holds the lock of everything it wrote, nobody wrote there after it, and its entry
      in the history is still empty. */
  ghost predicate DecideReady(s: State, t: TxId)
    requires Shapes(s) && Decides(s, t)
  {
    var T := s.txns[t];
    && 0 < T.wv <= s.clock && s.hist[T.wv] == map[]
    && forall a :: a in T.buf ==>
         FindLock(a) in s.locks && s.locks[FindLock(a)] == t && NoWriter(s.hist, a, T.wv - 1, s.clock)
  }

  lemma DeciderHolds(s: State, t: TxId)
    requires Shapes(s) && History(s) && LocksOwned(s) && Versions(s) && Announced(s) && Decides(s, t)
    ensures DecideReady(s, t)
  {
    var T := s.txns[t];
    assert Shape(T, s.clock);
    assert s.writer[T.wv] == t;
    forall a | a in T.buf
      ensures FindLock(a) in s.locks && s.locks[FindLock(a)] == t && NoWriter(s.hist, a, T.wv - 1, s.clock)
    {
      assert a in T.ws;
      var i :| 0 <= i < |T.ws| && T.ws[i] == a;
      assert Held(T, i);
      assert VersionBefore(s, T, i);
    }
  }

  lemma DecideShape(s: State, t: TxId)
    requires Shapes(s) && Decides(s, t)
    ensures Shapes(AfterDecide(s, t)) && SameHeld(s, AfterDecide(s, t))
  {
    assert Shape(s.txns[t], s.clock);
    assert Shape(AfterDecide(s, t).txns[t], s.clock);
  }

  lemma DecideHistory(s: State, t: TxId)
    requires Shapes(s) && History(s) && Decides(s, t) && Shapes(AfterDecide(s, t))
    ensures History(AfterDecide(s, t))
  {
    assert Shape(s.txns[t], s.clock);
    assert s.writer[s.txns[t].wv] == t;
  }

  lemma DecideVersions(s: State, t: TxId)
    requires Shapes(s) && Versions(s) && Decides(s, t) && Shapes(AfterDecide(s, t))
    ensures Versions(AfterDecide(s, t))
  {
    var s' := AfterDecide(s, t);
    forall u, i | 0 <= u < |s'.txns| && Held(s'.txns[u], i) && s'.txns[u].wv > 0
      ensures VersionBefore(s', s'.txns[u], i)
    {
      assert Held(s.txns[u], i);
      assert VersionBefore(s, s.txns[u], i);
    }
  }

  lemma DecideAnnounced(s: State, t: TxId)
    requires Shapes(s) && History(s) && Announced(s) && Decides(s, t) && DecideReady(s, t) && Shapes(AfterDecide(s, t))
    ensures Announced(AfterDecide(s, t))
  {
    var s' := AfterDecide(s, t);
    forall v, a | 0 < v <= s'.clock && a in s'.hist[v]
      ensures s.version[FindLock(a)] >= v || (FindLock(a) in s.locks && s.locks[FindLock(a)] == s.writer[v])
    {
      if v == s.txns[t].wv {
        assert s.writer[v] == t;
      } else {
        assert a in s.hist[v];
      }
    }
  }

  lemma DecideMemory(s: State, t: TxId)
    requires Shapes(s) && MemoryOk(s) && Decides(s, t) && DecideReady(s, t) && Shapes(AfterDecide(s, t))
    ensures MemoryOk(AfterDecide(s, t))
  {
    var s' := AfterDecide(s, t);
    var T := s.txns[t];
    SnapshotUpdate(s.hist, T.wv, T.buf);
    forall a ensures 0 <= MemVersion(s', a) <= s'.clock &&
        Lookup(s'.mem, a) == Snapshot(s'.hist, MemVersion(s', a), a) {
      assert Lookup(s.mem, a) == Snapshot(s.hist, MemVersion(s, a), a);
      if a in T.buf {
        assert Shape(T, s.clock);
        var i :| 0 <= i < |T.ws| && T.ws[i] == a;
        assert ToBeStored(s'.txns[t], i);
        SnapshotSkip(s.hist, a, T.wv - 1, s.clock);
      } else {
        DecideElsewhere(s, t, a);
      }
    }
  }

  lemma DecideElsewhere(s: State, t: TxId, a: Addr)
    requires Shapes(s) && Decides(s, t) && a !in s.txns[t].buf
    ensures PendingAt(AfterDecide(s, t), a) == PendingAt(s, a)
  {
    assert Shape(s.txns[t], s.clock);
  }

  lemma DecideSeen(s: State, t: TxId, rv: nat, a: Addr, w: Word, asof: nat)
    requires Shapes(s) && Decides(s, t) && DecideReady(s, t) && Seen(s.hist, rv, a, w, asof)
    requires a in s.txns[t].buf && s.txns[t].wv <= rv ==> asof + 1 == s.txns[t].wv
    ensures Seen(AfterDecide(s, t).hist, rv, a, w, asof)
  {
    SnapshotUpdate(s.hist, s.txns[t].wv, s.txns[t].buf);
  }

  lemma DecideSettled(s: State, t: TxId)
    requires Shapes(s) && Decides(s, t)
    ensures forall k, v :: Settled(AfterDecide(s, t), k, v) == Settled(s, k, v)
  {
  }

  lemma DecideReads(s: State, t: TxId)
    requires Shapes(s) && ReadsOk(s) && Decides(s, t) && DecideReady(s, t)
    ensures ReadsOk(AfterDecide(s, t))
  {
    var s' := AfterDecide(s, t);
    DecideSettled(s, t);
    forall u, n | 0 <= u < |s'.txns| && 0 <= n < |s'.txns[u].ops| ensures OpOk(s', s'.txns[u].rv, s'.txns[u].ops[n]) {
      assert TxReadsOk(s, s.txns[u]);
      var rv, op := s.txns[u].rv, s.txns[u].ops[n];
      assert OpOk(s, rv, op);
      if op.Read? && !op.own {
        DecideSeen(s, t, rv, op.a, op.w, op.asof);
      }
    }
  }

  lemma DecideCopy(s: State, t: TxId, rv: nat, a: Addr, w: Word, asof: nat)
    requires Shapes(s) && Decides(s, t) && DecideReady(s, t) && CopyOk(s, rv, a, w, asof)
    ensures CopyOk(AfterDecide(s, t), rv, a, w, asof)
  {
    DecideSettled(s, t);
    if Seen(s.hist, rv, a, w, asof) {
      DecideSeen(s, t, rv, a, w, asof);
    }
  }

  lemma DecideTested(s: State, t: TxId, rv: nat, a: Addr, w: Word, asof: nat)
    requires Shapes(s) && Decides(s, t) && DecideReady(s, t) && TestedOk(s, rv, a, w, asof)
    ensures TestedOk(AfterDecide(s, t), rv, a, w, asof)
  {
    DecideSettled(s, t);
    if Seen(s.hist, rv, a, w, asof) {
      DecideSeen(s, t, rv, a, w, asof);
    }
  }

  lemma DecideCopies(s: State, t: TxId)
    requires Shapes(s) && CopiesOk(s) && Decides(s, t) && DecideReady(s, t)
    ensures Sized(AfterDecide(s, t)) && CopiesOk(AfterDecide(s, t))
  {
    var s' := AfterDecide(s, t);
    forall u | 0 <= u < |s'.txns| ensures TxCopyOk(s', s'.txns[u]) {
      var T := s.txns[u];
      assert TxCopyOk(s, T);
      if T.pc.Copied? && !T.pc.own {
        DecideCopy(s, t, T.rv, T.pc.a, T.pc.w, T.pc.asof);
      } else if T.pc.Tested? && !T.pc.own {
        DecideTested(s, t, T.rv, T.pc.a, T.pc.w, T.pc.asof);
      }
    }
  }

  lemma DecideNode(s: State, t: TxId, u: TxId, j: nat)
    requires Shapes(s) && Decides(s, t) && DecideReady(s, t)
    requires u < |s.txns| && j < |s.txns[u].rs| && NodeOk(s, s.txns[u], j)
    ensures NodeOk(AfterDecide(s, t), AfterDecide(s, t).txns[u], j)
  {
    DecideSettled(s, t);
  }

  lemma DecideNodes(s: State, t: TxId)
    requires Shapes(s) && Validated(s) && Decides(s, t) && DecideReady(s, t)
    ensures Validated(AfterDecide(s, t))
  {
    var s' := AfterDecide(s, t);
    DecideSettled(s, t);
    forall u | 0 <= u < |s'.txns| ensures TxValidated(s', s'.txns[u]) {
      assert TxValidated(s, s.txns[u]);
      forall j | 0 <= j < Accepted(s'.txns[u]) && j < |s'.txns[u].rs| ensures NodeOk(s', s'.txns[u], j) {
        assert NodeOk(s, s.txns[u], j);
        DecideNode(s, t, u, j);
      }
    }
  }

  lemma DecideInv(s: State, t: TxId)
    requires Inv(s) && Decides(s, t)
    ensures Inv(AfterDecide(s, t))
  {
    DeciderHolds(s, t);
    DecideShape(s, t);
    DecideHistory(s, t);
    DecideVersions(s, t);
    DecideAnnounced(s, t);
    DecideMemory(s, t);
    KeepLocks(s, AfterDecide(s, t));
    DecideReads(s, t);
    DecideCopies(s, t);
    DecideNodes(s, t);
  }

  // ---------------------------------------------------------------- reading

  /** A later writer of the address is still about to announce itself, or already did. */
  lemma NoLaterWriter(s: State, a: Addr, v: nat)
    requires Shapes(s) && History(s) && Announced(s) && v <= s.clock && !Doomed(s, FindLock(a), v)
    ensures NoWriter(s.hist, a, v, s.clock)
  {
    forall u | v < u <= s.clock ensures a !in s.hist[u] {
      assert s.txns[s.writer[u]].wv == u;
    }
  }

  lemma PendingHolder(s: State, a: Addr)
    requires Shapes(s) && LocksOwned(s) && Versions(s) && PendingAt(s, a)
    ensures var U := s.txns[s.locks[FindLock(a)]];
            Decided(U) && a in U.buf && 0 < U.wv <= s.clock && s.version[FindLock(a)] < U.wv
  {
    var u := s.locks[FindLock(a)];
    var i :| 0 <= i < |s.txns[u].ws| && ToBeStored(s.txns[u], i) && s.txns[u].ws[i] == a;
    assert Held(s.txns[u], i);
    assert VersionBefore(s, s.txns[u], i);
  }

  /** What a copy made while nobody entitled to version `rv` holds the lock returns. */
  lemma CopySettled(s: State, rv: nat, a: Addr)
    requires Shapes(s) && History(s) && LocksOwned(s) && Versions(s) && Announced(s) && MemoryOk(s) &&
             rv <= s.clock && Settled(s, FindLock(a), rv)
    ensures CopyOk(s, rv, a, Lookup(s.mem, a), rv)
  {
    var k := FindLock(a);
    if !Doomed(s, k, rv) {
      NoLaterWriter(s, a, rv);
      if PendingAt(s, a) {
        PendingHolder(s, a);
      }
      assert Lookup(s.mem, a) == Snapshot(s.hist, MemVersion(s, a), a);
      SnapshotSkip(s.hist, a, rv, MemVersion(s, a));
    }
  }

  /** The holder of a lock that drew version `v` is the last writer there. */
  lemma HolderIsLast(s: State, k: int, a: Addr)
    requires Shapes(s) && History(s) && LocksOwned(s) && Versions(s) && Announced(s) && FindLock(a) == k &&
             k in s.locks && s.txns[s.locks[k]].wv > 0
    ensures NoWriter(s.hist, a, s.txns[s.locks[k]].wv, s.clock)
  {
    var u := s.locks[k];
    var i :| Held(s.txns[u], i) && FindLock(s.txns[u].ws[i]) == k;
    assert VersionBefore(s, s.txns[u], i);
    forall v | s.txns[u].wv < v <= s.clock ensures a !in s.hist[v] {
      assert s.txns[s.writer[v]].wv == v;
    }
  }

  /** What a copy made under the lock of a writer entitled to version `rv` returns. */
  lemma CopyUnsettled(s: State, rv: nat, a: Addr)
    requires Shapes(s) && History(s) && LocksOwned(s) && Versions(s) && Announced(s) && MemoryOk(s) &&
             rv <= s.clock && !Settled(s, FindLock(a), rv)
    ensures CopyOk(s, rv, a, Lookup(s.mem, a), AsOf(s, rv, a))
  {
    var k := FindLock(a);
    var u := s.locks[k];
    var U := s.txns[u];
    HolderIsLast(s, k, a);
    assert Lookup(s.mem, a) == Snapshot(s.hist, MemVersion(s, a), a);
    assert s.writer[U.wv] == u;
    if PendingAt(s, a) {
      PendingHolder(s, a);
    } else if Decided(U) || a !in U.buf {
      assert AsOf(s, rv, a) == rv;
      SnapshotSkip(s.hist, a, rv, s.clock);
    } else {
      SnapshotSkip(s.hist, a, U.wv - 1, s.clock);
    }
  }

  lemma CopyTxOk(s: State, T: Tx, a: Addr)
    requires Inv(s) && T.rv <= s.clock
    ensures TxCopyOk(s, CopyTx(s, T, a))
  {
    if Settled(s, FindLock(a), T.rv) {
      CopySettled(s, T.rv, a);
    } else {
      CopyUnsettled(s, T.rv, a);
    }
  }

  lemma CopyTxNodes(s: State, T: Tx, a: Addr)
    requires T.pc.Active? && Shape(T, s.clock) && TxValidated(s, T)
    ensures var T' := CopyTx(s, T, a); Quiet(T, T') && Shape(T', s.clock) && TxValidated(s, T')
  {
  }

  lemma CopyInv(s: State, t: TxId, a: Addr)
    requires Inv(s) && Enabled(s, CopyWord(t, a))
    ensures Inv(Next(s, CopyWord(t, a)))
  {
    var T := s.txns[t];
    assert Shape(T, s.clock) && TxValidated(s, T) && TxReadsOk(s, T);
    CopyTxOk(s, T, a);
    CopyTxNodes(s, T, a);
    QuietStep(s, t, CopyTx(s, T, a));
  }

  lemma AbortTxOk(s: State, T: Tx)
    requires Sized(s) && TxOk(s, T) && Reading(T)
    ensures Quiet(T, T.(pc := Aborted)) && TxOk(s, T.(pc := Aborted))
  {
  }

  lemma TestLockOk(s: State, T: Tx)
    requires Sized(s) && TxOk(s, T) && T.pc.Copied? && FindLock(T.pc.a) !in s.locks
    ensures var T' := T.(pc := Tested(T.pc.a, T.pc.w, T.pc.own, T.pc.asof)); Quiet(T, T') && TxOk(s, T')
  {
  }

  lemma TestVersionOk(s: State, T: Tx)
    requires Sized(s) && TxOk(s, T) && T.pc.Tested? && s.version[FindLock(T.pc.a)] <= T.rv
    ensures var T' := T.(pc := Active, ops := T.ops + [Read(T.pc.a, T.pc.w, T.pc.own, T.pc.asof)]);
            Quiet(T, T') && TxOk(s, T')
  {
  }

  lemma ReadingInv(s: State, t: TxId)
    requires Inv(s) && t < |s.txns| && Reading(s.txns[t])
    ensures Inv(ReadingStep(s, t))
  {
    var T := s.txns[t];
    var k := FindLock(T.pc.a);
    assert TxOk(s, T);
    if T.pc.Copied? && k !in s.locks {
      TestLockOk(s, T);
    } else if T.pc.Tested? && s.version[k] <= T.rv {
      TestVersionOk(s, T);
    } else {
      AbortTxOk(s, T);
    }
    QuietStep(s, t, ReadingStep(s, t).txns[t]);
  }

  // ---------------------------------------------------------------- every step

  /** What a quiet step of one transaction has to establish about it. */
  ghost predicate TxOk(s: State, T: Tx)
    requires Sized(s)
  {
    Shape(T, s.clock) && TxValidated(s, T) && TxReadsOk(s, T) && TxCopyOk(s, T)
  }

  lemma WriteTxOk(s: State, T: Tx, a: Addr, w: Word)
    requires Sized(s) && TxOk(s, T) && T.pc.Active? && !T.ro
    ensures Quiet(T, WriteTx(T, a, w)) && TxOk(s, WriteTx(T, a, w))
  {
  }

  lemma AllocTxOk(s: State, T: Tx, a: Addr, n: nat)
    requires Sized(s) && TxOk(s, T) && T.pc.Active?
    ensures var T' := T.(ops := T.ops + [Alloc(a, n)]); Quiet(T, T') && TxOk(s, T')
  {
  }

  lemma EndTxOk(s: State, T: Tx)
    requires Sized(s) && TxOk(s, T) && T.pc.Active?
    ensures Quiet(T, EndTx(T)) && TxOk(s, EndTx(T))
  {
  }

  lemma ClientInv(s: State, e: Event)
    requires Inv(s) && Enabled(s, e) && (e.WriteWord? || e.End?)
    ensures Inv(Next(s, e))
  {
    var T := s.txns[e.t];
    assert TxOk(s, T);
    if e.WriteWord? {
      WriteTxOk(s, T, e.a, e.w);
      QuietStep(s, e.t, WriteTx(T, e.a, e.w));
    } else {
      EndTxOk(s, T);
      QuietStep(s, e.t, EndTx(T));
    }
  }

  /** The invariant does not look at what is allocated. */
  lemma AllocedInv(s: State, s': State)
    requires Inv(s) && s' == s.(alloced := s'.alloced)
    ensures Inv(s')
  {
    assert Shapes(s') && History(s') && LocksOwned(s') && Versions(s') && Announced(s');
    AllocedMemory(s, s');
    AllocedReads(s, s');
  }

  lemma AllocedMemory(s: State, s': State)
    requires Shapes(s) && MemoryOk(s) && s' == s.(alloced := s'.alloced)
    ensures Shapes(s') && MemoryOk(s')
  {
    forall a ensures MemVersion(s', a) == MemVersion(s, a) {
    }
  }

  lemma AllocedReads(s: State, s': State)
    requires Sized(s) && ReadsOk(s) && CopiesOk(s) && Validated(s) && s' == s.(alloced := s'.alloced)
    ensures ReadsOk(s') && CopiesOk(s') && Validated(s')
  {
    forall u | 0 <= u < |s'.txns|
      ensures TxReadsOk(s', s'.txns[u]) && TxCopyOk(s', s'.txns[u]) && TxValidated(s', s'.txns[u])
    {
      assert TxReadsOk(s, s.txns[u]) && TxCopyOk(s, s.txns[u]) && TxValidated(s, s.txns[u]);
      forall n | 0 <= n < |s.txns[u].ops| ensures OpOk(s', s.txns[u].rv, s.txns[u].ops[n]) {
        assert OpOk(s, s.txns[u].rv, s.txns[u].ops[n]);
      }
      forall j | 0 <= j < Accepted(s'.txns[u]) && j < |s'.txns[u].rs| ensures NodeOk(s', s'.txns[u], j) {
        assert NodeOk(s, s.txns[u], j);
      }
    }
  }

  lemma AllocInv(s: State, e: Event)
    requires Inv(s) && Enabled(s, e) && e.AllocSegment?
    ensures Inv(Next(s, e))
  {
    var T := s.txns[e.t];
    var T' := T.(ops := T.ops + [Alloc(e.a, e.n)]);
    assert TxOk(s, T);
    AllocTxOk(s, T, e.a, e.n);
    QuietStep(s, e.t, T');
    AllocedInv(SetTx(s, e.t, T'), Next(s, e));
  }

  /** Cursor steps of tm_end that only look at the shared words. */
  ghost predicate Looks(T: Tx, pc: Pc) {
    || (T.pc.Locking? && T.pc.i < |T.ws| && pc.Locking? && pc.i == T.pc.i && pc.bound <= 4)
    || (T.pc.Locking? && T.pc.i < |T.ws| && pc == Unlocking(0, T.pc.i))
    || (T.pc.Validating? && pc == Unlocking(0, |T.ws|))
    || (T.pc.Unlocking? && T.pc.i >= T.pc.n && pc == Aborted)
  }

  lemma LookingTxOk(s: State, T: Tx, pc: Pc)
    requires Sized(s) && TxOk(s, T) && Looks(T, pc)
    ensures Quiet(T, T.(pc := pc)) && TxOk(s, T.(pc := pc))
  {
  }

  lemma LookingInv(s: State, t: TxId, pc: Pc)
    requires Inv(s) && t < |s.txns| && Looks(s.txns[t], pc)
    ensures Inv(SetPc(s, t, pc))
  {
    var T := s.txns[t];
    assert TxOk(s, T);
    LookingTxOk(s, T, pc);
    QuietStep(s, t, T.(pc := pc));
  }

  lemma ValidateLockInv(s: State, t: TxId)
    requires Inv(s) && t < |s.txns| && s.txns[t].pc.Validating? && !s.txns[t].pc.loaded
    requires s.txns[t].pc.j < |s.txns[t].rs| && FindLock(s.txns[t].rs[s.txns[t].pc.j]) !in s.locks
    ensures Inv(SetPc(s, t, Validating(s.txns[t].pc.j, true)))
  {
    var T := s.txns[t];
    var T' := T.(pc := Validating(T.pc.j, true));
    assert Shape(T, s.clock) && TxValidated(s, T);
    forall i | 0 <= i < |T.ws| ensures FindLock(T.ws[i]) != FindLock(T.rs[T.pc.j]) {
      assert Held(T, i);
    }
    assert TxReadsOk(s, T) ==> TxReadsOk(s, T');
    forall j | 0 <= j < Accepted(T') && j < |T'.rs| ensures NodeOk(s, T', j) {
      assert NodeOk(s, T, j);
    }
    QuietStep(s, t, T');
  }

  lemma ValidateVersionNode(s: State, t: TxId)
    requires Shapes(s) && History(s) && LocksOwned(s) && Announced(s) && Validated(s) && t < |s.txns| &&
             s.txns[t].pc.Validating? && s.txns[t].pc.loaded
    requires s.txns[t].pc.j < |s.txns[t].rs| && s.version[FindLock(s.txns[t].rs[s.txns[t].pc.j])] <= s.txns[t].rv
    ensures NodeOk(s, s.txns[t], s.txns[t].pc.j)
  {
    var T := s.txns[t];
    assert Shape(T, s.clock) && TxValidated(s, T);
    assert LoadedOk(s, T, T.pc.j);
    forall v | T.rv < v <= T.wv - 1 ensures T.rs[T.pc.j] !in s.hist[v] {
      assert s.txns[s.writer[v]].wv == v;
    }
  }

  lemma ValidateVersionTx(s: State, T: Tx)
    requires Sized(s) && Shape(T, s.clock) && TxValidated(s, T) && TxReadsOk(s, T)
    requires T.pc.Validating? && T.pc.loaded && T.pc.j < |T.rs| && NodeOk(s, T, T.pc.j)
    ensures var T' := T.(pc := Validating(T.pc.j + 1, false));
            Quiet(T, T') && Shape(T', s.clock) && TxValidated(s, T') && TxReadsOk(s, T') && TxCopyOk(s, T')
  {
    var T' := T.(pc := Validating(T.pc.j + 1, false));
    forall j | 0 <= j < Accepted(T') && j < |T'.rs| ensures NodeOk(s, T', j) {
      assert NodeOk(s, T, j);
    }
  }

  lemma ValidateVersionInv(s: State, t: TxId, T: Tx)
    requires Inv(s) && t < |s.txns| && T == s.txns[t] && T.pc.Validating? && T.pc.loaded
    requires T.pc.j < |T.rs| && NodeOk(s, T, T.pc.j)
    ensures Inv(SetPc(s, t, Validating(T.pc.j + 1, false)))
  {
    assert Shape(T, s.clock) && TxValidated(s, T) && TxReadsOk(s, T);
    ValidateVersionTx(s, T);
    QuietStep(s, t, T.(pc := Validating(T.pc.j + 1, false)));
  }

  lemma LockingInv(s: State, t: TxId)
    requires Inv(s) && t < |s.txns| && s.txns[t].pc.Locking?
    ensures s.txns[t].pc.i <= |s.txns[t].ws| && Inv(LockingStep(s, t))
  {
    var T := s.txns[t];
    assert Shape(T, s.clock);
    if T.pc.i == |T.ws| {
      TakeInv(s, t);
    } else if FindLock(T.ws[T.pc.i]) in s.locks {
      LookingInv(s, t, Backoff(T.pc.i, T.pc.bound));
    } else if T.pc.polling {
      LookingInv(s, t, Locking(T.pc.i, T.pc.bound, false));
    } else {
      AcquireInv(s, t);
    }
  }

  lemma ValidatingLoaded(s: State, t: TxId, T: Tx)
    requires Inv(s) && t < |s.txns| && T == s.txns[t] && T.pc.Validating? && T.pc.loaded && T.pc.j < |T.rs|
    ensures Inv(SetPc(s, t, if s.version[FindLock(T.rs[T.pc.j])] > T.rv then Unlocking(0, |T.ws|)
                            else Validating(T.pc.j + 1, false)))
  {
    if s.version[FindLock(T.rs[T.pc.j])] > T.rv {
      LookingInv(s, t, Unlocking(0, |T.ws|));
    } else {
      ValidateVersionNode(s, t);
      ValidateVersionInv(s, t, T);
    }
  }

  lemma ValidatingUnloaded(s: State, t: TxId, T: Tx)
    requires Inv(s) && t < |s.txns| && T == s.txns[t] && T.pc.Validating? && !T.pc.loaded && T.pc.j < |T.rs|
    ensures Inv(SetPc(s, t, if FindLock(T.rs[T.pc.j]) in s.locks then Unlocking(0, |T.ws|)
                            else Validating(T.pc.j, true)))
  {
    if FindLock(T.rs[T.pc.j]) in s.locks {
      LookingInv(s, t, Unlocking(0, |T.ws|));
    } else {
      ValidateLockInv(s, t);
    }
  }

  lemma ValidatingInv(s: State, t: TxId)
    requires Inv(s) && t < |s.txns| && s.txns[t].pc.Validating?
    requires s.txns[t].pc.j <= |s.txns[t].rs| && s.txns[t].wv < |s.hist|
    ensures Inv(ValidatingStep(s, t))
  {
    var T := s.txns[t];
    if T.pc.j == |T.rs| {
      assert ValidatingStep(s, t) == AfterDecide(s, t);
      DecideInv(s, t);
    } else if T.pc.loaded {
      var pc := if s.version[FindLock(T.rs[T.pc.j])] > T.rv then Unlocking(0, |T.ws|)
                else Validating(T.pc.j + 1, false);
      assert ValidatingStep(s, t) == SetPc(s, t, pc);
      ValidatingLoaded(s, t, T);
    } else {
      var pc := if FindLock(T.rs[T.pc.j]) in s.locks then Unlocking(0, |T.ws|) else Validating(T.pc.j, true);
      assert ValidatingStep(s, t) == SetPc(s, t, pc);
      ValidatingUnloaded(s, t, T);
    }
  }

  lemma StoringInv(s: State, t: TxId)
    requires Inv(s) && t < |s.txns| && s.txns[t].pc.Storing?
    ensures s.txns[t].pc.i <= |s.txns[t].ws| && (forall a :: a in s.txns[t].ws ==> a in s.txns[t].buf)
    ensures Inv(StoringStep(s, t))
  {
    var T := s.txns[t];
    assert Shape(T, s.clock);
    if T.pc.i == |T.ws| {
      FinishInv(s, t);
    } else if T.pc.phase.ToStore? {
      assert T.ws[T.pc.i] in T.buf;
      StoreInv(s, t);
    } else if T.pc.phase.ToVersion? {
      VersionInv(s, t);
    } else {
      ReleaseInv(s, t);
    }
  }

  lemma UnlockingInv(s: State, t: TxId)
    requires Inv(s) && t < |s.txns| && s.txns[t].pc.Unlocking?
    ensures s.txns[t].pc.n <= |s.txns[t].ws| && Inv(UnlockingStep(s, t))
  {
    assert Shape(s.txns[t], s.clock);
    if s.txns[t].pc.i < s.txns[t].pc.n {
      ReleaseInv(s, t);
    } else {
      LookingInv(s, t, Aborted);
    }
  }

  lemma NextInv(s: State, e: Event)
    requires Inv(s) && Enabled(s, e)
    ensures Inv(Next(s, e))
  {
    assert e.Advance? ==> Shape(s.txns[e.t], s.clock);
    match e
    case Begin(ro) => BeginInv(s, ro);
    case WriteWord(_, _, _) => ClientInv(s, e);
    case AllocSegment(_, _, _) => AllocInv(s, e);
    case CopyWord(t, a) => CopyInv(s, t, a);
    case End(_) => ClientInv(s, e);
    case Advance(t) =>
      match s.txns[t].pc
      case Locking(_, _, _) => LockingInv(s, t);
      case Validating(_, _) => ValidatingInv(s, t);
      case Storing(_, _) => StoringInv(s, t);
      case Unlocking(_, _) => UnlockingInv(s, t);
      case _ => ReadingInv(s, t);
  }

  /** Every state of every run satisfies the invariant. */
  lemma {:induction false} RunInv(states: seq<State>, events: seq<Event>, i: nat)
    requires IsRun(states, events) && i < |states|
    ensures Inv(states[i])
  {
    if i == 0 {
      var m: Memory, first: Segment :| states[0] == Init(m, first);
      InitInv(m, first);
    } else {
      RunInv(states, events, i - 1);
      NextInv(states[i - 1], events[i - 1]);
    }
  }

  /** A run goes on with any event that is possible. */
  lemma Extend(states: seq<State>, events: seq<Event>, e: Event)
    requires IsRun(states, events) && Enabled(states[|states| - 1], e)
    ensures Shapes(states[|states| - 1]) && Shapes(Next(states[|states| - 1], e))
    ensures IsRun(states + [Next(states[|states| - 1], e)], events + [e])
  {
    hide Next, Enabled, Inv, Shapes;
    var s := states[|states| - 1];
    RunInv(states, events, |states| - 1);
    InvShapes(s);
    NextInv(s, e);
    InvShapes(Next(s, e));
  }

  lemma InvShapes(s: State)
    requires Inv(s)
    ensures Shapes(s)
  {
  }
}
