/** Strict serializability: the committed transactions, in the order of their versions, are an
    execution of the coarse-lock reference implementation. */
module Serializability {
  import opened Striping
  import opened Tl2
  import opened Snapshots
  import opened Tl2Invariant
  import opened Tl2Trace
  import opened Tl2Theorems
  import opened Reference

  // ---------------------------------------------------------------- the order

  /** Committed, or past the point where the commit can still fail. */
  predicate Serialized(T: Tx) {
    T.pc.Committed? || T.pc.Storing?
  }

  /** The version a transaction takes effect at: the one it wrote, or the one it read. */
  function Point(T: Tx): nat {
    if T.ro then T.rv else T.wv
  }

  /** By version; read-only transactions after the writer of their version; then by begin. */
  predicate Precedes(s: State, t: TxId, u: TxId)
    requires t < |s.txns| && u < |s.txns|
  {
    var T, U := s.txns[t], s.txns[u];
    Point(T) < Point(U) ||
    (Point(T) == Point(U) && ((!T.ro && U.ro) || (T.ro == U.ro && t < u)))
  }

  ghost predicate Ascending(s: State, order: seq<TxId>) {
    && (forall i :: 0 <= i < |order| ==> order[i] < |s.txns| && Serialized(s.txns[order[i]]))
    && (forall i, j :: 0 <= i < j < |order| ==> Precedes(s, order[i], order[j]))
  }

  ghost predicate SerialOrder(s: State, order: seq<TxId>) {
    Ascending(s, order) && forall t :: 0 <= t < |s.txns| && Serialized(s.txns[t]) ==> t in order
  }

  function Insert(s: State, order: seq<TxId>, t: TxId): (r: seq<TxId>)
    requires t < |s.txns| && forall i :: 0 <= i < |order| ==> order[i] < |s.txns|
    ensures forall i :: 0 <= i < |r| ==> r[i] < |s.txns|
  {
    if order == [] || Precedes(s, order[|order| - 1], t) then order + [t]
    else Insert(s, order[..|order| - 1], t) + [order[|order| - 1]]
  }

  lemma {:induction false} InsertMembers(s: State, order: seq<TxId>, t: TxId)
    requires t < |s.txns| && forall i :: 0 <= i < |order| ==> order[i] < |s.txns|
    ensures forall u :: u in Insert(s, order, t) <==> u == t || u in order
  {
    if order != [] && !Precedes(s, order[|order| - 1], t) {
      assert order == order[..|order| - 1] + [order[|order| - 1]];
      InsertMembers(s, order[..|order| - 1], t);
    }
  }

  lemma {:induction false} InsertAscending(s: State, order: seq<TxId>, t: TxId)
    requires Ascending(s, order) && t < |s.txns| && Serialized(s.txns[t]) && t !in order
    ensures Ascending(s, Insert(s, order, t))
  {
    if order != [] && !Precedes(s, order[|order| - 1], t) {
      var init, last := order[..|order| - 1], order[|order| - 1];
      InsertAscending(s, init, t);
      InsertMembers(s, init, t);
      var r := Insert(s, init, t);
      forall i | 0 <= i < |r| ensures Precedes(s, r[i], last) {
        assert r[i] in r;
      }
    }
  }

  lemma {:induction false} OrderUpTo(s: State, n: nat) returns (order: seq<TxId>)
    requires n <= |s.txns|
    ensures Ascending(s, order)
    ensures forall t: TxId :: t in order <==> t < n && Serialized(s.txns[t])
  {
    if n == 0 {
      order := [];
    } else {
      var rest := OrderUpTo(s, n - 1);
      if Serialized(s.txns[n - 1]) {
        InsertAscending(s, rest, n - 1);
        InsertMembers(s, rest, n - 1);
        order := Insert(s, rest, n - 1);
      } else {
        order := rest;
      }
    }
  }

  /** Every state has a serial order; it is unique, since `Precedes` orders any two transactions. */
  lemma SerialOrderExists(s: State)
    ensures exists order :: SerialOrder(s, order)
  {
    var order := OrderUpTo(s, |s.txns|);
    assert SerialOrder(s, order);
  }

  // ---------------------------------------------------------------- the replay

  /** The memory after the transactions ran one after the other on the reference implementation. */
  function MemAfter(s: State, order: seq<TxId>): Memory
    requires |s.hist| > 0 && forall i :: 0 <= i < |order| ==> order[i] < |s.txns|
  {
    if order == [] then s.hist[0]
    else RunOps(MemAfter(s, order[..|order| - 1]), s.txns[order[|order| - 1]].ops)
  }

  ghost predicate SerialReplayAt(s: State, order: seq<TxId>, i: int)
    requires |s.hist| > 0 && (forall i :: 0 <= i < |order| ==> order[i] < |s.txns|) && 0 <= i < |order|
  {
    Replays(MemAfter(s, order[..i]), s.txns[order[i]].ops)
  }

  /** Every transaction reads, on the memory its predecessors left, exactly what it read in the run. */
  ghost predicate SerialReplays(s: State, order: seq<TxId>)
    requires |s.hist| > 0 && forall i :: 0 <= i < |order| ==> order[i] < |s.txns|
  {
    forall i :: 0 <= i < |order| ==> SerialReplayAt(s, order, i)
  }

  function PointBefore(s: State, order: seq<TxId>, n: nat): nat
    requires n <= |order| && forall i :: 0 <= i < |order| ==> order[i] < |s.txns|
  {
    if n == 0 then 0 else Point(s.txns[order[n - 1]])
  }

  /** The version a transaction finds in front of it. */
  function PointBelow(T: Tx): int {
    if T.ro then T.rv else T.wv - 1
  }

  /** A writer of the order took effect before the n-th place, or above what the n-th finds. */
  lemma WriterOutside(s: State, order: seq<TxId>, n: nat, u: TxId)
    requires Shapes(s) && SerialOrder(s, order) && n <= |order| && u < |s.txns|
    ensures Decided(s.txns[u]) ==>
              s.txns[u].wv <= PointBefore(s, order, n) || (n < |order| && s.txns[u].wv > PointBelow(s.txns[order[n]]))
  {
    if Decided(s.txns[u]) {
      assert Shape(s.txns[u], s.clock);
      var i :| 0 <= i < |order| && order[i] == u;
      assert i < n - 1 ==> Precedes(s, order[i], order[n - 1]);
      assert n < i ==> Precedes(s, order[n], order[i]);
    }
  }

  /** Versions between two neighbours of the order, and above the last, were drawn by transactions
      that did not commit. */
  lemma NothingBetween(s: State, order: seq<TxId>, n: nat, v: nat)
    requires Shapes(s) && History(s) && SerialOrder(s, order) && n <= |order|
    requires PointBefore(s, order, n) < v <= s.clock && (n < |order| ==> v <= PointBelow(s.txns[order[n]]))
    ensures s.hist[v] == map[]
  {
    WriterOutside(s, order, n, s.writer[v]);
  }

  lemma PointBelowBounds(s: State, order: seq<TxId>, n: nat)
    requires Shapes(s) && History(s) && SerialOrder(s, order) && n < |order|
    ensures PointBefore(s, order, n) <= PointBelow(s.txns[order[n]]) <= s.clock
  {
    var u := order[n];
    assert Shape(s.txns[u], s.clock);
    if n > 0 {
      var t := order[n - 1];
      assert Precedes(s, t, u);
      assert Shape(s.txns[t], s.clock);
      assert s.txns[t].wv > 0 ==> s.writer[s.txns[t].wv] == t;
      assert s.txns[u].wv > 0 ==> s.writer[s.txns[u].wv] == u;
    }
  }

  lemma ReadOnlyWritesNothing(s: State, t: TxId)
    requires FullInv(s) && t < |s.txns|
    ensures s.txns[t].buf == Writes(s.txns[t].ops) && (s.txns[t].ro ==> s.txns[t].buf == map[])
  {
    assert TraceOk(s.txns[t]) && Shape(s.txns[t], s.clock);
  }

  /** What a transaction that took effect wrote is the entry of its version. */
  lemma EffectIsHistory(s: State, t: TxId)
    requires FullInv(s) && t < |s.txns| && Serialized(s.txns[t]) && s.txns[t].buf != map[]
    ensures Decided(s.txns[t]) && 0 < s.txns[t].wv < |s.hist| && s.hist[s.txns[t].wv] == s.txns[t].buf
  {
    assert Shape(s.txns[t], s.clock);
  }

  /** A transaction turns the version it takes effect after into the version it takes effect at. */
  lemma RunPoint(s: State, t: TxId, m: Memory)
    requires FullInv(s) && t < |s.txns| && Serialized(s.txns[t])
    requires 0 <= PointBelow(s.txns[t]) <= Point(s.txns[t]) < |s.hist|
    requires HoldsVersion(m, s.hist, PointBelow(s.txns[t]))
    ensures HoldsVersion(RunOps(m, s.txns[t].ops), s.hist, Point(s.txns[t]))
  {
    var T := s.txns[t];
    ReadOnlyWritesNothing(s, t);
    assert !T.ro ==> s.writer[T.wv] == t;
    forall a ensures Lookup(RunOps(m, T.ops), a) == Snapshot(s.hist, Point(T), a) {
      RunOpsLookup(m, T.ops, a);
      assert Lookup(m, a) == Snapshot(s.hist, PointBelow(T), a);
    }
  }

  lemma PointBounds(s: State, t: TxId)
    requires Shapes(s) && t < |s.txns| && Serialized(s.txns[t])
    ensures 0 <= PointBelow(s.txns[t]) <= Point(s.txns[t]) < |s.hist|
  {
    assert Shape(s.txns[t], s.clock);
  }

  /** Replaying the first n transactions leaves the version of the last of them, whatever they read. */
  lemma {:induction false} MemAfterHolds(s: State, order: seq<TxId>, n: nat)
    requires FullInv(s) && SerialOrder(s, order) && n <= |order|
    ensures PointBefore(s, order, n) < |s.hist|
    ensures HoldsVersion(MemAfter(s, order[..n]), s.hist, PointBefore(s, order, n))
    decreases n, 0
  {
    if n > 0 {
      PointBounds(s, order[n - 1]);
      hide FullInv;
      FoundVersion(s, order, n - 1);
      RunPoint(s, order[n - 1], MemAfter(s, order[..n - 1]));
      assert order[..n][..n - 1] == order[..n - 1];
    }
  }

  lemma {:induction false} FoundVersion(s: State, order: seq<TxId>, n: nat)
    requires FullInv(s) && SerialOrder(s, order) && n < |order|
    ensures 0 <= PointBelow(s.txns[order[n]]) < |s.hist|
    ensures HoldsVersion(MemAfter(s, order[..n]), s.hist, PointBelow(s.txns[order[n]]))
    decreases n, 1
  {
    MemAfterHolds(s, order, n);
    PointBelowBounds(s, order, n);
    var m := MemAfter(s, order[..n]);
    var lo, hi := PointBefore(s, order, n), PointBelow(s.txns[order[n]]);
    forall a ensures Lookup(m, a) == Snapshot(s.hist, hi, a) {
      forall v | lo < v <= hi ensures a !in s.hist[v] {
        NothingBetween(s, order, n, v);
      }
      SnapshotSkip(s.hist, a, lo, hi);
      assert Lookup(m, a) == Snapshot(s.hist, lo, a);
    }
  }

  /** What a serialized transaction read did not change between its versions. */
  lemma AgreesAtPoint(s: State, t: TxId, m: Memory)
    requires FullInv(s) && t < |s.txns| && Serialized(s.txns[t])
    requires 0 <= PointBelow(s.txns[t]) < |s.hist| && HoldsVersion(m, s.hist, PointBelow(s.txns[t]))
    ensures s.txns[t].rv < |s.hist|
    ensures forall i :: 0 <= i < |s.txns[t].ops| && s.txns[t].ops[i].Read? && !s.txns[t].ops[i].own ==>
              Lookup(m, s.txns[t].ops[i].a) == Snapshot(s.hist, s.txns[t].rv, s.txns[t].ops[i].a)
  {
    var T := s.txns[t];
    assert TraceOk(T) && Shape(T, s.clock);
    forall i | 0 <= i < |T.ops| && T.ops[i].Read? && !T.ops[i].own
      ensures Lookup(m, T.ops[i].a) == Snapshot(s.hist, T.rv, T.ops[i].a)
    {
      assert Lookup(m, T.ops[i].a) == Snapshot(s.hist, PointBelow(T), T.ops[i].a);
      if !T.ro {
        DecidedRead(s, t, T.ops[i].a);
      }
    }
  }

  lemma ReplayAtIff(s: State, order: seq<TxId>, n: nat)
    requires FullInv(s) && SerialOrder(s, order) && n < |order|
    ensures SerialReplayAt(s, order, n) <==> !HasStale(s, s.txns[order[n]])
  {
    FoundVersion(s, order, n);
    AgreesAtPoint(s, order[n], MemAfter(s, order[..n]));
    TraceReplays(s, order[n], MemAfter(s, order[..n]));
  }

  lemma FirstVersionStep(s: State, e: Event)
    requires Shapes(s) && Enabled(s, e)
    ensures |Next(s, e).hist| > 0 && Next(s, e).hist[0] == s.hist[0]
  {
    assert e.Advance? ==> Shape(s.txns[e.t], s.clock);
  }

  /** Version zero, on which the replay starts, is the memory the run began with. */
  lemma {:induction false} FirstVersion(states: seq<State>, events: seq<Event>, i: nat)
    requires IsRun(states, events) && i < |states|
    ensures |states[i].hist| > 0 && states[i].hist[0] == states[0].mem
  {
    hide Next;
    if i > 0 {
      FirstVersion(states, events, i - 1);
      FirstVersionStep(states[i - 1], events[i - 1]);
    }
  }

  /** The committed transactions replay, in version order and from the memory the run began with, on
      the reference implementation exactly when none of them took a stale value. */
  lemma Serializable(states: seq<State>, events: seq<Event>, i: nat, order: seq<TxId>)
    requires IsRun(states, events) && i < |states| && SerialOrder(states[i], order)
    ensures |states[i].hist| > 0 && states[i].hist[0] == states[0].mem
    ensures SerialReplays(states[i], order) <==>
              forall n :: 0 <= n < |order| ==> !HasStale(states[i], states[i].txns[order[n]])
  {
    FirstVersion(states, events, i);
    RunFullInv(states, events, i);
    forall n | 0 <= n < |order|
      ensures SerialReplayAt(states[i], order, n) <==> !HasStale(states[i], states[i].txns[order[n]])
    {
      ReplayAtIff(states[i], order, n);
    }
  }

  /** The replay leaves, at every word whose lock is free, what the run left there. */
  lemma SerialMemory(states: seq<State>, events: seq<Event>, i: nat, order: seq<TxId>, a: Addr)
    requires IsRun(states, events) && i < |states| && SerialOrder(states[i], order)
    requires FindLock(a) !in states[i].locks
    ensures |states[i].hist| > 0 && states[i].hist[0] == states[0].mem
    ensures Lookup(MemAfter(states[i], order), a) == Lookup(states[i].mem, a)
  {
    FirstVersion(states, events, i);
    RunFullInv(states, events, i);
    var s := states[i];
    FreeWordIsCurrent(states, events, i, a);
    MemAfterHolds(s, order, |order|);
    assert order[..|order|] == order;
    var lo := PointBefore(s, order, |order|);
    forall v | lo < v <= s.clock ensures a !in s.hist[v] {
      NothingBetween(s, order, |order|, v);
    }
    SnapshotSkip(s.hist, a, lo, s.clock);
    assert Lookup(MemAfter(s, order), a) == Snapshot(s.hist, lo, a);
  }

  /** The transaction took no stale value, or left memory alone. */
  ghost predicate Clean(s: State, t: TxId)
    requires t < |s.txns|
  {
    Serialized(s.txns[t]) && s.txns[t].buf != map[] ==> !HasStale(s, s.txns[t])
  }

  /** What a clean transaction does to the memory in front of it: nothing, or what it replays. */
  lemma CleanReplays(s: State, order: seq<TxId>, n: nat)
    requires FullInv(s) && SerialOrder(s, order) && n < |order| && Clean(s, order[n])
    ensures s.txns[order[n]].buf == Writes(s.txns[order[n]].ops)
    ensures Writes(s.txns[order[n]].ops) == map[] || Replays(MemAfter(s, order[..n]), s.txns[order[n]].ops)
  {
    ReadOnlyWritesNothing(s, order[n]);
    ReplayAtIff(s, order, n);
  }

  lemma PrecedesOneWay(s: State, order: seq<TxId>, x: nat, y: nat)
    requires SerialOrder(s, order) && x < |order| && y < |order|
    ensures Precedes(s, order[x], order[y]) ==> x < y
  {
    assert y < x ==> Precedes(s, order[y], order[x]);
  }

  // ---------------------------------------------------------------- real time

  /** The clock and the list of transactions grow; who begins later reads at a later clock. */
  ghost predicate Later(s: State, s': State) {
    && |s.txns| <= |s'.txns| && s.clock <= s'.clock
    && forall u :: |s.txns| <= u < |s'.txns| ==> s'.txns[u].rv >= s.clock
  }

  lemma NextRv(s: State, e: Event)
    requires Shapes(s) && Enabled(s, e) && !e.Begin?
    ensures e.t < |Next(s, e).txns| && Next(s, e).txns[e.t].rv == s.txns[e.t].rv && s.clock <= Next(s, e).clock
  {
    if e.Advance? {
      AdvanceTx(s, e.t);
    }
    assert Shape(s.txns[e.t], s.clock);
  }

  lemma LaterStep(s: State, s': State, e: Event)
    requires Later(s, s') && Shapes(s') && Enabled(s', e)
    ensures Later(s, Next(s', e))
  {
    if !e.Begin? {
      NextTx(s', e);
      NextRv(s', e);
    }
  }

  lemma {:induction false} LaterRun(states: seq<State>, events: seq<Event>, i: nat, j: nat)
    requires IsRun(states, events) && i <= j < |states|
    ensures Later(states[i], states[j])
  {
    hide Next;
    if i < j {
      LaterRun(states, events, i, j - 1);
      LaterStep(states[i], states[j - 1], events[j - 1]);
    }
  }

  /** A finished transaction stays as it is. */
  ghost predicate Since(s: State, s': State, t: TxId)
    requires t < |s.txns|
  {
    Later(s, s') && s'.txns[t] == s.txns[t]
  }

  lemma SinceStep(s: State, t: TxId, e: Event)
    requires Shapes(s) && Enabled(s, e) && t < |s.txns| && Finished(s.txns[t])
    ensures t < |Next(s, e).txns| && Next(s, e).txns[t] == s.txns[t]
  {
    if !e.Begin? {
      NextTx(s, e);
    }
  }

  lemma {:induction false} SinceRun(states: seq<State>, events: seq<Event>, i: nat, j: nat, t: TxId)
    requires IsRun(states, events) && i <= j < |states| && t < |states[i].txns| && Finished(states[i].txns[t])
    ensures Since(states[i], states[j], t)
  {
    hide Next;
    LaterRun(states, events, i, j);
    if i < j {
      SinceRun(states, events, i, j - 1, t);
      SinceStep(states[j - 1], t, events[j - 1]);
    }
  }

  /** A transaction that committed before another began comes before it in the serial order. */
  lemma RealTime(states: seq<State>, events: seq<Event>, i: nat, j: nat, t: TxId, u: TxId)
    requires IsRun(states, events) && i <= j < |states|
    requires t < |states[i].txns| <= u < |states[j].txns|
    requires states[i].txns[t].pc.Committed? && Serialized(states[j].txns[u])
    ensures t < |states[j].txns| && Precedes(states[j], t, u)
  {
    SinceRun(states, events, i, j, t);
    RunInv(states, events, i);
    RunInv(states, events, j);
    assert Shape(states[i].txns[t], states[i].clock);
    assert Shape(states[j].txns[u], states[j].clock);
  }
}
