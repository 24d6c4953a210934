/** What the buffers of a transaction have to do with the operations its client made. */
module Tl2Trace {
  import opened Tl2
  import opened Tl2Invariant
  import opened Reference

  /** A read takes the client's own last write if there is one, and only then. */
  ghost predicate OwnOk(ops: seq<Op>, n: int)
    requires 0 <= n < |ops|
  {
    ops[n].Read? ==>
      (ops[n].own <==> ops[n].a in Writes(ops[..n])) && (ops[n].own ==> ops[n].w == Writes(ops[..n])[ops[n].a])
  }

  /** The write buffer is the last-write map of the trace; other reads are in the read set. */
  ghost predicate TraceOk(T: Tx) {
    && T.buf == Writes(T.ops)
    && (forall n :: 0 <= n < |T.ops| ==> OwnOk(T.ops, n))
    && (forall n :: 0 <= n < |T.ops| && T.ops[n].Read? && !T.ops[n].own && !T.ro ==> T.ops[n].a in T.rs)
    && (T.ro ==> forall n :: 0 <= n < |T.ops| ==> T.ops[n].Read?)
  }

  ghost predicate TracesOk(s: State) {
    forall t :: 0 <= t < |s.txns| ==> TraceOk(s.txns[t])
  }

  lemma TraceSnoc(T: Tx, T': Tx, op: Op)
    requires TraceOk(T) && T' == T.(ops := T.ops + [op], pc := T'.pc, ws := T'.ws, buf := Apply(T.buf, op))
    requires op.Read? ==> (op.own <==> op.a in T.buf) && (op.own ==> op.w == T.buf[op.a])
    requires op.Read? && !op.own && !T.ro ==> op.a in T.rs
    requires T.ro ==> op.Read?
    ensures TraceOk(T')
  {
    WritesSnoc(T.ops, op);
    forall n | 0 <= n < |T'.ops| ensures OwnOk(T'.ops, n) {
      assert T'.ops[..n] == T.ops[..n];
      if n < |T.ops| {
        assert OwnOk(T.ops, n);
      } else {
        assert T.ops[..n] == T.ops;
      }
    }
  }

  lemma TraceSame(T: Tx, T': Tx)
    requires TraceOk(T) && T'.ops == T.ops && T'.buf == T.buf && T'.ro == T.ro
    requires T'.rs == T.rs || exists a :: T'.rs == T.rs + [a]
    ensures TraceOk(T')
  {
  }

  /** A step of a call in progress keeps the buffers; the last step of a read adds it to the trace. */
  ghost predicate TxAdvanced(T: Tx, T': Tx) {
    && T'.ro == T.ro && T'.rv == T.rv && T'.ws == T.ws && T'.buf == T.buf && T'.rs == T.rs
    && (T'.ops == T.ops ||
        (T.pc.Tested? && T'.ops == T.ops + [Read(T.pc.a, T.pc.w, T.pc.own, T.pc.asof)]))
  }

  ghost predicate Advanced(s: State, s': State, t: TxId) {
    && t < |s.txns| && |s'.txns| == |s.txns| && TxAdvanced(s.txns[t], s'.txns[t]) && s'.alloced == s.alloced &&
        s'.first == s.first
    && (forall u :: 0 <= u < |s.txns| && u != t ==> s'.txns[u] == s.txns[u])
  }

  lemma LockingTx(s: State, t: TxId)
    requires t < |s.txns| && s.txns[t].pc.Locking? && s.txns[t].pc.i <= |s.txns[t].ws|
    ensures Advanced(s, LockingStep(s, t), t)
  {
    var T, T' := s.txns[t], LockingStep(s, t).txns[t];
    assert T' == T.(pc := T'.pc, wv := T'.wv);
  }

  lemma ValidatingTx(s: State, t: TxId)
    requires Sized(s) && t < |s.txns| && s.txns[t].pc.Validating? && s.txns[t].pc.j <= |s.txns[t].rs|
    requires s.txns[t].wv < |s.hist|
    ensures Advanced(s, ValidatingStep(s, t), t)
  {
  }

  lemma StoringTx(s: State, t: TxId)
    requires Sized(s) && t < |s.txns| && s.txns[t].pc.Storing? && s.txns[t].pc.i <= |s.txns[t].ws|
    requires forall a :: a in s.txns[t].ws ==> a in s.txns[t].buf
    ensures Advanced(s, StoringStep(s, t), t)
  {
    var T, T' := s.txns[t], StoringStep(s, t).txns[t];
    assert T' == T.(pc := T'.pc);
  }

  lemma UnlockingTx(s: State, t: TxId)
    requires t < |s.txns| && s.txns[t].pc.Unlocking? && s.txns[t].pc.n <= |s.txns[t].ws|
    ensures Advanced(s, UnlockingStep(s, t), t)
  {
  }

  lemma ReadingTx(s: State, t: TxId)
    requires Sized(s) && t < |s.txns| && Reading(s.txns[t])
    ensures Advanced(s, ReadingStep(s, t), t)
  {
  }

  lemma AdvanceTx(s: State, t: TxId)
    requires Shapes(s) && Enabled(s, Advance(t))
    ensures Advanced(s, Next(s, Advance(t)), t)
  {
    assert Shape(s.txns[t], s.clock);
    match s.txns[t].pc
    case Locking(_, _, _) => LockingTx(s, t);
    case Validating(_, _) => ValidatingTx(s, t);
    case Storing(_, _) => StoringTx(s, t);
    case Unlocking(_, _) => UnlockingTx(s, t);
    case _ => ReadingTx(s, t);
  }

  lemma NextTx(s: State, e: Event)
    requires Shapes(s) && Enabled(s, e) && !e.Begin?
    ensures |Next(s, e).txns| == |s.txns|
    ensures forall u :: 0 <= u < |s.txns| && u != e.t ==> Next(s, e).txns[u] == s.txns[u]
  {
    if e.Advance? {
      AdvanceTx(s, e.t);
    }
  }

  lemma NextTrace(s: State, e: Event)
    requires Shapes(s) && Enabled(s, e) && !e.Begin? && TraceOk(s.txns[e.t])
    ensures |Next(s, e).txns| == |s.txns| && TraceOk(Next(s, e).txns[e.t])
  {
    var T := s.txns[e.t];
    assert Shape(T, s.clock);
    NextTx(s, e);
    match e
    case WriteWord(t, a, w) => TraceSnoc(T, WriteTx(T, a, w), Write(a, w));
    case AllocSegment(t, a, n) => TraceSnoc(T, T.(ops := T.ops + [Alloc(a, n)]), Alloc(a, n));
    case CopyWord(t, a) => TraceSame(T, CopyTx(s, T, a));
    case End(t) => TraceSame(T, EndTx(T));
    case Advance(t) =>
      AdvanceTx(s, t);
      var T' := Next(s, e).txns[t];
      if T'.ops == T.ops {
        TraceSame(T, T');
      } else {
        TraceSnoc(T, T'.(wv := T.wv, rs := T.rs), Read(T.pc.a, T.pc.w, T.pc.own, T.pc.asof));
      }
  }

  lemma NextTraces(s: State, e: Event)
    requires Shapes(s) && Enabled(s, e) && TracesOk(s)
    ensures TracesOk(Next(s, e))
  {
    var s' := Next(s, e);
    if e.Begin? {
      forall u | 0 <= u < |s'.txns| ensures TraceOk(s'.txns[u]) {
        assert u < |s.txns| ==> TraceOk(s.txns[u]);
      }
    } else {
      NextTx(s, e);
      NextTrace(s, e);
      forall u | 0 <= u < |s'.txns| ensures TraceOk(s'.txns[u]) {
        assert TraceOk(s.txns[u]);
      }
    }
  }

  function SegmentOf(op: Op): Segment
    requires op.Alloc?
  {
    Segment(op.a, op.n)
  }

  ghost predicate AllocAt(s: State, t: int, n: int) {
    0 <= t < |s.txns| && 0 <= n < |s.txns[t].ops| && s.txns[t].ops[n].Alloc?
  }

  /** No address is allocated twice, in whichever transactions. */
  ghost predicate AllocsOk(s: State) {
    && s.first in s.alloced
    && (forall t, n :: AllocAt(s, t, n) ==>
          s.txns[t].ops[n].a > 0 && SegmentOf(s.txns[t].ops[n]) in s.alloced &&
              Apart(SegmentOf(s.txns[t].ops[n]), s.first))
    && (forall t, n, u, m :: AllocAt(s, t, n) && AllocAt(s, u, m) && (t != u || n != m) ==>
          Apart(SegmentOf(s.txns[t].ops[n]), SegmentOf(s.txns[u].ops[m])))
  }

  /** A step that allocates nothing leaves all allocations where they are. */
  lemma SameAllocs(s: State, s': State)
    requires AllocsOk(s) && s'.alloced == s.alloced && s'.first == s.first
    requires forall t, n :: AllocAt(s', t, n) ==> AllocAt(s, t, n) && s'.txns[t].ops[n] == s.txns[t].ops[n]
    ensures AllocsOk(s')
  {
  }

  lemma AddAlloc(s: State, s': State, t: TxId, op: Op)
    requires AllocsOk(s) && op.Alloc? && op.a > 0 && t < |s.txns|
    requires forall r :: r in s.alloced ==> Apart(SegmentOf(op), r)
    requires s'.alloced == s.alloced + {SegmentOf(op)} && s'.first == s.first
    requires forall u, n :: AllocAt(s', u, n) ==>
               if u == t && n == |s.txns[t].ops| then s'.txns[t].ops[n] == op
               else AllocAt(s, u, n) && s'.txns[u].ops[n] == s.txns[u].ops[n]
    ensures AllocsOk(s')
  {
  }

  lemma NextAllocs(s: State, e: Event)
    requires Shapes(s) && Enabled(s, e) && AllocsOk(s)
    ensures AllocsOk(Next(s, e))
  {
    var s' := Next(s, e);
    match e
    case Begin(ro) => SameAllocs(s, s');
    case AllocSegment(t, a, n) => AddAlloc(s, s', t, Alloc(a, n));
    case Advance(t) =>
      AdvanceTx(s, t);
      SameAllocs(s, s');
    case _ => SameAllocs(s, s');
  }

  /** The invariant of the protocol together with that of the traces. */
  ghost predicate FullInv(s: State) {
    Inv(s) && TracesOk(s) && AllocsOk(s)
  }

  lemma {:induction false} RunFullInv(states: seq<State>, events: seq<Event>, i: nat)
    requires IsRun(states, events) && i < |states|
    ensures FullInv(states[i])
  {
    RunInv(states, events, i);
    if i > 0 {
      RunFullInv(states, events, i - 1);
      NextTraces(states[i - 1], events[i - 1]);
      NextAllocs(states[i - 1], events[i - 1]);
    }
  }

  ghost predicate RunTo(states: seq<State>, events: seq<Event>, s: State) {
    IsRun(states, events) && states[|events|] == s
  }

  ghost predicate Reachable(s: State) {
    Shapes(s) && exists states, events :: RunTo(states, events, s)
  }

  lemma RunReaches(states: seq<State>, events: seq<Event>)
    requires IsRun(states, events)
    ensures Reachable(states[|states| - 1])
  {
    RunInv(states, events, |events|);
    assert RunTo(states, events, states[|events|]);
  }
}
