/** How many steps a commit takes against any schedule, and what a transaction achieves alone. */
module Tl2Progress {
  import opened Striping
  import opened Tl2
  import opened Tl2Invariant
  import opened Tl2Trace

  // ---------------------------------------------------------------- bounded commit

  /** Accesses left to one lock: at most 5 exchanges and 4 polls. */
  function LockBudget(bound: nat, polling: bool): int {
    2 * (4 - bound) + (if polling then 2 else 1)
  }

  function PhaseRank(p: Phase): nat {
    match p
    case ToStore => 0
    case ToVersion => 1
    case ToRelease => 2
  }

  /** A bound on the steps a transaction still makes inside tm_end. */
  function Remaining(T: Tx): int {
    var W, R := |T.ws|, |T.rs|;
    match T.pc
    case Locking(i, bound, polling) =>
      if i == W then 2 * R + 3 * W + 3
      else LockBudget(bound, polling) + 9 * (W - i - 1) + 2 * R + 3 * W + 3
    case Validating(j, loaded) => 2 * (R - j) + 3 * W + 2 - (if loaded then 1 else 0)
    case Storing(i, phase) => 3 * (W - i) + 1 - PhaseRank(phase)
    case Unlocking(i, n) => n - i + 1
    case _ => 0
  }

  /** A step that brings the end nearer, and ends the call exactly when nothing remains. */
  ghost predicate Nearer(T: Tx, T': Tx) {
    0 <= Remaining(T') < Remaining(T) && (Remaining(T') == 0 <==> Finished(T'))
  }

  lemma BackoffNearer(T: Tx, T': Tx)
    requires T.pc.Locking? && T.pc.i < |T.ws| && T.pc.bound <= 4 && T'.ws == T.ws && T'.rs == T.rs
    requires T'.pc == Backoff(T.pc.i, T.pc.bound)
    ensures Nearer(T, T')
  {
  }

  lemma LockingNearer(s: State, t: TxId)
    requires t < |s.txns| && s.txns[t].pc.Locking? && s.txns[t].pc.i <= |s.txns[t].ws| && s.txns[t].pc.bound <= 4
    ensures Nearer(s.txns[t], LockingStep(s, t).txns[t])
  {
    var T, T' := s.txns[t], LockingStep(s, t).txns[t];
    var i, bound, polling := T.pc.i, T.pc.bound, T.pc.polling;
    assert T'.ws == T.ws && T'.rs == T.rs;
    if i < |T.ws| && FindLock(T.ws[i]) in s.locks {
      assert T'.pc == Backoff(i, bound);
      hide LockingStep, Nearer;
      BackoffNearer(T, T');
    } else {
      assert i == |T.ws| ==> T'.pc.Validating?;
      assert i < |T.ws| ==> T'.pc == if polling then Locking(i, bound, false) else Locking(i + 1, 0, false);
    }
  }

  lemma ValidatingNearer(s: State, t: TxId)
    requires Shapes(s) && t < |s.txns| && s.txns[t].pc.Validating? && Shape(s.txns[t], s.clock)
    ensures Nearer(s.txns[t], ValidatingStep(s, t).txns[t])
  {
  }

  lemma StoringNearer(s: State, t: TxId)
    requires Sized(s) && t < |s.txns| && s.txns[t].pc.Storing? && Shape(s.txns[t], s.clock)
    ensures Nearer(s.txns[t], StoringStep(s, t).txns[t])
  {
    var T, T' := s.txns[t], StoringStep(s, t).txns[t];
    assert T' == T.(pc := T'.pc);
  }

  lemma UnlockingNearer(s: State, t: TxId)
    requires t < |s.txns| && s.txns[t].pc.Unlocking? && Shape(s.txns[t], s.clock)
    ensures Nearer(s.txns[t], UnlockingStep(s, t).txns[t])
  {
  }

  /** Inside tm_end the next step is always possible: it waits for nobody, and it brings the end
      nearer, whatever the shared words hold. */
  lemma CommitStep(s: State, t: TxId)
    requires Shapes(s) && t < |s.txns| && InEnd(s.txns[t])
    ensures Enabled(s, Advance(t))
    ensures |Next(s, Advance(t)).txns| == |s.txns| && Nearer(s.txns[t], Next(s, Advance(t)).txns[t])
  {
    assert Shape(s.txns[t], s.clock);
    match s.txns[t].pc
    case Locking(_, _, _) => LockingNearer(s, t);
    case Validating(_, _) => ValidatingNearer(s, t);
    case Storing(_, _) => StoringNearer(s, t);
    case _ => UnlockingNearer(s, t);
  }

  /** The number of steps transaction `t` made in a stretch of a run. */
  function OwnSteps(events: seq<Event>, t: TxId): nat {
    if events == [] then 0
    else OwnSteps(events[..|events| - 1], t) + if events[|events| - 1] == Advance(t) then 1 else 0
  }

  ghost predicate Ending(s: State, t: TxId) {
    t < |s.txns| && (InEnd(s.txns[t]) || Finished(s.txns[t])) &&
    0 <= Remaining(s.txns[t]) && (Remaining(s.txns[t]) == 0 <==> Finished(s.txns[t]))
  }

  lemma EndingStep(s: State, e: Event, t: TxId)
    requires Shapes(s) && Enabled(s, e) && Ending(s, t)
    ensures Ending(Next(s, e), t)
    ensures (if e == Advance(t) then 1 else 0) + Remaining(Next(s, e).txns[t]) <= Remaining(s.txns[t])
  {
    if e == Advance(t) {
      CommitStep(s, t);
    } else if !e.Begin? {
      NextTx(s, e);
    }
  }

  /** Against any schedule of the others, each own step of a transaction inside tm_end is paid for by
      what remains. */
  lemma {:induction false} CommitBounded(states: seq<State>, events: seq<Event>, i: nat, j: nat, t: TxId)
    requires IsRun(states, events) && i <= j < |states| && Ending(states[i], t)
    ensures Ending(states[j], t)
    ensures OwnSteps(events[i..j], t) + Remaining(states[j].txns[t]) <= Remaining(states[i].txns[t])
  {
    hide Next, Shapes, Enabled, Remaining, Finished, InEnd;
    if i < j {
      CommitBounded(states, events, i, j - 1, t);
      EndingStep(states[j - 1], events[j - 1], t);
      assert events[i..j][..j - 1 - i] == events[i..j - 1];
    }
  }

  lemma EndingEnters(s: State, t: TxId)
    requires Shapes(s) && t < |s.txns| && InEnd(s.txns[t])
    ensures Ending(s, t)
  {
    assert Shape(s.txns[t], s.clock);
  }

  /** From the moment it enters tm_end, a transaction with W write nodes and R read nodes makes at
      most 12 W + 2 R + 3 steps, whatever the others do in between. */
  lemma CommitIsShort(states: seq<State>, events: seq<Event>, i: nat, j: nat, t: TxId)
    requires IsRun(states, events) && i <= j < |states|
    requires t < |states[i].txns| && states[i].txns[t].pc == Locking(0, 0, false)
    ensures OwnSteps(events[i..j], t) <= 12 * |states[i].txns[t].ws| + 2 * |states[i].txns[t].rs| + 3
  {
    RunInv(states, events, i);
    EndingEnters(states[i], t);
    CommitBounded(states, events, i, j, t);
  }

  // ---------------------------------------------------------------- alone

  ghost predicate Alone(s: State, t: TxId) {
    t < |s.txns| && forall u :: 0 <= u < |s.txns| && u != t ==> Finished(s.txns[u])
  }

  /** What a transaction that began on a quiet region keeps as long as it stays alone. */
  ghost predicate Solo(s: State, t: TxId) {
    && Alone(s, t)
    && match s.txns[t].pc
       case Validating(j, loaded) => j == |s.txns[t].rs|
       case Storing(_, _) => true
       case Unlocking(_, n) => s.txns[t].wv == 0 && !StripesDistinct(s.txns[t].ws, |s.txns[t].ws|)
       case Committed => true
       case Aborted => !StripesDistinct(s.txns[t].ws, |s.txns[t].ws|)
       case _ => s.txns[t].rv == s.clock
  }

  lemma SoloHolds(s: State, t: TxId, k: int)
    requires Inv(s) && Alone(s, t) && k in s.locks
    ensures InEnd(s.txns[t]) && exists i :: Held(s.txns[t], i) && FindLock(s.txns[t].ws[i]) == k
  {
    var u := s.locks[k];
    var i :| Held(s.txns[u], i) && FindLock(s.txns[u].ws[i]) == k;
  }

  lemma SoloReading(s: State, t: TxId)
    requires Inv(s) && Solo(s, t) && Reading(s.txns[t])
    ensures !ReadingStep(s, t).txns[t].pc.Aborted?
  {
    var k := FindLock(s.txns[t].pc.a);
    assert s.version[k] <= s.clock;
    if k in s.locks {
      SoloHolds(s, t, k);
    }
  }

  lemma SoloLocking(s: State, t: TxId)
    requires Inv(s) && Solo(s, t) && s.txns[t].pc.Locking? && s.txns[t].pc.i <= |s.txns[t].ws|
    ensures Solo(LockingStep(s, t), t)
  {
    var T := s.txns[t];
    if T.pc.i < |T.ws| && FindLock(T.ws[T.pc.i]) in s.locks {
      SoloHolds(s, t, FindLock(T.ws[T.pc.i]));
      var j :| Held(T, j) && FindLock(T.ws[j]) == FindLock(T.ws[T.pc.i]);
      assert !StripesDistinct(T.ws, |T.ws|);
    }
  }

  lemma SoloStep(s: State, e: Event, t: TxId)
    requires Inv(s) && Enabled(s, e) && !e.Begin? && e.t == t && Solo(s, t)
    ensures Solo(Next(s, e), t)
  {
    NextTx(s, e);
    assert Shape(s.txns[t], s.clock);
    if e.Advance? {
      match s.txns[t].pc
      case Locking(_, _, _) => SoloLocking(s, t);
      case Validating(_, _) =>
      case Storing(_, _) =>
      case Unlocking(_, _) =>
      case _ => SoloReading(s, t);
    }
  }

  lemma SoloOutcome(s: State, t: TxId)
    requires Shapes(s) && Solo(s, t) && Finished(s.txns[t]) && !s.txns[t].ro
    ensures s.txns[t].pc.Committed? <==> StripesDistinct(s.txns[t].ws, |s.txns[t].ws|)
  {
    assert Shape(s.txns[t], s.clock);
  }

  lemma {:induction false} SoloKept(states: seq<State>, events: seq<Event>, i: nat, j: nat, t: TxId)
    requires IsRun(states, events) && i <= j < |states| && Alone(states[i], t)
    requires states[i].txns[t].pc.Active? && states[i].txns[t].rv == states[i].clock
    requires forall k :: i <= k < j ==> !events[k].Begin? && events[k].t == t
    ensures Solo(states[j], t)
  {
    hide Next;
    if i < j {
      SoloKept(states, events, i, j - 1, t);
      RunInv(states, events, j - 1);
      SoloStep(states[j - 1], events[j - 1], t);
    }
  }

  /** A transaction that runs with no other in flight commits, once it is finished, exactly when
      its write set has a lock for every word; a read-only one always does. */
  lemma SoloRun(states: seq<State>, events: seq<Event>, i: nat, j: nat, t: TxId)
    requires IsRun(states, events) && i <= j < |states| && Alone(states[i], t)
    requires states[i].txns[t].pc.Active? && states[i].txns[t].rv == states[i].clock
    requires forall k :: i <= k < j ==> !events[k].Begin? && events[k].t == t
    requires t < |states[j].txns| && Finished(states[j].txns[t])
    ensures states[j].txns[t].pc.Committed? <==> StripesDistinct(states[j].txns[t].ws, |states[j].txns[t].ws|)
  {
    SoloKept(states, events, i, j, t);
    RunInv(states, events, j);
    assert Shape(states[j].txns[t], states[j].clock);
    if !states[j].txns[t].ro {
      SoloOutcome(states[j], t);
    }
  }
}
