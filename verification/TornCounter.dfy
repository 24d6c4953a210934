/** A run of the correctness check in which a decrement is lost.

    Two workers decrease a counter from 2 once each. The second copies the counter while the first
    has yet to store its decrement, and commits on top of it: the counter ends at one. */
module TornCounter {
  import opened Striping
  import opened Sequences
  import opened Tl2
  import opened Tl2Invariant
  import opened Tl2Trace
  import opened Serializability
  import opened Stretches
  import opened CounterCheck
  import Barrier

  // ---------------------------------------------------------------- joint runs, step by step

  /** Barrier and library so far, with every transaction in its phase. */
  ghost predicate Joint(c: Session, bars: seq<Barrier.State>, at: seq<nat>, states: seq<State>, events: seq<Event>) {
    && c.n > 0 && |c.jobs| == |c.worker| && (forall t :: 0 <= t < |c.worker| ==> c.worker[t] < c.n)
    && IsRun(states, events) && Together(c.n, bars, at, states) && Timely(c, bars, at, states)
  }

  /** One step of the library. */
  lemma PlayOne(c: Session, bars: seq<Barrier.State>, at: seq<nat>, states: seq<State>, events: seq<Event>, e: Event)
    requires Joint(c, bars, at, states, events) && Enabled(Last(states), e) && Shapes(Last(states))
    requires IsRun(states + [Next(Last(states), e)], events + [e])
    requires e.Begin? && |Last(states).txns| < |c.jobs| ==> Due(c, Last(bars), |Last(states).txns|)
    ensures Joint(c, bars + [Last(bars)], at + [|states|], states + [Next(Last(states), e)], events + [e])
  {
    var s, s' := Last(states), Next(Last(states), e);
    var bars', at', states' := bars + [Last(bars)], at + [|states|], states + [s'];
    BarrierHolds(c.n, bars, at, states, |bars| - 1);
    OneBegun(s, e);
    hide Barrier.Inv, IsRun, Next;
    forall m | 0 <= m < |at'| - 1 ensures Moves(c.n, bars', at', m) {
      assert m < |at| - 1 ==> Moves(c.n, bars, at, m);
    }
    forall m, t | BeginsAt(at', states', m, t) && t < |c.jobs| ensures Due(c, bars'[m], t) {
      assert m < |at| - 1 ==> BeginsAt(at, states, m, t);
    }
    forall m, t | BegunAt(at', states', m, t) && t < |c.jobs| && Past(c, bars'[m], t)
      ensures Finished(states'[at'[m]].txns[t])
    {
      if m < |at| {
        assert BegunAt(at, states, m, t);
      } else if t < |s.txns| {
        assert BegunAt(at, states, |at| - 1, t);
        SinceStep(s, t, e);
      } else {
        DueNotPast(c, bars, at, states, t);
        assert false;
      }
    }
  }

  lemma OneBegun(s: State, e: Event)
    requires Shapes(s) && Enabled(s, e)
    ensures |s.txns| <= |Next(s, e).txns| <= |s.txns| + if e.Begin? then 1 else 0
  {
    if !e.Begin? {
      NextTx(s, e);
    }
  }

  lemma DueNotPast(c: Session, bars: seq<Barrier.State>, at: seq<nat>, states: seq<State>, t: TxId)
    requires Together(c.n, bars, at, states) && c.n > 0
    requires t < |c.jobs| == |c.worker| && c.worker[t] < c.n && Due(c, Last(bars), t)
    ensures !Past(c, Last(bars), t)
  {
    BarrierHolds(c.n, bars, at, states, |bars| - 1);
    assert Barrier.ThreadOk(Last(bars).threads[c.worker[t]], Last(bars).leave, Last(bars).round);
  }

  /** The joint run up to the first n states of the library's. */
  ghost predicate JointTo(c: Session, bars: seq<Barrier.State>, at: seq<nat>, states: seq<State>, events: seq<Event>,
      n: nat)
  {
    IsRun(states, events) && 0 < n <= |states| && Joint(c, bars, at, states[..n], events[..n - 1])
  }

  /** Whatever begins after the first k states is due. */
  ghost predicate RestDue(c: Session, b: Barrier.State, states: seq<State>, k: nat) {
    0 < k <= |states| && |c.jobs| == |c.worker| &&
    forall t :: |states[k - 1].txns| <= t < |Last(states).txns| && t < |c.jobs| ==> Due(c, b, t)
  }

  lemma PlayNext(c: Session, bars: seq<Barrier.State>, at: seq<nat>, states: seq<State>, events: seq<Event>, n: nat)
      returns (bars': seq<Barrier.State>, at': seq<nat>)
    requires JointTo(c, bars, at, states, events, n) && n < |states| && RestDue(c, Last(bars), states, n)
    ensures JointTo(c, bars', at', states, events, n + 1) && |bars'| > 0 && Last(bars') == Last(bars)
  {
    var p, q, e := states[..n], events[..n - 1], events[n - 1];
    assert p + [Next(Last(p), e)] == states[..n + 1] && q + [e] == events[..n];
    assert Last(p) == states[n - 1];
    RunInv(states, events, n - 1);
    LaterRun(states, events, n, |states| - 1);
    Extend(p, q, e);
    assert e.Begin? ==> |Last(p).txns| < |states[n].txns|;
    hide IsRun, Next, Due, Together, Timely;
    PlayOne(c, bars, at, p, q, e);
    bars', at' := bars + [Last(bars)], at + [|p|];
  }

  lemma RestStays(c: Session, b: Barrier.State, states: seq<State>, events: seq<Event>, k: nat, n: nat)
    requires IsRun(states, events) && k <= n <= |states| && RestDue(c, b, states, k)
    ensures RestDue(c, b, states, n)
  {
    LaterRun(states, events, k - 1, n - 1);
  }

  /** A stretch of the library's run, in between two steps of the barrier. */
  lemma {:induction false} PlayTo(c: Session, bars: seq<Barrier.State>, at: seq<nat>, states: seq<State>,
      events: seq<Event>, k: nat, n: nat)
      returns (bars': seq<Barrier.State>, at': seq<nat>)
    requires IsRun(states, events) && k <= n <= |states| && |bars| > 0
    requires JointTo(c, bars, at, states, events, k) && RestDue(c, Last(bars), states, k)
    ensures JointTo(c, bars', at', states, events, n) && |bars'| > 0 && Last(bars') == Last(bars)
    decreases n
  {
    if n == k {
      bars', at' := bars, at;
    } else {
      hide IsRun, JointTo, RestDue;
      RestStays(c, Last(bars), states, events, k, n - 1);
      bars', at' := PlayTo(c, bars, at, states, events, k, n - 1);
      bars', at' := PlayNext(c, bars', at', states, events, n - 1);
    }
  }

  lemma Play(c: Session, bars: seq<Barrier.State>, at: seq<nat>, states: seq<State>, events: seq<Event>,
      states': seq<State>, events': seq<Event>)
      returns (bars': seq<Barrier.State>, at': seq<nat>)
    requires Joint(c, bars, at, states, events) && Goes(states, events, states', events')
    requires forall t :: |Last(states).txns| <= t < |Last(states').txns| && t < |c.jobs| ==> Due(c, Last(bars), t)
    ensures Joint(c, bars', at', states', events') && Last(bars') == Last(bars)
  {
    var k, n := |states|, |states'|;
    assert k == |events| + 1 && n == |events'| + 1;
    assert states'[..k] == states && events'[..k - 1] == events && states'[k - 1] == Last(states);
    assert states'[..n] == states' && events'[..n - 1] == events';
    hide IsRun, Due, Together, Timely;
    bars', at' := PlayTo(c, bars, at, states', events', k, n);
  }

  /** One step of a worker at the barrier; it enters when its transactions are over. */
  lemma SyncOne(c: Session, bars: seq<Barrier.State>, at: seq<nat>, states: seq<State>, events: seq<Event>, i: nat)
      returns (bars': seq<Barrier.State>, at': seq<nat>)
    requires Joint(c, bars, at, states, events) && i < c.n && i < |Last(bars).threads|
    requires forall t :: 0 <= t < |Last(states).txns| ==> Finished(Last(states).txns[t])
    ensures Joint(c, bars', at', states, events) && Last(bars') == Barrier.Next(Last(bars), i)
  {
    hide IsRun;
    bars', at' := bars + [Barrier.Next(Last(bars), i)], at + [Last(at)];
    forall m | 0 <= m < |at'| - 1 ensures Moves(c.n, bars', at', m) {
      assert m < |at| - 1 ==> Moves(c.n, bars, at, m);
    }
    forall m, t | BeginsAt(at', states, m, t) && t < |c.jobs| ensures Due(c, bars'[m], t) {
      assert m < |at| - 1;
      assert BeginsAt(at, states, m, t);
      assert Due(c, bars[m], t) && bars'[m] == bars[m];
    }
    forall m, t | BegunAt(at', states, m, t) && t < |c.jobs| && Past(c, bars'[m], t)
      ensures Finished(states[at'[m]].txns[t])
    {
      if m < |at| {
        assert BegunAt(at, states, m, t);
      } else {
        assert states[at'[m]] == Last(states);
      }
    }
  }

  // ---------------------------------------------------------------- two workers at the barrier

  function Waiting(r: nat): Barrier.State {
    Barrier.State(0, false, r, [Barrier.Thread(Barrier.Outside, r, r), Barrier.Thread(Barrier.Outside, r, r)])
  }

  /** Both workers enter. */
  lemma Enter(c: Session, bars: seq<Barrier.State>, at: seq<nat>, states: seq<State>, events: seq<Event>, r: nat)
      returns (bars': seq<Barrier.State>, at': seq<nat>)
    requires Joint(c, bars, at, states, events) && c.n == 2 && Last(bars) == Waiting(r)
    requires forall t :: 0 <= t < |Last(states).txns| ==> Finished(Last(states).txns[t])
    ensures Joint(c, bars', at', states, events)
    ensures Last(bars') == Barrier.State(2, true, r,
              [Barrier.Thread(Barrier.AwaitLeave, r + 1, r), Barrier.Thread(Barrier.Departing, r + 1, r)])
  {
    hide Joint;
    bars', at' := SyncOne(c, bars, at, states, events, 0);
    bars', at' := SyncOne(c, bars', at', states, events, 1);
    bars', at' := SyncOne(c, bars', at', states, events, 1);
  }

  /** ... and return. */
  lemma SyncAll(c: Session, bars: seq<Barrier.State>, at: seq<nat>, states: seq<State>, events: seq<Event>, r: nat)
      returns (bars': seq<Barrier.State>, at': seq<nat>)
    requires Joint(c, bars, at, states, events) && c.n == 2 && Last(bars) == Waiting(r)
    requires forall t :: 0 <= t < |Last(states).txns| ==> Finished(Last(states).txns[t])
    ensures Joint(c, bars', at', states, events) && Last(bars') == Waiting(r + 1)
  {
    hide Joint;
    bars', at' := Enter(c, bars, at, states, events, r);
    bars', at' := SyncOne(c, bars', at', states, events, 0);
    bars', at' := SyncOne(c, bars', at', states, events, 1);
    bars', at' := SyncOne(c, bars', at', states, events, 0);
    bars', at' := SyncOne(c, bars', at', states, events, 0);
    bars', at' := SyncOne(c, bars', at', states, events, 1);
  }

  // ---------------------------------------------------------------- the transactions

  const FIRST: Segment := Segment(8, 40)

  function Setter(wv: nat, pc: Pc): Tx {
    Tx(false, 0, [], [8], map[8 := 2], wv, pc, [Write(8, 2)])
  }

  /** A transaction that reads the counter, and finds `w`. */
  function Reader(rv: nat, w: Word): Tx {
    Tx(true, rv, [], [], map[], 0, Committed, [Read(8, w, false, rv)])
  }

  const SEEN: Op := Read(8, 2, false, 1)

  function Looked(rv: nat): Tx {
    Tx(false, rv, [8], [], map[], 0, Active, [SEEN])
  }

  function Decreasing(rv: nat, wv: nat, pc: Pc): Tx {
    Tx(false, rv, [8], [8], map[8 := 1], wv, pc, [SEEN, Write(8, 1)])
  }

  /** The parts of a state the schedule depends on. */
  ghost predicate At(s: State, clock: nat, locks: map<int, TxId>, mem: Memory, v: nat, txns: seq<Tx>) {
    Sized(s) && |s.hist| == clock + 1 && s.clock == clock && s.locks == locks && s.mem == mem && s.txns == txns &&
    s.version[8] == v
  }

  lemma SetterWrites(states: seq<State>, events: seq<Event>) returns (states': seq<State>, events': seq<Event>)
    requires IsRun(states, events) && At(Last(states), 0, map[], map[], 0, [])
    ensures Goes(states, events, states', events')
    ensures At(Last(states'), 0, map[], map[], 0, [Setter(0, Locking(0, 0, false))])
  {
    hide IsRun, Shapes;
    states', events' := Go(states, events, Begin(false));
    assert Last(states').txns == [Tx(false, 0, [], [], map[], 0, Active, [])];
    states', events' := Go(states', events', WriteWord(0, 8, 2));
    assert Last(states').txns[0] == Setter(0, Active);
    states', events' := Go(states', events', End(0));
  }

  lemma SetterCommits(states: seq<State>, events: seq<Event>) returns (states': seq<State>, events': seq<Event>)
    requires IsRun(states, events) && At(Last(states), 0, map[], map[], 0, [])
    ensures Goes(states, events, states', events')
    ensures At(Last(states'), 1, map[], map[8 := 2], 1, [Setter(1, Committed)])
  {
    hide IsRun, Shapes;
    states', events' := SetterWrites(states, events);
    states', events' := GoLock(states', events', 0);
    states', events' := Go(states', events', Advance(0));
    states', events' := Go(states', events', Advance(0));
    assert At(Last(states'), 1, map[8 := 0], map[], 0, [Setter(1, Storing(0, ToStore))]);
    states', events' := GoStore(states', events', 0);
    assert At(Last(states'), 1, map[], map[8 := 2], 1, [Setter(1, Storing(1, ToStore))]);
    states', events' := Go(states', events', Advance(0));
  }

  /** A read-only transaction reads the counter. */
  lemma Reads(states: seq<State>, events: seq<Event>, clock: nat, w: Word, v: nat, txns: seq<Tx>)
      returns (states': seq<State>, events': seq<Event>)
    requires IsRun(states, events) && v <= clock && At(Last(states), clock, map[], map[8 := w], v, txns)
    ensures Goes(states, events, states', events')
    ensures At(Last(states'), clock, map[], map[8 := w], v, txns + [Reader(clock, w)])
  {
    hide IsRun, Shapes;
    var t := |txns|;
    states', events' := Go(states, events, Begin(true));
    assert Last(states').txns[t] == Tx(true, clock, [], [], map[], 0, Active, []);
    states', events' := GoRead(states', events', t, 8);
    assert Last(states').txns[t] == Reader(clock, w).(pc := Active);
    states', events' := Go(states', events', End(t));
    assert Last(states').txns == txns + [Reader(clock, w)];
  }

  /** A decrement that has read the counter writes it, and calls tm_end. */
  lemma Writes(states: seq<State>, events: seq<Event>, rv: nat, w: Word, v: nat, txns: seq<Tx>, t: TxId)
      returns (states': seq<State>, events': seq<Event>)
    requires IsRun(states, events) && At(Last(states), rv, map[], map[8 := w], v, txns)
    requires t < |txns| && txns[t] == Looked(rv)
    ensures Goes(states, events, states', events')
    ensures At(Last(states'), rv, map[], map[8 := w], v, txns[t := Decreasing(rv, 0, Locking(0, 0, false))])
  {
    hide IsRun, Shapes;
    states', events' := Go(states, events, WriteWord(t, 8, 1));
    assert Last(states').txns[t] == Decreasing(rv, 0, Active);
    states', events' := Go(states', events', End(t));
  }

  lemma Locks(states: seq<State>, events: seq<Event>, rv: nat, w: Word, v: nat, txns: seq<Tx>, t: TxId)
      returns (states': seq<State>, events': seq<Event>)
    requires IsRun(states, events) && At(Last(states), rv, map[], map[8 := w], v, txns)
    requires t < |txns| && txns[t] == Looked(rv)
    ensures Goes(states, events, states', events')
    ensures At(Last(states'), rv, map[8 := t], map[8 := w], v, txns[t := Decreasing(rv, 0, Locking(1, 0, false))])
  {
    hide IsRun, Shapes;
    states', events' := Writes(states, events, rv, w, v, txns, t);
    states', events' := GoLock(states', events', t);
  }

  /** It draws the next version, and decides. */
  lemma Decides(states: seq<State>, events: seq<Event>, rv: nat, w: Word, v: nat, txns: seq<Tx>, t: TxId)
      returns (states': seq<State>, events': seq<Event>)
    requires IsRun(states, events) && At(Last(states), rv, map[], map[8 := w], v, txns)
    requires t < |txns| && txns[t] == Looked(rv)
    ensures Goes(states, events, states', events')
    ensures At(Last(states'), rv + 1, map[8 := t], map[8 := w], v,
               txns[t := Decreasing(rv, rv + 1, Storing(0, ToStore))])
  {
    hide IsRun, Shapes;
    states', events' := Locks(states, events, rv, w, v, txns, t);
    states', events' := Go(states', events', Advance(t));
    assert Last(states').txns == txns[t := Decreasing(rv, rv + 1, Validating(1, false))];
    states', events' := Go(states', events', Advance(t));
  }

  lemma Stores(states: seq<State>, events: seq<Event>, rv: nat, w: Word, v: nat, txns: seq<Tx>, t: TxId)
      returns (states': seq<State>, events': seq<Event>)
    requires IsRun(states, events) && At(Last(states), rv + 1, map[8 := t], map[8 := w], v, txns)
    requires t < |txns| && txns[t] == Decreasing(rv, rv + 1, Storing(0, ToStore))
    ensures Goes(states, events, states', events')
    ensures At(Last(states'), rv + 1, map[], map[8 := 1], rv + 1, txns[t := Decreasing(rv, rv + 1, Committed)])
  {
    hide IsRun, Shapes;
    states', events' := GoStore(states, events, t);
    states', events' := Go(states', events', Advance(t));
  }

  // ---------------------------------------------------------------- the schedule of the decrements

  const LOOKS: seq<Tx> := [Setter(1, Committed), Reader(1, 2), Reader(1, 2), Reader(1, 2)]

  const DECREASED: seq<Tx> := LOOKS + [Decreasing(1, 2, Committed), Decreasing(2, 3, Committed)]

  /** The first decrement is about to store. */
  lemma FirstDecides(states: seq<State>, events: seq<Event>) returns (states': seq<State>, events': seq<Event>)
    requires IsRun(states, events) && At(Last(states), 1, map[], map[8 := 2], 1, LOOKS)
    ensures Goes(states, events, states', events')
    ensures At(Last(states'), 2, map[8 := 4], map[8 := 2], 1, LOOKS + [Decreasing(1, 2, Storing(0, ToStore))])
  {
    hide IsRun, Shapes;
    states', events' := Go(states, events, Begin(false));
    assert Last(states').txns == LOOKS + [Tx(false, 1, [], [], map[], 0, Active, [])];
    states', events' := GoRead(states', events', 4, 8);
    assert Last(states').txns[4] == Looked(1);
    assert Last(states').txns == LOOKS + [Looked(1)];
    states', events' := Decides(states', events', 1, 2, 1, LOOKS + [Looked(1)], 4);
  }

  lemma SecondBegins(states: seq<State>, events: seq<Event>) returns (states': seq<State>, events': seq<Event>)
    requires IsRun(states, events) && At(Last(states), 1, map[], map[8 := 2], 1, LOOKS)
    ensures Goes(states, events, states', events')
    ensures At(Last(states'), 2, map[8 := 4], map[8 := 2], 1,
               LOOKS + [Decreasing(1, 2, Storing(0, ToStore)), Tx(false, 2, [], [], map[], 0, Active, [])])
  {
    hide IsRun, Shapes;
    states', events' := FirstDecides(states, events);
    states', events' := Go(states', events', Begin(false));
  }

  /** The second copies the counter. */
  lemma SecondCopies(states: seq<State>, events: seq<Event>) returns (states': seq<State>, events': seq<Event>)
    requires IsRun(states, events) && At(Last(states), 1, map[], map[8 := 2], 1, LOOKS)
    ensures Goes(states, events, states', events')
    ensures At(Last(states'), 2, map[8 := 4], map[8 := 2], 1,
               LOOKS + [Decreasing(1, 2, Storing(0, ToStore)), Looked(2).(pc := Copied(8, 2, false, 1), ops := [])])
  {
    hide IsRun, Shapes;
    states', events' := SecondBegins(states, events);
    assert ToBeStored(Last(states').txns[4], 0);
    states', events' := Go(states', events', CopyWord(5, 8));
    assert Last(states').txns[5] == Looked(2).(pc := Copied(8, 2, false, 1), ops := []);
  }

  /** The first stores and commits. */
  lemma FirstCommits(states: seq<State>, events: seq<Event>) returns (states': seq<State>, events': seq<Event>)
    requires IsRun(states, events) && At(Last(states), 1, map[], map[8 := 2], 1, LOOKS)
    ensures Goes(states, events, states', events')
    ensures At(Last(states'), 2, map[], map[8 := 1], 2,
               LOOKS + [Decreasing(1, 2, Committed), Looked(2).(pc := Copied(8, 2, false, 1), ops := [])])
  {
    hide IsRun, Shapes;
    states', events' := SecondCopies(states, events);
    states', events' := Stores(states', events', 1, 2, 1, Last(states').txns, 4);
  }

  /** The second accepts its copy, and commits on top of the first. */
  lemma BothDecrease(states: seq<State>, events: seq<Event>) returns (states': seq<State>, events': seq<Event>)
    requires IsRun(states, events) && At(Last(states), 1, map[], map[8 := 2], 1, LOOKS)
    ensures Goes(states, events, states', events') && At(Last(states'), 3, map[], map[8 := 1], 3, DECREASED)
  {
    hide IsRun, Shapes;
    states', events' := FirstCommits(states, events);
    states', events' := GoAccept(states', events', 5);
    var first := LOOKS + [Decreasing(1, 2, Committed)];
    assert Last(states').txns[5] == Looked(2);
    assert Last(states').txns == first + [Looked(2)];
    states', events' := Decides(states', events', 2, 1, 2, first + [Looked(2)], 5);
    states', events' := Stores(states', events', 2, 1, 2, Last(states').txns, 5);
    assert Last(states').txns == DECREASED;
  }

  // ---------------------------------------------------------------- the whole check

  const CHECK: Session := Session(
    2, 8, 2, [SetCounter, CheckCounter, Look, Look, Decrement(2), Decrement(3), CheckZero], [0, 0, 0, 1, 0, 1, 0],
    [true, true, true, true, true, true, false])

  /** At some state, exactly so many transactions had begun, and all had committed. */
  ghost predicate Quiet(states: seq<State>, n: nat) {
    exists k :: 0 <= k < |states| && QuietAt(states[k], n)
  }

  predicate QuietAt(s: State, n: nat) {
    |s.txns| == n && forall t :: 0 <= t < n ==> s.txns[t].pc.Committed?
  }

  lemma QuietBefore(states: seq<State>, n: nat, t: TxId, u: TxId)
    requires Quiet(states, n) && t < n <= u
    ensures Before(states, t, u)
  {
    var k :| 0 <= k < |states| && QuietAt(states[k], n);
    assert states[k].txns[t].pc.Committed?;
  }

  lemma QuietStays(states: seq<State>, states': seq<State>, n: nat)
    requires states <= states' && Quiet(states, n)
    ensures Quiet(states', n)
  {
    var k :| 0 <= k < |states| && QuietAt(states[k], n);
    assert QuietAt(states'[k], n);
  }

  lemma QuietNow(states: seq<State>, n: nat)
    requires |states| > 0 && QuietAt(Last(states), n)
    ensures Quiet(states, n)
  {
  }

  /** Before the first transaction, both workers call sync. */
  lemma FirstPhase() returns (bars: seq<Barrier.State>, at: seq<nat>, states: seq<State>, events: seq<Event>)
    ensures Joint(CHECK, bars, at, states, events) && Last(bars) == Waiting(1)
    ensures At(Last(states), 1, map[], map[8 := 2], 1, LOOKS[..2]) && Quiet(states, 1)
  {
    var zero, none := Start(map[], FIRST);
    bars, at := JointStart(zero, none);
    bars, at := SyncAll(CHECK, bars, at, zero, none, 0);
    hide IsRun, Shapes, Joint;
    var states1, events1 := SetterCommits(zero, none);
    QuietNow(states1, 1);
    states, events := Reads(states1, events1, 1, 2, 1, [Setter(1, Committed)]);
    assert LOOKS[..2] == [Setter(1, Committed)] + [Reader(1, 2)];
    QuietStays(states1, states, 1);
    bars, at := Play(CHECK, bars, at, zero, none, states, events);
  }

  lemma JointStart(states: seq<State>, events: seq<Event>) returns (bars: seq<Barrier.State>, at: seq<nat>)
    requires IsRun(states, events) && states == [Init(map[], FIRST)]
    ensures Joint(CHECK, bars, at, states, events) && Last(bars) == Waiting(0)
  {
    bars, at := [Barrier.Init(2)], [0];
    assert Barrier.Init(2) == Waiting(0);
  }

  /** Both workers look, then decrease. */
  lemma Decreases(states: seq<State>, events: seq<Event>) returns (states': seq<State>, events': seq<Event>)
    requires IsRun(states, events) && At(Last(states), 1, map[], map[8 := 2], 1, LOOKS[..2])
    ensures Goes(states, events, states', events') && Quiet(states', 4)
    ensures At(Last(states'), 3, map[], map[8 := 1], 3, DECREASED)
  {
    hide IsRun, Shapes;
    states', events' := Reads(states, events, 1, 2, 1, LOOKS[..2]);
    states', events' := Reads(states', events', 1, 2, 1, LOOKS[..2] + [Reader(1, 2)]);
    assert LOOKS[..2] + [Reader(1, 2)] + [Reader(1, 2)] == LOOKS;
    QuietNow(states', 4);
    var looked := states';
    states', events' := BothDecrease(states', events');
    QuietStays(looked, states', 4);
  }

  lemma SecondPhase() returns (bars: seq<Barrier.State>, at: seq<nat>, states: seq<State>, events: seq<Event>)
    ensures Joint(CHECK, bars, at, states, events) && Last(bars) == Waiting(2)
    ensures At(Last(states), 3, map[], map[8 := 1], 3, DECREASED)
    ensures Quiet(states, 1) && Quiet(states, 2) && Quiet(states, 4)
  {
    var states1, events1;
    bars, at, states1, events1 := FirstPhase();
    QuietNow(states1, 2);
    bars, at := SyncAll(CHECK, bars, at, states1, events1, 1);
    assert IsRun(states1, events1);
    hide IsRun, Shapes, Joint;
    states, events := Decreases(states1, events1);
    QuietStays(states1, states, 1);
    QuietStays(states1, states, 2);
    bars, at := Play(CHECK, bars, at, states1, events1, states, events);
  }

  lemma ThirdPhase() returns (bars: seq<Barrier.State>, at: seq<nat>, states: seq<State>, events: seq<Event>)
    ensures Joint(CHECK, bars, at, states, events)
    ensures At(Last(states), 3, map[], map[8 := 1], 3, DECREASED + [Reader(3, 1)])
    ensures Quiet(states, 1) && Quiet(states, 2) && Quiet(states, 4) && Quiet(states, 6)
  {
    var states1, events1;
    bars, at, states1, events1 := SecondPhase();
    QuietNow(states1, 6);
    bars, at := SyncAll(CHECK, bars, at, states1, events1, 2);
    assert IsRun(states1, events1);
    hide IsRun, Shapes, Joint;
    states, events := Reads(states1, events1, 3, 1, 3, DECREASED);
    QuietStays(states1, states, 1);
    QuietStays(states1, states, 2);
    QuietStays(states1, states, 4);
    QuietStays(states1, states, 6);
    bars, at := Play(CHECK, bars, at, states1, events1, states, events);
  }

  /** A worker's transactions follow one another. */
  ghost predicate OneAtATime(c: Session, states: seq<State>) {
    forall t, u :: 0 <= t < u < |c.worker| && c.worker[t] == c.worker[u] ==> Before(states, t, u)
  }

  lemma WorkersInTurn(states: seq<State>)
    requires Quiet(states, 1) && Quiet(states, 2) && Quiet(states, 4) && Quiet(states, 6)
    ensures OneAtATime(CHECK, states)
  {
    hide Quiet, Before;
    forall t, u | 0 <= t < u < |CHECK.worker| && CHECK.worker[t] == CHECK.worker[u] ensures Before(states, t, u) {
      var cut := if t == 0 then 1 else if t == 1 then 2 else if t < 4 then 4 else 6;
      QuietBefore(states, cut, t, u);
    }
  }

  lemma JobsDone(s: State)
    requires s.txns == DECREASED + [Reader(3, 1)]
    ensures Works(CHECK, s)
  {
    assert s.txns == [Setter(1, Committed), Reader(1, 2), Reader(1, 2), Reader(1, 2),
                      Decreasing(1, 2, Committed), Decreasing(2, 3, Committed), Reader(3, 1)];
    forall t | 0 <= t < 7 ensures Does(CHECK, s.txns, CHECK.jobs[t], s.txns[t].ops, CHECK.oks[t]) {
      assert t == 0 || t == 1 || t == 2 || t == 3 || t == 4 || t == 5 || t == 6;
    }
  }

  lemma SharesDone(s: State)
    requires s.txns == DECREASED + [Reader(3, 1)]
    ensures Complete(CHECK, s, 1)
  {
    assert DecrementsOf(CHECK, s, 0) == {4};
    assert DecrementsOf(CHECK, s, 1) == {5};
  }

  lemma AllBehave(states: seq<State>)
    requires |states| > 0 && Last(states).txns == DECREASED + [Reader(3, 1)] && OneAtATime(CHECK, states)
    ensures Behaves(CHECK, states)
  {
    JobsDone(Last(states));
    hide Before, Works;
    assert Sets(CHECK, Last(states), 0);
    assert Before(states, 0, 1) && Before(states, 2, 4) && Before(states, 3, 5);
  }

  /** The code as it stands loses a decrement: in a run of the check by two workers, one transaction at a
      time each, both shares of decrements are made, the counter ends at one, and the last check reports
      a violation. */
  lemma LastCheckFails() returns (c: Session, bars: seq<Barrier.State>, at: seq<nat>, states: seq<State>,
      events: seq<Event>, z: TxId)
    ensures Course(c, bars, at, states, events) && Complete(c, Last(states), 1) && OneAtATime(c, states)
    ensures z < |c.jobs| && c.jobs[z].CheckZero? && Last(states).txns[z].pc.Committed? && !c.oks[z]
    ensures Last(states).locks == map[] && Lookup(Last(states).mem, c.a) == 1
  {
    c, z := CHECK, 6;
    bars, at, states, events := ThirdPhase();
    WorkersInTurn(states);
    AllBehave(states);
    SharesDone(Last(states));
  }
}
