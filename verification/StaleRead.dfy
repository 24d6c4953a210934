/** A run in which tm_read returns a value no serial execution explains.

    tm_read copies the word before it looks at the lock, so the lock may be released, with a version
    the reader accepts, between the copy and the test. */
module StaleRead {
  import opened Sequences
  import opened Tl2
  import opened Tl2Trace
  import opened Reference
  import opened Stretches

  // ---------------------------------------------------------------- the schedule

  /** The parts of a state the schedule below depends on. */
  ghost predicate At(s: State, clock: nat, locks: map<int, TxId>, mem: Memory, hist: seq<Memory>, v1: nat, v2: nat,
      txns: seq<Tx>) {
    && Sized(s) && s.clock == clock && s.locks == locks && s.mem == mem && s.hist == hist && s.txns == txns
    && s.version[1] == v1 && s.version[2] == v2
  }

  /** The writer, which has 1 in its buffer for the words 1 and 2. */
  function Writer(wv: nat, pc: Pc): Tx {
    Tx(false, 0, [], [1, 2], map[1 := 1, 2 := 1], wv, pc, [Write(1, 1), Write(2, 1)])
  }

  /** The reader, which began when the clock showed 1. */
  function Reader(pc: Pc, ops: seq<Op>): Tx {
    Tx(true, 1, [], [], map[], 0, pc, ops)
  }

  const FIRST: Segment := Segment(1, 2)

  const FULL: Memory := map[1 := 1, 2 := 1]

  lemma WriterBegins() returns (states: seq<State>, events: seq<Event>)
    ensures IsRun(states, events)
    ensures At(Last(states), 0, map[], map[], [map[]], 0, 0,
               [Tx(false, 0, [], [1], map[1 := 1], 0, Active, [Write(1, 1)])])
  {
    hide IsRun, Shapes;
    states, events := Start(map[], FIRST);
    states, events := Go(states, events, Begin(false));
    assert Last(states).txns == [Tx(false, 0, [], [], map[], 0, Active, [])];
    states, events := Go(states, events, WriteWord(0, 1, 1));
    assert Last(states).txns[0].ws == [1] && Last(states).txns[0].ops == [Write(1, 1)];
  }

  lemma WriterWrites() returns (states: seq<State>, events: seq<Event>)
    ensures IsRun(states, events)
    ensures At(Last(states), 0, map[], map[], [map[]], 0, 0, [Writer(0, Locking(0, 0, false))])
  {
    states, events := WriterBegins();
    hide IsRun, Shapes;
    states, events := Go(states, events, WriteWord(0, 2, 1));
    assert Last(states).txns[0].ws == [1, 2] && Last(states).txns[0].ops == [Write(1, 1), Write(2, 1)];
    assert Last(states).txns == [Writer(0, Active)];
    states, events := Go(states, events, End(0));
  }

  /** The writer takes both locks. */
  lemma WriterLocks() returns (states: seq<State>, events: seq<Event>)
    ensures IsRun(states, events)
    ensures At(Last(states), 0, map[1 := 0, 2 := 0], map[], [map[]], 0, 0, [Writer(0, Locking(2, 0, false))])
  {
    states, events := WriterWrites();
    hide IsRun, Shapes;
    states, events := GoLock(states, events, 0);
    states, events := GoLock(states, events, 0);
  }

  /** It draws version 1, decides, and finishes the first of its two words. */
  lemma WriterStoresOne() returns (states: seq<State>, events: seq<Event>)
    ensures IsRun(states, events)
    ensures At(Last(states), 1, map[2 := 0], map[1 := 1], [map[], FULL], 1, 0, [Writer(1, Storing(1, ToStore))])
  {
    states, events := WriterLocks();
    hide IsRun, Shapes;
    states, events := Go(states, events, Advance(0));
    assert At(Last(states), 1, map[1 := 0, 2 := 0], map[], [map[], map[]], 0, 0, [Writer(1, Validating(0, false))]);
    states, events := Go(states, events, Advance(0));
    assert At(Last(states), 1, map[1 := 0, 2 := 0], map[], [map[], FULL], 0, 0, [Writer(1, Storing(0, ToStore))]);
    states, events := GoStore(states, events, 0);
  }

  /** The reader begins, reads the new word 1 and copies the old word 2. */
  lemma ReaderCopies() returns (states: seq<State>, events: seq<Event>)
    ensures IsRun(states, events)
    ensures At(Last(states), 1, map[2 := 0], map[1 := 1], [map[], FULL], 1, 0,
               [Writer(1, Storing(1, ToStore)), Reader(Copied(2, 0, false, 0), [Read(1, 1, false, 1)])])
  {
    states, events := WriterStoresOne();
    hide IsRun, Shapes;
    states, events := Go(states, events, Begin(true));
    assert Last(states).txns == [Writer(1, Storing(1, ToStore)), Reader(Active, [])];
    states, events := GoRead(states, events, 1, 1);
    assert Last(states).txns[1].ops == [Read(1, 1, false, 1)];
    assert At(Last(states), 1, map[2 := 0], map[1 := 1], [map[], FULL], 1, 0,
        [Writer(1, Storing(1, ToStore)), Reader(Active, [Read(1, 1, false, 1)])]);
    assert ToBeStored(Last(states).txns[0], 1);
    states, events := Go(states, events, CopyWord(1, 2));
  }

  /** The writer stores word 2, its version 1, and releases; then it commits. */
  lemma WriterCommits() returns (states: seq<State>, events: seq<Event>)
    ensures IsRun(states, events)
    ensures At(Last(states), 1, map[], FULL, [map[], FULL], 1, 1,
               [Writer(1, Committed), Reader(Copied(2, 0, false, 0), [Read(1, 1, false, 1)])])
  {
    states, events := ReaderCopies();
    hide IsRun, Shapes;
    states, events := GoStore(states, events, 0);
    states, events := Go(states, events, Advance(0));
  }

  const TORN: seq<Op> := [Read(1, 1, false, 1), Read(2, 0, false, 0)]

  /** The reader finds the lock free and version 1 acceptable, and commits. */
  lemma ReaderCommits() returns (states: seq<State>, events: seq<Event>)
    ensures IsRun(states, events)
    ensures At(Last(states), 1, map[], FULL, [map[], FULL], 1, 1, [Writer(1, Committed), Reader(Committed, TORN)])
  {
    states, events := WriterCommits();
    hide IsRun, Shapes;
    states, events := GoAccept(states, events, 1);
    assert Last(states).txns[1].ops == TORN;
    assert At(Last(states), 1, map[], FULL, [map[], FULL], 1, 1, [Writer(1, Committed), Reader(Active, TORN)]);
    states, events := Go(states, events, End(1));
  }

  /** The code as it stands is not serializable: in some run both transactions commit, and in
      neither order does the reader see what it saw. */
  lemma TornRead()
    ensures exists s ::
              && Reachable(s) && |s.txns| == 2 && (forall t :: 0 <= t < 2 ==> s.txns[t].pc.Committed?)
              && |s.hist| > 0
              && !Replays(s.hist[0], s.txns[1].ops)
              && !Replays(RunOps(s.hist[0], s.txns[0].ops), s.txns[1].ops)
  {
    var states, events := ReaderCommits();
    RunReaches(states, events);
    var s := Last(states);
    var ops := s.txns[0].ops;
    var m := RunOps(map[], ops);
    RunOpsLookup(map[], ops, 2);
    assert ops[..1] == [Write(1, 1)];
    assert Writes(ops)[2] == 1;
    RunOpsLookup(m, TORN[..1], 2);
    assert TORN[..0] == [];
    assert !ReplaysAt(map[], TORN, 0);
    assert !ReplaysAt(m, TORN, 1);
  }
}
