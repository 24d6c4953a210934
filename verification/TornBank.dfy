/** A run of the bank in which the consistency check of long_tx fails.

    Two accounts of one unit each; while a transfer stores its second word, a long_tx has read the
    first account after the transfer and copies the second from before it. */
module TornBank {
  import opened Sequences
  import opened Tl2
  import opened Stretches
  import opened BankProgram
  import opened BankTheorem

  // ---------------------------------------------------------------- the schedule

  /** Two accounts, at 32 and 40, of one unit each. */
  const BANK: Config := Config(8, 2, 1)

  const FIRST: Segment := Segment(8, 40)

  const SETUP: seq<Op> := [Write(8, 2), Write(32, 1), Write(40, 1)]

  const FILLED: Memory := map[8 := 2, 32 := 1, 40 := 1]

  const TRANSFER: seq<Op> :=
    [Read(8, 2, false, 1), Read(32, 1, false, 1), Write(32, 0), Read(40, 1, false, 1), Write(40, 2)]

  const SUM: seq<Op> :=
    [Read(8, 2, false, 2), Read(24, 0, false, 2), Read(32, 0, false, 2), Read(40, 1, false, 1), Read(16, 0, false, 2)]

  function Setup(wv: nat, pc: Pc): Tx {
    Tx(false, 0, [], [8, 32, 40], FILLED, wv, pc, SETUP)
  }

  function Transfer(wv: nat, pc: Pc): Tx {
    Tx(false, 1, [8, 32, 40], [32, 40], map[32 := 0, 40 := 2], wv, pc, TRANSFER)
  }

  function Long(pc: Pc, n: nat): Tx
    requires n <= |SUM|
  {
    Tx(true, 2, [], [], map[], 0, pc, SUM[..n])
  }

  /** The parts of a state the schedule depends on. */
  ghost predicate At(s: State, clock: nat, locks: map<int, TxId>, mem: Memory, v32: nat, v40: nat, txns: seq<Tx>) {
    && Sized(s) && s.first == FIRST && |s.hist| == clock + 1 && s.hist[0] == map[]
    && s.clock == clock && s.locks == locks && s.mem == mem && s.txns == txns
    && s.version[8] <= 1 && s.version[16] == 0 && s.version[24] == 0 && s.version[32] == v32 && s.version[40] == v40
  }

  lemma Begins() returns (states: seq<State>, events: seq<Event>)
    ensures IsRun(states, events) && At(Last(states), 0, map[], map[], 0, 0, [])
  {
    states, events := Start(map[], FIRST);
  }

  /** The first n writes of init. */
  function Filling(n: nat): Tx
    requires n <= 3
  {
    if n == 0 then Tx(false, 0, [], [], map[], 0, Active, [])
    else WriteTx(Filling(n - 1), SETUP[n - 1].a, SETUP[n - 1].w)
  }

  lemma FillingEnds()
    ensures Filling(3) == Setup(0, Active)
  {
    assert Filling(1) == Tx(false, 0, [], [8], map[8 := 2], 0, Active, SETUP[..1]);
    assert SETUP[..1] + [SETUP[1]] == SETUP[..2];
    assert Filling(2) == Tx(false, 0, [], [8, 32], map[8 := 2, 32 := 1], 0, Active, SETUP[..2]);
    assert SETUP[..2] + [SETUP[2]] == SETUP;
  }

  lemma {:induction false} SetupFills(n: nat) returns (states: seq<State>, events: seq<Event>)
    requires n <= 3
    ensures IsRun(states, events) && At(Last(states), 0, map[], map[], 0, 0, [Filling(n)])
    ensures Filling(n).pc.Active? && !Filling(n).ro
  {
    hide IsRun, Shapes;
    if n == 0 {
      states, events := Begins();
      states, events := Go(states, events, Begin(false));
    } else {
      states, events := SetupFills(n - 1);
      states, events := Go(states, events, WriteWord(0, SETUP[n - 1].a, SETUP[n - 1].w));
    }
  }

  /** init fills its buffer and calls tm_end. */
  lemma SetupWrites() returns (states: seq<State>, events: seq<Event>)
    ensures IsRun(states, events) && At(Last(states), 0, map[], map[], 0, 0, [Setup(0, Locking(0, 0, false))])
  {
    hide IsRun, Shapes;
    states, events := SetupFills(3);
    FillingEnds();
    states, events := Go(states, events, End(0));
  }

  lemma SetupLocks() returns (states: seq<State>, events: seq<Event>)
    ensures IsRun(states, events)
    ensures At(Last(states), 0, map[8 := 0, 32 := 0, 40 := 0], map[], 0, 0, [Setup(0, Locking(3, 0, false))])
  {
    states, events := SetupWrites();
    hide IsRun, Shapes;
    states, events := GoLock(states, events, 0);
    states, events := GoLock(states, events, 0);
    states, events := GoLock(states, events, 0);
  }

  lemma SetupDecides() returns (states: seq<State>, events: seq<Event>)
    ensures IsRun(states, events)
    ensures At(Last(states), 1, map[8 := 0, 32 := 0, 40 := 0], map[], 0, 0, [Setup(1, Storing(0, ToStore))])
  {
    states, events := SetupLocks();
    hide IsRun, Shapes;
    states, events := Go(states, events, Advance(0));
    states, events := Go(states, events, Advance(0));
  }

  lemma SetupStores() returns (states: seq<State>, events: seq<Event>)
    ensures IsRun(states, events)
    ensures At(Last(states), 1, map[40 := 0], map[8 := 2, 32 := 1], 1, 0, [Setup(1, Storing(2, ToStore))])
  {
    states, events := SetupDecides();
    hide IsRun, Shapes;
    states, events := GoStore(states, events, 0);
    states, events := GoStore(states, events, 0);
  }

  lemma SetupCommits() returns (states: seq<State>, events: seq<Event>)
    ensures IsRun(states, events) && At(Last(states), 1, map[], FILLED, 1, 1, [Setup(1, Committed)])
  {
    states, events := SetupStores();
    hide IsRun, Shapes;
    states, events := GoStore(states, events, 0);
    states, events := Go(states, events, Advance(0));
  }

  lemma TransferBegins(states: seq<State>, events: seq<Event>) returns (states': seq<State>, events': seq<Event>)
    requires IsRun(states, events) && At(Last(states), 1, map[], FILLED, 1, 1, [Setup(1, Committed)])
    ensures Goes(states, events, states', events')
    ensures At(Last(states'), 1, map[], FILLED, 1, 1,
               [Setup(1, Committed), Tx(false, 1, [8], [], map[], 0, Active, TRANSFER[..1])])
  {
    hide IsRun, Shapes;
    states', events' := Go(states, events, Begin(false));
    ReadsEight(Last(states'));
    states', events' := GoRead(states', events', 1, 8);
  }

  lemma ReadsEight(s: State)
    requires s.mem == FILLED
    ensures ReadTx(s, Tx(false, 1, [], [], map[], 0, Active, []), 8) ==
              Tx(false, 1, [8], [], map[], 0, Active, TRANSFER[..1])
  {
  }

  /** The transfer has read the number of accounts and the sender's account. */
  lemma TransferLooks(states: seq<State>, events: seq<Event>) returns (states': seq<State>, events': seq<Event>)
    requires IsRun(states, events) && At(Last(states), 1, map[], FILLED, 1, 1, [Setup(1, Committed)])
    ensures Goes(states, events, states', events')
    ensures At(Last(states'), 1, map[], FILLED, 1, 1,
               [Setup(1, Committed), Tx(false, 1, [8, 32], [], map[], 0, Active, TRANSFER[..2])])
  {
    hide IsRun, Shapes;
    states', events' := TransferBegins(states, events);
    ReadsThirtyTwo(Last(states'));
    states', events' := GoRead(states', events', 1, 32);
  }

  lemma ReadsThirtyTwo(s: State)
    requires s.mem == FILLED
    ensures ReadTx(s, Tx(false, 1, [8], [], map[], 0, Active, TRANSFER[..1]), 32) ==
              Tx(false, 1, [8, 32], [], map[], 0, Active, TRANSFER[..2])
  {
    assert TRANSFER[..1] + [TRANSFER[1]] == TRANSFER[..2] && [8] + [32] == [8, 32];
  }

  /** ... and debits it. */
  lemma TransferDebits(states: seq<State>, events: seq<Event>) returns (states': seq<State>, events': seq<Event>)
    requires IsRun(states, events) && At(Last(states), 1, map[], FILLED, 1, 1, [Setup(1, Committed)])
    ensures Goes(states, events, states', events')
    ensures At(Last(states'), 1, map[], FILLED, 1, 1,
               [Setup(1, Committed), Tx(false, 1, [8, 32], [32], map[32 := 0], 0, Active, TRANSFER[..3])])
  {
    hide IsRun, Shapes;
    states', events' := TransferLooks(states, events);
    WritesThirtyTwo();
    states', events' := Go(states', events', WriteWord(1, 32, 0));
  }

  lemma WritesThirtyTwo()
    ensures WriteTx(Tx(false, 1, [8, 32], [], map[], 0, Active, TRANSFER[..2]), 32, 0) ==
              Tx(false, 1, [8, 32], [32], map[32 := 0], 0, Active, TRANSFER[..3])
  {
    assert TRANSFER[..2] + [Write(32, 0)] == TRANSFER[..3];
  }

  lemma TransferReads(states: seq<State>, events: seq<Event>) returns (states': seq<State>, events': seq<Event>)
    requires IsRun(states, events) && At(Last(states), 1, map[], FILLED, 1, 1, [Setup(1, Committed)])
    ensures Goes(states, events, states', events')
    ensures At(Last(states'), 1, map[], FILLED, 1, 1,
               [Setup(1, Committed), Tx(false, 1, [8, 32, 40], [32], map[32 := 0], 0, Active, TRANSFER[..4])])
  {
    hide IsRun, Shapes;
    states', events' := TransferDebits(states, events);
    ReadsForty(Last(states'));
    states', events' := GoRead(states', events', 1, 40);
  }

  lemma ReadsForty(s: State)
    requires s.mem == FILLED
    ensures ReadTx(s, Tx(false, 1, [8, 32], [32], map[32 := 0], 0, Active, TRANSFER[..3]), 40) ==
              Tx(false, 1, [8, 32, 40], [32], map[32 := 0], 0, Active, TRANSFER[..4])
  {
    assert TRANSFER[..3] + [TRANSFER[3]] == TRANSFER[..4] && [8, 32] + [40] == [8, 32, 40];
  }

  lemma TransferCredits(states: seq<State>, events: seq<Event>) returns (states': seq<State>, events': seq<Event>)
    requires IsRun(states, events) && At(Last(states), 1, map[], FILLED, 1, 1, [Setup(1, Committed)])
    ensures Goes(states, events, states', events')
    ensures At(Last(states'), 1, map[], FILLED, 1, 1, [Setup(1, Committed), Transfer(0, Active)])
  {
    hide IsRun, Shapes;
    states', events' := TransferReads(states, events);
    WritesForty();
    states', events' := Go(states', events', WriteWord(1, 40, 2));
  }

  lemma WritesForty()
    ensures WriteTx(Tx(false, 1, [8, 32, 40], [32], map[32 := 0], 0, Active, TRANSFER[..4]), 40, 2) ==
              Transfer(0, Active)
  {
    assert TRANSFER[..4] + [Write(40, 2)] == TRANSFER && [32] + [40] == [32, 40];
  }

  lemma TransferWrites(states: seq<State>, events: seq<Event>) returns (states': seq<State>, events': seq<Event>)
    requires IsRun(states, events) && At(Last(states), 1, map[], FILLED, 1, 1, [Setup(1, Committed)])
    ensures Goes(states, events, states', events')
    ensures At(Last(states'), 1, map[], FILLED, 1, 1, [Setup(1, Committed), Transfer(0, Locking(0, 0, false))])
  {
    hide IsRun, Shapes;
    states', events' := TransferCredits(states, events);
    states', events' := Go(states', events', End(1));
  }

  /** The transfer finishes the first of its two words. */
  lemma TransferStoresOne(states: seq<State>, events: seq<Event>) returns (states': seq<State>, events': seq<Event>)
    requires IsRun(states, events) && At(Last(states), 1, map[], FILLED, 1, 1, [Setup(1, Committed)])
    ensures Goes(states, events, states', events')
    ensures At(Last(states'), 2, map[40 := 1], FILLED[32 := 0], 2, 1,
               [Setup(1, Committed), Transfer(2, Storing(1, ToStore))])
  {
    hide IsRun, Shapes;
    states', events' := TransferWrites(states, events);
    states', events' := GoLock(states', events', 1);
    states', events' := GoLock(states', events', 1);
    states', events' := Go(states', events', Advance(1));
    states', events' := Go(states', events', Advance(1));
    states', events' := GoStore(states', events', 1);
  }

  lemma LongReads(s: State, n: nat)
    requires n < |SUM| && SUM[n].asof == 2 && Lookup(s.mem, SUM[n].a) == SUM[n].w
    ensures ReadTx(s, Long(Active, n), SUM[n].a) == Long(Active, n + 1)
  {
    assert SUM[..n] + [SUM[n]] == SUM[..n + 1];
  }

  /** long_tx begins, reads up to the first account, and copies the second. */
  lemma LongCopies(states: seq<State>, events: seq<Event>) returns (states': seq<State>, events': seq<Event>)
    requires IsRun(states, events) && At(Last(states), 1, map[], FILLED, 1, 1, [Setup(1, Committed)])
    ensures Goes(states, events, states', events')
    ensures At(Last(states'), 2, map[40 := 1], FILLED[32 := 0], 2, 1,
               [Setup(1, Committed), Transfer(2, Storing(1, ToStore)), Long(Copied(40, 1, false, 1), 3)])
  {
    hide IsRun, Shapes;
    states', events' := TransferStoresOne(states, events);
    states', events' := Go(states', events', Begin(true));
    LongReads(Last(states'), 0);
    states', events' := GoRead(states', events', 2, 8);
    LongReads(Last(states'), 1);
    states', events' := GoRead(states', events', 2, 24);
    LongReads(Last(states'), 2);
    states', events' := GoRead(states', events', 2, 32);
    assert ToBeStored(Last(states').txns[1], 1);
    states', events' := Go(states', events', CopyWord(2, 40));
  }

  lemma TransferCommits(states: seq<State>, events: seq<Event>) returns (states': seq<State>, events': seq<Event>)
    requires IsRun(states, events) && At(Last(states), 1, map[], FILLED, 1, 1, [Setup(1, Committed)])
    ensures Goes(states, events, states', events')
    ensures At(Last(states'), 2, map[], FILLED[32 := 0][40 := 2], 2, 2,
               [Setup(1, Committed), Transfer(2, Committed), Long(Copied(40, 1, false, 1), 3)])
  {
    hide IsRun, Shapes;
    states', events' := LongCopies(states, events);
    states', events' := GoStore(states', events', 1);
    states', events' := Go(states', events', Advance(1));
  }

  /** The transfer commits; then long_tx accepts its copy, reads on, and commits. */
  lemma BothCommit(states: seq<State>, events: seq<Event>) returns (states': seq<State>, events': seq<Event>)
    requires IsRun(states, events) && At(Last(states), 1, map[], FILLED, 1, 1, [Setup(1, Committed)])
    ensures Goes(states, events, states', events')
    ensures At(Last(states'), 2, map[], FILLED[32 := 0][40 := 2], 2, 2,
               [Setup(1, Committed), Transfer(2, Committed), Long(Committed, 5)])
  {
    hide IsRun, Shapes;
    states', events' := TransferCommits(states, events);
    states', events' := GoAccept(states', events', 2);
    assert Last(states').txns[2] == Long(Active, 4);
    LongReads(Last(states'), 4);
    states', events' := GoRead(states', events', 2, 16);
    states', events' := Go(states', events', End(2));
  }

  // ---------------------------------------------------------------- the programs

  lemma Snoc(p: Program, ops: seq<Op>, n: nat, pc: Counter)
    requires n < |ops| && Follow(BANK, Entry(BANK, p), ops[..n]) == Some(pc) && Emits(BANK, pc, ops[n])
    ensures Follow(BANK, Entry(BANK, p), ops[..n + 1]) == Some(Step(BANK, pc, ops[n]))
  {
    FollowSnoc(BANK, Entry(BANK, p), ops[..n], ops[n]);
    assert ops[..n] + [ops[n]] == ops[..n + 1];
  }

  lemma Starts(p: Program, ops: seq<Op>)
    ensures Follow(BANK, Entry(BANK, p), ops[..0]) == Some(Entry(BANK, p))
  {
  }

  lemma SetupFollows()
    ensures Follow(BANK, Entry(BANK, InitTx), SETUP) == Some(Done(true))
  {
    hide Follow;
    Starts(InitTx, SETUP);
    Snoc(InitTx, SETUP, 0, InitCount);
    Snoc(InitTx, SETUP, 1, InitAccount(0));
    Snoc(InitTx, SETUP, 2, InitAccount(1));
    assert SETUP[..3] == SETUP;
  }

  lemma TransferFollows()
    ensures Follow(BANK, Entry(BANK, ShortTx(0, 1)), TRANSFER) == Some(Done(true))
  {
    hide Follow;
    var p := ShortTx(0, 1);
    Starts(p, TRANSFER);
    Snoc(p, TRANSFER, 0, ShortCount(8, 0, 0, 0, 1));
    Snoc(p, TRANSFER, 1, ShortSender(32, 40));
    Snoc(p, TRANSFER, 2, ShortDebit(32, 40, 1));
    Snoc(p, TRANSFER, 3, ShortReceiver(40));
    Snoc(p, TRANSFER, 4, ShortCredit(40, 1));
    assert TRANSFER[..5] == TRANSFER;
  }

  lemma CountsAndParity()
    ensures Emits(BANK, LongCount(8, 0, 0), SUM[0]) && Step(BANK, LongCount(8, 0, 0), SUM[0]) == LongParity(8, 2, 2, 0)
    ensures Emits(BANK, LongParity(8, 2, 2, 0), SUM[1])
    ensures Step(BANK, LongParity(8, 2, 2, 0), SUM[1]) == LongAccount(8, 2, 0, 2, 0)
  {
  }

  lemma FirstAccount()
    ensures Emits(BANK, LongAccount(8, 2, 0, 2, 0), SUM[2])
    ensures Step(BANK, LongAccount(8, 2, 0, 2, 0), SUM[2]) == LongAccount(8, 2, 1, 2, 0)
  {
  }

  lemma SumsAccounts()
    ensures Follow(BANK, Entry(BANK, LongTx), SUM[..3]) == Some(LongAccount(8, 2, 1, 2, 0))
  {
    hide Follow, Emits, Step;
    CountsAndParity();
    FirstAccount();
    Starts(LongTx, SUM);
    Snoc(LongTx, SUM, 0, LongCount(8, 0, 0));
    Snoc(LongTx, SUM, 1, LongParity(8, 2, 2, 0));
    Snoc(LongTx, SUM, 2, LongAccount(8, 2, 0, 2, 0));
  }

  lemma SumFollows()
    ensures Follow(BANK, Entry(BANK, LongTx), SUM) == Some(Done(false))
  {
    hide Follow;
    SumsAccounts();
    Snoc(LongTx, SUM, 3, LongAccount(8, 2, 1, 2, 0));
    assert Step(BANK, LongNext(8, 2, 1), SUM[4]) == Done(1 == BANK.init * 2);
    Snoc(LongTx, SUM, 4, LongNext(8, 2, 1));
    assert SUM[..5] == SUM;
  }

  const SESSION: Session := Session(BANK, [InitTx, ShortTx(0, 1), LongTx], [true, true, false], 1)

  lemma SessionRuns(s: State)
    requires At(s, 2, map[], FILLED[32 := 0][40 := 2], 2, 2,
                [Setup(1, Committed), Transfer(2, Committed), Long(Committed, 5)])
    ensures Runs(SESSION, s)
  {
    SetupFollows();
    TransferFollows();
    SumFollows();
    hide Follow;
    assert SUM[..5] == SUM;
    forall t | 0 <= t < |s.txns|
      ensures Follow(BANK, Entry(BANK, SESSION.progs[t]), s.txns[t].ops) == Some(Done(SESSION.oks[t]))
    {
      assert t == 0 || t == 1 || t == 2;
    }
  }

  /** The code as it stands lets long_tx report a violation: after a committed init, a transfer and a
      long_tx both commit, and the long_tx returns false. */
  lemma LongTxFails() returns (b: Session, states: seq<State>, events: seq<Event>, i: nat, t: TxId)
    ensures IsRun(states, events) && i < |states| && OpenedAt(b, states, i)
    ensures Runs(b, Last(states)) && t < |Last(states).txns|
    ensures Last(states).txns[t].pc.Committed? && b.progs[t].LongTx? && !b.oks[t]
  {
    hide Runs;
    b, t := SESSION, 2;
    var start, begun := SetupCommits();
    i := |start| - 1;
    states, events := BothCommit(start, begun);
    SessionRuns(Last(states));
    assert states[i] == Last(start);
    assert b.progs[0].InitTx? && states[i].txns[0].pc.Committed?;
  }
}
