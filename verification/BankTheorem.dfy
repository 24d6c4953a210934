/** The bank on the concurrent transactional memory: what every interleaving of its transactions
    guarantees, by way of the serial order. */
module BankTheorem {
  import opened Striping
  import opened Tl2
  import opened Snapshots
  import opened Tl2Invariant
  import opened Tl2Trace
  import opened Tl2Theorems
  import opened Serializability
  import opened Reference
  import opened Tl2Runs
  import opened ReadOrder
  import opened BankProgram
  import opened BankState
  import opened BankOutcome

  /** The bank's use of a region: transaction t runs `progs[t]`, which returns `oks[t]`; the first
      `opening` transactions initialize (or check that), the others come after. */
  datatype Session = Session(c: Config, progs: seq<Program>, oks: seq<bool>, opening: nat)

  /** Every transaction that takes effect made the operations of its program. */
  ghost predicate Runs(b: Session, s: State) {
    && b.c.nb > 0 && b.c.init >= 0 && b.c.start > 0
    && s.first == SegmentAt(b.c, b.c.start) && |s.hist| > 0 && s.hist[0] == map[]
    && |b.progs| == |b.oks| == |s.txns| && b.opening <= |s.txns|
    && (forall t :: 0 <= t < |s.txns| ==> (t < b.opening <==> b.progs[t].InitTx? || b.progs[t].CheckTx?))
    && (forall t :: 0 <= t < |s.txns| && Serialized(s.txns[t]) ==>
          Follow(b.c, Entry(b.c, b.progs[t]), s.txns[t].ops) == Some(Done(b.oks[t])))
  }

  /** At state i of the run the opening transactions are over, and an init committed. */
  ghost predicate OpenedAt(b: Session, states: seq<State>, i: nat) {
    && i < |states| && |states[i].txns| == b.opening <= |b.progs|
    && (forall t :: 0 <= t < b.opening ==> Finished(states[i].txns[t]))
    && (exists t :: 0 <= t < b.opening && states[i].txns[t].pc.Committed? && b.progs[t].InitTx?)
  }

  // ---------------------------------------------------------------- along the serial order

  ghost predicate Ids(s: State, order: seq<TxId>) {
    forall i :: 0 <= i < |order| ==> order[i] < |s.txns|
  }

  /** The segments the first n transactions of the order know. */
  ghost function Known(b: Session, s: State, order: seq<TxId>, n: nat): set<Addr>
    requires Ids(s, order) && n <= |order|
  {
    if n == 0 then {b.c.start} else Known(b, s, order, n - 1) + Bases(s.txns[order[n - 1]].ops)
  }

  lemma {:induction false} KnownFrom(b: Session, s: State, order: seq<TxId>, n: nat, a: Addr)
    requires Ids(s, order) && n <= |order| && a in Known(b, s, order, n)
    ensures a == b.c.start || exists i, k ::
              0 <= i < n && 0 <= k < |s.txns[order[i]].ops| && s.txns[order[i]].ops[k].Alloc? &&
                  s.txns[order[i]].ops[k].a == a
  {
    if n > 0 {
      if a in Known(b, s, order, n - 1) {
        KnownFrom(b, s, order, n - 1, a);
      } else {
        var k :| 0 <= k < |s.txns[order[n - 1]].ops| && s.txns[order[n - 1]].ops[k].Alloc? &&
            s.txns[order[n - 1]].ops[k].a == a;
      }
    }
  }

  /** Programs allocate whole segments only. */
  lemma {:induction false} AllocSizes(c: Config, pc: Counter, ops: seq<Op>, n: nat)
    requires Follow(c, pc, ops).Some? && n < |ops| && ops[n].Alloc?
    ensures ops[n].n == SegmentSize(c)
    decreases |ops|
  {
    if n < |ops| - 1 {
      assert ops[..|ops| - 1][n] == ops[n];
      AllocSizes(c, pc, ops[..|ops| - 1], n);
    }
  }

  /** What a transaction allocates is clear of everything its predecessors know. */
  lemma AllocatesNew(b: Session, s: State, order: seq<TxId>, n: nat)
    requires AllocsOk(s) && Runs(b, s) && SerialOrder(s, order) && n < |order|
    ensures NewSegments(b.c, Bases(s.txns[order[n]].ops), Known(b, s, order, n))
  {
    var t := order[n];
    forall x, r | x in Bases(s.txns[t].ops) && r in Known(b, s, order, n)
      ensures x > 0 && Apart(SegmentAt(b.c, x), SegmentAt(b.c, r))
    {
      var k :| 0 <= k < |s.txns[t].ops| && s.txns[t].ops[k].Alloc? && s.txns[t].ops[k].a == x;
      AllocSizes(b.c, Entry(b.c, b.progs[t]), s.txns[t].ops, k);
      assert AllocAt(s, t, k);
      KnownFrom(b, s, order, n, r);
      if r != b.c.start {
        var i, l :| 0 <= i < n && 0 <= l < |s.txns[order[i]].ops| && s.txns[order[i]].ops[l].Alloc? &&
            s.txns[order[i]].ops[l].a == r;
        var u := order[i];
        AllocSizes(b.c, Entry(b.c, b.progs[u]), s.txns[u].ops, l);
        assert AllocAt(s, u, l) && Precedes(s, u, t);
      }
    }
  }

  ghost predicate AllOpening(b: Session, order: seq<TxId>, n: nat)
    requires n <= |order|
  {
    forall i :: 0 <= i < n ==> order[i] < b.opening
  }

  ghost predicate HasInit(b: Session, s: State, order: seq<TxId>, n: nat)
    requires Ids(s, order) && n <= |order| && |b.progs| == |s.txns|
  {
    exists i :: 0 <= i < n && b.progs[order[i]].InitTx?
  }

  /** Memory before the bank phase: opened or still blank, and zero outside the first segment. */
  ghost predicate Blank(c: Config, m: Memory, filled: bool) {
    && (if filled then Opened(c, m) else Lookup(m, NextAt(c.start)) == 0 == Lookup(m, ParityAt(c.start)))
    && forall x :: !Within(x, SegmentAt(c, c.start)) ==> Lookup(m, x) == 0
  }

  /** The memory between two transactions of the order. */
  ghost predicate Between(b: Session, s: State, order: seq<TxId>, n: nat, m: Memory)
    requires Ids(s, order) && n <= |order| && |b.progs| == |s.txns|
  {
    && (HasInit(b, s, order, n) ==> Ready(b.c, m, Known(b, s, order, n)))
    && (AllOpening(b, order, n) ==> Blank(b.c, m, HasInit(b, s, order, n)))
  }

  /** The opening transactions come first, an init among them. */
  ghost predicate OpensFirst(b: Session, s: State, order: seq<TxId>)
    requires Ids(s, order) && |b.progs| == |s.txns|
  {
    && (forall i, j :: 0 <= i < j < |order| && order[j] < b.opening ==> order[i] < b.opening)
    && (forall j :: 0 <= j < |order| && order[j] >= b.opening ==> HasInit(b, s, order, j))
  }

  lemma OpeningOutcome(c: Config, p: Program, m: Memory, ops: seq<Op>, ok: bool, filled: bool)
    requires c.nb > 0 && (p.InitTx? || p.CheckTx?) && Blank(c, m, filled)
    requires Replays(m, ops) && Follow(c, Entry(c, p), ops) == Some(Done(ok))
    ensures Blank(c, RunOps(m, ops), filled || p.InitTx?)
  {
    if p.InitTx? {
      InitFollow(c, m, ops);
    } else {
      CheckOutcome(c, m, ops, ok);
    }
  }

  lemma OpeningStep(b: Session, s: State, order: seq<TxId>, n: nat, m: Memory)
    requires Runs(b, s) && SerialOrder(s, order) && n < |order| && OpensFirst(b, s, order)
    requires order[n] < b.opening && Between(b, s, order, n, m) && Replays(m, s.txns[order[n]].ops)
    ensures Between(b, s, order, n + 1, RunOps(m, s.txns[order[n]].ops))
  {
    var t, ops := order[n], s.txns[order[n]].ops;
    assert AllOpening(b, order, n);
    assert HasInit(b, s, order, n + 1) <==> HasInit(b, s, order, n) || b.progs[t].InitTx?;
    hide Blank, HasInit, AllOpening, Ready, Follow, Replays, RunOps;
    OpeningOutcome(b.c, b.progs[t], m, ops, b.oks[t], HasInit(b, s, order, n));
    if HasInit(b, s, order, n + 1) {
      StartKnown(b, s, order, n + 1);
      OpenedReady(b, RunOps(m, ops), Known(b, s, order, n + 1));
    }
  }

  lemma {:induction false} StartKnown(b: Session, s: State, order: seq<TxId>, n: nat)
    requires Ids(s, order) && n <= |order|
    ensures b.c.start in Known(b, s, order, n)
  {
    if n > 0 {
      StartKnown(b, s, order, n - 1);
    }
  }

  lemma OpenedReady(b: Session, m: Memory, regions: set<Addr>)
    requires Blank(b.c, m, true) && b.c.nb > 0 && b.c.init >= 0 && b.c.start > 0 && b.c.start in regions
    ensures Ready(b.c, m, regions)
  {
    OpenedBank(b.c, m);
    assert ReadyWith(b.c, m, [b.c.start], regions);
  }

  lemma BankStep(b: Session, s: State, order: seq<TxId>, n: nat, m: Memory)
    requires Runs(b, s) && SerialOrder(s, order) && n < |order| && order[n] >= b.opening
    requires Ready(b.c, m, Known(b, s, order, n)) && Replays(m, s.txns[order[n]].ops)
    requires NewSegments(b.c, Bases(s.txns[order[n]].ops), Known(b, s, order, n))
    ensures Between(b, s, order, n + 1, RunOps(m, s.txns[order[n]].ops))
    ensures b.progs[order[n]].LongTx? ==> b.oks[order[n]]
  {
    var t := order[n];
    ReadyStep(b.c, b.progs[t], m, Known(b, s, order, n), s.txns[t].ops, b.oks[t]);
    assert !AllOpening(b, order, n + 1);
  }

  /** What the n-th transaction of the order does to the memory in front of it. */
  lemma OrderStep(b: Session, s: State, order: seq<TxId>, n: nat, m: Memory)
    requires AllocsOk(s) && Runs(b, s) && SerialOrder(s, order) && n < |order| && OpensFirst(b, s, order)
    requires Between(b, s, order, n, m) && Replays(m, s.txns[order[n]].ops)
    ensures Between(b, s, order, n + 1, RunOps(m, s.txns[order[n]].ops))
    ensures Succeeds(b, s, order, n)
  {
    hide Between, OpensFirst, AllocsOk, Replays, RunOps, HasInit;
    if order[n] < b.opening {
      OpeningStep(b, s, order, n, m);
    } else {
      AllocatesNew(b, s, order, n);
      ReadyForBank(b, s, order, n, m);
      BankStep(b, s, order, n, m);
    }
  }

  lemma ReadyForBank(b: Session, s: State, order: seq<TxId>, n: nat, m: Memory)
    requires Ids(s, order) && n < |order| && |b.progs| == |s.txns| && OpensFirst(b, s, order)
    requires order[n] >= b.opening && Between(b, s, order, n, m)
    ensures Ready(b.c, m, Known(b, s, order, n))
  {
    assert HasInit(b, s, order, n);
  }

  /** No long_tx at this place of the order fails. */
  ghost predicate Succeeds(b: Session, s: State, order: seq<TxId>, n: int)
    requires Ids(s, order) && 0 <= n < |order| && |b.progs| == |b.oks| == |s.txns|
  {
    b.progs[order[n]].LongTx? ==> b.oks[order[n]]
  }

  lemma BlankStart(b: Session, s: State, order: seq<TxId>)
    requires Runs(b, s) && Ids(s, order)
    ensures Between(b, s, order, 0, MemAfter(s, order[..0]))
  {
    hide Ready, Opened, Known, Follow;
    assert !HasInit(b, s, order, 0) && MemAfter(s, order[..0]) == map[];
  }

  // ---------------------------------------------------------------- checks and inits

  /** long_tx and check make reads only. */
  lemma {:induction false} ChecksOnlyRead(c: Config, p: Program, ops: seq<Op>)
    requires (p.LongTx? || p.CheckTx?) && Follow(c, Entry(c, p), ops).Some?
    ensures Writes(ops) == map[]
    ensures var pc := Follow(c, Entry(c, p), ops).value;
            pc.LongCount? || pc.LongParity? || pc.LongAccount? || pc.LongNext? || pc.CheckAccount? || pc.Done?
    decreases |ops|
  {
    if ops != [] {
      ChecksOnlyRead(c, p, ops[..|ops| - 1]);
    }
  }

  /** init makes writes only, and at least one. */
  lemma {:induction false} InitOnlyWrites(c: Config, ops: seq<Op>)
    requires Follow(c, InitCount, ops).Some?
    ensures forall n :: 0 <= n < |ops| ==> ops[n].Write?
    ensures var pc := Follow(c, InitCount, ops).value;
            if ops == [] then pc.InitCount? else (pc.InitAccount? || pc.Done?) && CountAt(c.start) in Writes(ops)
    ensures var pc := Follow(c, InitCount, ops).value; var a := AccountAt(c.start, 0);
            && (a in Writes(ops) ==> Writes(ops)[a] == c.init)
            && (pc.InitAccount? ==> pc.i >= 0 && (pc.i > 0 ==> a in Writes(ops)))
            && (pc.Done? && c.nb > 0 ==> a in Writes(ops))
    decreases |ops|
  {
    if ops != [] {
      var init := ops[..|ops| - 1];
      InitOnlyWrites(c, init);
      assert forall n :: 0 <= n < |init| ==> ops[n] == init[n];
    }
  }

  lemma ReadyWider(c: Config, m: Memory, regions: set<Addr>, wider: set<Addr>)
    requires Ready(c, m, regions) && regions <= wider
    ensures Ready(c, m, wider)
  {
    var chain :| ReadyWith(c, m, chain, regions);
    Widen(c, m, m, regions, wider);
    assert ReadyWith(c, m, chain, wider);
  }

  /** Nothing is asked of what such a transaction read. */
  lemma QuietOrderStep(b: Session, s: State, order: seq<TxId>, n: nat, m: Memory)
    requires Runs(b, s) && SerialOrder(s, order) && n < |order|
    requires Between(b, s, order, n, m) && Writes(s.txns[order[n]].ops) == map[]
    ensures RunOps(m, s.txns[order[n]].ops) == m && Between(b, s, order, n + 1, m)
  {
    var t, ops := order[n], s.txns[order[n]].ops;
    NoWritesNoChange(m, ops);
    if b.progs[t].InitTx? {
      InitOnlyWrites(b.c, ops);
      assert false;
    }
    assert HasInit(b, s, order, n + 1) <==> HasInit(b, s, order, n);
    if HasInit(b, s, order, n) {
      ReadyWider(b.c, m, Known(b, s, order, n), Known(b, s, order, n + 1));
    }
    assert AllOpening(b, order, n + 1) ==> AllOpening(b, order, n);
  }

  // ---------------------------------------------------------------- along the order

  lemma CleanStep(b: Session, s: State, order: seq<TxId>, n: nat, m: Memory)
    requires AllocsOk(s) && Runs(b, s) && SerialOrder(s, order) && n < |order| && OpensFirst(b, s, order)
    requires Between(b, s, order, n, m)
    requires Writes(s.txns[order[n]].ops) == map[] || Replays(m, s.txns[order[n]].ops)
    ensures Between(b, s, order, n + 1, RunOps(m, s.txns[order[n]].ops))
  {
    hide Between, OpensFirst, AllocsOk, Replays, RunOps, Writes;
    if Writes(s.txns[order[n]].ops) == map[] {
      QuietOrderStep(b, s, order, n, m);
    } else {
      OrderStep(b, s, order, n, m);
    }
  }

  /** The serial replay keeps the bank, as long as no transaction that changes memory took a stale
      value. */
  lemma {:induction false} AlongOrder(b: Session, s: State, order: seq<TxId>, n: nat)
    requires FullInv(s) && Runs(b, s) && SerialOrder(s, order) && n <= |order| && OpensFirst(b, s, order)
    requires forall i :: 0 <= i < n ==> Clean(s, order[i])
    ensures Between(b, s, order, n, MemAfter(s, order[..n]))
  {
    hide Inv, TracesOk, AllocsOk, OpensFirst, RunOps, Between, Clean, Replays, Writes;
    if n == 0 {
      BlankStart(b, s, order);
    } else {
      hide Runs;
      AlongOrder(b, s, order, n - 1);
      assert order[..n][..n - 1] == order[..n - 1];
      CleanReplays(s, order, n - 1);
      CleanStep(b, s, order, n - 1, MemAfter(s, order[..n - 1]));
    }
  }

  /** A long_tx that took no stale value succeeds, wherever it stands. */
  lemma LongTxAt(b: Session, s: State, order: seq<TxId>, n: nat)
    requires FullInv(s) && Runs(b, s) && SerialOrder(s, order) && n < |order| && OpensFirst(b, s, order)
    requires forall i :: 0 <= i < n ==> Clean(s, order[i])
    requires !HasStale(s, s.txns[order[n]])
    ensures Succeeds(b, s, order, n)
  {
    AlongOrder(b, s, order, n);
    ReplayAtIff(s, order, n);
    hide Inv, TracesOk, Between, OpensFirst, Succeeds;
    OrderStep(b, s, order, n, MemAfter(s, order[..n]));
  }

  // ---------------------------------------------------------------- the run

  lemma OpensFirstByTime(b: Session, states: seq<State>, events: seq<Event>, i: nat, j: nat, order: seq<TxId>)
    requires IsRun(states, events) && i <= j < |states|
    requires Runs(b, states[j]) && OpenedAt(b, states, i) && SerialOrder(states[j], order)
    ensures OpensFirst(b, states[j], order)
  {
    var s := states[j];
    forall x, y | 0 <= x < |order| && 0 <= y < |order| && order[y] < b.opening <= order[x] ensures y < x {
      PrecedesOneWay(s, order, y, x);
      OpeningPrecedes(b, states, events, i, j, order[y], order[x]);
    }
    forall y | 0 <= y < |order| && order[y] >= b.opening ensures HasInit(b, s, order, y) {
      var t :| 0 <= t < b.opening && states[i].txns[t].pc.Committed? && b.progs[t].InitTx?;
      SinceRun(states, events, i, j, t);
      var x :| 0 <= x < |order| && order[x] == t;
    }
  }

  /** Whatever of the opening takes effect was committed when the others began. */
  lemma OpeningPrecedes(b: Session, states: seq<State>, events: seq<Event>, i: nat, j: nat, t: TxId, u: TxId)
    requires IsRun(states, events) && i <= j < |states| && OpenedAt(b, states, i)
    requires t < b.opening <= u < |states[j].txns| && t < |states[j].txns|
    requires Serialized(states[j].txns[t]) && Serialized(states[j].txns[u])
    ensures Precedes(states[j], t, u)
  {
    SinceRun(states, events, i, j, t);
    RealTime(states, events, i, j, t, u);
  }

  lemma OrderOfRun(b: Session, states: seq<State>, events: seq<Event>, i: nat, j: nat) returns (order: seq<TxId>)
    requires IsRun(states, events) && i <= j < |states| && Runs(b, states[j]) && OpenedAt(b, states, i)
    ensures FullInv(states[j]) && SerialOrder(states[j], order) && OpensFirst(b, states[j], order)
  {
    SerialOrderExists(states[j]);
    order :| SerialOrder(states[j], order);
    RunFullInv(states, events, j);
    OpensFirstByTime(b, states, events, i, j, order);
  }

  /** In every run of the bank, a long_tx that took no stale value returns true, when no transaction
      that precedes it and changed memory took one. What other checks read does not matter. */
  lemma LongTxSucceeds(b: Session, states: seq<State>, events: seq<Event>, i: nat, j: nat, t: TxId)
    requires IsRun(states, events) && i <= j < |states| && Runs(b, states[j]) && OpenedAt(b, states, i)
    requires t < |states[j].txns| && Serialized(states[j].txns[t]) && b.progs[t].LongTx?
    requires !HasStale(states[j], states[j].txns[t])
    requires forall u :: 0 <= u < |states[j].txns| && Precedes(states[j], u, t) ==> Clean(states[j], u)
    ensures b.oks[t]
  {
    var order := OrderOfRun(b, states, events, i, j);
    hide FullInv, OpensFirst, HasStale, Clean, Runs, OpenedAt;
    var n :| 0 <= n < |order| && order[n] == t;
    LongTxAt(b, states[j], order, n);
    assert Succeeds(b, states[j], order, n);
  }

  // ---------------------------------------------------------------- the check of init

  lemma CheckReads(b: Session, s: State, u: TxId)
    requires FullInv(s) && Runs(b, s) && u < |s.txns| && Serialized(s.txns[u]) && b.progs[u].CheckTx?
    ensures |s.txns[u].ops| == 1
    ensures var op := s.txns[u].ops[0];
            op.Read? && !op.own && op.a == AccountAt(b.c.start, 0) && (b.oks[u] <==> op.w == b.c.init)
  {
    var ops := s.txns[u].ops;
    CheckFollow(b.c, ops);
    assert TraceOk(s.txns[u]) && OwnOk(ops, 0);
    assert ops[..0] == [];
  }

  /** An opening transaction that writes the first account opens it. */
  lemma OpeningWrites(b: Session, s: State, t: TxId)
    requires FullInv(s) && Runs(b, s) && t < b.opening && Serialized(s.txns[t])
    ensures AccountAt(b.c.start, 0) in s.txns[t].buf <==> b.progs[t].InitTx?
    ensures b.progs[t].InitTx? ==> s.txns[t].buf[AccountAt(b.c.start, 0)] == b.c.init
  {
    ReadOnlyWritesNothing(s, t);
    if b.progs[t].InitTx? {
      InitOnlyWrites(b.c, s.txns[t].ops);
    } else {
      ChecksOnlyRead(b.c, b.progs[t], s.txns[t].ops);
    }
  }

  /** Up to the version of a transaction that finished during the opening, every commit of the first
      account opens it. */
  lemma OpeningVersion(b: Session, states: seq<State>, events: seq<Event>, i: nat, j: nat, u: TxId, v: nat)
    requires IsRun(states, events) && i <= j < |states| && Runs(b, states[j]) && |states[i].txns| == b.opening
    requires u < b.opening && Finished(states[i].txns[u])
    requires 0 < v <= states[j].txns[u].rv < |states[j].hist| && AccountAt(b.c.start, 0) in states[j].hist[v]
    ensures states[j].hist[v][AccountAt(b.c.start, 0)] == b.c.init
  {
    var s := states[j];
    RunFullInv(states, events, j);
    RunInv(states, events, i);
    SinceRun(states, events, i, j, u);
    var x := s.writer[v];
    assert Shape(states[i].txns[u], states[i].clock) && Shape(s.txns[x], s.clock);
    assert x < b.opening;
    OpeningWrites(b, s, x);
  }

  lemma {:induction false} OpenedSince(b: Session, states: seq<State>, events: seq<Event>, i: nat, j: nat, u: TxId,
      lo: nat, v: nat)
    requires IsRun(states, events) && i <= j < |states| && Runs(b, states[j]) && |states[i].txns| == b.opening
    requires u < b.opening && Finished(states[i].txns[u])
    requires 0 < lo <= v <= states[j].txns[u].rv < |states[j].hist| && AccountAt(b.c.start, 0) in states[j].hist[lo]
    ensures Snapshot(states[j].hist, v, AccountAt(b.c.start, 0)) == b.c.init
  {
    if AccountAt(b.c.start, 0) in states[j].hist[v] {
      OpeningVersion(b, states, events, i, j, u, v);
    } else {
      OpenedSince(b, states, events, i, j, u, lo, v - 1);
    }
  }

  /** A check of the opening phase that began after an init had committed returns true: whatever copy it
      took, stale or not, an init had opened the account. */
  lemma CheckSucceeds(b: Session, states: seq<State>, events: seq<Event>, i: nat, j: nat, k: nat, t: TxId, u: TxId)
    requires IsRun(states, events) && k <= i <= j < |states| && Runs(b, states[j]) && |states[i].txns| == b.opening
    requires t < |states[k].txns| <= u < b.opening && states[k].txns[t].pc.Committed? && b.progs[t].InitTx?
    requires b.progs[u].CheckTx? && states[i].txns[u].pc.Committed?
    ensures b.oks[u]
  {
    var s := states[j];
    RunFullInv(states, events, j);
    SinceRun(states, events, k, j, t);
    SinceRun(states, events, i, j, u);
    CheckReads(b, s, u);
    OpeningWrites(b, s, t);
    SeesCommitted(states, events, k, j, t, u, 0);
    ReadGuarantee(states, events, j, u, 0);
    EffectIsHistory(s, t);
    hide FullInv, Runs, IsRun;
    OpenedSince(b, states, events, i, j, u, s.txns[t].wv, s.txns[u].ops[0].asof);
  }

  // ---------------------------------------------------------------- the bank at rest

  lemma AtRest(b: Session, states: seq<State>, events: seq<Event>, i: nat, j: nat, order: seq<TxId>)
    requires IsRun(states, events) && i <= j < |states| && Runs(b, states[j]) && OpenedAt(b, states, i)
    requires SerialOrder(states[j], order) && FullInv(states[j]) && OpensFirst(b, states[j], order)
    requires forall u :: 0 <= u < |states[j].txns| ==> Clean(states[j], u)
    ensures Ready(b.c, MemAfter(states[j], order), Known(b, states[j], order, |order|))
  {
    hide FullInv, OpensFirst, Ready, Clean, HasStale;
    var s := states[j];
    var t :| 0 <= t < b.opening && states[i].txns[t].pc.Committed? && b.progs[t].InitTx?;
    SinceRun(states, events, i, j, t);
    var x :| 0 <= x < |order| && order[x] == t;
    assert HasInit(b, s, order, |order|);
    AlongOrder(b, s, order, |order|);
    assert order[..|order|] == order;
  }

  /** When no transaction is inside tm_end, and none that changed memory took a stale value, shared
      memory itself holds the bank: no account is negative and no money was made or lost. */
  lemma BankAtRest(b: Session, states: seq<State>, events: seq<Event>, i: nat, j: nat)
    requires IsRun(states, events) && i <= j < |states| && Runs(b, states[j]) && OpenedAt(b, states, i)
    requires forall u :: 0 <= u < |states[j].txns| ==> Clean(states[j], u)
    requires forall u :: 0 <= u < |states[j].txns| ==> !InEnd(states[j].txns[u])
    ensures exists chain, m :: Bank(b.c, m, chain) && forall a :: Lookup(states[j].mem, a) == Lookup(m, a)
  {
    var s := states[j];
    var order := OrderOfRun(b, states, events, i, j);
    AtRest(b, states, events, i, j, order);
    hide FullInv, OpensFirst, Clean, Runs, OpenedAt, Bank, Lookup, SerialOrder;
    var m := MemAfter(s, order);
    var chain :| ReadyWith(b.c, m, chain, Known(b, s, order, |order|));
    Quiescent(states, events, j);
    forall a ensures Lookup(s.mem, a) == Lookup(m, a) {
      SerialMemory(states, events, j, order, a);
    }
    assert Bank(b.c, m, chain);
  }

  // ---------------------------------------------------------------- guarded copies

  /** With guarded copies, as when nobody steps in between a copy under a lock and the load of the lock
      bit, every long_tx of every run returns true. */
  lemma LongTxGuarded(b: Session, states: seq<State>, events: seq<Event>, i: nat, j: nat, t: TxId)
    requires GuardedRun(states, events) && i <= j < |states| && Runs(b, states[j]) && OpenedAt(b, states, i)
    requires t < |states[j].txns| && Serialized(states[j].txns[t]) && b.progs[t].LongTx?
    ensures b.oks[t]
  {
    forall u | 0 <= u < |states[j].txns| ensures !HasStale(states[j], states[j].txns[u]) && Clean(states[j], u) {
      GuardedNotStale(states, events, j, u);
    }
    LongTxSucceeds(b, states, events, i, j, t);
  }

  /** ... and whenever no transaction is inside tm_end, memory holds the bank. */
  lemma BankGuarded(b: Session, states: seq<State>, events: seq<Event>, i: nat, j: nat)
    requires GuardedRun(states, events) && i <= j < |states| && Runs(b, states[j]) && OpenedAt(b, states, i)
    requires forall u :: 0 <= u < |states[j].txns| ==> !InEnd(states[j].txns[u])
    ensures exists chain, m :: Bank(b.c, m, chain) && forall a :: Lookup(states[j].mem, a) == Lookup(m, a)
  {
    forall u | 0 <= u < |states[j].txns| ensures Clean(states[j], u) {
      GuardedNotStale(states, events, j, u);
    }
    BankAtRest(b, states, events, i, j);
  }
}
