/** The outcome of every bank transaction that runs, undisturbed, on a memory holding the bank. */
module BankOutcome {
  import opened Striping
  import opened Sequences
  import opened Tl2
  import opened Reference
  import opened BankProgram
  import opened BankState
  import opened BankInvariant
  import opened BankPreserved

  /** The segments the operations allocate. */
  function Bases(ops: seq<Op>): set<Addr> {
    set n | 0 <= n < |ops| && ops[n].Alloc? :: ops[n].a
  }

  ghost predicate ProgramInv(c: Config, p: Program, m0: Memory, chain: seq<Addr>, offers: set<Addr>, m: Memory,
      pc: Counter)
    requires |chain| > 0
  {
    match p
    case ShortTx(sid, rid) => ShortInv(m0, chain, sid, rid, m, pc)
    case AllocTx(trigger) => AllocInv(c, m0, chain, trigger, offers, m, pc)
    case _ => false
  }

  /** Running short_tx or alloc_tx operation by operation keeps its invariant. */
  lemma {:induction false} FollowInv(c: Config, p: Program, m0: Memory, chain: seq<Addr>, ops: seq<Op>,
      offers: set<Addr>)
    requires Bank(c, m0, chain) && (p.ShortTx? || p.AllocTx?) && Bases(ops) <= offers
    requires Replays(m0, ops) && Follow(c, Entry(c, p), ops).Some?
    ensures ProgramInv(c, p, m0, chain, offers, RunOps(m0, ops), Follow(c, Entry(c, p), ops).value)
    decreases |ops|
  {
    if ops == [] {
      EntryInv(c, p, m0, chain, offers);
    } else {
      var init, op := ops[..|ops| - 1], ops[|ops| - 1];
      ReplaysPrefix(m0, ops, |ops| - 1);
      assert ReplaysAt(m0, ops, |ops| - 1);
      forall x | x in Bases(init) ensures x in Bases(ops) {
        var n :| 0 <= n < |init| && init[n].Alloc? && init[n].a == x;
        assert ops[n] == init[n];
      }
      FollowInv(c, p, m0, chain, init, offers);
      assert op.Alloc? ==> op.a in Bases(ops);
      hide Step, Emits, ShortInv, AllocInv;
      var pc, m := Follow(c, Entry(c, p), init).value, RunOps(m0, init);
      assert Sees(m, op);
      match p
      case ShortTx(sid, rid) => ShortStep(c, m0, chain, sid, rid, m, pc, op);
      case AllocTx(trigger) => AllocStep(c, m0, chain, trigger, offers, m, pc, op);
    }
  }

  lemma EntryInv(c: Config, p: Program, m: Memory, chain: seq<Addr>, offers: set<Addr>)
    requires Bank(c, m, chain) && (p.ShortTx? || p.AllocTx?)
    ensures ProgramInv(c, p, m, chain, offers, m, Entry(c, p))
  {
    assert Accounts(m, chain, 0) == [] && Total(m, chain, 0) == 0;
    match p
    case ShortTx(sid, rid) => assert ShortAt(m, chain, 0, sid, rid, Entry(c, p));
    case AllocTx(trigger) => assert AllocScanAt(m, chain, trigger, 0, Entry(c, p));
  }

  // ---------------------------------------------------------------- long_tx

  lemma {:induction false} LongFollows(c: Config, m: Memory, chain: seq<Addr>, ops: seq<Op>)
    requires Walk(c, m, chain) && Replays(m, ops) && Follow(c, Entry(c, LongTx), ops).Some?
    ensures RunOps(m, ops) == m && LongInv(c, m, chain, Follow(c, Entry(c, LongTx), ops).value)
    decreases |ops|
  {
    if ops == [] {
      assert Accounts(m, chain, 0) == [] && Total(m, chain, 0) == 0;
      assert LongAt(m, chain, 0, Entry(c, LongTx)) && Passed(m, chain, 0, Entry(c, LongTx));
    } else {
      var init, op := ops[..|ops| - 1], ops[|ops| - 1];
      ReplaysPrefix(m, ops, |ops| - 1);
      assert ReplaysAt(m, ops, |ops| - 1);
      hide Step, Emits, LongInv, Walk;
      LongFollows(c, m, chain, init);
      LongStep(c, m, chain, Follow(c, Entry(c, LongTx), init).value, op);
    }
  }

  /** long_tx returns true exactly when no balance in the chain of segments is negative, and the money is
      what the accounts were opened with; it writes nothing. */
  lemma LongVerdict(c: Config, m: Memory, chain: seq<Addr>, ops: seq<Op>, ok: bool)
    requires Walk(c, m, chain) && Replays(m, ops) && Follow(c, Entry(c, LongTx), ops) == Some(Done(ok))
    ensures ok <==> (forall i :: 0 <= i < |chain| ==> NonNegative(m, chain[i])) &&
                    Total(m, chain, |chain|) == Worth(c.init, |Accounts(m, chain, |chain|)|)
    ensures RunOps(m, ops) == m
  {
    LongFollows(c, m, chain, ops);
  }

  /** So on the bank it never finds a negative balance or a wrong total. */
  lemma LongOutcome(c: Config, m: Memory, chain: seq<Addr>, ops: seq<Op>, ok: bool)
    requires Bank(c, m, chain) && Replays(m, ops) && Follow(c, Entry(c, LongTx), ops) == Some(Done(ok))
    ensures ok && RunOps(m, ops) == m
  {
    BankWalk(c, m, chain);
    LongVerdict(c, m, chain, ops, ok);
  }

  // ---------------------------------------------------------------- short_tx

  lemma ShortRan(c: Config, m: Memory, chain: seq<Addr>, sid: nat, rid: nat, ops: seq<Op>, ok: bool)
    requires Bank(c, m, chain) && Replays(m, ops) && Follow(c, Entry(c, ShortTx(sid, rid)), ops) == Some(Done(ok))
    ensures RunOps(m, ops) == ShortResult(m, chain, sid, rid) && (ok <==> InRange(m, chain, sid, rid))
  {
    assert |chain| > 0;
    hide Bank, Follow, Replays, RunOps, Accounts, ShortResult, InRange;
    FollowInv(c, ShortTx(sid, rid), m, chain, ops, Bases(ops));
  }

  /** short_tx moves one unit between the accounts with the given indices, in the order of the
      chain, and reports failure exactly when one of them does not exist. */
  lemma ShortOutcome(c: Config, m: Memory, chain: seq<Addr>, sid: nat, rid: nat, ops: seq<Op>, ok: bool)
    requires Bank(c, m, chain) && Replays(m, ops) && Follow(c, Entry(c, ShortTx(sid, rid)), ops) == Some(Done(ok))
    ensures ok <==> sid < Size(m, chain) && rid < Size(m, chain)
    ensures RunOps(m, ops) == ShortResult(m, chain, sid, rid) && Bank(c, RunOps(m, ops), chain)
    ensures Accounts(RunOps(m, ops), chain, |chain|) == Accounts(m, chain, |chain|)
  {
    hide Bank, Follow, Replays, RunOps, Accounts, ShortResult;
    ShortRan(c, m, chain, sid, rid, ops, ok);
    ShortKeeps(c, m, chain, sid, rid);
  }

  // ---------------------------------------------------------------- alloc_tx

  /** The chain alloc_tx leaves. */
  ghost function AllocChain(c: Config, m: Memory, chain: seq<Addr>, trigger: nat, base: Addr): seq<Addr>
    requires |chain| > 0
  {
    if Closes(m, chain, trigger) then
      if Tail(m, chain) > 1 then chain else chain[..|chain| - 1]
    else if Tail(m, chain) < c.nb then chain
    else chain + [base]
  }

  /** alloc_tx closes the last account when there are more than `trigger` and more than two, and
      opens one otherwise; the segment of the last account goes and comes with it. */
  lemma AllocOutcome(c: Config, m: Memory, chain: seq<Addr>, trigger: nat, ops: seq<Op>, ok: bool) returns (base: Addr)
    requires Bank(c, m, chain) && Replays(m, ops) && Follow(c, Entry(c, AllocTx(trigger)), ops) == Some(Done(ok))
    requires forall b :: b in Bases(ops) ==> FreshSegment(c, m, chain, b)
    ensures ok && AllocResult(c, m, chain, trigger, Bases(ops), RunOps(m, ops))
    ensures var chain' := AllocChain(c, m, chain, trigger, base);
            && Bank(c, RunOps(m, ops), chain')
            && Size(RunOps(m, ops), chain') == Size(m, chain) + (if Closes(m, chain, trigger) then -1 else 1)
    ensures !Closes(m, chain, trigger) && Tail(m, chain) >= c.nb ==>
              base in Bases(ops) && RunOps(m, ops) == GrowResult(c, m, chain, base)
  {
    FollowInv(c, AllocTx(trigger), m, chain, ops, Bases(ops));
    CountBounds(c, m, chain, |chain| - 1);
    base := 0;
    if Closes(m, chain, trigger) {
      if Tail(m, chain) > 1 {
        CloseKeeps(c, m, chain);
      } else {
        DropKeeps(c, m, chain);
      }
    } else if Tail(m, chain) < c.nb {
      OpenKeeps(c, m, chain);
    } else {
      base :| base in Bases(ops) && RunOps(m, ops) == GrowResult(c, m, chain, base);
      GrowKeeps(c, m, chain, base);
    }
  }

  // ---------------------------------------------------------------- init

  /** The memory after init: one full segment of fresh accounts. */
  ghost predicate Opened(c: Config, m: Memory) {
    && Lookup(m, CountAt(c.start)) == c.nb && Lookup(m, NextAt(c.start)) == 0 && Lookup(m, ParityAt(c.start)) == 0
    && forall i :: 0 <= i < c.nb ==> Lookup(m, AccountAt(c.start, i)) == c.init
  }

  lemma {:induction false} OpenedSum(c: Config, m: Memory, n: nat)
    requires forall i :: 0 <= i < n ==> Lookup(m, AccountAt(c.start, i)) == c.init
    ensures Sum(m, c.start, n) == Worth(c.init, n)
  {
    if n > 0 {
      OpenedSum(c, m, n - 1);
      Scales(c.init, n - 1, 1);
    }
  }

  /** init establishes the bank invariant. */
  lemma OpenedBank(c: Config, m: Memory)
    requires Opened(c, m) && c.nb > 0 && c.init >= 0 && c.start > 0
    ensures Bank(c, m, [c.start])
  {
    OpenedSum(c, m, c.nb);
    LastSplit(m, [c.start], 1);
  }

  ghost predicate InitInv(c: Config, m: Memory, pc: Counter) {
    && Lookup(m, NextAt(c.start)) == 0 && Lookup(m, ParityAt(c.start)) == 0
    && match pc
       case InitCount => true
       case InitAccount(i) =>
         0 <= i < c.nb && Lookup(m, CountAt(c.start)) == c.nb &&
         forall j :: 0 <= j < i ==> Lookup(m, AccountAt(c.start, j)) == c.init
       case Done(ok) => ok && (c.nb > 0 ==> Opened(c, m))
       case _ => false
  }

  lemma InitStep(c: Config, m: Memory, pc: Counter, op: Op)
    requires InitInv(c, m, pc) && Emits(c, pc, op) && c.nb > 0
    ensures InitInv(c, Apply(m, op), Step(c, pc, op)) && op.Write? && Within(op.a, SegmentAt(c, c.start))
  {
  }

  /** init needs only the links and the parity of the first segment to be zero, as they are in
      fresh memory and after another init. */
  lemma {:induction false} InitFollow(c: Config, m: Memory, ops: seq<Op>)
    requires c.nb > 0 && InitInv(c, m, InitCount) && Follow(c, InitCount, ops).Some?
    ensures InitInv(c, RunOps(m, ops), Follow(c, InitCount, ops).value)
    ensures forall x :: !Within(x, SegmentAt(c, c.start)) ==> Lookup(RunOps(m, ops), x) == Lookup(m, x)
    decreases |ops|
  {
    if ops != [] {
      var init, op := ops[..|ops| - 1], ops[|ops| - 1];
      InitFollow(c, m, init);
      InitStep(c, RunOps(m, init), Follow(c, InitCount, init).value, op);
    }
  }

  /** The check after init reads one account and writes nothing. */
  lemma CheckOutcome(c: Config, m: Memory, ops: seq<Op>, ok: bool)
    requires Replays(m, ops) && Follow(c, CheckAccount, ops) == Some(Done(ok))
    ensures RunOps(m, ops) == m && (ok <==> Lookup(m, AccountAt(c.start, 0)) == c.init)
    ensures c.nb > 0 && Opened(c, m) ==> ok
  {
    var init, op := ops[..|ops| - 1], ops[|ops| - 1];
    assert Follow(c, CheckAccount, init).Some?;
    CheckFollow(c, init);
    assert ReplaysAt(m, ops, |ops| - 1);
  }

  lemma {:induction false} CheckFollow(c: Config, ops: seq<Op>)
    requires Follow(c, CheckAccount, ops).Some?
    ensures match Follow(c, CheckAccount, ops).value
            case CheckAccount => ops == []
            case Done(_) => |ops| == 1 && ops[0].Read?
            case _ => false
    decreases |ops|
  {
    if ops != [] {
      CheckFollow(c, ops[..|ops| - 1]);
    }
  }

  // ---------------------------------------------------------------- where the bank lives

  ghost predicate Covered(c: Config, x: Addr, regions: set<Addr>) {
    exists b :: b in regions && Within(x, SegmentAt(c, b))
  }

  ghost predicate ChainIn(chain: seq<Addr>, regions: set<Addr>) {
    forall i :: 0 <= i < |chain| ==> chain[i] in regions
  }

  lemma ShortTouches(c: Config, m: Memory, chain: seq<Addr>, sid: nat, rid: nat, regions: set<Addr>, x: Addr)
    requires Bank(c, m, chain) && ChainIn(chain, regions) && !Covered(c, x, regions)
    ensures Lookup(ShortResult(m, chain, sid, rid), x) == Lookup(m, x)
  {
    if InRange(m, chain, sid, rid) {
      var k, i := AccountFind(m, chain, |chain|, sid);
      CountBounds(c, m, chain, k);
      assert Within(AccountAt(chain[k], i), SegmentAt(c, chain[k]));
      var k', i' := AccountFind(m, chain, |chain|, rid);
      CountBounds(c, m, chain, k');
      assert Within(AccountAt(chain[k'], i'), SegmentAt(c, chain[k']));
    }
  }

  lemma AllocTouches(c: Config, m: Memory, chain: seq<Addr>, trigger: nat, offers: set<Addr>, m': Memory,
      regions: set<Addr>, x: Addr)
    requires Bank(c, m, chain) && AllocResult(c, m, chain, trigger, offers, m')
    requires ChainIn(chain, regions) && offers <= regions && !Covered(c, x, regions)
    ensures Lookup(m', x) == Lookup(m, x)
  {
    var last, t := Last(chain), Tail(m, chain);
    CountBounds(c, m, chain, |chain| - 1);
    assert Within(CountAt(last), SegmentAt(c, last)) && Within(ParityAt(last), SegmentAt(c, last)) &&
        Within(NextAt(last), SegmentAt(c, last));
    if Closes(m, chain, trigger) {
      if t <= 1 {
        var prev := chain[|chain| - 2];
        assert Within(NextAt(prev), SegmentAt(c, prev)) && Within(ParityAt(prev), SegmentAt(c, prev));
      }
    } else if t < c.nb {
      assert Within(AccountAt(last, t), SegmentAt(c, last));
    } else {
      var base :| base in offers && m' == GrowResult(c, m, chain, base);
      assert Within(CountAt(base), SegmentAt(c, base)) && Within(AccountAt(base, 0), SegmentAt(c, base));
    }
  }

  /** The bank, somewhere inside the given segments, with nothing outside them. */
  ghost predicate ReadyWith(c: Config, m: Memory, chain: seq<Addr>, regions: set<Addr>) {
    Bank(c, m, chain) && ChainIn(chain, regions) && forall x :: !Covered(c, x, regions) ==> Lookup(m, x) == 0
  }

  ghost predicate Ready(c: Config, m: Memory, regions: set<Addr>) {
    exists chain :: ReadyWith(c, m, chain, regions)
  }

  ghost predicate NewSegments(c: Config, offers: set<Addr>, regions: set<Addr>) {
    forall b, r :: b in offers && r in regions ==> b > 0 && Apart(SegmentAt(c, b), SegmentAt(c, r))
  }

  lemma NewIsFresh(c: Config, m: Memory, chain: seq<Addr>, offers: set<Addr>, regions: set<Addr>, b: Addr)
    requires ReadyWith(c, m, chain, regions) && NewSegments(c, offers, regions) && b in offers
    ensures FreshSegment(c, m, chain, b)
  {
    assert chain[0] in regions;
    forall x | Within(x, SegmentAt(c, b)) ensures Lookup(m, x) == 0 {
      assert !Covered(c, x, regions);
    }
  }

  lemma Widen(c: Config, m: Memory, m': Memory, regions: set<Addr>, wider: set<Addr>)
    requires regions <= wider
    requires forall x :: !Covered(c, x, regions) ==> Lookup(m, x) == 0
    requires forall x :: !Covered(c, x, wider) ==> Lookup(m', x) == Lookup(m, x)
    ensures forall x :: !Covered(c, x, wider) ==> Lookup(m', x) == 0
  {
    forall x | !Covered(c, x, wider) ensures Lookup(m', x) == 0 {
      assert Covered(c, x, regions) ==> Covered(c, x, wider);
    }
  }

  /** What a transaction of the bank phase leaves, and where. */
  lemma ProgramOutcome(c: Config, p: Program, m: Memory, chain: seq<Addr>, ops: seq<Op>, ok: bool, regions: set<Addr>)
      returns (chain': seq<Addr>)
    requires Bank(c, m, chain) && ChainIn(chain, regions) && Bases(ops) <= regions && !p.InitTx? && !p.CheckTx?
    requires Replays(m, ops) && Follow(c, Entry(c, p), ops) == Some(Done(ok))
    requires forall b :: b in Bases(ops) ==> FreshSegment(c, m, chain, b)
    ensures Bank(c, RunOps(m, ops), chain') && ChainIn(chain', regions)
    ensures forall x :: !Covered(c, x, regions) ==> Lookup(RunOps(m, ops), x) == Lookup(m, x)
    ensures p.LongTx? ==> ok
  {
    hide Follow, Replays, RunOps, FreshSegment, ShortResult, AllocResult, Accounts, Covered;
    chain' := chain;
    if p.LongTx? {
      LongOutcome(c, m, chain, ops, ok);
    } else if p.ShortTx? {
      ShortOutcome(c, m, chain, p.sid, p.rid, ops, ok);
      forall x | !Covered(c, x, regions) ensures Lookup(RunOps(m, ops), x) == Lookup(m, x) {
        ShortTouches(c, m, chain, p.sid, p.rid, regions, x);
      }
    } else {
      chain' := AllocLeaves(c, p.trigger, m, chain, ops, ok, regions);
    }
  }

  lemma AllocLeaves(c: Config, trigger: nat, m: Memory, chain: seq<Addr>, ops: seq<Op>, ok: bool, regions: set<Addr>)
      returns (chain': seq<Addr>)
    requires Bank(c, m, chain) && ChainIn(chain, regions) && Bases(ops) <= regions
    requires Replays(m, ops) && Follow(c, Entry(c, AllocTx(trigger)), ops) == Some(Done(ok))
    requires forall b :: b in Bases(ops) ==> FreshSegment(c, m, chain, b)
    ensures Bank(c, RunOps(m, ops), chain') && ChainIn(chain', regions)
    ensures forall x :: !Covered(c, x, regions) ==> Lookup(RunOps(m, ops), x) == Lookup(m, x)
  {
    var base := AllocOutcome(c, m, chain, trigger, ops, ok);
    chain' := AllocChain(c, m, chain, trigger, base);
    forall x | !Covered(c, x, regions) ensures Lookup(RunOps(m, ops), x) == Lookup(m, x) {
      AllocTouches(c, m, chain, trigger, Bases(ops), RunOps(m, ops), regions, x);
    }
  }

  /** Each transaction of the bank phase finds the bank ready and leaves it ready; long_tx succeeds. */
  lemma ReadyStep(c: Config, p: Program, m: Memory, regions: set<Addr>, ops: seq<Op>, ok: bool)
    requires Ready(c, m, regions) && !p.InitTx? && !p.CheckTx?
    requires Replays(m, ops) && Follow(c, Entry(c, p), ops) == Some(Done(ok))
    requires NewSegments(c, Bases(ops), regions)
    ensures Ready(c, RunOps(m, ops), regions + Bases(ops))
    ensures p.LongTx? ==> ok
  {
    var chain :| ReadyWith(c, m, chain, regions);
    var m', wider := RunOps(m, ops), regions + Bases(ops);
    hide Follow, Replays, RunOps, Bank;
    forall b | b in Bases(ops) ensures FreshSegment(c, m, chain, b) {
      NewIsFresh(c, m, chain, Bases(ops), regions, b);
    }
    var chain' := ProgramOutcome(c, p, m, chain, ops, ok, wider);
    Widen(c, m, m', regions, wider);
    assert ReadyWith(c, m', chain', wider);
  }
}
