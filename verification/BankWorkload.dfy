/** The transaction bodies of the bank workload, as they run on the coarse-lock memory. Each makes
    the operations of its program and has the effect proved for that program. */
module BankWorkload {
  import opened Striping
  import opened Tl2
  import opened Reference
  import opened BankProgram
  import opened BankState
  import opened BankInvariant
  import opened BankOutcome

  lemma Snoc(m: Memory, ops: seq<Op>, op: Op)
    requires Replays(m, ops) && Sees(RunOps(m, ops), op)
    ensures Replays(m, ops + [op]) && RunOps(m, ops + [op]) == Apply(RunOps(m, ops), op)
  {
    var ops' := ops + [op];
    assert ops'[..|ops|] == ops;
    forall n | 0 <= n < |ops'| ensures ReplaysAt(m, ops', n) {
      if n < |ops| {
        assert ops'[..n] == ops[..n];
        assert ReplaysAt(m, ops, n);
      }
    }
  }

  lemma BasesSnoc(ops: seq<Op>, op: Op)
    ensures Bases(ops + [op]) == if op.Alloc? then Bases(ops) + {op.a} else Bases(ops)
  {
    var ops' := ops + [op];
    assert ops'[|ops|] == op;
    assert forall n :: 0 <= n < |ops| ==> ops'[n] == ops[n];
  }

  /** A transaction of the coarse-lock implementation: while it holds the lock, its reads and writes
      go straight to memory. `before`, `ops`, `at` and `taken` record the memory it found,
      what it did, where its program stands, and the segments it got. */
  class DirectTransaction {
    var mem: Memory
    ghost const c: Config
    ghost const program: Program
    ghost const before: Memory
    ghost var ops: seq<Op>
    ghost var at: Counter
    ghost var taken: set<Addr>

    /** What was done is what the program does, and reads what memory then held. */
    ghost predicate Valid()
      reads this
    {
      && Replays(before, ops) && mem == RunOps(before, ops) && Bases(ops) == taken
      && Follow(c, Entry(c, program), ops) == Some(at)
    }

    constructor (ghost c: Config, ghost program: Program, mem: Memory)
      ensures Valid() && this.mem == before == mem && this.c == c && this.program == program
      ensures ops == [] && at == Entry(c, program) && taken == {}
    {
      this.c, this.program, this.mem, before := c, program, mem, mem;
      ops, at, taken := [], Entry(c, program), {};
    }

    method Read(a: Addr) returns (w: Word)
      requires Valid() && Emits(c, at, Op.Read(a, Lookup(mem, a), false, 0))
      modifies `ops, `at, `taken
      ensures Valid() && taken == old(taken) && w == Lookup(mem, a)
      ensures ops == old(ops) + [Op.Read(a, w, false, 0)] && at == Step(c, old(at), Op.Read(a, w, false, 0))
    {
      w := Lookup(mem, a);
      Record(Op.Read(a, w, false, 0));
    }

    method Write(a: Addr, w: Word)
      requires Valid() && Emits(c, at, Op.Write(a, w))
      modifies `mem, `ops, `at, `taken
      ensures Valid() && taken == old(taken) && mem == old(mem)[a := w]
      ensures ops == old(ops) + [Op.Write(a, w)] && at == Step(c, old(at), Op.Write(a, w))
    {
      mem := mem[a := w];
      Record(Op.Write(a, w));
    }

    /** `offer` is the zeroed segment the allocator found. */
    method Alloc(n: nat, offer: Addr) returns (a: Addr)
      requires Valid() && Emits(c, at, Op.Alloc(offer, n))
      modifies `ops, `at, `taken
      ensures Valid() && a == offer && taken == old(taken) + {offer}
      ensures ops == old(ops) + [Op.Alloc(a, n)] && at == Step(c, old(at), Op.Alloc(a, n))
    {
      a := offer;
      Record(Op.Alloc(a, n));
    }

    ghost method Record(op: Op)
      requires Replays(before, ops) && Bases(ops) == taken && Follow(c, Entry(c, program), ops) == Some(at)
      requires mem == Apply(RunOps(before, ops), op) && Sees(RunOps(before, ops), op) && Emits(c, at, op)
      modifies `ops, `at, `taken
      ensures Valid() && ops == old(ops) + [op] && at == Step(c, old(at), op)
      ensures taken == if op.Alloc? then old(taken) + {op.a} else old(taken)
    {
      hide Step, Emits, Bases;
      Snoc(before, ops, op);
      FollowSnoc(c, Entry(c, program), ops, op);
      BasesSnoc(ops, op);
      ops, at := ops + [op], Step(c, at, op);
      if op.Alloc? {
        taken := taken + {op.a};
      }
    }
  }

  /** A transaction that starts on a memory that holds the bank. */
  ghost predicate Starts(c: Config, p: Program, tx: DirectTransaction, chain: seq<Addr>)
    reads tx
  {
    tx.Valid() && tx.taken == {} && tx.c == c && tx.program == p && tx.at == Entry(c, p) &&
        tx.before == tx.mem && Bank(c, tx.mem, chain)
  }

  lemma ChainStarts(c: Config, m: Memory, chain: seq<Addr>)
    requires Bank(c, m, chain)
    ensures |chain| > 0 && chain[0] == c.start > 0
  {
  }

  lemma NextOf(c: Config, m: Memory, chain: seq<Addr>, k: nat)
    requires Bank(c, m, chain) && k < |chain|
    ensures chain[k] > 0 && (k + 1 < |chain| ==> chain[k + 1] > 0)
    ensures Lookup(m, NextAt(chain[k])) == if k + 1 < |chain| then chain[k + 1] else 0
  {
  }

  lemma CountedNothing(m: Memory, chain: seq<Addr>)
    ensures |Accounts(m, chain, 0)| == 0
  {
  }

  lemma CountedNext(c: Config, m: Memory, chain: seq<Addr>, k: nat)
    requires Bank(c, m, chain) && k < |chain|
    ensures |Accounts(m, chain, k + 1)| == |Accounts(m, chain, k)| + Lookup(m, CountAt(chain[k]))
  {
    CountBounds(c, m, chain, k);
  }

  // ---------------------------------------------------------------- long_tx

  /** The two ways in which long_tx reports a violation do not happen. */
  lemma LongNever(tx: DirectTransaction, chain: seq<Addr>)
    requires tx.Valid() && tx.program == Program.LongTx && Bank(tx.c, tx.before, chain)
    ensures tx.at != Done(false)
  {
    if tx.at == Done(false) {
      LongOutcome(tx.c, tx.before, chain, tx.ops, false);
    }
  }

  /** Adds the balances of one segment, up to the first negative one. */
  method AddAccounts(tx: DirectTransaction, start: Addr, n: int, ghost count: int, sum: Word)
      returns (ok: bool, sum': Word)
    requires tx.Valid()
    requires tx.at == if 0 < n then LongAccount(start, n, 0, count, sum) else LongNext(start, count, sum)
    modifies tx`ops, tx`at, tx`taken
    ensures tx.Valid() && tx.at == if ok then LongNext(start, count, sum') else Done(false)
  {
    hide DirectTransaction.Valid;
    sum' := sum;
    var i := 0;
    while i < n
      invariant tx.Valid() && 0 <= i
      invariant tx.at == if i < n then LongAccount(start, n, i, count, sum') else LongNext(start, count, sum')
      decreases n - i
    {
      var balance := tx.Read(AccountAt(start, i));
      if balance < 0 {
        return false, sum';
      }
      sum' := sum' + balance;
      i := i + 1;
    }
    return true, sum';
  }

  /** Adds one segment: its accounts and its parity. */
  method AddSegment(tx: DirectTransaction, start: Addr, count: int, sum: Word)
      returns (ok: bool, count': int, sum': Word)
    requires tx.Valid() && tx.at == LongCount(start, count, sum)
    modifies tx`ops, tx`at, tx`taken
    ensures tx.Valid() && count' == count + Lookup(tx.mem, CountAt(start))
    ensures tx.at == if ok then LongNext(start, count', sum') else Done(false)
  {
    hide DirectTransaction.Valid;
    var n := tx.Read(CountAt(start));
    count' := count + n;
    var parity := tx.Read(ParityAt(start));
    ok, sum' := AddAccounts(tx, start, n, count', sum + parity);
  }

  /** After a segment, long_tx goes on with the next one, or compares. */
  lemma NextStep(c: Config, seg: Addr, count: int, sum: Word, op: Op)
    requires op.Read? && op.a == NextAt(seg)
    ensures Emits(c, LongNext(seg, count, sum), op)
    ensures Step(c, LongNext(seg, count, sum), op) ==
              if op.w != 0 then LongCount(op.w, count, sum) else Done(sum == Worth(c.init, count))
  {
  }

  /** The last comparison of long_tx. */
  method Balanced(c: Config, sum: Word, accounts: int) returns (ok: bool)
    ensures ok <==> sum == Worth(c.init, accounts)
  {
    return sum == c.init * accounts;
  }

  /** long_tx has summed the first k segments of the chain; `start` is the next one, if any. */
  ghost predicate Summing(c: Config, tx: DirectTransaction, m: Memory, chain: seq<Addr>, k: int, start: Addr,
      accounts: int, sum: Word)
    reads tx
  {
    && tx.Valid() && tx.c == c && tx.program == Program.LongTx && tx.before == tx.mem == m && 0 <= k <= |chain|
    && (if start != 0 then k < |chain| && start == chain[k] else k == |chain|)
    && accounts == |Accounts(m, chain, k)|
    && tx.at == if start != 0 then LongCount(start, accounts, sum) else Done(sum == Worth(c.init, accounts))
  }

  /** One round of the loop: adds a segment, and finds the next one. */
  method SumNext(c: Config, tx: DirectTransaction, ghost m: Memory, ghost chain: seq<Addr>, ghost k: int, start: Addr,
      accounts: int, sum: Word) returns (consistent: bool, start': Addr, accounts': int, sum': Word)
    requires Bank(c, m, chain) && Summing(c, tx, m, chain, k, start, accounts, sum) && start != 0
    modifies tx`ops, tx`at, tx`taken
    ensures if consistent then Summing(c, tx, m, chain, k + 1, start', accounts', sum')
            else tx.Valid() && tx.at == Done(false)
  {
    hide Bank, DirectTransaction.Valid, Accounts, Worth, Step, Emits;
    start' := start;
    CountedNext(c, m, chain, k);
    NextOf(c, m, chain, k);
    consistent, accounts', sum' := AddSegment(tx, start, accounts, sum);
    if consistent {
      NextStep(c, start, accounts', sum', Op.Read(NextAt(start), Lookup(m, NextAt(start)), false, 0));
      start' := tx.Read(NextAt(start));
    }
  }

  lemma LongBegins(c: Config, tx: DirectTransaction, chain: seq<Addr>)
    requires Starts(c, Program.LongTx, tx, chain)
    ensures Summing(c, tx, tx.mem, chain, 0, c.start, 0, 0) && c.start != 0
  {
    CountedNothing(tx.mem, chain);
  }

  /** Sums the accounts of all segments; finds nothing wrong and changes nothing. */
  method LongTx(c: Config, tx: DirectTransaction, ghost chain: seq<Addr>) returns (ok: bool, accounts: int)
    requires Starts(c, Program.LongTx, tx, chain)
    modifies tx
    ensures tx.Valid() && tx.at == Done(ok)
    ensures ok && tx.mem == old(tx.mem) && accounts == Size(tx.mem, chain)
  {
    hide Bank, DirectTransaction.Valid, Accounts, Worth;
    ghost var m := tx.mem;
    LongBegins(c, tx, chain);
    accounts := 0;
    var sum: Word := 0;
    var start := c.start;
    ghost var k := 0;
    while start != 0
      invariant tx.c == c && tx.program == Program.LongTx && tx.before == tx.mem == m
      invariant Summing(c, tx, m, chain, k, start, accounts, sum)
      decreases |chain| - k
    {
      var consistent;
      consistent, start, accounts, sum := SumNext(c, tx, m, chain, k, start, accounts, sum);
      if !consistent {
        LongNever(tx, chain);
        return false, accounts;
      }
      k := k + 1;
    }
    ok := Balanced(c, sum, accounts);
    LongNever(tx, chain);
  }

  // ---------------------------------------------------------------- short_tx

  /** Looks for both accounts in one segment: whether both are found by now. */
  method SearchSegment(tx: DirectTransaction, start: Addr, sendPtr: Addr, recvPtr: Addr, sendId: int, recvId: int)
      returns (found: bool, sendPtr': Addr, recvPtr': Addr, sendId': int, recvId': int)
    requires tx.Valid() && tx.at == ShortCount(start, sendPtr, recvPtr, sendId, recvId)
    requires start > 0 && sendId >= 0 && recvId >= 0
    modifies tx`ops, tx`at, tx`taken
    ensures tx.Valid() && sendId' >= 0 && recvId' >= 0
    ensures tx.at == if found then ShortSender(sendPtr', recvPtr')
                     else ShortNext(start, sendPtr', recvPtr', sendId', recvId')
  {
    hide DirectTransaction.Valid;
    sendPtr', recvPtr', sendId', recvId' := sendPtr, recvPtr, sendId, recvId;
    var n := tx.Read(CountAt(start));
    if sendPtr == 0 {
      if sendId < n {
        sendPtr' := AccountAt(start, sendId);
        if recvPtr != 0 {
          return true, sendPtr', recvPtr', sendId', recvId';
        }
      } else {
        sendId' := sendId - n;
      }
    }
    if recvPtr == 0 {
      if recvId < n {
        recvPtr' := AccountAt(start, recvId);
        if sendPtr' != 0 {
          return true, sendPtr', recvPtr', sendId', recvId';
        }
      } else {
        recvId' := recvId - n;
      }
    }
    return false, sendPtr', recvPtr', sendId', recvId';
  }

  /** The search of short_tx: the addresses of two accounts, or whether one does not exist. */
  method FindAccounts(c: Config, tx: DirectTransaction, sendId: nat, recvId: nat, ghost chain: seq<Addr>)
      returns (found: bool, sendPtr: Addr, recvPtr: Addr)
    requires Starts(c, Program.ShortTx(sendId, recvId), tx, chain)
    modifies tx`ops, tx`at, tx`taken
    ensures tx.Valid() && tx.at == if found then ShortSender(sendPtr, recvPtr) else Done(false)
  {
    hide Bank, DirectTransaction.Valid;
    ghost var m := tx.mem;
    ChainStarts(c, m, chain);
    found, sendPtr, recvPtr := false, 0, 0;
    var send, recv := sendId, recvId;
    var start := c.start;
    ghost var k := 0;
    while true
      invariant tx.Valid() && tx.before == tx.mem == m && 0 <= k < |chain| && start == chain[k]
      invariant tx.at == ShortCount(start, sendPtr, recvPtr, send, recv) && send >= 0 && recv >= 0 && !found
      decreases |chain| - k
    {
      NextOf(c, m, chain, k);
      found, sendPtr, recvPtr, send, recv := SearchSegment(tx, start, sendPtr, recvPtr, send, recv);
      if found {
        return;
      }
      start := tx.Read(NextAt(start));
      if start == 0 {
        return;
      }
      k := k + 1;
    }
  }

  /** Moves one unit between the accounts with these indices, or from an account to itself; tells
      whether both exist. */
  method ShortTx(c: Config, tx: DirectTransaction, sendId: nat, recvId: nat, ghost chain: seq<Addr>) returns (ok: bool)
    requires Starts(c, Program.ShortTx(sendId, recvId), tx, chain)
    modifies tx
    ensures tx.Valid() && tx.at == Done(ok)
    ensures ok <==> sendId < Size(old(tx.mem), chain) && recvId < Size(old(tx.mem), chain)
    ensures tx.mem == ShortResult(old(tx.mem), chain, sendId, recvId) && Bank(c, tx.mem, chain)
  {
    ghost var m := tx.mem;
    var found, sendPtr, recvPtr := FindAccounts(c, tx, sendId, recvId, chain);
    ok := found;
    if found {
      var balance := tx.Read(sendPtr);
      if balance > 0 {
        tx.Write(sendPtr, balance - 1);
        var other := tx.Read(recvPtr);
        tx.Write(recvPtr, other + 1);
      }
    }
    hide Bank, Follow, Replays, RunOps, Step, Emits, ShortResult;
    ShortOutcome(c, m, chain, sendId, recvId, tx.ops, ok);
  }

  // ---------------------------------------------------------------- alloc_tx

  /** The last segment stays, one account shorter. */
  method ShortenSegment(tx: DirectTransaction, start: Addr, n: int, newParity: Word)
    requires tx.Valid() && tx.at == CloseSetCount(start, n, newParity)
    modifies tx
    ensures tx.Valid() && tx.at == Done(true) && tx.taken == old(tx.taken)
  {
    hide DirectTransaction.Valid;
    tx.Write(CountAt(start), n);
    tx.Write(ParityAt(start), newParity);
  }

  /** The last segment goes; the one before it takes its parity over. */
  method DropSegment(tx: DirectTransaction, prev: Addr, newParity: Word)
    requires tx.Valid() && tx.at == DropRead(prev, newParity)
    modifies tx
    ensures tx.Valid() && tx.at == Done(true) && tx.taken == old(tx.taken)
  {
    hide DirectTransaction.Valid;
    var unlinked := tx.Read(NextAt(prev));
    tx.Write(NextAt(prev), 0);
    var parity := tx.Read(ParityAt(prev));
    tx.Write(ParityAt(prev), parity + newParity);
  }

  /** Closes account `n` of the last segment, its last one; with it the segment, if it was the only
      one there. */
  method CloseAccount(c: Config, tx: DirectTransaction, start: Addr, prev: Addr, n: int)
    requires tx.Valid() && tx.c == c && tx.at == CloseParity(start, prev, n)
    modifies tx
    ensures tx.Valid() && tx.at == Done(true) && tx.taken == old(tx.taken)
  {
    hide DirectTransaction.Valid;
    var parity := tx.Read(ParityAt(start));
    var balance := tx.Read(AccountAt(start, n));
    var newParity := parity + balance - c.init;
    if n > 0 {
      ShortenSegment(tx, start, n, newParity);
    } else {
      DropSegment(tx, prev, newParity);
    }
  }

  /** The last segment gets one account more. */
  method ExtendSegment(c: Config, tx: DirectTransaction, start: Addr, n: int)
    requires tx.Valid() && tx.c == c && tx.at == OpenSetAccount(start, n)
    modifies tx
    ensures tx.Valid() && tx.at == Done(true) && tx.taken == old(tx.taken)
  {
    hide DirectTransaction.Valid;
    tx.Write(AccountAt(start, n), c.init);
    tx.Write(CountAt(start), n + 1);
  }

  /** A new last segment, with one account. */
  method AddNewSegment(c: Config, tx: DirectTransaction, start: Addr, offer: Addr)
    requires tx.Valid() && tx.c == c && tx.at == GrowAlloc(start)
    modifies tx
    ensures tx.Valid() && tx.at == Done(true) && tx.taken == old(tx.taken) + {offer}
  {
    hide DirectTransaction.Valid;
    var base := tx.Alloc(SegmentSize(c), offer);
    tx.Write(NextAt(start), base);
    tx.Write(CountAt(base), 1);
    tx.Write(AccountAt(base, 0), c.init);
  }

  /** Opens account `n` of the last segment, or the first one of a new segment. */
  method OpenAccount(c: Config, tx: DirectTransaction, start: Addr, n: int, offer: Addr)
    requires tx.Valid() && tx.c == c && tx.at == if n < c.nb then OpenSetAccount(start, n) else GrowAlloc(start)
    modifies tx
    ensures tx.Valid() && tx.at == Done(true)
    ensures tx.taken <= old(tx.taken) + {offer}
  {
    hide DirectTransaction.Valid;
    if n < c.nb {
      ExtendSegment(c, tx, start, n);
    } else {
      AddNewSegment(c, tx, start, offer);
    }
  }

  /** Walks to the last segment, and closes its last account when there are too many and more than
      two, or opens one; the invariant of the bank is kept. */
  method AllocTx(c: Config, tx: DirectTransaction, trigger: nat, offer: Addr, ghost chain: seq<Addr>)
      returns (ghost chain': seq<Addr>)
    requires Starts(c, Program.AllocTx(trigger), tx, chain)
    requires FreshSegment(c, tx.mem, chain, offer)
    modifies tx
    ensures tx.Valid() && tx.at == Done(true)
    ensures AllocResult(c, old(tx.mem), chain, trigger, {offer}, tx.mem)
    ensures chain' == AllocChain(c, old(tx.mem), chain, trigger, offer) && Bank(c, tx.mem, chain')
    ensures Size(tx.mem, chain') == Size(old(tx.mem), chain) + (if Closes(old(tx.mem), chain, trigger) then -1 else 1)
  {
    ghost var m := tx.mem;
    ScanAndChange(c, tx, trigger, offer, chain);
    hide Bank, Follow, Replays, RunOps, FreshSegment, AllocResult, Step, Emits;
    var base := AllocOutcome(c, m, chain, trigger, tx.ops, true);
    chain' := AllocChain(c, m, chain, trigger, offer);
  }

  method VisitSegment(tx: DirectTransaction, trigger: nat, start: Addr, prev: Addr, count: int)
      returns (n: int, next: Addr)
    requires tx.Valid() && tx.at == AllocCount(trigger, start, prev, count)
    modifies tx`ops, tx`at, tx`taken
    ensures tx.Valid() && tx.taken == old(tx.taken) && next == Lookup(tx.mem, NextAt(start))
    ensures tx.at == AllocChoice(tx.c, trigger, start, prev, n, count + n, next)
  {
    hide DirectTransaction.Valid, AllocChoice;
    n := tx.Read(CountAt(start));
    next := tx.Read(NextAt(start));
  }

  method ScanAndChange(c: Config, tx: DirectTransaction, trigger: nat, offer: Addr, ghost chain: seq<Addr>)
    requires Starts(c, Program.AllocTx(trigger), tx, chain)
    modifies tx
    ensures tx.Valid() && tx.at == Done(true) && tx.taken <= {offer}
  {
    hide Bank, DirectTransaction.Valid;
    ghost var m := tx.mem;
    ChainStarts(c, m, chain);
    var count, prev, start := 0, 0, c.start;
    ghost var k := 0;
    while true
      invariant tx.Valid() && tx.mem == m && tx.taken == {} && 0 <= k < |chain| && start == chain[k]
      invariant tx.at == AllocCount(trigger, start, prev, count)
      decreases |chain| - k
    {
      NextOf(c, m, chain, k);
      var n, next := VisitSegment(tx, trigger, start, prev, count);
      count := count + n;
      if next == 0 {
        if count > trigger && count > 2 {
          CloseAccount(c, tx, start, prev, n - 1);
        } else {
          OpenAccount(c, tx, start, n, offer);
        }
        return;
      }
      prev, start := start, next;
      k := k + 1;
    }
  }

  // ---------------------------------------------------------------- init

  /** Fills the first segment; the bank is then in place. */
  method Init(c: Config, tx: DirectTransaction)
    requires tx.Valid() && tx.c == c && tx.program == InitTx && tx.at == InitCount
    requires c.nb > 0 && c.init >= 0 && c.start > 0
    requires Lookup(tx.mem, NextAt(c.start)) == 0 == Lookup(tx.mem, ParityAt(c.start))
    modifies tx
    ensures tx.Valid() && tx.at == Done(true) && Bank(c, tx.mem, [c.start])
    ensures Size(tx.mem, [c.start]) == c.nb
    ensures forall i :: 0 <= i < c.nb ==> Lookup(tx.mem, AccountAt(c.start, i)) == c.init
  {
    hide DirectTransaction.Valid, InitInv, Opened, Bank, Lookup;
    InitStarts(c, tx.mem);
    InitStep(c, tx.mem, tx.at, Op.Write(CountAt(c.start), c.nb));
    tx.Write(CountAt(c.start), c.nb);
    var i := 0;
    while i < c.nb
      invariant tx.Valid() && tx.c == c && tx.at == if i < c.nb then InitAccount(i) else Done(true)
      invariant 0 <= i <= c.nb && InitInv(c, tx.mem, tx.at)
    {
      InitStep(c, tx.mem, tx.at, Op.Write(AccountAt(c.start, i), c.init));
      tx.Write(AccountAt(c.start, i), c.init);
      i := i + 1;
    }
    InitEnds(c, tx.mem);
  }

  lemma InitStarts(c: Config, m: Memory)
    requires Lookup(m, NextAt(c.start)) == 0 == Lookup(m, ParityAt(c.start))
    ensures InitInv(c, m, InitCount)
  {
  }

  lemma InitEnds(c: Config, m: Memory)
    requires c.nb > 0 && c.init >= 0 && c.start > 0 && InitInv(c, m, Done(true))
    ensures Bank(c, m, [c.start]) && Size(m, [c.start]) == c.nb
    ensures forall i :: 0 <= i < c.nb ==> Lookup(m, AccountAt(c.start, i)) == c.init
  {
    OpenedBank(c, m);
    assert Accounts(m, [c.start], 0) == [];
  }
}
