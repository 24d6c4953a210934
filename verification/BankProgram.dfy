/** The bank transactions as programs over transactional reads, writes and allocations.

    A program counter names the next operation and carries the local variables the rest of the
    transaction needs, so that a program can be stepped by any transactional memory. */
module BankProgram {
  import opened Striping
  import opened Tl2

  /** `nb` accounts per segment, each opened with `init`; the first segment is at `start`. */
  datatype Config = Config(start: Addr, nb: nat, init: Word)

  // ---------------------------------------------------------------- segment layout, in bytes

  function CountAt(seg: Addr): Addr { seg }
  function NextAt(seg: Addr): Addr { seg + 8 }
  function ParityAt(seg: Addr): Addr { seg + 16 }
  function AccountAt(seg: Addr, i: int): Addr { seg + 24 + 8 * i }
  function SegmentSize(c: Config): nat { 24 + 8 * c.nb }

  datatype Counter =
    // long_tx
    | LongCount(seg: Addr, count: int, sum: Word)
    | LongParity(seg: Addr, n: int, count: int, sum: Word)
    | LongAccount(seg: Addr, n: int, i: int, count: int, sum: Word)
    | LongNext(seg: Addr, count: int, sum: Word)
    // short_tx; a pointer is 0 until its account is found
    | ShortCount(seg: Addr, from: Addr, to: Addr, sid: int, rid: int)
    | ShortNext(seg: Addr, from: Addr, to: Addr, sid: int, rid: int)
    | ShortSender(from: Addr, to: Addr)
    | ShortDebit(from: Addr, to: Addr, balance: Word)
    | ShortReceiver(to: Addr)
    | ShortCredit(to: Addr, balance: Word)
    // alloc_tx
    | AllocCount(trigger: int, seg: Addr, prev: Addr, count: int)
    | AllocNext(trigger: int, seg: Addr, prev: Addr, n: int, count: int)
    | CloseParity(seg: Addr, prev: Addr, n: int)
    | CloseAccount(seg: Addr, prev: Addr, n: int, parity: Word)
    | CloseSetCount(seg: Addr, n: int, parity: Word)
    | CloseSetParity(seg: Addr, parity: Word)
    | DropRead(prev: Addr, parity: Word)
    | DropUnlink(prev: Addr, parity: Word)
    | DropParity(prev: Addr, parity: Word)
    | OpenSetAccount(seg: Addr, n: int)
    | OpenSetCount(seg: Addr, n: int)
    | GrowAlloc(seg: Addr)
    | GrowLink(seg: Addr, base: Addr)
    | GrowSetCount(base: Addr)
    | GrowSetAccount(base: Addr)
    // init, and the check that follows it
    | InitCount
    | InitAccount(i: int)
    | CheckAccount
    | Done(ok: bool)

  /** What a program does next. An allocation may return any segment. */
  predicate Emits(c: Config, pc: Counter, op: Op) {
    match pc
    case LongCount(seg, _, _) => op.Read? && op.a == CountAt(seg)
    case LongParity(seg, _, _, _) => op.Read? && op.a == ParityAt(seg)
    case LongAccount(seg, _, i, _, _) => op.Read? && op.a == AccountAt(seg, i)
    case LongNext(seg, _, _) => op.Read? && op.a == NextAt(seg)
    case ShortCount(seg, _, _, _, _) => op.Read? && op.a == CountAt(seg)
    case ShortNext(seg, _, _, _, _) => op.Read? && op.a == NextAt(seg)
    case ShortSender(from, _) => op.Read? && op.a == from
    case ShortDebit(from, _, balance) => op == Write(from, balance - 1)
    case ShortReceiver(to) => op.Read? && op.a == to
    case ShortCredit(to, balance) => op == Write(to, balance + 1)
    case AllocCount(_, seg, _, _) => op.Read? && op.a == CountAt(seg)
    case AllocNext(_, seg, _, _, _) => op.Read? && op.a == NextAt(seg)
    case CloseParity(seg, _, _) => op.Read? && op.a == ParityAt(seg)
    case CloseAccount(seg, _, n, _) => op.Read? && op.a == AccountAt(seg, n)
    case CloseSetCount(seg, n, _) => op == Write(CountAt(seg), n)
    case CloseSetParity(seg, parity) => op == Write(ParityAt(seg), parity)
    case DropRead(prev, _) => op.Read? && op.a == NextAt(prev)
    case DropUnlink(prev, _) => op == Write(NextAt(prev), 0)
    case DropParity(prev, _) => op.Read? && op.a == ParityAt(prev)
    case OpenSetAccount(seg, n) => op == Write(AccountAt(seg, n), c.init)
    case OpenSetCount(seg, n) => op == Write(CountAt(seg), n + 1)
    case GrowAlloc(_) => op.Alloc? && op.n == SegmentSize(c)
    case GrowLink(seg, base) => op == Write(NextAt(seg), base)
    case GrowSetCount(base) => op == Write(CountAt(base), 1)
    case GrowSetAccount(base) => op == Write(AccountAt(base, 0), c.init)
    case InitCount => op == Write(CountAt(c.start), c.nb)
    case InitAccount(i) => op == Write(AccountAt(c.start, i), c.init)
    case CheckAccount => op.Read? && op.a == AccountAt(c.start, 0)
    case Done(_) => false
  }

  /** The search of short_tx in one segment of `n` accounts. */
  function ShortSearch(seg: Addr, from: Addr, to: Addr, sid: int, rid: int, n: int): Counter {
    var from' := if from == 0 && sid < n then AccountAt(seg, sid) else from;
    var sid' := if from == 0 && sid >= n then sid - n else sid;
    if from == 0 && sid < n && to != 0 then ShortSender(from', to)
    else
      var to' := if to == 0 && rid < n then AccountAt(seg, rid) else to;
      var rid' := if to == 0 && rid >= n then rid - n else rid;
      if to == 0 && rid < n && from' != 0 then ShortSender(from', to')
      else ShortNext(seg, from', to', sid', rid')
  }

  /** What alloc_tx does at a segment, given its successor: go on, close an account, open one in
      the last segment, or grow the list. */
  function AllocChoice(c: Config, trigger: int, seg: Addr, prev: Addr, n: int, count: int, next: Addr): Counter {
    if next != 0 then AllocCount(trigger, next, seg, count)
    else if count > trigger && count > 2 then CloseParity(seg, prev, n - 1)
    else if n < c.nb then OpenSetAccount(seg, n)
    else GrowAlloc(seg)
  }

  /** The counter after an operation; `op.w` is the value a read returned. */
  function Step(c: Config, pc: Counter, op: Op): Counter
    requires Emits(c, pc, op)
  {
    match pc
    case LongCount(seg, count, sum) => LongParity(seg, op.w, count + op.w, sum)
    case LongParity(seg, n, count, sum) =>
      if 0 < n then LongAccount(seg, n, 0, count, sum + op.w) else LongNext(seg, count, sum + op.w)
    case LongAccount(seg, n, i, count, sum) =>
      if op.w < 0 then Done(false)
      else if i + 1 < n then LongAccount(seg, n, i + 1, count, sum + op.w)
      else LongNext(seg, count, sum + op.w)
    case LongNext(_, count, sum) => if op.w != 0 then LongCount(op.w, count, sum) else Done(sum == c.init * count)
    case ShortCount(seg, from, to, sid, rid) => ShortSearch(seg, from, to, sid, rid, op.w)
    case ShortNext(_, from, to, sid, rid) => if op.w != 0 then ShortCount(op.w, from, to, sid, rid) else Done(false)
    case ShortSender(from, to) => if op.w > 0 then ShortDebit(from, to, op.w) else Done(true)
    case ShortDebit(_, to, _) => ShortReceiver(to)
    case ShortReceiver(to) => ShortCredit(to, op.w)
    case ShortCredit(_, _) => Done(true)
    case AllocCount(trigger, seg, prev, count) => AllocNext(trigger, seg, prev, op.w, count + op.w)
    case AllocNext(trigger, seg, prev, n, count) => AllocChoice(c, trigger, seg, prev, n, count, op.w)
    case CloseParity(seg, prev, n) => CloseAccount(seg, prev, n, op.w)
    case CloseAccount(seg, prev, n, parity) =>
      if n > 0 then CloseSetCount(seg, n, parity + op.w - c.init) else DropRead(prev, parity + op.w - c.init)
    case CloseSetCount(seg, _, parity) => CloseSetParity(seg, parity)
    case CloseSetParity(_, _) => Done(true)
    case DropRead(prev, parity) => DropUnlink(prev, parity)
    case DropUnlink(prev, parity) => DropParity(prev, parity)
    case DropParity(prev, parity) => CloseSetParity(prev, op.w + parity)
    case OpenSetAccount(seg, n) => OpenSetCount(seg, n)
    case OpenSetCount(_, _) => Done(true)
    case GrowAlloc(seg) => GrowLink(seg, op.a)
    case GrowLink(_, base) => GrowSetCount(base)
    case GrowSetCount(base) => GrowSetAccount(base)
    case GrowSetAccount(_) => Done(true)
    case InitCount => if 0 < c.nb then InitAccount(0) else Done(true)
    case InitAccount(i) => if i + 1 < c.nb then InitAccount(i + 1) else Done(true)
    case CheckAccount => Done(op.w == c.init)
  }

  datatype Program =
    | LongTx
    | ShortTx(sid: nat, rid: nat)
    | AllocTx(trigger: nat)
    | InitTx
    | CheckTx

  function Entry(c: Config, p: Program): Counter {
    match p
    case LongTx => LongCount(c.start, 0, 0)
    case ShortTx(sid, rid) => ShortCount(c.start, 0, 0, sid, rid)
    case AllocTx(trigger) => AllocCount(trigger, c.start, 0, 0)
    case InitTx => InitCount
    case CheckTx => CheckAccount
  }

  datatype Option<+T> = None | Some(value: T)

  /** The counter reached when the operations are the ones the program makes, in order. */
  function Follow(c: Config, pc: Counter, ops: seq<Op>): Option<Counter> {
    if ops == [] then Some(pc)
    else
      match Follow(c, pc, ops[..|ops| - 1])
      case None => None
      case Some(mid) => if Emits(c, mid, ops[|ops| - 1]) then Some(Step(c, mid, ops[|ops| - 1])) else None
  }

  lemma FollowSnoc(c: Config, pc: Counter, ops: seq<Op>, op: Op)
    requires Follow(c, pc, ops).Some? && Emits(c, Follow(c, pc, ops).value, op)
    ensures Follow(c, pc, ops + [op]) == Some(Step(c, Follow(c, pc, ops).value, op))
  {
    assert (ops + [op])[..|ops|] == ops;
  }
}
