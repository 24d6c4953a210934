/** What each bank transaction does when it runs on a memory that holds the bank. */
module BankInvariant {
  import opened Striping
  import opened Sequences
  import opened Tl2
  import opened Reference
  import opened BankProgram
  import opened BankState

  /** What the memory returns to a read. */
  predicate Sees(m: Memory, op: Op) {
    op.Read? ==> op.w == Lookup(m, op.a)
  }

  /** A segment tm_alloc may return: not null, zeroed, and clear of the chain. */
  ghost predicate FreshSegment(c: Config, m: Memory, chain: seq<Addr>, base: Addr) {
    && base > 0
    && (forall i :: 0 <= i < |chain| ==> Apart(SegmentAt(c, base), SegmentAt(c, chain[i])))
    && (forall x :: Within(x, SegmentAt(c, base)) ==> Lookup(m, x) == 0)
  }

  // ---------------------------------------------------------------- long_tx

  ghost predicate LongAt(m: Memory, chain: seq<Addr>, k: int, pc: Counter) {
    0 <= k < |chain| &&
    match pc
    case LongCount(seg, count, sum) =>
      seg == chain[k] && count == |Accounts(m, chain, k)| && sum == Total(m, chain, k)
    case LongParity(seg, n, count, sum) =>
      seg == chain[k] && n == Lookup(m, CountAt(seg)) && count == |Accounts(m, chain, k + 1)| &&
          sum == Total(m, chain, k)
    case LongAccount(seg, n, i, count, sum) =>
      seg == chain[k] && n == Lookup(m, CountAt(seg)) && 0 <= i < n && count == |Accounts(m, chain, k + 1)| &&
      sum == Total(m, chain, k) + Lookup(m, ParityAt(seg)) + Sum(m, seg, i)
    case LongNext(seg, count, sum) =>
      seg == chain[k] && count == |Accounts(m, chain, k + 1)| && sum == Total(m, chain, k + 1)
    case _ => false
  }

  /** The chain of segments that `next` runs through from the first segment on, whatever they hold. */
  ghost predicate Walk(c: Config, m: Memory, chain: seq<Addr>) {
    && |chain| > 0 && chain[0] == c.start
    && (forall i :: 0 <= i < |chain| - 1 ==> Lookup(m, NextAt(chain[i])) == chain[i + 1])
    && (forall i :: 0 < i < |chain| ==> chain[i] != 0)
    && Lookup(m, NextAt(chain[|chain| - 1])) == 0
    && forall i :: 0 <= i < |chain| ==> Lookup(m, CountAt(chain[i])) >= 0
  }

  /** No balance is negative, and the money is what the accounts were opened with. */
  ghost predicate Consistent(c: Config, m: Memory, chain: seq<Addr>) {
    && (forall i :: 0 <= i < |chain| ==> NonNegative(m, chain[i]))
    && Total(m, chain, |chain|) == Worth(c.init, |Accounts(m, chain, |chain|)|)
  }

  lemma BankWalk(c: Config, m: Memory, chain: seq<Addr>)
    requires Bank(c, m, chain)
    ensures Walk(c, m, chain) && Consistent(c, m, chain)
  {
    forall i | 0 <= i < |chain| ensures Lookup(m, CountAt(chain[i])) >= 0 {
      CountBounds(c, m, chain, i);
    }
  }

  /** No balance that long_tx has passed is negative. */
  ghost predicate Passed(m: Memory, chain: seq<Addr>, k: int, pc: Counter)
    requires 0 <= k < |chain|
  {
    && (forall i :: 0 <= i < k ==> NonNegative(m, chain[i]))
    && match pc
       case LongAccount(seg, _, i, _, _) => forall j :: 0 <= j < i ==> Lookup(m, AccountAt(seg, j)) >= 0
       case LongNext(seg, _, _) => NonNegative(m, seg)
       case _ => true
  }

  ghost predicate LongInv(c: Config, m: Memory, chain: seq<Addr>, pc: Counter) {
    if pc.Done? then pc.ok <==> Consistent(c, m, chain)
    else exists k :: LongAt(m, chain, k, pc) && Passed(m, chain, k, pc)
  }

  lemma LongSegment(c: Config, m: Memory, chain: seq<Addr>, k: int, pc: Counter, op: Op)
    requires Walk(c, m, chain) && LongAt(m, chain, k, pc) && Passed(m, chain, k, pc) && Emits(c, pc, op) && Sees(m, op)
    requires pc.LongCount? || pc.LongParity?
    ensures !Step(c, pc, op).Done? && LongAt(m, chain, k, Step(c, pc, op)) && Passed(m, chain, k, Step(c, pc, op))
  {
    assert Lookup(m, CountAt(chain[k])) >= 0;
  }

  lemma LongBalance(c: Config, m: Memory, chain: seq<Addr>, k: int, pc: Counter, op: Op)
    requires LongAt(m, chain, k, pc) && Passed(m, chain, k, pc) && Emits(c, pc, op) && Sees(m, op) && pc.LongAccount?
    requires op.w >= 0
    ensures !Step(c, pc, op).Done? && LongAt(m, chain, k, Step(c, pc, op)) && Passed(m, chain, k, Step(c, pc, op))
  {
    SumNext(m, pc.seg, pc.i);
    TotalNext(m, chain, k);
    hide Sum, Accounts, Total;
  }

  lemma SumNext(m: Memory, seg: Addr, i: nat)
    ensures Sum(m, seg, i + 1) == Sum(m, seg, i) + Lookup(m, AccountAt(seg, i))
  {
  }

  lemma TotalNext(m: Memory, chain: seq<Addr>, k: nat)
    requires k < |chain|
    ensures Total(m, chain, k + 1) ==
              Total(m, chain, k) + Lookup(m, ParityAt(chain[k])) + Sum(m, chain[k], Lookup(m, CountAt(chain[k])))
  {
  }

  lemma LongDebt(c: Config, m: Memory, chain: seq<Addr>, k: int, pc: Counter, op: Op)
    requires LongAt(m, chain, k, pc) && Emits(c, pc, op) && Sees(m, op) && pc.LongAccount? && op.w < 0
    ensures Step(c, pc, op) == Done(false) && !Consistent(c, m, chain)
  {
    hide Sum, Accounts, Total, Worth;
    assert !NonNegative(m, chain[k]);
  }

  lemma LongFollow(c: Config, m: Memory, chain: seq<Addr>, k: int, pc: Counter, op: Op)
    requires Walk(c, m, chain) && LongAt(m, chain, k, pc) && Passed(m, chain, k, pc) && Emits(c, pc, op) && Sees(m, op)
    requires pc.LongNext?
    ensures var pc' := Step(c, pc, op);
            if k + 1 < |chain| then !pc'.Done? && LongAt(m, chain, k + 1, pc') && Passed(m, chain, k + 1, pc')
            else pc'.Done? && (pc'.ok <==> Consistent(c, m, chain))
  {
    assert k + 1 < |chain| ==> op.w == chain[k + 1];
  }

  lemma LongStep(c: Config, m: Memory, chain: seq<Addr>, pc: Counter, op: Op)
    requires Walk(c, m, chain) && LongInv(c, m, chain, pc) && Emits(c, pc, op) && Sees(m, op)
    ensures LongInv(c, m, chain, Step(c, pc, op)) && Apply(m, op) == m
  {
    assert !pc.Done?;
    var k :| LongAt(m, chain, k, pc) && Passed(m, chain, k, pc);
    assert op.Read? && (pc.LongCount? || pc.LongParity? || pc.LongAccount? || pc.LongNext?);
    hide Step, Emits, LongAt, Passed, Consistent;
    if pc.LongAccount? {
      if op.w < 0 {
        LongDebt(c, m, chain, k, pc, op);
      } else {
        LongBalance(c, m, chain, k, pc, op);
      }
    } else if pc.LongNext? {
      LongFollow(c, m, chain, k, pc, op);
    } else {
      LongSegment(c, m, chain, k, pc, op);
    }
  }

  // ---------------------------------------------------------------- short_tx

  /** Where the search for the id-th account stands after k segments. */
  ghost predicate Searched(m: Memory, chain: seq<Addr>, k: nat, p: Addr, id: nat, rest: int)
    requires k <= |chain|
  {
    var before := Accounts(m, chain, k);
    if p == 0 then id >= |before| && rest == id - |before|
    else id < |before| && p == before[id]
  }

  ghost predicate ShortAt(m: Memory, chain: seq<Addr>, k: int, sid: nat, rid: nat, pc: Counter) {
    0 <= k < |chain| &&
    match pc
    case ShortCount(seg, from, to, s, r) =>
      seg == chain[k] && (from == 0 || to == 0) &&
      Searched(m, chain, k, from, sid, s) && Searched(m, chain, k, to, rid, r)
    case ShortNext(seg, from, to, s, r) =>
      seg == chain[k] && (from == 0 || to == 0) &&
      Searched(m, chain, k + 1, from, sid, s) && Searched(m, chain, k + 1, to, rid, r)
    case _ => false
  }

  ghost predicate InRange(m: Memory, chain: seq<Addr>, sid: nat, rid: nat) {
    sid < |Accounts(m, chain, |chain|)| && rid < |Accounts(m, chain, |chain|)|
  }

  /** One unit moves, if there is one. */
  function Transfer(m: Memory, from: Addr, to: Addr): Memory {
    if Lookup(m, from) <= 0 then m
    else
      var m1 := m[from := Lookup(m, from) - 1];
      m1[to := Lookup(m1, to) + 1]
  }

  /** What short_tx leaves: the transfer between the accounts with these indices, or nothing. */
  ghost function ShortResult(m: Memory, chain: seq<Addr>, sid: nat, rid: nat): Memory {
    if InRange(m, chain, sid, rid) then
      Transfer(m, Accounts(m, chain, |chain|)[sid], Accounts(m, chain, |chain|)[rid])
    else m
  }

  ghost predicate ShortInv(m0: Memory, chain: seq<Addr>, sid: nat, rid: nat, m: Memory, pc: Counter) {
    match pc
    case ShortCount(_, _, _, _, _) => m == m0 && exists k :: ShortAt(m0, chain, k, sid, rid, pc)
    case ShortNext(_, _, _, _, _) => m == m0 && exists k :: ShortAt(m0, chain, k, sid, rid, pc)
    case Done(ok) => m == ShortResult(m0, chain, sid, rid) && (ok <==> InRange(m0, chain, sid, rid))
    case ShortSender(_, _) => ShortMove(m0, chain, sid, rid, m, pc)
    case ShortDebit(_, _, _) => ShortMove(m0, chain, sid, rid, m, pc)
    case ShortReceiver(_) => ShortMove(m0, chain, sid, rid, m, pc)
    case ShortCredit(_, _) => ShortMove(m0, chain, sid, rid, m, pc)
    case _ => false
  }

  /** The transfer itself, between the accounts found. */
  ghost predicate ShortMove(m0: Memory, chain: seq<Addr>, sid: nat, rid: nat, m: Memory, pc: Counter) {
    InRange(m0, chain, sid, rid) &&
    var from, to := Accounts(m0, chain, |chain|)[sid], Accounts(m0, chain, |chain|)[rid];
    var b := Lookup(m0, from);
    match pc
    case ShortSender(f, t) => f == from && t == to && m == m0
    case ShortDebit(f, t, v) => f == from && t == to && m == m0 && v == b > 0
    case ShortReceiver(t) => t == to && b > 0 && m == m0[from := b - 1]
    case ShortCredit(t, v) => t == to && b > 0 && m == m0[from := b - 1] && v == Lookup(m, to)
    case _ => false
  }

  lemma SearchedOn(c: Config, m: Memory, chain: seq<Addr>, k: nat, p: Addr, id: nat, rest: int)
    requires Bank(c, m, chain) && k < |chain| && Searched(m, chain, k, p, id, rest)
    ensures var n := Lookup(m, CountAt(chain[k]));
            var p' := if p == 0 && rest < n then AccountAt(chain[k], rest) else p;
            var rest' := if p == 0 && rest >= n then rest - n else rest;
            Searched(m, chain, k + 1, p', id, rest')
  {
    CountBounds(c, m, chain, k);
    AccountsPrefix(m, chain, k, k + 1);
  }

  lemma SearchedEnd(m: Memory, chain: seq<Addr>, k: nat, p: Addr, id: nat, rest: int)
    requires k <= |chain| && Searched(m, chain, k, p, id, rest) && p != 0
    ensures id < |Accounts(m, chain, |chain|)| && p == Accounts(m, chain, |chain|)[id]
  {
    AccountsPrefix(m, chain, k, |chain|);
  }

  lemma ShortSearchStep(c: Config, m: Memory, chain: seq<Addr>, sid: nat, rid: nat, k: nat, pc: Counter, op: Op)
    requires Bank(c, m, chain) && pc.ShortCount? && ShortAt(m, chain, k, sid, rid, pc) && Emits(c, pc, op) &&
             Sees(m, op)
    ensures ShortInv(m, chain, sid, rid, m, Step(c, pc, op))
  {
    var ShortCount(seg, from, to, s, r) := pc;
    SearchedOn(c, m, chain, k, from, sid, s);
    SearchedOn(c, m, chain, k, to, rid, r);
    var n := Lookup(m, CountAt(seg));
    var from' := if from == 0 && s < n then AccountAt(seg, s) else from;
    var to' := if to == 0 && r < n then AccountAt(seg, r) else to;
    if from' != 0 {
      SearchedEnd(m, chain, k + 1, from', sid, if from == 0 && s >= n then s - n else s);
    }
    if to' != 0 {
      SearchedEnd(m, chain, k + 1, to', rid, if to == 0 && r >= n then r - n else r);
    }
    var pc' := Step(c, pc, op);
    if pc'.ShortNext? {
      assert ShortAt(m, chain, k, sid, rid, pc');
    }
  }

  lemma ShortNextStep(c: Config, m: Memory, chain: seq<Addr>, sid: nat, rid: nat, k: nat, pc: Counter, op: Op)
    requires Bank(c, m, chain) && pc.ShortNext? && ShortAt(m, chain, k, sid, rid, pc) && Emits(c, pc, op) && Sees(m, op)
    ensures ShortInv(m, chain, sid, rid, m, Step(c, pc, op))
  {
    if k + 1 < |chain| {
      assert op.w == chain[k + 1] > 0;
      assert ShortAt(m, chain, k + 1, sid, rid, Step(c, pc, op));
    } else {
      assert Step(c, pc, op) == Done(false);
    }
  }

  lemma ShortMoveStep(c: Config, m0: Memory, chain: seq<Addr>, sid: nat, rid: nat, m: Memory, pc: Counter, op: Op)
    requires ShortMove(m0, chain, sid, rid, m, pc) && Emits(c, pc, op) && Sees(m, op)
    ensures ShortInv(m0, chain, sid, rid, Apply(m, op), Step(c, pc, op))
  {
  }

  lemma ShortStep(c: Config, m0: Memory, chain: seq<Addr>, sid: nat, rid: nat, m: Memory, pc: Counter, op: Op)
    requires Bank(c, m0, chain) && ShortInv(m0, chain, sid, rid, m, pc) && Emits(c, pc, op) && Sees(m, op)
    ensures ShortInv(m0, chain, sid, rid, Apply(m, op), Step(c, pc, op))
  {
    assert !pc.Done? && (pc.ShortCount? || pc.ShortNext? ==> op.Read?);
    hide Step;
    hide Emits;
    if pc.ShortCount? {
      var k :| ShortAt(m0, chain, k, sid, rid, pc);
      ShortSearchStep(c, m0, chain, sid, rid, k, pc, op);
    } else if pc.ShortNext? {
      var k :| ShortAt(m0, chain, k, sid, rid, pc);
      ShortNextStep(c, m0, chain, sid, rid, k, pc, op);
    } else {
      ShortMoveStep(c, m0, chain, sid, rid, m, pc, op);
    }
  }

  // ---------------------------------------------------------------- alloc_tx

  ghost function Before(chain: seq<Addr>, k: int): Addr
    requires 0 <= k < |chain|
  {
    if k == 0 then 0 else chain[k - 1]
  }

  ghost function Size(m: Memory, chain: seq<Addr>): nat {
    |Accounts(m, chain, |chain|)|
  }

  /** The number of accounts of the last segment. */
  ghost function Tail(m: Memory, chain: seq<Addr>): int
    requires |chain| > 0
  {
    Lookup(m, CountAt(Last(chain)))
  }

  /** An account is closed rather than opened. */
  ghost predicate Closes(m: Memory, chain: seq<Addr>, trigger: nat) {
    Size(m, chain) > trigger && Size(m, chain) > 2
  }

  /** The parity that makes up for the last account. */
  ghost function ClosingParity(c: Config, m: Memory, chain: seq<Addr>): Word
    requires |chain| > 0
  {
    Lookup(m, ParityAt(Last(chain))) + Lookup(m, AccountAt(Last(chain), Tail(m, chain) - 1)) - c.init
  }

  ghost function CloseResult(c: Config, m: Memory, chain: seq<Addr>): Memory
    requires |chain| > 0
  {
    m[CountAt(Last(chain)) := Tail(m, chain) - 1][ParityAt(Last(chain)) := ClosingParity(c, m, chain)]
  }

  ghost function DropResult(c: Config, m: Memory, chain: seq<Addr>): Memory
    requires |chain| > 1
  {
    var prev := chain[|chain| - 2];
    m[NextAt(prev) := 0][ParityAt(prev) := Lookup(m, ParityAt(prev)) + ClosingParity(c, m, chain)]
  }

  ghost function OpenResult(c: Config, m: Memory, chain: seq<Addr>): Memory
    requires |chain| > 0
  {
    m[AccountAt(Last(chain), Tail(m, chain)) := c.init][CountAt(Last(chain)) := Tail(m, chain) + 1]
  }

  ghost function GrowResult(c: Config, m: Memory, chain: seq<Addr>, base: Addr): Memory
    requires |chain| > 0
  {
    m[NextAt(Last(chain)) := base][CountAt(base) := 1][AccountAt(base, 0) := c.init]
  }

  /** What alloc_tx leaves: one account fewer or one more. `offers` are the segments tm_alloc gave. */
  ghost predicate AllocResult(c: Config, m: Memory, chain: seq<Addr>, trigger: nat, offers: set<Addr>, m': Memory)
    requires |chain| > 0
  {
    if Closes(m, chain, trigger) then
      if Tail(m, chain) > 1 then m' == CloseResult(c, m, chain)
      else |chain| > 1 && m' == DropResult(c, m, chain)
    else if Tail(m, chain) < c.nb then m' == OpenResult(c, m, chain)
    else exists base :: base in offers && m' == GrowResult(c, m, chain, base)
  }

  ghost predicate AllocScanAt(m: Memory, chain: seq<Addr>, trigger: nat, k: int, pc: Counter) {
    0 <= k < |chain| &&
    match pc
    case AllocCount(tr, seg, prev, count) =>
      tr == trigger && seg == chain[k] && prev == Before(chain, k) && count == |Accounts(m, chain, k)|
    case AllocNext(tr, seg, prev, n, count) =>
      tr == trigger && seg == chain[k] && prev == Before(chain, k) && n == Lookup(m, CountAt(seg)) &&
      count == |Accounts(m, chain, k + 1)|
    case _ => false
  }

  ghost predicate CloseInv(c: Config, m0: Memory, chain: seq<Addr>, m: Memory, pc: Counter)
    requires |chain| > 0
  {
    var last, prev, n := Last(chain), Before(chain, |chain| - 1), Tail(m0, chain);
    match pc
    case CloseParity(seg, p, i) => m == m0 && seg == last && p == prev && i == n - 1
    case CloseAccount(seg, p, i, parity) =>
      m == m0 && seg == last && p == prev && i == n - 1 && parity == Lookup(m0, ParityAt(last))
    case CloseSetCount(seg, i, parity) =>
      m == m0 && n > 1 && seg == last && i == n - 1 && parity == ClosingParity(c, m0, chain)
    case CloseSetParity(seg, parity) =>
      if n > 1 then m == m0[CountAt(last) := n - 1] && seg == last && parity == ClosingParity(c, m0, chain)
      else
        |chain| > 1 && m == m0[NextAt(prev) := 0] && seg == prev &&
        parity == Lookup(m0, ParityAt(prev)) + ClosingParity(c, m0, chain)
    case DropRead(p, parity) => |chain| > 1 && n == 1 && m == m0 && p == prev && parity == ClosingParity(c, m0, chain)
    case DropUnlink(p, parity) => |chain| > 1 && n == 1 && m == m0 && p == prev && parity == ClosingParity(c, m0, chain)
    case DropParity(p, parity) =>
      |chain| > 1 && n == 1 && m == m0[NextAt(prev) := 0] && p == prev && parity == ClosingParity(c, m0, chain)
    case _ => false
  }

  ghost predicate OpenInv(c: Config, m0: Memory, chain: seq<Addr>, offers: set<Addr>, m: Memory, pc: Counter)
    requires |chain| > 0
  {
    var last, n := Last(chain), Tail(m0, chain);
    match pc
    case OpenSetAccount(seg, i) => n < c.nb && m == m0 && seg == last && i == n
    case OpenSetCount(seg, i) => n < c.nb && m == m0[AccountAt(last, n) := c.init] && seg == last && i == n
    case GrowAlloc(seg) => n >= c.nb && m == m0 && seg == last
    case GrowLink(seg, base) => n >= c.nb && m == m0 && seg == last && base in offers
    case GrowSetCount(base) => n >= c.nb && m == m0[NextAt(last) := base] && base in offers
    case GrowSetAccount(base) => n >= c.nb && m == m0[NextAt(last) := base][CountAt(base) := 1] && base in offers
    case _ => false
  }

  ghost predicate AllocInv(c: Config, m0: Memory, chain: seq<Addr>, trigger: nat, offers: set<Addr>, m: Memory,
      pc: Counter)
    requires |chain| > 0
  {
    if pc.AllocCount? || pc.AllocNext? then m == m0 && exists k :: AllocScanAt(m0, chain, trigger, k, pc)
    else if pc.Done? then pc.ok && AllocResult(c, m0, chain, trigger, offers, m)
    else if Closes(m0, chain, trigger) then CloseInv(c, m0, chain, m, pc)
    else OpenInv(c, m0, chain, offers, m, pc)
  }

  lemma AllocScan(c: Config, m: Memory, chain: seq<Addr>, trigger: nat, offers: set<Addr>, k: int, pc: Counter, op: Op)
    requires Bank(c, m, chain) && AllocScanAt(m, chain, trigger, k, pc) && Emits(c, pc, op) && Sees(m, op)
    ensures AllocInv(c, m, chain, trigger, offers, m, Step(c, pc, op))
  {
    CountBounds(c, m, chain, k);
    var pc' := Step(c, pc, op);
    if pc.AllocCount? {
      assert AllocScanAt(m, chain, trigger, k, pc');
    } else if k + 1 < |chain| {
      assert op.w == chain[k + 1] > 0;
      assert AllocScanAt(m, chain, trigger, k + 1, pc');
    }
  }

  lemma SingleSegment(c: Config, m: Memory, chain: seq<Addr>)
    requires Bank(c, m, chain) && Size(m, chain) > 2 && Tail(m, chain) <= 1
    ensures |chain| > 1
  {
    var n := |chain|;
    assert Accounts(m, chain, n) == Accounts(m, chain, n - 1) + Slots(chain[n - 1], Lookup(m, CountAt(chain[n - 1])));
  }

  lemma CloseStep(c: Config, m0: Memory, chain: seq<Addr>, trigger: nat, offers: set<Addr>, m: Memory, pc: Counter,
      op: Op)
    requires Bank(c, m0, chain) && Closes(m0, chain, trigger) && CloseInv(c, m0, chain, m, pc)
    requires Emits(c, pc, op) && Sees(m, op)
    ensures AllocInv(c, m0, chain, trigger, offers, Apply(m, op), Step(c, pc, op))
  {
    CountBounds(c, m0, chain, |chain| - 1);
    if Tail(m0, chain) <= 1 {
      SingleSegment(c, m0, chain);
    }
  }

  lemma OpenStep(c: Config, m0: Memory, chain: seq<Addr>, trigger: nat, offers: set<Addr>, m: Memory, pc: Counter,
      op: Op)
    requires |chain| > 0 && !Closes(m0, chain, trigger) && OpenInv(c, m0, chain, offers, m, pc)
    requires Emits(c, pc, op) && Sees(m, op) && (op.Alloc? ==> op.a in offers)
    ensures AllocInv(c, m0, chain, trigger, offers, Apply(m, op), Step(c, pc, op))
  {
  }

  lemma AllocStep(c: Config, m0: Memory, chain: seq<Addr>, trigger: nat, offers: set<Addr>, m: Memory, pc: Counter,
      op: Op)
    requires Bank(c, m0, chain) && AllocInv(c, m0, chain, trigger, offers, m, pc)
    requires Emits(c, pc, op) && Sees(m, op) && (op.Alloc? ==> op.a in offers)
    ensures AllocInv(c, m0, chain, trigger, offers, Apply(m, op), Step(c, pc, op))
  {
    assert !pc.Done? && (pc.AllocCount? || pc.AllocNext? ==> op.Read?);
    hide Step, Emits, CloseInv, OpenInv, AllocScanAt;
    if pc.AllocCount? || pc.AllocNext? {
      var k :| AllocScanAt(m0, chain, trigger, k, pc);
      AllocScan(c, m0, chain, trigger, offers, k, pc, op);
    } else if Closes(m0, chain, trigger) {
      CloseStep(c, m0, chain, trigger, offers, m, pc, op);
    } else {
      OpenStep(c, m0, chain, trigger, offers, m, pc, op);
    }
  }
}
