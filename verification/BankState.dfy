/** The bank in memory: a chain of segments, its accounts and its money. */
module BankState {
  import opened Striping
  import opened Tl2
  import opened BankProgram

  ghost function SegmentAt(c: Config, seg: Addr): Segment {
    Segment(seg, SegmentSize(c))
  }

  ghost predicate Within(x: Addr, r: Segment) {
    r.a <= x < r.a + r.n
  }

  /** Non-null segments that do not overlap. */
  ghost predicate Layout(c: Config, chain: seq<Addr>) {
    && (forall i :: 0 <= i < |chain| ==> chain[i] > 0)
    && (forall i, j :: 0 <= i < j < |chain| ==> Apart(SegmentAt(c, chain[i]), SegmentAt(c, chain[j])))
  }

  /** Addresses of the first k segments' accounts, in order. */
  ghost function Accounts(m: Memory, chain: seq<Addr>, k: nat): seq<Addr>
    requires k <= |chain|
  {
    if k == 0 then [] else Accounts(m, chain, k - 1) + Slots(chain[k - 1], Lookup(m, CountAt(chain[k - 1])))
  }

  /** Addresses of the first n accounts of a segment. */
  ghost function Slots(seg: Addr, n: int): (r: seq<Addr>)
    ensures |r| == (if n < 0 then 0 else n)
    ensures forall i :: 0 <= i < n ==> r[i] == AccountAt(seg, i)
  {
    if n <= 0 then [] else Slots(seg, n - 1) + [AccountAt(seg, n - 1)]
  }

  ghost function Sum(m: Memory, seg: Addr, n: int): Word
    decreases n
  {
    if n <= 0 then 0 else Sum(m, seg, n - 1) + Lookup(m, AccountAt(seg, n - 1))
  }

  /** The money of a segment: its accounts and its parity. */
  ghost function Money(m: Memory, seg: Addr): Word {
    Lookup(m, ParityAt(seg)) + Sum(m, seg, Lookup(m, CountAt(seg)))
  }

  ghost function Total(m: Memory, chain: seq<Addr>, k: nat): Word
    requires k <= |chain|
  {
    if k == 0 then 0 else Total(m, chain, k - 1) + Money(m, chain[k - 1])
  }

  ghost predicate NonNegative(m: Memory, seg: Addr) {
    forall i :: 0 <= i < Lookup(m, CountAt(seg)) ==> Lookup(m, AccountAt(seg, i)) >= 0
  }

  /** The chain starts at the first segment, links through `next`, and is full but for its last
      segment, which holds at least one account. */
  ghost predicate Linked(c: Config, m: Memory, chain: seq<Addr>) {
    && |chain| > 0 && chain[0] == c.start
    && (forall i :: 0 <= i < |chain| - 1 ==> Lookup(m, NextAt(chain[i])) == chain[i + 1])
    && Lookup(m, NextAt(chain[|chain| - 1])) == 0
    && (forall i :: 0 <= i < |chain| - 1 ==> Lookup(m, CountAt(chain[i])) == c.nb)
    && 1 <= Lookup(m, CountAt(chain[|chain| - 1])) <= c.nb
  }

  /** What a number of accounts was opened with. */
  ghost function Worth(init: Word, accounts: int): Word {
    init * accounts
  }

  /** The bank invariant: no account is negative, and balances plus parities are what the accounts
      were opened with. */
  ghost predicate Bank(c: Config, m: Memory, chain: seq<Addr>) {
    && c.nb > 0 && c.init >= 0
    && Layout(c, chain) && Linked(c, m, chain)
    && (forall i :: 0 <= i < |chain| ==> NonNegative(m, chain[i]))
    && Total(m, chain, |chain|) == Worth(c.init, |Accounts(m, chain, |chain|)|)
  }

  lemma CountBounds(c: Config, m: Memory, chain: seq<Addr>, i: nat)
    requires Bank(c, m, chain) && i < |chain|
    ensures 1 <= Lookup(m, CountAt(chain[i])) <= c.nb
  {
  }

  // ---------------------------------------------------------------- what a write changes

  ghost predicate AgreesOn(m: Memory, m': Memory, r: Segment) {
    forall x :: Within(x, r) ==> Lookup(m', x) == Lookup(m, x)
  }

  lemma {:induction false} SumFrame(m: Memory, m': Memory, seg: Addr, n: int)
    requires forall i :: 0 <= i < n ==> Lookup(m', AccountAt(seg, i)) == Lookup(m, AccountAt(seg, i))
    ensures Sum(m', seg, n) == Sum(m, seg, n)
    decreases n
  {
    if n > 0 {
      SumFrame(m, m', seg, n - 1);
    }
  }

  lemma MoneyFrame(c: Config, m: Memory, m': Memory, seg: Addr)
    requires AgreesOn(m, m', SegmentAt(c, seg)) && 0 <= Lookup(m, CountAt(seg)) <= c.nb
    ensures Money(m', seg) == Money(m, seg)
    ensures NonNegative(m, seg) ==> NonNegative(m', seg)
  {
    forall i | 0 <= i < c.nb ensures Lookup(m', AccountAt(seg, i)) == Lookup(m, AccountAt(seg, i)) {
      assert Within(AccountAt(seg, i), SegmentAt(c, seg));
    }
    assert Within(CountAt(seg), SegmentAt(c, seg)) && Within(ParityAt(seg), SegmentAt(c, seg));
    SumFrame(m, m', seg, Lookup(m, CountAt(seg)));
  }

  /** The first k segments do not notice a write outside them. */
  lemma {:induction false} TotalFrame(c: Config, m: Memory, m': Memory, chain: seq<Addr>, k: nat)
    requires k <= |chain|
    requires forall i :: 0 <= i < k ==>
               AgreesOn(m, m', SegmentAt(c, chain[i])) && 0 <= Lookup(m, CountAt(chain[i])) <= c.nb
    ensures Total(m', chain, k) == Total(m, chain, k)
    ensures Accounts(m', chain, k) == Accounts(m, chain, k)
  {
    if k > 0 {
      TotalFrame(c, m, m', chain, k - 1);
      MoneyFrame(c, m, m', chain[k - 1]);
      assert Within(CountAt(chain[k - 1]), SegmentAt(c, chain[k - 1]));
    }
  }

  lemma {:induction false} TotalPrefix(m: Memory, chain: seq<Addr>, chain': seq<Addr>, k: nat)
    requires k <= |chain| && k <= |chain'| && forall i :: 0 <= i < k ==> chain[i] == chain'[i]
    ensures Total(m, chain, k) == Total(m, chain', k) && Accounts(m, chain, k) == Accounts(m, chain', k)
  {
    if k > 0 {
      TotalPrefix(m, chain, chain', k - 1);
    }
  }

  lemma {:induction false} SumUpdate(m: Memory, seg: Addr, n: int, i: nat, w: Word)
    requires i < n
    ensures Sum(m[AccountAt(seg, i) := w], seg, n) == Sum(m, seg, n) + w - Lookup(m, AccountAt(seg, i))
    decreases n
  {
    var m' := m[AccountAt(seg, i) := w];
    if i < n - 1 {
      SumUpdate(m, seg, n - 1, i, w);
    } else {
      SumFrame(m, m', seg, n - 1);
    }
  }

  lemma {:induction false} AccountsPrefix(m: Memory, chain: seq<Addr>, k: nat, n: nat)
    requires k <= n <= |chain|
    ensures Accounts(m, chain, k) <= Accounts(m, chain, n)
  {
    if k < n {
      AccountsPrefix(m, chain, k, n - 1);
    }
  }
}
