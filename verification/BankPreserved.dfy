/** Every bank transaction keeps the bank invariant. */
module BankPreserved {
  import opened Striping
  import opened Sequences
  import opened Tl2
  import opened BankProgram
  import opened BankState
  import opened BankInvariant

  /** The bank invariant, but for an amount of money `d` in excess. */
  ghost predicate BankOff(c: Config, m: Memory, chain: seq<Addr>, d: Word) {
    && c.nb > 0 && c.init >= 0
    && Layout(c, chain) && Linked(c, m, chain)
    && (forall i :: 0 <= i < |chain| ==> NonNegative(m, chain[i]))
    && Total(m, chain, |chain|) == Worth(c.init, |Accounts(m, chain, |chain|)|) + d
  }

  ghost predicate ChangesOnly(m: Memory, m': Memory, r: Segment) {
    forall x :: !Within(x, r) ==> Lookup(m', x) == Lookup(m, x)
  }

  lemma OthersAgree(c: Config, m: Memory, m': Memory, chain: seq<Addr>, k: nat)
    requires Layout(c, chain) && k < |chain| && ChangesOnly(m, m', SegmentAt(c, chain[k]))
    ensures forall i :: 0 <= i < |chain| && i != k ==> AgreesOn(m, m', SegmentAt(c, chain[i]))
  {
    forall i, x | 0 <= i < |chain| && i != k && Within(x, SegmentAt(c, chain[i]))
      ensures Lookup(m', x) == Lookup(m, x)
    {
      assert Apart(SegmentAt(c, chain[i]), SegmentAt(c, chain[k])) ||
             Apart(SegmentAt(c, chain[k]), SegmentAt(c, chain[i]));
    }
  }

  /** A segment in which nothing changed keeps its links and its balances. */
  lemma SegmentFrame(c: Config, m: Memory, m': Memory, seg: Addr)
    requires AgreesOn(m, m', SegmentAt(c, seg)) && 0 <= Lookup(m, CountAt(seg)) <= c.nb
    ensures Lookup(m', CountAt(seg)) == Lookup(m, CountAt(seg))
    ensures Lookup(m', NextAt(seg)) == Lookup(m, NextAt(seg))
    ensures Lookup(m', ParityAt(seg)) == Lookup(m, ParityAt(seg))
    ensures Money(m', seg) == Money(m, seg) && (NonNegative(m, seg) ==> NonNegative(m', seg))
  {
    MoneyFrame(c, m, m', seg);
    assert Within(CountAt(seg), SegmentAt(c, seg)) && Within(NextAt(seg), SegmentAt(c, seg)) &&
        Within(ParityAt(seg), SegmentAt(c, seg));
  }

  ghost predicate SameSegment(m: Memory, m': Memory, seg: Addr) {
    && Lookup(m', CountAt(seg)) == Lookup(m, CountAt(seg)) && Lookup(m', NextAt(seg)) == Lookup(m, NextAt(seg))
    && (NonNegative(m, seg) ==> NonNegative(m', seg))
  }

  ghost predicate Counted(c: Config, m: Memory, chain: seq<Addr>) {
    forall i :: 0 <= i < |chain| ==> 0 <= Lookup(m, CountAt(chain[i])) <= c.nb
  }

  /** The segments before k keep their accounts and money when only segment k and later ones change. */
  lemma PrefixFrame(c: Config, m: Memory, m': Memory, chain: seq<Addr>, k: nat)
    requires k <= |chain| && Counted(c, m, chain)
    requires forall i :: 0 <= i < k ==> AgreesOn(m, m', SegmentAt(c, chain[i]))
    ensures Total(m', chain, k) == Total(m, chain, k) && Accounts(m', chain, k) == Accounts(m, chain, k)
    ensures forall i :: 0 <= i < k ==> SameSegment(m, m', chain[i])
  {
    TotalFrame(c, m, m', chain, k);
    forall i | 0 <= i < k ensures SameSegment(m, m', chain[i]) {
      SegmentFrame(c, m, m', chain[i]);
    }
  }

  // ---------------------------------------------------------------- writing one balance

  /** A write to one account moves the total by what it adds to the account. */
  lemma {:induction false} TotalWrite(c: Config, m: Memory, m': Memory, chain: seq<Addr>, k: nat, n: nat, delta: Word)
    requires Layout(c, chain) && Counted(c, m, chain) && n <= |chain| && k < |chain|
    requires ChangesOnly(m, m', SegmentAt(c, chain[k]))
    requires Lookup(m', CountAt(chain[k])) == Lookup(m, CountAt(chain[k])) &&
             Money(m', chain[k]) == Money(m, chain[k]) + delta
    ensures Total(m', chain, n) == Total(m, chain, n) + if k < n then delta else 0
    ensures Accounts(m', chain, n) == Accounts(m, chain, n)
  {
    if n > 0 {
      TotalWrite(c, m, m', chain, k, n - 1, delta);
      if n - 1 != k {
        OthersAgree(c, m, m', chain, k);
        SegmentFrame(c, m, m', chain[n - 1]);
      }
    }
  }

  lemma AccountWrite(c: Config, m: Memory, chain: seq<Addr>, k: nat, i: nat, w: Word, d: Word)
    requires BankOff(c, m, chain, d) && k < |chain| && i < Lookup(m, CountAt(chain[k])) && w >= 0
    ensures var m' := m[AccountAt(chain[k], i) := w];
            BankOff(c, m', chain, d + w - Lookup(m, AccountAt(chain[k], i))) &&
            Accounts(m', chain, |chain|) == Accounts(m, chain, |chain|)
  {
    var a := AccountAt(chain[k], i);
    var m' := m[a := w];
    assert Counted(c, m, chain);
    assert Within(a, SegmentAt(c, chain[k]));
    SumUpdate(m, chain[k], Lookup(m, CountAt(chain[k])), i, w);
    TotalWrite(c, m, m', chain, k, |chain|, w - Lookup(m, a));
    OthersAgree(c, m, m', chain, k);
    forall j | 0 <= j < |chain| && j != k
      ensures Lookup(m', CountAt(chain[j])) == Lookup(m, CountAt(chain[j])) &&
              Lookup(m', NextAt(chain[j])) == Lookup(m, NextAt(chain[j])) && NonNegative(m', chain[j])
    {
      SegmentFrame(c, m, m', chain[j]);
    }
    assert NonNegative(m, chain[k]);
  }

  /** The segment and place of an account, given its index. */
  lemma {:induction false} AccountFind(m: Memory, chain: seq<Addr>, n: nat, id: nat) returns (k: nat, i: nat)
    requires n <= |chain| && id < |Accounts(m, chain, n)|
    ensures k < n && i < Lookup(m, CountAt(chain[k])) && Accounts(m, chain, n)[id] == AccountAt(chain[k], i)
  {
    var before := |Accounts(m, chain, n - 1)|;
    if id < before {
      k, i := AccountFind(m, chain, n - 1, id);
    } else {
      k, i := n - 1, id - before;
      assert Accounts(m, chain, n)[id] == Slots(chain[n - 1], Lookup(m, CountAt(chain[n - 1])))[i];
    }
  }

  lemma OffAccount(c: Config, m: Memory, chain: seq<Addr>, d: Word, k: nat, i: nat)
    requires BankOff(c, m, chain, d) && k < |chain| && i < Lookup(m, CountAt(chain[k]))
    ensures Lookup(m, AccountAt(chain[k], i)) >= 0
  {
    assert NonNegative(m, chain[k]);
  }

  lemma OffIsBank(c: Config, m: Memory, chain: seq<Addr>)
    ensures Bank(c, m, chain) <==> BankOff(c, m, chain, 0)
  {
  }

  /** A transfer, even from an account to itself, keeps the bank. */
  lemma ShortKeeps(c: Config, m: Memory, chain: seq<Addr>, sid: nat, rid: nat)
    requires Bank(c, m, chain)
    ensures var m' := ShortResult(m, chain, sid, rid);
            Bank(c, m', chain) && Accounts(m', chain, |chain|) == Accounts(m, chain, |chain|)
  {
    OffIsBank(c, m, chain);
    OffIsBank(c, ShortResult(m, chain, sid, rid), chain);
    hide Bank, BankOff, Accounts;
    if InRange(m, chain, sid, rid) {
      var from, to := Accounts(m, chain, |chain|)[sid], Accounts(m, chain, |chain|)[rid];
      var b := Lookup(m, from);
      if b > 0 {
        var k, i := AccountFind(m, chain, |chain|, sid);
        AccountWrite(c, m, chain, k, i, b - 1, 0);
        var m1 := m[from := b - 1];
        var k', i' := AccountFind(m1, chain, |chain|, rid);
        OffAccount(c, m1, chain, -1, k', i');
        AccountWrite(c, m1, chain, k', i', Lookup(m1, to) + 1, -1);
      }
    }
  }

  // ---------------------------------------------------------------- closing and opening accounts

  lemma LastSplit(m: Memory, chain: seq<Addr>, n: nat)
    requires 0 < n <= |chain|
    ensures Total(m, chain, n) == Total(m, chain, n - 1) + Money(m, chain[n - 1])
    ensures |Accounts(m, chain, n)| == |Accounts(m, chain, n - 1)| +
              (if Lookup(m, CountAt(chain[n - 1])) < 0 then 0 else Lookup(m, CountAt(chain[n - 1])))
  {
  }

  lemma Scales(init: Word, size: int, d: int)
    ensures Worth(init, size + d) == Worth(init, size) + Worth(init, d)
    ensures Worth(init, 1) == init && Worth(init, -1) == -init
  {
  }

  /** A chain that keeps the segments before its last stays linked. */
  lemma PrefixLinked(c: Config, m: Memory, m': Memory, chain: seq<Addr>)
    requires |chain| > 0 && chain[0] == c.start
    requires forall i :: 0 <= i < |chain| - 1 ==>
               SameSegment(m, m', chain[i]) && NonNegative(m, chain[i]) &&
               Lookup(m, NextAt(chain[i])) == chain[i + 1] && Lookup(m, CountAt(chain[i])) == c.nb
    requires Lookup(m', NextAt(Last(chain))) == 0 && 1 <= Tail(m', chain) <= c.nb && NonNegative(m', Last(chain))
    ensures Linked(c, m', chain) && forall i :: 0 <= i < |chain| ==> NonNegative(m', chain[i])
  {
    forall i | 0 <= i < |chain| - 1 ensures NonNegative(m', chain[i]) && Lookup(m', NextAt(chain[i])) == chain[i + 1] {
      assert SameSegment(m, m', chain[i]);
    }
  }

  /** The last segment accounts for the difference in money and in accounts. */
  lemma LastMoney(c: Config, m: Memory, m': Memory, chain: seq<Addr>, chain': seq<Addr>, before: Word,
      accounts: nat, d: int)
    requires |chain'| > 0 && |chain| >= |chain'| - 1
    requires Total(m', chain', |chain'| - 1) == before && |Accounts(m', chain', |chain'| - 1)| == accounts
    requires Total(m, chain, |chain|) == Worth(c.init, Size(m, chain)) && Tail(m', chain') >= 0
    requires accounts + Tail(m', chain') == Size(m, chain) + d
    requires before + Money(m', Last(chain')) == Total(m, chain, |chain|) + Worth(c.init, d)
    ensures Total(m', chain', |chain'|) == Worth(c.init, Size(m', chain')) && Size(m', chain') == Size(m, chain) + d
  {
    LastSplit(m', chain', |chain'|);
    Scales(c.init, Size(m, chain), d);
  }

  /** Changing the last segment only, so that its money moves with its number of accounts. */
  lemma LastChanged(c: Config, m: Memory, m': Memory, chain: seq<Addr>, d: int)
    requires Bank(c, m, chain) && ChangesOnly(m, m', SegmentAt(c, Last(chain)))
    requires Tail(m', chain) == Tail(m, chain) + d && 1 <= Tail(m', chain) <= c.nb
    requires Money(m', Last(chain)) == Money(m, Last(chain)) + Worth(c.init, d)
    requires Lookup(m', NextAt(Last(chain))) == 0 && NonNegative(m', Last(chain))
    ensures Bank(c, m', chain) && Size(m', chain) == Size(m, chain) + d
  {
    hide Worth;
    var n := |chain|;
    OthersAgree(c, m, m', chain, n - 1);
    assert Counted(c, m, chain);
    PrefixFrame(c, m, m', chain, n - 1);
    hide Total, Accounts, NonNegative, Money, AgreesOn, ChangesOnly, SameSegment, Layout;
    PrefixLinked(c, m, m', chain);
    LastSplit(m, chain, n);
    LastMoney(c, m, m', chain, chain, Total(m, chain, n - 1), |Accounts(m, chain, n - 1)|, d);
  }

  lemma CloseKeeps(c: Config, m: Memory, chain: seq<Addr>)
    requires Bank(c, m, chain) && Tail(m, chain) > 1
    ensures Bank(c, CloseResult(c, m, chain), chain)
    ensures Size(CloseResult(c, m, chain), chain) == Size(m, chain) - 1
  {
    var last, t, m' := Last(chain), Tail(m, chain), CloseResult(c, m, chain);
    assert Within(CountAt(last), SegmentAt(c, last)) && Within(ParityAt(last), SegmentAt(c, last));
    SumFrame(m, m', last, t - 1);
    assert NonNegative(m, last);
    assert Sum(m, last, t) == Sum(m, last, t - 1) + Lookup(m, AccountAt(last, t - 1));
    assert Money(m', last) == Money(m, last) - c.init;
    Scales(c.init, 0, -1);
    LastChanged(c, m, m', chain, -1);
  }

  lemma OpenKeeps(c: Config, m: Memory, chain: seq<Addr>)
    requires Bank(c, m, chain) && Tail(m, chain) < c.nb
    ensures Bank(c, OpenResult(c, m, chain), chain)
    ensures Size(OpenResult(c, m, chain), chain) == Size(m, chain) + 1
  {
    var last, t, m' := Last(chain), Tail(m, chain), OpenResult(c, m, chain);
    assert Within(CountAt(last), SegmentAt(c, last)) && Within(AccountAt(last, t), SegmentAt(c, last));
    SumFrame(m, m', last, t);
    assert NonNegative(m, last);
    assert Sum(m', last, t + 1) == Sum(m', last, t) + Lookup(m', AccountAt(last, t));
    assert Money(m', last) == Money(m, last) + c.init;
    Scales(c.init, 0, 1);
    LastChanged(c, m, m', chain, 1);
  }

  /** Unlinking the last segment moves its money to the parity of the one before it. */
  lemma DropMoney(c: Config, m: Memory, chain: seq<Addr>)
    requires Bank(c, m, chain) && |chain| > 1 && Tail(m, chain) == 1
    ensures var m' := DropResult(c, m, chain); var prev := chain[|chain| - 2];
            && ChangesOnly(m, m', SegmentAt(c, prev)) && Lookup(m', NextAt(prev)) == 0
            && Lookup(m', CountAt(prev)) == c.nb && NonNegative(m', prev)
            && Money(m', prev) == Money(m, prev) + Money(m, Last(chain)) - c.init
  {
    var prev, last, m' := chain[|chain| - 2], Last(chain), DropResult(c, m, chain);
    assert Within(NextAt(prev), SegmentAt(c, prev)) && Within(ParityAt(prev), SegmentAt(c, prev));
    SumFrame(m, m', prev, c.nb);
    assert NonNegative(m, prev) && Lookup(m', CountAt(prev)) == Lookup(m, CountAt(prev)) == c.nb;
    assert Sum(m, last, 1) == Sum(m, last, 0) + Lookup(m, AccountAt(last, 0));
  }

  lemma DropLinked(c: Config, m: Memory, chain: seq<Addr>)
    requires Bank(c, m, chain) && |chain| > 1 && Tail(m, chain) == 1
    ensures var chain', m' := chain[..|chain| - 1], DropResult(c, m, chain);
            && Layout(c, chain') && Linked(c, m', chain')
            && forall i :: 0 <= i < |chain'| ==> NonNegative(m', chain'[i])
  {
    var chain', m' := chain[..|chain| - 1], DropResult(c, m, chain);
    DropMoney(c, m, chain);
    assert Layout(c, chain');
    OthersAgree(c, m, m', chain', |chain'| - 1);
    hide Worth, Total, Accounts, NonNegative, Money, AgreesOn, ChangesOnly, DropResult, Layout, SameSegment;
    PrefixLinked(c, m, m', chain');
  }

  lemma DropKeeps(c: Config, m: Memory, chain: seq<Addr>)
    requires Bank(c, m, chain) && |chain| > 1 && Tail(m, chain) == 1
    ensures Bank(c, DropResult(c, m, chain), chain[..|chain| - 1])
    ensures Size(DropResult(c, m, chain), chain[..|chain| - 1]) == Size(m, chain) - 1
  {
    var n := |chain|;
    var chain', m' := chain[..n - 1], DropResult(c, m, chain);
    DropMoney(c, m, chain);
    DropLinked(c, m, chain);
    assert Counted(c, m, chain) && Counted(c, m, chain');
    OthersAgree(c, m, m', chain', n - 2);
    PrefixFrame(c, m, m', chain', n - 2);
    TotalPrefix(m, chain, chain', n - 2);
    hide Worth, Total, Accounts, NonNegative, Money, AgreesOn, ChangesOnly, DropResult, Layout, Linked, SameSegment;
    LastSplit(m, chain, n);
    LastSplit(m, chain, n - 1);
    Scales(c.init, 0, -1);
    LastMoney(c, m, m', chain, chain', Total(m, chain, n - 2), |Accounts(m, chain, n - 2)|, -1);
  }

  /** A new last segment holds one account and the money it was opened with. */
  lemma GrowMoney(c: Config, m: Memory, chain: seq<Addr>, base: Addr)
    requires Bank(c, m, chain) && FreshSegment(c, m, chain, base)
    ensures var m' := GrowResult(c, m, chain, base); var last := Last(chain);
            && Money(m', base) == c.init && NonNegative(m', base)
            && Money(m', last) == Money(m, last) && NonNegative(m', last)
  {
    var m', last := GrowResult(c, m, chain, base), Last(chain);
    GrowFrame(c, m, chain, base);
    assert NonNegative(m, last);
    SumFrame(m, m', last, Lookup(m, CountAt(last)));
    assert Sum(m', base, 1) == Sum(m', base, 0) + Lookup(m', AccountAt(base, 0));
  }

  lemma GrowLinked(c: Config, m: Memory, chain: seq<Addr>, base: Addr)
    requires Bank(c, m, chain) && Tail(m, chain) == c.nb && FreshSegment(c, m, chain, base)
    ensures var chain', m' := chain + [base], GrowResult(c, m, chain, base);
            Layout(c, chain') && Linked(c, m', chain') && forall i :: 0 <= i < |chain'| ==> NonNegative(m', chain'[i])
  {
    var n, chain', m' := |chain|, chain + [base], GrowResult(c, m, chain, base);
    GrowFrame(c, m, chain, base);
    GrowMoney(c, m, chain, base);
    GrowLayout(c, m, chain, base);
    hide NonNegative, Money, AgreesOn, GrowResult, Layout, FreshSegment;
    forall i | 0 <= i < n ensures SameLink(m', chain[i], chain'[i + 1], c.nb) {
    }
    GrownLinked(c, m', chain');
  }

  lemma GrowKeeps(c: Config, m: Memory, chain: seq<Addr>, base: Addr)
    requires Bank(c, m, chain) && Tail(m, chain) == c.nb && FreshSegment(c, m, chain, base)
    ensures Bank(c, GrowResult(c, m, chain, base), chain + [base])
    ensures Size(GrowResult(c, m, chain, base), chain + [base]) == Size(m, chain) + 1
  {
    var n, chain', m' := |chain|, chain + [base], GrowResult(c, m, chain, base);
    assert Counted(c, m, chain);
    GrowFrame(c, m, chain, base);
    GrowMoney(c, m, chain, base);
    GrowLinked(c, m, chain, base);
    PrefixFrame(c, m, m', chain, n - 1);
    TotalPrefix(m', chain, chain', n);
    LastSplit(m, chain, n);
    LastSplit(m', chain, n);
    hide Worth, Total, Accounts, NonNegative, Money, AgreesOn, GrowResult, Layout, Linked, FreshSegment;
    Scales(c.init, 0, 1);
    LastMoney(c, m, m', chain, chain', Total(m', chain, n), |Accounts(m', chain, n)|, 1);
  }

  ghost predicate SameLink(m: Memory, seg: Addr, next: Addr, n: int) {
    Lookup(m, NextAt(seg)) == next && Lookup(m, CountAt(seg)) == n && NonNegative(m, seg)
  }

  lemma GrownLinked(c: Config, m: Memory, chain: seq<Addr>)
    requires |chain| > 0 && chain[0] == c.start
    requires forall i :: 0 <= i < |chain| - 1 ==> SameLink(m, chain[i], chain[i + 1], c.nb)
    requires Lookup(m, NextAt(Last(chain))) == 0 && 1 <= Tail(m, chain) <= c.nb && NonNegative(m, Last(chain))
    ensures Linked(c, m, chain) && forall i :: 0 <= i < |chain| ==> NonNegative(m, chain[i])
  {
    forall i | 0 <= i < |chain| - 1
      ensures NonNegative(m, chain[i]) && Lookup(m, NextAt(chain[i])) == chain[i + 1] &&
               Lookup(m, CountAt(chain[i])) == c.nb
    {
      assert SameLink(m, chain[i], chain[i + 1], c.nb);
    }
  }

  lemma GrowLayout(c: Config, m: Memory, chain: seq<Addr>, base: Addr)
    requires Layout(c, chain) && FreshSegment(c, m, chain, base)
    ensures Layout(c, chain + [base])
  {
  }

  /** Linking a fresh segment touches the last `next` and the new segment only. */
  lemma GrowFrame(c: Config, m: Memory, chain: seq<Addr>, base: Addr)
    requires Bank(c, m, chain) && FreshSegment(c, m, chain, base)
    ensures var m' := GrowResult(c, m, chain, base); var last := Last(chain);
            && (forall i :: 0 <= i < |chain| - 1 ==> AgreesOn(m, m', SegmentAt(c, chain[i])))
            && (forall x :: Within(x, SegmentAt(c, last)) && x != NextAt(last) ==> Lookup(m', x) == Lookup(m, x))
            && Lookup(m', NextAt(last)) == base
            && Lookup(m', CountAt(base)) == 1 && Lookup(m', NextAt(base)) == 0 && Lookup(m', ParityAt(base)) == 0
            && Lookup(m', AccountAt(base, 0)) == c.init
            && Lookup(m', CountAt(last)) == Lookup(m, CountAt(last)) &&
                Lookup(m', ParityAt(last)) == Lookup(m, ParityAt(last))
            && (forall i :: 0 <= i < c.nb ==> Lookup(m', AccountAt(last, i)) == Lookup(m, AccountAt(last, i)))
  {
    var n, last := |chain|, Last(chain);
    var m' := GrowResult(c, m, chain, base);
    assert Within(CountAt(base), SegmentAt(c, base)) && Within(AccountAt(base, 0), SegmentAt(c, base));
    assert Within(NextAt(base), SegmentAt(c, base)) && Within(ParityAt(base), SegmentAt(c, base));
    assert Within(NextAt(last), SegmentAt(c, last)) && Within(CountAt(last), SegmentAt(c, last)) &&
        Within(ParityAt(last), SegmentAt(c, last));
    assert Apart(SegmentAt(c, base), SegmentAt(c, last));
    forall i, x | 0 <= i < n - 1 && Within(x, SegmentAt(c, chain[i])) ensures Lookup(m', x) == Lookup(m, x) {
      assert Apart(SegmentAt(c, base), SegmentAt(c, chain[i])) &&
             Apart(SegmentAt(c, chain[i]), SegmentAt(c, chain[n - 1]));
    }
    forall i | 0 <= i < c.nb ensures Lookup(m', AccountAt(last, i)) == Lookup(m, AccountAt(last, i)) {
      assert Within(AccountAt(last, i), SegmentAt(c, last));
    }
  }
}
