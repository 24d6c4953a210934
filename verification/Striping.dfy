/** Striping of word addresses over the table of versioned locks. */
module Striping {

  /** The value of a pointer into the shared region, as an integer. */
  type Addr = int

  /** The content of one aligned word. */
  type Word = int

  const NUM_LOCKS := 4999

  /** Index of the lock that guards an address. */
  function FindLock(a: Addr): (k: int)
    ensures 0 <= k < NUM_LOCKS
  {
    a % NUM_LOCKS
  }

  /** Whether no two of the first `n` addresses share a lock. */
  predicate StripesDistinct(addrs: seq<Addr>, n: int)
    requires n <= |addrs|
  {
    forall i, j :: 0 <= i < j < n ==> FindLock(addrs[i]) != FindLock(addrs[j])
  }

  /** At most n distinct numbers lie below n. */
  lemma {:induction false} DistinctBelow(vals: seq<int>, n: nat)
    requires forall i :: 0 <= i < |vals| ==> 0 <= vals[i] < n
    requires forall i, j :: 0 <= i < j < |vals| ==> vals[i] != vals[j]
    ensures |vals| <= n
  {
    if vals != [] {
      assert 0 <= vals[0] < n;
      if n - 1 in vals {
        var i :| 0 <= i < |vals| && vals[i] == n - 1;
        DistinctBelow(vals[..i] + vals[i + 1..], n - 1);
      } else {
        DistinctBelow(vals, n - 1);
      }
    }
  }

  /** More addresses than locks cannot have a lock each. */
  lemma Pigeonhole(addrs: seq<Addr>)
    requires StripesDistinct(addrs, |addrs|)
    ensures |addrs| <= NUM_LOCKS
  {
    DistinctBelow(seq(|addrs|, i requires 0 <= i < |addrs| => FindLock(addrs[i])), NUM_LOCKS);
  }

  // ---------------------------------------------------------------- consecutive words

  function Power2(k: nat): nat {
    if k == 0 then 1 else 2 * Power2(k - 1)
  }

  /** The addresses of n consecutive words. */
  function Words(base: Addr, align: nat, n: nat): (addrs: seq<Addr>)
    ensures |addrs| == n && forall i :: 0 <= i < n ==> addrs[i] == base + align * i
  {
    seq(n, i requires 0 <= i < n => base + align * i)
  }

  /** The number of locks is odd, so it divides a number if it divides a power-of-two multiple. */
  lemma {:induction false} OddDivisor(k: nat, d: nat)
    requires (Power2(k) * d) % NUM_LOCKS == 0
    ensures d % NUM_LOCKS == 0
  {
    if k > 0 {
      var x := Power2(k - 1) * d;
      assert Power2(k) * d == 2 * x;
      var q := (2 * x) / NUM_LOCKS;
      assert 2 * x == NUM_LOCKS * q;
      assert q % 2 == 0;
      assert x == NUM_LOCKS * (q / 2);
      OddDivisor(k - 1, d);
    }
  }

  lemma SameStripe(x: Addr, y: Addr)
    requires FindLock(x) == FindLock(y)
    ensures (y - x) % NUM_LOCKS == 0
  {
    assert x == NUM_LOCKS * (x / NUM_LOCKS) + FindLock(x);
    assert y == NUM_LOCKS * (y / NUM_LOCKS) + FindLock(y);
    assert y - x == NUM_LOCKS * (y / NUM_LOCKS - x / NUM_LOCKS);
  }

  /** Consecutive words have a lock each up to the number of locks, and no further. */
  lemma ConsecutiveWords(base: Addr, k: nat, n: nat)
    ensures StripesDistinct(Words(base, Power2(k), n), n) <==> n <= NUM_LOCKS
  {
    var addrs := Words(base, Power2(k), n);
    if StripesDistinct(addrs, n) {
      Pigeonhole(addrs);
    }
    if n <= NUM_LOCKS {
      forall i, j | 0 <= i < j < n ensures FindLock(addrs[i]) != FindLock(addrs[j]) {
        if FindLock(addrs[i]) == FindLock(addrs[j]) {
          SameStripe(addrs[i], addrs[j]);
          assert addrs[j] - addrs[i] == Power2(k) * (j - i);
          OddDivisor(k, j - i);
        }
      }
    }
  }
}
