/** The value every address has in a version: the initial memory overlaid by the write sets
    committed up to that version. */
module Snapshots {
  import opened Striping
  import opened Tl2

  ghost function Snapshot(hist: seq<Memory>, v: nat, a: Addr): Word
    requires v < |hist|
  {
    if v == 0 then Lookup(hist[0], a)
    else if a in hist[v] then hist[v][a]
    else Snapshot(hist, v - 1, a)
  }

  /** No version in (lo, hi] wrote the address. */
  ghost predicate NoWriter(hist: seq<Memory>, a: Addr, lo: int, hi: int) {
    forall v :: lo < v <= hi && 0 <= v < |hist| ==> a !in hist[v]
  }

  lemma {:induction false} SnapshotSkip(hist: seq<Memory>, a: Addr, lo: nat, hi: nat)
    requires lo <= hi < |hist| && NoWriter(hist, a, lo, hi)
    ensures Snapshot(hist, lo, a) == Snapshot(hist, hi, a)
  {
    if lo < hi {
      SnapshotSkip(hist, a, lo, hi - 1);
    }
  }

  /** A snapshot depends only on what versions up to its own say about the address. */
  lemma {:induction false} SnapshotFrame(h: seq<Memory>, h': seq<Memory>, v: nat, a: Addr)
    requires v < |h| && v < |h'| && h[0] == h'[0]
    requires forall u :: 0 < u <= v ==> (a in h[u] <==> a in h'[u]) && (a in h[u] ==> h[u][a] == h'[u][a])
    ensures Snapshot(h, v, a) == Snapshot(h', v, a)
  {
    if v > 0 {
      SnapshotFrame(h, h', v - 1, a);
    }
  }

  lemma SnapshotAppend(h: seq<Memory>, m: Memory)
    requires |h| > 0
    ensures forall v: nat, a :: v < |h| ==> Snapshot(h + [m], v, a) == Snapshot(h, v, a)
  {
    forall v: nat, a | v < |h| ensures Snapshot(h + [m], v, a) == Snapshot(h, v, a) {
      SnapshotFrame(h, h + [m], v, a);
    }
  }

  lemma SnapshotUpdate(h: seq<Memory>, k: nat, m: Memory)
    requires 0 < k < |h| && h[k] == map[]
    ensures forall v: nat, a :: v < |h| && (v < k || a !in m) ==> Snapshot(h[k := m], v, a) == Snapshot(h, v, a)
    ensures forall v: nat, a :: k <= v < |h| && a in m && NoWriter(h, a, k, v) ==> Snapshot(h[k := m], v, a) == m[a]
  {
    var h' := h[k := m];
    forall v: nat, a | v < |h| && (v < k || a !in m) ensures Snapshot(h', v, a) == Snapshot(h, v, a) {
      SnapshotFrame(h, h', v, a);
    }
    forall v: nat, a | k <= v < |h| && a in m && NoWriter(h, a, k, v) ensures Snapshot(h', v, a) == m[a] {
      SnapshotSkip(h', a, k, v);
    }
  }
}
