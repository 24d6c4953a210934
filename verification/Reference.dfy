/** The coarse-lock transactional memory: a transaction has the memory to itself, a read copies out
    of it and a write copies into it. */
module Reference {
  import opened Striping
  import opened Tl2

  function Apply(m: Memory, op: Op): Memory {
    if op.Write? then m[op.a := op.w] else m
  }

  /** The memory after a transaction made its operations directly on it. */
  function RunOps(m: Memory, ops: seq<Op>): Memory {
    if ops == [] then m else Apply(RunOps(m, ops[..|ops| - 1]), ops[|ops| - 1])
  }

  ghost predicate ReplaysAt(m: Memory, ops: seq<Op>, n: int)
    requires 0 <= n < |ops|
  {
    ops[n].Read? ==> Lookup(RunOps(m, ops[..n]), ops[n].a) == ops[n].w
  }

  /** Made directly on memory `m`, the operations read the very values they carry. */
  ghost predicate Replays(m: Memory, ops: seq<Op>) {
    forall n :: 0 <= n < |ops| ==> ReplaysAt(m, ops, n)
  }

  /** The last value written to each address. */
  function Writes(ops: seq<Op>): Memory {
    if ops == [] then map[] else Apply(Writes(ops[..|ops| - 1]), ops[|ops| - 1])
  }

  lemma {:induction false} RunOpsLookup(m: Memory, ops: seq<Op>, a: Addr)
    ensures Lookup(RunOps(m, ops), a) == if a in Writes(ops) then Writes(ops)[a] else Lookup(m, a)
  {
    if ops != [] {
      RunOpsLookup(m, ops[..|ops| - 1], a);
    }
  }

  lemma WritesSnoc(ops: seq<Op>, op: Op)
    ensures Writes(ops + [op]) == Apply(Writes(ops), op)
  {
    assert (ops + [op])[..|ops|] == ops;
  }

  lemma ReplaysPrefix(m: Memory, ops: seq<Op>, n: nat)
    requires n <= |ops| && Replays(m, ops)
    ensures Replays(m, ops[..n])
  {
    forall i | 0 <= i < n ensures ReplaysAt(m, ops[..n], i) {
      assert ops[..n][..i] == ops[..i];
      assert ReplaysAt(m, ops, i);
    }
  }

  // ---------------------------------------------------------------- transactions that write nothing

  lemma LastWriteShows(ops: seq<Op>)
    requires ops != []
    ensures ops[|ops| - 1].Write? ==> ops[|ops| - 1].a in Writes(ops)
  {
  }

  lemma {:induction false} NoWritesNoChange(m: Memory, ops: seq<Op>)
    requires Writes(ops) == map[]
    ensures RunOps(m, ops) == m
  {
    if ops != [] {
      LastWriteShows(ops);
      NoWritesNoChange(m, ops[..|ops| - 1]);
    }
  }
}
