/** The library's own code, in place, against any behaviour of the other threads. Each method is
    proved to make exactly the steps of the transition system, so all that is proved of runs there
    holds of the code; alone in the region, it is proved to make progress. */
module TransactionalMemory {
  import opened Striping
  import opened Tl2
  import opened Tl2Invariant
  import opened Tl2Trace
  import opened Tl2Progress
  import opened Reference
  import opened Serializability
  import opened Tl2Theorems
  import opened Outcomes
  import opened LinkedSets
  import opened SharedRegion

  /** A transaction as its thread holds it. `id` is auxiliary: its place in the run. */
  class Transaction {
    const id: TxId
    const isRo: bool
    const rv: nat
    const readSet: ReadSet
    const writeSet: WriteSet

    constructor (id: TxId, isRo: bool, rv: nat)
      ensures this.id == id && this.isRo == isRo && this.rv == rv && fresh(readSet) && fresh(writeSet)
      ensures readSet.nodes == [] && writeSet.nodes == []
      ensures Holds(Tx(isRo, rv, [], [], map[], 0, Active, []))
    {
      this.id, this.isRo, this.rv := id, isRo, rv;
      readSet := new ReadSet();
      writeSet := new WriteSet();
    }

    /** The lists hold the buffers of this transaction of the transition system. */
    ghost predicate Holds(T: Tx)
      reads readSet, readSet.nodes, writeSet, writeSet.nodes
    {
      && isRo == T.ro && rv == T.rv && readSet.Valid() && writeSet.Valid()
      && readSet.Addresses() == T.rs && writeSet.Addresses() == T.ws && writeSet.Contents() == T.buf
    }
  }

  // ---------------------------------------------------------------- why a call fails

  /** In the run since its event number `lo`, one of the accesses of the transaction was refused: it found
      a lock held, or a version above rv, that gives it a reason to abort. */
  ghost predicate RefusedSince(r: Region, lo: nat, t: TxId)
    reads r
  {
    |r.states| == |r.events| + 1 && exists p :: lo <= p < |r.events| && RefusedAt(r.states, r.events, p, t)
  }

  /** The run so far, in which the transaction is not failing. */
  ghost predicate Going(t: TxId, states: seq<State>, events: seq<Event>) {
    IsRun(states, events) && t < |states[|events|].txns| && !Failing(states[|events|].txns[t])
  }

  lemma Calls(r: Region, t: TxId)
    requires r.Valid() && t < |r.world.txns| && !Failing(r.world.txns[t])
    ensures Going(t, r.states, r.events)
  {
    RunLength(r.states, r.events);
  }

  /** A call after which the transaction is failing, and was not before, made such an access; any other
      call made none. */
  lemma Answered(r: Region, t: TxId, states: seq<State>, events: seq<Event>)
    requires Going(t, states, events) && r.Valid() && states <= r.states && events <= r.events
    requires t < |r.world.txns|
    ensures Failing(r.world.txns[t]) <==> RefusedSince(r, |events|, t)
  {
    RunLength(states, events);
    RunLength(r.states, r.events);
    FailsSince(states, events, r.states, r.events, t);
  }

  // ---------------------------------------------------------------- one versioned lock

  /** Takes a lock, or gives up: at most five exchanges and four rounds of waiting, whatever the
      others do; and it gives up only after four rounds, and with the bit set at its last access. */
  method Acquire(r: Region, t: TxId, a: Addr) returns (ok: bool, ghost exchanges: nat, ghost rounds: nat)
    requires r.Valid() && t < |r.world.txns| && WillExchange(r.world.txns[t], a) && r.world.txns[t].pc.bound == 0
    modifies r.Footprint()
    ensures r.Valid()
    ensures var T := old(r.world.txns[t]);
            r.Became(t, T.(pc := if ok then Locking(T.pc.i + 1, 0, false) else Unlocking(0, T.pc.i)))
    ensures exchanges <= 5 && rounds <= 4 && (!ok ==> rounds == 4)
    ensures ok <==> !RefusedSince(r, |old(r.events)|, t)
  {
    hide Region.Valid, Region.Undisturbed, Region.Stepped, SameShared;
    hide RefusedSince, Going;
    ghost var states, events := r.states, r.events;
    Calls(r, t);
    ghost var T := r.world.txns[t];
    var bound := 0;
    exchanges := 0;
    while true
      invariant r.Valid() && 0 <= bound <= 4 && exchanges <= bound
      invariant r.Became(t, T.(pc := Locking(T.pc.i, bound, false)))
      decreases 5 - bound
    {
      ghost var before := bound;
      var bit := r.Exchange(t, a);
      exchanges := exchanges + 1;
      if !bit {
        Answered(r, t, states, events);
        return true, exchanges, bound;
      }
      var held := true;
      while held
        invariant r.Valid() && 0 <= bound <= 4 && (held || exchanges <= bound) && exchanges <= bound + 1
        invariant r.Became(t, T.(pc := if held then Backoff(T.pc.i, bound) else Locking(T.pc.i, bound, false)))
        invariant bound >= before && (held || bound > before)
        decreases 4 - bound, held
      {
        if bound > 3 {
          Answered(r, t, states, events);
          return false, exchanges, bound;
        }
        bound := bound + 1;
        held := r.TestBit(t, a);
      }
    }
  }

  /** Two loads, the lock bit before the version: whether the word was free and not newer than the
      transaction; it answers false only when one of the two says so. */
  method Validate(r: Region, t: TxId, a: Addr, rv: nat) returns (ok: bool)
    requires r.Valid() && t < |r.world.txns| && WillTest(r.world.txns[t], a) && rv == r.world.txns[t].rv
    requires !r.world.txns[t].pc.Locking?
    modifies r.Footprint()
    ensures r.Valid()
    ensures r.Became(t, ValidateDone(old(r.world.txns[t]), a, ok))
    ensures ok <==> !RefusedSince(r, |old(r.events)|, t)
    ensures old(r.Undisturbed(t)) && Reading(old(r.world.txns[t])) ==> ok
  {
    hide Region.Valid, Region.Undisturbed, Region.Stepped, SameShared;
    hide RefusedSince, Going;
    ghost var states, events := r.states, r.events;
    Calls(r, t);
    var bit := r.TestBit(t, a);
    if bit {
      Answered(r, t, states, events);
      return false;
    }
    var v := r.LoadVersion(t, a);
    Answered(r, t, states, events);
    return v <= rv;
  }

  function ValidateDone(T: Tx, a: Addr, ok: bool): Tx
    requires WillTest(T, a) && !T.pc.Locking?
  {
    match T.pc
    case Copied(_, w, own, asof) =>
      if ok then T.(pc := Active, ops := T.ops + [Read(a, w, own, asof)]) else T.(pc := Aborted)
    case Validating(j, _) => T.(pc := if ok then Validating(j + 1, false) else Unlocking(0, |T.ws|))
  }

  // ---------------------------------------------------------------- the helpers of tm_end

  /** Releases the locks of the nodes before `nextToLock`. */
  method UnlockWriteSet(r: Region, t: TxId, list: WriteSet, nextToLock: WriteNode?)
    requires r.Valid() && list.Valid() && t < |r.world.txns| && r.world.txns[t].ws == list.Addresses()
    requires var pc := r.world.txns[t].pc;
             pc.Unlocking? && pc.i == 0 && pc.n <= |list.nodes| && nextToLock == list.NodeAt(pc.n)
    modifies r.Footprint()
    ensures r.Valid() && r.Became(t, old(r.world.txns[t]).(pc := Aborted))
  {
    hide Region.Valid, Region.Undisturbed, Region.Stepped, SameShared, WriteSet.Valid, WriteSet.Addresses;
    list.Cursor(0);
    ghost var T := r.world.txns[t];
    ghost var i := 0;
    var node := list.first;
    while node != nextToLock
      invariant r.Valid() && i <= T.pc.n && node == list.NodeAt(i)
      invariant r.Became(t, T.(pc := Unlocking(i, T.pc.n)))
      decreases T.pc.n - i
    {
      r.ClearBit(t, node.address);
      list.Cursor(i);
      node := node.next;
      i := i + 1;
    }
    list.NodesDiffer(i, T.pc.n);
    r.Settle(t);
  }

  /** Takes the locks in list order; when one cannot be had, gives back those it has. */
  method LockWriteSet(r: Region, t: TxId, list: WriteSet) returns (ok: bool)
    requires r.Valid() && list.Valid() && t < |r.world.txns| && r.world.txns[t].ws == list.Addresses()
    requires r.world.txns[t].pc == Locking(0, 0, false)
    modifies r.Footprint()
    ensures r.Valid()
    ensures r.Became(t, old(r.world.txns[t]).(pc := if ok then Locking(|list.nodes|, 0, false) else Aborted))
    ensures ok <==> !RefusedSince(r, |old(r.events)|, t)
  {
    hide Region.Valid, Region.Undisturbed, Region.Stepped, SameShared, WriteSet.Valid, WriteSet.Addresses, RefusedSince;
    hide RefusedSince, Going;
    ghost var states, events := r.states, r.events;
    Calls(r, t);
    list.Cursor(0);
    ghost var T := r.world.txns[t];
    ghost var i := 0;
    var node := list.first;
    while node != null
      invariant r.Valid() && i <= |list.nodes| && node == list.NodeAt(i)
      invariant r.Became(t, T.(pc := Locking(i, 0, false)))
      decreases |list.nodes| - i
    {
      var acquired, _, _ := Acquire(r, t, node.address);
      if !acquired {
        UnlockWriteSet(r, t, list, node);
        Answered(r, t, states, events);
        return false;
      }
      list.Cursor(i);
      node := node.next;
      i := i + 1;
    }
    Answered(r, t, states, events);
    return true;
  }

  /** Validates the read nodes in list order, up to the first that fails. */
  method ValidateReadSet(r: Region, t: TxId, list: ReadSet, rv: nat) returns (ok: bool)
    requires r.Valid() && list.Valid() && t < |r.world.txns| && r.world.txns[t].rs == list.Addresses()
    requires r.world.txns[t].pc == Validating(0, false) && rv == r.world.txns[t].rv
    modifies r.Footprint()
    ensures r.Valid()
    ensures var T := old(r.world.txns[t]);
            r.Became(t, T.(pc := if ok then Validating(|T.rs|, false) else Unlocking(0, |T.ws|)))
    ensures ok <==> !RefusedSince(r, |old(r.events)|, t)
  {
    hide Region.Valid, Region.Undisturbed, Region.Stepped, SameShared, ReadSet.Valid, ReadSet.Addresses, RefusedSince;
    hide RefusedSince, Going;
    ghost var states, events := r.states, r.events;
    Calls(r, t);
    list.Cursor(0);
    ghost var T := r.world.txns[t];
    ghost var j := 0;
    var node := list.first;
    while node != null
      invariant r.Valid() && j <= |list.nodes| && node == list.NodeAt(j)
      invariant r.Became(t, T.(pc := Validating(j, false)))
      decreases |list.nodes| - j
    {
      var valid := Validate(r, t, node.address, rv);
      if !valid {
        Answered(r, t, states, events);
        return false;
      }
      list.Cursor(j);
      node := node.next;
      j := j + 1;
    }
    Answered(r, t, states, events);
    return true;
  }

  /** One word: store, then version, then release. */
  method StoreNode(r: Region, t: TxId, a: Addr, w: Word, wv: nat)
    requires r.Valid() && t < |r.world.txns| && WillStore(r.world.txns[t], a, w, ToStore) && wv == r.world.txns[t].wv
    modifies r.Footprint()
    ensures r.Valid() && r.Became(t, old(r.world.txns[t]).(pc := Storing(old(r.world.txns[t]).pc.i + 1, ToStore)))
    ensures old(r.schedule) == [] ==> r.schedule == [] && r.memory == old(r.memory)[a := w]
  {
    hide Region.Valid, Region.Undisturbed, Region.Stepped, SameShared;
    r.StoreWord(t, a, w);
    r.StoreVersion(t, a, w, wv);
    r.ClearBit(t, a);
  }

  /** The entries of the write nodes are the buffer of this transaction. */
  ghost predicate Lists(T: Tx, es: seq<Entry>) {
    |es| == |T.ws| && forall k :: 0 <= k < |es| ==> es[k].a == T.ws[k] && es[k].a in T.buf && T.buf[es[k].a] == es[k].w
  }

  lemma BufferEntries(T: Tx, list: WriteSet) returns (es: seq<Entry>)
    requires list.Valid() && T.ws == list.Addresses() && T.buf == list.Contents()
    ensures Lists(T, es) && Fold(es) == T.buf && |es| == |list.nodes|
    ensures forall k :: 0 <= k < |es| ==> list.nodes[k].address == es[k].a && list.nodes[k].value == es[k].w
  {
    es := WriteSet.EntriesOf(list.nodes);
    list.Listed(es);
  }

  lemma NodeWillStore(T: Tx, es: seq<Entry>, i: nat)
    requires Lists(T, es) && i < |es|
    ensures WillStore(T.(pc := Storing(i, ToStore)), es[i].a, es[i].w, ToStore)
  {
  }

  /** Stores, versions and releases the words in list order. With nobody else about, memory is
      overridden by the buffered values, and nothing else of it changes. */
  method StoreWriteSet(r: Region, t: TxId, list: WriteSet, wv: nat)
    requires r.Valid() && list.Valid() && t < |r.world.txns|
    requires r.world.txns[t].ws == list.Addresses() && r.world.txns[t].buf == list.Contents()
    requires r.world.txns[t].pc == Storing(0, ToStore) && wv == r.world.txns[t].wv
    modifies r.Footprint()
    ensures r.Valid() && r.Became(t, old(r.world.txns[t]).(pc := Committed))
    ensures old(r.schedule) == [] ==> r.memory == old(r.memory) + old(r.world.txns[t]).buf
  {
    hide Region.Valid, Region.Undisturbed, Region.Stepped, SameShared;
    hide WriteSet.Valid, WriteSet.Addresses, WriteSet.Contents;
    hide Fold, Override, Lists, WillStore;
    ghost var T := r.world.txns[t];
    ghost var es := BufferEntries(T, list);
    OverrideEnds(r.memory, es);
    list.Cursor(0);
    ghost var i := 0;
    var node := list.first;
    while node != null
      invariant r.Valid() && i <= |list.nodes| && node == list.NodeAt(i)
      invariant r.Became(t, T.(pc := Storing(i, ToStore)))
      invariant old(r.schedule) == [] ==> r.schedule == [] && r.memory == Override(old(r.memory), es, i)
      decreases |list.nodes| - i
    {
      assert node.value == es[i].w;
      NodeWillStore(T, es, i);
      list.Cursor(i);
      OverrideNext(old(r.memory), es, i);
      StoreNode(r, t, node.address, node.value, wv);
      node := node.next;
      i := i + 1;
    }
    r.Settle(t);
  }

  // ---------------------------------------------------------------- tm_begin, tm_read, tm_write, tm_end

  /** Begins a transaction at the version the clock shows. */
  method TmBegin(r: Region, isRo: bool) returns (tx: Transaction)
    requires r.Valid()
    modifies r.Footprint()
    ensures r.Valid() && fresh(tx) && fresh(tx.readSet) && fresh(tx.writeSet)
    ensures tx.readSet.nodes == [] && tx.writeSet.nodes == []
    ensures old(r.states) <= r.states && old(r.events) <= r.events && r.Stepped(-1, Begin(isRo))
    ensures |old(r.world.txns)| <= tx.id < |r.world.txns| && tx.Holds(r.world.txns[tx.id])
    ensures r.world.txns[tx.id] == Tx(isRo, tx.rv, [], [], map[], 0, Active, [])
    ensures old(r.schedule) == [] && (forall u :: 0 <= u < |old(r.world.txns)| ==> Finished(old(r.world.txns[u]))) ==>
              r.Undisturbed(tx.id)
  {
    hide Region.Valid, Region.Undisturbed, Region.Stepped, SameShared;
    var rv, t := r.LoadClock(isRo);
    tx := new Transaction(t, isRo, rv);
  }

  /** A read of this kind by this transaction: from its own buffer exactly when it wrote the word. */
  predicate ReadBy(T: Tx, a: Addr, w: Word, op: Op) {
    && op.Read? && op.a == a && op.w == w
    && (op.own <==> !T.ro && a in T.buf) && (op.own ==> w == T.buf[a])
  }

  /** A word read from outside the buffer is logged by a read-write transaction, validated or not. */
  function ReadDone(T: Tx, op: Op, ok: bool): Tx
    requires op.Read?
  {
    T.(rs := if T.ro || op.own then T.rs else T.rs + [op.a],
       pc := if ok then Active else Aborted, ops := if ok then T.ops + [op] else T.ops)
  }

  function CopiedBy(T: Tx, op: Op): Tx
    requires op.Read?
  {
    T.(rs := if T.ro || op.own then T.rs else T.rs + [op.a], pc := Copied(op.a, op.w, op.own, op.asof))
  }

  /** Logs a word and copies it from shared memory. */
  method LogAndCopy(r: Region, tx: Transaction, a: Addr) returns (w: Word, ghost asof: nat)
    requires r.Valid() && tx.id < |r.world.txns| && tx.Holds(r.world.txns[tx.id]) && r.world.txns[tx.id].pc.Active?
    requires !tx.isRo && a !in tx.writeSet.Contents()
    modifies r.Footprint(), tx.readSet, tx.readSet.nodes
    ensures r.Valid() && r.Became(tx.id, CopiedBy(old(r.world.txns[tx.id]), Read(a, w, false, asof)))
    ensures tx.Holds(r.world.txns[tx.id]) && fresh(set n | n in tx.readSet.nodes && n !in old(tx.readSet.nodes))
  {
    hide Region.Valid, Region.Undisturbed, Region.Stepped, SameShared, Fold, WriteSet.EntriesOf;
    hide WriteSet.Valid, WriteSet.Addresses, WriteSet.Contents, ReadSet.Valid, ReadSet.Addresses;
    tx.readSet.Add(a);
    w, asof := r.LoadWord(tx.id, a);
  }

  /** The first half of an iteration of tm_read: logs and copies one word. */
  method CopyOut(r: Region, tx: Transaction, a: Addr) returns (w: Word, ghost op: Op)
    requires r.Valid() && tx.id < |r.world.txns| && tx.Holds(r.world.txns[tx.id]) && r.world.txns[tx.id].pc.Active?
    modifies r.Footprint(), tx.readSet, tx.readSet.nodes
    ensures r.Valid() && ReadBy(old(r.world.txns[tx.id]), a, w, op)
    ensures r.Became(tx.id, CopiedBy(old(r.world.txns[tx.id]), op)) && tx.Holds(r.world.txns[tx.id])
    ensures fresh(set n | n in tx.readSet.nodes && n !in old(tx.readSet.nodes))
  {
    hide Region.Valid, Region.Undisturbed, Region.Stepped, SameShared, Fold, WriteSet.EntriesOf;
    hide WriteSet.Valid, WriteSet.Addresses, WriteSet.Contents, ReadSet.Valid, ReadSet.Addresses;
    ghost var asof: nat := tx.rv;
    ghost var own := false;
    if tx.isRo {
      w, asof := r.LoadWord(tx.id, a);
    } else {
      var node := tx.writeSet.Find(a);
      if node == null {
        w, asof := LogAndCopy(r, tx, a);
      } else {
        w, own := node.value, true;
        r.TakeOwn(tx.id, a);
      }
    }
    op := Read(a, w, own, asof);
  }

  /** One iteration of tm_read. */
  method ReadWord(r: Region, tx: Transaction, a: Addr) returns (ok: bool, w: Word, ghost op: Op)
    requires r.Valid() && tx.id < |r.world.txns| && tx.Holds(r.world.txns[tx.id]) && r.world.txns[tx.id].pc.Active?
    modifies r.Footprint(), tx.readSet, tx.readSet.nodes
    ensures r.Valid() && ReadBy(old(r.world.txns[tx.id]), a, w, op)
    ensures r.Became(tx.id, ReadDone(old(r.world.txns[tx.id]), op, ok)) && tx.Holds(r.world.txns[tx.id])
    ensures fresh(set n | n in tx.readSet.nodes && n !in old(tx.readSet.nodes))
    ensures ok <==> !RefusedSince(r, |old(r.events)|, tx.id)
    ensures old(r.Undisturbed(tx.id)) ==> ok
  {
    hide Region.Valid, Region.Undisturbed, Region.Stepped, SameShared, Fold, WriteSet.EntriesOf;
    hide WriteSet.Valid, WriteSet.Addresses, WriteSet.Contents, ReadSet.Valid, ReadSet.Addresses;
    hide RefusedSince, Going;
    ghost var states, events := r.states, r.events;
    Calls(r, tx.id);
    w, op := CopyOut(r, tx, a);
    ok := Validate(r, tx.id, a, tx.rv);
    Answered(r, tx.id, states, events);
  }

  /** A transaction after these reads, all of them accepted. */
  function ReadsDone(T: Tx, ops: seq<Op>): Tx
    requires forall i :: 0 <= i < |ops| ==> ops[i].Read?
  {
    if ops == [] then T else ReadDone(ReadsDone(T, ops[..|ops| - 1]), ops[|ops| - 1], true)
  }

  lemma ReadsDoneSnoc(T: Tx, ops: seq<Op>, op: Op)
    requires op.Read? && forall i :: 0 <= i < |ops| ==> ops[i].Read?
    ensures ReadsDone(T, ops + [op]) == ReadDone(ReadsDone(T, ops), op, true)
  {
    assert (ops + [op])[..|ops|] == ops;
  }

  lemma {:induction false} ReadsDoneKeeps(T: Tx, ops: seq<Op>)
    requires forall i :: 0 <= i < |ops| ==> ops[i].Read?
    ensures var T' := ReadsDone(T, ops);
            T' == T.(rs := T'.rs, pc := T'.pc, ops := T.ops + ops) && (T.pc.Active? ==> T'.pc.Active?)
  {
    if ops != [] {
      ReadsDoneKeeps(T, ops[..|ops| - 1]);
    }
  }

  /** The reads of consecutive words, with these values. */
  ghost predicate ReadsBy(T: Tx, source: Addr, align: nat, target: seq<Word>, ops: seq<Op>) {
    |ops| == |target| && forall i :: 0 <= i < |ops| ==> ReadBy(T, Words(source, align, |ops|)[i], target[i], ops[i])
  }

  lemma ReadsNothing(T: Tx, source: Addr, align: nat)
    ensures ReadsBy(T, source, align, [], []) && ReadsDone(T, []) == T
  {
  }

  lemma ReadsBySnoc(T: Tx, source: Addr, align: nat, target: seq<Word>, ops: seq<Op>, w: Word, op: Op)
    requires ReadsBy(T, source, align, target, ops) && ReadBy(T, source + align * |ops|, w, op)
    ensures ReadsBy(T, source, align, target + [w], ops + [op])
  {
    forall i | 0 <= i <= |ops|
      ensures ReadBy(T, Words(source, align, |ops| + 1)[i], (target + [w])[i], (ops + [op])[i])
    {
      if i < |ops| {
        assert Words(source, align, |ops|)[i] == Words(source, align, |ops| + 1)[i];
      }
    }
  }

  /** Reads `size` consecutive words, up to the first that is not valid. Alone in the region, all
      of them are. */
  method TmRead(r: Region, tx: Transaction, align: nat, source: Addr, size: nat)
      returns (ok: bool, target: seq<Word>, ghost ops: seq<Op>)
    requires r.Valid() && tx.id < |r.world.txns| && tx.Holds(r.world.txns[tx.id]) && r.world.txns[tx.id].pc.Active?
    requires size > 0
    modifies r.Footprint(), tx.readSet, tx.readSet.nodes
    ensures r.Valid() && tx.id < |r.world.txns| && tx.Holds(r.world.txns[tx.id])
    ensures fresh(set n | n in tx.readSet.nodes && n !in old(tx.readSet.nodes))
    ensures ReadsBy(old(r.world.txns[tx.id]), source, align, target, ops)
    ensures if ok then |target| == size && r.Became(tx.id, ReadsDone(old(r.world.txns[tx.id]), ops))
            else |target| < size && r.world.txns[tx.id].pc.Aborted?
    ensures ok <==> !RefusedSince(r, |old(r.events)|, tx.id)
    ensures old(r.Undisturbed(tx.id)) ==> ok
  {
    hide Region.Valid, Region.Undisturbed, Region.Stepped, SameShared, Transaction.Holds;
    hide ReadBy, ReadDone, ReadsBy, ReadsDone;
    hide RefusedSince, Going;
    ghost var states, events := r.states, r.events;
    Calls(r, tx.id);
    ghost var T := r.world.txns[tx.id];
    var sourceWord, more := source, true;
    target, ops := [], [];
    ReadsNothing(T, source, align);
    while more
      invariant forall i :: 0 <= i < |ops| ==> ops[i].Read?
      invariant r.Valid() && ReadsBy(T, source, align, target, ops) && sourceWord == source + align * |ops|
      invariant |target| == |ops| <= size && (more <==> |ops| < size)
      invariant r.Became(tx.id, ReadsDone(T, ops)) && tx.Holds(ReadsDone(T, ops))
      invariant fresh(set n | n in tx.readSet.nodes && n !in old(tx.readSet.nodes))
      decreases size - |ops|
    {
      ReadsDoneKeeps(T, ops);
      var accepted, w, op := ReadWord(r, tx, sourceWord);
      ReadByKept(T, ReadsDone(T, ops), sourceWord, w, op);
      if !accepted {
        NotAccepted(ReadsDone(T, ops), op);
        Answered(r, tx.id, states, events);
        return false, target, ops;
      }
      ReadsDoneSnoc(T, ops, op);
      ReadsBySnoc(T, source, align, target, ops, w, op);
      sourceWord := sourceWord + align;
      target, ops := target + [w], ops + [op];
      more := |target| < size;
    }
    ReadsDoneKeeps(T, ops);
    Answered(r, tx.id, states, events);
    return true, target, ops;
  }

  lemma ReadByKept(T: Tx, T': Tx, a: Addr, w: Word, op: Op)
    requires ReadBy(T', a, w, op) && T'.ro == T.ro && T'.buf == T.buf
    ensures op.Read? && ReadBy(T, a, w, op)
  {
  }

  lemma NotAccepted(T: Tx, op: Op)
    requires op.Read?
    ensures ReadDone(T, op, false).pc.Aborted?
  {
  }

  /** The address of the i-th word of a stretch. */
  function WordAt(target: Addr, align: nat, i: nat): Addr {
    target + align * i
  }

  /** A transaction after writing the first n of these words. */
  function WritesDone(T: Tx, target: Addr, align: nat, source: seq<Word>, n: nat): Tx
    requires n <= |source|
  {
    if n == 0 then T
    else WriteTx(WritesDone(T, target, align, source, n - 1), WordAt(target, align, n - 1), source[n - 1])
  }

  lemma WritesNothing(T: Tx, target: Addr, align: nat, source: seq<Word>)
    ensures WritesDone(T, target, align, source, 0) == T
  {
  }

  lemma WritesDoneNext(T: Tx, target: Addr, align: nat, source: seq<Word>, n: nat, a: Addr)
    requires n < |source| && a == target + align * n
    ensures WritesDone(T, target, align, source, n + 1) ==
              WriteTx(WritesDone(T, target, align, source, n), a, source[n])
    ensures WritesDone(T, target, align, source, n + 1).pc == WritesDone(T, target, align, source, n).pc
    ensures a + align == target + align * (n + 1)
  {
  }

  /** The writes of these words to consecutive addresses, in order. */
  function WriteOps(target: Addr, align: nat, source: seq<Word>): seq<Op> {
    seq(|source|, i requires 0 <= i < |source| => Write(WordAt(target, align, i), source[i]))
  }

  ghost predicate InStretch(a: Addr, target: Addr, align: nat, n: nat) {
    exists i: nat :: i < n && a == WordAt(target, align, i)
  }

  /** The buffer after the first n writes: every word of the stretch has its value, and other words keep
      theirs. */
  ghost predicate Buffered(m: Memory, m': Memory, target: Addr, align: nat, source: seq<Word>, n: nat)
    requires n <= |source|
  {
    && (forall i: nat :: i < n ==> WordAt(target, align, i) in m' && m'[WordAt(target, align, i)] == source[i])
    && forall a :: !InStretch(a, target, align, n) ==> (a in m' <==> a in m) && (a in m ==> m'[a] == m[a])
  }

  lemma WordsApart(target: Addr, align: nat, i: nat, n: nat)
    requires align > 0 && i < n
    ensures WordAt(target, align, i) != WordAt(target, align, n)
  {
    assert align * n == align * i + align * (n - i);
    assert align * (n - i) > 0;
  }

  lemma BufferedNext(m: Memory, m': Memory, target: Addr, align: nat, source: seq<Word>, n: nat)
    requires align > 0 && n < |source| && Buffered(m, m', target, align, source, n)
    ensures Buffered(m, m'[WordAt(target, align, n) := source[n]], target, align, source, n + 1)
  {
    hide WordAt;
    var a := WordAt(target, align, n);
    forall i: nat | i < n ensures WordAt(target, align, i) != a {
      WordsApart(target, align, i, n);
    }
    assert InStretch(a, target, align, n + 1);
    forall b | !InStretch(b, target, align, n + 1) ensures b != a && !InStretch(b, target, align, n) {
    }
  }

  /** What these writes add to the trace. */
  lemma {:induction false} WritesTraced(T: Tx, target: Addr, align: nat, source: seq<Word>, n: nat)
    requires n <= |source|
    ensures WritesDone(T, target, align, source, n).ops == T.ops + WriteOps(target, align, source)[..n]
  {
    if n > 0 {
      WritesTraced(T, target, align, source, n - 1);
      var all := WriteOps(target, align, source);
      assert all[..n] == all[..n - 1] + [all[n - 1]];
    }
  }

  /** ... and to the buffer. */
  lemma {:induction false} WritesBuffered(T: Tx, target: Addr, align: nat, source: seq<Word>, n: nat)
    requires n <= |source| && align > 0
    ensures Buffered(T.buf, WritesDone(T, target, align, source, n).buf, target, align, source, n)
  {
    hide WordAt;
    if n > 0 {
      hide Buffered;
      WritesBuffered(T, target, align, source, n - 1);
      BufferedNext(T.buf, WritesDone(T, target, align, source, n - 1).buf, target, align, source, n - 1);
    }
  }

  lemma WritesKept(T: Tx, target: Addr, align: nat, source: seq<Word>)
    ensures var T' := WritesDone(T, target, align, source, |source|);
            && T'.ops == T.ops + WriteOps(target, align, source)
            && (align > 0 ==> Buffered(T.buf, T'.buf, target, align, source, |source|))
  {
    WritesTraced(T, target, align, source, |source|);
    assert WriteOps(target, align, source)[..|source|] == WriteOps(target, align, source);
    hide WritesDone, Buffered;
    if align > 0 {
      WritesBuffered(T, target, align, source, |source|);
    }
  }

  /** One iteration of tm_write. */
  method WriteWordTo(r: Region, tx: Transaction, a: Addr, w: Word)
    requires r.Valid() && tx.id < |r.world.txns| && tx.Holds(r.world.txns[tx.id])
    requires r.world.txns[tx.id].pc.Active? && !tx.isRo
    modifies r.Footprint(), tx.writeSet, tx.writeSet.nodes
    ensures r.Valid() && r.Became(tx.id, WriteTx(old(r.world.txns[tx.id]), a, w)) && tx.Holds(r.world.txns[tx.id])
    ensures fresh(set n | n in tx.writeSet.nodes && n !in old(tx.writeSet.nodes))
  {
    hide Region.Valid, Region.Undisturbed, Region.Stepped, SameShared, Fold, WriteSet.EntriesOf;
    hide WriteSet.Valid, WriteSet.Addresses, WriteSet.Contents, ReadSet.Valid, ReadSet.Addresses;
    tx.writeSet.Put(a, w);
    r.Buffer(tx.id, a, w);
  }

  /** Writes consecutive words into the buffer: each is added to what the transaction did, in order, and
      is the buffered value of its address from then on, written before or not. */
  method TmWrite(r: Region, tx: Transaction, align: nat, source: seq<Word>, target: Addr) returns (ok: bool)
    requires r.Valid() && tx.id < |r.world.txns| && tx.Holds(r.world.txns[tx.id])
    requires r.world.txns[tx.id].pc.Active? && !tx.isRo && |source| > 0
    modifies r.Footprint(), tx.writeSet, tx.writeSet.nodes
    ensures ok && r.Valid() && tx.id < |r.world.txns| && tx.Holds(r.world.txns[tx.id])
    ensures r.Became(tx.id, WritesDone(old(r.world.txns[tx.id]), target, align, source, |source|))
    ensures r.world.txns[tx.id].ops == old(r.world.txns[tx.id]).ops + WriteOps(target, align, source)
    ensures align > 0 ==>
              Buffered(old(tx.writeSet.Contents()), tx.writeSet.Contents(), target, align, source, |source|)
    ensures fresh(set n | n in tx.writeSet.nodes && n !in old(tx.writeSet.nodes))
  {
    hide Region.Valid, Region.Undisturbed, Region.Stepped, SameShared, Transaction.Holds, WritesDone;
    hide Buffered, WriteOps, WriteTx, Fold, WriteSet.EntriesOf, WriteSet.Contents;
    ghost var T := r.world.txns[tx.id];
    HoldsContents(tx, T);
    WritesNothing(T, target, align, source);
    var targetWord, n, more := target, 0, true;
    while more
      invariant r.Valid() && targetWord == target + align * n
      invariant n <= |source| && (more <==> n < |source|)
      invariant r.Became(tx.id, WritesDone(T, target, align, source, n)) &&
          tx.Holds(WritesDone(T, target, align, source, n))
      invariant WritesDone(T, target, align, source, n).pc.Active?
      invariant fresh(set n | n in tx.writeSet.nodes && n !in old(tx.writeSet.nodes))
      decreases |source| - n
    {
      WritesDoneNext(T, target, align, source, n, targetWord);
      WriteWordTo(r, tx, targetWord, source[n]);
      targetWord := targetWord + align;
      n := n + 1;
      more := n < |source|;
    }
    WritesKept(T, target, align, source);
    HoldsContents(tx, WritesDone(T, target, align, source, |source|));
    return true;
  }

  lemma HoldsContents(tx: Transaction, T: Tx)
    requires tx.Holds(T)
    ensures tx.writeSet.Contents() == T.buf
  {
  }

  /** A transaction that finished alone committed exactly when it had a lock for every word. */
  lemma FinishedAlone(r: Region, t: TxId)
    requires r.Valid() && r.Undisturbed(t) && Finished(r.world.txns[t])
    ensures r.world.txns[t].pc.Committed? <==> StripesDistinct(r.world.txns[t].ws, |r.world.txns[t].ws|)
  {
    RunInv(r.states, r.events, |r.states| - 1);
    assert Shape(r.world.txns[t], r.world.clock);
    if !r.world.txns[t].ro {
      SoloOutcome(r.world, t);
    }
  }

  /** Validates the reads, unless no other transaction drew a version since this one began; gives
      the locks back when that fails. */
  method CheckReads(r: Region, tx: Transaction, wv: nat) returns (ok: bool)
    requires r.Valid() && tx.id < |r.world.txns| && tx.Holds(r.world.txns[tx.id])
    requires var T := r.world.txns[tx.id]; T.pc == Validating(if wv == T.rv + 1 then |T.rs| else 0, false)
    modifies r.Footprint()
    ensures r.Valid() && tx.id < |r.world.txns|
    ensures var T := old(r.world.txns[tx.id]);
            r.Became(tx.id, T.(pc := if ok then Validating(|T.rs|, false) else Aborted))
    ensures ok <==> !RefusedSince(r, |old(r.events)|, tx.id)
  {
    hide Region.Valid, Region.Undisturbed, Region.Stepped, SameShared, Fold, WriteSet.EntriesOf;
    hide WriteSet.Valid, WriteSet.Addresses, WriteSet.Contents, ReadSet.Valid, ReadSet.Addresses;
    hide RefusedSince, Going;
    ghost var states, events := r.states, r.events;
    Calls(r, tx.id);
    if wv != tx.rv + 1 {
      ok := ValidateReadSet(r, tx.id, tx.readSet, tx.rv);
      if !ok {
        UnlockWriteSet(r, tx.id, tx.writeSet, null);
        Answered(r, tx.id, states, events);
        return false;
      }
    }
    Answered(r, tx.id, states, events);
    return true;
  }

  /** The decision to commit, and the stores that follow it. */
  method CommitWrites(r: Region, tx: Transaction, wv: nat)
    requires r.Valid() && tx.id < |r.world.txns| && tx.Holds(r.world.txns[tx.id]) && wv == r.world.txns[tx.id].wv
    requires r.world.txns[tx.id].pc == Validating(|r.world.txns[tx.id].rs|, false)
    modifies r.Footprint()
    ensures r.Valid() && r.Became(tx.id, old(r.world.txns[tx.id]).(pc := Committed))
  {
    hide Region.Valid, Region.Undisturbed, Region.Stepped, SameShared, Fold, WriteSet.EntriesOf;
    hide WriteSet.Valid, WriteSet.Addresses, WriteSet.Contents, ReadSet.Valid, ReadSet.Addresses;
    r.Settle(tx.id);
    StoreWriteSet(r, tx.id, tx.writeSet, wv);
  }

  /** The rest of tm_end once the locks are taken. */
  method EndLocked(r: Region, tx: Transaction) returns (ok: bool)
    requires r.Valid() && tx.id < |r.world.txns| && tx.Holds(r.world.txns[tx.id])
    requires r.world.txns[tx.id].pc == Locking(|r.world.txns[tx.id].ws|, 0, false)
    modifies r.Footprint()
    ensures r.Valid() && tx.id < |r.world.txns|
    ensures var T := old(r.world.txns[tx.id]);
            r.Became(tx.id, T.(pc := if ok then Committed else Aborted, wv := r.world.txns[tx.id].wv))
  {
    hide Region.Valid, Region.Undisturbed, Region.Stepped, SameShared, Fold, WriteSet.EntriesOf;
    hide WriteSet.Valid, WriteSet.Addresses, WriteSet.Contents, ReadSet.Valid, ReadSet.Addresses;
    var wv := r.IncrementClock(tx.id);
    ok := CheckReads(r, tx, wv);
    if !ok {
      return false;
    }
    CommitWrites(r, tx, wv);
    return true;
  }

  /** Ends a transaction: whether it committed, which it does unless one of its accesses was refused.
      Alone in the region, it commits exactly when no two of the words it wrote share a lock. */
  method TmEnd(r: Region, tx: Transaction) returns (ok: bool)
    requires r.Valid() && tx.id < |r.world.txns| && tx.Holds(r.world.txns[tx.id]) && r.world.txns[tx.id].pc.Active?
    modifies r.Footprint()
    ensures r.Valid() && tx.id < |r.world.txns|
    ensures var T := old(r.world.txns[tx.id]);
            r.Became(tx.id, T.(pc := if ok then Committed else Aborted, wv := r.world.txns[tx.id].wv))
    ensures tx.isRo ==> ok
    ensures ok <==> !RefusedSince(r, |old(r.events)|, tx.id)
    ensures old(r.Undisturbed(tx.id)) ==> (ok <==> StripesDistinct(old(r.world.txns[tx.id]).ws,
             |old(r.world.txns[tx.id]).ws|))
  {
    hide Region.Valid, Region.Undisturbed, Region.Stepped, SameShared, Fold, WriteSet.EntriesOf;
    hide WriteSet.Valid, WriteSet.Addresses, WriteSet.Contents, ReadSet.Valid, ReadSet.Addresses;
    hide RefusedSince, Going;
    ghost var states, events := r.states, r.events;
    Calls(r, tx.id);
    ok := true;
    r.StartEnd(tx.id);
    if !tx.isRo {
      ok := LockWriteSet(r, tx.id, tx.writeSet);
      if ok {
        ok := EndLocked(r, tx);
      }
    }
    Answered(r, tx.id, states, events);
    if r.Undisturbed(tx.id) {
      FinishedAlone(r, tx.id);
    }
  }

  // ---------------------------------------------------------------- what the lists mean

  /** Whatever calls a transaction made, its write list denotes the last value written to each
      address, a read from the buffer returned that value, and every other word that a read-write
      transaction read is in its read list. */
  lemma ListsMean(r: Region, tx: Transaction)
    requires r.Valid() && tx.id < |r.world.txns| && tx.Holds(r.world.txns[tx.id])
    ensures var ops := r.world.txns[tx.id].ops;
            && tx.writeSet.Contents() == Writes(ops)
            && forall n :: 0 <= n < |ops| && ops[n].Read? ==>
                 if ops[n].own then ops[n].a in Writes(ops[..n]) && ops[n].w == Writes(ops[..n])[ops[n].a]
                 else ops[n].a !in Writes(ops[..n]) && (tx.isRo || ops[n].a in tx.readSet.Addresses())
  {
    RunFullInv(r.states, r.events, |r.states| - 1);
    var T := r.world.txns[tx.id];
    assert TraceOk(T);
    forall n | 0 <= n < |T.ops| && T.ops[n].Read?
      ensures if T.ops[n].own then T.ops[n].a in Writes(T.ops[..n]) && T.ops[n].w == Writes(T.ops[..n])[T.ops[n].a]
              else T.ops[n].a !in Writes(T.ops[..n])
    {
      assert OwnOk(T.ops, n);
    }
  }

  /** What any number of threads running this code leave in the shared objects: the transactions that
      took effect replay, in version order, on the coarse-lock implementation exactly when none
      of them took a stale value, and at every word whose lock bit is clear the replay leaves what is
      in memory. */
  lemma CodeIsSerializable(r: Region, order: seq<TxId>)
    requires r.Valid() && SerialOrder(r.world, order)
    ensures |r.states| > 0 && |r.world.hist| > 0 && r.world.hist[0] == r.states[0].mem
    ensures SerialReplays(r.world, order) <==>
              forall n :: 0 <= n < |order| ==> !HasStale(r.world, r.world.txns[order[n]])
    ensures forall a :: !r.lock.bits[FindLock(a)] ==> Lookup(MemAfter(r.world, order), a) == Lookup(r.memory, a)
  {
    var last := |r.states| - 1;
    hide IsRun, SerialOrder, HasStale, SerialReplays;
    Serializable(r.states, r.events, last, order);
    forall a | !r.lock.bits[FindLock(a)] ensures Lookup(MemAfter(r.world, order), a) == Lookup(r.memory, a) {
      SerialMemory(r.states, r.events, last, order, a);
    }
  }
}
