/** The shared memory region in place: memory words, the clock, and the table of versioned locks,
    accessed one atomic access at a time while other threads make any steps of their own. */
module SharedRegion {
  import opened Striping
  import opened Tl2
  import opened Tl2Invariant
  import opened Tl2Trace
  import opened Tl2Progress

  // ---------------------------------------------------------------- what an access means to its transaction

  /** The transaction is about to test the lock bit of this address. */
  predicate WillTest(T: Tx, a: Addr) {
    match T.pc
    case Copied(b, _, _, _) => a == b
    case Locking(i, _, polling) => polling && i < |T.ws| && a == T.ws[i]
    case Validating(j, loaded) => !loaded && j < |T.rs| && a == T.rs[j]
    case _ => false
  }

  function TestDone(T: Tx, a: Addr, bit: bool): Tx
    requires WillTest(T, a)
  {
    match T.pc
    case Copied(_, w, own, asof) => T.(pc := if bit then Aborted else Tested(a, w, own, asof))
    case Locking(i, bound, _) => T.(pc := if bit then Backoff(i, bound) else Locking(i, bound, false))
    case Validating(j, _) => T.(pc := if bit then Unlocking(0, |T.ws|) else Validating(j, true))
  }

  /** The transaction is about to load the version of this address. */
  predicate WillLoad(T: Tx, a: Addr) {
    match T.pc
    case Tested(b, _, _, _) => a == b
    case Validating(j, loaded) => loaded && j < |T.rs| && a == T.rs[j]
    case _ => false
  }

  function LoadDone(T: Tx, a: Addr, v: nat): Tx
    requires WillLoad(T, a)
  {
    match T.pc
    case Tested(_, w, own, asof) =>
      if v > T.rv then T.(pc := Aborted) else T.(pc := Active, ops := T.ops + [Read(a, w, own, asof)])
    case Validating(j, _) => T.(pc := if v > T.rv then Unlocking(0, |T.ws|) else Validating(j + 1, false))
  }

  function CopyDone(T: Tx, a: Addr, w: Word, asof: nat): Tx {
    T.(rs := if T.ro then T.rs else T.rs + [a], pc := Copied(a, w, false, asof))
  }

  predicate WillExchange(T: Tx, a: Addr) {
    T.pc.Locking? && !T.pc.polling && T.pc.i < |T.ws| && a == T.ws[T.pc.i]
  }

  function ExchangeDone(T: Tx, bit: bool): Tx
    requires T.pc.Locking?
  {
    T.(pc := if bit then Backoff(T.pc.i, T.pc.bound) else Locking(T.pc.i + 1, 0, false))
  }

  predicate WillRelease(T: Tx, a: Addr) {
    match T.pc
    case Storing(i, phase) => phase.ToRelease? && i < |T.ws| && a == T.ws[i]
    case Unlocking(i, n) => i < n <= |T.ws| && a == T.ws[i]
    case _ => false
  }

  function ReleaseDone(T: Tx): Tx
    requires T.pc.Storing? || T.pc.Unlocking?
  {
    T.(pc := if T.pc.Storing? then Storing(T.pc.i + 1, ToStore) else Unlocking(T.pc.i + 1, T.pc.n))
  }

  predicate WillIncrement(T: Tx) {
    T.pc.Locking? && T.pc.i == |T.ws|
  }

  function IncrementDone(T: Tx, wv: nat): Tx {
    T.(wv := wv, pc := Validating(if wv == T.rv + 1 then |T.rs| else 0, false))
  }

  /** The next step of the transaction touches nothing shared: it decides, or it finishes. */
  predicate WillSettle(T: Tx) {
    match T.pc
    case Validating(j, _) => j == |T.rs|
    case Storing(i, _) => i == |T.ws|
    case Unlocking(i, n) => i >= n
    case _ => false
  }

  function SettleDone(T: Tx): Tx {
    T.(pc := match T.pc
             case Validating(_, _) => Storing(0, ToStore)
             case Storing(_, _) => Committed
             case _ => Aborted)
  }

  predicate WillStore(T: Tx, a: Addr, w: Word, phase: Phase) {
    T.pc.Storing? && T.pc.phase == phase && T.pc.i < |T.ws| && T.ws[T.pc.i] == a && a in T.buf && T.buf[a] == w
  }

  // ---------------------------------------------------------------- these are the machine's steps

  lemma TestStep(s: State, t: TxId, a: Addr)
    requires Shapes(s) && t < |s.txns| && WillTest(s.txns[t], a)
    ensures Enabled(s, Advance(t)) && Next(s, Advance(t)) == SetTx(s, t, TestDone(s.txns[t], a, FindLock(a) in s.locks))
  {
  }

  lemma LoadStep(s: State, t: TxId, a: Addr)
    requires Shapes(s) && t < |s.txns| && WillLoad(s.txns[t], a)
    ensures Enabled(s, Advance(t)) && Next(s, Advance(t)) == SetTx(s, t, LoadDone(s.txns[t], a, s.version[FindLock(a)]))
  {
  }

  lemma ExchangeStep(s: State, t: TxId, a: Addr)
    requires Shapes(s) && t < |s.txns| && WillExchange(s.txns[t], a)
    ensures Enabled(s, Advance(t))
    ensures var bit := FindLock(a) in s.locks;
            var s' := SetTx(s, t, ExchangeDone(s.txns[t], bit));
            Next(s, Advance(t)) == if bit then s' else s'.(locks := s.locks[FindLock(a) := t])
  {
  }

  lemma ReleaseStep(s: State, t: TxId, a: Addr)
    requires Shapes(s) && t < |s.txns| && WillRelease(s.txns[t], a)
    ensures Enabled(s, Advance(t))
    ensures Next(s, Advance(t)) == SetTx(s, t, ReleaseDone(s.txns[t])).(locks := s.locks - {FindLock(a)})
  {
    assert Shape(s.txns[t], s.clock);
  }

  lemma IncrementStep(s: State, t: TxId)
    requires Shapes(s) && t < |s.txns| && WillIncrement(s.txns[t])
    ensures Enabled(s, Advance(t))
    ensures var s' := Next(s, Advance(t));
            && s'.clock == s.clock + 1 && s'.mem == s.mem && s'.locks == s.locks && s'.version == s.version
            && s'.txns == s.txns[t := IncrementDone(s.txns[t], s.clock + 1)]
  {
  }

  lemma SettleStep(s: State, t: TxId)
    requires Shapes(s) && t < |s.txns| && WillSettle(s.txns[t])
    ensures Enabled(s, Advance(t))
    ensures var s' := Next(s, Advance(t));
            && s'.clock == s.clock && s'.mem == s.mem && s'.locks == s.locks && s'.version == s.version
            && s'.txns == s.txns[t := SettleDone(s.txns[t])]
  {
    assert Shape(s.txns[t], s.clock);
  }

  lemma StoreStep(s: State, t: TxId, a: Addr, w: Word)
    requires Shapes(s) && t < |s.txns| && WillStore(s.txns[t], a, w, ToStore)
    ensures Enabled(s, Advance(t))
    ensures Next(s, Advance(t)) == SetPc(s, t, Storing(s.txns[t].pc.i, ToVersion)).(mem := s.mem[a := w])
  {
    assert Shape(s.txns[t], s.clock);
  }

  lemma UpdateStep(s: State, t: TxId, a: Addr, w: Word)
    requires Shapes(s) && t < |s.txns| && WillStore(s.txns[t], a, w, ToVersion)
    ensures Enabled(s, Advance(t))
    ensures Next(s, Advance(t)) ==
              SetPc(s, t, Storing(s.txns[t].pc.i, ToRelease)).(version := s.version[FindLock(a) := s.txns[t].wv])
  {
    assert Shape(s.txns[t], s.clock);
  }

  // ---------------------------------------------------------------- the recorded run

  /** Whoever takes the step, the transactions of the others stay as they are. */
  lemma OthersKeep(s: State, e: Event, me: int)
    requires Shapes(s) && Enabled(s, e) && (e.Begin? || e.t != me)
    ensures |s.txns| <= |Next(s, e).txns|
    ensures 0 <= me < |s.txns| ==> Next(s, e).txns[me] == s.txns[me]
  {
    if !e.Begin? {
      NextTx(s, e);
    }
  }

  /** The state after the first n events of a script, those that are not possible, or not for the
      others to make, left out. */
  ghost function RunScript(s: State, script: seq<Event>, n: nat, me: int): State
    requires n <= |script|
  {
    if n == 0 then s
    else
      var s', e := RunScript(s, script, n - 1, me), script[n - 1];
      if Shapes(s') && Enabled(s', e) && (e.Begin? || e.t != me) then Next(s', e) else s'
  }

  /** The words, the clock and the lock table are the same, but for what is listed. */
  ghost predicate SameShared(s: State, s': State) {
    s'.mem == s.mem && s'.clock == s.clock && s'.locks == s.locks && s'.version == s.version
  }

  class SharedLock {
    var clock: nat
    const bits: array<bool>
    const version: array<nat>

    /** Clock zero, every lock free, every version zero. */
    constructor ()
      ensures fresh(bits) && fresh(version) && bits.Length == NUM_LOCKS == version.Length && clock == 0
      ensures (forall k :: 0 <= k < NUM_LOCKS ==> !bits[k]) && version[..] == seq(NUM_LOCKS, _ => 0)
    {
      clock := 0;
      bits := new bool[NUM_LOCKS](_ => false);
      version := new nat[NUM_LOCKS](_ => 0);
    }
  }

  /** `world` and `schedule` stand for the other threads: `world` is the state of the transition
      system, which holds their transactions, and before our n-th access they make the events of
      `schedule[n]`, as far as these are possible. Our own code only tells `world` which step it
      takes. `states` and `events` record the run. */
  class Region {
    const lock: SharedLock
    var memory: Memory
    var world: State
    var schedule: seq<seq<Event>>
    ghost var states: seq<State>
    ghost var events: seq<Event>

    ghost function Footprint(): set<object> {
      {this, lock, lock.bits, lock.version}
    }

    ghost predicate Recorded()
      reads this
    {
      IsRun(states, events) && world == states[|states| - 1]
    }

    /** The shared objects hold what the transition system says. */
    ghost predicate Mirrored()
      reads this, lock, lock.bits, lock.version
    {
      && lock.bits.Length == NUM_LOCKS == lock.version.Length
      && memory == world.mem && lock.clock == world.clock && lock.version[..] == world.version
      && forall k :: 0 <= k < NUM_LOCKS ==> (lock.bits[k] <==> k in world.locks)
    }

    ghost predicate Valid()
      reads this, lock, lock.bits, lock.version
    {
      Recorded() && Mirrored()
    }

    /** Nobody else does anything from now on, and nobody else has a transaction in flight. */
    ghost predicate Undisturbed(t: TxId)
      reads this
    {
      schedule == [] && Solo(world, t)
    }

    /** The state in which the next access of `me` finds the region. */
    ghost function AfterOthers(me: int): State
      reads this
    {
      if schedule == [] then world else RunScript(world, schedule[0], |schedule[0]|, me)
    }

    ghost function Rest(): seq<seq<Event>>
      reads this
    {
      if schedule == [] then [] else schedule[1..]
    }

    /** The others made their steps, and then this one was made; nothing else. */
    twostate predicate Stepped(me: int, e: Event)
      reads this
    {
      var s := old(AfterOthers(me));
      schedule == old(Rest()) && Shapes(s) && Enabled(s, e) && world == Next(s, e)
    }

    /** The run went on since, and this transaction is now that. */
    twostate predicate Became(t: TxId, T: Tx)
      reads this
    {
      && old(states) <= states && old(events) <= events
      && t < |world.txns| && world.txns[t] == T
      && (old(Undisturbed(t)) ==> Undisturbed(t))
    }

    constructor (memory: Memory, first: Segment, schedule: seq<seq<Event>>)
      ensures Valid() && fresh(Footprint()) && world == Init(memory, first)
    {
      this.memory := memory;
      this.schedule := schedule;
      lock := new SharedLock();
      world := Init(memory, first);
      states := [Init(memory, first)];
      events := [];
    }

    method Record(e: Event)
      requires Recorded() && Enabled(world, e)
      modifies `world, `states, `events
      ensures Recorded() && Shapes(old(world)) && world == Next(old(world), e)
      ensures states == old(states) + [world] && events == old(events) + [e]
    {
      Extend(states, events, e);
      world := Next(world, e);
      states, events := states + [world], events + [e];
    }

    /** Copies the shared part of `world` into the shared objects. */
    method Publish()
      requires Recorded() && lock.bits.Length == NUM_LOCKS == lock.version.Length
      modifies `memory, lock, lock.bits, lock.version
      ensures Valid()
    {
      RunInv(states, events, |states| - 1);
      memory := world.mem;
      lock.clock := world.clock;
      forall k | 0 <= k < NUM_LOCKS {
        lock.bits[k] := k in world.locks;
      }
      forall k | 0 <= k < NUM_LOCKS {
        lock.version[k] := world.version[k];
      }
    }

    /** The events of a script, as far as they are possible and not those of `me`. */
    method Play(script: seq<Event>, me: int)
      requires Recorded()
      modifies `world, `states, `events
      ensures Recorded() && old(states) <= states && old(events) <= events
      ensures world == RunScript(old(world), script, |script|, me)
      ensures |old(world.txns)| <= |world.txns| &&
               (0 <= me < |old(world.txns)| ==> world.txns[me] == old(world.txns[me]))
    {
      hide IsRun, Next, Enabled;
      for n := 0 to |script|
        invariant Recorded() && old(states) <= states && old(events) <= events
        invariant world == RunScript(old(world), script, n, me)
        invariant |old(world.txns)| <= |world.txns| &&
            (0 <= me < |old(world.txns)| ==> world.txns[me] == old(world.txns[me]))
      {
        Reached();
        if Enabled(world, script[n]) && (script[n].Begin? || script[n].t != me) {
          OthersKeep(world, script[n], me);
          Record(script[n]);
        }
      }
    }

    lemma Reached()
      requires Recorded()
      ensures Shapes(world)
    {
      RunInv(states, events, |states| - 1);
    }

    /** What the others do before the next access of `me` (-1: of a transaction not begun yet). */
    method Others(me: int)
      requires Valid()
      modifies Footprint()
      ensures Valid() && old(states) <= states && old(events) <= events
      ensures |old(world.txns)| <= |world.txns| &&
               (0 <= me < |old(world.txns)| ==> world.txns[me] == old(world.txns[me]))
      ensures schedule == old(Rest()) && world == old(AfterOthers(me)) && Shapes(world)
      ensures old(schedule) == [] ==> unchanged(this, lock, lock.bits, lock.version)
    {
      Reached();
      if schedule == [] {
        return;
      }
      var script := schedule[0];
      schedule := schedule[1..];
      Play(script, me);
      Reached();
      Publish();
    }

    /** A step of our own transaction, or a call of its client. */
    method Own(t: TxId, e: Event)
      requires Recorded() && Enabled(world, e) && !e.Begin? && e.t == t
      modifies `world, `states, `events
      ensures Recorded() && Shapes(old(world)) && world == Next(old(world), e)
      ensures old(states) <= states && old(events) <= events
      ensures old(Undisturbed(t)) ==> Undisturbed(t)
      ensures old(Undisturbed(t)) && Reading(old(world.txns[t])) ==> !world.txns[t].pc.Aborted?
    {
      ghost var s := world;
      RunInv(states, events, |states| - 1);
      Record(e);
      if Solo(s, t) {
        SoloStep(s, e, t);
        if Reading(s.txns[t]) {
          SoloReading(s, t);
        }
      }
    }

    // -------------------------------------------------------------- atomic accesses of transaction t

    /** Load of the lock bit of an address. */
    method TestBit(t: TxId, a: Addr) returns (bit: bool)
      requires Valid() && t < |world.txns| && WillTest(world.txns[t], a)
      modifies Footprint()
      ensures Stepped(t, Advance(t))
      ensures (bit <==> FindLock(a) in old(AfterOthers(t)).locks) && SameShared(old(AfterOthers(t)), world)
      ensures Valid() && Became(t, TestDone(old(world.txns[t]), a, bit))
      ensures old(Undisturbed(t)) && Reading(old(world.txns[t])) ==> !world.txns[t].pc.Aborted?
    {
      hide IsRun, Next, Shapes, Solo;
      Others(t);
      bit := lock.bits[FindLock(a)];
      Reached();
      TestStep(world, t, a);
      Own(t, Advance(t));
    }

    /** Load of the version of an address. */
    method LoadVersion(t: TxId, a: Addr) returns (v: nat)
      requires Valid() && t < |world.txns| && WillLoad(world.txns[t], a)
      modifies Footprint()
      ensures Stepped(t, Advance(t))
      ensures |old(AfterOthers(t)).version| == NUM_LOCKS && v == old(AfterOthers(t)).version[FindLock(a)]
      ensures SameShared(old(AfterOthers(t)), world)
      ensures Valid() && Became(t, LoadDone(old(world.txns[t]), a, v))
      ensures old(Undisturbed(t)) && Reading(old(world.txns[t])) ==> !world.txns[t].pc.Aborted?
    {
      hide IsRun, Next, Shapes, Solo;
      Others(t);
      v := lock.version[FindLock(a)];
      Reached();
      LoadStep(world, t, a);
      Own(t, Advance(t));
    }

    /** Atomic exchange that sets the lock bit of an address. */
    method Exchange(t: TxId, a: Addr) returns (bit: bool)
      requires Valid() && t < |world.txns| && WillExchange(world.txns[t], a)
      modifies Footprint()
      ensures Stepped(t, Advance(t))
      ensures var s := old(AfterOthers(t));
              && (bit <==> FindLock(a) in s.locks)
              && SameShared(if bit then s else s.(locks := s.locks[FindLock(a) := t]), world)
      ensures Valid() && Became(t, ExchangeDone(old(world.txns[t]), bit))
    {
      hide IsRun, Next, Shapes, Solo;
      Others(t);
      var k := FindLock(a);
      bit := lock.bits[k];
      lock.bits[k] := true;
      Reached();
      ExchangeStep(world, t, a);
      Own(t, Advance(t));
    }

    /** Store that clears the lock bit of an address. */
    method ClearBit(t: TxId, a: Addr)
      requires Valid() && t < |world.txns| && WillRelease(world.txns[t], a)
      modifies Footprint()
      ensures Stepped(t, Advance(t))
      ensures var s := old(AfterOthers(t)); SameShared(s.(locks := s.locks - {FindLock(a)}), world)
      ensures Valid() && Became(t, ReleaseDone(old(world.txns[t])))
      ensures old(schedule) == [] ==> schedule == [] && memory == old(memory)
    {
      hide IsRun, Next, Shapes, Solo;
      Others(t);
      lock.bits[FindLock(a)] := false;
      Reached();
      ReleaseStep(world, t, a);
      Own(t, Advance(t));
    }

    /** Store of the version of an address. */
    method StoreVersion(t: TxId, a: Addr, ghost w: Word, v: nat)
      requires Valid() && t < |world.txns| && WillStore(world.txns[t], a, w, ToVersion) && v == world.txns[t].wv
      modifies Footprint()
      ensures Stepped(t, Advance(t))
      ensures var s := old(AfterOthers(t));
              |s.version| == NUM_LOCKS && SameShared(s.(version := s.version[FindLock(a) := v]), world)
      ensures Valid() && Became(t, old(world.txns[t]).(pc := Storing(old(world.txns[t]).pc.i, ToRelease)))
      ensures old(schedule) == [] ==> schedule == [] && memory == old(memory)
    {
      hide IsRun, Next, Shapes, Solo;
      Others(t);
      lock.version[FindLock(a)] := v;
      Reached();
      UpdateStep(world, t, a, w);
      Own(t, Advance(t));
    }

    /** Atomic increment of the clock. */
    method IncrementClock(t: TxId) returns (wv: nat)
      requires Valid() && t < |world.txns| && WillIncrement(world.txns[t])
      modifies Footprint()
      ensures Stepped(t, Advance(t))
      ensures var s := old(AfterOthers(t)); wv == s.clock + 1 && SameShared(s.(clock := wv), world)
      ensures Valid() && Became(t, IncrementDone(old(world.txns[t]), wv))
    {
      hide IsRun, Next, Shapes, Solo;
      Others(t);
      lock.clock := lock.clock + 1;
      wv := lock.clock;
      Reached();
      IncrementStep(world, t);
      Own(t, Advance(t));
    }

    /** Copy of one word into shared memory. */
    method StoreWord(t: TxId, a: Addr, w: Word)
      requires Valid() && t < |world.txns| && WillStore(world.txns[t], a, w, ToStore)
      modifies Footprint()
      ensures Stepped(t, Advance(t))
      ensures var s := old(AfterOthers(t)); SameShared(s.(mem := s.mem[a := w]), world)
      ensures Valid() && Became(t, old(world.txns[t]).(pc := Storing(old(world.txns[t]).pc.i, ToVersion)))
      ensures old(schedule) == [] ==> schedule == [] && memory == old(memory)[a := w]
    {
      hide IsRun, Next, Shapes, Solo;
      Others(t);
      memory := memory[a := w];
      Reached();
      StoreStep(world, t, a, w);
      Own(t, Advance(t));
    }

    /** No access: the transaction decides to commit, or its tm_end returns. */
    method Settle(t: TxId)
      requires Valid() && t < |world.txns| && WillSettle(world.txns[t])
      modifies Footprint()
      ensures Valid() && Became(t, SettleDone(old(world.txns[t])))
      ensures schedule == old(schedule) && memory == old(memory)
    {
      hide IsRun, Next, Shapes, Solo;
      Reached();
      SettleStep(world, t);
      Own(t, Advance(t));
    }

    /** Copy of one word out of shared memory. `asof` is the auxiliary version of the value. */
    method LoadWord(t: TxId, a: Addr) returns (w: Word, ghost asof: nat)
      requires Valid() && t < |world.txns| && world.txns[t].pc.Active? && (world.txns[t].ro || a !in world.txns[t].buf)
      modifies Footprint()
      ensures Stepped(t, CopyWord(t, a))
      ensures w == Lookup(old(AfterOthers(t)).mem, a) && SameShared(old(AfterOthers(t)), world)
      ensures Valid() && Became(t, CopyDone(old(world.txns[t]), a, w, asof))
    {
      hide IsRun, Shapes, Solo;
      Others(t);
      w := Lookup(memory, a);
      asof := AsOf(world, world.txns[t].rv, a);
      Own(t, CopyWord(t, a));
    }

    /** The same from the transaction's own write buffer: no access. */
    method TakeOwn(t: TxId, a: Addr)
      requires Valid() && t < |world.txns| && world.txns[t].pc.Active? && !world.txns[t].ro && a in world.txns[t].buf
      modifies Footprint()
      ensures Valid() && var T := old(world.txns[t]); Became(t, T.(pc := Copied(a, T.buf[a], true, T.rv)))
    {
      hide IsRun, Shapes, Solo;
      Own(t, CopyWord(t, a));
    }

    /** The client's write of one word, kept in the transaction's buffer: no access. */
    method Buffer(t: TxId, a: Addr, w: Word)
      requires Valid() && t < |world.txns| && world.txns[t].pc.Active? && !world.txns[t].ro
      modifies Footprint()
      ensures Valid() && Became(t, WriteTx(old(world.txns[t]), a, w))
    {
      hide IsRun, Shapes, Solo;
      Own(t, WriteWord(t, a, w));
    }

    /** The client's call of tm_end: no access. */
    method StartEnd(t: TxId)
      requires Valid() && t < |world.txns| && world.txns[t].pc.Active?
      modifies Footprint()
      ensures Valid() && Became(t, EndTx(old(world.txns[t])))
    {
      hide IsRun, Shapes, Solo;
      Own(t, End(t));
    }

    /** Load of the clock by a transaction that begins. */
    method LoadClock(ro: bool) returns (rv: nat, t: TxId)
      requires Valid()
      modifies Footprint()
      ensures Stepped(-1, Begin(ro))
      ensures rv == old(AfterOthers(-1)).clock && SameShared(old(AfterOthers(-1)), world)
      ensures Valid() && old(states) <= states && old(events) <= events
      ensures |old(world.txns)| <= t == |world.txns| - 1 && world.txns[t] == Tx(ro, rv, [], [], map[], 0, Active, [])
      ensures old(schedule) == [] && (forall u :: 0 <= u < |old(world.txns)| ==> Finished(old(world.txns[u]))) ==>
                Undisturbed(t)
    {
      hide IsRun;
      Others(-1);
      rv := lock.clock;
      Record(Begin(ro));
      t := |world.txns| - 1;
    }
  }
}
