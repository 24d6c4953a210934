/** Runs made step by step, for the schedules that show what the code can do. */
module Stretches {
  import opened Striping
  import opened Sequences
  import opened Tl2
  import opened Tl2Invariant

  /** A run and a longer one. */
  ghost predicate Goes(states: seq<State>, events: seq<Event>, states': seq<State>, events': seq<Event>) {
    IsRun(states', events') && states <= states' && events <= events'
  }

  lemma Go(states: seq<State>, events: seq<Event>, e: Event) returns (states': seq<State>, events': seq<Event>)
    requires IsRun(states, events) && Enabled(Last(states), e)
    ensures Goes(states, events, states', events') && Shapes(Last(states)) && Last(states') == Next(Last(states), e)
  {
    Extend(states, events, e);
    states', events' := states + [Next(Last(states), e)], events + [e];
  }

  /** The run that has yet to begin. */
  lemma Start(m: Memory, first: Segment) returns (states: seq<State>, events: seq<Event>)
    ensures IsRun(states, events) && states == [Init(m, first)]
  {
    states, events := [Init(m, first)], [];
    assert states[0] == Init(m, first);
  }

  // ---------------------------------------------------------------- whole calls, undisturbed

  function ReadTx(s: State, T: Tx, a: Addr): Tx {
    T.(rs := if T.ro then T.rs else T.rs + [a], ops := T.ops + [Read(a, Lookup(s.mem, a), false, T.rv)])
  }

  /** A copy, made under no matter which lock, that is accepted. */
  lemma GoAccept(states: seq<State>, events: seq<Event>, t: TxId)
      returns (states': seq<State>, events': seq<Event>)
    requires IsRun(states, events) && t < |Last(states).txns| && Sized(Last(states))
    requires var s, T := Last(states), Last(states).txns[t];
             T.pc.Copied? && FindLock(T.pc.a) !in s.locks && s.version[FindLock(T.pc.a)] <= T.rv
    ensures Goes(states, events, states', events')
    ensures var s, T := Last(states), Last(states).txns[t];
            Last(states') == SetTx(s, t, T.(pc := Active, ops := T.ops + [Read(T.pc.a, T.pc.w, T.pc.own, T.pc.asof)]))
  {
    hide IsRun, Shapes;
    states', events' := Go(states, events, Advance(t));
    states', events' := Go(states', events', Advance(t));
  }

  /** A whole read of a word that is free and not newer than the reader. */
  lemma GoRead(states: seq<State>, events: seq<Event>, t: TxId, a: Addr)
      returns (states': seq<State>, events': seq<Event>)
    requires IsRun(states, events) && t < |Last(states).txns| && Sized(Last(states))
    requires var s, T := Last(states), Last(states).txns[t];
             T.pc.Active? && (T.ro || a !in T.buf) && FindLock(a) !in s.locks && s.version[FindLock(a)] <= T.rv
    ensures Goes(states, events, states', events')
    ensures Last(states') == SetTx(Last(states), t, ReadTx(Last(states), Last(states).txns[t], a))
  {
    hide IsRun, Shapes;
    states', events' := Go(states, events, CopyWord(t, a));
    states', events' := GoAccept(states', events', t);
  }

  /** One lock taken at the first attempt. */
  lemma GoLock(states: seq<State>, events: seq<Event>, t: TxId) returns (states': seq<State>, events': seq<Event>)
    requires IsRun(states, events) && t < |Last(states).txns|
    requires var s, T := Last(states), Last(states).txns[t];
             T.pc.Locking? && !T.pc.polling && T.pc.i < |T.ws| && FindLock(T.ws[T.pc.i]) !in s.locks
    ensures Goes(states, events, states', events')
    ensures var s, T := Last(states), Last(states).txns[t];
            Last(states') == SetPc(s, t, Locking(T.pc.i + 1, 0, false)).(locks := s.locks[FindLock(T.ws[T.pc.i]) := t])
  {
    hide IsRun, Shapes;
    states', events' := Go(states, events, Advance(t));
  }

  /** One word stored, versioned and released. */
  lemma GoStore(states: seq<State>, events: seq<Event>, t: TxId) returns (states': seq<State>, events': seq<Event>)
    requires IsRun(states, events) && t < |Last(states).txns| && Sized(Last(states))
    requires var T := Last(states).txns[t];
             T.pc.Storing? && T.pc.phase.ToStore? && T.pc.i < |T.ws| && T.ws[T.pc.i] in T.buf
    ensures Goes(states, events, states', events')
    ensures var s, T := Last(states), Last(states).txns[t];
            var a := T.ws[T.pc.i];
            Last(states') == SetPc(s, t, Storing(T.pc.i + 1, ToStore)).(
              mem := s.mem[a := T.buf[a]], version := s.version[FindLock(a) := T.wv], locks := s.locks - {FindLock(a)})
  {
    hide IsRun, Shapes;
    states', events' := Go(states, events, Advance(t));
    states', events' := Go(states', events', Advance(t));
    states', events' := Go(states', events', Advance(t));
  }
}
