/** The spin barrier of the grading harness: one counter and one mode, reused round after round by
    any number of threads. Every atomic access is a step of its own. */
module Barrier {
  import opened Counting

  datatype Pc =
    | Outside      // not in sync
    | Opening      // entered last, about to set the mode to leave
    | AwaitLeave   // entered, spinning until the mode is leave
    | Departing    // about to decrement the counter
    | Closing      // left last, about to set the mode to enter
    | AwaitEnter   // left, spinning until the mode is enter

  /** `entered` and `returned` count the calls of sync. */
  datatype Thread = Thread(pc: Pc, entered: nat, returned: nat)

  /** `leave` is the mode; `round` is auxiliary and counts how often it was set back to enter. */
  datatype State = State(step: int, leave: bool, round: nat, threads: seq<Thread>)

  function Init(n: nat): State {
    State(0, false, 0, seq(n, _ => Thread(Outside, 0, 0)))
  }

  function Put(s: State, i: nat, T: Thread): State
    requires i < |s.threads|
  {
    s.(threads := s.threads[i := T])
  }

  /** The next access of thread i. */
  function Next(s: State, i: nat): State
    requires i < |s.threads|
  {
    var T := s.threads[i];
    match T.pc
    case Outside =>
      var pc := if s.step + 1 == |s.threads| then Opening else AwaitLeave;
      Put(s, i, Thread(pc, T.entered + 1, T.returned)).(step := s.step + 1)
    case Opening => Put(s, i, T.(pc := Departing)).(leave := true)
    case AwaitLeave => if s.leave then Put(s, i, T.(pc := Departing)) else s
    case Departing => Put(s, i, T.(pc := if s.step - 1 == 0 then Closing else AwaitEnter)).(step := s.step - 1)
    case Closing => Put(s, i, T.(pc := Outside, returned := T.returned + 1)).(leave := false, round := s.round + 1)
    case AwaitEnter => if !s.leave then Put(s, i, T.(pc := Outside, returned := T.returned + 1)) else s
  }

  /** The access is not one more turn of a spin loop. */
  predicate Moves(s: State, i: int) {
    0 <= i < |s.threads| && (s.threads[i].pc.AwaitLeave? ==> s.leave) && (s.threads[i].pc.AwaitEnter? ==> !s.leave)
  }

  ghost predicate IsRun(n: nat, states: seq<State>, schedule: seq<nat>) {
    && |states| == |schedule| + 1 && states[0] == Init(n)
    && forall k :: 0 <= k < |schedule| ==>
         schedule[k] < n && |states[k].threads| == n && states[k + 1] == Next(states[k], schedule[k])
  }

  // ---------------------------------------------------------------- the invariant

  /** The thread is counted in `step`. */
  predicate InStep(T: Thread) {
    T.pc.Opening? || T.pc.AwaitLeave? || T.pc.Departing?
  }

  /** Where a thread may be in this mode, and how far its calls are. */
  predicate ThreadOk(T: Thread, leave: bool, round: nat) {
    if leave then
      T.entered == round + 1 && T.returned == round && !T.pc.Outside? && !T.pc.Opening?
    else if T.pc.Outside? then T.entered == round == T.returned
    else if T.pc.AwaitEnter? then T.entered == round == T.returned + 1
    else (T.pc.Opening? || T.pc.AwaitLeave?) && T.entered == round + 1 && T.returned == round
  }

  /** The thread is about to turn the mode. */
  predicate Turns(T: Thread) {
    T.pc.Opening? || T.pc.Closing?
  }

  /** The threads that entered or did not leave yet are counted, and as soon as all or none are, one
      of them, and only one, turns the mode. */
  ghost predicate Inv(s: State) {
    && |s.threads| > 0
    && s.step == Count(s.threads, InStep)
    && (forall i :: 0 <= i < |s.threads| ==> ThreadOk(s.threads[i], s.leave, s.round))
    && (forall i, j :: 0 <= i < j < |s.threads| ==> !(Turns(s.threads[i]) && Turns(s.threads[j])))
    && (s.step == (if s.leave then 0 else |s.threads|) <==> exists i :: 0 <= i < |s.threads| && Turns(s.threads[i]))
  }

  lemma {:induction false} InitCount(n: nat)
    ensures Count(seq(n, _ => Thread(Outside, 0, 0)), InStep) == 0
  {
    CountZero(seq(n, _ => Thread(Outside, 0, 0)), InStep);
  }

  lemma StepCount(s: State, i: nat)
    requires Inv(s) && i < |s.threads|
    ensures Next(s, i).step == Count(Next(s, i).threads, InStep)
  {
    CountUpdate(s.threads, i, Next(s, i).threads[i], InStep);
  }

  lemma Enter(s: State, i: nat)
    requires Inv(s) && i < |s.threads| && s.threads[i].pc.Outside?
    ensures Inv(Next(s, i))
  {
    StepCount(s, i);
    CountFull(s.threads, InStep);
    assert s.step < |s.threads|;
    assert forall j :: 0 <= j < |s.threads| ==> !Turns(s.threads[j]);
    assert Next(s, i).threads[i].pc.Opening? <==> s.step + 1 == |s.threads|;
  }

  lemma Open(s: State, i: nat)
    requires Inv(s) && i < |s.threads| && s.threads[i].pc.Opening?
    ensures Inv(Next(s, i))
  {
    StepCount(s, i);
    CountFull(s.threads, InStep);
    assert s.step == |s.threads|;
    forall j | 0 <= j < |s.threads| ensures InStep(s.threads[j]) && (j != i ==> s.threads[j].pc.AwaitLeave?) {
      assert ThreadOk(s.threads[j], s.leave, s.round);
    }
  }

  lemma Depart(s: State, i: nat)
    requires Inv(s) && i < |s.threads| && s.threads[i].pc.Departing?
    ensures Inv(Next(s, i))
  {
    StepCount(s, i);
    CountZero(s.threads, InStep);
    assert ThreadOk(s.threads[i], s.leave, s.round);
    assert s.leave && s.step > 0;
    assert forall j :: 0 <= j < |s.threads| ==> !Turns(s.threads[j]);
    assert Next(s, i).threads[i].pc.Closing? <==> s.step - 1 == 0;
  }

  lemma Close(s: State, i: nat)
    requires Inv(s) && i < |s.threads| && s.threads[i].pc.Closing?
    ensures Inv(Next(s, i))
  {
    StepCount(s, i);
    CountZero(s.threads, InStep);
    assert ThreadOk(s.threads[i], s.leave, s.round) && Turns(s.threads[i]);
    assert s.step == 0;
    forall j | 0 <= j < |s.threads| ensures !InStep(s.threads[j]) && (j != i ==> s.threads[j].pc.AwaitEnter?) {
      assert ThreadOk(s.threads[j], s.leave, s.round);
    }
  }

  lemma Spin(s: State, i: nat)
    requires Inv(s) && i < |s.threads| && (s.threads[i].pc.AwaitLeave? || s.threads[i].pc.AwaitEnter?)
    ensures Inv(Next(s, i))
  {
    StepCount(s, i);
    var s' := Next(s, i);
    assert forall j :: 0 <= j < |s.threads| ==> (Turns(s'.threads[j]) <==> Turns(s.threads[j]));
    forall j | 0 <= j < |s.threads| ensures ThreadOk(s'.threads[j], s'.leave, s'.round) {
      assert ThreadOk(s.threads[j], s.leave, s.round);
    }
  }

  lemma NextInv(s: State, i: nat)
    requires Inv(s) && i < |s.threads|
    ensures Inv(Next(s, i))
  {
    match s.threads[i].pc
    case Outside => Enter(s, i);
    case Opening => Open(s, i);
    case Departing => Depart(s, i);
    case Closing => Close(s, i);
    case _ => Spin(s, i);
  }

  lemma {:induction false} RunInv(n: nat, states: seq<State>, schedule: seq<nat>, k: nat)
    requires IsRun(n, states, schedule) && n > 0 && k < |states|
    ensures Inv(states[k]) && |states[k].threads| == n
  {
    if k == 0 {
      InitCount(n);
    } else {
      RunInv(n, states, schedule, k - 1);
      NextInv(states[k - 1], schedule[k - 1]);
    }
  }

  // ---------------------------------------------------------------- what the barrier is for

  /** In every run, no thread returns from its m-th call before all have entered theirs, and the
      threads are never more than one call apart. */
  lemma Synchronizes(n: nat, states: seq<State>, schedule: seq<nat>, k: nat, i: nat, j: nat)
    requires IsRun(n, states, schedule) && k < |states| && i < n && j < n
    ensures |states[k].threads| == n
    ensures states[k].threads[j].entered >= states[k].threads[i].returned
    ensures -1 <= states[k].threads[i].entered - states[k].threads[j].entered <= 1
    ensures -1 <= states[k].threads[i].returned - states[k].threads[j].returned <= 1
  {
    RunInv(n, states, schedule, k);
    assert ThreadOk(states[k].threads[i], states[k].leave, states[k].round);
    assert ThreadOk(states[k].threads[j], states[k].leave, states[k].round);
  }

  /** As long as all threads keep calling sync, some thread can do more than spin. */
  lemma NeverStuck(n: nat, states: seq<State>, schedule: seq<nat>, k: nat)
    requires IsRun(n, states, schedule) && n > 0 && k < |states|
    ensures exists i :: Moves(states[k], i)
  {
    RunInv(n, states, schedule, k);
    var s := states[k];
    CountZero(s.threads, InStep);
    CountFull(s.threads, InStep);
    var i :| 0 <= i < n && (Turns(s.threads[i]) || (if s.leave then InStep(s.threads[i]) else !InStep(s.threads[i])));
    assert ThreadOk(s.threads[i], s.leave, s.round);
    assert Moves(s, i);
  }

  /** Accesses that were not spinning, among the first k. */
  function MovesUpTo(states: seq<State>, schedule: seq<nat>, k: nat): nat
    requires k <= |schedule| < |states|
  {
    if k == 0 then 0 else MovesUpTo(states, schedule, k - 1) + (if Moves(states[k - 1], schedule[k - 1]) then 1 else 0)
  }

  /** A call takes four such accesses. */
  function Rank(T: Thread): int {
    4 * T.returned +
    match T.pc
    case Outside => 0
    case Opening => 1
    case AwaitLeave => 1
    case Departing => 2
    case Closing => 3
    case AwaitEnter => 3
  }

  lemma WorkNext(s: State, i: nat)
    requires i < |s.threads|
    ensures Sum(Next(s, i).threads, Rank) == Sum(s.threads, Rank) + (if Moves(s, i) then 1 else 0)
  {
    var T' := Next(s, i).threads[i];
    assert Next(s, i).threads == s.threads[i := T'];
    SumUpdate(s.threads, i, T', Rank);
  }

  lemma {:induction false} WorkDone(n: nat, states: seq<State>, schedule: seq<nat>, k: nat)
    requires IsRun(n, states, schedule) && k < |states|
    ensures Sum(states[k].threads, Rank) == MovesUpTo(states, schedule, k)
  {
    if k == 0 {
      SumZero(states[0].threads, Rank);
    } else {
      WorkDone(n, states, schedule, k - 1);
      WorkNext(states[k - 1], schedule[k - 1]);
    }
  }

  /** Every access that is not spinning brings all threads on: after so many of them, every thread
      has returned from so many calls. */
  lemma EveryoneReturns(n: nat, states: seq<State>, schedule: seq<nat>, k: nat, i: nat)
    requires IsRun(n, states, schedule) && k < |states| && i < n
    ensures |states[k].threads| == n
    ensures MovesUpTo(states, schedule, k) <= n * (4 * states[k].threads[i].returned + 7)
  {
    RunInv(n, states, schedule, k);
    WorkDone(n, states, schedule, k);
    var s := states[k];
    assert ThreadOk(s.threads[i], s.leave, s.round);
    forall j | 0 <= j < n ensures Rank(s.threads[j]) <= 4 * s.threads[i].returned + 7 {
      assert ThreadOk(s.threads[j], s.leave, s.round);
    }
    SumBound(s.threads, Rank, 4 * s.threads[i].returned + 7);
  }
}
