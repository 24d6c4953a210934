/** The correctness check of the harness: one worker sets a counter, all decrease it, one looks for zero.
    Barrier and library together: every check but the last succeeds in every run, and the last exactly
    when no decrement took a torn value. */
module CounterCheck {
  import opened Striping
  import opened Sequences
  import opened Tl2
  import opened Snapshots
  import opened Tl2Invariant
  import opened Tl2Trace
  import opened Tl2Theorems
  import opened Serializability
  import opened Reference
  import opened Tl2Runs
  import opened ReadOrder
  import Barrier

  /** What a transaction of the region is for. The others of `check` come after all earlier ones; a
      decrement knows the transaction that fetched the last value before it. */
  datatype Job =
    | Earlier
    | SetCounter
    | CheckCounter
    | Look
    | Decrement(look: TxId)
    | CheckZero

  /** A check by n workers that starts the counter, at address `a`, with `start`: transaction t is done
      by `worker[t]` for `jobs[t]`, and `oks[t]` tells whether it found what it should. */
  datatype Session = Session(n: nat, a: Addr, start: Word, jobs: seq<Job>, worker: seq<nat>, oks: seq<bool>)

  /** How many calls of sync come before the job. */
  function Phase(job: Job): nat {
    match job
    case Earlier => 0
    case SetCounter => 1
    case CheckCounter => 1
    case Look => 2
    case Decrement(_) => 2
    case CheckZero => 3
  }

  // ---------------------------------------------------------------- one worker

  datatype Verdict = Consistent | InitViolation | StepViolation | FinalViolation

  /** What a worker does: it calls sync, or makes a transaction. */
  datatype Action = Sync | Transact(job: Job)

  /** How a look, and the decrement that goes by it, turned out. */
  datatype Step = Step(look: TxId, correct: bool)

  function Syncs(trace: seq<Action>): nat {
    if trace == [] then 0 else Syncs(trace[..|trace| - 1]) + (if Last(trace).Sync? then 1 else 0)
  }

  function Jobs(trace: seq<Action>): seq<Job> {
    if trace == [] then [] else
      Jobs(trace[..|trace| - 1]) + (if Last(trace).Sync? then [] else [Last(trace).job])
  }

  function StepJobs(steps: seq<Step>): seq<Job> {
    if steps == [] then [] else StepJobs(steps[..|steps| - 1]) + [Look, Decrement(Last(steps).look)]
  }

  /** Every transaction comes after as many calls of sync as its phase says. */
  ghost predicate Phased(trace: seq<Action>) {
    forall k :: 0 <= k < |trace| && trace[k].Transact? ==> Phase(trace[k].job) == Syncs(trace[..k])
  }

  lemma Snoc(trace: seq<Action>, action: Action)
    requires Phased(trace) && (action.Transact? ==> Phase(action.job) == Syncs(trace))
    ensures Phased(trace + [action])
    ensures Syncs(trace + [action]) == Syncs(trace) + (if action.Sync? then 1 else 0)
    ensures Jobs(trace + [action]) == Jobs(trace) + (if action.Sync? then [] else [action.job])
  {
    var trace' := trace + [action];
    assert trace'[..|trace|] == trace;
    forall k | 0 <= k < |trace'| && trace'[k].Transact? ensures Phase(trace'[k].job) == Syncs(trace'[..k]) {
      assert k < |trace| ==> trace'[..k] == trace[..k];
    }
  }

  method Act(trace: seq<Action>, action: Action) returns (trace': seq<Action>)
    requires Phased(trace) && (action.Transact? ==> Phase(action.job) == Syncs(trace))
    ensures Phased(trace') && Syncs(trace') == Syncs(trace) + (if action.Sync? then 1 else 0)
    ensures Jobs(trace') == Jobs(trace) + (if action.Sync? then [] else [action.job])
  {
    Snoc(trace, action);
    trace' := trace + [action];
  }

  ghost predicate Correct(steps: seq<Step>) {
    forall i :: 0 <= i < |steps| ==> steps[i].correct
  }

  lemma NothingYet(steps: seq<Step>)
    ensures Phased([]) && Syncs([]) == 0 && Jobs([]) == [] && StepJobs(steps[..0]) == [] && Correct(steps[..0])
  {
  }

  lemma StepsSnoc(steps: seq<Step>, k: nat)
    requires k < |steps|
    ensures StepJobs(steps[..k + 1]) == StepJobs(steps[..k]) + [Look, Decrement(steps[k].look)]
    ensures Correct(steps[..k]) && steps[k].correct ==> Correct(steps[..k + 1])
    ensures !steps[k].correct ==> !Correct(steps)
  {
    assert steps[..k + 1][..k] == steps[..k];
  }

  /** The decrements of one worker, up to the first that fails. */
  method MakeSteps(trace: seq<Action>, steps: seq<Step>) returns (trace': seq<Action>, made: nat, correct: bool)
    requires Phased(trace) && Syncs(trace) == 2
    ensures Phased(trace') && Syncs(trace') == 2 && made <= |steps|
    ensures Jobs(trace') == Jobs(trace) + StepJobs(steps[..made])
    ensures if correct then made == |steps| && Correct(steps)
            else made > 0 && !Correct(steps) && Correct(steps[..made - 1]) && !steps[made - 1].correct
  {
    trace', made := trace, 0;
    NothingYet(steps);
    hide Phased, StepJobs, Correct, Syncs, Jobs;
    while made < |steps|
      invariant 0 <= made <= |steps| && Correct(steps[..made])
      invariant Phased(trace') && Syncs(trace') == 2 && Jobs(trace') == Jobs(trace) + StepJobs(steps[..made])
    {
      trace' := Act(trace', Transact(Look));
      trace' := Act(trace', Transact(Decrement(steps[made].look)));
      StepsSnoc(steps, made);
      made := made + 1;
      if !steps[made - 1].correct {
        return trace', made, false;
      }
    }
    assert steps[..made] == steps;
    return trace', made, true;
  }

  /** The course of one worker's `check`, given how its transactions turn out; it makes `made` steps.
      Whatever goes wrong, it calls sync three times, so no other worker is left waiting, and no
      transaction comes out of its phase. */
  method Check(uid: nat, initCorrect: bool, steps: seq<Step>, finalCorrect: bool)
      returns (verdict: Verdict, trace: seq<Action>, made: nat)
    ensures Syncs(trace) == 3 && Phased(trace)
    ensures verdict == if uid == 0 && !initCorrect then InitViolation
                       else if !Correct(steps) then StepViolation
                       else if uid == 0 && !finalCorrect then FinalViolation
                       else Consistent
    ensures made <= |steps| &&
            match verdict
            case InitViolation => made == 0
            case StepViolation => made > 0 && Correct(steps[..made - 1]) && !steps[made - 1].correct
            case _ => made == |steps|
    ensures Jobs(trace) == (if uid == 0 then [SetCounter, CheckCounter] else []) + StepJobs(steps[..made]) +
                           (if uid == 0 && (verdict.Consistent? || verdict.FinalViolation?) then [CheckZero] else [])
  {
    hide Phased, StepJobs, Correct, Syncs, Jobs;
    trace, made := [], 0;
    NothingYet(steps);
    trace := Act(trace, Sync);
    if uid == 0 {
      trace := Act(trace, Transact(SetCounter));
      trace := Act(trace, Transact(CheckCounter));
      if !initCorrect {
        trace := Act(trace, Sync);
        trace := Act(trace, Sync);
        return InitViolation, trace, made;
      }
    }
    trace := Act(trace, Sync);
    var correct;
    trace, made, correct := MakeSteps(trace, steps);
    trace := Act(trace, Sync);
    if !correct {
      return StepViolation, trace, made;
    }
    if uid == 0 {
      trace := Act(trace, Transact(CheckZero));
      if !finalCorrect {
        return FinalViolation, trace, made;
      }
    }
    return Consistent, trace, made;
  }

  // ---------------------------------------------------------------- all workers

  predicate OneRead(a: Addr, ops: seq<Op>) {
    |ops| == 1 && ops[0].Read? && ops[0].a == a
  }

  /** The operations of a transaction are those of its job, with this outcome. */
  predicate Does(c: Session, txns: seq<Tx>, job: Job, ops: seq<Op>, ok: bool) {
    match job
    case Earlier => true
    case SetCounter => ops == [Write(c.a, c.start)] && ok
    case CheckCounter => OneRead(c.a, ops) && (ok <==> ops[0].w == c.start)
    case Look => OneRead(c.a, ops) && ok
    case Decrement(u) =>
      u < |txns| && OneRead(c.a, txns[u].ops) && |ops| > 0 && ops[0].Read? && ops[0].a == c.a &&
      if ops[0].w > txns[u].ops[0].w then |ops| == 1 && !ok
      else |ops| == 2 && ops[1] == Write(c.a, ops[0].w - 1) && ok
    case CheckZero => OneRead(c.a, ops) && (ok <==> ops[0].w == 0)
  }

  /** Transaction u had committed when t began. */
  ghost predicate Before(states: seq<State>, u: TxId, t: TxId) {
    exists k :: 0 <= k < |states| && u < |states[k].txns| <= t && states[k].txns[u].pc.Committed?
  }

  /** Each transaction of the check that takes effect did its job, and only one set the counter. */
  ghost predicate Works(c: Session, s: State) {
    && |c.jobs| == |c.worker| == |c.oks| == |s.txns|
    && (forall t :: 0 <= t < |s.txns| && Serialized(s.txns[t]) ==>
          Does(c, s.txns, c.jobs[t], s.txns[t].ops, c.oks[t]))
    && (forall t, u :: Sets(c, s, t) && Sets(c, s, u) ==> t == u)
  }

  predicate Sets(c: Session, s: State, t: int)
    requires |c.jobs| == |s.txns|
  {
    0 <= t < |s.txns| && Serialized(s.txns[t]) && c.jobs[t].SetCounter?
  }

  // ---------------------------------------------------------------- the barrier between the phases

  /** The workers' steps at the barrier and in the library, interleaved: at moment m the barrier is in
      state `bars[m]` and the library in state `states[at[m]]`. */
  ghost predicate Together(n: nat, bars: seq<Barrier.State>, at: seq<nat>, states: seq<State>) {
    && |bars| == |at| > 0 && bars[0] == Barrier.Init(n) && at[0] == 0
    && (forall m :: 0 <= m < |at| ==> at[m] < |states|) && at[|at| - 1] == |states| - 1
    && (forall m :: 0 <= m < |at| - 1 ==> Moves(n, bars, at, m))
  }

  ghost predicate Moves(n: nat, bars: seq<Barrier.State>, at: seq<nat>, m: int)
    requires |bars| == |at| && 0 <= m < |at| - 1
  {
    || (bars[m + 1] == bars[m] && at[m + 1] == at[m] + 1)
    || (at[m + 1] == at[m] && exists i ::
          0 <= i < n && i < |bars[m].threads| && bars[m + 1] == Barrier.Next(bars[m], i))
  }

  /** A transaction begins after its worker returned from as many calls of sync as its phase says, and
      is finished when its worker makes the next. */
  ghost predicate InPhase(c: Session, bars: seq<Barrier.State>, at: seq<nat>, states: seq<State>) {
    && |bars| == |at| && (forall m :: 0 <= m < |at| ==> at[m] < |states|)
    && |states| > 0 && |c.jobs| == |c.worker| == |Last(states).txns|
    && (forall t :: 0 <= t < |c.worker| ==> c.worker[t] < c.n)
    && Timely(c, bars, at, states)
  }

  ghost predicate Timely(c: Session, bars: seq<Barrier.State>, at: seq<nat>, states: seq<State>)
    requires |bars| == |at| && (forall m :: 0 <= m < |at| ==> at[m] < |states|) && |c.jobs| == |c.worker|
  {
    && (forall m, t :: BeginsAt(at, states, m, t) && t < |c.jobs| ==> Due(c, bars[m], t))
    && (forall m, t :: BegunAt(at, states, m, t) && t < |c.jobs| ==>
          (Past(c, bars[m], t) ==> Finished(states[at[m]].txns[t])))
  }

  /** The worker of the transaction is between two calls of sync, and in its phase. */
  predicate Due(c: Session, b: Barrier.State, t: nat)
    requires t < |c.jobs| == |c.worker|
  {
    c.worker[t] < |b.threads| ==>
      var T := b.threads[c.worker[t]]; T.pc.Outside? && T.returned == Phase(c.jobs[t])
  }

  /** The worker of the transaction called sync after its phase. */
  predicate Past(c: Session, b: Barrier.State, t: nat)
    requires t < |c.jobs| == |c.worker|
  {
    c.worker[t] < |b.threads| && b.threads[c.worker[t]].entered > Phase(c.jobs[t])
  }

  predicate BegunAt(at: seq<nat>, states: seq<State>, m: int, t: int)
    requires forall m :: 0 <= m < |at| ==> at[m] < |states|
  {
    0 <= m < |at| && 0 <= t < |states[at[m]].txns|
  }

  predicate BeginsAt(at: seq<nat>, states: seq<State>, m: int, t: int)
    requires forall m :: 0 <= m < |at| ==> at[m] < |states|
  {
    0 <= m < |at| - 1 && t == |states[at[m]].txns| && BegunAt(at, states, m + 1, t)
  }

  lemma BarrierMoves(n: nat, bars: seq<Barrier.State>, at: seq<nat>, m: nat)
    requires |bars| == |at| && m < |at| - 1 && Moves(n, bars, at, m) && Barrier.Inv(bars[m])
    ensures Barrier.Inv(bars[m + 1]) && |bars[m + 1].threads| == |bars[m].threads|
  {
    if bars[m + 1] != bars[m] {
      var i :| 0 <= i < n && i < |bars[m].threads| && bars[m + 1] == Barrier.Next(bars[m], i);
      Barrier.NextInv(bars[m], i);
      BarrierKeepsThreads(bars[m], i);
    }
  }

  lemma BarrierKeepsThreads(b: Barrier.State, i: nat)
    requires i < |b.threads|
    ensures |Barrier.Next(b, i).threads| == |b.threads|
  {
  }

  lemma {:induction false} BarrierHolds(n: nat, bars: seq<Barrier.State>, at: seq<nat>, states: seq<State>, m: nat)
    requires Together(n, bars, at, states) && n > 0 && m < |bars|
    ensures Barrier.Inv(bars[m]) && |bars[m].threads| == n
  {
    if m == 0 {
      Barrier.InitCount(n);
    } else {
      BarrierHolds(n, bars, at, states, m - 1);
      assert Moves(n, bars, at, m - 1);
      BarrierMoves(n, bars, at, m - 1);
    }
  }

  lemma {:induction false} EnteredGrows(n: nat, bars: seq<Barrier.State>, at: seq<nat>, states: seq<State>,
      m: nat, m': nat, i: nat)
    requires Together(n, bars, at, states) && n > 0 && m <= m' < |bars| && i < n
    ensures |bars[m].threads| == n == |bars[m'].threads| && bars[m].threads[i].entered <= bars[m'].threads[i].entered
  {
    BarrierHolds(n, bars, at, states, m');
    if m < m' {
      EnteredGrows(n, bars, at, states, m, m' - 1, i);
      assert Moves(n, bars, at, m' - 1);
    }
  }

  lemma {:induction false} TimeGrows(n: nat, bars: seq<Barrier.State>, at: seq<nat>, states: seq<State>,
      m: nat, m': nat)
    requires Together(n, bars, at, states) && m <= m' < |bars|
    ensures at[m] <= at[m']
  {
    if m < m' {
      TimeGrows(n, bars, at, states, m, m' - 1);
      assert Moves(n, bars, at, m' - 1);
    }
  }

  /** Every transaction began at some moment. */
  lemma {:induction false} Began(n: nat, bars: seq<Barrier.State>, at: seq<nat>, states: seq<State>,
      events: seq<Event>, m: nat, t: TxId) returns (b: nat)
    requires Together(n, bars, at, states) && IsRun(states, events) && BegunAt(at, states, m, t)
    ensures b < m && BeginsAt(at, states, b, t)
  {
    if m == 0 {
      assert false;
    } else {
      assert Moves(n, bars, at, m - 1);
      if t < |states[at[m - 1]].txns| {
        b := Began(n, bars, at, states, events, m - 1, t);
      } else {
        OneBegins(states, events, at[m - 1]);
        b := m - 1;
      }
    }
  }

  lemma OneBegins(states: seq<State>, events: seq<Event>, i: nat)
    requires IsRun(states, events) && i < |states|
    ensures i + 1 < |states| ==> |states[i + 1].txns| <= |states[i].txns| + 1
  {
    if i + 1 < |states| && !events[i].Begin? {
      NextTx(states[i], events[i]);
    }
  }

  /** Whoever returned from a call of sync finds everybody's earlier transactions finished. */
  lemma EarlierFinished(c: Session, bars: seq<Barrier.State>, at: seq<nat>, states: seq<State>,
      m: nat, t: TxId, u: TxId)
    requires Together(c.n, bars, at, states) && c.n > 0 && InPhase(c, bars, at, states)
    requires t < |c.jobs| && u < |c.jobs| && Phase(c.jobs[t]) < Phase(c.jobs[u])
    requires BeginsAt(at, states, m, u)
    ensures |bars[m].threads| == c.n && bars[m].threads[c.worker[t]].entered > Phase(c.jobs[t])
    ensures t < |states[at[m]].txns| ==> Finished(states[at[m]].txns[t])
  {
    BarrierHolds(c.n, bars, at, states, m);
    hide Together;
    var w, v := c.worker[t], c.worker[u];
    assert Barrier.ThreadOk(bars[m].threads[w], bars[m].leave, bars[m].round);
    assert Barrier.ThreadOk(bars[m].threads[v], bars[m].leave, bars[m].round);
    assert Due(c, bars[m], u) && Past(c, bars[m], t);
    assert t < |states[at[m]].txns| ==> BegunAt(at, states, m, t);
  }

  /** A transaction of an earlier phase begins earlier. */
  lemma EarlierBegins(c: Session, bars: seq<Barrier.State>, at: seq<nat>, states: seq<State>, events: seq<Event>,
      m: nat, t: TxId, u: TxId)
    requires Together(c.n, bars, at, states) && c.n > 0 && InPhase(c, bars, at, states) && IsRun(states, events)
    requires t < |c.jobs| && u < |c.jobs| && Phase(c.jobs[t]) < Phase(c.jobs[u]) && BeginsAt(at, states, m, u)
    ensures t < u
  {
    if u < t {
      assert BegunAt(at, states, |at| - 1, t);
      var b := Began(c.n, bars, at, states, events, |at| - 1, t);
      EarlierFinished(c, bars, at, states, m, t, u);
      BarrierHolds(c.n, bars, at, states, b);
      var w := c.worker[t];
      assert Due(c, bars[b], t);
      assert Barrier.ThreadOk(bars[b].threads[w], bars[b].leave, bars[b].round);
      if m <= b {
        EnteredGrows(c.n, bars, at, states, m, b, w);
      } else {
        TimeGrows(c.n, bars, at, states, b, m);
        LaterRun(states, events, at[b], at[m]);
      }
      assert false;
    }
  }

  /** So the phases follow one another: what takes effect was over when the next phase began, and comes
      first in the serial order. */
  lemma PhasesInOrder(c: Session, bars: seq<Barrier.State>, at: seq<nat>, states: seq<State>, events: seq<Event>,
      t: TxId, u: TxId)
    requires Together(c.n, bars, at, states) && c.n > 0 && InPhase(c, bars, at, states) && IsRun(states, events)
    requires t < |c.jobs| && u < |c.jobs| && Phase(c.jobs[t]) < Phase(c.jobs[u]) && Serialized(Last(states).txns[t])
    ensures Before(states, t, u)
    ensures Serialized(Last(states).txns[u]) ==> Precedes(Last(states), t, u)
  {
    var last := |states| - 1;
    assert BegunAt(at, states, |at| - 1, u);
    var m := Began(c.n, bars, at, states, events, |at| - 1, u);
    EarlierBegins(c, bars, at, states, events, m, t, u);
    EarlierFinished(c, bars, at, states, m, t, u);
    SinceRun(states, events, at[m], last, t);
    assert states[at[m]].txns[t].pc.Committed?;
    if Serialized(Last(states).txns[u]) {
      RealTime(states, events, at[m], last, t, u);
    }
  }

  // ---------------------------------------------------------------- the course of the check

  ghost predicate HasLook(c: Session, states: seq<State>, t: int)
    requires |states| > 0 && |c.jobs| == |Last(states).txns| && 0 <= t < |c.jobs| && c.jobs[t].Decrement?
  {
    var u := c.jobs[t].look;
    u < |c.jobs| && c.jobs[u].Look? && Before(states, u, t)
  }

  /** Every transaction of the check that took effect did its job, one of them set the counter, before it
      was checked, and each decrement follows its look. */
  ghost predicate Behaves(c: Session, states: seq<State>) {
    && |states| > 0
    && var s := Last(states);
    && Works(c, s) && (exists t :: Sets(c, s, t))
    && (forall t :: 0 <= t < |s.txns| && Serialized(s.txns[t]) && c.jobs[t].Decrement? ==> HasLook(c, states, t))
    && (forall t :: 0 <= t < |s.txns| && Serialized(s.txns[t]) && c.jobs[t].CheckCounter? ==>
          exists u :: 0 <= u < |s.txns| && c.jobs[u].SetCounter? && Before(states, u, t))
  }

  /** A run of the check, with the barrier between its phases. */
  ghost predicate Course(c: Session, bars: seq<Barrier.State>, at: seq<nat>, states: seq<State>, events: seq<Event>) {
    && c.n > 0 && IsRun(states, events) && Together(c.n, bars, at, states) && InPhase(c, bars, at, states)
    && Behaves(c, states)
  }

  /** What the barrier is needed for: the phases follow one another. */
  ghost predicate InOrder(c: Session, states: seq<State>, events: seq<Event>, x: TxId) {
    && IsRun(states, events) && Behaves(c, states) && Sets(c, Last(states), x)
    && forall t, u :: 0 <= t < |c.jobs| && 0 <= u < |c.jobs| ==> Follows(c, states, t, u)
  }

  /** What takes effect in an earlier phase is over when a transaction of a later one begins. */
  ghost predicate Follows(c: Session, states: seq<State>, t: TxId, u: TxId)
    requires |states| > 0 && |c.jobs| == |Last(states).txns| && t < |c.jobs| && u < |c.jobs|
  {
    Phase(c.jobs[t]) < Phase(c.jobs[u]) && Serialized(Last(states).txns[t]) ==> Before(states, t, u)
  }

  lemma CourseInOrder(c: Session, bars: seq<Barrier.State>, at: seq<nat>, states: seq<State>, events: seq<Event>)
      returns (x: TxId)
    requires Course(c, bars, at, states, events)
    ensures InOrder(c, states, events, x)
  {
    x :| Sets(c, Last(states), x);
    hide Together, IsRun, Behaves;
    forall t, u | 0 <= t < |c.jobs| && 0 <= u < |c.jobs| ensures Follows(c, states, t, u) {
      if Phase(c.jobs[t]) < Phase(c.jobs[u]) && Serialized(Last(states).txns[t]) {
        PhasesInOrder(c, bars, at, states, events, t, u);
      }
    }
  }

  // ---------------------------------------------------------------- who writes the counter

  /** What a job writes. */
  lemma JobWrites(c: Session, txns: seq<Tx>, job: Job, ops: seq<Op>, ok: bool)
    requires Does(c, txns, job, ops, ok) && !job.Earlier?
    ensures Writes(ops) == if job.SetCounter? then map[c.a := c.start]
                           else if job.Decrement? && |ops| == 2 then map[c.a := ops[0].w - 1] else map[]
  {
    assert ops == [ops[0]] || (|ops| == 2 && ops[..1] == [ops[0]]);
    assert ops[..0] == [];
  }

  lemma WritesJob(c: Session, s: State, t: TxId)
    requires FullInv(s) && Works(c, s) && t < |s.txns| && Serialized(s.txns[t]) && !c.jobs[t].Earlier?
    ensures var T, job := s.txns[t], c.jobs[t];
            T.buf == if job.SetCounter? then map[c.a := c.start]
                     else if job.Decrement? && |T.ops| == 2 then map[c.a := T.ops[0].w - 1] else map[]
  {
    ReadOnlyWritesNothing(s, t);
    JobWrites(c, s.txns, c.jobs[t], s.txns[t].ops, c.oks[t]);
  }

  /** The version at which the counter is set. */
  lemma SetterVersion(c: Session, states: seq<State>, events: seq<Event>, x: TxId)
    requires InOrder(c, states, events, x)
    ensures var s := Last(states);
            && FullInv(s) && s.txns[x].buf == map[c.a := c.start]
            && 0 < s.txns[x].wv < |s.hist| && s.hist[s.txns[x].wv] == s.txns[x].buf
  {
    RunFullInv(states, events, |states| - 1);
    WritesJob(c, Last(states), x);
    assert c.a in Last(states).txns[x].buf;
    EffectIsHistory(Last(states), x);
  }

  /** After it, only decrements write the counter. */
  lemma WriterDecrements(c: Session, states: seq<State>, events: seq<Event>, x: TxId, v: nat)
    requires InOrder(c, states, events, x)
    requires var s := Last(states); s.txns[x].wv < v < |s.hist| && c.a in s.hist[v]
    ensures var s := Last(states);
            FullInv(s) && v < |s.writer| &&
            var t := s.writer[v];
            && t < |s.txns| && s.txns[t].wv == v && Serialized(s.txns[t]) && s.txns[t].buf == s.hist[v]
            && c.jobs[t].Decrement?
  {
    RunFullInv(states, events, |states| - 1);
    var s := Last(states);
    var t := s.writer[v];
    assert s.txns[t].wv == v && Decided(s.txns[t]);
    SetterVersion(c, states, events, x);
    assert Shape(s.txns[t], s.clock) && Shape(s.txns[x], s.clock);
    hide FullInv;
    assert Follows(c, states, t, x);
    if c.jobs[t].Earlier? {
      BeforePrecedes(states, events, t, x);
      assert false;
    } else {
      WritesJob(c, s, t);
      assert c.jobs[t].SetCounter? ==> Sets(c, s, t);
    }
  }

  lemma BeforePrecedes(states: seq<State>, events: seq<Event>, u: TxId, t: TxId)
    requires IsRun(states, events) && Before(states, u, t)
    requires t < |Last(states).txns| && Serialized(Last(states).txns[t])
    ensures var s := Last(states); u < |s.txns| && Serialized(s.txns[u]) && Precedes(s, u, t)
  {
    var k :| 0 <= k < |states| && u < |states[k].txns| <= t && states[k].txns[u].pc.Committed?;
    SinceRun(states, events, k, |states| - 1, u);
    RealTime(states, events, k, |states| - 1, u, t);
  }

  // ---------------------------------------------------------------- what the transactions read

  lemma FirstRead(c: Session, s: State, t: TxId)
    requires FullInv(s) && Works(c, s) && t < |s.txns| && Serialized(s.txns[t])
    requires !c.jobs[t].Earlier? && !c.jobs[t].SetCounter?
    ensures |s.txns[t].ops| > 0
    ensures var op := s.txns[t].ops[0]; op.Read? && !op.own && op.a == c.a
  {
    assert Does(c, s.txns, c.jobs[t], s.txns[t].ops, c.oks[t]);
    assert TraceOk(s.txns[t]) && OwnOk(s.txns[t].ops, 0);
    assert s.txns[t].ops[..0] == [];
  }

  /** A transaction that began after a commit of the counter reads the value of some version from that
      one up to its own. */
  lemma ReadsSince(c: Session, states: seq<State>, events: seq<Event>, u: TxId, t: TxId)
    requires IsRun(states, events) && Behaves(c, states) && Before(states, u, t)
    requires var s := Last(states); t < |s.txns| && Serialized(s.txns[t]) && u < |s.txns| && c.a in s.txns[u].buf
    requires !c.jobs[t].Earlier? && !c.jobs[t].SetCounter?
    ensures var s := Last(states); var ops := s.txns[t].ops;
            && |ops| > 0 && ops[0].Read? && !ops[0].own && ops[0].a == c.a
            && s.txns[u].wv <= ops[0].asof <= s.txns[t].rv < |s.hist|
            && ops[0].w == Snapshot(s.hist, ops[0].asof, c.a)
  {
    var last := |states| - 1;
    RunFullInv(states, events, last);
    FirstRead(c, states[last], t);
    var k :| 0 <= k < |states| && u < |states[k].txns| <= t && states[k].txns[u].pc.Committed?;
    hide FullInv, Behaves;
    SinceRun(states, events, k, last, u);
    SeesCommitted(states, events, k, last, u, t, 0);
    ReadGuarantee(states, events, last, t, 0);
  }

  lemma ReadsCounter(c: Session, states: seq<State>, events: seq<Event>, x: TxId, t: TxId)
    requires InOrder(c, states, events, x)
    requires t < |Last(states).txns| && Serialized(Last(states).txns[t])
    requires Phase(c.jobs[t]) > 1 || c.jobs[t].CheckCounter?
    ensures Before(states, x, t)
    ensures var s := Last(states); var ops := s.txns[t].ops;
            && |ops| > 0 && ops[0].Read? && !ops[0].own && ops[0].a == c.a
            && s.txns[x].wv <= ops[0].asof <= s.txns[t].rv < |s.hist|
            && ops[0].w == Snapshot(s.hist, ops[0].asof, c.a)
  {
    if c.jobs[t].CheckCounter? {
      var u :| 0 <= u < |Last(states).txns| && c.jobs[u].SetCounter? && Before(states, u, t);
      BeforePrecedes(states, events, u, t);
      assert Sets(c, Last(states), u);
    }
    assert Follows(c, states, x, t);
    SetterVersion(c, states, events, x);
    hide FullInv;
    ReadsSince(c, states, events, x, t);
  }

  // ---------------------------------------------------------------- what a decrement does

  /** Whoever read and wrote a word logged it, and buffers it. */
  lemma Logs(s: State, t: TxId, n: nat)
    requires FullInv(s) && t < |s.txns| && Serialized(s.txns[t]) && n < |s.txns[t].ops|
    requires var op := s.txns[t].ops[n]; op.Read? && !op.own && op.a in s.txns[t].buf
    ensures var T, op := s.txns[t], s.txns[t].ops[n];
            Decided(T) && op.a in T.rs && op.a in T.ws && Seen(s.hist, T.rv, op.a, op.w, op.asof)
  {
    var T := s.txns[t];
    assert Shape(T, s.clock) && TraceOk(T) && TxReadsOk(s, T);
    assert OpOk(s, T.rv, T.ops[n]);
  }

  /** The only read of a decrement. */
  lemma DecrementOps(c: Session, s: State, t: TxId)
    requires FullInv(s) && Works(c, s) && t < |s.txns| && Serialized(s.txns[t]) && c.jobs[t].Decrement?
    ensures var T := s.txns[t];
            && |T.ops| > 0 && T.ops[0].Read? && !T.ops[0].own && T.ops[0].a == c.a
            && (T.buf != map[] ==> T.buf == map[c.a := T.ops[0].w - 1])
            && (HasStale(s, T) <==> Stale(s.hist, T.rv, T.ops[0]))
  {
    FirstRead(c, s, t);
    WritesJob(c, s, t);
    hide FullInv;
    assert Does(c, s.txns, c.jobs[t], s.txns[t].ops, c.oks[t]);
    assert |s.txns[t].ops| == 1 || (|s.txns[t].ops| == 2 && s.txns[t].ops[1].Write?);
  }

  /** What a decrement that wrote leaves in its lists and in the history. */
  lemma DecrementWrote(c: Session, s: State, t: TxId)
    requires FullInv(s) && Works(c, s) && t < |s.txns| && Serialized(s.txns[t]) && c.jobs[t].Decrement?
    requires s.txns[t].buf != map[]
    ensures var T := s.txns[t];
            && Decided(T) && c.a in T.rs && c.a in T.ws && |T.ops| > 0 && T.ops[0].Read?
            && Seen(s.hist, T.rv, c.a, T.ops[0].w, T.ops[0].asof)
            && T.wv < |s.hist| && s.hist[T.wv] == T.buf == map[c.a := T.ops[0].w - 1]
  {
    hide FullInv, Works, Seen, HasStale, Stale;
    DecrementOps(c, s, t);
    EffectIsHistory(s, t);
    Logs(s, t, 0);
  }

  /** It committed by the shortcut, on top of the version it began with. */
  lemma DecrementShortcut(c: Session, states: seq<State>, events: seq<Event>, t: TxId)
    requires IsRun(states, events) && |states| > 0 && Works(c, Last(states))
    requires var s := Last(states);
             t < |s.txns| && Serialized(s.txns[t]) && c.jobs[t].Decrement? && s.txns[t].buf != map[]
    ensures FullInv(Last(states)) && Last(states).txns[t].wv == Last(states).txns[t].rv + 1
  {
    RunFullInv(states, events, |states| - 1);
    hide FullInv, IsRun, Seen;
    DecrementWrote(c, Last(states), t);
    ReadModifyWriteShortcut(states, events, |states| - 1, t, c.a, c.a);
  }

  /** The read of the decrement that wrote a version. */
  lemma DecrementRead(c: Session, states: seq<State>, events: seq<Event>, x: TxId, v: nat)
    requires InOrder(c, states, events, x)
    requires var s := Last(states); s.txns[x].wv < v < |s.hist| && c.a in s.hist[v]
    ensures var s := Last(states);
            v < |s.writer| && s.writer[v] < |s.txns| && s.txns[s.writer[v]].wv == v &&
            var T := s.txns[s.writer[v]];
            && v == T.rv + 1 && |T.ops| > 0 && T.ops[0].Read? && !T.ops[0].own && T.ops[0].a == c.a
            && s.txns[x].wv <= T.ops[0].asof && Seen(s.hist, T.rv, c.a, T.ops[0].w, T.ops[0].asof)
            && s.hist[v][c.a] == T.ops[0].w - 1 && (HasStale(s, T) <==> Stale(s.hist, T.rv, T.ops[0]))
  {
    WriterDecrements(c, states, events, x, v);
    hide FullInv, HasStale, Seen, Stale, Works, IsRun, HasLook;
    var t := Last(states).writer[v];
    DecrementOps(c, Last(states), t);
    DecrementWrote(c, Last(states), t);
    DecrementShortcut(c, states, events, t);
    ReadsCounter(c, states, events, x, t);
  }

  /** A decrement lowers the counter by one; or, if its read was stale, not at all: its value is the one
      before the decrement it overlapped. */
  lemma {:induction false} DecrementEffect(c: Session, states: seq<State>, events: seq<Event>, x: TxId, v: nat)
    requires InOrder(c, states, events, x)
    requires var s := Last(states); s.txns[x].wv < v < |s.hist| && c.a in s.hist[v]
    ensures var s := Last(states);
            v < |s.writer| && s.writer[v] < |s.txns| && s.txns[s.writer[v]].wv == v &&
            Snapshot(s.hist, v, c.a) == Snapshot(s.hist, v - 1, c.a) - if HasStale(s, s.txns[s.writer[v]]) then 0 else 1
    decreases v
  {
    assert |states| > 0;
    hide InOrder, HasStale, Seen;
    DecrementRead(c, states, events, x, v);
    var s := Last(states);
    var rv, op := s.txns[s.writer[v]].rv, s.txns[s.writer[v]].ops[0];
    if Stale(s.hist, rv, op) {
      DecrementEffect(c, states, events, x, op.asof + 1);
      StaleFalls(s.hist, rv, op);
    } else {
      ReadValue(s.hist, rv, op);
    }
  }

  /** What a stale read leads to is there already, if the overlapping writer lowered the value by one. */
  lemma StaleFalls(hist: seq<Memory>, rv: nat, op: Op)
    requires op.Read? && Seen(hist, rv, op.a, op.w, op.asof) && Stale(hist, rv, op)
    requires op.w - 1 <= Snapshot(hist, op.asof + 1, op.a) <= op.w
    ensures Snapshot(hist, rv, op.a) == op.w - 1
  {
    SnapshotSkip(hist, op.a, op.asof + 1, rv);
  }

  /** So the counter never rises after it was set. */
  lemma {:induction false} CounterFalls(c: Session, states: seq<State>, events: seq<Event>, x: TxId, lo: nat, hi: nat)
    requires InOrder(c, states, events, x) && Last(states).txns[x].wv <= lo <= hi < |Last(states).hist|
    ensures Snapshot(Last(states).hist, hi, c.a) <= Snapshot(Last(states).hist, lo, c.a)
  {
    assert |states| > 0;
    hide InOrder;
    if lo < hi {
      CounterFalls(c, states, events, x, lo, hi - 1);
      if c.a in Last(states).hist[hi] {
        DecrementEffect(c, states, events, x, hi);
      }
    }
  }

  /** No worker finds the counter increased: every decrement succeeds, whatever it and its look read. */
  lemma DecrementSucceeds(c: Session, bars: seq<Barrier.State>, at: seq<nat>, states: seq<State>, events: seq<Event>,
      t: TxId)
    requires Course(c, bars, at, states, events)
    requires t < |Last(states).txns| && Serialized(Last(states).txns[t]) && c.jobs[t].Decrement?
    ensures c.oks[t]
  {
    var x := CourseInOrder(c, bars, at, states, events);
    hide Course;
    NeverAboveLook(c, states, events, x, t);
  }

  lemma NeverAboveLook(c: Session, states: seq<State>, events: seq<Event>, x: TxId, t: TxId)
    requires InOrder(c, states, events, x)
    requires t < |Last(states).txns| && Serialized(Last(states).txns[t]) && c.jobs[t].Decrement?
    ensures c.oks[t] && c.a in Last(states).txns[t].buf
  {
    var s, u := Last(states), c.jobs[t].look;
    assert HasLook(c, states, t);
    BeforePrecedes(states, events, u, t);
    hide HasLook, Follows, Does, FullInv;
    RunFullInv(states, events, |states| - 1);
    ReadsCounter(c, states, events, x, u);
    ReadsCounter(c, states, events, x, t);
    LooksFirst(states, events, u, t);
    CounterFalls(c, states, events, x, s.txns[u].ops[0].asof, s.txns[t].ops[0].asof);
    hide IsRun;
    BelowLook(c, s, t);
  }

  lemma BelowLook(c: Session, s: State, t: TxId)
    requires FullInv(s) && Works(c, s) && t < |s.txns| && Serialized(s.txns[t]) && c.jobs[t].Decrement?
    requires var ops := s.txns[t].ops; |ops| > 0 && ops[0].Read?
    requires c.jobs[t].look < |s.txns| &&
             var ops := s.txns[c.jobs[t].look].ops; |ops| > 0 && ops[0].Read? && s.txns[t].ops[0].w <= ops[0].w
    ensures c.oks[t] && c.a in s.txns[t].buf
  {
    assert Does(c, s.txns, c.jobs[t], s.txns[t].ops, c.oks[t]);
    WritesJob(c, s, t);
  }

  /** What a transaction read that was over is of no newer a version than what is read afterwards. */
  lemma LooksFirst(states: seq<State>, events: seq<Event>, u: TxId, t: TxId)
    requires IsRun(states, events) && Before(states, u, t) && t < |Last(states).txns|
    requires u < |Last(states).txns| && |Last(states).txns[u].ops| > 0 && |Last(states).txns[t].ops| > 0
    requires var op, op' := Last(states).txns[u].ops[0], Last(states).txns[t].ops[0];
             op.Read? && !op.own && op'.Read? && !op'.own && op.a == op'.a
    ensures Last(states).txns[u].ops[0].asof <= Last(states).txns[t].ops[0].asof
  {
    var k :| 0 <= k < |states| && u < |states[k].txns| <= t && states[k].txns[u].pc.Committed?;
    SinceRun(states, events, k, |states| - 1, u);
    ReadsInOrder(states, events, k, |states| - 1, u, 0, t, 0);
  }

  // ---------------------------------------------------------------- how far the counter falls

  /** The decrements that took effect up to a version, and took no stale value. */
  ghost function FreshUpTo(c: Session, s: State, v: nat): set<TxId>
    requires |c.jobs| == |s.txns|
  {
    set t: TxId | t < |s.txns| && Serialized(s.txns[t]) && c.jobs[t].Decrement? && s.txns[t].wv <= v &&
                  !HasStale(s, s.txns[t])
  }

  /** A decrement takes effect at a version of its own. */
  lemma DecrementTakes(c: Session, states: seq<State>, events: seq<Event>, t: TxId)
    requires IsRun(states, events) && |states| > 0 && Works(c, Last(states)) && t < |Last(states).txns|
    requires Serialized(Last(states).txns[t]) && c.jobs[t].Decrement? && c.a in Last(states).txns[t].buf
    ensures var s := Last(states); var T := s.txns[t];
            && |T.ops| > 0 && T.ops[0].Read? && T.rv < T.wv < |s.hist|
            && s.hist[T.wv] == T.buf == map[c.a := T.ops[0].w - 1] && T.wv < |s.writer| && s.writer[T.wv] == t
  {
    hide IsRun, Works, FullInv, Snapshot, Seen;
    DecrementShortcut(c, states, events, t);
    DecrementWrote(c, Last(states), t);
    VersionWriter(Last(states), t);
  }

  /** ... after the counter is set. */
  lemma DecrementVersion(c: Session, states: seq<State>, events: seq<Event>, x: TxId, t: TxId)
    requires InOrder(c, states, events, x)
    requires t < |Last(states).txns| && Serialized(Last(states).txns[t]) && c.jobs[t].Decrement?
    ensures var s := Last(states); var T := s.txns[t];
            && |T.ops| > 0 && T.ops[0].Read? && s.txns[x].wv <= T.rv < T.wv < |s.hist|
            && s.hist[T.wv] == T.buf == map[c.a := T.ops[0].w - 1] && T.wv < |s.writer| && s.writer[T.wv] == t
  {
    hide IsRun, Works, HasLook, Follows, Snapshot;
    NeverAboveLook(c, states, events, x, t);
    ReadsCounter(c, states, events, x, t);
    DecrementTakes(c, states, events, t);
  }

  lemma VersionWriter(s: State, t: TxId)
    requires FullInv(s) && t < |s.txns| && s.txns[t].wv > 0
    ensures s.txns[t].wv < |s.writer| && s.writer[s.txns[t].wv] == t
  {
    assert Shape(s.txns[t], s.clock);
  }

  /** The decrement that took effect at a version, if it took no stale value. */
  ghost function FreshAt(c: Session, s: State, v: nat): set<TxId>
    requires |c.jobs| == |s.txns|
  {
    set t: TxId | t < |s.txns| && Serialized(s.txns[t]) && c.jobs[t].Decrement? && s.txns[t].wv == v &&
                  !HasStale(s, s.txns[t])
  }

  lemma FreshGrows(c: Session, s: State, v: nat)
    requires |c.jobs| == |s.txns| && v > 0
    ensures |FreshUpTo(c, s, v)| == |FreshUpTo(c, s, v - 1)| + |FreshAt(c, s, v)|
  {
    hide HasStale;
    assert FreshUpTo(c, s, v) == FreshUpTo(c, s, v - 1) + FreshAt(c, s, v);
  }

  lemma NoneAt(c: Session, states: seq<State>, events: seq<Event>, x: TxId, v: nat)
    requires InOrder(c, states, events, x)
    requires Last(states).txns[x].wv < v < |Last(states).hist| && c.a !in Last(states).hist[v]
    ensures FreshAt(c, Last(states), v) == {}
  {
    forall t | t in FreshAt(c, Last(states), v) ensures false {
      DecrementVersion(c, states, events, x, t);
    }
  }

  lemma OneAt(c: Session, states: seq<State>, events: seq<Event>, x: TxId, v: nat)
    requires InOrder(c, states, events, x)
    requires Last(states).txns[x].wv < v < |Last(states).hist| && c.a in Last(states).hist[v]
    ensures var s := Last(states);
            v < |s.writer| && s.writer[v] < |s.txns| &&
            |FreshAt(c, s, v)| == if HasStale(s, s.txns[s.writer[v]]) then 0 else 1
  {
    var s := Last(states);
    WriterDecrements(c, states, events, x, v);
    hide FullInv, HasStale;
    forall t | t in FreshAt(c, s, v) ensures t == s.writer[v] {
      DecrementVersion(c, states, events, x, t);
    }
    assert FreshAt(c, s, v) == if HasStale(s, s.txns[s.writer[v]]) then {} else {s.writer[v]};
  }

  lemma CounterStarts(c: Session, states: seq<State>, events: seq<Event>, x: TxId)
    requires InOrder(c, states, events, x)
    ensures var s := Last(states);
            && s.txns[x].wv < |s.hist| && Snapshot(s.hist, s.txns[x].wv, c.a) == c.start
            && |FreshUpTo(c, s, s.txns[x].wv)| == 0
  {
    SetterVersion(c, states, events, x);
    hide FullInv;
    forall t | t in FreshUpTo(c, Last(states), Last(states).txns[x].wv) ensures false {
      DecrementVersion(c, states, events, x, t);
    }
  }

  /** A version lowers the counter by as many as take effect there. */
  lemma CounterStep(c: Session, states: seq<State>, events: seq<Event>, x: TxId, v: nat)
    requires InOrder(c, states, events, x) && Last(states).txns[x].wv < v < |Last(states).hist|
    ensures var s := Last(states);
            Snapshot(s.hist, v, c.a) + |FreshUpTo(c, s, v)| == Snapshot(s.hist, v - 1, c.a) + |FreshUpTo(c, s, v - 1)|
  {
    var s := Last(states);
    assert |c.jobs| == |s.txns|;
    hide InOrder, FreshUpTo, FreshAt, HasStale;
    FreshGrows(c, s, v);
    if c.a in s.hist[v] {
      OneAt(c, states, events, x, v);
      DecrementEffect(c, states, events, x, v);
    } else {
      NoneAt(c, states, events, x, v);
    }
  }

  /** At every version the counter is what it was set to, less the decrements that took no stale value. */
  lemma {:induction false} CounterAt(c: Session, states: seq<State>, events: seq<Event>, x: TxId, v: nat)
    requires InOrder(c, states, events, x) && Last(states).txns[x].wv <= v < |Last(states).hist|
    ensures Snapshot(Last(states).hist, v, c.a) == c.start - |FreshUpTo(c, Last(states), v)|
  {
    assert |states| > 0 && |c.jobs| == |Last(states).txns|;
    hide InOrder, FreshUpTo, Snapshot;
    if v == Last(states).txns[x].wv {
      CounterStarts(c, states, events, x);
    } else {
      CounterAt(c, states, events, x, v - 1);
      CounterStep(c, states, events, x, v);
    }
  }

  // ---------------------------------------------------------------- the checks

  /** The check that follows the initialization of the counter succeeds, in every run. */
  lemma FirstCheckSucceeds(c: Session, bars: seq<Barrier.State>, at: seq<nat>, states: seq<State>,
      events: seq<Event>, t: TxId)
    requires Course(c, bars, at, states, events)
    requires t < |Last(states).txns| && Serialized(Last(states).txns[t]) && c.jobs[t].CheckCounter?
    ensures c.oks[t]
  {
    var s := Last(states);
    var x := CourseInOrder(c, bars, at, states, events);
    hide Course;
    ReadsCounter(c, states, events, x, t);
    var op := s.txns[t].ops[0];
    NoneBefore(c, states, events, x, t, op.asof);
    CounterAt(c, states, events, x, op.asof);
    assert Does(c, s.txns, c.jobs[t], s.txns[t].ops, c.oks[t]);
  }

  /** No decrement took effect at a version that a transaction of the first phase may see. */
  lemma NoneBefore(c: Session, states: seq<State>, events: seq<Event>, x: TxId, t: TxId, v: nat)
    requires InOrder(c, states, events, x) && t < |Last(states).txns| && Serialized(Last(states).txns[t])
    requires Phase(c.jobs[t]) == 1 && v <= Last(states).txns[t].rv
    ensures FreshUpTo(c, Last(states), v) == {}
  {
    forall u | u in FreshUpTo(c, Last(states), v) ensures false {
      DecrementVersion(c, states, events, x, u);
      assert Follows(c, states, t, u);
      BeginsLater(states, events, t, u);
    }
  }

  lemma BeginsLater(states: seq<State>, events: seq<Event>, t: TxId, u: TxId)
    requires IsRun(states, events) && Before(states, t, u) && u < |Last(states).txns|
    ensures t < |Last(states).txns| && Last(states).txns[t].rv <= Last(states).txns[u].rv
  {
    var k :| 0 <= k < |states| && t < |states[k].txns| <= u && states[k].txns[t].pc.Committed?;
    SinceRun(states, events, k, |states| - 1, t);
    RunInv(states, events, k);
    assert Shape(states[k].txns[t], states[k].clock);
  }

  /** The decrements that took effect. */
  ghost function Decrements(c: Session, s: State): set<TxId>
    requires |c.jobs| == |s.txns|
  {
    set t: TxId | t < |s.txns| && Serialized(s.txns[t]) && c.jobs[t].Decrement?
  }

  /** Those that copied the counter under the lock of another commit that had yet to store it. */
  ghost function TornDecrements(c: Session, states: seq<State>, events: seq<Event>): set<TxId>
    requires |states| == |events| + 1 && |c.jobs| == |Last(states).txns|
  {
    set t | t in Decrements(c, Last(states)) && Torn(states, events, |states| - 1, t)
  }

  /** From a version on that no decrement exceeds, the counter has been decreased by all but the torn. */
  lemma CounterAfterAll(c: Session, states: seq<State>, events: seq<Event>, x: TxId, v: nat)
    requires InOrder(c, states, events, x) && Last(states).txns[x].wv <= v < |Last(states).hist|
    requires forall t :: t in Decrements(c, Last(states)) ==> Last(states).txns[t].wv <= v
    ensures Snapshot(Last(states).hist, v, c.a) ==
              c.start - |Decrements(c, Last(states))| + |TornDecrements(c, states, events)|
  {
    var s := Last(states);
    var all, torn, untorn := Decrements(c, s), TornDecrements(c, states, events), FreshUpTo(c, s, v);
    CounterAt(c, states, events, x, v);
    assert IsRun(states, events);
    hide InOrder, IsRun, HasStale, Torn;
    forall t | t in all ensures t in untorn <==> t !in torn {
      StaleIffTorn(states, events, |states| - 1, t);
    }
    Others(all, torn, untorn);
  }

  lemma Others(all: set<TxId>, torn: set<TxId>, untorn: set<TxId>)
    requires torn <= all && untorn <= all && forall t :: t in all ==> (t in untorn <==> t !in torn)
    ensures |untorn| == |all| - |torn|
  {
    assert untorn == all - torn;
  }

  /** What the last check reads. */
  lemma LastCheckReads(c: Session, bars: seq<Barrier.State>, at: seq<nat>, states: seq<State>,
      events: seq<Event>, t: TxId)
    requires Course(c, bars, at, states, events)
    requires t < |Last(states).txns| && Serialized(Last(states).txns[t]) && c.jobs[t].CheckZero?
    ensures |Last(states).txns[t].ops| > 0 && Last(states).txns[t].ops[0].Read?
    ensures Last(states).txns[t].ops[0].w ==
              c.start - |Decrements(c, Last(states))| + |TornDecrements(c, states, events)|
  {
    var s := Last(states);
    var x := CourseInOrder(c, bars, at, states, events);
    hide Course;
    ReadsCounter(c, states, events, x, t);
    var op := s.txns[t].ops[0];
    forall u | u in Decrements(c, s) ensures s.txns[u].wv <= op.asof {
      DecrementVersion(c, states, events, x, u);
      assert Follows(c, states, u, t);
      ReadsSince(c, states, events, u, t);
    }
    CounterAfterAll(c, states, events, x, op.asof);
  }

  /** The counter in shared memory, whenever its lock is free. */
  lemma CounterHolds(c: Session, bars: seq<Barrier.State>, at: seq<nat>, states: seq<State>, events: seq<Event>)
    requires Course(c, bars, at, states, events) && FindLock(c.a) !in Last(states).locks
    ensures Lookup(Last(states).mem, c.a) ==
              c.start - |Decrements(c, Last(states))| + |TornDecrements(c, states, events)|
  {
    var s := Last(states);
    var x := CourseInOrder(c, bars, at, states, events);
    hide Course;
    FreeWordIsCurrent(states, events, |states| - 1, c.a);
    SetterVersion(c, states, events, x);
    forall u | u in Decrements(c, s) ensures s.txns[u].wv <= s.clock {
      DecrementVersion(c, states, events, x, u);
    }
    CounterAfterAll(c, states, events, x, s.clock);
  }

  /** The decrements of the workers below w that took effect. */
  ghost function DecrementsBelow(c: Session, s: State, w: nat): set<TxId>
    requires |c.jobs| == |c.worker| == |s.txns|
  {
    set t: TxId | t < |s.txns| && c.worker[t] < w && Serialized(s.txns[t]) && c.jobs[t].Decrement?
  }

  ghost function DecrementsOf(c: Session, s: State, w: nat): set<TxId>
    requires |c.jobs| == |c.worker| == |s.txns|
  {
    set t: TxId | t < |s.txns| && c.worker[t] == w && Serialized(s.txns[t]) && c.jobs[t].Decrement?
  }

  /** Every worker made its share of the decrements. */
  ghost predicate Complete(c: Session, s: State, share: nat)
    requires |c.jobs| == |c.worker| == |s.txns|
  {
    c.start == share * c.n && forall w :: 0 <= w < c.n ==> |DecrementsOf(c, s, w)| == share
  }

  lemma {:induction false} SharesAdd(c: Session, s: State, share: nat, w: nat)
    requires |c.jobs| == |c.worker| == |s.txns| && Complete(c, s, share) && w <= c.n
    ensures |DecrementsBelow(c, s, w)| == share * w
  {
    if w == 0 {
      assert DecrementsBelow(c, s, 0) == {};
    } else {
      SharesAdd(c, s, share, w - 1);
      assert DecrementsBelow(c, s, w) == DecrementsBelow(c, s, w - 1) + DecrementsOf(c, s, w - 1);
      assert share * w == share * (w - 1) + share;
    }
  }

  lemma CompleteStart(c: Session, s: State, share: nat)
    requires |c.jobs| == |c.worker| == |s.txns| && Complete(c, s, share)
    requires forall t :: 0 <= t < |c.worker| ==> c.worker[t] < c.n
    ensures |Decrements(c, s)| == c.start
  {
    SharesAdd(c, s, share, c.n);
    assert Decrements(c, s) == DecrementsBelow(c, s, c.n);
  }

  /** When every worker made its share of decrements, the last check finds zero exactly when no decrement
      was torn. */
  lemma LastCheckSucceeds(c: Session, bars: seq<Barrier.State>, at: seq<nat>, states: seq<State>,
      events: seq<Event>, share: nat, t: TxId)
    requires Course(c, bars, at, states, events) && Complete(c, Last(states), share)
    requires t < |Last(states).txns| && Serialized(Last(states).txns[t]) && c.jobs[t].CheckZero?
    ensures c.oks[t] <==> TornDecrements(c, states, events) == {}
  {
    var s := Last(states);
    LastCheckReads(c, bars, at, states, events, t);
    CompleteStart(c, s, share);
    assert Does(c, s.txns, c.jobs[t], s.txns[t].ops, c.oks[t]);
  }

  /** ... and the counter in shared memory, whenever its lock is free, is the number of torn decrements. */
  lemma CounterEndsAt(c: Session, bars: seq<Barrier.State>, at: seq<nat>, states: seq<State>,
      events: seq<Event>, share: nat)
    requires Course(c, bars, at, states, events) && Complete(c, Last(states), share)
    requires FindLock(c.a) !in Last(states).locks
    ensures Lookup(Last(states).mem, c.a) == |TornDecrements(c, states, events)|
  {
    CounterHolds(c, bars, at, states, events);
    CompleteStart(c, Last(states), share);
  }

  /** As long as there are no more decrements than the counter was set to, none finds it below one: the
      unsigned counter of the harness never wraps around. */
  lemma NeverBelowOne(c: Session, bars: seq<Barrier.State>, at: seq<nat>, states: seq<State>, events: seq<Event>,
      t: TxId)
    requires Course(c, bars, at, states, events) && |Decrements(c, Last(states))| <= c.start
    requires t < |Last(states).txns| && Serialized(Last(states).txns[t]) && c.jobs[t].Decrement?
    ensures |Last(states).txns[t].ops| > 0 && Last(states).txns[t].ops[0].Read? && Last(states).txns[t].ops[0].w >= 1
  {
    var s := Last(states);
    var x := CourseInOrder(c, bars, at, states, events);
    hide Course;
    DecrementVersion(c, states, events, x, t);
    CounterAt(c, states, events, x, s.txns[t].wv);
    assert FreshUpTo(c, s, s.txns[t].wv) <= Decrements(c, s);
    Fewer(FreshUpTo(c, s, s.txns[t].wv), Decrements(c, s));
  }

  lemma Fewer(x: set<TxId>, y: set<TxId>)
    requires x <= y
    ensures |x| <= |y|
  {
    assert y == x + (y - x);
  }

  /** The verdict on the library: with all decrements made and the last check over, every transaction of
      the check found what it should exactly when no decrement was torn. */
  lemma CheckPasses(c: Session, bars: seq<Barrier.State>, at: seq<nat>, states: seq<State>, events: seq<Event>,
      share: nat, z: TxId)
    requires Course(c, bars, at, states, events) && Complete(c, Last(states), share)
    requires z < |Last(states).txns| && Serialized(Last(states).txns[z]) && c.jobs[z].CheckZero?
    ensures (forall t :: 0 <= t < |c.jobs| && Serialized(Last(states).txns[t]) && !c.jobs[t].Earlier? ==> c.oks[t])
            <==> TornDecrements(c, states, events) == {}
  {
    LastCheckSucceeds(c, bars, at, states, events, share, z);
    forall t | 0 <= t < |c.jobs| && Serialized(Last(states).txns[t]) && !c.jobs[t].Earlier? && !c.jobs[t].CheckZero?
      ensures c.oks[t]
    {
      OthersSucceed(c, bars, at, states, events, t);
    }
    forall t | 0 <= t < |c.jobs| && Serialized(Last(states).txns[t]) && c.jobs[t].CheckZero?
      ensures c.oks[t] <==> TornDecrements(c, states, events) == {}
    {
      LastCheckSucceeds(c, bars, at, states, events, share, t);
    }
  }

  lemma OthersSucceed(c: Session, bars: seq<Barrier.State>, at: seq<nat>, states: seq<State>, events: seq<Event>,
      t: TxId)
    requires Course(c, bars, at, states, events) && t < |Last(states).txns| && Serialized(Last(states).txns[t])
    requires !c.jobs[t].Earlier? && !c.jobs[t].CheckZero?
    ensures c.oks[t]
  {
    if c.jobs[t].Decrement? {
      DecrementSucceeds(c, bars, at, states, events, t);
    } else if c.jobs[t].CheckCounter? {
      FirstCheckSucceeds(c, bars, at, states, events, t);
    } else {
      assert Does(c, Last(states).txns, c.jobs[t], Last(states).txns[t].ops, c.oks[t]);
    }
  }
}
