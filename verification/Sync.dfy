/** The rounds of the grading harness: a master starts all workers, waits until all are done, and
    learns whether one of them failed. Every atomic access is a step of its own. */
module Sync {
  import opened Counting

  datatype Status = Wait | Run | Abort | Done | Fail | Quit

  datatype Message = Null | Text(chars: string)

  datatype WorkerPc =
    // worker_wait
    | Polling       // spinning until the status is wait or quit
    | Joining       // about to count itself ready
    | Resetting     // last to be ready, about to reset the counter
    | Starting      // about to set the status to run
    | Waiting       // spinning until the status is run or abort
    // between worker_wait and worker_notify
    | Working
    // worker_notify
    | Storing       // about to store its error message
    | Flagging      // about to set the status to abort
    | Reporting     // about to count itself done
    | Clearing      // last to be done, about to reset the counter
    | Concluding    // about to load the status
    | Closing(failed: bool)  // about to set the status to done or fail
    | Raising       // about to raise the latch
    // told to quit
    | Gone

  /** `tasks` counts the tasks run, `error` is what the last of them returned; both are auxiliary. */
  datatype Worker = Worker(pc: WorkerPc, tasks: nat, error: Message)

  datatype MasterPc =
    | Idle
    | Awaiting      // in master_wait, before the latch is raised
    | Reading       // about to load the status
    | Loading       // about to load the message
    | Joined        // told the workers to quit
    | Stray         // the branch master_wait takes to be unreachable

  datatype Result = NoResult | Success | Failure(message: Message)

  /** `round` counts the calls of master_notify, `result` is what master_wait returned last. */
  datatype State = State(
    nbready: int, status: Status, errmsg: Message, raised: bool, workers: seq<Worker>, master: MasterPc,
    round: nat, result: Result)

  datatype Event =
    | Notify                           // the master calls master_notify
    | Join                             // the master calls master_join
    | Master                           // the next access of master_wait
    | Step(i: nat, error: Message)     // the next access of worker i, or its task, which returns `error`

  function Init(n: nat): State {
    State(0, Done, Null, false, seq(n, _ => Worker(Polling, 0, Null)), Idle, 0, NoResult)
  }

  function Put(s: State, i: nat, W: Worker): State
    requires i < |s.workers|
  {
    s.(workers := s.workers[i := W])
  }

  function WorkerStep(s: State, i: nat, error: Message): State
    requires i < |s.workers|
  {
    var W := s.workers[i];
    match W.pc
    case Polling =>
      if s.status.Wait? then Put(s, i, W.(pc := Joining))
      else if s.status.Quit? then Put(s, i, W.(pc := Gone))
      else s
    case Joining =>
      Put(s, i, W.(pc := if s.nbready + 1 == |s.workers| then Resetting else Waiting)).(nbready := s.nbready + 1)
    case Resetting => Put(s, i, W.(pc := Starting)).(nbready := 0)
    case Starting => Put(s, i, W.(pc := Working)).(status := Run)
    case Waiting => if s.status.Run? || s.status.Abort? then Put(s, i, W.(pc := Working)) else s
    case Working => Put(s, i, Worker(if error.Null? then Reporting else Storing, W.tasks + 1, error))
    case Storing => Put(s, i, W.(pc := Flagging)).(errmsg := W.error)
    case Flagging => Put(s, i, W.(pc := Reporting)).(status := Abort)
    case Reporting =>
      Put(s, i, W.(pc := if s.nbready + 1 == |s.workers| then Clearing else Polling)).(nbready := s.nbready + 1)
    case Clearing => Put(s, i, W.(pc := Concluding)).(nbready := 0)
    case Concluding => Put(s, i, W.(pc := Closing(s.status.Abort?)))
    case Closing(failed) => Put(s, i, W.(pc := Raising)).(status := if failed then Fail else Done)
    case Raising => Put(s, i, W.(pc := Polling)).(raised := true)
    case Gone => s
  }

  function MasterStep(s: State): State {
    match s.master
    case Awaiting => if s.raised then s.(raised := false, master := Reading) else s
    case Reading =>
      if s.status.Done? then s.(master := Idle, result := Success)
      else if s.status.Fail? then s.(master := Loading)
      else s.(master := Stray)
    case Loading => s.(master := Idle, result := Failure(s.errmsg))
    case _ => s
  }

  predicate Enabled(s: State, e: Event) {
    match e
    case Notify => s.master.Idle?
    case Join => s.master.Idle?
    case Master => s.master.Awaiting? || s.master.Reading? || s.master.Loading?
    case Step(i, _) => i < |s.workers|
  }

  function Next(s: State, e: Event): State
    requires Enabled(s, e)
  {
    match e
    case Notify => s.(status := Wait, master := Awaiting, round := s.round + 1)
    case Join => s.(status := Quit, master := Joined)
    case Master => MasterStep(s)
    case Step(i, error) => WorkerStep(s, i, error)
  }

  ghost predicate IsRun(n: nat, states: seq<State>, events: seq<Event>) {
    && |states| == |events| + 1 && states[0] == Init(n)
    && forall k :: 0 <= k < |events| ==> Enabled(states[k], events[k]) && states[k + 1] == Next(states[k], events[k])
  }

  // ---------------------------------------------------------------- the invariant, phase by phase

  predicate Leads(W: Worker) {
    W.pc.Resetting? || W.pc.Starting?
  }

  predicate Starts(W: Worker) {
    W.pc.Starting?
  }

  predicate Arrived(W: Worker) {
    W.pc.Waiting? || Leads(W)
  }

  predicate Gathers(W: Worker, round: nat) {
    (W.pc.Polling? || W.pc.Joining? || Arrived(W)) && W.tasks + 1 == round
  }

  /** Status wait: the workers of the new round arrive. */
  ghost predicate Gathering(s: State) {
    var arrived, leads := Count(s.workers, Arrived), Count(s.workers, Leads);
    && s.status.Wait? && s.master.Awaiting? && !s.raised
    && (forall i :: 0 <= i < |s.workers| ==> Gathers(s.workers[i], s.round))
    && leads == (if arrived == |s.workers| then 1 else 0)
    && s.nbready == (if Count(s.workers, Starts) > 0 then 0 else arrived)
  }

  predicate Concludes(W: Worker) {
    W.pc.Concluding? || W.pc.Closing?
  }

  predicate Trails(W: Worker) {
    W.pc.Clearing? || Concludes(W)
  }

  predicate Ended(W: Worker) {
    W.pc.Polling? || Trails(W)
  }

  predicate Runs(W: Worker, round: nat, status: Status) {
    && (W.pc.Waiting? || W.pc.Working? || W.pc.Storing? || W.pc.Flagging? || W.pc.Reporting? || Ended(W))
    && (if W.pc.Waiting? || W.pc.Working? then W.tasks + 1 == round else W.tasks == round)
    && (W.pc.Storing? || W.pc.Flagging? ==> W.error.Text?)
    && (W.pc.Closing? ==> (W.pc.failed <==> status.Abort?))
  }

  /** The worker stored a message in this round. */
  predicate Stored(W: Worker) {
    W.error.Text? && (W.pc.Flagging? || W.pc.Reporting? || Ended(W))
  }

  /** ... and set the status to abort. */
  predicate Flagged(W: Worker) {
    W.error.Text? && (W.pc.Reporting? || Ended(W))
  }

  ghost predicate Aborts(s: State) {
    && (s.status.Abort? <==> exists i :: 0 <= i < |s.workers| && Flagged(s.workers[i]))
    && (forall i :: 0 <= i < |s.workers| && Stored(s.workers[i]) ==>
          exists j :: 0 <= j < |s.workers| && Stored(s.workers[j]) && s.errmsg == s.workers[j].error)
  }

  /** Once all workers ended, one of them concludes the round; the counter counts those that ended. */
  ghost predicate Counted(workers: seq<Worker>, nbready: int) {
    && Count(workers, Trails) == (if Count(workers, Ended) == |workers| then 1 else 0)
    && nbready == (if Count(workers, Concludes) > 0 then 0 else Count(workers, Ended))
  }

  /** Status run or abort: the workers of the round run their tasks and report. */
  ghost predicate Running(s: State) {
    && (s.status.Run? || s.status.Abort?) && s.master.Awaiting? && !s.raised
    && (forall i :: 0 <= i < |s.workers| ==> Runs(s.workers[i], s.round, s.status))
    && Counted(s.workers, s.nbready)
  }

  predicate Raises(W: Worker) {
    W.pc.Raising?
  }

  predicate Rests(W: Worker, round: nat) {
    (W.pc.Polling? || W.pc.Raising?) && W.tasks == round
  }

  /** What the status says about the errors of the round. */
  ghost predicate Told(s: State) {
    && (s.status.Done? || s.status.Fail?)
    && (s.status.Fail? <==> exists i :: 0 <= i < |s.workers| && s.workers[i].error.Text?)
    && (s.status.Fail? ==>
          exists i :: 0 <= i < |s.workers| && s.workers[i].error.Text? && s.errmsg == s.workers[i].error)
  }

  /** Status done or fail: the last worker tells the master, who learns the outcome. */
  ghost predicate Resting(s: State) {
    && Told(s) && s.nbready == 0
    && (forall i :: 0 <= i < |s.workers| ==> Rests(s.workers[i], s.round))
    && Count(s.workers, Raises) == (if s.master.Awaiting? && !s.raised then 1 else 0)
    && (s.raised ==> s.master.Awaiting?) && !s.master.Joined? && !s.master.Stray?
    && (s.master.Loading? ==> s.status.Fail?)
    && (s.master.Idle? && s.round > 0 ==> Correct(s))
  }

  /** The result of the last master_wait agrees with the errors of its round. */
  ghost predicate Correct(s: State) {
    match s.result
    case NoResult => false
    case Success => forall i :: 0 <= i < |s.workers| ==> s.workers[i].error.Null?
    case Failure(m) => m.Text? && exists i :: 0 <= i < |s.workers| && s.workers[i].error == m
  }

  /** Status quit. */
  ghost predicate Quitting(s: State) {
    && s.status.Quit? && s.master.Joined?
    && (forall i :: 0 <= i < |s.workers| ==>
          (s.workers[i].pc.Polling? || s.workers[i].pc.Gone?) && s.workers[i].tasks == s.round)
    && (s.round > 0 ==> Correct(s))
  }

  ghost predicate Inv(s: State) {
    && |s.workers| > 0
    && match s.status
       case Wait => Gathering(s)
       case Quit => Quitting(s)
       case Run => Running(s) && Aborts(s)
       case Abort => Running(s) && Aborts(s)
       case _ => Resting(s)
  }

  // ---------------------------------------------------------------- preservation

  /** How the three counts of a phase change when worker i moves. */
  lemma Recount(s: State, i: nat, W: Worker, p: Worker -> bool, q: Worker -> bool, r: Worker -> bool)
    requires i < |s.workers|
    ensures Count(s.workers[i := W], p) ==
              Count(s.workers, p) - (if p(s.workers[i]) then 1 else 0) + (if p(W) then 1 else 0)
    ensures Count(s.workers[i := W], q) ==
              Count(s.workers, q) - (if q(s.workers[i]) then 1 else 0) + (if q(W) then 1 else 0)
    ensures Count(s.workers[i := W], r) ==
              Count(s.workers, r) - (if r(s.workers[i]) then 1 else 0) + (if r(W) then 1 else 0)
  {
    CountUpdate(s.workers, i, W, p);
    CountUpdate(s.workers, i, W, q);
    CountUpdate(s.workers, i, W, r);
  }

  lemma GatheringStep(s: State, i: nat, error: Message)
    requires Gathering(s) && i < |s.workers| && !s.workers[i].pc.Starting?
    ensures Gathering(WorkerStep(s, i, error))
  {
    var W := s.workers[i];
    assert Gathers(W, s.round);
    Recount(s, i, WorkerStep(s, i, error).workers[i], Arrived, Leads, Starts);
    StartsLead(s.workers);
    CountFull(s.workers, Arrived);
    if W.pc.Resetting? {
      CountSome(s.workers, i, Leads);
      OnlyLeader(s.workers, i);
    }
  }

  lemma {:induction false} StartsLead(workers: seq<Worker>)
    ensures Count(workers, Starts) <= Count(workers, Leads)
  {
    if workers != [] {
      StartsLead(workers[..|workers| - 1]);
    }
  }

  lemma OnlyLeader(workers: seq<Worker>, i: nat)
    requires i < |workers| && Leads(workers[i]) && Count(workers, Leads) <= 1
    ensures !Starts(workers[i]) ==> Count(workers, Starts) == 0
  {
    CountZero(workers, Starts);
    forall j | 0 <= j < |workers| && j != i ensures !Starts(workers[j]) {
      if Leads(workers[j]) {
        CountOne(workers, i, j, Leads);
        assert false;
      }
    }
  }

  lemma StartStep(s: State, i: nat, error: Message)
    requires Gathering(s) && i < |s.workers| && s.workers[i].pc.Starting?
    ensures Running(WorkerStep(s, i, error)) && Aborts(WorkerStep(s, i, error))
  {
    CountSome(s.workers, i, Leads);
    CountSome(s.workers, i, Starts);
    CountFull(s.workers, Arrived);
    var s' := WorkerStep(s, i, error);
    forall j | 0 <= j < |s.workers|
      ensures (j == i || s.workers[j].pc.Waiting?) && Gathers(s.workers[j], s.round)
    {
      assert Arrived(s.workers[j]);
      if j != i && Leads(s.workers[j]) {
        CountOne(s.workers, i, j, Leads);
        assert false;
      }
    }
    CountZero(s'.workers, Ended);
    CountZero(s'.workers, Trails);
    CountZero(s'.workers, Concludes);
  }

  lemma {:induction false} ConcludesTrail(workers: seq<Worker>)
    ensures Count(workers, Concludes) <= Count(workers, Trails)
  {
    if workers != [] {
      ConcludesTrail(workers[..|workers| - 1]);
    }
  }

  lemma OnlyTrailer(workers: seq<Worker>, i: nat)
    requires i < |workers| && Trails(workers[i]) && Count(workers, Trails) <= 1
    ensures !Concludes(workers[i]) ==> Count(workers, Concludes) == 0
  {
    CountZero(workers, Concludes);
    forall j | 0 <= j < |workers| && j != i ensures !Concludes(workers[j]) {
      if Trails(workers[j]) {
        CountOne(workers, i, j, Trails);
        assert false;
      }
    }
  }

  lemma RunningCounts(s: State, i: nat, error: Message)
    requires Running(s) && i < |s.workers| && !s.workers[i].pc.Closing?
    ensures Counted(WorkerStep(s, i, error).workers, WorkerStep(s, i, error).nbready)
  {
    assert Runs(s.workers[i], s.round, s.status);
    CountsStep(s, i, error);
  }

  lemma CountsStep(s: State, i: nat, error: Message)
    requires i < |s.workers| && !s.workers[i].pc.Closing? && Runs(s.workers[i], s.round, s.status)
    requires (s.status.Run? || s.status.Abort?) && Counted(s.workers, s.nbready)
    ensures Counted(WorkerStep(s, i, error).workers, WorkerStep(s, i, error).nbready)
  {
    if Trails(s.workers[i]) {
      TrailerCounts(s, i, error);
    } else {
      RunnerCounts(s, i, error);
    }
  }

  lemma TrailerCounts(s: State, i: nat, error: Message)
    requires i < |s.workers| && (s.workers[i].pc.Clearing? || s.workers[i].pc.Concluding?)
    requires Counted(s.workers, s.nbready)
    ensures Counted(WorkerStep(s, i, error).workers, WorkerStep(s, i, error).nbready)
  {
    hide Count;
    Recount(s, i, WorkerStep(s, i, error).workers[i], Ended, Trails, Concludes);
    CountSome(s.workers, i, Trails);
    OnlyTrailer(s.workers, i);
    if s.workers[i].pc.Concluding? {
      CountSome(s.workers, i, Concludes);
    }
  }

  lemma RunnerCounts(s: State, i: nat, error: Message)
    requires i < |s.workers| && !Trails(s.workers[i]) && Runs(s.workers[i], s.round, s.status)
    requires (s.status.Run? || s.status.Abort?) && Counted(s.workers, s.nbready)
    ensures Counted(WorkerStep(s, i, error).workers, WorkerStep(s, i, error).nbready)
  {
    hide Count;
    Recount(s, i, WorkerStep(s, i, error).workers[i], Ended, Trails, Concludes);
    ConcludesTrail(s.workers);
    CountFull(s.workers, Ended);
  }

  lemma RunningStep(s: State, i: nat, error: Message)
    requires Running(s) && i < |s.workers| && !s.workers[i].pc.Closing? && !s.workers[i].pc.Flagging?
    ensures Running(WorkerStep(s, i, error))
  {
    var s' := WorkerStep(s, i, error);
    RunningCounts(s, i, error);
    assert Runs(s.workers[i], s.round, s.status) && Runs(s'.workers[i], s.round, s.status);
    hide Runs, Count;
    assert forall j :: 0 <= j < |s.workers| && j != i ==> s'.workers[j] == s.workers[j];
  }

  /** Setting the status to abort: nobody is past the load that decides the outcome. */
  lemma FlagStep(s: State, i: nat, error: Message)
    requires Running(s) && i < |s.workers| && s.workers[i].pc.Flagging?
    ensures Running(WorkerStep(s, i, error))
  {
    Recount(s, i, WorkerStep(s, i, error).workers[i], Ended, Trails, Concludes);
    assert Runs(s.workers[i], s.round, s.status);
    CountFull(s.workers, Ended);
    forall j | 0 <= j < |s.workers| ensures !s.workers[j].pc.Closing? {
      if Trails(s.workers[j]) {
        CountSome(s.workers, j, Trails);
        assert false;
      }
    }
    var s' := WorkerStep(s, i, error);
    forall j | 0 <= j < |s.workers| ensures Runs(s'.workers[j], s'.round, s'.status) {
      assert Runs(s.workers[j], s.round, s.status);
    }
  }

  lemma StatusStep(s: State, i: nat, error: Message)
    requires Running(s) && Aborts(s) && i < |s.workers| && !s.workers[i].pc.Closing?
    ensures var s' := WorkerStep(s, i, error);
            s'.status.Abort? <==> exists j :: 0 <= j < |s'.workers| && Flagged(s'.workers[j])
  {
    var s' := WorkerStep(s, i, error);
    assert Runs(s.workers[i], s.round, s.status);
    assert forall j :: 0 <= j < |s.workers| && j != i ==> s'.workers[j] == s.workers[j];
    assert Flagged(s'.workers[i]) <==> Flagged(s.workers[i]) || s.workers[i].pc.Flagging?;
  }

  lemma MessageStep(s: State, i: nat, error: Message)
    requires Running(s) && Aborts(s) && i < |s.workers| && !s.workers[i].pc.Closing?
    ensures var s' := WorkerStep(s, i, error);
            forall l :: 0 <= l < |s'.workers| && Stored(s'.workers[l]) ==>
              exists j :: 0 <= j < |s'.workers| && Stored(s'.workers[j]) && s'.errmsg == s'.workers[j].error
  {
    var s' := WorkerStep(s, i, error);
    assert Runs(s.workers[i], s.round, s.status);
    assert forall j :: 0 <= j < |s.workers| && j != i ==> s'.workers[j] == s.workers[j];
    assert Stored(s.workers[i]) ==> Stored(s'.workers[i]) && s'.workers[i].error == s.workers[i].error;
    if s.workers[i].pc.Storing? {
      assert Stored(s'.workers[i]) && s'.errmsg == s'.workers[i].error;
    } else {
      assert Stored(s'.workers[i]) ==> Stored(s.workers[i]);
      assert s'.errmsg == s.errmsg;
    }
  }

  lemma AbortsStep(s: State, i: nat, error: Message)
    requires Running(s) && Aborts(s) && i < |s.workers| && !s.workers[i].pc.Closing?
    ensures Aborts(WorkerStep(s, i, error))
  {
    StatusStep(s, i, error);
    MessageStep(s, i, error);
  }

  /** The last worker turns the status of the run into the outcome of the round. */
  lemma CloseStep(s: State, i: nat, error: Message)
    requires Running(s) && Aborts(s) && i < |s.workers| && s.workers[i].pc.Closing?
    ensures Resting(WorkerStep(s, i, error))
  {
    hide Count, Aborts, Told;
    var s' := WorkerStep(s, i, error);
    CountSome(s.workers, i, Trails);
    CountSome(s.workers, i, Concludes);
    CountFull(s.workers, Ended);
    assert Runs(s.workers[i], s.round, s.status);
    forall j | 0 <= j < |s.workers|
      ensures (j == i || s.workers[j].pc.Polling?) && Runs(s.workers[j], s.round, s.status) && Ended(s.workers[j])
    {
      if j != i && Trails(s.workers[j]) {
        CountOne(s.workers, i, j, Trails);
        assert false;
      }
    }
    CountZero(s.workers, Raises);
    CountUpdate(s.workers, i, s'.workers[i], Raises);
    ToldByAborts(s, s');
  }

  lemma ToldByAborts(s: State, s': State)
    requires Aborts(s) && |s'.workers| == |s.workers| && s'.errmsg == s.errmsg
    requires s'.status == (if s.status.Abort? then Fail else Done)
    requires forall j :: 0 <= j < |s.workers| ==> Ended(s.workers[j]) && s'.workers[j].error == s.workers[j].error
    ensures Told(s')
  {
    if s.status.Abort? {
      var j :| 0 <= j < |s.workers| && Flagged(s.workers[j]);
      assert Stored(s.workers[j]);
      var l :| 0 <= l < |s.workers| && Stored(s.workers[l]) && s.errmsg == s.workers[l].error;
      assert s'.workers[l].error.Text? && s'.errmsg == s'.workers[l].error;
    } else {
      forall j | 0 <= j < |s'.workers| ensures s'.workers[j].error.Null? {
        assert !Flagged(s.workers[j]);
      }
    }
  }

  lemma RestingStep(s: State, i: nat, error: Message)
    requires Resting(s) && i < |s.workers|
    ensures Resting(WorkerStep(s, i, error))
  {
    var s' := WorkerStep(s, i, error);
    assert Rests(s.workers[i], s.round);
    CountUpdate(s.workers, i, s'.workers[i], Raises);
    if s.workers[i].pc.Raising? {
      CountSome(s.workers, i, Raises);
    }
    assert forall j :: 0 <= j < |s.workers| ==> s'.workers[j].error == s.workers[j].error;
  }

  lemma QuittingStep(s: State, i: nat, error: Message)
    requires Quitting(s) && i < |s.workers|
    ensures Quitting(WorkerStep(s, i, error))
  {
    var s' := WorkerStep(s, i, error);
    assert forall j :: 0 <= j < |s.workers| ==> s'.workers[j].error == s.workers[j].error;
  }

  lemma WorkerInv(s: State, i: nat, error: Message)
    requires Inv(s) && i < |s.workers|
    ensures Inv(WorkerStep(s, i, error))
  {
    hide Gathering, Running, Aborts, Resting, Quitting;
    match s.status
    case Wait =>
      if s.workers[i].pc.Starting? {
        StartStep(s, i, error);
      } else {
        GatheringStep(s, i, error);
        GatheringStays(s, i, error);
      }
    case Quit =>
      QuittingStep(s, i, error);
      QuittingStays(s, i, error);
    case Done =>
      RestingStep(s, i, error);
      RestingStays(s, i, error);
    case Fail =>
      RestingStep(s, i, error);
      RestingStays(s, i, error);
    case _ =>
      if s.workers[i].pc.Closing? {
        CloseStep(s, i, error);
      } else {
        AbortsStep(s, i, error);
        if s.workers[i].pc.Flagging? {
          FlagStep(s, i, error);
        } else {
          RunningStep(s, i, error);
          RunningStays(s, i, error);
        }
      }
  }

  lemma GatheringStays(s: State, i: nat, error: Message)
    requires Gathering(s) && i < |s.workers| && !s.workers[i].pc.Starting?
    ensures WorkerStep(s, i, error).status == s.status
  {
    assert Gathers(s.workers[i], s.round);
  }

  lemma QuittingStays(s: State, i: nat, error: Message)
    requires Quitting(s) && i < |s.workers|
    ensures WorkerStep(s, i, error).status == s.status
  {
  }

  lemma RestingStays(s: State, i: nat, error: Message)
    requires Resting(s) && i < |s.workers|
    ensures WorkerStep(s, i, error).status == s.status
  {
    assert Rests(s.workers[i], s.round);
  }

  lemma RunningStays(s: State, i: nat, error: Message)
    requires Running(s) && i < |s.workers| && !s.workers[i].pc.Closing? && !s.workers[i].pc.Flagging?
    ensures WorkerStep(s, i, error).status == s.status
  {
    assert Runs(s.workers[i], s.round, s.status);
  }

  // ---------------------------------------------------------------- the master

  lemma NotifyInv(s: State)
    requires Inv(s) && s.master.Idle?
    ensures Inv(Next(s, Notify))
  {
    CountZero(s.workers, Raises);
    CountZero(s.workers, Arrived);
    CountZero(s.workers, Leads);
    CountZero(s.workers, Starts);
    forall i | 0 <= i < |s.workers| ensures Gathers(s.workers[i], s.round + 1) && s.workers[i].pc.Polling? {
      assert Rests(s.workers[i], s.round);
    }
  }

  lemma JoinInv(s: State)
    requires Inv(s) && s.master.Idle?
    ensures Inv(Next(s, Join))
  {
    CountZero(s.workers, Raises);
    assert forall i :: 0 <= i < |s.workers| ==> Rests(s.workers[i], s.round);
  }

  lemma MasterInv(s: State)
    requires Inv(s) && Enabled(s, Master)
    ensures Inv(Next(s, Master))
  {
  }

  lemma NextInv(s: State, e: Event)
    requires Inv(s) && Enabled(s, e)
    ensures Inv(Next(s, e))
  {
    match e
    case Notify => NotifyInv(s);
    case Join => JoinInv(s);
    case Master => MasterInv(s);
    case Step(i, error) => WorkerInv(s, i, error);
  }

  lemma SameWorkers(s: State, e: Event)
    requires Enabled(s, e)
    ensures |Next(s, e).workers| == |s.workers|
  {
  }

  lemma {:induction false} RunInv(n: nat, states: seq<State>, events: seq<Event>, k: nat)
    requires IsRun(n, states, events) && n > 0 && k < |states|
    ensures Inv(states[k]) && |states[k].workers| == n
  {
    if k == 0 {
      CountZero(states[0].workers, Raises);
    } else {
      RunInv(n, states, events, k - 1);
      hide Inv, WorkerStep, Count;
      NextInv(states[k - 1], events[k - 1]);
      SameWorkers(states[k - 1], events[k - 1]);
    }
  }

  // ---------------------------------------------------------------- what the rounds are for

  /** In every run, every worker has run one task in every round that is over, and at most one in
      the round that is not. */
  lemma OneTaskPerRound(n: nat, states: seq<State>, events: seq<Event>, k: nat, i: nat)
    requires IsRun(n, states, events) && k < |states| && i < n
    ensures |states[k].workers| == n
    ensures states[k].workers[i].tasks <= states[k].round <= states[k].workers[i].tasks + 1
    ensures !states[k].master.Awaiting? ==> states[k].workers[i].tasks == states[k].round
  {
    RunInv(n, states, events, k);
    var s := states[k];
    assert s.status.Wait? ==> Gathers(s.workers[i], s.round);
    assert s.status.Run? || s.status.Abort? ==> Runs(s.workers[i], s.round, s.status);
    assert s.status.Done? || s.status.Fail? ==> Rests(s.workers[i], s.round);
  }

  /** When master_wait has returned, it reported a failure exactly when a task of the round returned
      an error, and then the error of one of them. */
  lemma WaitTellsErrors(n: nat, states: seq<State>, events: seq<Event>, k: nat)
    requires IsRun(n, states, events) && n > 0 && k < |states|
    requires states[k].master.Idle? && states[k].round > 0
    ensures var s := states[k];
            && !s.result.NoResult?
            && (s.result.Failure? <==> exists i :: 0 <= i < |s.workers| && s.workers[i].error.Text?)
            && (s.result.Failure? ==>
                  exists i :: 0 <= i < |s.workers| &&
                    s.workers[i].error.Text? && s.workers[i].error == s.result.message)
  {
    RunInv(n, states, events, k);
    assert Correct(states[k]);
  }

  /** The last branch of master_wait is never taken. */
  lemma NeverStray(n: nat, states: seq<State>, events: seq<Event>, k: nat)
    requires IsRun(n, states, events) && n > 0 && k < |states|
    ensures !states[k].master.Stray?
  {
    RunInv(n, states, events, k);
  }

  // ---------------------------------------------------------------- progress

  /** The event is an access that is not one more turn of a spin loop. */
  predicate Moves(s: State, e: Event) {
    Enabled(s, e) && Next(s, e) != s
  }

  lemma GatheringMoves(s: State) returns (e: Event)
    requires Gathering(s) && |s.workers| > 0
    ensures Moves(s, e)
  {
    CountFull(s.workers, Arrived);
    CountZero(s.workers, Leads);
    var i :| 0 <= i < |s.workers| && (Leads(s.workers[i]) || !Arrived(s.workers[i]));
    assert Gathers(s.workers[i], s.round);
    e := Step(i, Null);
    assert Next(s, e).workers[i] != s.workers[i];
  }

  lemma RunningMoves(s: State) returns (e: Event)
    requires Running(s) && |s.workers| > 0
    ensures Moves(s, e)
  {
    CountFull(s.workers, Ended);
    CountZero(s.workers, Trails);
    var i :| 0 <= i < |s.workers| && (Trails(s.workers[i]) || !Ended(s.workers[i]));
    assert Runs(s.workers[i], s.round, s.status);
    e := Step(i, Null);
    assert Next(s, e).workers[i] != s.workers[i];
  }

  /** While the master waits, somebody can do more than spin. */
  lemma NeverStuck(n: nat, states: seq<State>, events: seq<Event>, k: nat)
    requires IsRun(n, states, events) && n > 0 && k < |states|
    requires states[k].master.Awaiting? || states[k].master.Reading? || states[k].master.Loading?
    ensures exists e :: Moves(states[k], e)
  {
    RunInv(n, states, events, k);
    var s := states[k];
    if s.status.Wait? {
      var e := GatheringMoves(s);
    } else if s.status.Run? || s.status.Abort? {
      var e := RunningMoves(s);
    } else if s.master.Awaiting? && !s.raised {
      CountZero(s.workers, Raises);
      var i :| 0 <= i < |s.workers| && Raises(s.workers[i]);
      assert Next(s, Step(i, Null)).workers[i] != s.workers[i];
      assert Moves(s, Step(i, Null));
    } else {
      assert Moves(s, Master);
    }
  }

  /** How far a worker is; every access that is not spinning brings it on. */
  function Rank(W: Worker): int {
    16 * W.tasks +
    match W.pc
    case Polling => 0
    case Joining => 1
    case Resetting => 2
    case Waiting => 2
    case Starting => 3
    case Working => 4
    case Storing => -10
    case Flagging => -9
    case Reporting => -8
    case Clearing => -7
    case Concluding => -6
    case Closing(_) => -5
    case Raising => -4
    case Gone => 1
  }

  /** The workers' accesses among the first k events that were not spinning. */
  function WorkerMoves(states: seq<State>, events: seq<Event>, k: nat): nat
    requires k <= |events| < |states|
  {
    if k == 0 then 0
    else
      WorkerMoves(states, events, k - 1) +
      (if events[k - 1].Step? && Moves(states[k - 1], events[k - 1]) then 1 else 0)
  }

  lemma RankStep(s: State, i: nat, error: Message)
    requires i < |s.workers|
    ensures Rank(WorkerStep(s, i, error).workers[i]) >=
              Rank(s.workers[i]) + (if WorkerStep(s, i, error) != s then 1 else 0)
  {
    var pc := s.workers[i].pc;
    if pc.Polling? || pc.Waiting? || pc.Gone? {
      SpinRank(s, i, error);
    } else {
      MoveRank(s, i, error);
    }
  }

  lemma SpinRank(s: State, i: nat, error: Message)
    requires i < |s.workers| && (s.workers[i].pc.Polling? || s.workers[i].pc.Waiting? || s.workers[i].pc.Gone?)
    ensures WorkerStep(s, i, error) == s || Rank(WorkerStep(s, i, error).workers[i]) > Rank(s.workers[i])
  {
  }

  lemma MoveRank(s: State, i: nat, error: Message)
    requires i < |s.workers| && !s.workers[i].pc.Polling? && !s.workers[i].pc.Waiting? && !s.workers[i].pc.Gone?
    ensures Rank(WorkerStep(s, i, error).workers[i]) > Rank(s.workers[i])
  {
  }

  lemma PutOnly(s: State, i: nat, error: Message)
    requires i < |s.workers|
    ensures WorkerStep(s, i, error).workers == s.workers[i := WorkerStep(s, i, error).workers[i]]
  {
  }

  lemma WorkNext(s: State, e: Event)
    requires Enabled(s, e)
    ensures Sum(Next(s, e).workers, Rank) >= Sum(s.workers, Rank) + (if e.Step? && Moves(s, e) then 1 else 0)
  {
    if e.Step? {
      RankStep(s, e.i, e.error);
      PutOnly(s, e.i, e.error);
      hide WorkerStep, Rank;
      SumUpdate(s.workers, e.i, WorkerStep(s, e.i, e.error).workers[e.i], Rank);
    }
  }

  lemma {:induction false} WorkDone(n: nat, states: seq<State>, events: seq<Event>, k: nat)
    requires IsRun(n, states, events) && k < |states|
    ensures Sum(states[k].workers, Rank) >= WorkerMoves(states, events, k)
  {
    if k == 0 {
      SumZero(states[0].workers, Rank);
    } else {
      WorkDone(n, states, events, k - 1);
      WorkNext(states[k - 1], events[k - 1]);
    }
  }

  lemma RankBound(s: State)
    requires Inv(s)
    ensures forall i :: 0 <= i < |s.workers| ==> Rank(s.workers[i]) <= 16 * s.round + 1
  {
    forall i | 0 <= i < |s.workers| ensures Rank(s.workers[i]) <= 16 * s.round + 1 {
      assert s.status.Wait? ==> Gathers(s.workers[i], s.round);
      assert s.status.Run? || s.status.Abort? ==> Runs(s.workers[i], s.round, s.status);
      assert s.status.Done? || s.status.Fail? ==> Rests(s.workers[i], s.round);
    }
  }

  /** A round takes each worker at most sixteen accesses that are not spinning; so, as somebody can
      always make one while the master waits, every round that is started comes to its end. */
  lemma RoundsAreBounded(n: nat, states: seq<State>, events: seq<Event>, k: nat)
    requires IsRun(n, states, events) && n > 0 && k < |states|
    ensures WorkerMoves(states, events, k) <= n * (16 * states[k].round + 1)
  {
    RunInv(n, states, events, k);
    WorkDone(n, states, events, k);
    RankBound(states[k]);
    hide Inv, Rank, Sum;
    SumBound(states[k].workers, Rank, 16 * states[k].round + 1);
  }

  // ---------------------------------------------------------------- the end

  /** Once the master joined, an access of a worker makes it leave, if it is still there; and no worker
      runs a task any more. */
  lemma LeaveStep(n: nat, states: seq<State>, events: seq<Event>, k: nat, i: nat)
    requires IsRun(n, states, events) && n > 0 && k < |events| && states[k].master.Joined? && i < n
    ensures |states[k].workers| == n == |states[k + 1].workers| && states[k + 1].master.Joined?
    ensures states[k + 1].workers[i].tasks == states[k].workers[i].tasks == states[k].round == states[k + 1].round
    ensures events[k].Step? && events[k].i == i ==> states[k + 1].workers[i].pc.Gone?
    ensures states[k].workers[i].pc.Gone? ==> states[k + 1].workers[i].pc.Gone?
  {
    RunInv(n, states, events, k);
    SameWorkers(states[k], events[k]);
  }

  /** A worker told to quit is never stuck in worker_wait: its next access is not a turn of the spin loop,
      and returns false. */
  lemma QuitIsSeen(n: nat, states: seq<State>, events: seq<Event>, k: nat, i: nat, error: Message)
    requires IsRun(n, states, events) && n > 0 && k < |states| && states[k].master.Joined? && i < n
    ensures |states[k].workers| == n && Enabled(states[k], Step(i, error))
    ensures !states[k].workers[i].pc.Gone? ==>
              Moves(states[k], Step(i, error)) && Next(states[k], Step(i, error)).workers[i].pc.Gone?
  {
    RunInv(n, states, events, k);
  }

  lemma {:induction false} JoinedRun(n: nat, states: seq<State>, events: seq<Event>, k: nat, j: nat, i: nat)
    requires IsRun(n, states, events) && n > 0 && k <= j < |states| && states[k].master.Joined? && i < n
    ensures |states[k].workers| == n == |states[j].workers| && states[j].master.Joined?
    ensures states[j].workers[i].tasks == states[k].workers[i].tasks
    ensures states[k].workers[i].pc.Gone? ==> states[j].workers[i].pc.Gone?
  {
    if k < j {
      JoinedRun(n, states, events, k, j - 1, i);
      LeaveStep(n, states, events, j - 1, i);
    } else {
      RunInv(n, states, events, k);
    }
  }

  ghost predicate StepsIn(events: seq<Event>, k: int, j: int, i: int) {
    exists m :: k <= m < j && 0 <= m < |events| && events[m].Step? && events[m].i == i
  }

  /** So after one access of each worker all of them are gone, none with another task, and the threads
      can be joined. */
  lemma AllLeave(n: nat, states: seq<State>, events: seq<Event>, k: nat, j: nat)
    requires IsRun(n, states, events) && n > 0 && k <= j < |states| && states[k].master.Joined?
    requires forall i :: 0 <= i < n ==> StepsIn(events, k, j, i)
    ensures |states[k].workers| == n == |states[j].workers|
    ensures forall i :: 0 <= i < n ==>
              states[j].workers[i].pc.Gone? && states[j].workers[i].tasks == states[k].workers[i].tasks
  {
    RunInv(n, states, events, k);
    RunInv(n, states, events, j);
    hide Inv, IsRun;
    forall i | 0 <= i < n
      ensures states[j].workers[i].pc.Gone? && states[j].workers[i].tasks == states[k].workers[i].tasks
    {
      assert StepsIn(events, k, j, i);
      var m :| k <= m < j && 0 <= m < |events| && events[m].Step? && events[m].i == i;
      JoinedRun(n, states, events, k, m, i);
      EventsFit(n, states, events);
      LeaveStep(n, states, events, m, i);
      JoinedRun(n, states, events, m + 1, j, i);
      JoinedRun(n, states, events, k, j, i);
    }
  }

  lemma EventsFit(n: nat, states: seq<State>, events: seq<Event>)
    requires IsRun(n, states, events)
    ensures |states| == |events| + 1
  {
  }
}
