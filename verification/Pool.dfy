/**
 The worker pool of `ScoreWithStats` (jev/client.go) as a step machine: a dispatcher, the
 workers, the first error and a cancellable context, interleaved in any way.
 */
module Pool {
  import opened Transcript

  /** Where a worker is in its loop. */
  datatype Worker =
    | Idle                // ready to receive from the jobs channel
    | Holding(job: nat)   // received an index, context not yet checked
    | Sending(job: nat)   // inside send
    | Failing(job: nat)   // send returned an error, once.Do not yet entered
    | Cancelling          // inside once.Do: the error is stored, cancel() is next
    | Exited

  datatype State<P> = State(
    next: nat,                // the index the dispatcher offers next
    closed: bool,             // dispatching ended, the channel is closed
    workers: seq<Worker>,
    parts: seq<Option<P>>,
    firstErr: Option<nat>,    // the batch whose error is returned
    cancelled: bool,
    outside: bool,            // the context was cancelled from outside
    sends: seq<nat>,          // how often each index was sent
    failed: bool)             // some send returned an error

  datatype Action =
    | Handoff(w: nat)
    | StopDispatch
    | CloseJobs
    | Skip(w: nat)
    | StartSend(w: nat)
    | SendOk(w: nat)
    | SendErr(w: nat)
    | Record(w: nat)
    | Cancel(w: nat)
    | Exit(w: nat)
    | ParentCancel

  /** What an undisturbed send of each batch returns; None for an error. */
  type Oracle<P> = seq<Option<P>>

  function Init<P>(oracle: Oracle<P>, workers: nat): State<P> {
    State(0, false, seq(workers, w => Idle), seq(|oracle|, i => None), None, false, false,
          seq(|oracle|, i => 0), false)
  }

  predicate AnyCancelling(workers: seq<Worker>) {
    exists w :: 0 <= w < |workers| && workers[w].Cancelling?
  }

  predicate WorkerCan<P>(oracle: Oracle<P>, s: State<P>, a: Action, w: nat) {
    w < |s.workers| &&
    match a
    case Handoff(_) => s.workers[w].Idle? && !s.closed && s.next < |oracle|
    case Skip(_) => s.workers[w].Holding? && s.cancelled
    case StartSend(_) => s.workers[w].Holding? && !s.cancelled && s.workers[w].job < |s.sends|
    case SendOk(_) =>
      s.workers[w].Sending? && s.workers[w].job < |oracle| == |s.parts| && oracle[s.workers[w].job].Some?
    case SendErr(_) =>
      s.workers[w].Sending? && s.workers[w].job < |oracle| && (oracle[s.workers[w].job].None? || s.cancelled)
    case Record(_) => s.workers[w].Failing? && !AnyCancelling(s.workers)
    case Cancel(_) => s.workers[w].Cancelling?
    case Exit(_) => s.workers[w].Idle? && s.closed
    case _ => false
  }

  predicate Enabled<P>(oracle: Oracle<P>, s: State<P>, a: Action) {
    match a
    case StopDispatch => !s.closed && s.next < |oracle| && s.cancelled
    case CloseJobs => !s.closed && s.next == |oracle|
    case ParentCancel => !s.outside
    case _ => WorkerCan(oracle, s, a, a.w)
  }

  function SetWorker<P>(s: State<P>, w: nat, worker: Worker): State<P>
    requires w < |s.workers|
  {
    s.(workers := s.workers[w := worker])
  }

  function Do<P>(oracle: Oracle<P>, s: State<P>, a: Action): State<P>
    requires Enabled(oracle, s, a)
  {
    match a
    case Handoff(w) => SetWorker(s, w, Holding(s.next)).(next := s.next + 1)
    case StopDispatch => s.(closed := true)
    case CloseJobs => s.(closed := true)
    case Skip(w) => SetWorker(s, w, Idle)
    case StartSend(w) =>
      var i := s.workers[w].job;
      SetWorker(s, w, Sending(i)).(sends := s.sends[i := s.sends[i] + 1])
    case SendOk(w) =>
      var i := s.workers[w].job;
      SetWorker(s, w, Idle).(parts := s.parts[i := oracle[i]])
    case SendErr(w) => SetWorker(s, w, Failing(s.workers[w].job)).(failed := true)
    case Record(w) =>
      if s.firstErr.Some? then SetWorker(s, w, Idle)
      else SetWorker(s, w, Cancelling).(firstErr := Some(s.workers[w].job))
    case Cancel(w) => SetWorker(s, w, Idle).(cancelled := true)
    case Exit(w) => SetWorker(s, w, Exited)
    case ParentCancel => s.(cancelled := true, outside := true)
  }

  /** wg.Wait returned. */
  predicate Done<P>(s: State<P>) {
    s.closed && forall w :: 0 <= w < |s.workers| ==> s.workers[w].Exited?
  }

  /** The parts of a pass that returns no error. */
  predicate Succeeded<P>(s: State<P>) {
    Done(s) && s.firstErr.None? && !s.cancelled
  }

  // ----- what every step keeps -----

  predicate Busy(worker: Worker) {
    worker.Holding? || worker.Sending? || worker.Failing?
  }

  ghost predicate Held(workers: seq<Worker>, i: nat) {
    exists w :: 0 <= w < |workers| && Busy(workers[w]) && workers[w].job == i
  }

  ghost predicate WorkerOk<P>(s: State<P>, w: nat)
    requires w < |s.workers| && |s.sends| == |s.parts|
  {
    var worker := s.workers[w];
    && (Busy(worker) ==> worker.job < s.next && worker.job < |s.parts| && s.parts[worker.job].None?)
    && (Busy(worker) ==> s.sends[worker.job] == if worker.Holding? then 0 else 1)
    && (worker.Cancelling? ==> s.firstErr.Some?)
    && (worker.Exited? ==> s.closed)
  }

  ghost predicate PartOk<P>(oracle: Oracle<P>, s: State<P>, i: nat)
    requires i < |oracle| == |s.parts| == |s.sends|
  {
    && s.sends[i] <= 1
    && (s.next <= i ==> s.sends[i] == 0)
    && (s.parts[i].Some? ==> s.parts[i] == oracle[i] && s.sends[i] == 1)
    && (!s.cancelled && s.firstErr.None? && i < s.next ==> s.parts[i].Some? || Held(s.workers, i))
  }

  ghost predicate Sized<P>(oracle: Oracle<P>, s: State<P>) {
    |s.parts| == |s.sends| == |oracle| && s.next <= |oracle|
  }

  ghost predicate NoJobTwice(workers: seq<Worker>) {
    forall v, w :: 0 <= v < w < |workers| && Busy(workers[v]) && Busy(workers[w]) ==> workers[v].job != workers[w].job
  }

  ghost predicate AnyFailing(workers: seq<Worker>) {
    exists w :: 0 <= w < |workers| && workers[w].Failing?
  }

  /** Every batch is accounted for. */
  ghost predicate JobsOk<P>(oracle: Oracle<P>, s: State<P>) {
    && Sized(oracle, s)
    && (forall w :: 0 <= w < |s.workers| ==> WorkerOk(s, w))
    && (forall i :: 0 <= i < |oracle| ==> PartOk(oracle, s, i))
    && NoJobTwice(s.workers)
    && (s.firstErr.Some? ==> s.cancelled || AnyCancelling(s.workers))
    && (s.failed ==> s.firstErr.Some? || AnyFailing(s.workers))
    && (s.closed && !s.cancelled ==> s.next == |oracle|)
  }

  /** The batch's own send fails, or something else was the reason. */
  predicate Blamed<P>(oracle: Oracle<P>, i: nat, excused: bool) {
    i < |oracle| && (oracle[i].None? || excused)
  }

  /** Every error has its reason: a send that fails by itself, or a cancellation from outside. */
  ghost predicate ErrorsOk<P>(oracle: Oracle<P>, s: State<P>) {
    && (forall w :: 0 <= w < |s.workers| && s.workers[w].Failing? ==>
          s.failed && Blamed(oracle, s.workers[w].job, s.firstErr.Some? || s.outside))
    && (s.firstErr.Some? ==> s.failed && Blamed(oracle, s.firstErr.value, s.outside))
    && (s.outside ==> s.cancelled)
    && (s.cancelled ==> s.firstErr.Some? || s.outside)
    && (AnyCancelling(s.workers) ==> s.firstErr.Some?)
  }

  ghost predicate Inv<P>(oracle: Oracle<P>, s: State<P>) {
    JobsOk(oracle, s) && ErrorsOk(oracle, s)
  }

  lemma InitInv<P>(oracle: Oracle<P>, workers: nat)
    ensures Inv(oracle, Init(oracle, workers))
  {
  }

  /** The facts about the other workers when one of them changes. */
  lemma HeldByOthers(workers: seq<Worker>, w: nat, worker: Worker, i: nat)
    requires w < |workers| && Held(workers, i) && !(Busy(workers[w]) && workers[w].job == i)
    ensures Held(workers[w := worker], i)
  {
    var v :| 0 <= v < |workers| && Busy(workers[v]) && workers[v].job == i;
    assert workers[w := worker][v] == workers[v];
  }

  lemma OthersStill(workers: seq<Worker>, w: nat, worker: Worker)
    requires w < |workers|
    ensures !workers[w].Cancelling? && AnyCancelling(workers) ==> AnyCancelling(workers[w := worker])
    ensures !workers[w].Failing? && AnyFailing(workers) ==> AnyFailing(workers[w := worker])
    ensures worker.Cancelling? ==> AnyCancelling(workers[w := worker])
    ensures worker.Failing? ==> AnyFailing(workers[w := worker])
  {
    var after := workers[w := worker];
    if !workers[w].Cancelling? && AnyCancelling(workers) {
      var v :| 0 <= v < |workers| && workers[v].Cancelling?;
      assert after[v].Cancelling?;
    }
    if !workers[w].Failing? && AnyFailing(workers) {
      var v :| 0 <= v < |workers| && workers[v].Failing?;
      assert after[v].Failing?;
    }
    assert after[w] == worker;
  }

  lemma HandoffKeeps<P>(oracle: Oracle<P>, s: State<P>, w: nat)
    requires JobsOk(oracle, s) && Enabled(oracle, s, Handoff(w))
    ensures JobsOk(oracle, Do(oracle, s, Handoff(w)))
  {
    var t := Do(oracle, s, Handoff(w));
    OthersStill(s.workers, w, Holding(s.next));
    assert PartOk(oracle, s, s.next);
    assert forall v :: 0 <= v < |s.workers| ==> WorkerOk(s, v);
    forall v | 0 <= v < |t.workers|
      ensures WorkerOk(t, v)
      ensures v != w && Busy(t.workers[v]) ==> t.workers[v].job < s.next
    {
      assert WorkerOk(s, v);
    }
    forall i | 0 <= i < |oracle|
      ensures PartOk(oracle, t, i)
    {
      assert PartOk(oracle, s, i);
      if i == s.next {
        assert Busy(t.workers[w]) && t.workers[w].job == i;
      } else if Held(s.workers, i) {
        HeldByOthers(s.workers, w, Holding(s.next), i);
      }
    }
  }

  /** A step in which worker `w` lets go of its job, or moves on with the same job. */
  lemma WorkerMoves<P>(oracle: Oracle<P>, s: State<P>, t: State<P>, w: nat, worker: Worker)
    requires JobsOk(oracle, s) && w < |s.workers| && t.workers == s.workers[w := worker]
    requires t.next == s.next && t.closed == s.closed && Sized(oracle, t)
    requires Busy(worker) ==> Busy(s.workers[w]) && worker.job == s.workers[w].job
    requires forall i :: 0 <= i < |oracle| && !(Busy(s.workers[w]) && s.workers[w].job == i) ==>
      t.parts[i] == s.parts[i] && t.sends[i] == s.sends[i]
    requires s.firstErr.Some? ==> t.firstErr.Some?
    requires s.cancelled ==> t.cancelled
    requires WorkerOk(t, w)
    requires Busy(s.workers[w]) ==> s.workers[w].job < |oracle| && PartOk(oracle, t, s.workers[w].job)
    ensures forall v :: 0 <= v < |t.workers| ==> WorkerOk(t, v)
    ensures forall i :: 0 <= i < |oracle| ==> PartOk(oracle, t, i)
    ensures NoJobTwice(t.workers)
  {
    forall v | 0 <= v < |t.workers|
      ensures WorkerOk(t, v)
    {
      assert WorkerOk(s, v);
    }
    forall i | 0 <= i < |oracle|
      ensures PartOk(oracle, t, i)
    {
      assert PartOk(oracle, s, i);
      if !(Busy(s.workers[w]) && s.workers[w].job == i) && Held(s.workers, i) {
        HeldByOthers(s.workers, w, worker, i);
      }
    }
  }

  lemma SkipKeeps<P>(oracle: Oracle<P>, s: State<P>, w: nat)
    requires JobsOk(oracle, s) && Enabled(oracle, s, Skip(w))
    ensures JobsOk(oracle, Do(oracle, s, Skip(w)))
  {
    assert WorkerOk(s, w) && PartOk(oracle, s, s.workers[w].job);
    OthersStill(s.workers, w, Idle);
    WorkerMoves(oracle, s, Do(oracle, s, Skip(w)), w, Idle);
  }

  lemma StartSendKeeps<P>(oracle: Oracle<P>, s: State<P>, w: nat)
    requires JobsOk(oracle, s) && Enabled(oracle, s, StartSend(w))
    ensures JobsOk(oracle, Do(oracle, s, StartSend(w)))
  {
    var i, t := s.workers[w].job, Do(oracle, s, StartSend(w));
    assert WorkerOk(s, w) && PartOk(oracle, s, i);
    OthersStill(s.workers, w, Sending(i));
    assert Busy(t.workers[w]) && t.workers[w].job == i;
    WorkerMoves(oracle, s, t, w, Sending(i));
  }

  lemma SendOkKeeps<P>(oracle: Oracle<P>, s: State<P>, w: nat)
    requires JobsOk(oracle, s) && Enabled(oracle, s, SendOk(w))
    ensures JobsOk(oracle, Do(oracle, s, SendOk(w)))
  {
    var i := s.workers[w].job;
    assert WorkerOk(s, w) && PartOk(oracle, s, i);
    OthersStill(s.workers, w, Idle);
    WorkerMoves(oracle, s, Do(oracle, s, SendOk(w)), w, Idle);
  }

  lemma SendErrKeeps<P>(oracle: Oracle<P>, s: State<P>, w: nat)
    requires JobsOk(oracle, s) && Enabled(oracle, s, SendErr(w))
    ensures JobsOk(oracle, Do(oracle, s, SendErr(w)))
  {
    var i, t := s.workers[w].job, Do(oracle, s, SendErr(w));
    assert WorkerOk(s, w) && PartOk(oracle, s, i);
    OthersStill(s.workers, w, Failing(i));
    assert Busy(t.workers[w]) && t.workers[w].job == i;
    WorkerMoves(oracle, s, t, w, Failing(i));
  }

  lemma RecordKeeps<P>(oracle: Oracle<P>, s: State<P>, w: nat)
    requires JobsOk(oracle, s) && Enabled(oracle, s, Record(w))
    ensures JobsOk(oracle, Do(oracle, s, Record(w)))
  {
    var t := Do(oracle, s, Record(w));
    assert WorkerOk(s, w) && PartOk(oracle, s, s.workers[w].job);
    OthersStill(s.workers, w, t.workers[w]);
    WorkerMoves(oracle, s, t, w, t.workers[w]);
  }

  lemma CancelKeeps<P>(oracle: Oracle<P>, s: State<P>, w: nat)
    requires JobsOk(oracle, s) && Enabled(oracle, s, Cancel(w))
    ensures JobsOk(oracle, Do(oracle, s, Cancel(w)))
  {
    assert WorkerOk(s, w);
    OthersStill(s.workers, w, Idle);
    WorkerMoves(oracle, s, Do(oracle, s, Cancel(w)), w, Idle);
  }

  lemma ExitKeeps<P>(oracle: Oracle<P>, s: State<P>, w: nat)
    requires JobsOk(oracle, s) && Enabled(oracle, s, Exit(w))
    ensures JobsOk(oracle, Do(oracle, s, Exit(w)))
  {
    OthersStill(s.workers, w, Exited);
    WorkerMoves(oracle, s, Do(oracle, s, Exit(w)), w, Exited);
  }

  /** A step of the dispatcher's end or of the context, in which no worker moves. */
  lemma FlagKeeps<P>(oracle: Oracle<P>, s: State<P>, a: Action)
    requires JobsOk(oracle, s) && Enabled(oracle, s, a)
    requires a.StopDispatch? || a.CloseJobs? || a.ParentCancel?
    ensures JobsOk(oracle, Do(oracle, s, a))
  {
    var t := Do(oracle, s, a);
    forall w | 0 <= w < |t.workers|
      ensures WorkerOk(t, w)
    {
      assert WorkerOk(s, w);
    }
    forall i | 0 <= i < |oracle|
      ensures PartOk(oracle, t, i)
    {
      assert PartOk(oracle, s, i);
    }
  }

  lemma ErrorsKeep<P>(oracle: Oracle<P>, s: State<P>, a: Action)
    requires ErrorsOk(oracle, s) && Enabled(oracle, s, a)
    ensures ErrorsOk(oracle, Do(oracle, s, a))
  {
    var t := Do(oracle, s, a);
    forall w | 0 <= w < |t.workers| && t.workers[w].Failing?
      ensures t.failed && Blamed(oracle, t.workers[w].job, t.firstErr.Some? || t.outside)
    {
      assert s.workers[w].Failing? || (a == SendErr(w) && t.workers[w].job == s.workers[w].job);
    }
    if AnyCancelling(t.workers) {
      var w :| 0 <= w < |t.workers| && t.workers[w].Cancelling?;
      assert s.workers[w].Cancelling? || a == Record(w);
    }
  }

  /** Every step keeps the invariant. */
  lemma StepKeeps<P>(oracle: Oracle<P>, s: State<P>, a: Action)
    requires Inv(oracle, s) && Enabled(oracle, s, a)
    ensures Inv(oracle, Do(oracle, s, a)) && |Do(oracle, s, a).workers| == |s.workers|
  {
    ErrorsKeep(oracle, s, a);
    match a
    case Handoff(w) => HandoffKeeps(oracle, s, w);
    case Skip(w) => SkipKeeps(oracle, s, w);
    case StartSend(w) => StartSendKeeps(oracle, s, w);
    case SendOk(w) => SendOkKeeps(oracle, s, w);
    case SendErr(w) => SendErrKeeps(oracle, s, w);
    case Record(w) => RecordKeeps(oracle, s, w);
    case Cancel(w) => CancelKeeps(oracle, s, w);
    case Exit(w) => ExitKeeps(oracle, s, w);
    case _ => FlagKeeps(oracle, s, a);
  }

  // ----- executions -----

  ghost predicate StepsAt<P(!new)>(oracle: Oracle<P>, trace: seq<State<P>>, t: nat)
    requires t + 1 < |trace|
  {
    Steps(oracle, trace[t], trace[t + 1])
  }

  /** Any interleaving from the start. */
  ghost predicate IsExecution<P(!new)>(oracle: Oracle<P>, workers: nat, trace: seq<State<P>>) {
    && |trace| > 0 && trace[0] == Init(oracle, workers)
    && forall t: nat :: t + 1 < |trace| ==> StepsAt(oracle, trace, t)
  }

  ghost predicate Steps<P(!new)>(oracle: Oracle<P>, s: State<P>, t: State<P>) {
    exists a :: Enabled(oracle, s, a) && t == Do(oracle, s, a)
  }

  lemma ExecutionGrows<P(!new)>(oracle: Oracle<P>, workers: nat, trace: seq<State<P>>, s: State<P>)
    requires IsExecution(oracle, workers, trace) && Steps(oracle, trace[|trace| - 1], s)
    ensures IsExecution(oracle, workers, trace + [s])
  {
    var longer := trace + [s];
    forall i: nat | i + 1 < |longer|
      ensures StepsAt(oracle, longer, i)
    {
      if i + 1 < |trace| {
        assert StepsAt(oracle, trace, i);
        assert longer[i] == trace[i] && longer[i + 1] == trace[i + 1];
      } else {
        assert longer[i] == trace[|trace| - 1] && longer[i + 1] == s;
      }
    }
  }

  lemma {:induction false} ExecutionInv<P(!new)>(oracle: Oracle<P>, workers: nat, trace: seq<State<P>>, t: nat)
    requires IsExecution(oracle, workers, trace) && t < |trace|
    ensures Inv(oracle, trace[t]) && |trace[t].workers| == workers
  {
    if t == 0 {
      InitInv(oracle, workers);
    } else {
      ExecutionInv(oracle, workers, trace, t - 1);
      assert StepsAt(oracle, trace, t - 1);
      var a :| Enabled(oracle, trace[t - 1], a) && trace[t] == Do(oracle, trace[t - 1], a);
      StepKeeps(oracle, trace[t - 1], a);
    }
  }

  /**
   Schedule independence: however the steps interleave, a pass that succeeds holds for each
   batch the result of its one send, so the parts are those of sending them in order.
   */
  lemma ScheduleIndependent<P(!new)>(oracle: Oracle<P>, workers: nat, trace: seq<State<P>>)
    requires IsExecution(oracle, workers, trace)
    ensures var s := trace[|trace| - 1];
      Succeeded(s) ==>
        && s.parts == oracle && |s.sends| == |oracle|
        && forall i :: 0 <= i < |oracle| ==> s.parts[i].Some? && s.sends[i] == 1
  {
    var s := trace[|trace| - 1];
    ExecutionInv(oracle, workers, trace, |trace| - 1);
    if Succeeded(s) {
      forall i | 0 <= i < |oracle|
        ensures s.parts[i].Some? && s.parts[i] == oracle[i] && s.sends[i] == 1
      {
        assert PartOk(oracle, s, i);
        assert forall w :: 0 <= w < |s.workers| ==> !Busy(s.workers[w]);
      }
    }
  }

  /**
   Safety at every moment: no batch is sent twice, no two workers share a batch, and a failed
   send is never forgotten.
   */
  lemma AlwaysSafe<P(!new)>(oracle: Oracle<P>, workers: nat, trace: seq<State<P>>, t: nat)
    requires IsExecution(oracle, workers, trace) && t < |trace|
    ensures |trace[t].sends| == |oracle| && forall i :: 0 <= i < |oracle| ==> trace[t].sends[i] <= 1
    ensures NoJobTwice(trace[t].workers) && |InFlight(trace[t])| <= workers
    ensures trace[t].failed && Done(trace[t]) ==> trace[t].firstErr.Some?
  {
    ExecutionInv(oracle, workers, trace, t);
    forall i | 0 <= i < |oracle|
      ensures trace[t].sends[i] <= 1
    {
      assert PartOk(oracle, trace[t], i);
    }
    Positions(trace[t], workers);
  }

  /** The workers that are inside `send`. */
  function InFlight<P>(s: State<P>): set<nat> {
    set w: nat | w < |s.workers| && s.workers[w].Sending?
  }

  function Below(n: nat): set<nat> {
    if n == 0 then {} else Below(n - 1) + {n - 1}
  }

  lemma {:induction false} BelowSize(n: nat)
    ensures |Below(n)| == n && forall w: nat :: w in Below(n) <==> w < n
  {
    if n > 0 {
      BelowSize(n - 1);
    }
  }

  lemma SubsetSize(a: set<nat>, b: set<nat>)
    requires a <= b
    ensures |a| <= |b|
  {
    assert b == a + (b - a);
  }

  lemma Positions<P>(s: State<P>, workers: nat)
    requires |s.workers| == workers
    ensures |InFlight(s)| <= workers
  {
    BelowSize(workers);
    SubsetSize(InFlight(s), Below(workers));
  }

  // ----- what a pass ends with -----

  lemma OutsideStep<P>(oracle: Oracle<P>, s: State<P>, a: Action)
    requires Enabled(oracle, s, a)
    ensures Do(oracle, s, a).outside && !s.outside ==> a == ParentCancel
  {
  }

  /** Only a cancellation from outside sets the flag. */
  lemma {:induction false} OutsideWasCancelled<P(!new)>(oracle: Oracle<P>, workers: nat, trace: seq<State<P>>, t: nat)
    returns (u: nat)
    requires IsExecution(oracle, workers, trace) && t < |trace| && trace[t].outside
    ensures u < t && Enabled(oracle, trace[u], ParentCancel) && trace[u + 1] == Do(oracle, trace[u], ParentCancel)
  {
    assert StepsAt(oracle, trace, t - 1);
    var a :| Enabled(oracle, trace[t - 1], a) && trace[t] == Do(oracle, trace[t - 1], a);
    OutsideStep(oracle, trace[t - 1], a);
    if trace[t - 1].outside {
      u := OutsideWasCancelled(oracle, workers, trace, t - 1);
    } else {
      u := t - 1;
    }
  }

  /**
   How a pass ends is decided by the sends and the caller alone: it succeeds exactly when
   every send succeeds and nobody cancels from outside, and an error without such a
   cancellation is that of a batch whose own send fails.
   */
  lemma EndIsDetermined<P(!new)>(oracle: Oracle<P>, workers: nat, trace: seq<State<P>>)
    requires IsExecution(oracle, workers, trace) && Done(trace[|trace| - 1])
    ensures var s := trace[|trace| - 1];
      && (Succeeded(s) <==> !s.outside && forall i :: 0 <= i < |oracle| ==> oracle[i].Some?)
      && (s.firstErr.Some? ==> Blamed(oracle, s.firstErr.value, s.outside))
      && (s.cancelled && s.firstErr.None? ==> s.outside)
  {
    ExecutionInv(oracle, workers, trace, |trace| - 1);
    ScheduleIndependent(oracle, workers, trace);
  }

  lemma CancelledStep<P>(oracle: Oracle<P>, s: State<P>, a: Action)
    requires Enabled(oracle, s, a)
    ensures s.cancelled ==> Do(oracle, s, a).cancelled && Do(oracle, s, a).sends == s.sends
    ensures s.firstErr.Some? ==> Do(oracle, s, a).firstErr == s.firstErr
  {
  }

  /** Once the context is cancelled no send starts any more, and the first error stays the one that is returned. */
  lemma {:induction false} NothingAfterCancel<P(!new)>(oracle: Oracle<P>, workers: nat, trace: seq<State<P>>,
                                                       t: nat, u: nat)
    requires IsExecution(oracle, workers, trace) && t <= u < |trace|
    ensures trace[t].cancelled ==> trace[u].cancelled && trace[u].sends == trace[t].sends
    ensures trace[t].firstErr.Some? ==> trace[u].firstErr == trace[t].firstErr
    decreases u
  {
    if t < u {
      NothingAfterCancel(oracle, workers, trace, t, u - 1);
      assert StepsAt(oracle, trace, u - 1);
      var a :| Enabled(oracle, trace[u - 1], a) && trace[u] == Do(oracle, trace[u - 1], a);
      CancelledStep(oracle, trace[u - 1], a);
    }
  }

  /** The caller can cancel at any moment, and then any send in flight may fail. */
  lemma CallerCanCancel<P>(oracle: Oracle<P>, s: State<P>, w: nat)
    requires Inv(oracle, s) && !s.outside
    ensures Enabled(oracle, s, ParentCancel)
    ensures w < |s.workers| && s.workers[w].Sending? ==>
      Enabled(oracle, Do(oracle, s, ParentCancel), SendErr(w))
  {
    if w < |s.workers| {
      assert WorkerOk(s, w);
    }
  }

  // ----- no deadlock -----

  /** Something other than a cancellation from outside can happen until all workers are gone. */
  lemma NoDeadlock<P>(oracle: Oracle<P>, s: State<P>) returns (a: Action)
    requires Inv(oracle, s) && !Done(s)
    requires |oracle| > 0 ==> |s.workers| > 0
    ensures Enabled(oracle, s, a) && !a.ParentCancel?
  {
    if w: nat :| w < |s.workers| && !s.workers[w].Idle? && !s.workers[w].Exited? {
      assert WorkerOk(s, w);
      a := WorkerStep(oracle, s, w);
    } else if !s.closed {
      if s.next < |oracle| {
        assert WorkerOk(s, 0) && s.workers[0].Idle?;
        a := Handoff(0);
      } else {
        a := CloseJobs;
      }
    } else {
      var w: nat :| w < |s.workers| && !s.workers[w].Exited?;
      a := Exit(w);
    }
  }

  lemma WorkerStep<P>(oracle: Oracle<P>, s: State<P>, w: nat) returns (a: Action)
    requires Sized(oracle, s) && w < |s.workers| && WorkerOk(s, w)
    requires !s.workers[w].Idle? && !s.workers[w].Exited?
    ensures Enabled(oracle, s, a) && !a.ParentCancel?
  {
    match s.workers[w]
    case Holding(i) =>
      a := if s.cancelled then Skip(w) else StartSend(w);
    case Sending(i) =>
      a := if oracle[i].Some? then SendOk(w) else SendErr(w);
    case Failing(i) =>
      if AnyCancelling(s.workers) {
        var v: nat :| v < |s.workers| && s.workers[v].Cancelling?;
        a := Cancel(v);
      } else {
        a := Record(w);
      }
    case Cancelling =>
      a := Cancel(w);
  }

  // ----- every execution ends -----

  function Weight(worker: Worker): nat {
    match worker
    case Idle => 1
    case Holding(_) => 5
    case Sending(_) => 4
    case Failing(_) => 3
    case Cancelling => 2
    case Exited => 0
  }

  function Weights(workers: seq<Worker>): nat {
    if workers == [] then 0 else Weight(workers[0]) + Weights(workers[1..])
  }

  lemma {:induction false} WeightsUpdate(workers: seq<Worker>, w: nat, worker: Worker)
    requires w < |workers|
    ensures Weights(workers[w := worker]) == Weights(workers) - Weight(workers[w]) + Weight(worker)
  {
    if w == 0 {
      assert workers[0 := worker][1..] == workers[1..];
    } else {
      WeightsUpdate(workers[1..], w - 1, worker);
      assert workers[w := worker][1..] == workers[1..][w - 1 := worker];
    }
  }

  function Measure<P>(oracle: Oracle<P>, s: State<P>): nat
    requires s.next <= |oracle|
  {
    6 * (|oracle| - s.next) + (if s.closed then 0 else 1) + (if s.outside then 0 else 1) + Weights(s.workers)
  }

  predicate MovesWorker(a: Action) {
    !a.StopDispatch? && !a.CloseJobs? && !a.ParentCancel?
  }

  lemma WorkerFrame<P>(oracle: Oracle<P>, s: State<P>, a: Action)
    requires MovesWorker(a) && Enabled(oracle, s, a)
    ensures Do(oracle, s, a).workers == s.workers[a.w := Do(oracle, s, a).workers[a.w]]
  {
  }

  lemma FlagFrame<P>(oracle: Oracle<P>, s: State<P>, a: Action)
    requires MovesWorker(a) && Enabled(oracle, s, a)
    ensures Do(oracle, s, a).closed == s.closed && Do(oracle, s, a).outside == s.outside
    ensures Do(oracle, s, a).next == if a.Handoff? then s.next + 1 else s.next
  {
  }

  /** A worker's step takes it to a lighter place, except that a handed-out batch weighs on it. */
  lemma WorkerLightens<P>(oracle: Oracle<P>, s: State<P>, a: Action)
    requires MovesWorker(a) && Enabled(oracle, s, a)
    ensures Weight(Do(oracle, s, a).workers[a.w]) < Weight(s.workers[a.w]) + if a.Handoff? then 5 else 0
  {
  }

  /** Every step, a cancellation from outside included, lowers the measure. */
  lemma StepLowers<P>(oracle: Oracle<P>, s: State<P>, a: Action)
    requires s.next <= |oracle| && Enabled(oracle, s, a)
    ensures Do(oracle, s, a).next <= |oracle|
    ensures Measure(oracle, Do(oracle, s, a)) < Measure(oracle, s)
  {
    if MovesWorker(a) {
      WorkerFrame(oracle, s, a);
      FlagFrame(oracle, s, a);
      WorkerLightens(oracle, s, a);
      WeightsUpdate(s.workers, a.w, Do(oracle, s, a).workers[a.w]);
      assert a.Handoff? ==> s.next < |oracle|;
    }
  }

  lemma {:induction false} IdleWeights(workers: seq<Worker>)
    requires forall w :: 0 <= w < |workers| ==> workers[w].Idle?
    ensures Weights(workers) == |workers|
  {
    if workers != [] {
      IdleWeights(workers[1..]);
    }
  }

  lemma {:induction false} ExecutionSpends<P(!new)>(oracle: Oracle<P>, workers: nat, trace: seq<State<P>>, t: nat)
    requires IsExecution(oracle, workers, trace) && t < |trace|
    ensures trace[t].next <= |oracle| && t + Measure(oracle, trace[t]) <= 6 * |oracle| + 2 + workers
  {
    if t == 0 {
      IdleWeights(trace[0].workers);
    } else {
      ExecutionSpends(oracle, workers, trace, t - 1);
      assert StepsAt(oracle, trace, t - 1);
      var a :| Enabled(oracle, trace[t - 1], a) && trace[t] == Do(oracle, trace[t - 1], a);
      StepLowers(oracle, trace[t - 1], a);
    }
  }

  /** No execution has more than six steps a batch, one a worker, and two. */
  lemma ExecutionsEnd<P(!new)>(oracle: Oracle<P>, workers: nat, trace: seq<State<P>>)
    requires IsExecution(oracle, workers, trace)
    ensures |trace| - 1 <= 6 * |oracle| + 2 + workers
  {
    ExecutionSpends(oracle, workers, trace, |trace| - 1);
  }
}
