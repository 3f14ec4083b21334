/** Laws of the scheduler over whole runs: accounting, no stuck scheduler, the validated counter, one
    dispatch per version. */
module SchedulerLaws {
  import opened Types
  import opened Blocks
  import opened Scheduling
  import opened Machine
  import opened Accounting

  // ---- Accounting ----

  /** Executing a transaction does not touch the scheduler, short of aborting the block. */
  ghost predicate RunsOn(s: State, s': State, w: nat)
    requires w < |s.workers| == |s'.workers| && Tasked(s.workers[w])
  {
    && s'.sched == s.sched.(aborted := s'.sched.aborted)
    && s'.workers == s.workers[w := s'.workers[w]]
    && (s'.sched.aborted ==> s.sched.aborted || s'.workers[w].Exited?)
    && (s.sched.aborted ==> s'.sched.aborted) && (s.hist.lazyTaken ==> s'.hist.lazyTaken)
    && (!s'.sched.aborted ==> Executes(s'.workers[w], s.workers[w].v.tx) && s'.workers[w].v == s.workers[w].v)
    && s'.hist.dispatched == s.hist.dispatched && s'.hist.lazyHits == s.hist.lazyHits
  }

  lemma ReadFrame(b: Block, s: State, w: nat, l: Location)
    requires WellFormed(b, s) && w < |s.workers| && s.workers[w].Running?
    ensures |StepRead(b, s, w, l).workers| == |s.workers| && RunsOn(s, StepRead(b, s, w, l), w)
  {
  }

  lemma FinishFrame(b: Block, s: State, w: nat, result: TxResult, lazy: bool)
    requires WellFormed(b, s) && w < |s.workers| && (s.workers[w].Running? || s.workers[w].Transferring?)
    requires WellTyped(result.writes)
    ensures var s' := StepFinish(b, s, w, result, lazy); |s'.workers| == |s.workers| && RunsOn(s, s', w)
  {
  }

  lemma RunningFrame(b: Block, s: State, w: nat, l: Location)
    requires WellFormed(b, s) && w < |s.workers| && (s.workers[w].Running? || s.workers[w].Transferring?)
    ensures RunsOn(s, Step(b, s, w, l), w)
  {
    var p := s.workers[w];
    match b.txs[p.v.tx].Next(p.history)
    case Read(k) => if p.Running? { ReadFrame(b, s, w, k); }
    case Finish(result) => if p.Running? { FinishFrame(b, s, w, result, false); }
    case RawTransfer(_, _, _, _, _, _) =>
      if p.Transferring? { FinishFrame(b, s, w, LazyResult(b.txs[p.v.tx].Next(p.history)), true); }
    case Fail(_) =>
  }

  /** A worker that goes through a set of locations, or starts a task. */
  predicate Working(p: Phase) {
    p.ExecTask? || p.ValTask? || ((p.Recording? || p.Validating? || p.Converting?) && p.todo != {})
  }

  /** Such a worker leaves the scheduler alone and keeps its responsibility. */
  ghost predicate KeepsWorking(s: State, s': State, w: nat)
    requires w < |s.workers| == |s'.workers| && Tasked(s.workers[w])
  {
    var (p, q) := (s.workers[w], s'.workers[w]);
    && s'.sched == s.sched
    && s'.workers == s.workers[w := q]
    && s'.hist.dispatched == s.hist.dispatched && s'.hist.lazyHits == s.hist.lazyHits
    && s'.hist.attempts == s.hist.attempts && s'.hist.lazyTaken == s.hist.lazyTaken
    && Tasked(q) && q.v == p.v
    && (q.Recording? ==> p.Recording? && q.needValidation == p.needValidation)
    && Executes(q, p.v.tx) == Executes(p, p.v.tx) && Aborts(q, p.v.tx) == Aborts(p, p.v.tx)
    && Checks(q, p.v.tx) == Checks(p, p.v.tx) && !Starts(q, p.v.tx)
  }

  lemma RecordOneFrame(b: Block, s: State, w: nat, l: Location)
    requires WellFormed(b, s) && w < |s.workers| && s.workers[w].Recording? && MayRecord(s.workers[w], l)
    ensures |StepRecordOne(b, s, w, l).workers| == |s.workers| && KeepsWorking(s, StepRecordOne(b, s, w, l), w)
  {
  }

  lemma ConvertOneFrame(b: Block, s: State, w: nat, l: Location)
    requires WellFormed(b, s) && w < |s.workers| && s.workers[w].Converting? && l in s.workers[w].todo
    ensures |StepConvertOne(b, s, w, l).workers| == |s.workers| && KeepsWorking(s, StepConvertOne(b, s, w, l), w)
  {
  }

  lemma WorkingFrame(b: Block, s: State, w: nat, l: Location)
    requires WellFormed(b, s) && w < |s.workers| && Working(s.workers[w]) && !s.sched.aborted
    ensures KeepsWorking(s, Step(b, s, w, l), w)
  {
    var p := s.workers[w];
    match p
    case Recording(_, _, _, _, _) => if MayRecord(p, l) { RecordOneFrame(b, s, w, l); }
    case Converting(_, todo) => if l in todo { ConvertOneFrame(b, s, w, l); }
    case _ =>
  }

  lemma PollingAccounted(b: Block, s: State, w: nat)
    requires WellFormed(b, s) && w < |s.workers| && Polling(s.workers[w]) && AllAccounted(s) && !s.sched.aborted
    ensures AllAccounted(StepPolling(b, s, w))
  {
    var (p, s') := (s.workers[w], StepPolling(b, s, w));
    if p.Idle? || p.Loaded? || p.Leaving? {
      IdleKeeps(s.sched, s.workers, w, s'.workers[w]);
    } else if p.TakeValidation? {
      TakeValidationKeeps(b, s, w);
    } else if p.TakeExecution? {
      TakeExecutionKeeps(b, s, w);
    } else if p.ClaimedValidation? {
      InspectKeeps(b, s, w);
    } else if p.ClaimedExecution? {
      TryExecuteKeeps(b, s, w);
    }
  }

  lemma RunningAccounted(b: Block, s: State, w: nat, l: Location)
    requires WellFormed(b, s) && w < |s.workers| && (s.workers[w].Running? || s.workers[w].Transferring?)
    requires AllAccounted(s) && !s.sched.aborted
    ensures AllAccounted(Step(b, s, w, l))
  {
    var s' := Step(b, s, w, l);
    RunningFrame(b, s, w, l);
    if !s'.sched.aborted { StayKeeps(s.sched, s.workers, w, s'.workers[w]); }
  }

  lemma WorkingAccounted(b: Block, s: State, w: nat, l: Location)
    requires WellFormed(b, s) && w < |s.workers| && Working(s.workers[w])
    requires AllAccounted(s) && !s.sched.aborted
    ensures AllAccounted(Step(b, s, w, l))
  {
    WorkingFrame(b, s, w, l);
    StayKeeps(s.sched, s.workers, w, Step(b, s, w, l).workers[w]);
  }

  /** The critical sections and index updates of workers that hold a task. */
  predicate Settling(p: Phase) {
    p.Blocked? || p.Failed? || p.AbortLost? || p.Lowering? || p.Rerunning?
    || ((p.Recording? || p.Validating? || p.Converting?) && p.todo == {})
  }

  lemma ExecutionSettles(b: Block, s: State, w: nat, l: Location)
    requires WellFormed(b, s) && w < |s.workers| && Settling(s.workers[w])
    requires s.workers[w].Blocked? || s.workers[w].Recording?
    requires AllAccounted(s) && !s.sched.aborted
    ensures AllAccounted(Step(b, s, w, l))
  {
    if s.workers[w].Blocked? {
      AddDependencyKeeps(b, s, w);
    } else {
      FinishExecutionKeeps(b, s, w);
    }
  }

  lemma ValidationSettles(b: Block, s: State, w: nat, l: Location)
    requires WellFormed(b, s) && w < |s.workers| && Settling(s.workers[w])
    requires s.workers[w].Validating? || s.workers[w].AbortLost? || s.workers[w].Failed?
    requires AllAccounted(s) && !s.sched.aborted
    ensures AllAccounted(Step(b, s, w, l))
  {
    if s.workers[w].Failed? {
      TryAbortKeeps(b, s, w);
    } else {
      ConfirmKeeps(b, s, w);
    }
  }

  lemma AbortSettles(b: Block, s: State, w: nat, l: Location)
    requires WellFormed(b, s) && w < |s.workers| && Settling(s.workers[w])
    requires s.workers[w].Converting? || s.workers[w].Lowering? || s.workers[w].Rerunning?
    requires AllAccounted(s) && !s.sched.aborted
    ensures AllAccounted(Step(b, s, w, l))
  {
    if s.workers[w].Converting? {
      SetReadyKeeps(b, s, w);
    } else if s.workers[w].Lowering? {
      LowerKeeps(b, s, w);
    } else {
      RerunKeeps(b, s, w);
    }
  }

  lemma SettlingAccounted(b: Block, s: State, w: nat, l: Location)
    requires WellFormed(b, s) && w < |s.workers| && Settling(s.workers[w]) && AllAccounted(s) && !s.sched.aborted
    ensures AllAccounted(Step(b, s, w, l))
  {
    var p := s.workers[w];
    if p.Blocked? || p.Recording? {
      ExecutionSettles(b, s, w, l);
    } else if p.Validating? || p.AbortLost? || p.Failed? {
      ValidationSettles(b, s, w, l);
    } else {
      AbortSettles(b, s, w, l);
    }
  }

  lemma StepAccounted(b: Block, s: State, w: nat, l: Location)
    requires WellFormed(b, s) && AllAccounted(s)
    ensures AllAccounted(Step(b, s, w, l))
  {
    if w < |s.workers| && !s.sched.aborted {
      var p := s.workers[w];
      if Polling(p) {
        PollingAccounted(b, s, w);
      } else if Settling(p) {
        SettlingAccounted(b, s, w, l);
      } else if p.Running? || p.Transferring? {
        RunningAccounted(b, s, w, l);
      } else {
        WorkingAccounted(b, s, w, l);
      }
    }
  }

  /** Parked-transaction accounting in every reachable state. */
  lemma {:induction false} RunAccounted(b: Block, workers: nat, schedule: Schedule)
    ensures AllAccounted(Run(b, workers, schedule))
    decreases |schedule|
  {
    if schedule != [] {
      var (before, last) := (schedule[..|schedule| - 1], schedule[|schedule| - 1]);
      RunAccounted(b, workers, before);
      StepAccounted(b, Run(b, workers, before), last.0, last.1);
    }
  }

  // ---- No stuck scheduler ----

  /** No worker holds a task or a claim: each is somewhere in next_task, or gone. */
  ghost predicate Quiet(s: State) {
    forall w :: 0 <= w < |s.workers| ==> Target(s.workers[w]) == -1
  }

  lemma {:induction false} QuietDone(s: State, i: nat)
    requires AllAccounted(s) && !s.sched.aborted && Quiet(s) && i < |s.sched.txs|
    requires s.sched.executionIdx >= |s.sched.txs| && s.sched.validationIdx >= |s.sched.txs|
    ensures s.sched.txs[i].status == Validated
    decreases i
  {
    assert !SomeExecutes(s.workers, i) && !SomeStarts(s.workers, i) && !SomeChecks(s.workers, i);
    if s.sched.txs[i].status == Aborting {
      assert Kept(s.sched, s.workers, i);
      var j: nat :| Waits(s.sched, i, j);
      QuietDone(s, j);
    }
  }

  // ---- The validated counter ----

  function CountValidated(txs: seq<TxStatus>): nat
    decreases |txs|
  {
    if txs == [] then 0
    else (if txs[0].status == Validated then 1 else 0) + CountValidated(txs[1..])
  }

  function One(t: TxStatus): nat { if t.status == Validated then 1 else 0 }

  lemma {:induction false} CountChange(txs: seq<TxStatus>, txs': seq<TxStatus>, i: nat)
    requires |txs| == |txs'| && i < |txs|
    requires forall k :: 0 <= k < |txs| && k != i ==> One(txs'[k]) == One(txs[k])
    ensures CountValidated(txs') == CountValidated(txs) - One(txs[i]) + One(txs'[i])
    decreases |txs|
  {
    if i > 0 {
      CountChange(txs[1..], txs'[1..], i - 1);
    } else {
      CountSame(txs[1..], txs'[1..]);
    }
  }

  lemma {:induction false} CountSame(txs: seq<TxStatus>, txs': seq<TxStatus>)
    requires |txs| == |txs'|
    requires forall k :: 0 <= k < |txs| ==> One(txs'[k]) == One(txs[k])
    ensures CountValidated(txs') == CountValidated(txs)
    decreases |txs|
  {
    if txs != [] { CountSame(txs[1..], txs'[1..]); }
  }

  lemma {:induction false} CountAll(txs: seq<TxStatus>, each: nat)
    requires forall i :: 0 <= i < |txs| ==> One(txs[i]) == each
    ensures CountValidated(txs) == each * |txs|
    decreases |txs|
  {
    if txs != [] {
      assert One(txs[0]) == each;
      CountAll(txs[1..], each);
    }
  }

  /** The counter is the number of Validated transactions plus the double counts of lazy finishes. */
  ghost predicate Counted(s: State) {
    s.sched.aborted || s.sched.numValidated == CountValidated(s.sched.txs) + s.hist.lazyHits
  }

  lemma FinishExecutionCounted(b: Block, s: State, w: nat)
    requires WellFormed(b, s) && w < |s.workers| && s.workers[w].Recording?
    requires AllAccounted(s) && Counted(s) && !s.sched.aborted
    ensures Counted(StepFinishExecution(b, s, w))
  {
    var p := s.workers[w];
    assert Executes(p, p.v.tx);
    FinishExecutionEffect(s.sched, s.workers, p.v, p.needValidation, p.wroteNew);
    CountChange(s.sched.txs, StepFinishExecution(b, s, w).sched.txs, p.v.tx);
  }

  lemma PollingCounted(b: Block, s: State, w: nat)
    requires WellFormed(b, s) && w < |s.workers| && Polling(s.workers[w]) && Counted(s) && !s.sched.aborted
    ensures Counted(StepPolling(b, s, w))
  {
    var (p, s') := (s.workers[w], StepPolling(b, s, w));
    if p.ClaimedExecution? || p.ClaimedValidation? {
      if p.claim < |s.sched.txs| { CountChange(s.sched.txs, s'.sched.txs, p.claim); }
    }
  }

  lemma StatusStepCounted(b: Block, s: State, w: nat, l: Location)
    requires WellFormed(b, s) && w < |s.workers|
    requires var p := s.workers[w];
             || p.Blocked? || p.Failed? || p.AbortLost?
             || ((p.Validating? || p.Converting?) && p.todo == {})
    requires AllAccounted(s) && Counted(s) && !s.sched.aborted
    ensures Counted(Step(b, s, w, l))
  {
    var p := s.workers[w];
    assert p.Blocked? ==> Executes(p, p.v.tx);
    assert p.Converting? ==> Aborts(p, p.v.tx);
    CountChange(s.sched.txs, Step(b, s, w, l).sched.txs, p.v.tx);
  }

  lemma StepCounted(b: Block, s: State, w: nat, l: Location)
    requires WellFormed(b, s) && AllAccounted(s) && Counted(s)
    ensures Counted(Step(b, s, w, l))
  {
    if w < |s.workers| && !s.sched.aborted {
      var p := s.workers[w];
      if Polling(p) {
        PollingCounted(b, s, w);
      } else if Working(p) {
        WorkingFrame(b, s, w, l);
      } else if p.Running? || p.Transferring? {
        RunningFrame(b, s, w, l);
      } else if p.Recording? {
        FinishExecutionCounted(b, s, w);
      } else if !p.Lowering? && !p.Rerunning? {
        StatusStepCounted(b, s, w, l);
      }
    }
  }

  lemma {:induction false} RunCounted(b: Block, workers: nat, schedule: Schedule)
    ensures Counted(Run(b, workers, schedule))
    decreases |schedule|
  {
    if schedule == [] {
      CountAll(Scheduling.Initial(|b.txs|).txs, 0);
    } else {
      var (before, last) := (schedule[..|schedule| - 1], schedule[|schedule| - 1]);
      RunCounted(b, workers, before);
      RunAccounted(b, workers, before);
      StepCounted(b, Run(b, workers, before), last.0, last.1);
    }
  }

  /** When no worker holds a task and both indices are past the block, every transaction is Validated
      and the exit test succeeds: no worker polls forever. */
  lemma NoStuckScheduler(b: Block, workers: nat, schedule: Schedule)
    requires var s := Run(b, workers, schedule);
             && !s.sched.aborted && Quiet(s)
             && s.sched.executionIdx >= |b.txs| && s.sched.validationIdx >= |b.txs|
    ensures var s := Run(b, workers, schedule);
            && (forall i :: 0 <= i < |b.txs| ==> s.sched.txs[i].status == Validated)
            && NextTask(s.sched) == (s.sched, Leave)
  {
    var s := Run(b, workers, schedule);
    RunAccounted(b, workers, schedule);
    RunCounted(b, workers, schedule);
    forall i | 0 <= i < |b.txs| ensures s.sched.txs[i].status == Validated { QuietDone(s, i); }
    CountAll(s.sched.txs, 1);
  }

  // ---- One dispatch per version ----

  /** Incarnations only grow, and a transaction becomes ready only by starting a new one. */
  predicate Later(t: TxStatus, t': TxStatus) {
    || t'.incarnation > t.incarnation
    || (t'.incarnation == t.incarnation && (t'.status == ReadyToExecute ==> t.status == ReadyToExecute))
  }

  /** A version whose execution has not been handed out. */
  predicate Undispatched(txs: seq<TxStatus>, v: Version)
    requires v.tx < |txs|
  {
    || v.incarnation > txs[v.tx].incarnation
    || (v.incarnation == txs[v.tx].incarnation && txs[v.tx].status == ReadyToExecute)
  }

  /** Each (transaction, incarnation) is handed out for execution at most once, by whatever path. */
  ghost predicate DispatchedOnce(s: State) {
    && (forall k :: 0 <= k < |s.hist.dispatched| ==>
          s.hist.dispatched[k].tx < |s.sched.txs| && !Undispatched(s.sched.txs, s.hist.dispatched[k]))
    && (forall k, m :: 0 <= k < m < |s.hist.dispatched| ==> s.hist.dispatched[k] != s.hist.dispatched[m])
  }

  ghost predicate Progressed(s: State, s': State) {
    && |s'.sched.txs| == |s.sched.txs|
    && (forall k :: 0 <= k < |s.sched.txs| ==> Later(s.sched.txs[k], s'.sched.txs[k]))
    && (|| s'.hist.dispatched == s.hist.dispatched
        || exists v ::
             && s'.hist.dispatched == s.hist.dispatched + [v]
             && v.tx < |s.sched.txs| && Undispatched(s.sched.txs, v) && !Undispatched(s'.sched.txs, v))
  }

  lemma {:induction false} DrainLater(s: Sched, ds: seq<nat>)
    requires forall i :: i in ds ==> 0 <= i < |s.txs|
    ensures forall k :: 0 <= k < |s.txs| ==> Later(s.txs[k], Drain(s, ds).txs[k])
    decreases |ds|
  {
    if ds != [] {
      assert ds[0] in ds && forall i :: i in ds[1..] ==> i in ds;
      var s1 := SetReady(s, ds[0]).(executionIdx := Min(s.executionIdx, ds[0]));
      DrainLater(s1, ds[1..]);
      forall k | 0 <= k < |s.txs| ensures Later(s.txs[k], Drain(s, ds).txs[k]) {
        assert Later(s.txs[k], s1.txs[k]);
      }
    }
  }

  lemma PollingLater(b: Block, s: State, w: nat)
    requires WellFormed(b, s) && w < |s.workers| && Polling(s.workers[w])
    ensures Progressed(s, StepPolling(b, s, w))
  {
    var s' := StepPolling(b, s, w);
    if s'.workers[w].ExecTask? {
      var v := s'.workers[w].v;
      assert Undispatched(s.sched.txs, v) && !Undispatched(s'.sched.txs, v);
      assert s'.hist.dispatched == s.hist.dispatched + [v];
    }
  }

  lemma FinishExecutionLater(b: Block, s: State, w: nat)
    requires WellFormed(b, s) && w < |s.workers| && s.workers[w].Recording?
    ensures Progressed(s, StepFinishExecution(b, s, w))
  {
    DrainLater(s.sched, s.sched.dependents[s.workers[w].v.tx]);
  }

  lemma SettlingLater(b: Block, s: State, w: nat, l: Location)
    requires WellFormed(b, s) && w < |s.workers| && !Polling(s.workers[w]) && !Working(s.workers[w])
    requires !s.workers[w].Running? && !s.workers[w].Transferring? && !s.workers[w].Recording?
    ensures Progressed(s, Step(b, s, w, l))
  {
  }

  lemma StepLater(b: Block, s: State, w: nat, l: Location)
    requires WellFormed(b, s)
    ensures Progressed(s, Step(b, s, w, l))
  {
    if w < |s.workers| {
      var p := s.workers[w];
      if Polling(p) {
        PollingLater(b, s, w);
      } else if Working(p) {
        if !s.sched.aborted { WorkingFrame(b, s, w, l); }
      } else if p.Running? || p.Transferring? {
        RunningFrame(b, s, w, l);
      } else if p.Recording? {
        FinishExecutionLater(b, s, w);
      } else {
        SettlingLater(b, s, w, l);
      }
    }
  }

  lemma {:induction false} RunDispatchedOnce(b: Block, workers: nat, schedule: Schedule)
    ensures DispatchedOnce(Run(b, workers, schedule))
    decreases |schedule|
  {
    if schedule != [] {
      var (before, last) := (schedule[..|schedule| - 1], schedule[|schedule| - 1]);
      RunDispatchedOnce(b, workers, before);
      StepLater(b, Run(b, workers, before), last.0, last.1);
    }
  }

  // ---- Leaving ----

  /** The worker still has to look at execution_idx before it may leave. */
  predicate WillLoadExecution(p: Phase, n: nat) {
    !p.Exited? && !p.Leaving? && !(p.Loaded? && p.executionIdx >= n)
  }

  predicate WillLoadValidation(p: Phase) {
    !p.Exited? && !p.Leaving?
  }

  /** While an index is inside the block, some worker is yet to see it. */
  ghost predicate Watched(b: Block, s: State) {
    || s.sched.aborted
    || (&& (s.sched.executionIdx < |b.txs| ==>
              exists w :: 0 <= w < |s.workers| && WillLoadExecution(s.workers[w], |b.txs|))
        && (s.sched.validationIdx < |b.txs| ==>
              exists w :: 0 <= w < |s.workers| && WillLoadValidation(s.workers[w])))
  }

  /** A step keeps its worker on watch, and puts it there when it lowers an index. */
  ghost predicate KeepsWatch(b: Block, s: State, s': State, w: nat)
    requires w < |s.workers| == |s'.workers|
  {
    var (n, p, q) := (|b.txs|, s.workers[w], s'.workers[w]);
    || s'.sched.aborted
    || (&& s'.workers == s.workers[w := q]
        && (s'.sched.executionIdx < n && (WillLoadExecution(p, n) || s'.sched.executionIdx < s.sched.executionIdx) ==>
              WillLoadExecution(q, n))
        && (s'.sched.validationIdx < n && (WillLoadValidation(p) || s'.sched.validationIdx < s.sched.validationIdx) ==>
              WillLoadValidation(q)))
  }

  lemma PollingKeepsWatch(b: Block, s: State, w: nat)
    requires WellFormed(b, s) && w < |s.workers| && Polling(s.workers[w])
    ensures |StepPolling(b, s, w).workers| == |s.workers| && KeepsWatch(b, s, StepPolling(b, s, w), w)
  {
  }

  lemma SettlingKeepsWatch(b: Block, s: State, w: nat, l: Location)
    requires WellFormed(b, s) && w < |s.workers| && Settling(s.workers[w])
    ensures KeepsWatch(b, s, Step(b, s, w, l), w)
  {
  }

  lemma StepKeepsWatch(b: Block, s: State, w: nat, l: Location)
    requires WellFormed(b, s) && w < |s.workers| && !s.sched.aborted
    ensures KeepsWatch(b, s, Step(b, s, w, l), w)
  {
    var p := s.workers[w];
    if Polling(p) {
      PollingKeepsWatch(b, s, w);
    } else if Settling(p) {
      SettlingKeepsWatch(b, s, w, l);
    } else if p.Running? || p.Transferring? {
      RunningFrame(b, s, w, l);
    } else {
      WorkingFrame(b, s, w, l);
    }
  }

  lemma WatchFrame(b: Block, s: State, s': State, w: nat)
    requires Watched(b, s) && !s.sched.aborted && w < |s.workers| == |s'.workers| && KeepsWatch(b, s, s', w)
    ensures Watched(b, s')
  {
    var n := |b.txs|;
    if !s'.sched.aborted {
      if s'.sched.executionIdx < n && !WillLoadExecution(s'.workers[w], n) {
        var x :| 0 <= x < |s.workers| && WillLoadExecution(s.workers[x], n);
        assert WillLoadExecution(s'.workers[x], n);
      }
      if s'.sched.validationIdx < n && !WillLoadValidation(s'.workers[w]) {
        var x :| 0 <= x < |s.workers| && WillLoadValidation(s.workers[x]);
        assert WillLoadValidation(s'.workers[x]);
      }
    }
  }

  /** The abort flag and the lazy flag are never taken back. */
  lemma StepFlags(b: Block, s: State, w: nat, l: Location)
    requires WellFormed(b, s)
    ensures s.sched.aborted ==> Step(b, s, w, l).sched.aborted
    ensures s.hist.lazyTaken ==> Step(b, s, w, l).hist.lazyTaken
  {
    if w < |s.workers| && (s.workers[w].Running? || s.workers[w].Transferring?) { RunningFrame(b, s, w, l); }
  }

  lemma {:induction false} RunWatched(b: Block, workers: nat, schedule: Schedule)
    requires workers > 0
    ensures Watched(b, Run(b, workers, schedule))
    decreases |schedule|
  {
    if schedule == [] {
      var s := Init(b, workers);
      assert WillLoadExecution(s.workers[0], |b.txs|) && WillLoadValidation(s.workers[0]);
    } else {
      var (before, last) := (schedule[..|schedule| - 1], schedule[|schedule| - 1]);
      var s := Run(b, workers, before);
      RunWatched(b, workers, before);
      if s.sched.aborted {
        StepFlags(b, s, last.0, last.1);
      } else if last.0 < |s.workers| {
        StepKeepsWatch(b, s, last.0, last.1);
        WatchFrame(b, s, Step(b, s, last.0, last.1), last.0);
      }
    }
  }

  ghost predicate AllExited(s: State) {
    forall w :: 0 <= w < |s.workers| ==> s.workers[w].Exited?
  }

  /** When all workers have left an unaborted run, both indices are past the block and every
      transaction is Validated: no worker leaves the others' work behind. */
  lemma ExitedMeansDone(b: Block, workers: nat, schedule: Schedule)
    requires var s := Run(b, workers, schedule); workers > 0 && AllExited(s) && !s.sched.aborted
    ensures var s := Run(b, workers, schedule);
            && s.sched.executionIdx >= |b.txs| && s.sched.validationIdx >= |b.txs|
            && (forall i :: 0 <= i < |b.txs| ==> s.sched.txs[i].status == Validated)
  {
    var s := Run(b, workers, schedule);
    RunWatched(b, workers, schedule);
    RunAccounted(b, workers, schedule);
    forall i | 0 <= i < |b.txs| ensures s.sched.txs[i].status == Validated { QuietDone(s, i); }
  }
}
