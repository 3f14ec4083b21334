/** The invariant of the whole system, kept by every step of every worker. */
module Invariants {
  import opened Types
  import opened Memory
  import opened Blocks
  import opened Machine
  import opened Accounting
  import opened SchedulerLaws
  import opened MemoryLaws
  import opened MemorySteps
  import opened StaleReads

  ghost predicate Inv(b: Block, s: State) {
    WellFormed(b, s) && AllAccounted(s) && Remembered(b, s) && ExplicitRun(b, s) && NothingForgotten(b, s)
  }

  // ---- Who asks for validation ----

  lemma ExplicitFrame(b: Block, s: State, s': State, w: nat)
    requires WellFormed(b, s) && WellFormed(b, s') && ExplicitRun(b, s) && !s.sched.aborted
    requires w < |s.workers| == |s'.workers| && s'.workers == s.workers[w := s'.workers[w]]
    requires s'.workers[w].Transferring? ==> s'.hist.lazyTaken
    requires var (p, q) := (s.workers[w], s'.workers[w]);
             q.Recording? ==> p.Recording? && q.v == p.v && q.needValidation == p.needValidation
    requires s'.hist.attempts == s.hist.attempts && (s.hist.lazyTaken ==> s'.hist.lazyTaken)
    requires s'.hist.lazyHits == s.hist.lazyHits
    requires s'.sched.minValidationIdx == s.sched.minValidationIdx
    requires forall i :: 0 <= i < |b.txs| && Checkable(b, s', i) ==> Checkable(b, s, i)
    ensures ExplicitRun(b, s')
  {
  }

  lemma FinishExecutionExplicit(b: Block, s: State, w: nat)
    requires WellFormed(b, s) && w < |s.workers| && s.workers[w].Recording?
    requires AllAccounted(s) && ExplicitRun(b, s) && !s.sched.aborted
    ensures ExplicitRun(b, StepFinishExecution(b, s, w))
  {
    var (p, s') := (s.workers[w], StepFinishExecution(b, s, w));
    assert s'.sched.minValidationIdx <= s.sched.minValidationIdx;
    FinishedVersion(b, s, w);
    forall i | 1 <= i < |b.txs| && Checkable(b, s', i) ensures s'.sched.minValidationIdx <= i {
      if i != p.v.tx { FinishExecutionDone(b, s, w, i); }
    }
  }

  lemma FinishCheckable(b: Block, s: State, w: nat, result: TxResult, lazy: bool, i: nat)
    requires WellFormed(b, s) && AboutToRecord(b, s, w, result) && !s.sched.Done(s.workers[w].v.tx) && i < |b.txs|
    ensures Checkable(b, StepFinish(b, s, w, result, lazy), i) ==> Checkable(b, s, i)
  {
  }

  lemma FinishVersions(b: Block, s: State, w: nat, result: TxResult, lazy: bool, v: Version)
    requires WellFormed(b, s) && AboutToRecord(b, s, w, result) && v.tx < |b.txs|
    requires lazy <==> b.txs[s.workers[w].v.tx].Next(s.workers[w].history).RawTransfer?
    ensures LazyVersion(b, StepFinish(b, s, w, result, lazy), v) <==>
            if v == s.workers[w].v then lazy else LazyVersion(b, s, v)
  {
  }

  /** Worker x, whoever finished, records a write set that asks for validation unless first or lazy. */
  lemma FinishRecording(b: Block, s: State, w: nat, result: TxResult, lazy: bool, x: nat)
    requires WellFormed(b, s) && ExplicitRun(b, s) && !s.sched.aborted && AboutToRecord(b, s, w, result)
    requires AllAccounted(s) && x < |s.workers|
    requires lazy <==> b.txs[s.workers[w].v.tx].Next(s.workers[w].history).RawTransfer?
    ensures var s' := StepFinish(b, s, w, result, lazy);
            var q := s'.workers[x];
            q.Recording? ==> (q.needValidation <==> q.v.tx > 0 && !LazyVersion(b, s', q.v))
  {
    var p := s.workers[w];
    assert Executes(p, p.v.tx) && Owns(p, p.v.tx);
    OwnerSole(s, w, p.v.tx);
    var q := StepFinish(b, s, w, result, lazy).workers[x];
    if q.Recording? {
      assert x == w || (q == s.workers[x] && Owns(q, q.v.tx) && q.v.tx != p.v.tx);
      FinishVersions(b, s, w, result, lazy, q.v);
    }
  }

  lemma FinishExplicit(b: Block, s: State, w: nat, result: TxResult, lazy: bool)
    requires WellFormed(b, s) && ExplicitRun(b, s) && !s.sched.aborted && AboutToRecord(b, s, w, result)
    requires AllAccounted(s) && (lazy ==> s.hist.lazyTaken)
    requires lazy <==> b.txs[s.workers[w].v.tx].Next(s.workers[w].history).RawTransfer?
    ensures ExplicitRun(b, StepFinish(b, s, w, result, lazy))
  {
    var p := s.workers[w];
    assert Executes(p, p.v.tx) && Owns(p, p.v.tx) && !s.sched.Done(p.v.tx);
    forall x | 0 <= x < |s.workers| { FinishRecording(b, s, w, result, lazy, x); }
    forall i | 0 <= i < |b.txs| { FinishCheckable(b, s, w, result, lazy, i); }
    forall v: Version | v.tx < |b.txs| { FinishVersions(b, s, w, result, lazy, v); }
  }

  lemma RunningExplicit(b: Block, s: State, w: nat, l: Location)
    requires WellFormed(b, s) && w < |s.workers| && s.workers[w].Running?
    requires ExplicitRun(b, s) && !s.sched.aborted && !b.txs[s.workers[w].v.tx].Next(s.workers[w].history).Finish?
    ensures ExplicitRun(b, Step(b, s, w, l))
  {
    var (p, s') := (s.workers[w], Step(b, s, w, l));
    RunningFrame(b, s, w, l);
    if !s'.sched.aborted { ExplicitFrame(b, s, s', w); }
  }

  lemma PollingExplicit(b: Block, s: State, w: nat)
    requires WellFormed(b, s) && w < |s.workers| && Polling(s.workers[w]) && ExplicitRun(b, s) && !s.sched.aborted
    ensures ExplicitRun(b, StepPolling(b, s, w))
  {
    PollingFrame(b, s, w);
    ExplicitFrame(b, s, StepPolling(b, s, w), w);
  }

  lemma SettlingExplicit(b: Block, s: State, w: nat, l: Location)
    requires WellFormed(b, s) && w < |s.workers| && Settling(s.workers[w]) && !s.workers[w].Recording?
    requires ExplicitRun(b, s) && !s.sched.aborted
    ensures ExplicitRun(b, Step(b, s, w, l))
  {
    ExplicitFrame(b, s, Step(b, s, w, l), w);
  }

  lemma WorkingExplicit(b: Block, s: State, w: nat, l: Location)
    requires WellFormed(b, s) && w < |s.workers| && Working(s.workers[w]) && ExplicitRun(b, s) && !s.sched.aborted
    ensures ExplicitRun(b, Step(b, s, w, l))
  {
    WorkingFrame(b, s, w, l);
    ExplicitFrame(b, s, Step(b, s, w, l), w);
  }

  lemma StepExplicit(b: Block, s: State, w: nat, l: Location)
    requires WellFormed(b, s) && ExplicitRun(b, s) && AllAccounted(s) && !s.sched.aborted
    ensures ExplicitRun(b, Step(b, s, w, l))
  {
    if w < |s.workers| {
      var p := s.workers[w];
      if Polling(p) {
        PollingExplicit(b, s, w);
      } else if Working(p) {
        WorkingExplicit(b, s, w, l);
      } else if p.Recording? {
        FinishExecutionExplicit(b, s, w);
      } else if Settling(p) {
        SettlingExplicit(b, s, w, l);
      } else if p.Transferring? {
        FinishExplicit(b, s, w, LazyResult(b.txs[p.v.tx].Next(p.history)), true);
      } else if b.txs[p.v.tx].Next(p.history).Finish? {
        FinishExplicit(b, s, w, b.txs[p.v.tx].Next(p.history).result, false);
      } else {
        RunningExplicit(b, s, w, l);
      }
    }
  }

  // ---- Every step, every run ----

  lemma StepInv(b: Block, s: State, w: nat, l: Location)
    requires Inv(b, s)
    ensures Inv(b, Step(b, s, w, l))
  {
    if s.sched.aborted {
      StepFlags(b, s, w, l);
    } else {
      StepAccounted(b, s, w, l);
      StepRemembered(b, s, w, l);
      StepExplicit(b, s, w, l);
      StepCovered(b, s, w, l);
    }
  }

  lemma InitEntries(b: Block, workers: nat)
    ensures EntriesOk(b, Init(b, workers))
  {
    var s := Init(b, workers);
    forall i, l | 0 <= i < |b.txs| ensures EntryOf(s.mem.data, l, i) == Held(s, i, l) {
    }
  }

  lemma InitInv(b: Block, workers: nat)
    ensures Inv(b, Init(b, workers))
  {
    var s := Init(b, workers);
    InitEntries(b, workers);
    assert forall i :: 0 <= i < |b.txs| ==> PhasedAt(b, s, i);
  }

  lemma {:induction false} RunInv(b: Block, workers: nat, schedule: Schedule)
    ensures Inv(b, Run(b, workers, schedule))
    decreases |schedule|
  {
    if schedule == [] {
      InitInv(b, workers);
    } else {
      var (before, last) := (schedule[..|schedule| - 1], schedule[|schedule| - 1]);
      RunInv(b, workers, before);
      StepInv(b, Run(b, workers, before), last.0, last.1);
    }
  }
}
