/** No stale read is forgotten: a location at which the read set of a done transaction no longer validates
    is ahead of the validation index or in the hands of some worker, unless the transaction was evaluated
    lazily. */
module StaleReads {
  import opened Types
  import opened Reads
  import opened Memory
  import opened Blocks
  import opened Scheduling
  import opened Machine
  import opened Accounting
  import opened SchedulerLaws
  import opened MemoryLaws

  // ---- Lazy and checkable executions ----

  /** The version recorded a transfer evaluated lazily. */
  ghost predicate LazyVersion(b: Block, s: State, v: Version)
    requires v.tx < |b.txs|
  {
    v in s.hist.attempts && b.txs[v.tx].Next(s.hist.attempts[v].history).RawTransfer?
  }

  /** Done, by an execution that asks for validation or needs none. */
  ghost predicate Checkable(b: Block, s: State, i: nat)
    requires WellFormed(b, s) && i < |b.txs|
  {
    s.sched.Done(i) && !LazyVersion(b, s, Current(s, i))
  }

  /** Every transaction but the first asks for validation unless it was evaluated lazily, so the validation
      floor is at or below every other checkable transaction. */
  ghost predicate ExplicitRun(b: Block, s: State)
    requires WellFormed(b, s)
  {
    s.sched.aborted ||
    (&& (|b.txs| > 0 ==> s.sched.minValidationIdx > 0)
     && (forall w :: 0 <= w < |s.workers| && s.workers[w].Recording? ==>
           (s.workers[w].needValidation <==> s.workers[w].v.tx > 0 && !LazyVersion(b, s, s.workers[w].v)))
     && (forall i :: 1 <= i < |b.txs| && Checkable(b, s, i) ==> s.sched.minValidationIdx <= i)
     && (!s.hist.lazyTaken ==>
           && s.hist.lazyHits == 0
           && (forall w :: 0 <= w < |s.workers| ==> !s.workers[w].Transferring?)
           && (forall v :: v in s.hist.attempts && v.tx < |b.txs| ==> !LazyVersion(b, s, v))))
  }

  // ---- Stale and covered ----

  ghost predicate StaleAt(s: State, i: nat, l: Location)
    requires i < |s.mem.lastRead|
  {
    l in s.mem.lastRead[i] && !ValidAt(s.mem.data, l, i, s.mem.lastRead[i][l])
  }

  /** The worker will check the read of l by transaction i, will abort i, or will send the validation
      index to i or below. */
  predicate CoversAt(p: Phase, i: nat, l: Location, rs: ReadSet) {
    || (p.ClaimedValidation? && p.claim == i)
    || ((p.ValTask? || p.Failed?) && p.v.tx == i)
    || (p.Validating? && p.v.tx == i && p.rs == rs && l in p.todo)
    || ((p.Converting? || p.Lowering?) && p.v.tx < i)
    || (p.Recording? && p.wroteNew && p.v.tx < i)
  }

  ghost predicate CoveredAt(s: State, i: nat, l: Location)
    requires i < |s.mem.lastRead|
  {
    || s.sched.validationIdx <= i
    || exists w :: 0 <= w < |s.workers| && CoversAt(s.workers[w], i, l, s.mem.lastRead[i])
  }

  ghost predicate NothingForgotten(b: Block, s: State)
    requires WellFormed(b, s)
  {
    s.sched.aborted ||
    forall i, l :: 0 <= i < |b.txs| && Checkable(b, s, i) && StaleAt(s, i, l) ==> CoveredAt(s, i, l)
  }

  /** What a step of worker w owes a stale read. */
  ghost predicate StillCovered(b: Block, s: State, s': State, w: nat, i: nat, l: Location)
    requires WellFormed(b, s) && WellFormed(b, s') && w < |s.workers| == |s'.workers| && i < |b.txs|
  {
    || s'.sched.validationIdx <= i
    || CoversAt(s'.workers[w], i, l, s'.mem.lastRead[i])
    || (&& Checkable(b, s, i) && StaleAt(s, i, l) && s.sched.validationIdx > i
        && s'.mem.lastRead[i] == s.mem.lastRead[i] && !CoversAt(s.workers[w], i, l, s.mem.lastRead[i]))
  }

  lemma CoverageStep(b: Block, s: State, s': State, w: nat)
    requires WellFormed(b, s) && WellFormed(b, s') && NothingForgotten(b, s)
    requires !s.sched.aborted
    requires w < |s.workers| == |s'.workers| && s'.workers == s.workers[w := s'.workers[w]]
    requires forall i, l :: 0 <= i < |b.txs| && Checkable(b, s', i) && StaleAt(s', i, l) ==>
               StillCovered(b, s, s', w, i, l)
    ensures NothingForgotten(b, s')
  {
    forall i, l | 0 <= i < |b.txs| && Checkable(b, s', i) && StaleAt(s', i, l) ensures CoveredAt(s', i, l) {
      assert StillCovered(b, s, s', w, i, l);
      if s'.sched.validationIdx > i && !CoversAt(s'.workers[w], i, l, s'.mem.lastRead[i]) {
        var x :| 0 <= x < |s.workers| && CoversAt(s.workers[x], i, l, s.mem.lastRead[i]);
        assert CoversAt(s'.workers[x], i, l, s'.mem.lastRead[i]);
      }
    }
  }

  /** Steps that change neither the memory nor raise the validation index. */
  lemma QuietCovered(b: Block, s: State, s': State, w: nat)
    requires WellFormed(b, s) && WellFormed(b, s') && NothingForgotten(b, s)
    requires !s.sched.aborted
    requires w < |s.workers| == |s'.workers| && s'.workers == s.workers[w := s'.workers[w]]
    requires s'.mem == s.mem && s'.sched.validationIdx <= s.sched.validationIdx
    requires forall i :: 0 <= i < |b.txs| && Checkable(b, s', i) ==> Checkable(b, s, i)
    requires forall i, l :: 0 <= i < |b.txs| && Checkable(b, s', i) && StaleAt(s, i, l) &&
                            CoversAt(s.workers[w], i, l, s.mem.lastRead[i]) ==>
               s'.sched.validationIdx <= i || CoversAt(s'.workers[w], i, l, s.mem.lastRead[i])
    ensures NothingForgotten(b, s')
  {
    forall i, l | 0 <= i < |b.txs| && Checkable(b, s', i) && StaleAt(s', i, l)
      ensures StillCovered(b, s, s', w, i, l)
    {
      assert StaleAt(s, i, l);
    }
    CoverageStep(b, s, s', w);
  }

  /** A read that the step breaks is covered by the worker that takes it. */
  ghost predicate BreaksCovered(b: Block, s: State, s': State, w: nat)
    requires WellFormed(b, s) && WellFormed(b, s') && w < |s'.workers|
  {
    forall i, l :: 0 <= i < |b.txs| && Checkable(b, s, i) && StaleAt(s', i, l) ==>
      StaleAt(s, i, l) || CoversAt(s'.workers[w], i, l, s.mem.lastRead[i])
  }

  /** Steps that change the memory only. */
  lemma MemoryStepCovered(b: Block, s: State, s': State, w: nat)
    requires WellFormed(b, s) && WellFormed(b, s') && NothingForgotten(b, s)
    requires !s.sched.aborted
    requires w < |s.workers| == |s'.workers| && s'.workers == s.workers[w := s'.workers[w]] && s'.sched == s.sched
    requires forall i, l :: 0 <= i < |b.txs| && Checkable(b, s, i) &&
                            CoversAt(s.workers[w], i, l, s.mem.lastRead[i]) ==>
               CoversAt(s'.workers[w], i, l, s.mem.lastRead[i])
    requires forall i :: 0 <= i < |b.txs| && Checkable(b, s', i) ==> Checkable(b, s, i)
    requires forall i :: 0 <= i < |b.txs| && Checkable(b, s, i) ==> s'.mem.lastRead[i] == s.mem.lastRead[i]
    requires BreaksCovered(b, s, s', w)
    ensures NothingForgotten(b, s')
  {
    forall i, l | 0 <= i < |b.txs| && Checkable(b, s', i) && StaleAt(s', i, l)
      ensures StillCovered(b, s, s', w, i, l)
    {
      assert s'.mem.lastRead[i] == s.mem.lastRead[i];
    }
    CoverageStep(b, s, s', w);
  }

  // ---- Read sets of done transactions ----

  lemma DoneReadsOk(b: Block, s: State, i: nat)
    requires WellFormed(b, s) && LogOk(b, s) && i < |b.txs| && HasAttempt(s, i)
    ensures ChainsOk(s.mem.lastRead[i], i, s.hist.written)
  {
    var v := Current(s, i);
    assert AttemptOk(b, s.hist.written, v, s.hist.attempts[v]);
  }

  lemma FirstChain(l: Location, chain: seq<Origin>, log: Written, entries: Entries)
    requires ChainOk(l, chain, 0, log)
    ensures chain == [FromStorage] && Matches(entries, 0, chain)
  {
    assert Closest(entries, 0).None? && chain[1..] == [];
  }

  /** The first transaction reads storage only. */
  lemma FirstNeverStale(b: Block, s: State, l: Location)
    requires WellFormed(b, s) && LogOk(b, s) && |b.txs| > 0 && HasAttempt(s, 0)
    ensures !StaleAt(s, 0, l)
  {
    DoneReadsOk(b, s, 0);
    if l in s.mem.lastRead[0] {
      FirstChain(l, s.mem.lastRead[0][l], s.hist.written, At(s.mem.data, l));
    }
  }

  // ---- Entry updates ----

  /** Only the entry of j changes, and only from an ESTIMATE or nothing when it lies below i. */
  ghost predicate Harmless(h: Entries, h': Entries, j: nat, i: nat) {
    && (forall k :: k != j ==> (k in h <==> k in h') && (k in h ==> h[k] == h'[k]))
    && (j < i && h != h' ==> j in h && h[j].Estimate?)
  }

  lemma HarmlessKeepsValid(s: State, s': State, l: Location, j: nat, i: nat, chain: seq<Origin>)
    requires ChainOk(l, chain, i, s.hist.written) && Harmless(At(s.mem.data, l), At(s'.mem.data, l), j, i)
    ensures ValidAt(s.mem.data, l, i, chain) ==> ValidAt(s'.mem.data, l, i, chain)
  {
    var (h, h') := (At(s.mem.data, l), At(s'.mem.data, l));
    ValidAtIsMatches(s.mem.data, l, i, chain, s.hist.written);
    ValidAtIsMatches(s'.mem.data, l, i, chain, s.hist.written);
    if Matches(h, i, chain) {
      if j < i && h != h' { EstimateGoneKeepsValid(h, h', j, i, chain); } else { MatchesFrame(h, h', i, chain); }
    }
  }

  lemma RecordOneHarmless(b: Block, s: State, w: nat, l: Location, k: Location, i: nat)
    requires WellFormed(b, s) && w < |s.workers| && s.workers[w].Recording? && MayRecord(s.workers[w], l)
    requires EntriesOk(b, s) && InRecord(b, s, s.workers[w], s.workers[w].v.tx)
    requires i < |b.txs|
    ensures var (j, s') := (s.workers[w].v.tx, StepRecordOne(b, s, w, l));
            || Harmless(At(s.mem.data, k), At(s'.mem.data, k), j, i)
            || (j < i && s'.workers[w].wroteNew)
  {
    var (p, s') := (s.workers[w], StepRecordOne(b, s, w, l));
    assert EntryOf(s.mem.data, l, p.v.tx) == Held(s, p.v.tx, l);
    assert l !in s.hist.stored[p.v.tx];
    assert k != l ==> At(s'.mem.data, k) == At(s.mem.data, k);
  }

  lemma RecordOneStale(b: Block, s: State, w: nat, l: Location, i: nat, k: Location)
    requires WellFormed(b, s) && w < |s.workers| && s.workers[w].Recording? && MayRecord(s.workers[w], l)
    requires EntriesOk(b, s) && LogOk(b, s) && InRecord(b, s, s.workers[w], s.workers[w].v.tx)
    requires i < |b.txs| && HasAttempt(s, i) && StaleAt(StepRecordOne(b, s, w, l), i, k)
    ensures var s' := StepRecordOne(b, s, w, l);
            StaleAt(s, i, k) || (s.workers[w].v.tx < i && s'.workers[w].wroteNew)
  {
    var (j, s') := (s.workers[w].v.tx, StepRecordOne(b, s, w, l));
    DoneReadsOk(b, s, i);
    RecordOneHarmless(b, s, w, l, k, i);
    if Harmless(At(s.mem.data, k), At(s'.mem.data, k), j, i) {
      HarmlessKeepsValid(s, s', k, j, i, s.mem.lastRead[i][k]);
    }
  }

  lemma DoneHasAttempt(b: Block, s: State, i: nat)
    requires WellFormed(b, s) && Phased(b, s) && i < |b.txs| && s.sched.Done(i)
    ensures HasAttempt(s, i) && Complete(b, s, i)
  {
    assert PhasedAt(b, s, i);
  }

  lemma RecordingHolds(b: Block, s: State, w: nat)
    requires WellFormed(b, s) && Phased(b, s) && w < |s.workers| && s.workers[w].Recording?
    ensures InRecord(b, s, s.workers[w], s.workers[w].v.tx)
  {
    assert PhasedAt(b, s, s.workers[w].v.tx) && Owns(s.workers[w], s.workers[w].v.tx);
  }

  lemma RecordOneBreaks(b: Block, s: State, w: nat, l: Location)
    requires WellFormed(b, s) && w < |s.workers| && s.workers[w].Recording? && MayRecord(s.workers[w], l)
    requires EntriesOk(b, s) && LogOk(b, s) && Phased(b, s)
    ensures BreaksCovered(b, s, StepRecordOne(b, s, w, l), w)
  {
    var s' := StepRecordOne(b, s, w, l);
    RecordingHolds(b, s, w);
    forall i, k | 0 <= i < |b.txs| && Checkable(b, s, i) && StaleAt(s', i, k)
      ensures StaleAt(s, i, k) || CoversAt(s'.workers[w], i, k, s.mem.lastRead[i])
    {
      DoneHasAttempt(b, s, i);
      RecordOneStale(b, s, w, l, i, k);
    }
  }

  lemma RecordOneCovered(b: Block, s: State, w: nat, l: Location)
    requires WellFormed(b, s) && w < |s.workers| && s.workers[w].Recording? && MayRecord(s.workers[w], l)
    requires EntriesOk(b, s) && LogOk(b, s) && Phased(b, s) && NothingForgotten(b, s)
    requires !s.sched.aborted
    ensures NothingForgotten(b, StepRecordOne(b, s, w, l))
  {
    RecordOneBreaks(b, s, w, l);
    MemoryStepCovered(b, s, StepRecordOne(b, s, w, l), w);
  }

  lemma ConvertOneStale(b: Block, s: State, w: nat, l: Location, i: nat, k: Location)
    requires WellFormed(b, s) && w < |s.workers| && s.workers[w].Converting? && l in s.workers[w].todo
    requires LogOk(b, s) && i < |b.txs| && HasAttempt(s, i) && i <= s.workers[w].v.tx
    requires StaleAt(StepConvertOne(b, s, w, l), i, k)
    ensures StaleAt(s, i, k)
  {
    var (j, s') := (s.workers[w].v.tx, StepConvertOne(b, s, w, l));
    DoneReadsOk(b, s, i);
    assert Harmless(At(s.mem.data, k), At(s'.mem.data, k), j, i);
    HarmlessKeepsValid(s, s', k, j, i, s.mem.lastRead[i][k]);
  }

  lemma ConvertOneCovered(b: Block, s: State, w: nat, l: Location)
    requires WellFormed(b, s) && w < |s.workers| && s.workers[w].Converting? && l in s.workers[w].todo
    requires LogOk(b, s) && Phased(b, s) && NothingForgotten(b, s)
    requires !s.sched.aborted
    ensures NothingForgotten(b, StepConvertOne(b, s, w, l))
  {
    var (p, s') := (s.workers[w], StepConvertOne(b, s, w, l));
    forall i, k | 0 <= i < |b.txs| && Checkable(b, s, i) && StaleAt(s', i, k)
      ensures StaleAt(s, i, k) || CoversAt(s'.workers[w], i, k, s.mem.lastRead[i])
    {
      if i <= p.v.tx {
        DoneHasAttempt(b, s, i);
        ConvertOneStale(b, s, w, l, i, k);
      }
    }
    MemoryStepCovered(b, s, s', w);
  }

  lemma FinishCovered(b: Block, s: State, w: nat, result: TxResult, lazy: bool)
    requires WellFormed(b, s) && w < |s.workers| && (s.workers[w].Running? || s.workers[w].Transferring?)
    requires WellTyped(result.writes) && AllAccounted(s) && NothingForgotten(b, s) && !s.sched.aborted
    ensures NothingForgotten(b, StepFinish(b, s, w, result, lazy))
  {
    var (p, s') := (s.workers[w], StepFinish(b, s, w, result, lazy));
    assert Executes(p, p.v.tx) && !s.sched.Done(p.v.tx);
    forall i, l | 0 <= i < |b.txs| && Checkable(b, s, i) && StaleAt(s', i, l) ensures StaleAt(s, i, l) {
      assert s'.mem.lastRead[i] == s.mem.lastRead[i];
    }
    MemoryStepCovered(b, s, s', w);
  }

  // ---- finish_execution ----

  /** finish_execution sends the validation index low enough for everything its record could break. */
  lemma ValidationLowered(s: Sched, v: Version, need: bool, wroteNew: bool, i: nat)
    requires s.Valid() && v.tx < |s.txs| && i < |s.txs|
    ensures var (s', task) := FinishExecution(s, v, need, wroteNew);
            && s'.validationIdx <= s.validationIdx
            && (wroteNew && v.tx < i && (need || s.minValidationIdx <= i) ==> s'.validationIdx <= i)
            && (need ==> s'.validationIdx <= v.tx || task == Some(Validation(v)))
  {
  }

  /** And no lower: what the index had passed is validated again exactly when a new location was written below
      it and it is not below the floor. The finished transaction is handed to its worker exactly when the
      index had passed it. */
  lemma RevalidatesExactly(s: Sched, v: Version, need: bool, wroteNew: bool, i: nat)
    requires s.Valid() && v.tx < |s.txs| && i < |s.txs| && i < s.validationIdx
    ensures var (s', task) := FinishExecution(s, v, need, wroteNew);
            && (s'.validationIdx <= i <==> wroteNew && v.tx < i && s'.minValidationIdx <= i)
            && s'.minValidationIdx == (if need then Min(s.minValidationIdx, v.tx) else s.minValidationIdx)
            && task == (if need && v.tx < s.validationIdx then Some(Validation(v)) else None)
  {
  }

  lemma FinishExecutionDone(b: Block, s: State, w: nat, i: nat)
    requires WellFormed(b, s) && w < |s.workers| && s.workers[w].Recording?
    requires AllAccounted(s) && !s.sched.aborted && i < |b.txs| && i != s.workers[w].v.tx
    requires Checkable(b, StepFinishExecution(b, s, w), i)
    ensures Checkable(b, s, i)
  {
    var p := s.workers[w];
    assert Executes(p, p.v.tx);
    FinishExecutionEffect(s.sched, s.workers, p.v, p.needValidation, p.wroteNew);
  }

  lemma FinishedVersion(b: Block, s: State, w: nat)
    requires WellFormed(b, s) && w < |s.workers| && s.workers[w].Recording? && AllAccounted(s) && !s.sched.aborted
    ensures Current(StepFinishExecution(b, s, w), s.workers[w].v.tx) == s.workers[w].v
  {
    var p := s.workers[w];
    assert Executes(p, p.v.tx);
    FinishExecutionEffect(s.sched, s.workers, p.v, p.needValidation, p.wroteNew);
  }

  lemma FinishExecutionCoversOne(b: Block, s: State, w: nat, i: nat, l: Location)
    requires WellFormed(b, s) && w < |s.workers| && s.workers[w].Recording?
    requires ExplicitRun(b, s) && !s.sched.aborted
    requires i < |b.txs| && StaleAt(s, i, l)
    requires if i == s.workers[w].v.tx then i > 0 && !LazyVersion(b, s, s.workers[w].v) else Checkable(b, s, i)
    ensures StillCovered(b, s, StepFinishExecution(b, s, w), w, i, l)
  {
    var p := s.workers[w];
    ValidationLowered(s.sched, p.v, p.needValidation, p.wroteNew, i);
  }

  lemma RecordedFirstNotStale(b: Block, s: State, w: nat, l: Location)
    requires WellFormed(b, s) && w < |s.workers| && s.workers[w].Recording? && s.workers[w].v.tx == 0
    requires LogOk(b, s) && Phased(b, s)
    ensures !StaleAt(s, 0, l)
  {
    RecordingHolds(b, s, w);
    FirstNeverStale(b, s, l);
  }

  lemma FinishExecutionCovered(b: Block, s: State, w: nat)
    requires WellFormed(b, s) && w < |s.workers| && s.workers[w].Recording?
    requires AllAccounted(s) && LogOk(b, s) && Phased(b, s) && NothingForgotten(b, s)
    requires ExplicitRun(b, s) && !s.sched.aborted
    ensures NothingForgotten(b, StepFinishExecution(b, s, w))
  {
    var s' := StepFinishExecution(b, s, w);
    FinishedVersion(b, s, w);
    forall i, l | 0 <= i < |b.txs| && Checkable(b, s', i) && StaleAt(s', i, l)
      ensures StillCovered(b, s, s', w, i, l)
    {
      assert StaleAt(s, i, l);
      if i != s.workers[w].v.tx {
        FinishExecutionDone(b, s, w, i);
      } else if i == 0 {
        RecordedFirstNotStale(b, s, w, l);
      }
      FinishExecutionCoversOne(b, s, w, i, l);
    }
    CoverageStep(b, s, s', w);
  }

  // ---- Steps of the scheduler ----

  lemma PollingCovered(b: Block, s: State, w: nat)
    requires WellFormed(b, s) && w < |s.workers| && Polling(s.workers[w]) && NothingForgotten(b, s)
    requires !s.sched.aborted
    ensures NothingForgotten(b, StepPolling(b, s, w))
  {
    var s' := StepPolling(b, s, w);
    PollingFrame(b, s, w);
    if s.workers[w].TakeValidation? {
      forall i, l | 0 <= i < |b.txs| && Checkable(b, s', i) && StaleAt(s', i, l)
        ensures StillCovered(b, s, s', w, i, l)
      {
        assert StaleAt(s, i, l);
      }
      CoverageStep(b, s, s', w);
    } else {
      QuietCovered(b, s, s', w);
    }
  }

  lemma ValidatingCovered(b: Block, s: State, w: nat, l: Location)
    requires WellFormed(b, s) && w < |s.workers| && NothingForgotten(b, s)
    requires s.workers[w].ValTask? || s.workers[w].Validating?
    requires !s.sched.aborted
    ensures NothingForgotten(b, Step(b, s, w, l))
  {
    QuietCovered(b, s, Step(b, s, w, l), w);
  }

  lemma AbortingCovered(b: Block, s: State, w: nat, l: Location)
    requires WellFormed(b, s) && w < |s.workers| && NothingForgotten(b, s)
    requires var p := s.workers[w];
             p.Failed? || p.AbortLost? || p.Lowering? || p.Rerunning? || (p.Converting? && p.todo == {})
    requires !s.sched.aborted
    ensures NothingForgotten(b, Step(b, s, w, l))
  {
    QuietCovered(b, s, Step(b, s, w, l), w);
  }

  lemma StartingCovered(b: Block, s: State, w: nat, l: Location)
    requires WellFormed(b, s) && w < |s.workers| && NothingForgotten(b, s)
    requires s.workers[w].ExecTask? || s.workers[w].Blocked?
    requires !s.sched.aborted
    ensures NothingForgotten(b, Step(b, s, w, l))
  {
    QuietCovered(b, s, Step(b, s, w, l), w);
  }

  lemma RunningCovered(b: Block, s: State, w: nat, l: Location)
    requires WellFormed(b, s) && w < |s.workers| && s.workers[w].Running?
    requires AllAccounted(s) && NothingForgotten(b, s) && !s.sched.aborted
    ensures NothingForgotten(b, Step(b, s, w, l))
  {
    var (p, s') := (s.workers[w], Step(b, s, w, l));
    var a := b.txs[p.v.tx].Next(p.history);
    if a.Finish? {
      FinishCovered(b, s, w, a.result, false);
    } else if !s'.sched.aborted {
      RunningFrame(b, s, w, l);
      QuietCovered(b, s, s', w);
    }
  }

  lemma ConvertingCovered(b: Block, s: State, w: nat, l: Location)
    requires WellFormed(b, s) && w < |s.workers| && s.workers[w].Converting? && s.workers[w].todo != {}
    requires AllAccounted(s) && Remembered(b, s) && ExplicitRun(b, s) && NothingForgotten(b, s)
    requires !s.sched.aborted
    ensures NothingForgotten(b, Step(b, s, w, l))
  {
    if l in s.workers[w].todo { ConvertOneCovered(b, s, w, l); }
  }

  lemma RecordingCovered(b: Block, s: State, w: nat, l: Location)
    requires WellFormed(b, s) && w < |s.workers| && s.workers[w].Recording?
    requires AllAccounted(s) && Remembered(b, s) && ExplicitRun(b, s) && NothingForgotten(b, s)
    requires !s.sched.aborted
    ensures NothingForgotten(b, Step(b, s, w, l))
  {
    var p := s.workers[w];
    if p.todo == {} {
      FinishExecutionCovered(b, s, w);
    } else if MayRecord(p, l) {
      RecordOneCovered(b, s, w, l);
    }
  }

  lemma StepCovered(b: Block, s: State, w: nat, l: Location)
    requires WellFormed(b, s) && AllAccounted(s) && Remembered(b, s) && ExplicitRun(b, s) && NothingForgotten(b, s)
    requires !s.sched.aborted
    ensures NothingForgotten(b, Step(b, s, w, l))
  {
    if w < |s.workers| {
      var p := s.workers[w];
      if Polling(p) {
        PollingCovered(b, s, w);
      } else if p.Running? {
        RunningCovered(b, s, w, l);
      } else if p.Transferring? {
        FinishCovered(b, s, w, LazyResult(b.txs[p.v.tx].Next(p.history)), true);
      } else if p.Recording? {
        RecordingCovered(b, s, w, l);
      } else if p.Converting? && p.todo != {} {
        ConvertingCovered(b, s, w, l);
      } else if p.ValTask? || p.Validating? {
        ValidatingCovered(b, s, w, l);
      } else if p.ExecTask? || p.Blocked? {
        StartingCovered(b, s, w, l);
      } else {
        AbortingCovered(b, s, w, l);
      }
    }
  }
}
