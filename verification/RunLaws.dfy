/** What the invariant says of every state of every run, in the words of the design. */
module RunLaws {
  import opened Types
  import opened Reads
  import opened Memory
  import opened Blocks
  import opened Rewards
  import opened Sequential
  import opened Machine
  import opened StepLaws
  import opened Accounting
  import opened SchedulerLaws
  import opened MemoryLaws
  import opened MemorySteps
  import opened StaleReads
  import opened Invariants

  // ---- Parked transactions ----

  ghost predicate ListedOnce(ds: seq<nat>, i: nat) {
    exists p :: 0 <= p < |ds| && ds[p] == i && forall q :: 0 <= q < |ds| && ds[q] == i ==> q == p
  }

  /** An Aborting transaction is either listed exactly once, in exactly one dependents list, under a
      strictly lower transaction that is still to execute, or owned by exactly one worker that
      finishes its abort, and never both. */
  lemma AbortingIsParkedOnce(b: Block, workers: nat, schedule: Schedule, i: nat)
    requires var s := Run(b, workers, schedule);
             !s.sched.aborted && i < |b.txs| && s.sched.txs[i].status == Aborting
    ensures var s := Run(b, workers, schedule);
            || (&& (forall w :: 0 <= w < workers ==> !Aborts(s.workers[w], i))
                && exists j: nat ::
                     && j < i && !s.sched.Done(j) && ListedOnce(s.sched.dependents[j], i)
                     && (forall j' :: 0 <= j' < |b.txs| && j' != j ==> i !in s.sched.dependents[j']))
            || (&& (forall j :: 0 <= j < |b.txs| ==> i !in s.sched.dependents[j])
                && exists w ::
                     && 0 <= w < workers && Aborts(s.workers[w], i)
                     && (forall w' :: 0 <= w' < workers && Owns(s.workers[w'], i) ==> w' == w))
  {
    var s := Run(b, workers, schedule);
    RunAccounted(b, workers, schedule);
    assert Kept(s.sched, s.workers, i);
    if w :| 0 <= w < |s.workers| && Aborts(s.workers[w], i) {
      assert Owns(s.workers[w], i);
      forall j | 0 <= j < |b.txs| ensures i !in s.sched.dependents[j] { assert !Waits(s.sched, i, j); }
    } else {
      var j: nat :| Waits(s.sched, i, j);
      var p :| 0 <= p < |s.sched.dependents[j]| && s.sched.dependents[j][p] == i;
      assert Distinct(s.sched.dependents[j]);
      assert ListedOnce(s.sched.dependents[j], i);
      forall j' | 0 <= j' < |b.txs| && j' != j ensures i !in s.sched.dependents[j'] {
        assert Waits(s.sched, i, j') ==> j' == j;
      }
    }
  }

  /** Waiting goes strictly downwards, so it is acyclic, and nobody waits for a done transaction. */
  lemma WaitsForLower(b: Block, workers: nat, schedule: Schedule, j: nat)
    requires var s := Run(b, workers, schedule); !s.sched.aborted && j < |b.txs|
    ensures var s := Run(b, workers, schedule);
            && (forall i: nat :: i in s.sched.dependents[j] ==> j < i < |b.txs| && s.sched.txs[i].status == Aborting)
            && (s.sched.Done(j) ==> s.sched.dependents[j] == [])
  {
    var s := Run(b, workers, schedule);
    RunAccounted(b, workers, schedule);
    assert forall i: nat :: i in s.sched.dependents[j] ==> Waits(s.sched, i, j);
    if s.sched.dependents[j] != [] { assert s.sched.dependents[j][0] in s.sched.dependents[j]; }
  }

  /** The status assertions of add_dependency, set_ready_status and finish_execution hold at every call. */
  lemma StatusAssertions(b: Block, workers: nat, schedule: Schedule, w: nat)
    requires var s := Run(b, workers, schedule);
             !s.sched.aborted && w < workers && Tasked(s.workers[w])
    ensures var s := Run(b, workers, schedule);
            var p := s.workers[w];
            && (p.Blocked? || p.Recording? ==> s.sched.txs[p.v.tx] == TxStatus(p.v.incarnation, Executing))
            && (p.Recording? ==> forall i: nat :: i in s.sched.dependents[p.v.tx] ==>
                  i < |b.txs| && s.sched.txs[i].status == Aborting)
            && (p.Converting? ==> s.sched.txs[p.v.tx].status == Aborting)
  {
    var s := Run(b, workers, schedule);
    var p := s.workers[w];
    RunAccounted(b, workers, schedule);
    assert p.Blocked? || p.Recording? ==> Executes(p, p.v.tx);
    assert p.Converting? ==> Aborts(p, p.v.tx);
    WaitsForLower(b, workers, schedule, p.v.tx);
  }

  // ---- Versions ----

  /** At most one worker executes a transaction, so its result slot is written by one at a time. */
  lemma ExclusiveSlot(b: Block, workers: nat, schedule: Schedule, i: nat, w: nat, w': nat)
    requires var s := Run(b, workers, schedule);
             !s.sched.aborted && w < workers && w' < workers && Executes(s.workers[w], i) && Executes(s.workers[w'], i)
    ensures w == w'
  {
    var s := Run(b, workers, schedule);
    RunAccounted(b, workers, schedule);
    assert Owns(s.workers[w], i) && Owns(s.workers[w'], i);
  }

  /** The worker is done executing: its next step starts a record. */
  predicate Finishing(b: Block, p: Phase)
    requires Tasked(p) ==> p.v.tx < |b.txs|
  {
    p.Transferring? || (p.Running? && b.txs[p.v.tx].Next(p.history).Finish?)
  }

  /** No read set, write set or lazy address is recorded. */
  predicate Unrecorded(s: State, s': State) {
    && s'.hist.written == s.hist.written && s'.hist.attempts == s.hist.attempts
    && s'.mem.lastRead == s.mem.lastRead && s'.lazyAddresses == s.lazyAddresses
  }

  lemma PollingUnrecorded(b: Block, s: State, w: nat)
    requires WellFormed(b, s) && w < |s.workers| && Polling(s.workers[w])
    ensures Unrecorded(s, StepPolling(b, s, w))
  {
  }

  lemma RunningUnrecorded(b: Block, s: State, w: nat)
    requires WellFormed(b, s) && w < |s.workers| && s.workers[w].Running? && !Finishing(b, s.workers[w])
    ensures Unrecorded(s, StepRunning(b, s, w))
  {
  }

  lemma SettlingUnrecorded(b: Block, s: State, w: nat, l: Location)
    requires WellFormed(b, s) && w < |s.workers| && Settling(s.workers[w])
    ensures Unrecorded(s, Step(b, s, w, l))
  {
  }

  lemma RecordOneUnrecorded(b: Block, s: State, w: nat, l: Location)
    requires WellFormed(b, s) && w < |s.workers| && s.workers[w].Recording? && MayRecord(s.workers[w], l)
    ensures Unrecorded(s, StepRecordOne(b, s, w, l))
  {
  }

  lemma WorkingUnrecorded(b: Block, s: State, w: nat, l: Location)
    requires WellFormed(b, s) && w < |s.workers| && Working(s.workers[w])
    ensures Unrecorded(s, Step(b, s, w, l))
  {
    if s.workers[w].Recording? {
      if MayRecord(s.workers[w], l) { RecordOneUnrecorded(b, s, w, l); }
    }
  }

  lemma FinishingRecords(b: Block, s: State, w: nat, l: Location) returns (result: TxResult)
    requires WellFormed(b, s) && w < |s.workers| && Finishing(b, s.workers[w])
    ensures WellTyped(result.writes)
    ensures Step(b, s, w, l) == StepFinish(b, s, w, result, s.workers[w].Transferring?)
  {
    var p := s.workers[w];
    var a := b.txs[p.v.tx].Next(p.history);
    result := if p.Transferring? then LazyResult(a) else a.result;
  }

  lemma StepUnrecorded(b: Block, s: State, w: nat, l: Location)
    requires WellFormed(b, s) && w < |s.workers| && !Finishing(b, s.workers[w])
    ensures Unrecorded(s, Step(b, s, w, l))
  {
    if Polling(s.workers[w]) {
      PollingUnrecorded(b, s, w);
    } else if s.workers[w].Running? {
      RunningUnrecorded(b, s, w);
    } else if Settling(s.workers[w]) {
      SettlingUnrecorded(b, s, w, l);
    } else {
      WorkingUnrecorded(b, s, w, l);
    }
  }

  lemma StepLog(b: Block, s: State, w: nat, l: Location)
    requires Inv(b, s) && !s.sched.aborted
    ensures Extends(s.hist.written, Step(b, s, w, l).hist.written)
  {
    if w < |s.workers| {
      if Finishing(b, s.workers[w]) {
        OwnerWaiting(b, s, w);
        var _ := FinishingRecords(b, s, w, l);
      } else {
        StepUnrecorded(b, s, w, l);
      }
    }
  }

  lemma {:induction false} LogGrowsOnly(b: Block, workers: nat, schedule: Schedule, m: nat)
    requires m <= |schedule| && !Run(b, workers, schedule).sched.aborted
    ensures !Run(b, workers, schedule[..m]).sched.aborted
    ensures Extends(Run(b, workers, schedule[..m]).hist.written, Run(b, workers, schedule).hist.written)
    decreases |schedule|
  {
    if m == |schedule| {
      assert schedule[..m] == schedule;
    } else {
      var (before, last) := (schedule[..|schedule| - 1], schedule[|schedule| - 1]);
      var s := Run(b, workers, before);
      RunInv(b, workers, before);
      StepFlags(b, s, last.0, last.1);
      StepLog(b, s, last.0, last.1);
      assert before[..m] == schedule[..m];
      LogGrowsOnly(b, workers, before, m);
    }
  }

  lemma EntryRecorded(b: Block, workers: nat, schedule: Schedule, l: Location, i: nat)
    requires var (s, e) := (Run(b, workers, schedule), EntryOf(Run(b, workers, schedule).mem.data, l, i));
             !s.sched.aborted && e.Some? && e.value.Data?
    ensures var (s, e) := (Run(b, workers, schedule), EntryOf(Run(b, workers, schedule).mem.data, l, i));
            var v := Version(i, e.value.incarnation);
            v in s.hist.written && l in s.hist.written[v] && s.hist.written[v][l] == e.value.value
  {
    RunInv(b, workers, schedule);
    EntriesLogged(b, Run(b, workers, schedule), l);
  }

  /** Each (location, transaction, incarnation) ever carries a single value, across all states of a run. */
  lemma SingleValue(b: Block, workers: nat, schedule: Schedule, m: nat, l: Location, i: nat)
    requires m <= |schedule| && !Run(b, workers, schedule).sched.aborted
    requires var (e, e') := (EntryOf(Run(b, workers, schedule[..m]).mem.data, l, i),
                             EntryOf(Run(b, workers, schedule).mem.data, l, i));
             e.Some? && e'.Some? && e.value.Data? && e'.value.Data? && e.value.incarnation == e'.value.incarnation
    ensures EntryOf(Run(b, workers, schedule[..m]).mem.data, l, i) == EntryOf(Run(b, workers, schedule).mem.data, l, i)
  {
    LogGrowsOnly(b, workers, schedule, m);
    EntryRecorded(b, workers, schedule[..m], l, i);
    EntryRecorded(b, workers, schedule, l, i);
  }

  // ---- Repeatable reads ----

  /** Two reads of a location in one replayed history returned the same value. */
  lemma ReplayedReadsAgree(tx: Tx, vals: map<Location, ReadValue>, history: seq<ReadValue>, m: nat, m': nat)
    requires Replays(tx, vals, history) && m < |history| && m' < |history|
    requires tx.Next(history[..m]).Read? && tx.Next(history[..m]) == tx.Next(history[..m'])
    ensures history[m] == history[m']
  {
  }

  /** Whatever other workers do in between, two reads of a location in one execution attempt return the
      same value, in an attempt under way and in one that recorded. */
  lemma RepeatableReads(b: Block, workers: nat, schedule: Schedule, i: nat, history: seq<ReadValue>, m: nat, m': nat)
    requires i < |b.txs| && !Run(b, workers, schedule).sched.aborted
    requires var s := Run(b, workers, schedule);
             || (exists w :: 0 <= w < workers && s.workers[w].Running? && s.workers[w].v.tx == i
                             && s.workers[w].history == history)
             || (exists v :: v in s.hist.attempts && v.tx == i && s.hist.attempts[v].history == history)
    requires m < |history| && m' < |history|
    requires b.txs[i].Next(history[..m]).Read? && b.txs[i].Next(history[..m]) == b.txs[i].Next(history[..m'])
    ensures history[m] == history[m']
  {
    var s := Run(b, workers, schedule);
    RunInv(b, workers, schedule);
    if w :| 0 <= w < workers && s.workers[w].Running? && s.workers[w].v.tx == i && s.workers[w].history == history {
      assert Faithful(b, s.hist.written, i, s.workers[w].rs, history);
      ReplayedReadsAgree(b.txs[i], Values(b.state, s.workers[w].rs, i, s.hist.written), history, m, m');
    } else {
      var v :| v in s.hist.attempts && v.tx == i && s.hist.attempts[v].history == history;
      assert AttemptOk(b, s.hist.written, v, s.hist.attempts[v]);
      ReplayedReadsAgree(b.txs[i], Values(b.state, s.hist.attempts[v].rs, i, s.hist.written), history, m, m');
    }
  }

  /** A successful read keeps the origin chain of every location read before. */
  lemma OriginsKept(b: Block, workers: nat, schedule: Schedule, w: nat, l: Location)
    requires var s := Run(b, workers, schedule);
             && !s.sched.aborted && w < workers && s.workers[w].Running?
             && StepRead(b, s, w, l).workers[w].Running?
    ensures var (s, rs) := (Run(b, workers, schedule), Run(b, workers, schedule).workers[w].rs);
            forall k :: k in rs ==>
              k in StepRead(b, s, w, l).workers[w].rs && StepRead(b, s, w, l).workers[w].rs[k] == rs[k]
  {
    var s := Run(b, workers, schedule);
    var p := s.workers[w];
    RunInv(b, workers, schedule);
    EntriesLogged(b, s, l);
    assert Faithful(b, s.hist.written, p.v.tx, p.rs, p.history);
    if l in p.rs { RepeatedReadSame(b.state, l, At(s.mem.data, l), p.v.tx, p.rs[l], s.hist.written); }
  }

  /** Validation of a done transaction succeeds exactly when reading every location of its read set again
      finds the same origins, a code read having to find a usable entry or none. */
  lemma ValidationRereads(b: Block, workers: nat, schedule: Schedule, i: nat)
    requires var s := Run(b, workers, schedule); !s.sched.aborted && i < |b.txs| && s.sched.Done(i)
    ensures var (s, rs) := (Run(b, workers, schedule), Run(b, workers, schedule).mem.lastRead[i]);
            ValidReads(s.mem.data, i, rs) <==>
            forall l :: l in rs ==>
              var (h, w) := (At(s.mem.data, l), Walk(l, At(s.mem.data, l), i));
              w.Found? && w.origins == rs[l] && (l.CodeAt? ==> Readable(l, h, i))
  {
    var s := Run(b, workers, schedule);
    RunInv(b, workers, schedule);
    DoneHasAttempt(b, s, i);
    DoneReadsOk(b, s, i);
    forall l | l in s.mem.lastRead[i]
      ensures var (h, w) := (At(s.mem.data, l), Walk(l, At(s.mem.data, l), i));
              ValidAt(s.mem.data, l, i, s.mem.lastRead[i][l]) <==>
              w.Found? && w.origins == s.mem.lastRead[i][l] && (l.CodeAt? ==> Readable(l, h, i))
    {
      EntriesLogged(b, s, l);
      ValidAtIsMatches(s.mem.data, l, i, s.mem.lastRead[i][l], s.hist.written);
      ValidExactlyRereads(b.state, l, At(s.mem.data, l), i, s.mem.lastRead[i][l], s.hist.written);
    }
  }

  // ---- ESTIMATE markers ----

  /** A read blocks on a transaction that has an ESTIMATE there and is still to be executed, so the worker can
      wait for it. */
  lemma BlocksOnUnfinished(b: Block, workers: nat, schedule: Schedule, w: nat, l: Location, on: nat)
    requires var s := Run(b, workers, schedule);
             && !s.sched.aborted && w < workers && s.workers[w].Running? && NextAction(b, s, w).Read?
             && Step(b, s, w, l).workers[w] == Blocked(s.workers[w].v, on)
    ensures var (s, k) := (Run(b, workers, schedule), NextAction(b, Run(b, workers, schedule), w).location);
            && on < s.workers[w].v.tx && EntryOf(s.mem.data, k, on) == Some(Estimate)
            && on < |b.txs| && !s.sched.Done(on)
  {
    var s := Run(b, workers, schedule);
    BlocksExactly(b, s, w, l, on);
    if s.sched.Done(on) { DoneHasNoEstimate(b, workers, schedule, on, NextAction(b, s, w).location); }
  }

  /** A done transaction has no ESTIMATE and exactly the entries of its last write set. */
  lemma DoneHasNoEstimate(b: Block, workers: nat, schedule: Schedule, i: nat, l: Location)
    requires var s := Run(b, workers, schedule); !s.sched.aborted && i < |b.txs| && s.sched.Done(i)
    ensures var s := Run(b, workers, schedule);
            var (v, e) := (Current(s, i), EntryOf(s.mem.data, l, i));
            && v in s.hist.written
            && e == if l in s.hist.written[v] then Some(Data(v.incarnation, s.hist.written[v][l])) else None
  {
    var s := Run(b, workers, schedule);
    RunInv(b, workers, schedule);
    DoneHasAttempt(b, s, i);
    assert EntryOf(s.mem.data, l, i) == Held(s, i, l);
  }

  /** The worker has begun to record or to convert transaction i. */
  predicate Rewrites(p: Phase, i: nat) {
    (p.Recording? || p.Converting?) && p.v.tx == i
  }

  lemma UnfinishedWaits(b: Block, s: State, i: nat)
    requires WellFormed(b, s) && AllAccounted(s) && Phased(b, s) && !s.sched.aborted
    requires i < |b.txs| && !s.sched.Done(i)
    requires forall w :: 0 <= w < |s.workers| ==> !Rewrites(s.workers[w], i)
    ensures Waiting(b, s, i)
  {
    assert PhasedAt(b, s, i);
    if s.sched.txs[i].status == Executing {
      assert SomeExecutes(s.workers, i);
      var w :| 0 <= w < |s.workers| && Executes(s.workers[w], i);
      assert Owns(s.workers[w], i) && HeldBy(b, s, s.workers[w], i);
    } else if s.sched.txs[i].status == Aborting {
      assert Kept(s.sched, s.workers, i);
    }
  }

  /** A transaction that is not done, and that nobody is rewriting, has ESTIMATEs and nothing else: at
      the fee recipients before it first records, then where it last wrote. */
  lemma UnfinishedHasOnlyEstimates(b: Block, workers: nat, schedule: Schedule, i: nat, l: Location)
    requires var s := Run(b, workers, schedule);
             && !s.sched.aborted && i < |b.txs| && !s.sched.Done(i)
             && forall w :: 0 <= w < workers ==> !Rewrites(s.workers[w], i)
    ensures var s := Run(b, workers, schedule);
            EntryOf(s.mem.data, l, i) == if l in Expected(b, s, i) then Some(Estimate) else None
  {
    var s := Run(b, workers, schedule);
    RunInv(b, workers, schedule);
    UnfinishedWaits(b, s, i);
    assert EntryOf(s.mem.data, l, i) == Held(s, i, l);
  }

  /** The accounts at which an execution may leave lazy values: the fee recipients, and for a lazy transfer
      its sender and recipient. */
  predicate LazyAddress(b: Block, i: nat, history: seq<ReadValue>, a: Address)
    requires i < |b.txs|
  {
    a in Recipients(b, b.txs[i]) || a in TransferAddresses(b.txs[i].Next(history))
  }

  lemma AttemptLazyOnly(b: Block, log: Written, v: Version, t: Attempt, a: Address)
    requires v.tx < |b.txs| && v in log && AttemptOk(b, log, v, t)
    requires AccountAt(a) in log[v] && IsLazy(AccountAt(a), log[v][AccountAt(a)])
    ensures LazyAddress(b, v.tx, t.history, a)
  {
    if a !in Recipients(b, b.txs[v.tx]) { OnlyRecipientsChange(b, b.txs[v.tx], t.result, AccountAt(a)); }
  }

  /** The lazy address set holds the fee recipients and the addresses of every lazily recorded transfer. */
  ghost predicate AddressesListed(b: Block, s: State) {
    && FeeAddresses(b) <= s.lazyAddresses
    && forall v :: v in s.hist.attempts && v.tx < |b.txs| ==>
         TransferAddresses(b.txs[v.tx].Next(s.hist.attempts[v].history)) <= s.lazyAddresses
  }

  lemma StepAddresses(b: Block, s: State, w: nat, l: Location)
    requires WellFormed(b, s) && AddressesListed(b, s)
    ensures AddressesListed(b, Step(b, s, w, l))
  {
    if w < |s.workers| {
      if Finishing(b, s.workers[w]) { var _ := FinishingRecords(b, s, w, l); } else { StepUnrecorded(b, s, w, l); }
    }
  }

  lemma {:induction false} RunAddresses(b: Block, workers: nat, schedule: Schedule)
    ensures AddressesListed(b, Run(b, workers, schedule))
    decreases |schedule|
  {
    if schedule != [] {
      var (before, last) := (schedule[..|schedule| - 1], schedule[|schedule| - 1]);
      RunAddresses(b, workers, before);
      StepAddresses(b, Run(b, workers, before), last.0, last.1);
    }
  }

  /** No lazy value escapes the end-of-block evaluation: its account is in the lazy address set. */
  lemma LazyValuesCovered(b: Block, workers: nat, schedule: Schedule, v: Version, a: Address)
    requires var s := Run(b, workers, schedule);
             && !s.sched.aborted && v in s.hist.written && AccountAt(a) in s.hist.written[v]
             && IsLazy(AccountAt(a), s.hist.written[v][AccountAt(a)])
    ensures a in Run(b, workers, schedule).lazyAddresses
  {
    var s := Run(b, workers, schedule);
    RunInv(b, workers, schedule);
    RunAddresses(b, workers, schedule);
    AttemptLazyOnly(b, s.hist.written, v, s.hist.attempts[v], a);
  }

  // ---- The validated counter ----

  /** num_validated never underflows, and without lazy transfers it is exact. */
  lemma CounterExact(b: Block, workers: nat, schedule: Schedule)
    requires !Run(b, workers, schedule).sched.aborted
    ensures var s := Run(b, workers, schedule);
            && s.sched.numValidated == CountValidated(s.sched.txs) + s.hist.lazyHits
            && (!s.hist.lazyTaken ==> s.sched.numValidated == CountValidated(s.sched.txs))
  {
    RunCounted(b, workers, schedule);
    RunInv(b, workers, schedule);
  }

  /** A worker that found both indices past the block leaves if and only if the Validated transactions, double
      counts included, are at least as many as those at or past the validation floor. */
  lemma LeavesExactly(b: Block, workers: nat, schedule: Schedule, w: nat, l: Location)
    requires var s := Run(b, workers, schedule); !s.sched.aborted && w < workers && s.workers[w].Leaving?
    ensures var s := Run(b, workers, schedule);
            Step(b, s, w, l).workers[w] ==
            if CountValidated(s.sched.txs) + s.hist.lazyHits >= |b.txs| - s.sched.minValidationIdx then Exited else Idle
  {
    RunCounted(b, workers, schedule);
  }

  // ---- No stale read is forgotten ----

  /** A read of a done transaction that no longer validates lies ahead of the validation index, is being
      checked or aborted, or awaits a lowering of the index that some worker is committed to. */
  lemma NoStaleReadForgotten(b: Block, workers: nat, schedule: Schedule, i: nat, l: Location)
    requires var s := Run(b, workers, schedule);
             !s.sched.aborted && i < |b.txs| && Checkable(b, s, i) && StaleAt(s, i, l)
    ensures var s := Run(b, workers, schedule);
            || s.sched.validationIdx <= i
            || exists w :: 0 <= w < workers && CoversAt(s.workers[w], i, l, s.mem.lastRead[i])
  {
    RunInv(b, workers, schedule);
    assert CoveredAt(Run(b, workers, schedule), i, l);
  }
}
