/** The main theorem: a block executed by any number of workers, in any interleaving, without lazy
    transfers and without abort, ends with the state and results of sequential execution. */
module Serializability {
  import opened Types
  import opened Accounts
  import opened Reads
  import opened Memory
  import opened Blocks
  import opened Rewards
  import opened Sequential
  import opened Machine
  import opened SchedulerLaws
  import opened MemoryLaws
  import opened MemorySteps
  import opened StaleReads
  import opened Invariants

  /** What transaction i would read at l. */
  function Evaluated(cs: ChainState, l: Location, h: Entries, i: nat): ReadValue {
    match Walk(l, h, i)
    case Found(_, trace) => Resolve(cs, l, trace)
    case _ => DestroyedValue
  }

  /** Data of the right kind and no lazy debit. */
  ghost predicate Clean(l: Location, h: Entries) {
    forall j :: j in h ==> h[j].Data? && FitsAt(l, h[j].value) && !h[j].value.LazySender?
  }

  lemma {:induction false} CleanWalk(l: Location, h: Entries, i: nat)
    requires Clean(l, h)
    ensures var r := Walk(l, h, i);
            if r.Found? then AllCredits(r.trace.deltas) else l.CodeAt? && r.Destroyed?
    decreases i
  {
    if i > 0 { CleanWalk(l, h, i - 1); }
  }

  /** Reading one transaction later applies that transaction's entry. */
  lemma OverlayStep(cs: ChainState, l: Location, h: Entries, i: nat)
    requires Clean(l, h)
    ensures Evaluated(cs, l, h, i + 1) ==
            if i in h then Overlay(Evaluated(cs, l, h, i), h[i].value) else Evaluated(cs, l, h, i)
  {
    CleanWalk(l, h, i);
    if i in h {
      var r := Walk(l, h, i);
      match h[i].value
      case LazyRecipient(x) =>
        var base := if r.trace.base.Some? && r.trace.base.value.Basic? then Some(r.trace.base.value.account)
                    else cs.Account(l.address);
        SettleCredit(x, r.trace.deltas, base);
      case _ =>
    }
  }

  // ---- A validated snapshot is sequential ----

  /** No ESTIMATE remains, every last read set validates and no execution was lazy. */
  ghost predicate Snapshot(b: Block, s: State)
    requires WellFormed(b, s)
  {
    && EntriesOk(b, s) && LogOk(b, s)
    && (forall i :: 0 <= i < |b.txs| ==> Complete(b, s, i) && ValidReads(s.mem.data, i, s.mem.lastRead[i]))
    && (forall v :: v in s.hist.attempts && v.tx < |b.txs| ==>
          b.txs[v.tx].Next(s.hist.attempts[v].history).Finish?)
  }

  /** The memory below k and the sequential state after k transactions agree everywhere. */
  ghost predicate Agrees(b: Block, s: State, k: nat)
    requires WellFormed(b, s) && k <= |b.txs|
  {
    && Execute(b, k).Some?
    && var p := Execute(b, k).value;
       && AccountsTyped(b.state, p.world)
       && (forall l :: View(b.state, p.world, l) == Evaluated(b.state, l, At(s.mem.data, l), k))
       && |p.results| == k
       && (forall i :: 0 <= i < k ==> s.results[i] == Some(p.results[i]))
  }

  lemma SnapshotClean(b: Block, s: State, l: Location)
    requires WellFormed(b, s) && Snapshot(b, s)
    ensures Clean(l, At(s.mem.data, l))
  {
    var h := At(s.mem.data, l);
    forall j | j in h ensures h[j].Data? && FitsAt(l, h[j].value) && !h[j].value.LazySender? {
      assert EntryOf(s.mem.data, l, j) == Some(h[j]);
      assert Complete(b, s, j);
      var v := Current(s, j);
      var a := s.hist.attempts[v];
      assert AttemptOk(b, s.hist.written, v, a);
      FinalWritesCommit(b, map[], b.txs[j], b.txs[j].Next(a.history).result);
    }
  }

  /** A transaction whose read set validates replays on any state that agrees with the memory below it. */
  lemma ReplaysOn(b: Block, s: State, k: nat, w: World)
    requires WellFormed(b, s) && EntriesOk(b, s) && LogOk(b, s) && k < |b.txs| && Complete(b, s, k)
    requires ValidReads(s.mem.data, k, s.mem.lastRead[k])
    requires forall l :: View(b.state, w, l) == Evaluated(b.state, l, At(s.mem.data, l), k)
    ensures Transact(b.state, w, b.txs[k], []) ==
            Transact(b.state, w, b.txs[k], s.hist.attempts[Current(s, k)].history)
  {
    var a := s.hist.attempts[Current(s, k)];
    assert AttemptOk(b, s.hist.written, Current(s, k), a);
    var vals := Values(b.state, a.rs, k, s.hist.written);
    forall l | l in vals ensures vals[l] == View(b.state, w, l) {
      EntriesLogged(b, s, l);
      assert ValidAt(s.mem.data, l, k, a.rs[l]);
      ValidAtIsMatches(s.mem.data, l, k, a.rs[l], s.hist.written);
      ValidMeansRereads(l, At(s.mem.data, l), k, a.rs[l], s.hist.written);
    }
    ReplayIsRun(b.state, w, b.txs[k], vals, a.history, 0);
    assert a.history[..0] == [];
  }

  /** Transaction k read exactly the sequential values. */
  lemma ReadsSequential(b: Block, s: State, k: nat)
    requires WellFormed(b, s) && Snapshot(b, s) && k < |b.txs| && Agrees(b, s, k)
    ensures var v := Current(s, k);
            && v in s.hist.attempts && s.results[k] == Some(s.hist.attempts[v].result)
            && Transact(b.state, Execute(b, k).value.world, b.txs[k], []) == Some(s.hist.attempts[v].result)
  {
    assert Complete(b, s, k) && ValidReads(s.mem.data, k, s.mem.lastRead[k]);
    var v := Current(s, k);
    assert AttemptOk(b, s.hist.written, v, s.hist.attempts[v]);
    ReplaysOn(b, s, k, Execute(b, k).value.world);
  }

  /** Its write set applied to the memory is the sequential commit. */
  lemma WriteSequential(b: Block, s: State, k: nat, w: World, r: ExplicitResult, l: Location)
    requires WellFormed(b, s) && Snapshot(b, s) && k < |b.txs| && Complete(b, s, k)
    requires AccountsTyped(b.state, w)
    requires s.hist.written[Current(s, k)] == FinalWrites(b, b.txs[k], r)
    requires View(b.state, w, l) == Evaluated(b.state, l, At(s.mem.data, l), k)
    ensures View(b.state, Commit(b, w, b.txs[k], r), l) == Evaluated(b.state, l, At(s.mem.data, l), k + 1)
  {
    var v := Current(s, k);
    FinalWritesCommit(b, w, b.txs[k], r);
    SnapshotClean(b, s, l);
    OverlayStep(b.state, l, At(s.mem.data, l), k);
    assert EntryOf(s.mem.data, l, k) ==
           if l in s.hist.written[v] then Some(Data(v.incarnation, s.hist.written[v][l])) else None;
  }

  lemma CurrentAttempt(b: Block, s: State, k: nat)
    requires WellFormed(b, s) && Snapshot(b, s) && k < |b.txs|
    ensures Complete(b, s, k)
    ensures var v := Current(s, k);
            && b.txs[k].Next(s.hist.attempts[v].history).Finish?
            && var r: ExplicitResult := b.txs[k].Next(s.hist.attempts[v].history).result;
               r == s.hist.attempts[v].result && s.hist.written[v] == FinalWrites(b, b.txs[k], r)
  {
    var v := Current(s, k);
    assert Complete(b, s, k);
    assert AttemptOk(b, s.hist.written, v, s.hist.attempts[v]);
  }

  lemma AgreesNext(b: Block, s: State, k: nat, r: TxResult)
    requires WellFormed(b, s) && k < |b.txs| && Agrees(b, s, k)
    requires Transact(b.state, Execute(b, k).value.world, b.txs[k], []) == Some(r)
    requires s.results[k] == Some(r)
    requires AccountsTyped(b.state, Commit(b, Execute(b, k).value.world, b.txs[k], r))
    requires forall l :: View(b.state, Commit(b, Execute(b, k).value.world, b.txs[k], r), l) ==
                         Evaluated(b.state, l, At(s.mem.data, l), k + 1)
    ensures Agrees(b, s, k + 1)
  {
  }

  lemma WritesSequential(b: Block, s: State, k: nat)
    requires WellFormed(b, s) && Snapshot(b, s) && k < |b.txs| && Agrees(b, s, k)
    ensures Agrees(b, s, k + 1)
  {
    ReadsSequential(b, s, k);
    CurrentAttempt(b, s, k);
    var w := Execute(b, k).value.world;
    var r: ExplicitResult := b.txs[k].Next(s.hist.attempts[Current(s, k)].history).result;
    assert AccountsTyped(b.state, Commit(b, w, b.txs[k], r)) by {
      FinalWritesCommit(b, w, b.txs[k], r);
    }
    forall l ensures View(b.state, Commit(b, w, b.txs[k], r), l) ==
                     Evaluated(b.state, l, At(s.mem.data, l), k + 1)
    {
      WriteSequential(b, s, k, w, r, l);
    }
    AgreesNext(b, s, k, r);
  }

  lemma {:induction false} SnapshotIsSequential(b: Block, s: State, k: nat)
    requires WellFormed(b, s) && Snapshot(b, s) && k <= |b.txs|
    ensures Agrees(b, s, k)
    decreases k
  {
    if k == 0 {
      forall l ensures View(b.state, map[], l) == Evaluated(b.state, l, At(s.mem.data, l), 0) {
        if l.AccountAt? { SettleNothing(b.state.Account(l.address)); }
      }
    } else {
      SnapshotIsSequential(b, s, k - 1);
      WritesSequential(b, s, k - 1);
    }
  }

  // ---- Every finished run ends in such a snapshot ----

  lemma ExitedReadsValid(b: Block, s: State, i: nat)
    requires WellFormed(b, s) && NothingForgotten(b, s) && !s.sched.aborted
    requires AllExited(s) && s.sched.validationIdx >= |b.txs| && i < |b.txs| && Checkable(b, s, i)
    ensures ValidReads(s.mem.data, i, s.mem.lastRead[i])
  {
    forall l | l in s.mem.lastRead[i] ensures ValidAt(s.mem.data, l, i, s.mem.lastRead[i][l]) {
      assert StaleAt(s, i, l) ==> CoveredAt(s, i, l);
    }
  }

  lemma ExitedIsSnapshot(b: Block, s: State)
    requires WellFormed(b, s) && Remembered(b, s) && ExplicitRun(b, s) && NothingForgotten(b, s)
    requires AllExited(s) && !s.sched.aborted && !s.hist.lazyTaken
    requires s.sched.validationIdx >= |b.txs| && forall i :: 0 <= i < |b.txs| ==> s.sched.Done(i)
    ensures Snapshot(b, s)
  {
    forall i | 0 <= i < |b.txs| ensures Complete(b, s, i) { DoneHasAttempt(b, s, i); }
    forall i | 0 <= i < |b.txs| { ExitedReadsValid(b, s, i); }
  }

  lemma FinishedIsSnapshot(b: Block, workers: nat, schedule: Schedule)
    requires var s := Run(b, workers, schedule);
             workers > 0 && AllExited(s) && !s.sched.aborted && !s.hist.lazyTaken
    ensures Snapshot(b, Run(b, workers, schedule))
  {
    RunInv(b, workers, schedule);
    ExitedMeansDone(b, workers, schedule);
    ExitedIsSnapshot(b, Run(b, workers, schedule));
  }

  lemma FinishedClean(b: Block, workers: nat, schedule: Schedule, l: Location)
    requires var s := Run(b, workers, schedule);
             workers > 0 && AllExited(s) && !s.sched.aborted && !s.hist.lazyTaken
    ensures Clean(l, At(Run(b, workers, schedule).mem.data, l))
  {
    FinishedIsSnapshot(b, workers, schedule);
    SnapshotClean(b, Run(b, workers, schedule), l);
  }

  /** Parallel execution arrives at the same outcome as sequential execution. When all workers have left
      unaborted and no transfer was lazy, then for every k the block's first k transactions succeed in
      order, their results are the recorded ones, and the memory evaluated at k is the state they
      leave. */
  lemma Serializable(b: Block, workers: nat, schedule: Schedule)
    requires var s := Run(b, workers, schedule);
             workers > 0 && AllExited(s) && !s.sched.aborted && !s.hist.lazyTaken
    ensures forall k :: 0 <= k <= |b.txs| ==> Agrees(b, Run(b, workers, schedule), k)
  {
    FinishedIsSnapshot(b, workers, schedule);
    forall k | 0 <= k <= |b.txs| ensures Agrees(b, Run(b, workers, schedule), k) {
      SnapshotIsSequential(b, Run(b, workers, schedule), k);
    }
  }

  // ---- A condition on the block ----

  /** No transaction is ever a plain transfer. */
  ghost predicate NoRawTransfers(b: Block) {
    forall i, history :: 0 <= i < |b.txs| ==> !b.txs[i].Next(history).RawTransfer?
  }

  lemma StepLazy(b: Block, s: State, w: nat, l: Location)
    requires WellFormed(b, s) && NoRawTransfers(b) && !s.hist.lazyTaken
    ensures !Step(b, s, w, l).hist.lazyTaken
  {
    if w < |s.workers| && s.workers[w].Running? {
      assert !b.txs[s.workers[w].v.tx].Next(s.workers[w].history).RawTransfer?;
    }
  }

  lemma {:induction false} NeverLazy(b: Block, workers: nat, schedule: Schedule)
    requires NoRawTransfers(b)
    ensures !Run(b, workers, schedule).hist.lazyTaken
    decreases |schedule|
  {
    if schedule != [] {
      var (before, last) := (schedule[..|schedule| - 1], schedule[|schedule| - 1]);
      NeverLazy(b, workers, before);
      StepLazy(b, Run(b, workers, before), last.0, last.1);
    }
  }

  /** A block without plain transfers is serializable in every run that ends unaborted. */
  lemma SerializableBlock(b: Block, workers: nat, schedule: Schedule)
    requires NoRawTransfers(b)
    requires var s := Run(b, workers, schedule); workers > 0 && AllExited(s) && !s.sched.aborted
    ensures forall k :: 0 <= k <= |b.txs| ==> Agrees(b, Run(b, workers, schedule), k)
  {
    NeverLazy(b, workers, schedule);
    Serializable(b, workers, schedule);
  }
}
