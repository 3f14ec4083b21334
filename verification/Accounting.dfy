/** Who is responsible for each transaction: what every step keeps about statuses, dependents lists,
    the two sweeping indices and the tasks that workers hold. */
module Accounting {
  import opened Types
  import opened Blocks
  import opened Scheduling
  import opened Machine

  predicate Executes(p: Phase, i: nat) {
    (p.ExecTask? || p.Running? || p.Transferring? || p.Blocked? || p.Recording?) && p.v.tx == i
  }

  predicate Aborts(p: Phase, i: nat) {
    p.Converting? && p.v.tx == i
  }

  predicate Owns(p: Phase, i: nat) {
    Executes(p, i) || Aborts(p, i)
  }

  /** The worker will look at the status of i and start it if it is ready. */
  predicate Starts(p: Phase, i: nat) {
    (p.ClaimedExecution? && p.claim == i) || ((p.Lowering? || p.Rerunning?) && p.v.tx == i)
  }

  /** The worker will confirm or abort i if it is executed. */
  predicate Checks(p: Phase, i: nat) {
    || (p.ClaimedValidation? && p.claim == i)
    || ((p.ValTask? || p.Validating? || p.Failed? || p.AbortLost?) && p.v.tx == i)
  }

  /** The transaction a worker is busy with; -1 for none. */
  function Target(p: Phase): int {
    if p.ClaimedExecution? || p.ClaimedValidation? then p.claim else if Tasked(p) then p.v.tx else -1
  }

  ghost predicate SomeExecutes(ws: seq<Phase>, i: nat) {
    exists w :: 0 <= w < |ws| && Executes(ws[w], i)
  }

  ghost predicate SomeStarts(ws: seq<Phase>, i: nat) {
    exists w :: 0 <= w < |ws| && Starts(ws[w], i)
  }

  ghost predicate SomeChecks(ws: seq<Phase>, i: nat) {
    exists w :: 0 <= w < |ws| && Checks(ws[w], i)
  }

  /** At most one worker executes or aborts a transaction; an Executing one has such a worker. */
  ghost predicate Owned(s: Sched, ws: seq<Phase>) {
    && (forall w, i: nat :: 0 <= w < |ws| && Owns(ws[w], i) ==> i < |s.txs|)
    && (forall w, i {:trigger Executes(ws[w], i)} :: 0 <= w < |ws| && 0 <= i < |s.txs| && Executes(ws[w], i) ==>
          s.txs[i] == TxStatus(ws[w].v.incarnation, Executing))
    && (forall w, i {:trigger Aborts(ws[w], i)} :: 0 <= w < |ws| && 0 <= i < |s.txs| && Aborts(ws[w], i) ==>
          s.txs[i].status == Aborting)
    && (forall w, w', i: nat :: 0 <= w < |ws| && 0 <= w' < |ws| && Owns(ws[w], i) && Owns(ws[w'], i) ==> w == w')
    && (forall i {:trigger SomeExecutes(ws, i)} :: 0 <= i < |s.txs| && s.txs[i].status == Executing ==>
          SomeExecutes(ws, i))
  }

  ghost predicate Distinct(ds: seq<nat>) {
    forall p, q :: 0 <= p < q < |ds| ==> ds[p] != ds[q]
  }

  /** Transaction i waits for transaction j. */
  predicate Waits(s: Sched, i: nat, j: nat) {
    j < |s.dependents| && i in s.dependents[j]
  }

  /** Some worker aborts i, or i is listed as a dependent. */
  ghost predicate Kept(s: Sched, ws: seq<Phase>, i: nat) {
    (exists w :: 0 <= w < |ws| && Aborts(ws[w], i)) || (exists j: nat :: Waits(s, i, j))
  }

  /** An Aborting transaction is being aborted by a worker or is listed once, in one dependents list,
      under a lower transaction that is still to execute. */
  ghost predicate Parked(s: Sched, ws: seq<Phase>) {
    && s.Valid()
    && (forall i: nat, j: nat {:trigger Waits(s, i, j)} ::
          Waits(s, i, j) ==> j < i < |s.txs| && s.txs[i].status == Aborting && !s.Done(j))
    && (forall j :: 0 <= j < |s.dependents| ==> Distinct(s.dependents[j]))
    && (forall i: nat, j: nat, j': nat :: Waits(s, i, j) && Waits(s, i, j') ==> j == j')
    && (forall w, i: nat, j: nat {:trigger Aborts(ws[w], i), Waits(s, i, j)} ::
          0 <= w < |ws| && Waits(s, i, j) ==> !Aborts(ws[w], i))
    && (forall i {:trigger Kept(s, ws, i)} :: 0 <= i < |s.txs| && s.txs[i].status == Aborting ==> Kept(s, ws, i))
  }

  /** Neither index nor every worker has let go of a ready or an executed transaction. */
  ghost predicate Pending(s: Sched, ws: seq<Phase>) {
    && (forall i {:trigger SomeStarts(ws, i)} :: 0 <= i < |s.txs| && s.txs[i].status == ReadyToExecute ==>
          s.executionIdx <= i || SomeStarts(ws, i))
    && (forall i :: 0 <= i < |s.txs| && s.txs[i].status == Executed ==> s.minValidationIdx <= i)
    && (forall i {:trigger SomeChecks(ws, i)} :: 0 <= i < |s.txs| && s.txs[i].status == Executed ==>
          s.validationIdx <= i || SomeChecks(ws, i))
  }

  /** Nothing is claimed of an aborted run: its result comes from elsewhere. */
  ghost predicate Accounted(s: Sched, ws: seq<Phase>) {
    s.aborted || (Owned(s, ws) && Parked(s, ws) && Pending(s, ws))
  }

  ghost predicate AllAccounted(s: State) {
    Accounted(s.sched, s.workers)
  }

  // ---- Local changes ----

  /** Only transaction i changes status, and worker w has nothing to do with any other. With i past the
      block, no status changes. */
  ghost predicate Local(s: Sched, ws: seq<Phase>, s': Sched, w: nat, p: Phase, i: nat) {
    && w < |ws| && |s'.txs| == |s.txs|
    && (forall k :: 0 <= k < |s.txs| && k != i ==> s'.txs[k] == s.txs[k])
    && (Target(ws[w]) == i || !(0 <= Target(ws[w]) < |s.txs|))
    && (Target(p) == i || !(0 <= Target(p) < |s.txs|))
    && (Tasked(p) ==> Target(p) == i < |s.txs|)
    && (i < |s.txs| ==>
          // Either nobody else is responsible for i, or nothing about it changes hands.
          && (|| Owns(ws[w], i)
              || (s.txs[i].status != Executing && s.txs[i].status != Aborting)
              || (s'.txs[i] == s.txs[i] && !Owns(p, i)))
          && (Executes(p, i) ==> s'.txs[i] == TxStatus(p.v.incarnation, Executing))
          && (Aborts(p, i) ==> s'.txs[i].status == Aborting)
          && (s'.txs[i].status == Executing ==> Executes(p, i) || (s'.txs[i] == s.txs[i] && !Owns(ws[w], i))))
  }

  lemma LocalOwned(s: Sched, ws: seq<Phase>, s': Sched, w: nat, p: Phase, i: nat)
    requires Owned(s, ws) && Local(s, ws, s', w, p, i)
    ensures Owned(s', ws[w := p])
  {
    var ws' := ws[w := p];
    forall k | 0 <= k < |s'.txs| && s'.txs[k].status == Executing
      ensures SomeExecutes(ws', k)
    {
      if k == i && Executes(p, i) {
        assert Executes(ws'[w], k);
      } else {
        assert s.txs[k].status == Executing;
        assert SomeExecutes(ws, k);
        var x :| 0 <= x < |ws| && Executes(ws[x], k);
        assert Executes(ws'[x], k);
      }
    }
  }

  /** Transaction i neither enters nor leaves a dependents list. */
  ghost predicate LocalAborting(s: Sched, ws: seq<Phase>, s': Sched, w: nat, p: Phase, i: nat) {
    && s'.Valid() && s'.dependents == s.dependents
    && (w < |ws| && i < |s.txs| == |s'.txs| ==>
          && (s'.txs[i] == s.txs[i] || Aborts(ws[w], i) || s.txs[i].status != Aborting)
          && (s'.txs[i].status == Aborting ==>
                Aborts(p, i) || (s.txs[i].status == Aborting && !Aborts(ws[w], i) && !Aborts(p, i)))
          && (s'.Done(i) ==> s.Done(i)))
  }

  lemma LocalParked(s: Sched, ws: seq<Phase>, s': Sched, w: nat, p: Phase, i: nat)
    requires Owned(s, ws) && Parked(s, ws) && Local(s, ws, s', w, p, i) && LocalAborting(s, ws, s', w, p, i)
    ensures Parked(s', ws[w := p])
  {
    var ws' := ws[w := p];
    forall k | 0 <= k < |s'.txs| && s'.txs[k].status == Aborting
      ensures Kept(s', ws', k)
    {
      if k == i && Aborts(p, i) {
        assert Aborts(ws'[w], k);
      } else {
        assert s.txs[k].status == Aborting && Kept(s, ws, k);
        if x :| 0 <= x < |ws| && Aborts(ws[x], k) {
          assert Aborts(ws'[x], k);
        } else {
          var j: nat :| Waits(s, k, j);
          assert Waits(s', k, j);
        }
      }
    }
    forall k: nat, j: nat | Waits(s', k, j)
      ensures j < k < |s'.txs| && s'.txs[k].status == Aborting && !s'.Done(j)
      ensures forall x :: 0 <= x < |ws'| ==> !Aborts(ws'[x], k)
    {
      assert Waits(s, k, j) && !s.Done(j);
    }
    assert forall k: nat, j: nat :: Waits(s', k, j) ==> Waits(s, k, j);
  }

  /** Transaction i, if ready or executed, is not let go of. */
  ghost predicate LocalPendingOk(s: Sched, ws: seq<Phase>, s': Sched, w: nat, p: Phase, i: nat) {
    && |s.txs| == |s'.txs| && w < |ws|
    && s'.minValidationIdx <= s.minValidationIdx
    && (forall k :: 0 <= k < |s.txs| && k != i ==>
          && (s.executionIdx <= k && s.txs[k].status == ReadyToExecute ==> s'.executionIdx <= k)
          && (s.validationIdx <= k && s.txs[k].status == Executed ==> s'.validationIdx <= k))
    && (i < |s.txs| ==>
          && (s'.txs[i].status == ReadyToExecute ==>
                || s'.executionIdx <= i
                || Starts(p, i)
                || (s.txs[i].status == ReadyToExecute && s.executionIdx > i && !Starts(ws[w], i)))
          && (s'.txs[i].status == Executed ==>
                && s'.minValidationIdx <= i
                && (|| s'.validationIdx <= i
                    || Checks(p, i)
                    || (s.txs[i].status == Executed && s.validationIdx > i && !Checks(ws[w], i)))))
  }

  lemma LocalPending(s: Sched, ws: seq<Phase>, s': Sched, w: nat, p: Phase, i: nat)
    requires Pending(s, ws) && Local(s, ws, s', w, p, i) && LocalPendingOk(s, ws, s', w, p, i)
    ensures Pending(s', ws[w := p])
  {
    var ws' := ws[w := p];
    forall k | 0 <= k < |s'.txs| && s'.txs[k].status == Executed
      ensures s'.validationIdx <= k || SomeChecks(ws', k)
    {
      if k == i && Checks(p, i) {
        assert Checks(ws'[w], k);
      } else if s'.validationIdx > k {
        assert s.txs[k].status == Executed && s.validationIdx > k;
        assert SomeChecks(ws, k);
        var x :| 0 <= x < |ws| && Checks(ws[x], k);
        assert Checks(ws'[x], k);
      }
    }
    forall k | 0 <= k < |s'.txs| && s'.txs[k].status == ReadyToExecute
      ensures s'.executionIdx <= k || SomeStarts(ws', k)
    {
      if k == i && Starts(p, i) {
        assert Starts(ws'[w], k);
      } else if s'.executionIdx > k {
        assert s.txs[k].status == ReadyToExecute && s.executionIdx > k;
        assert SomeStarts(ws, k);
        var x :| 0 <= x < |ws| && Starts(ws[x], k);
        assert Starts(ws'[x], k);
      }
    }
  }

  lemma LocalKeeps(s: Sched, ws: seq<Phase>, s': Sched, w: nat, p: Phase, i: nat)
    requires Accounted(s, ws) && !s.aborted && Local(s, ws, s', w, p, i)
    requires LocalAborting(s, ws, s', w, p, i) && LocalPendingOk(s, ws, s', w, p, i)
    ensures Accounted(s', ws[w := p])
  {
    LocalOwned(s, ws, s', w, p, i);
    LocalParked(s, ws, s', w, p, i);
    LocalPending(s, ws, s', w, p, i);
  }

  // ---- One lemma per operation ----

  /** Worker w moves between phases that concern the same transaction, or none, alike. */
  lemma StayKeeps(s: Sched, ws: seq<Phase>, w: nat, p: Phase)
    requires Accounted(s, ws) && !s.aborted && w < |ws| && Tasked(ws[w]) && Tasked(p) && p.v == ws[w].v
    requires var i := p.v.tx;
             && i < |s.txs|
             && Executes(ws[w], i) == Executes(p, i) && Aborts(ws[w], i) == Aborts(p, i)
             && Starts(ws[w], i) == Starts(p, i) && Checks(ws[w], i) == Checks(p, i)
    ensures Accounted(s, ws[w := p])
  {
    LocalKeeps(s, ws, s, w, p, p.v.tx);
  }

  /** A step that changes only an index, from or to a phase without a claim. */
  lemma IdleKeeps(s: Sched, ws: seq<Phase>, w: nat, p: Phase)
    requires Accounted(s, ws) && !s.aborted && w < |ws| && Target(ws[w]) == -1 && Target(p) == -1
    ensures Accounted(s, ws[w := p])
  {
    LocalKeeps(s, ws, s, w, p, |s.txs|);
  }

  lemma TakeValidationKeeps(b: Block, s: State, w: nat)
    requires WellFormed(b, s) && w < |s.workers| && s.workers[w].TakeValidation?
    requires AllAccounted(s) && !s.sched.aborted
    ensures AllAccounted(StepPolling(b, s, w))
  {
    var s' := StepPolling(b, s, w);
    LocalKeeps(s.sched, s.workers, s'.sched, w, s'.workers[w], s.sched.validationIdx);
  }

  lemma TakeExecutionKeeps(b: Block, s: State, w: nat)
    requires WellFormed(b, s) && w < |s.workers| && s.workers[w].TakeExecution?
    requires AllAccounted(s) && !s.sched.aborted
    ensures AllAccounted(StepPolling(b, s, w))
  {
    var s' := StepPolling(b, s, w);
    LocalKeeps(s.sched, s.workers, s'.sched, w, s'.workers[w], s.sched.executionIdx);
  }

  lemma InspectKeeps(b: Block, s: State, w: nat)
    requires WellFormed(b, s) && w < |s.workers| && s.workers[w].ClaimedValidation?
    requires AllAccounted(s) && !s.sched.aborted
    ensures AllAccounted(StepPolling(b, s, w))
  {
    var s' := StepPolling(b, s, w);
    LocalKeeps(s.sched, s.workers, s'.sched, w, s'.workers[w], s.workers[w].claim);
  }

  lemma TryExecuteKeeps(b: Block, s: State, w: nat)
    requires WellFormed(b, s) && w < |s.workers| && s.workers[w].ClaimedExecution?
    requires AllAccounted(s) && !s.sched.aborted
    ensures AllAccounted(StepPolling(b, s, w))
  {
    var s' := StepPolling(b, s, w);
    LocalKeeps(s.sched, s.workers, s'.sched, w, s'.workers[w], s.workers[w].claim);
  }

  lemma AddDependencyKeeps(b: Block, s: State, w: nat)
    requires WellFormed(b, s) && w < |s.workers| && s.workers[w].Blocked?
    requires AllAccounted(s) && !s.sched.aborted
    ensures AllAccounted(StepBlocked(b, s, w))
  {
    var (p, s') := (s.workers[w], StepBlocked(b, s, w));
    assert Executes(p, p.v.tx);
    if s.sched.Done(p.on) {
      StayKeeps(s.sched, s.workers, w, ExecTask(p.v));
    } else {
      LocalOwned(s.sched, s.workers, s'.sched, w, Idle, p.v.tx);
      LocalPending(s.sched, s.workers, s'.sched, w, Idle, p.v.tx);
      ParkKeeps(s.sched, s.workers, w);
    }
  }

  lemma ParkKeeps(s: Sched, ws: seq<Phase>, w: nat)
    requires Accounted(s, ws) && !s.aborted && w < |ws| && ws[w].Blocked? && ws[w].on < ws[w].v.tx < |s.txs|
    requires !s.Done(ws[w].on)
    ensures Parked(AddDependency(s, ws[w].v.tx, ws[w].on).0, ws[w := Idle])
  {
    var (i, j) := (ws[w].v.tx, ws[w].on);
    var s' := AddDependency(s, i, j).0;
    var ws' := ws[w := Idle];
    assert Executes(ws[w], i);
    assert forall x: nat :: !Waits(s, i, x);
    assert forall k: nat, x: nat :: Waits(s', k, x) <==> Waits(s, k, x) || (k == i && x == j);
    assert forall x :: 0 <= x < |s.txs| && x != i ==> s'.txs[x] == s.txs[x];
    forall k | 0 <= k < |s'.txs| && s'.txs[k].status == Aborting
      ensures Kept(s', ws', k)
    {
      assert k == i || Kept(s, ws, k);
      if k == i {
        assert Waits(s', k, j);
      } else if x :| 0 <= x < |ws| && Aborts(ws[x], k) {
        assert Aborts(ws'[x], k);
      } else {
        var x: nat :| Waits(s, k, x);
        assert Waits(s', k, x);
      }
    }
    assert Distinct(s'.dependents[j]) by {
      assert !Waits(s, i, j) && Distinct(s.dependents[j]);
    }
  }

  // ---- finish_execution ----

  lemma {:induction false} DrainEffect(s: Sched, ds: seq<nat>)
    requires Distinct(ds) && forall i :: i in ds ==> 0 <= i < |s.txs|
    ensures var r := Drain(s, ds);
            && |r.txs| == |s.txs| && r.executionIdx <= s.executionIdx
            && (r.executionIdx == s.executionIdx || r.executionIdx in ds)
            && (forall k :: 0 <= k < |s.txs| && k !in ds ==> r.txs[k] == s.txs[k])
            && (forall k :: 0 <= k < |s.txs| && k in ds ==>
                  r.txs[k] == TxStatus(s.txs[k].incarnation + 1, ReadyToExecute) && r.executionIdx <= k)
    decreases |ds|
  {
    if ds != [] {
      assert ds[0] in ds && forall i :: i in ds[1..] ==> i in ds;
      assert ds[0] !in ds[1..];
      DrainEffect(SetReady(s, ds[0]).(executionIdx := Min(s.executionIdx, ds[0])), ds[1..]);
    }
  }

  /** What finish_execution does to statuses, lists and the execution index. */
  lemma FinishExecutionEffect(s: Sched, ws: seq<Phase>, v: Version, need: bool, wroteNew: bool)
    requires Parked(s, ws) && v.tx < |s.txs| && s.txs[v.tx].status == Executing
    ensures var s' := FinishExecution(s, v, need, wroteNew).0;
            && s'.executionIdx <= s.executionIdx
            && (s'.executionIdx == s.executionIdx || Waits(s, s'.executionIdx, v.tx))
            && s'.txs[v.tx] == TxStatus(s.txs[v.tx].incarnation, if need then Executed else Validated)
            && (forall k :: 0 <= k < |s.txs| && k != v.tx && !Waits(s, k, v.tx) ==> s'.txs[k] == s.txs[k])
            && (forall k :: 0 <= k < |s.txs| && Waits(s, k, v.tx) ==>
                  s'.txs[k] == TxStatus(s.txs[k].incarnation + 1, ReadyToExecute) && s'.executionIdx <= k)
            && (forall k: nat, j: nat :: Waits(s', k, j) <==> Waits(s, k, j) && j != v.tx)
  {
    DrainEffect(s, s.dependents[v.tx]);
    assert !Waits(s, v.tx, v.tx);
  }

  function Finished(p: Phase, task: Option<Task>): Phase
    requires p.Recording?
  {
    if task.Some? then ValTask(p.v) else Idle
  }

  lemma ReleaseOwned(s: Sched, ws: seq<Phase>, s': Sched, w: nat, p: Phase, i: nat)
    requires Owned(s, ws) && w < |ws| && i < |s.txs| == |s'.txs| && Executes(ws[w], i)
    requires !p.Idle? ==> Checks(p, i)
    requires s'.txs[i].status != Executing
    requires forall k :: 0 <= k < |s.txs| && k != i ==>
               || s'.txs[k] == s.txs[k]
               || (s'.txs[k].status == ReadyToExecute && forall x :: 0 <= x < |ws| ==> !Owns(ws[x], k))
    ensures Owned(s', ws[w := p])
  {
    var ws' := ws[w := p];
    forall x, k | 0 <= x < |ws'| && 0 <= k < |s'.txs| && Owns(ws'[x], k)
      ensures s'.txs[k] == s.txs[k]
    {
      assert Owns(ws[x], k) && k != i;
    }
    forall k | 0 <= k < |s'.txs| && s'.txs[k].status == Executing
      ensures SomeExecutes(ws', k)
    {
      assert SomeExecutes(ws, k);
      var x :| 0 <= x < |ws| && Executes(ws[x], k);
      assert Executes(ws'[x], k);
    }
  }

  lemma FinishExecutionOwned(s: Sched, ws: seq<Phase>, w: nat)
    requires Accounted(s, ws) && !s.aborted && w < |ws| && ws[w].Recording? && ws[w].v.tx < |s.txs|
    ensures var p := ws[w];
            var (s', task) := FinishExecution(s, p.v, p.needValidation, p.wroteNew);
            Owned(s', ws[w := Finished(p, task)])
  {
    var p := ws[w];
    var (s', task) := FinishExecution(s, p.v, p.needValidation, p.wroteNew);
    assert Executes(p, p.v.tx);
    FinishExecutionEffect(s, ws, p.v, p.needValidation, p.wroteNew);
    forall k, x | 0 <= k < |s.txs| && Waits(s, k, p.v.tx) && 0 <= x < |ws| ensures !Owns(ws[x], k) {
      assert s.txs[k].status == Aborting;
    }
    ReleaseOwned(s, ws, s', w, Finished(p, task), p.v.tx);
  }

  lemma FinishExecutionParked(s: Sched, ws: seq<Phase>, w: nat)
    requires Accounted(s, ws) && !s.aborted && w < |ws| && ws[w].Recording? && ws[w].v.tx < |s.txs|
    ensures var p := ws[w];
            var (s', task) := FinishExecution(s, p.v, p.needValidation, p.wroteNew);
            Parked(s', ws[w := Finished(p, task)])
  {
    var p := ws[w];
    var (s', task) := FinishExecution(s, p.v, p.needValidation, p.wroteNew);
    var ws' := ws[w := Finished(p, task)];
    assert Executes(p, p.v.tx);
    FinishExecutionEffect(s, ws, p.v, p.needValidation, p.wroteNew);
    forall k: nat, j: nat | Waits(s', k, j)
      ensures j < k < |s'.txs| && s'.txs[k].status == Aborting && !s'.Done(j)
    {
      assert Waits(s, k, j) && !Waits(s, k, p.v.tx);
      assert s'.txs[j] == s.txs[j] || s'.txs[j].status == ReadyToExecute;
    }
    forall k | 0 <= k < |s'.txs| && s'.txs[k].status == Aborting
      ensures Kept(s', ws', k)
    {
      assert s.txs[k].status == Aborting && !Waits(s, k, p.v.tx) && Kept(s, ws, k);
      if x :| 0 <= x < |ws| && Aborts(ws[x], k) {
        assert Aborts(ws'[x], k);
      } else {
        var j: nat :| Waits(s, k, j);
        assert Waits(s', k, j);
      }
    }
  }

  lemma FinishExecutionPending(s: Sched, ws: seq<Phase>, w: nat)
    requires Accounted(s, ws) && !s.aborted && w < |ws| && ws[w].Recording? && ws[w].v.tx < |s.txs|
    ensures var p := ws[w];
            var (s', task) := FinishExecution(s, p.v, p.needValidation, p.wroteNew);
            Pending(s', ws[w := Finished(p, task)])
  {
    var p := ws[w];
    var (s', task) := FinishExecution(s, p.v, p.needValidation, p.wroteNew);
    var ws' := ws[w := Finished(p, task)];
    assert Executes(p, p.v.tx);
    FinishExecutionEffect(s, ws, p.v, p.needValidation, p.wroteNew);
    forall k | 0 <= k < |s'.txs| && s'.txs[k].status == Executed
      ensures s'.minValidationIdx <= k
      ensures s'.validationIdx <= k || SomeChecks(ws', k)
    {
      if k == p.v.tx {
        if task.Some? { assert Checks(ws'[w], k); }
      } else if s.validationIdx > k {
        assert SomeChecks(ws, k);
        var x :| 0 <= x < |ws| && Checks(ws[x], k);
        assert Checks(ws'[x], k);
      }
    }
    forall k | 0 <= k < |s'.txs| && s'.txs[k].status == ReadyToExecute
      ensures s'.executionIdx <= k || SomeStarts(ws', k)
    {
      if !Waits(s, k, p.v.tx) && s.executionIdx > k {
        assert SomeStarts(ws, k);
        var x :| 0 <= x < |ws| && Starts(ws[x], k);
        assert Starts(ws'[x], k);
      }
    }
  }

  lemma FinishExecutionKeeps(b: Block, s: State, w: nat)
    requires WellFormed(b, s) && w < |s.workers| && s.workers[w].Recording?
    requires AllAccounted(s) && !s.sched.aborted
    ensures AllAccounted(StepFinishExecution(b, s, w))
  {
    FinishExecutionOwned(s.sched, s.workers, w);
    FinishExecutionParked(s.sched, s.workers, w);
    FinishExecutionPending(s.sched, s.workers, w);
  }

  // ---- Validation ----

  lemma TryAbortKeeps(b: Block, s: State, w: nat)
    requires WellFormed(b, s) && w < |s.workers| && s.workers[w].Failed?
    requires AllAccounted(s) && !s.sched.aborted
    ensures AllAccounted(StepTryAbort(b, s, w))
  {
    var s' := StepTryAbort(b, s, w);
    LocalKeeps(s.sched, s.workers, s'.sched, w, s'.workers[w], s.workers[w].v.tx);
  }

  lemma ConfirmKeeps(b: Block, s: State, w: nat)
    requires WellFormed(b, s) && w < |s.workers| && (s.workers[w].Validating? || s.workers[w].AbortLost?)
    requires AllAccounted(s) && !s.sched.aborted
    ensures AllAccounted(StepConfirm(b, s, w))
  {
    LocalKeeps(s.sched, s.workers, StepConfirm(b, s, w).sched, w, Idle, s.workers[w].v.tx);
  }

  lemma SetReadyKeeps(b: Block, s: State, w: nat)
    requires WellFormed(b, s) && w < |s.workers| && s.workers[w].Converting?
    requires AllAccounted(s) && !s.sched.aborted
    ensures AllAccounted(StepSetReady(b, s, w))
  {
    var v := s.workers[w].v;
    assert Aborts(s.workers[w], v.tx);
    LocalKeeps(s.sched, s.workers, StepSetReady(b, s, w).sched, w, Lowering(v), v.tx);
  }

  lemma LowerKeeps(b: Block, s: State, w: nat)
    requires WellFormed(b, s) && w < |s.workers| && s.workers[w].Lowering?
    requires AllAccounted(s) && !s.sched.aborted
    ensures AllAccounted(StepLower(b, s, w))
  {
    var v := s.workers[w].v;
    LocalKeeps(s.sched, s.workers, StepLower(b, s, w).sched, w, Rerunning(v), v.tx);
  }

  lemma RerunKeeps(b: Block, s: State, w: nat)
    requires WellFormed(b, s) && w < |s.workers| && s.workers[w].Rerunning?
    requires AllAccounted(s) && !s.sched.aborted
    ensures AllAccounted(StepRerun(b, s, w))
  {
    var s' := StepRerun(b, s, w);
    LocalKeeps(s.sched, s.workers, s.sched, w, s'.workers[w], s.workers[w].v.tx);
  }
}
