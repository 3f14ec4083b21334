/** The scheduler as an object whose methods update its statuses, lists and indices in place. Each method
    is proved against the operation on values of the same name. */
module SchedulerClass {
  import opened Types
  import opened Scheduling

  class Scheduler {
    const txs: array<TxStatus>
    const dependents: array<seq<nat>>
    var executionIdx: nat
    var validationIdx: nat
    var minValidationIdx: nat
    var numValidated: int
    var aborted: bool

    ghost predicate Valid()
      reads this, txs, dependents
    {
      Value().Valid()
    }

    ghost function Value(): Sched
      reads this, txs, dependents
    {
      Sched(txs[..], dependents[..], executionIdx, validationIdx, minValidationIdx, numValidated, aborted)
    }

    constructor (blockSize: nat)
      ensures Valid() && fresh(txs) && fresh(dependents)
      ensures Value() == Scheduling.Initial(blockSize)
    {
      txs := new TxStatus[blockSize](_ => TxStatus(0, ReadyToExecute));
      dependents := new seq<nat>[blockSize](_ => []);
      executionIdx, validationIdx, minValidationIdx, numValidated, aborted := 0, blockSize, blockSize, 0, false;
    }

    method Abort()
      requires Valid()
      modifies this
      ensures Valid() && Value() == old(Value()).(aborted := true)
    {
      aborted := true;
    }

    // ---- next_task ----

    method TryExecute(i: nat) returns (v: Option<Version>)
      requires Valid()
      modifies txs
      ensures Valid() && (Value(), v) == Scheduling.TryExecute(old(Value()), i)
    {
      if i < txs.Length {
        var tx := txs[i];
        if tx.status == ReadyToExecute {
          txs[i] := tx.(status := Executing);
          return Some(Version(i, tx.incarnation));
        }
      }
      v := None;
    }

    /** One iteration of the loop of next_task. */
    method Poll() returns (poll: Scheduling.Poll)
      requires Valid()
      modifies this, txs
      ensures Valid() && (Value(), poll) == NextTask(old(Value()))
    {
      if aborted { return Leave; }
      var (execution, validation) := (executionIdx, validationIdx);
      if execution >= txs.Length && validation >= txs.Length {
        return if numValidated >= txs.Length - minValidationIdx then Leave else Again;
      }
      if validation < execution {
        var i := validationIdx;
        validationIdx := validationIdx + 1;
        if i < txs.Length {
          var tx := txs[i];
          if tx.status == ReadyToExecute {
            txs[i] := tx.(status := Executing);
            return Got(Execution(Version(i, tx.incarnation)));
          }
          if tx.status == Executed || tx.status == Validated {
            return Got(Validation(Version(i, tx.incarnation)));
          }
          if tx.status == Aborting { return Again; }
        }
      }
      var i := executionIdx;
      executionIdx := executionIdx + 1;
      var v := TryExecute(i);
      poll := if v.Some? then Got(Execution(v.value)) else Again;
    }

    // ---- Dependencies ----

    method AddDependency(i: nat, blocking: nat) returns (added: bool)
      requires Valid() && i < txs.Length && blocking < txs.Length
      modifies txs, dependents
      ensures Valid() && (Value(), added) == Scheduling.AddDependency(old(Value()), i, blocking)
    {
      if txs[blocking].status == Executed || txs[blocking].status == Validated { return false; }
      txs[i] := txs[i].(status := Aborting);
      dependents[blocking] := dependents[blocking] + [i];
      added := true;
    }

    method SetReadyStatus(i: nat)
      requires Valid() && i < txs.Length
      modifies txs
      ensures Valid() && Value() == SetReady(old(Value()), i)
    {
      txs[i] := TxStatus(txs[i].incarnation + 1, ReadyToExecute);
    }

    /** Resume every dependent of transaction i. */
    method ResumeDependents(i: nat)
      requires Valid() && i < txs.Length
      modifies this`executionIdx, txs
      ensures Valid() && Value() == Drain(old(Value()), old(dependents[i]))
    {
      var ds := dependents[i];
      ghost var start := Value();
      var k := 0;
      while k < |ds|
        invariant k <= |ds| && Valid() && dependents[..] == old(dependents[..])
        invariant (forall i :: i in ds ==> 0 <= i < txs.Length) && (forall i :: i in ds[k..] ==> i in ds)
        invariant Drain(Value(), ds[k..]) == Drain(start, ds)
      {
        ghost var before := Value();
        DrainNext(before, ds, k);
        assert ds[k..][1..] == ds[k + 1..];
        SetReadyStatus(ds[k]);
        executionIdx := Min(executionIdx, ds[k]);
        assert Value() == SetReady(before, ds[k]).(executionIdx := Min(before.executionIdx, ds[k]));
        k := k + 1;
      }
    }

    // ---- finish_execution ----

    /** The part of finish_execution after the dependents are resumed: where to validate from next, and the new
        status. */
    method Settle(v: Version, needValidation: bool, wroteNew: bool) returns (task: Option<Task>)
      requires Valid() && v.tx < txs.Length
      modifies this`minValidationIdx, this`validationIdx, this`numValidated, txs
      ensures Valid()
      ensures task == if needValidation && InWindow(old(Value()), v.tx, true) then Some(Validation(v)) else None
      ensures var s := old(Value());
              Value() == SetStatus(s, v.tx, if needValidation then Executed else Validated).(
                minValidationIdx := if needValidation then Min(s.minValidationIdx, v.tx) else s.minValidationIdx,
                validationIdx := ValidationFrom(s, v.tx, needValidation, wroteNew),
                numValidated := s.numValidated +
                                if needValidation then 0 else if InWindow(s, v.tx, false) then 2 else 1)
    {
      if needValidation { minValidationIdx := Min(minValidationIdx, v.tx); }
      var floor := minValidationIdx;
      if floor < txs.Length {
        if v.tx < floor {
          if wroteNew { validationIdx := Min(validationIdx, floor); }
        } else if v.tx < validationIdx {
          if wroteNew { validationIdx := Min(validationIdx, v.tx + 1); }
          if needValidation {
            txs[v.tx] := txs[v.tx].(status := Executed);
            return Some(Validation(v));
          }
          txs[v.tx] := txs[v.tx].(status := Validated);
          numValidated := numValidated + 1;
        }
      }
      if needValidation {
        txs[v.tx] := txs[v.tx].(status := Executed);
      } else {
        txs[v.tx] := txs[v.tx].(status := Validated);
        numValidated := numValidated + 1;
      }
      task := None;
    }

    method FinishExecution(v: Version, needValidation: bool, wroteNew: bool) returns (task: Option<Task>)
      requires Valid() && v.tx < txs.Length
      modifies this, txs, dependents
      ensures Valid() && (Value(), task) == Scheduling.FinishExecution(old(Value()), v, needValidation, wroteNew)
    {
      ResumeDependents(v.tx);
      dependents[v.tx] := [];
      task := Settle(v, needValidation, wroteNew);
    }

    // ---- Validation ----

    method TryValidationAbort(v: Version) returns (aborting: bool)
      requires Valid() && v.tx < txs.Length
      modifies this`numValidated, txs
      ensures Valid() && (Value(), aborting) == Scheduling.TryValidationAbort(old(Value()), v.tx)
    {
      if txs[v.tx].status == Validated { numValidated := numValidated - 1; }
      aborting := txs[v.tx].status == Executed || txs[v.tx].status == Validated;
      if aborting { txs[v.tx] := txs[v.tx].(status := Aborting); }
    }

    method FinishValidation(v: Version, abortWon: bool) returns (task: Option<Task>)
      requires Valid() && v.tx < txs.Length
      modifies this, txs
      ensures Valid()
      ensures var (s, next) := Scheduling.FinishValidation(old(Value()), v.tx, abortWon);
              Value() == s && task == if next.Some? then Some(Execution(next.value)) else None
    {
      task := None;
      if abortWon {
        SetReadyStatus(v.tx);
        validationIdx := Min(validationIdx, v.tx + 1);
        if executionIdx > v.tx {
          var next := TryExecute(v.tx);
          task := if next.Some? then Some(Execution(next.value)) else None;
        }
      } else if txs[v.tx].status == Executed {
        txs[v.tx] := txs[v.tx].(status := Validated);
        numValidated := numValidated + 1;
      }
    }
  }
}
