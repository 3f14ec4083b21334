/** The collaborative scheduler as a value, and what each of its operations makes of it. */
module Scheduling {
  import opened Types

  datatype Sched = Sched(
    txs: seq<TxStatus>,
    dependents: seq<seq<nat>>,
    executionIdx: nat,
    validationIdx: nat,
    minValidationIdx: nat,
    numValidated: int,
    aborted: bool)
  {
    ghost predicate Valid() {
      && |dependents| == |txs|
      && minValidationIdx <= |txs|
      && forall j, i :: 0 <= j < |dependents| && i in dependents[j] ==> 0 <= i < |txs|
    }

    predicate Done(i: nat)
      requires i < |txs|
    {
      txs[i].status == Executed || txs[i].status == Validated
    }
  }

  function Initial(n: nat): Sched {
    Sched(seq(n, _ => TxStatus(0, ReadyToExecute)), seq(n, _ => []), 0, n, n, 0, false)
  }

  function SetStatus(s: Sched, i: nat, status: Status): Sched
    requires i < |s.txs|
  {
    s.(txs := s.txs[i := s.txs[i].(status := status)])
  }

  // ---- next_task ----

  function TryExecute(s: Sched, i: nat): (r: (Sched, Option<Version>))
    ensures |r.0.txs| == |s.txs| && (s.Valid() ==> r.0.Valid())
    ensures r.1.Some? ==> r.1.value.tx == i < |s.txs|
  {
    if i < |s.txs| && s.txs[i].status == ReadyToExecute then
      (SetStatus(s, i, Executing), Some(Version(i, s.txs[i].incarnation)))
    else (s, None)
  }

  /** What the status of the next transaction to validate calls for. */
  datatype Finding =
    | Steal(version: Version)
    | Validate(version: Version)
    | Skip
    | FallBack

  function Inspect(s: Sched, i: nat): (r: (Sched, Finding))
    ensures |r.0.txs| == |s.txs| && (s.Valid() ==> r.0.Valid())
    ensures r.1.Steal? || r.1.Validate? ==> r.1.version.tx == i < |s.txs|
  {
    if i >= |s.txs| then (s, FallBack)
    else
      var v := Version(i, s.txs[i].incarnation);
      match s.txs[i].status
      case ReadyToExecute => (SetStatus(s, i, Executing), Steal(v))
      case Executed => (s, Validate(v))
      case Validated => (s, Validate(v))
      case Aborting => (s, Skip)
      case Executing => (s, FallBack)
  }

  predicate MayLeave(s: Sched) {
    s.numValidated >= |s.txs| - s.minValidationIdx
  }

  /** What one uninterrupted iteration of the next_task loop comes to. */
  datatype Poll = Leave | Again | Got(task: Task)

  function PollExecution(s: Sched): (Sched, Poll) {
    var (s', v) := TryExecute(s.(executionIdx := s.executionIdx + 1), s.executionIdx);
    (s', if v.Some? then Got(Execution(v.value)) else Again)
  }

  function NextTask(s: Sched): (Sched, Poll) {
    if s.aborted then (s, Leave)
    else if s.executionIdx >= |s.txs| && s.validationIdx >= |s.txs| then
      (s, if MayLeave(s) then Leave else Again)
    else if s.validationIdx < s.executionIdx then
      var (s', found) := Inspect(s.(validationIdx := s.validationIdx + 1), s.validationIdx);
      match found
      case Steal(v) => (s', Got(Execution(v)))
      case Validate(v) => (s', Got(Validation(v)))
      case Skip => (s', Again)
      case FallBack => PollExecution(s')
    else PollExecution(s)
  }

  // ---- Dependencies ----

  function AddDependency(s: Sched, i: nat, blocking: nat): (r: (Sched, bool))
    requires s.Valid() && i < |s.txs| && blocking < |s.txs|
    ensures |r.0.txs| == |s.txs| && r.0.Valid()
  {
    if s.Done(blocking) then (s, false)
    else
      (SetStatus(s, i, Aborting).(
       dependents := s.dependents[blocking := s.dependents[blocking] + [i]]), true)
  }

  function SetReady(s: Sched, i: nat): Sched
    requires i < |s.txs|
  {
    s.(txs := s.txs[i := TxStatus(s.txs[i].incarnation + 1, ReadyToExecute)])
  }

  /** Resume the dependents of a finished transaction. */
  function Drain(s: Sched, ds: seq<nat>): (r: Sched)
    requires forall i :: i in ds ==> 0 <= i < |s.txs|
    ensures |r.txs| == |s.txs| && r == s.(txs := r.txs, executionIdx := r.executionIdx)
    decreases |ds|
  {
    if ds == [] then s
    else
      assert ds[0] in ds && forall i :: i in ds[1..] ==> i in ds;
      Drain(SetReady(s, ds[0]).(executionIdx := Min(s.executionIdx, ds[0])), ds[1..])
  }

  lemma DrainNext(s: Sched, ds: seq<nat>, k: nat)
    requires (forall i :: i in ds ==> 0 <= i < |s.txs|) && k < |ds|
    ensures ds[k] in ds && (forall i :: i in ds[k..] ==> i in ds) && (forall i :: i in ds[k..][1..] ==> i in ds)
    ensures Drain(s, ds[k..]) == Drain(SetReady(s, ds[k]).(executionIdx := Min(s.executionIdx, ds[k])), ds[k..][1..])
  {
    assert ds == ds[..k] + ds[k..] && ds[k..] == [ds[k]] + ds[k..][1..];
  }

  // ---- finish_execution ----

  /** The transaction is at or past the validation floor and below the validation index. */
  predicate InWindow(s: Sched, i: nat, needValidation: bool) {
    var floor := if needValidation then Min(s.minValidationIdx, i) else s.minValidationIdx;
    floor < |s.txs| && floor <= i < s.validationIdx
  }

  /** Where validation must resume after transaction i finished executing. */
  function ValidationFrom(s: Sched, i: nat, needValidation: bool, wroteNew: bool): nat {
    var floor := if needValidation then Min(s.minValidationIdx, i) else s.minValidationIdx;
    if floor < |s.txs| && wroteNew then
      if i < floor then Min(s.validationIdx, floor)
      else if i < s.validationIdx then Min(s.validationIdx, i + 1)
      else s.validationIdx
    else s.validationIdx
  }

  /** The lazy branch inside the window falls through and counts the transaction a second time. */
  function FinishExecution(s: Sched, v: Version, needValidation: bool, wroteNew: bool): (r: (Sched, Option<Task>))
    requires s.Valid() && v.tx < |s.txs|
    ensures |r.0.txs| == |s.txs| && r.0.Valid()
    ensures r.1.Some? ==> r.1.value == Validation(v)
  {
    var s1 := Drain(s, s.dependents[v.tx]);
    var s2 := s1.(
      dependents := s.dependents[v.tx := []],
      minValidationIdx := if needValidation then Min(s.minValidationIdx, v.tx) else s.minValidationIdx,
      validationIdx := ValidationFrom(s, v.tx, needValidation, wroteNew),
      numValidated := s.numValidated + if needValidation then 0 else if InWindow(s, v.tx, false) then 2 else 1);
    (SetStatus(s2, v.tx, if needValidation then Executed else Validated),
     if needValidation && InWindow(s, v.tx, true) then Some(Validation(v)) else None)
  }

  // ---- Validation ----

  function TryValidationAbort(s: Sched, i: nat): (r: (Sched, bool))
    requires i < |s.txs|
    ensures |r.0.txs| == |s.txs| && (s.Valid() ==> r.0.Valid())
  {
    if s.Done(i) then
      (SetStatus(s, i, Aborting).(
       numValidated := s.numValidated - if s.txs[i].status == Validated then 1 else 0), true)
    else (s, false)
  }

  /** finish_validation after a validation that did not abort. */
  function ConfirmValidation(s: Sched, i: nat): (r: Sched)
    requires i < |s.txs|
    ensures |r.txs| == |s.txs| && (s.Valid() ==> r.Valid())
  {
    if s.txs[i].status == Executed then SetStatus(s, i, Validated).(numValidated := s.numValidated + 1)
    else s
  }

  /** finish_validation, uninterrupted. */
  function FinishValidation(s: Sched, i: nat, abortWon: bool): (Sched, Option<Version>)
    requires i < |s.txs|
  {
    if abortWon then
      var s' := SetReady(s, i).(validationIdx := Min(s.validationIdx, i + 1));
      if s.executionIdx > i then TryExecute(s', i) else (s', None)
    else (ConfirmValidation(s, i), None)
  }
}
