/** Why serializability is stated for runs without lazy transfers: a block of two transactions and a run of
    two workers that ends unaborted with a result sequential execution does not have. */
module LazyTransfers {
  import opened Types
  import opened Reads
  import opened Blocks
  import opened Rewards
  import opened Sequential
  import opened Scheduling
  import opened Machine
  import opened SchedulerLaws
  import opened Atomicity
  import opened Serializability

  // ---- The block ----

  /** Deploys code at address 1. */
  function Deploy(history: seq<ReadValue>): Action {
    Finish(TxResult(map[CodeAt(1) := CodeHash(7)], 0, 0))
  }

  /** A transfer from the beneficiary, address 0, to address 1 when that has no code, else a call. */
  function Pay(history: seq<ReadValue>): Action {
    if |history| == 0 then Read(CodeAt(1))
    else if |history| == 1 && history[0] == CodeValue(None) then RawTransfer(0, 1, 0, 0, 0, 1)
    else Finish(TxResult(map[], 0, 2))
  }

  const DEPLOY := Tx(Deploy, 9, false, 0, None, 2, 0, 0)
  const PAY := Tx(Pay, 9, false, 0, None, 0, 0, 0)
  const BLOCK := Block(Ethereum, 0, 0, true, [DEPLOY, PAY], ChainState(map[], map[], map[]))

  lemma DeployedCode()
    ensures var r := TxResult(map[CodeAt(1) := CodeHash(7)], 0, 0);
            View(BLOCK.state, Commit(BLOCK, map[], DEPLOY, r), CodeAt(1)) == CodeValue(Some(7))
  {
    var cs := BLOCK.state;
    var r := TxResult(map[CodeAt(1) := CodeHash(7)], 0, 0);
    var w := CommitWrites(cs, map[], r.writes);
    assert w[CodeAt(1)] == CodeValue(Some(7));
    var rewards := GetRewards(BLOCK, DEPLOY, 0);
    assert |rewards| == 1 && rewards[0].0 == 0 && rewards[1..] == [];
    var w' := w[AccountAt(0) := Overlay(View(cs, w, AccountAt(0)), LazyRecipient(rewards[0].1))];
    assert CommitRewards(cs, w, rewards) == CommitRewards(cs, w', []) == w';
  }

  /** In order, the payment calls the new code. */
  lemma SequentialResult()
    ensures Execute(BLOCK, 2).Some? && |Execute(BLOCK, 2).value.results| == 2
    ensures Execute(BLOCK, 2).value.results[1] == TxResult(map[], 0, 2)
  {
    var cs := BLOCK.state;
    var r0 := TxResult(map[CodeAt(1) := CodeHash(7)], 0, 0);
    assert Execute(BLOCK, 0) == Some(Progress(map[], []));
    assert Transact(cs, map[], DEPLOY, []) == Some(r0);
    var w := Commit(BLOCK, map[], DEPLOY, r0);
    assert [] + [r0] == [r0];
    assert Execute(BLOCK, 1) == Some(Progress(w, [r0]));
    DeployedCode();
    var h := [] + [CodeValue(Some(7))];
    assert PAY.Next([]) == Read(CodeAt(1)) && PAY.Next(h) == Finish(TxResult(map[], 0, 2));
    assert Transact(cs, w, PAY, h) == Some(TxResult(map[], 0, 2));
    assert Transact(cs, w, PAY, []) == Some(TxResult(map[], 0, 2));
  }

  // ---- Reachable states ----

  ghost predicate Reachable(s: State) {
    exists schedule :: Run(BLOCK, 2, schedule) == s
  }

  lemma StepReachable(s: State, w: nat, l: Location)
    requires Reachable(s) && WellFormed(BLOCK, s)
    ensures Reachable(Step(BLOCK, s, w, l))
  {
    var schedule :| Run(BLOCK, 2, schedule) == s;
    var next := schedule + [(w, l)];
    assert next[..|next| - 1] == schedule;
    assert Run(BLOCK, 2, next) == Step(BLOCK, s, w, l);
  }

  lemma {:induction false} AloneReachable(s: State, w: nat, l: Location, m: nat)
    requires Reachable(s) && WellFormed(BLOCK, s)
    ensures Reachable(Alone(BLOCK, s, w, l, m))
    decreases m
  {
    if m > 0 {
      StepReachable(s, w, l);
      AloneReachable(Step(BLOCK, s, w, l), w, l, m - 1);
    }
  }

  function Statuses(first: Status, second: Status, executionIdx: nat, validated: nat): Sched {
    Sched([TxStatus(0, first), TxStatus(0, second)], [[], []], executionIdx, 2, 2, validated, false)
  }

  ghost predicate Standing(s: State, sched: Sched, p: Phase, q: Phase) {
    WellFormed(BLOCK, s) && Reachable(s) && s.sched == sched && s.workers == [p, q]
  }

  const L: Location := CodeAt(1)

  /** The first worker starts on the first transaction, the second on the second. */
  lemma BothStart() returns (s: State)
    ensures Standing(s, Statuses(Executing, Executing, 2, 0), ExecTask(Version(0, 0)), ExecTask(Version(1, 0)))
    ensures s.mem == Init(BLOCK, 2).mem
  {
    var s0 := Init(BLOCK, 2);
    assert Run(BLOCK, 2, []) == s0 && Reachable(s0);
    assert s0.workers == [Idle, Idle] && s0.sched == Statuses(ReadyToExecute, ReadyToExecute, 0, 0);
    PollAlone(BLOCK, s0, 0, L);
    AloneReachable(s0, 0, L, PollLength(s0.sched));
    var s1 := Alone(BLOCK, s0, 0, L, PollLength(s0.sched));
    assert s1.sched == Statuses(Executing, ReadyToExecute, 1, 0);
    assert s1.workers == [ExecTask(Version(0, 0)), Idle];
    PollAlone(BLOCK, s1, 1, L);
    AloneReachable(s1, 1, L, PollLength(s1.sched));
    s := Alone(BLOCK, s1, 1, L, PollLength(s1.sched));
    assert s.sched == Statuses(Executing, Executing, 2, 0);
  }

  // ---- The payment, executed first ----

  const PAID: TxResult := LazyResult(RawTransfer(0, 1, 0, 0, 0, 1))

  lemma PaidWrites()
    ensures WellTyped(PAID.writes) && FinalWrites(BLOCK, PAY, PAID).Keys == {AccountAt(0), AccountAt(1)}
  {
    var rewards := GetRewards(BLOCK, PAY, 0);
    assert |rewards| == 1 && rewards[0].0 == 0 && rewards[1..] == [];
    assert MergeRewards(PAID.writes, rewards) == MergeRewards(MergeReward(PAID.writes, 0, rewards[0].1), []);
  }

  lemma PayReads(s: State) returns (s': State)
    requires Standing(s, Statuses(Executing, Executing, 2, 0), ExecTask(Version(0, 0)), ExecTask(Version(1, 0)))
    requires s.mem == Init(BLOCK, 2).mem
    ensures Standing(s', s.sched, s.workers[0],
                     Running(Version(1, 0), [CodeValue(None)], map[CodeAt(1) := [FromStorage]]))
    ensures s'.mem == s.mem
  {
    var s1 := Step(BLOCK, s, 1, L);
    StepReachable(s, 1, L);
    assert s1.workers == [s.workers[0], Running(Version(1, 0), [], map[])];
    s' := Step(BLOCK, s1, 1, L);
    StepReachable(s1, 1, L);
    assert PAY.Next([]) == Read(CodeAt(1));
    assert At(s1.mem.data, CodeAt(1)) == map[];
    assert Walk(CodeAt(1), map[], 1) == Walk(CodeAt(1), map[], 0) == STORAGE_ONLY;
    assert [] + [CodeValue(None)] == [CodeValue(None)];
  }

  lemma PayTurnsLazy(s: State) returns (s': State)
    requires Standing(s, Statuses(Executing, Executing, 2, 0), ExecTask(Version(0, 0)),
                      Running(Version(1, 0), [CodeValue(None)], map[CodeAt(1) := [FromStorage]]))
    requires s.mem == Init(BLOCK, 2).mem
    ensures Standing(s', s.sched, s.workers[0],
                     Transferring(Version(1, 0), [CodeValue(None)], map[CodeAt(1) := [FromStorage]]))
    ensures s'.mem == s.mem
  {
    s' := Step(BLOCK, s, 1, L);
    StepReachable(s, 1, L);
    assert PAY.Next([CodeValue(None)]) == RawTransfer(0, 1, 0, 0, 0, 1);
    assert AccountAt(0) in s.mem.data;
  }

  // ---- Recording and finishing, for either worker ----

  /** Worker p records version v at these locations and wants no validation. */
  predicate Records(p: Phase, v: Version, locations: set<Location>, todo: set<Location>) {
    p.Recording? && p.v == v && !p.needValidation && p.ws.Keys == locations && p.todo == todo
  }

  lemma RecordBegins(s: State, w: nat, result: TxResult, lazy: bool, locations: set<Location>)
    requires WellFormed(BLOCK, s) && |s.workers| == 2 && w < 2 && WellTyped(result.writes)
    requires (s.workers[w].Running? || s.workers[w].Transferring?) && s.workers[w].v == Version(w, 0)
    requires s.mem.lastWrite[w] == {} && (lazy || w == 0)
    requires FinalWrites(BLOCK, BLOCK.txs[w], result).Keys == locations
    ensures var s' := StepFinish(BLOCK, s, w, result, lazy);
            && |s'.workers| == 2 && s'.workers == s.workers[w := s'.workers[w]]
            && Records(s'.workers[w], Version(w, 0), locations, locations)
            && s'.sched == s.sched && s'.results == s.results[w := Some(result)] && s'.mem.lastWrite == s.mem.lastWrite
  {
  }

  /** A write of one location, when only writes are left. */
  lemma Writes(s: State, w: nat, l: Location) returns (s': State)
    requires WellFormed(BLOCK, s) && Reachable(s) && |s.workers| == 2 && w < 2
    requires s.workers[w].Recording? && l in s.workers[w].todo && s.workers[w].todo <= s.workers[w].ws.Keys
    ensures WellFormed(BLOCK, s') && Reachable(s') && s'.sched == s.sched && s'.results == s.results
    ensures var p := s.workers[w];
            && |s'.workers| == 2 && s'.workers[w].Recording? && s'.workers == s.workers[w := s'.workers[w]]
            && s'.workers[w] == Recording(p.v, p.needValidation, p.ws, p.todo - {l}, s'.workers[w].wroteNew)
    ensures forall k :: 0 <= k < 2 && k != s.workers[w].v.tx ==> s'.mem.lastWrite[k] == s.mem.lastWrite[k]
  {
    s' := Step(BLOCK, s, w, l);
    StepReachable(s, w, l);
  }

  lemma WritesTwo(s: State, w: nat, l: Location, k: Location) returns (s': State)
    requires WellFormed(BLOCK, s) && Reachable(s) && |s.workers| == 2 && w < 2 && l != k
    requires Records(s.workers[w], Version(w, 0), {l, k}, {l, k})
    ensures WellFormed(BLOCK, s') && Reachable(s') && s'.sched == s.sched && s'.results == s.results
    ensures |s'.workers| == 2 && s'.workers == s.workers[w := s'.workers[w]]
    ensures Records(s'.workers[w], Version(w, 0), {l, k}, {})
    ensures s'.mem.lastWrite[1 - w] == s.mem.lastWrite[1 - w]
  {
    var s1 := Writes(s, w, l);
    assert {l, k} - {l} == {k};
    s' := Writes(s1, w, k);
    assert {k} - {k} == {};
  }

  /** Nothing to validate: the transaction is Validated at once. */
  lemma Finishes(s: State, w: nat, locations: set<Location>, other: Status, count: nat) returns (s': State)
    requires WellFormed(BLOCK, s) && Reachable(s) && |s.workers| == 2 && w < 2
    requires Records(s.workers[w], Version(w, 0), locations, {})
    requires s.sched == if w == 0 then Statuses(Executing, other, 2, count) else Statuses(other, Executing, 2, count)
    ensures WellFormed(BLOCK, s') && Reachable(s') && s'.results == s.results && s'.mem == s.mem
    ensures s'.workers == s.workers[w := Idle]
    ensures s'.sched == if w == 0 then Statuses(Validated, other, 2, count + 1)
                        else Statuses(other, Validated, 2, count + 1)
  {
    s' := Step(BLOCK, s, w, L);
    StepReachable(s, w, L);
    assert s.sched.dependents[w] == [] && s.sched.dependents[w := []] == s.sched.dependents;
  }

  lemma PayFinishes(s: State) returns (s': State)
    requires Standing(s, Statuses(Executing, Executing, 2, 0), ExecTask(Version(0, 0)),
                      Transferring(Version(1, 0), [CodeValue(None)], map[CodeAt(1) := [FromStorage]]))
    requires s.mem.lastWrite == [{}, {}]
    ensures WellFormed(BLOCK, s') && Reachable(s') && s'.sched == s.sched
    ensures |s'.workers| == 2 && s'.workers[0] == s.workers[0]
    ensures Records(s'.workers[1], Version(1, 0), {AccountAt(0), AccountAt(1)}, {AccountAt(0), AccountAt(1)})
    ensures s'.results[1] == Some(PAID) && s'.mem.lastWrite == [{}, {}]
  {
    PaidWrites();
    assert PAY.Next([CodeValue(None)]) == RawTransfer(0, 1, 0, 0, 0, 1);
    RecordBegins(s, 1, PAID, true, {AccountAt(0), AccountAt(1)});
    s' := Step(BLOCK, s, 1, L);
    StepReachable(s, 1, L);
    assert s' == StepFinish(BLOCK, s, 1, PAID, true);
  }

  lemma PaymentFirst() returns (s: State)
    ensures Standing(s, Statuses(Executing, Validated, 2, 1), ExecTask(Version(0, 0)), Idle)
    ensures s.results[1] == Some(PAID) && s.mem.lastWrite[0] == {}
  {
    s := BothStart();
    s := PayReads(s);
    s := PayTurnsLazy(s);
    assert s.mem.lastWrite == [{}, {}];
    s := PayFinishes(s);
    s := WritesTwo(s, 1, AccountAt(0), AccountAt(1));
    s := Finishes(s, 1, {AccountAt(0), AccountAt(1)}, Executing, 0);
  }

  // ---- The deployment, and the end ----

  const DEPLOYED: TxResult := TxResult(map[CodeAt(1) := CodeHash(7)], 0, 0)

  lemma DeployedWrites()
    ensures WellTyped(DEPLOYED.writes) && FinalWrites(BLOCK, DEPLOY, DEPLOYED).Keys == {AccountAt(0), CodeAt(1)}
  {
    var rewards := GetRewards(BLOCK, DEPLOY, 0);
    assert |rewards| == 1 && rewards[0].0 == 0 && rewards[1..] == [];
    assert MergeRewards(DEPLOYED.writes, rewards) == MergeRewards(MergeReward(DEPLOYED.writes, 0, rewards[0].1), []);
  }

  lemma DeployFinishes(s: State) returns (s': State)
    requires Standing(s, Statuses(Executing, Validated, 2, 1), Running(Version(0, 0), [], map[]), Idle)
    requires s.mem.lastWrite[0] == {}
    ensures WellFormed(BLOCK, s') && Reachable(s') && s'.sched == s.sched
    ensures |s'.workers| == 2 && s'.workers[1] == Idle && s'.results == s.results[0 := Some(DEPLOYED)]
    ensures Records(s'.workers[0], Version(0, 0), {AccountAt(0), CodeAt(1)}, {AccountAt(0), CodeAt(1)})
  {
    DeployedWrites();
    assert DEPLOY.Next([]) == Finish(DEPLOYED);
    RecordBegins(s, 0, DEPLOYED, false, {AccountAt(0), CodeAt(1)});
    s' := Step(BLOCK, s, 0, L);
    StepReachable(s, 0, L);
    assert s' == StepFinish(BLOCK, s, 0, DEPLOYED, false);
  }

  lemma DeployStarts(s: State) returns (s': State)
    requires Standing(s, Statuses(Executing, Validated, 2, 1), ExecTask(Version(0, 0)), Idle)
    ensures Standing(s', s.sched, Running(Version(0, 0), [], map[]), Idle) && s'.results == s.results && s'.mem == s.mem
  {
    s' := Step(BLOCK, s, 0, L);
    StepReachable(s, 0, L);
  }

  lemma BothLeave(s: State) returns (s': State)
    requires Standing(s, Statuses(Validated, Validated, 2, 2), Idle, Idle)
    ensures Standing(s', s.sched, Exited, Exited) && s'.results == s.results
  {
    PollAlone(BLOCK, s, 0, L);
    AloneReachable(s, 0, L, PollLength(s.sched));
    var s1 := Alone(BLOCK, s, 0, L, PollLength(s.sched));
    PollAlone(BLOCK, s1, 1, L);
    AloneReachable(s1, 1, L, PollLength(s1.sched));
    s' := Alone(BLOCK, s1, 1, L, PollLength(s1.sched));
  }

  lemma PaymentStands() returns (s: State)
    ensures Standing(s, Statuses(Validated, Validated, 2, 2), Exited, Exited) && s.results[1] == Some(PAID)
  {
    s := PaymentFirst();
    s := DeployStarts(s);
    s := DeployFinishes(s);
    s := WritesTwo(s, 0, AccountAt(0), CodeAt(1));
    s := Finishes(s, 0, {AccountAt(0), CodeAt(1)}, Validated, 1);
    s := BothLeave(s);
  }

  lemma PaymentDisagrees(s: State)
    requires WellFormed(BLOCK, s) && s.results[1] == Some(PAID)
    ensures !Agrees(BLOCK, s, 2)
  {
    SequentialResult();
  }

  /** The payment saw no code, was evaluated lazily, asked for no validation, and stands, although in order
      it comes after the deployment. */
  lemma NotSerializableWithLazyTransfers() returns (schedule: Schedule)
    ensures var s := Run(BLOCK, 2, schedule);
            AllExited(s) && !s.sched.aborted && s.hist.lazyTaken && !Agrees(BLOCK, s, 2)
  {
    var s := PaymentStands();
    PaymentDisagrees(s);
    schedule :| Run(BLOCK, 2, schedule) == s;
    if !s.hist.lazyTaken { Serializable(BLOCK, 2, schedule); }
  }
}
