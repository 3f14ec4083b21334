/** A late validation of an older incarnation aborts a newer one: a run of two workers in which the second of
    two transactions is aborted although everything below it is settled and its reads are valid. */
module LateAbort {
  import opened Types
  import opened Reads
  import opened Memory
  import opened Blocks
  import opened Rewards
  import opened Scheduling
  import opened Machine
  import opened PrefixStability
  import opened Atomicity

  // ---- The block ----

  const X: Location := SlotAt(1, 0)
  const FEE: Location := AccountAt(0)

  function Write(history: seq<ReadValue>): Action {
    Finish(TxResult(map[X := Storage(5)], 0, 0))
  }

  function Look(history: seq<ReadValue>): Action {
    if |history| == 0 then Read(X) else Finish(TxResult(map[], 0, 1))
  }

  const WRITE := Tx(Write, 9, false, 0, None, 2, 0, 0)
  const LOOK := Tx(Look, 9, false, 0, None, 3, 0, 0)
  const BLOCK := Block(Ethereum, 0, 0, true, [WRITE, LOOK], ChainState(map[], map[], map[]))

  const WRITTEN: TxResult := TxResult(map[X := Storage(5)], 0, 0)
  const LOOKED: TxResult := TxResult(map[], 0, 1)

  function Writes(): WriteSet {
    FinalWrites(BLOCK, WRITE, WRITTEN)
  }

  function Looks(): WriteSet {
    FinalWrites(BLOCK, LOOK, LOOKED)
  }

  lemma WriteKeys()
    ensures Writes().Keys == {X, FEE} && Writes()[X] == Storage(5) && Looks().Keys == {FEE}
  {
    var (r0, r1) := (GetRewards(BLOCK, WRITE, 0), GetRewards(BLOCK, LOOK, 0));
    assert |r0| == 1 && r0[0].0 == 0 && r0[1..] == [] && |r1| == 1 && r1[0].0 == 0 && r1[1..] == [];
    assert MergeRewards(WRITTEN.writes, r0) == MergeRewards(MergeReward(WRITTEN.writes, 0, r0[0].1), []);
    assert MergeRewards(LOOKED.writes, r1) == MergeRewards(MergeReward(LOOKED.writes, 0, r1[0].1), []);
  }

  // ---- Reachable states ----

  /** A run leads to s; once `settled`, one in which transaction 1 was unstarted at some point and transaction 0
      is done from there on. */
  ghost predicate Trail(s: State, settled: bool) {
    exists schedule: Schedule, m: nat :: IsTrail(s, settled, schedule, m)
  }

  ghost predicate IsTrail(s: State, settled: bool, schedule: Schedule, m: nat) {
    && Run(BLOCK, 2, schedule) == s
    && (settled ==> SettledBelow(BLOCK, 2, schedule, m, 1) && Unstarted(Run(BLOCK, 2, schedule[..m]), 1))
  }

  lemma RunOn(schedule: Schedule, w: nat, l: Location)
    ensures Run(BLOCK, 2, schedule + [(w, l)]) == Step(BLOCK, Run(BLOCK, 2, schedule), w, l)
  {
    var next := schedule + [(w, l)];
    assert next[..|next| - 1] == schedule;
  }

  lemma SettledOn(schedule: Schedule, m: nat, w: nat, l: Location)
    requires SettledBelow(BLOCK, 2, schedule, m, 1) && SettledAt(BLOCK, Run(BLOCK, 2, schedule + [(w, l)]), 1)
    ensures SettledBelow(BLOCK, 2, schedule + [(w, l)], m, 1) && (schedule + [(w, l)])[..m] == schedule[..m]
  {
    var next := schedule + [(w, l)];
    forall j | m <= j <= |next| ensures SettledAt(BLOCK, Run(BLOCK, 2, next[..j]), 1) {
      if j <= |schedule| { assert next[..j] == schedule[..j]; } else { assert next[..j] == next; }
    }
  }

  lemma TrailStep(s: State, settled: bool, w: nat, l: Location)
    requires WellFormed(BLOCK, s) && Trail(s, settled) && (settled ==> SettledAt(BLOCK, Step(BLOCK, s, w, l), 1))
    ensures Trail(Step(BLOCK, s, w, l), settled)
  {
    var schedule: Schedule, m: nat :| IsTrail(s, settled, schedule, m);
    RunOn(schedule, w, l);
    if settled { SettledOn(schedule, m, w, l); }
    assert IsTrail(Step(BLOCK, s, w, l), settled, schedule + [(w, l)], m);
  }

  lemma TrailSettles(s: State)
    requires WellFormed(BLOCK, s) && Trail(s, false) && SettledAt(BLOCK, s, 1) && Unstarted(s, 1)
    ensures Trail(s, true)
  {
    var schedule: Schedule, m: nat :| IsTrail(s, false, schedule, m);
    assert schedule[..|schedule|] == schedule;
    assert IsTrail(s, true, schedule, |schedule|);
  }

  lemma {:induction false} TrailAlone(s: State, w: nat, l: Location, m: nat)
    requires WellFormed(BLOCK, s) && Trail(s, false)
    ensures Trail(Alone(BLOCK, s, w, l, m), false)
    decreases m
  {
    if m > 0 {
      TrailStep(s, false, w, l);
      TrailAlone(Step(BLOCK, s, w, l), w, l, m - 1);
    }
  }

  /** Where everything stands: statuses and indices, both workers, the entries of X, the last read set of
      transaction 1 and what both transactions last wrote. */
  ghost predicate Scene(s: State, settled: bool, sched: Sched, p: Phase, q: Phase, x: Entries, rs: ReadSet,
                        first: set<Location>, second: set<Location>)
  {
    && WellFormed(BLOCK, s) && Trail(s, settled) && s.sched == sched
    && |s.workers| == 2 && s.workers[0] == p && s.workers[1] == q
    && At(s.mem.data, X) == x && s.mem.lastRead[1] == rs
    && s.mem.lastWrite[0] == first && s.mem.lastWrite[1] == second
  }

  function Stand(t0: TxStatus, t1: TxStatus, executionIdx: nat, validationIdx: nat, min: nat, validated: nat): Sched {
    Sched([t0, t1], [[], []], executionIdx, validationIdx, min, validated, false)
  }

  const OLD: ReadSet := map[X := [FromStorage]]
  const NEW: ReadSet := map[X := [FromMv(Version(0, 0))]]
  const FIVE: Entries := map[0 := Data(0, Storage(5))]

  // ---- Both start ----

  lemma BothStart() returns (s: State)
    ensures Scene(s, false, Stand(TxStatus(0, Executing), TxStatus(0, Executing), 2, 2, 2, 0),
                  ExecTask(Version(1, 0)), ExecTask(Version(0, 0)), map[], map[], {}, {})
  {
    var s0 := Init(BLOCK, 2);
    assert IsTrail(s0, false, [], 0);
    assert s0.workers == [Idle, Idle];
    assert s0.sched == Stand(TxStatus(0, ReadyToExecute), TxStatus(0, ReadyToExecute), 0, 2, 2, 0);
    PollAlone(BLOCK, s0, 1, X);
    TrailAlone(s0, 1, X, PollLength(s0.sched));
    var s1 := Alone(BLOCK, s0, 1, X, PollLength(s0.sched));
    assert s1.sched == Stand(TxStatus(0, Executing), TxStatus(0, ReadyToExecute), 1, 2, 2, 0);
    assert s1.workers == [Idle, ExecTask(Version(0, 0))];
    PollAlone(BLOCK, s1, 0, X);
    TrailAlone(s1, 0, X, PollLength(s1.sched));
    s := Alone(BLOCK, s1, 0, X, PollLength(s1.sched));
    assert s.sched == Stand(TxStatus(0, Executing), TxStatus(0, Executing), 2, 2, 2, 0);
    assert s.mem == s0.mem;
  }

  // ---- Worker 0 executes transaction 1 on storage ----

  const E0: TxStatus := TxStatus(0, Executing)
  const D0: TxStatus := TxStatus(0, Executed)
  const V0: TxStatus := TxStatus(0, Validated)

  /** Everything but the phase of worker w is as before. */
  ghost predicate Moved(s: State, s': State, settled: bool, w: nat, p: Phase)
    requires w < |s.workers|
  {
    && WellFormed(BLOCK, s') && Trail(s', settled) && s'.sched == s.sched
    && s'.workers == s.workers[w := p] && s'.mem == s.mem
  }

  /** Worker w may step: the trail is kept. */
  ghost predicate Ready(s: State, settled: bool, w: nat) {
    WellFormed(BLOCK, s) && Trail(s, settled) && |s.workers| == 2 && w < 2 && (settled ==> SettledAt(BLOCK, s, 1))
  }

  lemma Starts(s: State, settled: bool, w: nat, v: Version) returns (s': State)
    requires Ready(s, settled, w) && s.workers[w] == ExecTask(v) && !s.sched.aborted
    ensures Moved(s, s', settled, w, Running(v, [], map[]))
  {
    s' := Step(BLOCK, s, w, X);
    TrailStep(s, settled, w, X);
  }

  lemma LookReads(s: State, settled: bool, w: nat, v: Version, o: Origin, value: ReadValue) returns (s': State)
    requires Ready(s, settled, w) && s.workers[w] == Running(v, [], map[]) && v.tx == 1
    requires ReadLocation(BLOCK.state, X, At(s.mem.data, X), 1, []) == Ok([o], value)
    ensures Moved(s, s', settled, w, Running(v, [value], map[X := [o]]))
  {
    assert LOOK.Next([]) == Read(X) && [] + [value] == [value];
    s' := Step(BLOCK, s, w, X);
    TrailStep(s, settled, w, X);
  }

  lemma LookFinishes(s: State, settled: bool, w: nat, v: Version, value: ReadValue, rs: ReadSet) returns (s': State)
    requires Ready(s, settled, w) && v.tx == 1
    requires s.workers[w] == Running(v, [value], rs) && s.mem.lastWrite[1] <= {FEE}
    ensures WellFormed(BLOCK, s') && Trail(s', settled) && s'.sched == s.sched
    ensures s'.workers == s.workers[w := Recording(v, true, Looks(), {FEE}, false)]
    ensures s'.mem.data == s.mem.data && s'.mem.lastRead[1] == rs && s'.mem.lastWrite == s.mem.lastWrite
  {
    WriteKeys();
    assert LOOK.Next([value]) == Finish(LOOKED);
    assert s.mem.lastWrite[1] + {FEE} == {FEE};
    s' := Step(BLOCK, s, w, X);
    assert s' == StepFinish(BLOCK, s, w, LOOKED, false);
    TrailStep(s, settled, w, X);
  }

  /** One write of a record. */
  lemma RecordsOne(s: State, settled: bool, w: nat, p: Phase, l: Location) returns (s': State)
    requires Ready(s, settled, w) && s.workers[w] == p && p.Recording? && l in p.todo && p.todo <= p.ws.Keys
    ensures WellFormed(BLOCK, s') && Trail(s', settled) && s'.sched == s.sched && s'.mem.lastRead == s.mem.lastRead
    ensures var i := p.v.tx;
            && s'.workers == s.workers[w := Recording(p.v, p.needValidation, p.ws, p.todo - {l},
                                                      p.wroteNew || l !in s.mem.lastWrite[i])]
            && s'.mem.data == PutEntry(s.mem.data, l, i, Data(p.v.incarnation, p.ws[l]))
            && s'.mem.lastWrite == s.mem.lastWrite[i := s.mem.lastWrite[i] + {l}]
  {
    s' := Step(BLOCK, s, w, l);
    assert s' == StepRecordOne(BLOCK, s, w, l);
    TrailStep(s, settled, w, l);
  }

  lemma LookRecords(s: State, settled: bool, w: nat, v: Version) returns (s': State)
    requires Ready(s, settled, w) && v.tx == 1
    requires s.workers[w] == Recording(v, true, Looks(), {FEE}, false)
    ensures WellFormed(BLOCK, s') && Trail(s', settled) && s'.sched == s.sched
    ensures s'.workers == s.workers[w := Recording(v, true, Looks(), {}, FEE !in s.mem.lastWrite[1])]
    ensures At(s'.mem.data, X) == At(s.mem.data, X) && s'.mem.lastRead == s.mem.lastRead
    ensures s'.mem.lastWrite == s.mem.lastWrite[1 := s.mem.lastWrite[1] + {FEE}]
  {
    WriteKeys();
    assert {FEE} - {FEE} == {};
    s' := RecordsOne(s, settled, w, s.workers[w], FEE);
  }

  lemma ReadsStorage()
    ensures ReadLocation(BLOCK.state, X, map[], 1, []) == Ok([FromStorage], SlotValue(0))
  {
    assert Walk(X, map[], 1) == Walk(X, map[], 0) == STORAGE_ONLY;
  }

  lemma LookStarted(s: State) returns (s': State)
    requires Scene(s, false, Stand(E0, E0, 2, 2, 2, 0),
                   ExecTask(Version(1, 0)), ExecTask(Version(0, 0)), map[], map[], {}, {})
    ensures Scene(s', false, s.sched, Running(Version(1, 0), [], map[]), s.workers[1], map[], map[], {}, {})
  {
    s' := Starts(s, false, 0, Version(1, 0));
  }

  lemma LookExecuted(s: State) returns (s': State)
    requires Scene(s, false, Stand(E0, E0, 2, 2, 2, 0),
                   ExecTask(Version(1, 0)), ExecTask(Version(0, 0)), map[], map[], {}, {})
    ensures Scene(s', false, s.sched, Recording(Version(1, 0), true, Looks(), {FEE}, false), s.workers[1],
                  map[], OLD, {}, {})
  {
    var s1 := LookStarted(s);
    ReadsStorage();
    var s2 := LookReads(s1, false, 0, Version(1, 0), FromStorage, SlotValue(0));
    s' := LookFinishes(s2, false, 0, Version(1, 0), SlotValue(0), OLD);
  }

  /** Its finish returns the validation task. */
  lemma LookDone(s: State) returns (s': State)
    requires Scene(s, false, Stand(E0, E0, 2, 2, 2, 0), Recording(Version(1, 0), true, Looks(), {}, true),
                   ExecTask(Version(0, 0)), map[], OLD, {}, {FEE})
    ensures Scene(s', false, Stand(E0, D0, 2, 2, 1, 0), ValTask(Version(1, 0)), s.workers[1], map[], OLD, {}, {FEE})
  {
    s' := Step(BLOCK, s, 0, X);
    TrailStep(s, false, 0, X);
    assert s.sched.dependents[1] == [] && s.sched.dependents[1 := []] == s.sched.dependents;
  }

  // ---- Worker 1 executes transaction 0, which writes X ----

  lemma WriteFinishes(s: State, sched: Sched, p: Phase, rs: ReadSet) returns (s': State)
    requires Scene(s, false, sched, p, Running(Version(0, 0), [], map[]), map[], rs, {}, {FEE})
    ensures Scene(s', false, sched, p, Recording(Version(0, 0), false, Writes(), {X, FEE}, false), map[], rs, {}, {FEE})
  {
    WriteKeys();
    assert WRITE.Next([]) == Finish(WRITTEN) && {} + {X, FEE} == {X, FEE};
    s' := StepFinish(BLOCK, s, 1, WRITTEN, false);
    assert s' == Step(BLOCK, s, 1, X);
    TrailStep(s, false, 1, X);
  }

  lemma WriteRecordsX(s: State, sched: Sched, p: Phase, rs: ReadSet) returns (s': State)
    requires Scene(s, false, sched, p, Recording(Version(0, 0), false, Writes(), {X, FEE}, false), map[], rs, {}, {FEE})
    ensures Scene(s', false, sched, p, Recording(Version(0, 0), false, Writes(), {FEE}, true), FIVE, rs, {X}, {FEE})
  {
    WriteKeys();
    assert {X, FEE} - {X} == {FEE} && {} + {X} == {X};
    s' := RecordsOne(s, false, 1, s.workers[1], X);
  }

  lemma WriteRecordsFee(s: State, sched: Sched, p: Phase, rs: ReadSet) returns (s': State)
    requires Scene(s, false, sched, p, Recording(Version(0, 0), false, Writes(), {FEE}, true), FIVE, rs, {X}, {FEE})
    ensures Scene(s', false, sched, p, Recording(Version(0, 0), false, Writes(), {}, true), FIVE, rs, {X, FEE}, {FEE})
  {
    WriteKeys();
    assert {FEE} - {FEE} == {} && {X} + {FEE} == {X, FEE};
    s' := RecordsOne(s, false, 1, s.workers[1], FEE);
  }

  /** Its finish lowers the validation index to 1. */
  lemma WriteDone(s: State, p: Phase) returns (s': State)
    requires Scene(s, false, Stand(E0, D0, 2, 2, 1, 0), p,
                   Recording(Version(0, 0), false, Writes(), {}, true), FIVE, OLD, {X, FEE}, {FEE})
    ensures Scene(s', false, Stand(V0, D0, 2, 1, 1, 1), p, Idle, FIVE, OLD, {X, FEE}, {FEE})
  {
    s' := Step(BLOCK, s, 1, X);
    TrailStep(s, false, 1, X);
    assert s.sched.dependents[0] == [] && s.sched.dependents[0 := []] == s.sched.dependents;
  }

  lemma BothExecuted() returns (s: State)
    ensures Scene(s, false, Stand(E0, D0, 2, 2, 1, 0), ValTask(Version(1, 0)), Running(Version(0, 0), [], map[]),
                  map[], OLD, {}, {FEE})
  {
    s := BothStart();
    s := LookExecuted(s);
    s := LookRecords(s, false, 0, Version(1, 0));
    assert {} + {FEE} == {FEE};
    s := LookDone(s);
    s := Starts(s, false, 1, Version(0, 0));
  }

  lemma XWritten() returns (s: State)
    ensures Scene(s, false, Stand(V0, D0, 2, 1, 1, 1), ValTask(Version(1, 0)), Idle, FIVE, OLD, {X, FEE}, {FEE})
  {
    s := BothExecuted();
    var (sched, p) := (Stand(E0, D0, 2, 2, 1, 0), ValTask(Version(1, 0)));
    s := WriteFinishes(s, sched, p, OLD);
    s := WriteRecordsX(s, sched, p, OLD);
    s := WriteRecordsFee(s, sched, p, OLD);
    s := WriteDone(s, p);
  }

  // ---- Both workers find the read of X stale ----

  lemma OldIsStale(s: State)
    requires At(s.mem.data, X) == FIVE
    ensures !ValidAt(s.mem.data, X, 1, OLD[X])
  {
    ClosestUnique(FIVE, 1, 0);
    assert X in s.mem.data && !Matches(FIVE, 1, [FromStorage]);
  }

  lemma Checks(s: State, w: nat, v: Version) returns (s': State)
    requires Ready(s, false, w) && s.workers[w] == ValTask(v) && v.tx == 1 && !s.sched.aborted
    requires s.mem.lastRead[1] == OLD
    ensures Moved(s, s', false, w, Validating(v, OLD, {X}))
  {
    assert OLD.Keys == {X};
    s' := Step(BLOCK, s, w, X);
    TrailStep(s, false, w, X);
  }

  lemma CheckFails(s: State, w: nat, v: Version) returns (s': State)
    requires Ready(s, false, w) && s.workers[w] == ValTask(v) && v.tx == 1 && !s.sched.aborted
    requires At(s.mem.data, X) == FIVE && s.mem.lastRead[1] == OLD
    ensures Moved(s, s', false, w, Failed(v))
  {
    var s1 := Checks(s, w, v);
    OldIsStale(s1);
    s' := Step(BLOCK, s1, w, X);
    assert s' == Move(s1, w, Failed(v));
    TrailStep(s1, false, w, X);
  }

  lemma TakesValidation(s: State, p: Phase) returns (s': State)
    requires Scene(s, false, Stand(V0, D0, 2, 1, 1, 1), p, Idle, FIVE, OLD, {X, FEE}, {FEE})
    ensures Scene(s', false, Stand(V0, D0, 2, 2, 1, 1), p, ValTask(Version(1, 0)), FIVE, OLD, {X, FEE}, {FEE})
  {
    PollAlone(BLOCK, s, 1, X);
    TrailAlone(s, 1, X, PollLength(s.sched));
    s' := Alone(BLOCK, s, 1, X, PollLength(s.sched));
  }

  lemma BothFailed() returns (s: State)
    ensures Scene(s, false, Stand(V0, D0, 2, 2, 1, 1), Failed(Version(1, 0)), Failed(Version(1, 0)),
                  FIVE, OLD, {X, FEE}, {FEE})
  {
    s := XWritten();
    s := CheckFails(s, 0, Version(1, 0));
    s := TakesValidation(s, Failed(Version(1, 0)));
    s := CheckFails(s, 1, Version(1, 0));
  }

  // ---- Worker 1 aborts and re-executes transaction 1 ----

  lemma Aborts(s: State) returns (s': State)
    requires Scene(s, false, Stand(V0, D0, 2, 2, 1, 1), Failed(Version(1, 0)), Failed(Version(1, 0)),
                   FIVE, OLD, {X, FEE}, {FEE})
    ensures Scene(s', false, Stand(V0, TxStatus(0, Aborting), 2, 2, 1, 1), Failed(Version(1, 0)),
                  Converting(Version(1, 0), {FEE}), FIVE, OLD, {X, FEE}, {FEE})
  {
    s' := Step(BLOCK, s, 1, X);
    TrailStep(s, false, 1, X);
  }

  /** One estimate of an abort. */
  lemma ConvertsOne(s: State, w: nat, v: Version, l: Location) returns (s': State)
    requires Ready(s, false, w) && s.workers[w] == Converting(v, {l}) && v.tx < 2
    ensures WellFormed(BLOCK, s') && Trail(s', false) && s'.sched == s.sched
    ensures s'.workers == s.workers[w := Converting(v, {})]
    ensures s'.mem.data == MarkEntry(s.mem.data, l, v.tx)
    ensures s'.mem.lastRead == s.mem.lastRead && s'.mem.lastWrite == s.mem.lastWrite
  {
    assert {l} - {l} == {};
    s' := Step(BLOCK, s, w, l);
    assert s' == StepConvertOne(BLOCK, s, w, l);
    TrailStep(s, false, w, l);
  }

  lemma Converts(s: State) returns (s': State)
    requires Scene(s, false, Stand(V0, TxStatus(0, Aborting), 2, 2, 1, 1), Failed(Version(1, 0)),
                   Converting(Version(1, 0), {FEE}), FIVE, OLD, {X, FEE}, {FEE})
    ensures Scene(s', false, s.sched, Failed(Version(1, 0)), Converting(Version(1, 0), {}), FIVE, OLD, {X, FEE}, {FEE})
  {
    s' := ConvertsOne(s, 1, Version(1, 0), FEE);
  }

  /** From here on transaction 0 is settled and transaction 1 unstarted. */
  lemma Resumes(s: State) returns (s': State)
    requires Scene(s, false, Stand(V0, TxStatus(0, Aborting), 2, 2, 1, 1), Failed(Version(1, 0)),
                   Converting(Version(1, 0), {}), FIVE, OLD, {X, FEE}, {FEE})
    ensures Scene(s', true, Stand(V0, TxStatus(1, ReadyToExecute), 2, 2, 1, 1), Failed(Version(1, 0)),
                  Lowering(Version(1, 0)), FIVE, OLD, {X, FEE}, {FEE})
  {
    s' := Step(BLOCK, s, 1, X);
    TrailStep(s, false, 1, X);
    TrailSettles(s');
  }

  lemma Lowers(s: State) returns (s': State)
    requires Scene(s, true, Stand(V0, TxStatus(1, ReadyToExecute), 2, 2, 1, 1), Failed(Version(1, 0)),
                   Lowering(Version(1, 0)), FIVE, OLD, {X, FEE}, {FEE})
    ensures Scene(s', true, s.sched, Failed(Version(1, 0)), Rerunning(Version(1, 0)), FIVE, OLD, {X, FEE}, {FEE})
  {
    s' := Step(BLOCK, s, 1, X);
    assert s'.sched == s.sched;
    TrailStep(s, true, 1, X);
  }

  lemma TakesOver(s: State) returns (s': State)
    requires Scene(s, true, Stand(V0, TxStatus(1, ReadyToExecute), 2, 2, 1, 1), Failed(Version(1, 0)),
                   Rerunning(Version(1, 0)), FIVE, OLD, {X, FEE}, {FEE})
    ensures Scene(s', true, s.sched, Failed(Version(1, 0)), ClaimedExecution(1), FIVE, OLD, {X, FEE}, {FEE})
  {
    s' := Step(BLOCK, s, 1, X);
    TrailStep(s, true, 1, X);
  }

  lemma Restarts(s: State) returns (s': State)
    requires Scene(s, true, Stand(V0, TxStatus(1, ReadyToExecute), 2, 2, 1, 1), Failed(Version(1, 0)),
                   ClaimedExecution(1), FIVE, OLD, {X, FEE}, {FEE})
    ensures Scene(s', true, Stand(V0, TxStatus(1, Executing), 2, 2, 1, 1), Failed(Version(1, 0)),
                  ExecTask(Version(1, 1)), FIVE, OLD, {X, FEE}, {FEE})
  {
    s' := Step(BLOCK, s, 1, X);
    TrailStep(s, true, 1, X);
  }

  lemma ReadsFive()
    ensures ReadLocation(BLOCK.state, X, FIVE, 1, []) == Ok([FromMv(Version(0, 0))], SlotValue(5))
  {
    assert Walk(X, FIVE, 1) == Found([FromMv(Version(0, 0))], Trace([], Some(Storage(5))));
  }

  lemma Reexecutes(s: State) returns (s': State)
    requires Scene(s, true, Stand(V0, TxStatus(1, Executing), 2, 2, 1, 1), Failed(Version(1, 0)),
                   ExecTask(Version(1, 1)), FIVE, OLD, {X, FEE}, {FEE})
    ensures Scene(s', true, s.sched, Failed(Version(1, 0)), Recording(Version(1, 1), true, Looks(), {FEE}, false),
                  FIVE, NEW, {X, FEE}, {FEE})
  {
    var s1 := Starts(s, true, 1, Version(1, 1));
    ReadsFive();
    var s2 := LookReads(s1, true, 1, Version(1, 1), FromMv(Version(0, 0)), SlotValue(5));
    s' := LookFinishes(s2, true, 1, Version(1, 1), SlotValue(5), NEW);
  }

  lemma FinishesAgain()
    ensures FinishExecution(Stand(V0, TxStatus(1, Executing), 2, 2, 1, 1), Version(1, 1), true, false) ==
            (Stand(V0, TxStatus(1, Executed), 2, 2, 1, 1), Some(Validation(Version(1, 1))))
  {
    var dependents: seq<seq<nat>> := [[], []];
    assert dependents[1 := []] == dependents;
    assert [V0, TxStatus(1, Executing)][1 := TxStatus(1, Executed)] == [V0, TxStatus(1, Executed)];
  }

  lemma RedoneAgain(s: State) returns (s': State)
    requires Scene(s, true, Stand(V0, TxStatus(1, Executing), 2, 2, 1, 1), Failed(Version(1, 0)),
                   Recording(Version(1, 1), true, Looks(), {}, false), FIVE, NEW, {X, FEE}, {FEE})
    ensures Scene(s', true, Stand(V0, TxStatus(1, Executed), 2, 2, 1, 1), Failed(Version(1, 0)),
                  ValTask(Version(1, 1)), FIVE, NEW, {X, FEE}, {FEE})
  {
    FinishesAgain();
    s' := Step(BLOCK, s, 1, X);
    TrailStep(s, true, 1, X);
  }

  lemma Resumed() returns (s: State)
    ensures Scene(s, true, Stand(V0, TxStatus(1, ReadyToExecute), 2, 2, 1, 1), Failed(Version(1, 0)),
                  ClaimedExecution(1), FIVE, OLD, {X, FEE}, {FEE})
  {
    s := BothFailed();
    s := Aborts(s);
    s := Converts(s);
    s := Resumes(s);
    s := Lowers(s);
    s := TakesOver(s);
  }

  lemma Recorded(s: State) returns (s': State)
    requires Scene(s, true, Stand(V0, TxStatus(1, Executing), 2, 2, 1, 1), Failed(Version(1, 0)),
                   Recording(Version(1, 1), true, Looks(), {FEE}, false), FIVE, NEW, {X, FEE}, {FEE})
    ensures Scene(s', true, s.sched, Failed(Version(1, 0)),
                  Recording(Version(1, 1), true, Looks(), {}, false), FIVE, NEW, {X, FEE}, {FEE})
  {
    s' := LookRecords(s, true, 1, Version(1, 1));
    assert {FEE} + {FEE} == {FEE};
  }

  lemma Redone() returns (s: State)
    ensures Scene(s, true, Stand(V0, TxStatus(1, Executed), 2, 2, 1, 1), Failed(Version(1, 0)),
                  ValTask(Version(1, 1)), FIVE, NEW, {X, FEE}, {FEE})
  {
    s := Resumed();
    s := Restarts(s);
    s := Reexecutes(s);
    s := Recorded(s);
    s := RedoneAgain(s);
  }

  // ---- Worker 0 aborts the new incarnation ----

  lemma NewIsValid(s: State)
    requires At(s.mem.data, X) == FIVE
    ensures AllValid(s, 1, NEW)
  {
    ClosestUnique(FIVE, 1, 0);
    assert NEW[X][1..] == [] && Matches(FIVE, 1, NEW[X]);
  }

  lemma LateCheckAborts(s: State)
    requires Scene(s, true, Stand(V0, TxStatus(1, Executed), 2, 2, 1, 1), Failed(Version(1, 0)),
                   ValTask(Version(1, 1)), FIVE, NEW, {X, FEE}, {FEE})
    ensures AllValid(s, 1, s.mem.lastRead[1]) && Step(BLOCK, s, 0, X).sched.txs[1] == TxStatus(1, Aborting)
  {
    NewIsValid(s);
    assert Step(BLOCK, s, 0, X).sched == TryValidationAbort(s.sched, 1).0;
  }

  /** With everything below it done from the m-th state on, and nothing of it started then, transaction 1 is done
      at incarnation 1 with valid reads, and a worker that still holds the failed check of incarnation 0 aborts
      it. */
  lemma LateValidationAborts() returns (schedule: Schedule, m: nat, step: (nat, Location))
    ensures SettledBelow(BLOCK, 2, schedule, m, 1) && Unstarted(Run(BLOCK, 2, schedule[..m]), 1)
    ensures var s := Run(BLOCK, 2, schedule);
            && s.sched.txs[1] == TxStatus(1, Executed) && AllValid(s, 1, s.mem.lastRead[1])
            && step.0 < |s.workers| && s.workers[step.0] == Failed(Version(1, 0))
            && Step(BLOCK, s, step.0, step.1).sched.txs[1] == TxStatus(1, Aborting)
  {
    var s := Redone();
    LateCheckAborts(s);
    schedule, m :| IsTrail(s, true, schedule, m);
    step := (0, X);
  }
}
