/** Prefix stability: while every transaction below k stays done, an execution of k that starts from then on
    reads, records and keeps a read set that validates, and only a check of an older read set can abort it. */
module PrefixStability {
  import opened Types
  import opened Reads
  import opened Memory
  import opened Blocks
  import opened Machine
  import opened Accounting
  import opened SchedulerLaws
  import opened MemoryLaws
  import opened MemorySteps
  import opened RunLaws
  import opened StaleReads
  import opened Invariants
  import opened Atomicity

  ghost predicate DoneBelow(b: Block, s: State, k: nat)
    requires WellFormed(b, s) && k <= |b.txs|
  {
    forall j :: 0 <= j < k ==> s.sched.Done(j)
  }

  ghost predicate AllValid(s: State, k: nat, rs: ReadSet) {
    forall l :: l in rs ==> ValidAt(s.mem.data, l, k, rs[l])
  }

  /** What worker p has read on behalf of transaction k is valid. */
  ghost predicate Sound(s: State, p: Phase, k: nat)
    requires k < |s.mem.lastRead|
  {
    && ((p.Running? || p.Transferring?) && p.v.tx == k ==> AllValid(s, k, p.rs))
    && (p.Recording? && p.v.tx == k ==> AllValid(s, k, s.mem.lastRead[k]))
  }

  /** The reads of transaction k are valid, in an attempt under way, in a record and once it is done. */
  ghost predicate Stable(b: Block, s: State, k: nat)
    requires WellFormed(b, s) && k < |b.txs|
  {
    && (s.sched.Done(k) ==> AllValid(s, k, s.mem.lastRead[k]))
    && (forall w :: 0 <= w < |s.workers| ==> Sound(s, s.workers[w], k))
  }

  // ---- Entries below k stand still ----

  ghost predicate SameUnder(s: State, s': State, k: nat) {
    forall l :: SameBelow(At(s.mem.data, l), At(s'.mem.data, l), k)
  }

  lemma RecordOneAbove(b: Block, s: State, w: nat, l: Location, k: nat)
    requires WellFormed(b, s) && w < |s.workers| && s.workers[w].Recording? && MayRecord(s.workers[w], l)
    requires k <= s.workers[w].v.tx
    ensures SameUnder(s, StepRecordOne(b, s, w, l), k)
  {
  }

  lemma ConvertOneAbove(b: Block, s: State, w: nat, l: Location, k: nat)
    requires WellFormed(b, s) && w < |s.workers| && s.workers[w].Converting? && l in s.workers[w].todo
    requires k <= s.workers[w].v.tx
    ensures SameUnder(s, StepConvertOne(b, s, w, l), k)
  {
  }

  lemma OwnerAbove(b: Block, s: State, w: nat, k: nat)
    requires WellFormed(b, s) && AllAccounted(s) && !s.sched.aborted && k <= |b.txs| && DoneBelow(b, s, k)
    requires w < |s.workers| && Tasked(s.workers[w]) && Owns(s.workers[w], s.workers[w].v.tx)
    ensures k <= s.workers[w].v.tx
  {
    var i := s.workers[w].v.tx;
    assert Executes(s.workers[w], i) || Aborts(s.workers[w], i);
    assert i < k ==> s.sched.Done(i);
  }

  lemma ValidKept(s: State, s': State, k: nat, rs: ReadSet)
    requires SameUnder(s, s', k) && ChainsOk(rs, k, s.hist.written) && AllValid(s, k, rs)
    ensures AllValid(s', k, rs)
  {
    forall l | l in rs ensures ValidAt(s'.mem.data, l, k, rs[l]) {
      assert ChainOk(l, rs[l], k, s.hist.written) && SameBelow(At(s.mem.data, l), At(s'.mem.data, l), k);
      ValidAtIsMatches(s.mem.data, l, k, rs[l], s.hist.written);
      ValidAtIsMatches(s'.mem.data, l, k, rs[l], s.hist.written);
      MatchesFrame(At(s.mem.data, l), At(s'.mem.data, l), k, rs[l]);
    }
  }

  // ---- Steps that leave the read set of k alone ----

  lemma LastReadKept(b: Block, s: State, s': State, k: nat)
    requires WellFormed(b, s) && WellFormed(b, s') && k < |b.txs| && LogOk(b, s) && HasAttempt(s, k)
    requires SameUnder(s, s', k) && s'.mem.lastRead[k] == s.mem.lastRead[k]
    requires AllValid(s, k, s.mem.lastRead[k])
    ensures AllValid(s', k, s'.mem.lastRead[k])
  {
    DoneReadsOk(b, s, k);
    ValidKept(s, s', k, s.mem.lastRead[k]);
  }

  lemma SoundKept(b: Block, s: State, s': State, k: nat, x: nat)
    requires WellFormed(b, s) && WellFormed(b, s') && k < |b.txs| && LogOk(b, s) && RunsOk(b, s) && Phased(b, s)
    requires SameUnder(s, s', k) && s'.mem.lastRead[k] == s.mem.lastRead[k]
    requires x < |s.workers| && Sound(s, s.workers[x], k)
    ensures Sound(s', s.workers[x], k)
  {
    var p := s.workers[x];
    if (p.Running? || p.Transferring?) && p.v.tx == k {
      assert Faithful(b, s.hist.written, p.v.tx, p.rs, p.history);
      ValidKept(s, s', k, p.rs);
    } else if p.Recording? && p.v.tx == k {
      RecordingHolds(b, s, x);
      LastReadKept(b, s, s', k);
    }
  }

  lemma StableFrame(b: Block, s: State, s': State, w: nat, k: nat)
    requires WellFormed(b, s) && WellFormed(b, s') && k < |b.txs| && LogOk(b, s) && RunsOk(b, s) && Phased(b, s)
    requires w < |s.workers| == |s'.workers| && s'.workers == s.workers[w := s'.workers[w]]
    requires Stable(b, s, k) && SameUnder(s, s', k) && s'.mem.lastRead[k] == s.mem.lastRead[k]
    requires Sound(s', s'.workers[w], k)
    requires s'.sched.Done(k) ==> s.sched.Done(k) || (s.workers[w].Recording? && s.workers[w].v.tx == k)
    ensures Stable(b, s', k)
  {
    forall x | 0 <= x < |s'.workers| ensures Sound(s', s'.workers[x], k) {
      if x != w { SoundKept(b, s, s', k, x); }
    }
    if s'.sched.Done(k) {
      assert Sound(s, s.workers[w], k);
      if s.sched.Done(k) { DoneHasAttempt(b, s, k); } else { RecordingHolds(b, s, w); }
      LastReadKept(b, s, s', k);
    }
  }

  lemma PollingStable(b: Block, s: State, w: nat, k: nat)
    requires WellFormed(b, s) && w < |s.workers| && Polling(s.workers[w]) && k < |b.txs|
    requires LogOk(b, s) && RunsOk(b, s) && Phased(b, s) && Stable(b, s, k)
    ensures Stable(b, StepPolling(b, s, w), k)
  {
    PollingFrame(b, s, w);
    StableFrame(b, s, StepPolling(b, s, w), w, k);
  }

  lemma ValidationStable(b: Block, s: State, w: nat, l: Location, k: nat)
    requires WellFormed(b, s) && w < |s.workers| && k < |b.txs| && !s.sched.aborted
    requires s.workers[w].ValTask? || s.workers[w].Validating? || s.workers[w].Failed? || s.workers[w].AbortLost?
    requires LogOk(b, s) && RunsOk(b, s) && Phased(b, s) && Stable(b, s, k)
    ensures Stable(b, Step(b, s, w, l), k)
  {
    var s' := Step(b, s, w, l);
    assert Sound(s, s.workers[w], k);
    assert s'.mem == s.mem && SameUnder(s, s', k);
    StableFrame(b, s, s', w, k);
  }

  lemma ConvertOneStable(b: Block, s: State, w: nat, l: Location, k: nat)
    requires WellFormed(b, s) && w < |s.workers| && k < |b.txs| && !s.sched.aborted && AllAccounted(s)
    requires s.workers[w].Converting? && l in s.workers[w].todo
    requires LogOk(b, s) && RunsOk(b, s) && Phased(b, s) && Stable(b, s, k) && DoneBelow(b, s, k)
    ensures Stable(b, StepConvertOne(b, s, w, l), k)
  {
    assert Sound(s, s.workers[w], k);
    OwnerAbove(b, s, w, k);
    ConvertOneAbove(b, s, w, l, k);
    StableFrame(b, s, StepConvertOne(b, s, w, l), w, k);
  }

  lemma AbortStable(b: Block, s: State, w: nat, l: Location, k: nat)
    requires WellFormed(b, s) && w < |s.workers| && k < |b.txs| && !s.sched.aborted
    requires (s.workers[w].Converting? && s.workers[w].todo == {}) || s.workers[w].Lowering? || s.workers[w].Rerunning?
    requires LogOk(b, s) && RunsOk(b, s) && Phased(b, s) && Stable(b, s, k)
    ensures Stable(b, Step(b, s, w, l), k)
  {
    assert Sound(s, s.workers[w], k);
    StableFrame(b, s, Step(b, s, w, l), w, k);
  }

  lemma BlockedStable(b: Block, s: State, w: nat, k: nat)
    requires WellFormed(b, s) && w < |s.workers| && k < |b.txs| && s.workers[w].Blocked?
    requires LogOk(b, s) && RunsOk(b, s) && Phased(b, s) && Stable(b, s, k) && DoneBelow(b, s, k)
    requires AllAccounted(s) && !s.sched.aborted
    ensures Stable(b, StepBlocked(b, s, w), k)
  {
    var (p, s') := (s.workers[w], StepBlocked(b, s, w));
    assert Executes(p, p.v.tx);
    StableFrame(b, s, s', w, k);
  }

  lemma FinishExecutionStable(b: Block, s: State, w: nat, k: nat)
    requires WellFormed(b, s) && w < |s.workers| && k < |b.txs| && s.workers[w].Recording?
    requires LogOk(b, s) && RunsOk(b, s) && Phased(b, s) && Stable(b, s, k)
    requires AllAccounted(s) && !s.sched.aborted
    ensures Stable(b, StepFinishExecution(b, s, w), k)
  {
    var (p, s') := (s.workers[w], StepFinishExecution(b, s, w));
    assert Executes(p, p.v.tx);
    FinishExecutionReleases(b, s, w, k);
    StableFrame(b, s, s', w, k);
  }

  lemma RecordOneStable(b: Block, s: State, w: nat, l: Location, k: nat)
    requires WellFormed(b, s) && w < |s.workers| && k < |b.txs|
    requires s.workers[w].Recording? && MayRecord(s.workers[w], l)
    requires LogOk(b, s) && RunsOk(b, s) && Phased(b, s) && Stable(b, s, k) && DoneBelow(b, s, k)
    requires AllAccounted(s) && !s.sched.aborted
    ensures Stable(b, StepRecordOne(b, s, w, l), k)
  {
    var (p, s') := (s.workers[w], StepRecordOne(b, s, w, l));
    OwnerAbove(b, s, w, k);
    RecordOneAbove(b, s, w, l, k);
    assert Sound(s, p, k);
    if p.v.tx == k {
      RecordingHolds(b, s, w);
      LastReadKept(b, s, s', k);
    }
    StableFrame(b, s, s', w, k);
  }

  // ---- Executing k ----

  /** Below k there is only readable data. */
  lemma DoneReadable(b: Block, s: State, l: Location, k: nat)
    requires WellFormed(b, s) && EntriesOk(b, s) && LogOk(b, s) && Phased(b, s) && k < |b.txs| && DoneBelow(b, s, k)
    requires Walk(l, At(s.mem.data, l), k).Found?
    ensures Readable(l, At(s.mem.data, l), k)
  {
    var h := At(s.mem.data, l);
    var c := Closest(h, k);
    WalkSkips(l, h, k);
    if c.Some? {
      var j := c.value;
      assert EntryOf(s.mem.data, l, j) == Some(h[j]) && EntryOf(s.mem.data, l, j) == Held(s, j, l);
      DoneHasAttempt(b, s, j);
      var v := Current(s, j);
      assert AttemptOk(b, s.hist.written, v, s.hist.attempts[v]);
      assert FitsAt(l, s.hist.written[v][l]);
    }
  }

  lemma ReadValid(b: Block, s: State, l: Location, k: nat, rs: ReadSet)
    requires WellFormed(b, s) && EntriesOk(b, s) && LogOk(b, s) && Phased(b, s) && k < |b.txs| && DoneBelow(b, s, k)
    requires ChainsOk(rs, k, s.hist.written) && AllValid(s, k, rs)
    requires ReadLocation(b.state, l, At(s.mem.data, l), k, PrevOrigins(rs, l)).Ok?
    ensures AllValid(s, k, rs[l := ReadLocation(b.state, l, At(s.mem.data, l), k, PrevOrigins(rs, l)).origins])
  {
    var h := At(s.mem.data, l);
    EntriesLogged(b, s, l);
    if l in rs {
      RepeatedReadSame(b.state, l, h, k, rs[l], s.hist.written);
    } else {
      var chain := Walk(l, h, k).origins;
      DoneReadable(b, s, l, k);
      RereadsMeansValid(l, h, k);
      WalkLeavesChain(l, h, k, s.hist.written);
      ValidAtIsMatches(s.mem.data, l, k, chain, s.hist.written);
    }
  }

  lemma ReadStable(b: Block, s: State, w: nat, l: Location, k: nat)
    requires WellFormed(b, s) && w < |s.workers| && k < |b.txs| && s.workers[w].Running?
    requires EntriesOk(b, s) && LogOk(b, s) && RunsOk(b, s) && Phased(b, s)
    requires Stable(b, s, k) && DoneBelow(b, s, k) && !s.sched.aborted
    ensures StepRead(b, s, w, l).sched.aborted || Stable(b, StepRead(b, s, w, l), k)
  {
    var (p, s') := (s.workers[w], StepRead(b, s, w, l));
    ReadLeavesMemory(b, s, w, l);
    if !s'.sched.aborted {
      assert Sound(s, p, k) && Faithful(b, s.hist.written, p.v.tx, p.rs, p.history);
      if p.v.tx == k && s'.workers[w].Running? { ReadValid(b, s, l, k, p.rs); }
      StableFrame(b, s, s', w, k);
    }
  }

  lemma FinishOwnStable(b: Block, s: State, w: nat, result: TxResult, lazy: bool, k: nat)
    requires WellFormed(b, s) && AboutToRecord(b, s, w, result) && k < |b.txs| && s.workers[w].v.tx == k
    requires Stable(b, s, k) && SoleOwner(s, w, k) && s.sched.txs[k].status == Executing
    ensures Stable(b, StepFinish(b, s, w, result, lazy), k)
  {
    var (p, s') := (s.workers[w], StepFinish(b, s, w, result, lazy));
    assert Sound(s, p, k);
    forall x | 0 <= x < |s'.workers| && x != w ensures Sound(s', s'.workers[x], k) {
      assert Sound(s, s.workers[x], k) && !Owns(s.workers[x], k);
    }
  }

  lemma FinishStable(b: Block, s: State, w: nat, result: TxResult, lazy: bool, k: nat)
    requires WellFormed(b, s) && AboutToRecord(b, s, w, result) && k < |b.txs|
    requires LogOk(b, s) && RunsOk(b, s) && Phased(b, s) && Stable(b, s, k)
    requires AllAccounted(s) && !s.sched.aborted
    ensures Stable(b, StepFinish(b, s, w, result, lazy), k)
  {
    if s.workers[w].v.tx == k {
      assert Executes(s.workers[w], k) && Owns(s.workers[w], k);
      OwnerSole(s, w, k);
      FinishOwnStable(b, s, w, result, lazy, k);
    } else {
      StableFrame(b, s, StepFinish(b, s, w, result, lazy), w, k);
    }
  }

  lemma RunningStable(b: Block, s: State, w: nat, l: Location, k: nat)
    requires WellFormed(b, s) && w < |s.workers| && k < |b.txs| && (s.workers[w].Running? || s.workers[w].Transferring?)
    requires Remembered(b, s) && AllAccounted(s) && !s.sched.aborted && Stable(b, s, k) && DoneBelow(b, s, k)
    ensures Step(b, s, w, l).sched.aborted || Stable(b, Step(b, s, w, l), k)
  {
    var (p, s') := (s.workers[w], Step(b, s, w, l));
    var a := b.txs[p.v.tx].Next(p.history);
    if p.Transferring? {
      FinishStable(b, s, w, LazyResult(a), true, k);
    } else if a.Finish? {
      FinishStable(b, s, w, a.result, false, k);
    } else if a.Read? {
      ReadStable(b, s, w, a.location, k);
    } else if !s'.sched.aborted {
      assert Sound(s, p, k);
      StableFrame(b, s, s', w, k);
    }
  }

  lemma StartStable(b: Block, s: State, w: nat, l: Location, k: nat)
    requires WellFormed(b, s) && w < |s.workers| && k < |b.txs| && s.workers[w].ExecTask? && !s.sched.aborted
    requires LogOk(b, s) && RunsOk(b, s) && Phased(b, s) && Stable(b, s, k)
    ensures Stable(b, Step(b, s, w, l), k)
  {
    StableFrame(b, s, Step(b, s, w, l), w, k);
  }

  lemma StepStable(b: Block, s: State, w: nat, l: Location, k: nat)
    requires Inv(b, s) && !s.sched.aborted && k < |b.txs| && Stable(b, s, k) && DoneBelow(b, s, k)
    ensures Step(b, s, w, l).sched.aborted || Stable(b, Step(b, s, w, l), k)
  {
    if w < |s.workers| {
      var p := s.workers[w];
      if Polling(p) {
        PollingStable(b, s, w, k);
      } else if p.Running? || p.Transferring? {
        RunningStable(b, s, w, l, k);
      } else if p.ExecTask? {
        StartStable(b, s, w, l, k);
      } else if p.Blocked? {
        BlockedStable(b, s, w, k);
      } else if p.Recording? {
        if p.todo == {} { FinishExecutionStable(b, s, w, k); }
        else if MayRecord(p, l) { RecordOneStable(b, s, w, l, k); }
      } else if p.Converting? && p.todo != {} {
        if l in p.todo { ConvertOneStable(b, s, w, l, k); }
      } else if p.Converting? || p.Lowering? || p.Rerunning? {
        AbortStable(b, s, w, l, k);
      } else {
        ValidationStable(b, s, w, l, k);
      }
    }
  }

  // ---- Runs ----

  /** The critical sections that change a status, apart from finish_execution. */
  lemma SettlingStatus(b: Block, s: State, w: nat, l: Location, k: nat)
    requires WellFormed(b, s) && AllAccounted(s) && !s.sched.aborted && k < |b.txs| && s.sched.Done(k)
    requires w < |s.workers| && Settling(s.workers[w]) && !s.workers[w].Recording?
    ensures var (t, t') := (s.sched.txs[k], Step(b, s, w, l).sched.txs[k]);
            && t'.incarnation == t.incarnation
            && if s.workers[w].Failed? && s.workers[w].v.tx == k then t'.status == Aborting
               else t'.status == Executed || t'.status == Validated
  {
    var p := s.workers[w];
    assert p.Blocked? ==> Executes(p, p.v.tx);
    assert p.Converting? ==> Aborts(p, p.v.tx);
  }

  /** A done transaction is aborted exactly by a worker whose validation of it failed, whichever
      incarnation that validation was about; otherwise it keeps its incarnation and stays done. */
  lemma AbortedExactlyByFailure(b: Block, s: State, w: nat, l: Location, k: nat)
    requires WellFormed(b, s) && AllAccounted(s) && !s.sched.aborted && k < |b.txs| && s.sched.Done(k)
    ensures var (t, t') := (s.sched.txs[k], Step(b, s, w, l).sched.txs[k]);
            && t'.incarnation == t.incarnation
            && if w < |s.workers| && s.workers[w].Failed? && s.workers[w].v.tx == k then t'.status == Aborting
               else t'.status == Executed || t'.status == Validated
  {
    if w < |s.workers| {
      var p := s.workers[w];
      if Polling(p) {
        PollingFrame(b, s, w);
      } else if p.Running? || p.Transferring? {
        RunningFrame(b, s, w, l);
      } else if Working(p) {
        WorkingFrame(b, s, w, l);
      } else if p.Recording? {
        assert Executes(p, p.v.tx);
        FinishExecutionEffect(s.sched, s.workers, p.v, p.needValidation, p.wroteNew);
      } else {
        SettlingStatus(b, s, w, l, k);
      }
    }
  }

  // ---- Older checks ----

  predicate Checking(p: Phase) {
    p.ValTask? || p.Validating? || p.Failed?
  }

  /** The check of transaction k that worker p holds, if any, does not fail in this state. */
  ghost predicate Harmless(s: State, p: Phase, k: nat)
    requires k < |s.mem.lastRead|
  {
    && (p.Failed? ==> p.v.tx != k)
    && (p.ValTask? && p.v.tx == k ==> AllValid(s, k, s.mem.lastRead[k]))
    && (p.Validating? && p.v.tx == k ==>
          forall l :: l in p.todo && l in p.rs ==> ValidAt(s.mem.data, l, k, p.rs[l]))
  }

  ghost predicate KeysKept(s: State, s': State) {
    forall l :: l in s.mem.data ==> l in s'.mem.data
  }

  /** What is valid for k stays valid while entries at or above k come and go. */
  lemma ValidStays(s: State, s': State, l: Location, k: nat, chain: seq<Origin>)
    requires SameUnder(s, s', k) && KeysKept(s, s') && ValidAt(s.mem.data, l, k, chain)
    ensures ValidAt(s'.mem.data, l, k, chain)
  {
    assert SameBelow(At(s.mem.data, l), At(s'.mem.data, l), k);
    if l in s.mem.data {
      MatchesFrame(s.mem.data[l], s'.mem.data[l], k, chain);
    } else if l in s'.mem.data {
      assert Closest(s'.mem.data[l], k).None? && chain[1..] == [];
    }
  }

  lemma RecordOneKeys(b: Block, s: State, w: nat, l: Location)
    requires WellFormed(b, s) && w < |s.workers| && s.workers[w].Recording? && MayRecord(s.workers[w], l)
    ensures KeysKept(s, StepRecordOne(b, s, w, l))
  {
  }

  lemma RunningData(b: Block, s: State, w: nat, l: Location)
    requires WellFormed(b, s) && w < |s.workers| && (s.workers[w].Running? || s.workers[w].Transferring?)
    ensures Step(b, s, w, l).mem.data == s.mem.data
  {
  }

  lemma OtherData(b: Block, s: State, w: nat, l: Location)
    requires WellFormed(b, s) && w < |s.workers| && Tasked(s.workers[w])
    requires var p := s.workers[w];
             && !p.Running? && !p.Transferring?
             && (p.Recording? ==> p.todo == {} || !MayRecord(p, l)) && (p.Converting? ==> l !in p.todo)
    ensures Step(b, s, w, l).mem.data == s.mem.data
  {
  }

  lemma StepUnder(b: Block, s: State, w: nat, l: Location, k: nat)
    requires WellFormed(b, s) && AllAccounted(s) && !s.sched.aborted && k <= |b.txs| && DoneBelow(b, s, k)
    ensures SameUnder(s, Step(b, s, w, l), k) && KeysKept(s, Step(b, s, w, l))
  {
    if w < |s.workers| {
      var p := s.workers[w];
      if p.Recording? && p.todo != {} && MayRecord(p, l) {
        OwnerAbove(b, s, w, k);
        RecordOneAbove(b, s, w, l, k);
        RecordOneKeys(b, s, w, l);
      } else if p.Converting? && p.todo != {} && l in p.todo {
        OwnerAbove(b, s, w, k);
        ConvertOneAbove(b, s, w, l, k);
      } else if Polling(p) {
        PollingFrame(b, s, w);
      } else if p.Running? || p.Transferring? {
        RunningData(b, s, w, l);
      } else {
        OtherData(b, s, w, l);
      }
    }
  }

  /** The last read set of k is kept or replaced by one that is valid. */
  lemma LastReadStep(b: Block, s: State, w: nat, l: Location, k: nat)
    requires WellFormed(b, s) && k < |b.txs| && Stable(b, s, k)
    ensures var s' := Step(b, s, w, l);
            || s'.mem.lastRead[k] == s.mem.lastRead[k]
            || (s'.mem.data == s.mem.data && AllValid(s', k, s'.mem.lastRead[k]))
  {
    if w < |s.workers| {
      if Finishing(b, s.workers[w]) {
        assert Sound(s, s.workers[w], k);
        var _ := FinishingRecords(b, s, w, l);
      } else {
        StepUnrecorded(b, s, w, l);
      }
    }
  }

  /** A check held by a worker that does not move. */
  lemma OthersHarmless(s: State, s': State, p: Phase, k: nat)
    requires k < |s.mem.lastRead| && k < |s'.mem.lastRead| && SameUnder(s, s', k) && KeysKept(s, s')
    requires s'.mem.lastRead[k] == s.mem.lastRead[k] || AllValid(s', k, s'.mem.lastRead[k])
    requires Harmless(s, p, k)
    ensures Harmless(s', p, k)
  {
    if p.ValTask? && p.v.tx == k && s'.mem.lastRead[k] == s.mem.lastRead[k] {
      var rs := s.mem.lastRead[k];
      forall l | l in rs ensures ValidAt(s'.mem.data, l, k, rs[l]) { ValidStays(s, s', l, k, rs[l]); }
    } else if p.Validating? && p.v.tx == k {
      forall l | l in p.todo && l in p.rs ensures ValidAt(s'.mem.data, l, k, p.rs[l]) {
        ValidStays(s, s', l, k, p.rs[l]);
      }
    }
  }

  lemma PollingHarmless(b: Block, s: State, w: nat, k: nat)
    requires WellFormed(b, s) && w < |s.workers| && Polling(s.workers[w]) && k < |b.txs| && Stable(b, s, k)
    ensures Harmless(StepPolling(b, s, w), StepPolling(b, s, w).workers[w], k)
  {
  }

  lemma CheckingHarmless(b: Block, s: State, w: nat, l: Location, k: nat)
    requires WellFormed(b, s) && w < |s.workers| && k < |b.txs| && !s.sched.aborted && Harmless(s, s.workers[w], k)
    requires Checking(s.workers[w])
    ensures Harmless(Step(b, s, w, l), Step(b, s, w, l).workers[w], k)
  {
  }

  lemma FinishExecutionHarmless(b: Block, s: State, w: nat, k: nat)
    requires WellFormed(b, s) && w < |s.workers| && s.workers[w].Recording? && k < |b.txs| && Stable(b, s, k)
    ensures Harmless(StepFinishExecution(b, s, w), StepFinishExecution(b, s, w).workers[w], k)
  {
    assert Sound(s, s.workers[w], k);
  }

  lemma NoCheckTaken(b: Block, s: State, w: nat, l: Location)
    requires WellFormed(b, s) && w < |s.workers| && Tasked(s.workers[w]) && !Checking(s.workers[w]) && !s.sched.aborted
    requires !s.workers[w].Running? && !s.workers[w].Transferring?
    requires s.workers[w].Recording? ==> s.workers[w].todo != {}
    ensures !Checking(Step(b, s, w, l).workers[w])
  {
    if Working(s.workers[w]) { WorkingFrame(b, s, w, l); }
  }

  /** A worker takes up no check of k that fails. */
  lemma OwnHarmless(b: Block, s: State, w: nat, l: Location, k: nat)
    requires WellFormed(b, s) && w < |s.workers| && k < |b.txs| && !s.sched.aborted
    requires Stable(b, s, k) && Harmless(s, s.workers[w], k)
    ensures Harmless(Step(b, s, w, l), Step(b, s, w, l).workers[w], k)
  {
    var p := s.workers[w];
    if Polling(p) {
      PollingHarmless(b, s, w, k);
    } else if Checking(p) {
      CheckingHarmless(b, s, w, l, k);
    } else if p.Recording? && p.todo == {} {
      FinishExecutionHarmless(b, s, w, k);
    } else if p.Running? || p.Transferring? {
      RunningFrame(b, s, w, l);
    } else {
      NoCheckTaken(b, s, w, l);
    }
  }

  lemma StepHarmless(b: Block, s: State, w: nat, l: Location, k: nat, x: nat)
    requires Inv(b, s) && !s.sched.aborted && k < |b.txs| && Stable(b, s, k) && DoneBelow(b, s, k)
    requires x < |s.workers| && Harmless(s, s.workers[x], k)
    ensures Harmless(Step(b, s, w, l), Step(b, s, w, l).workers[x], k)
  {
    if x == w {
      OwnHarmless(b, s, w, l, k);
    } else {
      StepTouchesOne(b, s, w, l, x);
      StepUnder(b, s, w, l, k);
      LastReadStep(b, s, w, l, k);
      OthersHarmless(s, Step(b, s, w, l), s.workers[x], k);
    }
  }

  lemma StepTouchesOne(b: Block, s: State, w: nat, l: Location, x: nat)
    requires WellFormed(b, s) && x < |s.workers| && x != w && !s.sched.aborted
    ensures Step(b, s, w, l).workers[x] == s.workers[x]
  {
    if w < |s.workers| {
      var p := s.workers[w];
      if Polling(p) {
        PollingFrame(b, s, w);
      } else if p.Running? || p.Transferring? {
        RunningFrame(b, s, w, l);
      } else if Working(p) {
        WorkingFrame(b, s, w, l);
      }
    }
  }

  /** Conversely, a worker that holds a failing check of k can fail it in at most two steps of its own, and then
      AbortedExactlyByFailure lets it abort k whenever that is done. */
  lemma HarmfulFails(b: Block, s: State, x: nat, k: nat) returns (l: Location, n: nat)
    requires WellFormed(b, s) && !s.sched.aborted && k < |b.txs| && x < |s.workers| && !Harmless(s, s.workers[x], k)
    ensures n <= 2 && s.workers[x].v.tx == k
    ensures Became(s, Alone(b, s, x, l, n), x, s.sched, Failed(s.workers[x].v))
  {
    var p := s.workers[x];
    if p.Failed? {
      l, n := AccountAt(0), 0;
    } else if p.Validating? {
      l :| l in p.todo && l in p.rs && !ValidAt(s.mem.data, l, k, p.rs[l]);
      n := 1;
      assert Alone(b, s, x, l, 1) == Step(b, s, x, l);
    } else {
      var rs := s.mem.lastRead[k];
      l :| l in rs && !ValidAt(s.mem.data, l, k, rs[l]);
      n := 2;
      var s1 := Step(b, s, x, l);
      assert s1 == Move(s, x, Validating(p.v, rs, rs.Keys));
      assert Alone(b, s, x, l, 2) == Alone(b, s1, x, l, 1) == Step(b, s1, x, l);
    }
  }

  // ---- Runs from the m-th state on ----

  /** From the m-th state of the run to its last, transactions below k are done. */
  ghost predicate SettledBelow(b: Block, workers: nat, schedule: Schedule, m: nat, k: nat)
    requires k <= |b.txs|
  {
    m <= |schedule| && forall j :: m <= j <= |schedule| ==> SettledAt(b, Run(b, workers, schedule[..j]), k)
  }

  ghost predicate SettledAt(b: Block, s: State, k: nat)
    requires k <= |b.txs|
  {
    WellFormed(b, s) && !s.sched.aborted && DoneBelow(b, s, k)
  }

  /** No attempt at transaction k is under way, in a record or done. */
  ghost predicate Unstarted(s: State, k: nat) {
    && k < |s.sched.txs| && !s.sched.Done(k)
    && forall w :: 0 <= w < |s.workers| &&
                   (s.workers[w].Running? || s.workers[w].Transferring? || s.workers[w].Recording?) ==>
         s.workers[w].v.tx != k
  }

  lemma Shorter(b: Block, workers: nat, schedule: Schedule, m: nat, k: nat)
    requires k <= |b.txs| && m < |schedule| && SettledBelow(b, workers, schedule, m, k)
    ensures var before := schedule[..|schedule| - 1];
            && SettledBelow(b, workers, before, m, k) && before[..m] == schedule[..m]
            && SettledAt(b, Run(b, workers, before), k) && SettledAt(b, Run(b, workers, schedule), k)
  {
    var before := schedule[..|schedule| - 1];
    assert forall j :: 0 <= j <= |before| ==> before[..j] == schedule[..j];
    assert before == schedule[..|before|] && schedule == schedule[..|schedule|];
  }

  /** Executions of k that start once everything below it is settled read values that validate from then on,
      and record a read set that validates in every later state. */
  lemma {:induction false} PrefixStable(b: Block, workers: nat, schedule: Schedule, m: nat, k: nat)
    requires k < |b.txs| && SettledBelow(b, workers, schedule, m, k) && Unstarted(Run(b, workers, schedule[..m]), k)
    ensures Stable(b, Run(b, workers, schedule), k)
    decreases |schedule|
  {
    if m == |schedule| {
      assert schedule[..m] == schedule;
    } else {
      var (before, last) := (schedule[..|schedule| - 1], schedule[|schedule| - 1]);
      Shorter(b, workers, schedule, m, k);
      PrefixStable(b, workers, before, m, k);
      RunInv(b, workers, before);
      StepStable(b, Run(b, workers, before), last.0, last.1, k);
    }
  }

  /** A worker that fails a check of k later on held a failing check of k already in the m-th state. */
  lemma {:induction false} OnlyOlderChecksFail(b: Block, workers: nat, schedule: Schedule, m: nat, k: nat, x: nat)
    requires k < |b.txs| && SettledBelow(b, workers, schedule, m, k) && Unstarted(Run(b, workers, schedule[..m]), k)
    requires x < workers && Harmless(Run(b, workers, schedule[..m]), Run(b, workers, schedule[..m]).workers[x], k)
    ensures Harmless(Run(b, workers, schedule), Run(b, workers, schedule).workers[x], k)
    decreases |schedule|
  {
    if m == |schedule| {
      assert schedule[..m] == schedule;
    } else {
      var (before, last) := (schedule[..|schedule| - 1], schedule[|schedule| - 1]);
      Shorter(b, workers, schedule, m, k);
      OnlyOlderChecksFail(b, workers, before, m, k, x);
      PrefixStable(b, workers, before, m, k);
      RunInv(b, workers, before);
      StepHarmless(b, Run(b, workers, before), last.0, last.1, k, x);
    }
  }

  /** A step that aborts k, done after the m-th state, is the abort attempt of a worker that held a failing
      check of k already then. */
  lemma AbortedByOlderCheck(b: Block, workers: nat, schedule: Schedule, m: nat, k: nat, step: (nat, Location))
    requires k < |b.txs| && SettledBelow(b, workers, schedule, m, k) && Unstarted(Run(b, workers, schedule[..m]), k)
    requires var s := Run(b, workers, schedule);
             s.sched.Done(k) && !Step(b, s, step.0, step.1).sched.Done(k)
    ensures var s := Run(b, workers, schedule[..m]);
            step.0 < workers && !Harmless(s, s.workers[step.0], k)
  {
    var s := Run(b, workers, schedule);
    RunInv(b, workers, schedule);
    assert schedule == schedule[..|schedule|];
    AbortedExactlyByFailure(b, s, step.0, step.1, k);
    var s0 := Run(b, workers, schedule[..m]);
    if Harmless(s0, s0.workers[step.0], k) { OnlyOlderChecksFail(b, workers, schedule, m, k, step.0); }
  }

  /** So unless some worker holds a failing check of k in the m-th state, an execution of k that is done in the
      j-th state stays done under the same incarnation, and its reads stay valid. */
  lemma {:induction false} PrefixNeverAborts(b: Block, workers: nat, schedule: Schedule, m: nat, k: nat, j: nat)
    requires k < |b.txs| && SettledBelow(b, workers, schedule, m, k) && Unstarted(Run(b, workers, schedule[..m]), k)
    requires var s := Run(b, workers, schedule[..m]); forall x :: 0 <= x < workers ==> Harmless(s, s.workers[x], k)
    requires m <= j <= |schedule| && Run(b, workers, schedule[..j]).sched.Done(k)
    ensures var (s, s') := (Run(b, workers, schedule[..j]), Run(b, workers, schedule));
            && s'.sched.Done(k) && s'.sched.txs[k].incarnation == s.sched.txs[k].incarnation
            && AllValid(s', k, s'.mem.lastRead[k])
    decreases |schedule|
  {
    PrefixStable(b, workers, schedule, m, k);
    if j == |schedule| {
      assert schedule[..j] == schedule;
    } else {
      var (before, last) := (schedule[..|schedule| - 1], schedule[|schedule| - 1]);
      var s := Run(b, workers, before);
      Shorter(b, workers, schedule, m, k);
      assert before[..j] == schedule[..j];
      PrefixNeverAborts(b, workers, before, m, k, j);
      RunInv(b, workers, before);
      if last.0 < workers { OnlyOlderChecksFail(b, workers, before, m, k, last.0); }
      AbortedExactlyByFailure(b, s, last.0, last.1, k);
    }
  }
}
