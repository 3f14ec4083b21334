/** Steps that change the multi-version memory or the log of executions, and with them every step. */
module MemorySteps {
  import opened Types
  import opened Reads
  import opened Memory
  import opened Blocks
  import opened Rewards
  import opened Sequential
  import opened Machine
  import opened Accounting
  import opened MemoryLaws

  // ---- Reading ----

  lemma EntriesLogged(b: Block, s: State, l: Location)
    requires WellFormed(b, s) && EntriesOk(b, s)
    ensures Logged(l, At(s.mem.data, l), s.hist.written)
  {
    var h := At(s.mem.data, l);
    forall j: nat | j in h && h[j].Data?
      ensures Version(j, h[j].incarnation) in s.hist.written
      ensures l in s.hist.written[Version(j, h[j].incarnation)]
      ensures s.hist.written[Version(j, h[j].incarnation)][l] == h[j].value
    {
      assert EntryOf(s.mem.data, l, j) == Some(h[j]);
      assert EntryOf(s.mem.data, l, j) == Held(s, j, l);
    }
  }

  /** A successful read keeps the attempt a replay of its read set. */
  lemma ReadFaithful(b: Block, log: Written, i: nat, rs: ReadSet, history: seq<ReadValue>, l: Location, h: Entries)
    requires i < |b.txs| && Faithful(b, log, i, rs, history) && Logged(l, h, log)
    requires b.txs[i].Next(history) == Read(l)
    requires ReadLocation(b.state, l, h, i, PrevOrigins(rs, l)).Ok?
    ensures var r := ReadLocation(b.state, l, h, i, PrevOrigins(rs, l));
            Faithful(b, log, i, rs[l := r.origins], history + [r.value])
  {
    var r := ReadLocation(b.state, l, h, i, PrevOrigins(rs, l));
    var rs' := rs[l := r.origins];
    if l in rs {
      RepeatedReadSame(b.state, l, h, i, rs[l], log);
      assert rs' == rs;
    } else {
      WalkLeavesChain(l, h, i, log);
    }
    assert ChainsOk(rs', i, log);
    ReplaysExtend(b.txs[i], Values(b.state, rs, i, log), Values(b.state, rs', i, log), history, r.value);
  }

  lemma FaithfulExtends(b: Block, log: Written, log': Written, i: nat, rs: ReadSet, history: seq<ReadValue>)
    requires i < |b.txs| && Faithful(b, log, i, rs, history) && Extends(log, log')
    ensures Faithful(b, log', i, rs, history)
  {
    forall l | l in rs
      ensures ChainOk(l, rs[l], i, log')
      ensures TraceOf(l, rs[l], i, log') == TraceOf(l, rs[l], i, log)
    {
      ChainExtends(l, rs[l], i, log, log');
    }
    assert Values(b.state, rs, i, log') == Values(b.state, rs, i, log);
  }

  lemma AttemptExtends(b: Block, log: Written, log': Written, v: Version, a: Attempt)
    requires v.tx < |b.txs| && v in log && AttemptOk(b, log, v, a) && Extends(log, log')
    ensures AttemptOk(b, log', v, a)
  {
    FaithfulExtends(b, log, log', v.tx, a.rs, a.history);
  }

  // ---- Steps of the owner of a transaction ----

  /** Nothing that concerns transaction i changes. */
  predicate SameAt(s: State, s': State, i: nat)
    requires i < |s.sched.txs| && i < |s.mem.lastRead| && i < |s'.mem.lastRead|
    requires i < |s.mem.lastWrite| && i < |s'.mem.lastWrite| && i < |s.results| && i < |s'.results|
    requires i < |s.hist.stored| && i < |s'.hist.stored| && i < |s.hist.marks| && i < |s'.hist.marks|
  {
    && s'.mem.lastRead[i] == s.mem.lastRead[i] && s'.mem.lastWrite[i] == s.mem.lastWrite[i]
    && s'.results[i] == s.results[i]
    && s'.hist.stored[i] == s.hist.stored[i] && s'.hist.marks[i] == s.hist.marks[i]
    && var v := Current(s, i);
       && (v in s.hist.written <==> v in s'.hist.written)
       && (v in s.hist.written ==> s'.hist.written[v] == s.hist.written[v])
       && (v in s.hist.attempts <==> v in s'.hist.attempts)
       && (v in s.hist.attempts ==> s'.hist.attempts[v] == s.hist.attempts[v])
  }

  lemma PhasedElsewhere(b: Block, s: State, s': State, w: nat, i: nat)
    requires WellFormed(b, s) && WellFormed(b, s') && i < |b.txs| && s'.sched == s.sched
    requires w < |s.workers| == |s'.workers| && s'.workers == s.workers[w := s'.workers[w]]
    requires !Owns(s'.workers[w], i) && SameAt(s, s', i) && PhasedAt(b, s, i)
    ensures PhasedAt(b, s', i)
  {
    forall x | 0 <= x < |s'.workers| && Owns(s'.workers[x], i) ensures HeldBy(b, s', s'.workers[x], i) {
      assert Owns(s.workers[x], i) && HeldBy(b, s, s.workers[x], i);
    }
  }

  lemma PhasedHere(b: Block, s: State, s': State, w: nat, i: nat)
    requires WellFormed(b, s) && WellFormed(b, s') && i < |b.txs| && s'.sched == s.sched
    requires w < |s.workers| == |s'.workers| && s'.workers == s.workers[w := s'.workers[w]]
    requires AllAccounted(s) && !s.sched.aborted && Owns(s.workers[w], i)
    requires HeldBy(b, s', s'.workers[w], i)
    ensures PhasedAt(b, s', i)
  {
    assert Executes(s.workers[w], i) || Aborts(s.workers[w], i);
    assert forall x :: 0 <= x < |s'.workers| && x != w ==> s'.workers[x] == s.workers[x];
    assert forall j: nat :: !Waits(s.sched, i, j);
  }

  /** The entries follow the history variables when only those of transaction i change. */
  lemma EntriesStep(b: Block, s: State, s': State, i: nat)
    requires WellFormed(b, s) && WellFormed(b, s') && i < |b.txs| && s'.sched == s.sched && EntriesOk(b, s)
    requires forall k :: 0 <= k < |b.txs| && k != i ==> SameAt(s, s', k)
    requires forall l, k: nat :: k != i ==> EntryOf(s'.mem.data, l, k) == EntryOf(s.mem.data, l, k)
    requires StoredOk(s', i) && forall l :: EntryOf(s'.mem.data, l, i) == Held(s', i, l)
    ensures EntriesOk(b, s')
  {
    forall k | 0 <= k < |b.txs| ensures StoredOk(s', k) {
      assert StoredOk(s, k) && (k != i ==> SameAt(s, s', k));
    }
    forall k, l | 0 <= k < |b.txs| ensures EntryOf(s'.mem.data, l, k) == Held(s', k, l) {
      assert k != i ==> SameAt(s, s', k) && EntryOf(s.mem.data, l, k) == Held(s, k, l);
    }
  }

  /** A step of the owner of transaction i that touches nothing else. */
  lemma OwnerStepRemembered(b: Block, s: State, s': State, w: nat, i: nat)
    requires WellFormed(b, s) && WellFormed(b, s') && i < |b.txs| && s'.sched == s.sched
    requires w < |s.workers| == |s'.workers| && s'.workers == s.workers[w := s'.workers[w]]
    requires AllAccounted(s) && Remembered(b, s) && !s.sched.aborted && Owns(s.workers[w], i)
    requires Owns(s'.workers[w], i) && HeldBy(b, s', s'.workers[w], i)
    requires forall k :: 0 <= k < |b.txs| && k != i ==> SameAt(s, s', k)
    requires EntriesOk(b, s') && LogOk(b, s') && RunsOk(b, s')
    ensures Remembered(b, s')
  {
    forall k | 0 <= k < |b.txs| ensures PhasedAt(b, s', k) {
      assert PhasedAt(b, s, k);
      if k == i { PhasedHere(b, s, s', w, i); } else { PhasedElsewhere(b, s, s', w, k); }
    }
  }

  // ---- The start of record ----

  /** The worker finished executing and is about to record `result`. */
  ghost predicate AboutToRecord(b: Block, s: State, w: nat, result: TxResult)
    requires WellFormed(b, s)
  {
    && w < |s.workers| && (s.workers[w].Running? || s.workers[w].Transferring?)
    && WellTyped(result.writes)
    && var p := s.workers[w];
       var a := b.txs[p.v.tx].Next(p.history);
       (a.Finish? && a.result == result) || (a.RawTransfer? && result == LazyResult(a))
  }

  lemma OwnerWaiting(b: Block, s: State, w: nat)
    requires WellFormed(b, s) && w < |s.workers| && (s.workers[w].Running? || s.workers[w].Transferring?)
    requires AllAccounted(s) && Remembered(b, s) && !s.sched.aborted
    ensures var v := s.workers[w].v; Owns(s.workers[w], v.tx) && v == Current(s, v.tx) && Waiting(b, s, v.tx)
  {
    var p := s.workers[w];
    assert PhasedAt(b, s, p.v.tx) && Executes(p, p.v.tx) && Owns(p, p.v.tx);
  }

  lemma NewAttemptOk(b: Block, s: State, w: nat, result: TxResult, lazy: bool)
    requires WellFormed(b, s) && AboutToRecord(b, s, w, result) && RunsOk(b, s)
    requires s.workers[w].v !in s.hist.written
    ensures var (v, s') := (s.workers[w].v, StepFinish(b, s, w, result, lazy));
            AttemptOk(b, s'.hist.written, v, s'.hist.attempts[v])
  {
    var (p, s') := (s.workers[w], StepFinish(b, s, w, result, lazy));
    assert Extends(s.hist.written, s'.hist.written);
    FaithfulExtends(b, s.hist.written, s'.hist.written, p.v.tx, p.rs, p.history);
  }

  lemma LogGrows(b: Block, s: State, s': State, v: Version)
    requires WellFormed(b, s) && WellFormed(b, s') && LogOk(b, s)
    requires v.tx < |b.txs| && v == Current(s, v.tx) && v !in s.hist.written && s'.sched == s.sched
    requires v in s'.hist.written && s'.hist.written == s.hist.written[v := s'.hist.written[v]]
    requires v in s'.hist.attempts && s'.hist.attempts == s.hist.attempts[v := s'.hist.attempts[v]]
    requires AttemptOk(b, s'.hist.written, v, s'.hist.attempts[v])
    ensures LogOk(b, s')
  {
    assert Extends(s.hist.written, s'.hist.written);
    forall u | u in s'.hist.written && u.tx < |b.txs|
      ensures AttemptOk(b, s'.hist.written, u, s'.hist.attempts[u])
    {
      if u != v { AttemptExtends(b, s.hist.written, s'.hist.written, u, s.hist.attempts[u]); }
    }
  }

  lemma FinishLog(b: Block, s: State, w: nat, result: TxResult, lazy: bool)
    requires WellFormed(b, s) && AboutToRecord(b, s, w, result)
    requires LogOk(b, s) && RunsOk(b, s)
    requires var v := s.workers[w].v; v == Current(s, v.tx) && v !in s.hist.written
    ensures LogOk(b, StepFinish(b, s, w, result, lazy))
  {
    NewAttemptOk(b, s, w, result, lazy);
    LogGrows(b, s, StepFinish(b, s, w, result, lazy), s.workers[w].v);
  }

  lemma FinishRuns(b: Block, s: State, w: nat, result: TxResult, lazy: bool)
    requires WellFormed(b, s) && AboutToRecord(b, s, w, result) && RunsOk(b, s)
    requires s.workers[w].v !in s.hist.written
    ensures RunsOk(b, StepFinish(b, s, w, result, lazy))
  {
    var s' := StepFinish(b, s, w, result, lazy);
    assert Extends(s.hist.written, s'.hist.written);
    forall x | 0 <= x < |s'.workers| && (s'.workers[x].Running? || s'.workers[x].Transferring?)
      ensures Faithful(b, s'.hist.written, s'.workers[x].v.tx, s'.workers[x].rs, s'.workers[x].history)
    {
      assert s'.workers[x] == s.workers[x];
      FaithfulExtends(b, s.hist.written, s'.hist.written, s.workers[x].v.tx, s.workers[x].rs, s.workers[x].history);
    }
  }

  lemma FinishHolds(b: Block, s: State, w: nat, result: TxResult, lazy: bool)
    requires WellFormed(b, s) && AboutToRecord(b, s, w, result)
    requires var v := s.workers[w].v; v == Current(s, v.tx) && Waiting(b, s, v.tx)
    ensures var (i, s') := (s.workers[w].v.tx, StepFinish(b, s, w, result, lazy));
            && HeldBy(b, s', s'.workers[w], i)
            && (forall k :: 0 <= k < |b.txs| && k != i ==> SameAt(s, s', k))
  {
    RecipientsWritten(b, b.txs[s.workers[w].v.tx], result);
  }

  lemma FinishEntries(b: Block, s: State, w: nat, result: TxResult, lazy: bool)
    requires WellFormed(b, s) && AboutToRecord(b, s, w, result) && EntriesOk(b, s)
    requires var v := s.workers[w].v; v == Current(s, v.tx) && Waiting(b, s, v.tx)
    ensures EntriesOk(b, StepFinish(b, s, w, result, lazy))
  {
    var (i, s') := (s.workers[w].v.tx, StepFinish(b, s, w, result, lazy));
    forall l ensures EntryOf(s'.mem.data, l, i) == Held(s', i, l) {
      assert EntryOf(s.mem.data, l, i) == Held(s, i, l);
    }
    FinishHolds(b, s, w, result, lazy);
    EntriesStep(b, s, s', i);
  }

  lemma FinishRemembered(b: Block, s: State, w: nat, result: TxResult, lazy: bool)
    requires WellFormed(b, s) && AboutToRecord(b, s, w, result)
    requires AllAccounted(s) && Remembered(b, s) && !s.sched.aborted
    ensures Remembered(b, StepFinish(b, s, w, result, lazy))
  {
    OwnerWaiting(b, s, w);
    FinishEntries(b, s, w, result, lazy);
    FinishLog(b, s, w, result, lazy);
    FinishRuns(b, s, w, result, lazy);
    FinishHolds(b, s, w, result, lazy);
    OwnerStepRemembered(b, s, StepFinish(b, s, w, result, lazy), w, s.workers[w].v.tx);
  }

  // ---- Single-location steps ----

  /** The log and the executions under way are not touched by entry updates. */
  lemma LogUntouched(b: Block, s: State, s': State, w: nat)
    requires WellFormed(b, s) && WellFormed(b, s') && LogOk(b, s) && RunsOk(b, s) && s'.sched == s.sched
    requires w < |s.workers| == |s'.workers| && s'.workers == s.workers[w := s'.workers[w]]
    requires s'.hist.written == s.hist.written && s'.hist.attempts == s.hist.attempts
    requires !s'.workers[w].Running? && !s'.workers[w].Transferring?
    ensures LogOk(b, s') && RunsOk(b, s')
  {
  }

  lemma RecordOneHolds(b: Block, s: State, w: nat, l: Location)
    requires WellFormed(b, s) && w < |s.workers| && s.workers[w].Recording? && MayRecord(s.workers[w], l)
    requires InRecord(b, s, s.workers[w], s.workers[w].v.tx)
    ensures var (i, s') := (s.workers[w].v.tx, StepRecordOne(b, s, w, l));
            && HeldBy(b, s', s'.workers[w], i)
            && (forall k :: 0 <= k < |b.txs| && k != i ==> SameAt(s, s', k))
  {
  }

  lemma RecordOneEntry(b: Block, s: State, w: nat, l: Location, k: Location)
    requires WellFormed(b, s) && w < |s.workers| && s.workers[w].Recording? && MayRecord(s.workers[w], l)
    requires InRecord(b, s, s.workers[w], s.workers[w].v.tx) && s.workers[w].v == Current(s, s.workers[w].v.tx)
    requires EntryOf(s.mem.data, k, s.workers[w].v.tx) == Held(s, s.workers[w].v.tx, k)
    ensures var (i, s') := (s.workers[w].v.tx, StepRecordOne(b, s, w, l));
            EntryOf(s'.mem.data, k, i) == Held(s', i, k)
  {
    var p := s.workers[w];
    UpdateEntries(s.mem.data, l, p.v.tx, if l in p.ws then Data(p.v.incarnation, p.ws[l]) else Estimate, k, p.v.tx);
  }

  lemma RecordOneEntries(b: Block, s: State, w: nat, l: Location)
    requires WellFormed(b, s) && w < |s.workers| && s.workers[w].Recording? && MayRecord(s.workers[w], l)
    requires InRecord(b, s, s.workers[w], s.workers[w].v.tx) && s.workers[w].v == Current(s, s.workers[w].v.tx)
    requires EntriesOk(b, s)
    ensures EntriesOk(b, StepRecordOne(b, s, w, l))
  {
    var (p, s') := (s.workers[w], StepRecordOne(b, s, w, l));
    forall k ensures EntryOf(s'.mem.data, k, p.v.tx) == Held(s', p.v.tx, k) {
      RecordOneEntry(b, s, w, l, k);
    }
    RecordOneHolds(b, s, w, l);
    EntriesStep(b, s, s', p.v.tx);
  }

  lemma RecordOneRemembered(b: Block, s: State, w: nat, l: Location)
    requires WellFormed(b, s) && w < |s.workers| && s.workers[w].Recording? && MayRecord(s.workers[w], l)
    requires AllAccounted(s) && Remembered(b, s) && !s.sched.aborted
    ensures Remembered(b, StepRecordOne(b, s, w, l))
  {
    var (p, s') := (s.workers[w], StepRecordOne(b, s, w, l));
    assert PhasedAt(b, s, p.v.tx) && Executes(p, p.v.tx) && Owns(p, p.v.tx);
    RecordOneEntries(b, s, w, l);
    RecordOneHolds(b, s, w, l);
    LogUntouched(b, s, s', w);
    OwnerStepRemembered(b, s, s', w, p.v.tx);
  }

  lemma ConvertOneHolds(b: Block, s: State, w: nat, l: Location)
    requires WellFormed(b, s) && w < |s.workers| && s.workers[w].Converting? && l in s.workers[w].todo
    requires InConversion(b, s, s.workers[w], s.workers[w].v.tx)
    ensures var (i, s') := (s.workers[w].v.tx, StepConvertOne(b, s, w, l));
            && HeldBy(b, s', s'.workers[w], i)
            && (forall k :: 0 <= k < |b.txs| && k != i ==> SameAt(s, s', k))
  {
  }

  lemma ConvertOneEntries(b: Block, s: State, w: nat, l: Location)
    requires WellFormed(b, s) && w < |s.workers| && s.workers[w].Converting? && l in s.workers[w].todo
    requires InConversion(b, s, s.workers[w], s.workers[w].v.tx) && EntriesOk(b, s)
    ensures EntriesOk(b, StepConvertOne(b, s, w, l))
  {
    var (i, s') := (s.workers[w].v.tx, StepConvertOne(b, s, w, l));
    assert EntryOf(s.mem.data, l, i) == Held(s, i, l);
    forall k ensures EntryOf(s'.mem.data, k, i) == Held(s', i, k) {
      assert EntryOf(s.mem.data, k, i) == Held(s, i, k);
      UpdateEntries(s.mem.data, l, i, Estimate, k, i);
    }
    ConvertOneHolds(b, s, w, l);
    EntriesStep(b, s, s', i);
  }

  lemma ConvertOneRemembered(b: Block, s: State, w: nat, l: Location)
    requires WellFormed(b, s) && w < |s.workers| && s.workers[w].Converting? && l in s.workers[w].todo
    requires AllAccounted(s) && Remembered(b, s) && !s.sched.aborted
    ensures Remembered(b, StepConvertOne(b, s, w, l))
  {
    var (p, s') := (s.workers[w], StepConvertOne(b, s, w, l));
    assert PhasedAt(b, s, p.v.tx) && Aborts(p, p.v.tx) && Owns(p, p.v.tx);
    ConvertOneEntries(b, s, w, l);
    ConvertOneHolds(b, s, w, l);
    LogUntouched(b, s, s', w);
    OwnerStepRemembered(b, s, s', w, p.v.tx);
  }

  // ---- Every step ----

  /** A worker that keeps executing the same version. */
  lemma GoOnRemembered(b: Block, s: State, s': State, w: nat)
    requires WellFormed(b, s) && WellFormed(b, s') && w < |s.workers| == |s'.workers|
    requires AllAccounted(s) && Remembered(b, s) && !s.sched.aborted
    requires SameMemory(s, s') && s'.sched == s.sched && s'.workers == s.workers[w := s'.workers[w]]
    requires var (p, q) := (s.workers[w], s'.workers[w]);
             && Tasked(p) && Executes(p, p.v.tx) && !p.Recording?
             && Executes(q, p.v.tx) && !q.Recording?
             && (q.Running? || q.Transferring? ==> Faithful(b, s.hist.written, q.v.tx, q.rs, q.history))
    ensures Remembered(b, s')
  {
    var i := s.workers[w].v.tx;
    assert PhasedAt(b, s, i) && Owns(s.workers[w], i);
    MoveRemembered(b, s, s', w);
  }

  lemma ReadLeavesMemory(b: Block, s: State, w: nat, l: Location)
    requires WellFormed(b, s) && w < |s.workers| && s.workers[w].Running? && !s.sched.aborted
    ensures var (p, s') := (s.workers[w], StepRead(b, s, w, l));
            && SameMemory(s, s') && |s'.workers| == |s.workers| && s'.workers == s.workers[w := s'.workers[w]]
            && (!s'.sched.aborted ==>
                  && s'.sched == s.sched && Executes(s'.workers[w], p.v.tx) && !s'.workers[w].Recording?
                  && !s'.workers[w].Transferring?)
  {
  }

  lemma ReadRunFaithful(b: Block, s: State, w: nat, l: Location)
    requires WellFormed(b, s) && w < |s.workers| && s.workers[w].Running?
    requires b.txs[s.workers[w].v.tx].Next(s.workers[w].history) == Read(l)
    requires EntriesOk(b, s) && RunsOk(b, s)
    ensures var q := StepRead(b, s, w, l).workers[w];
            q.Running? ==> Faithful(b, s.hist.written, q.v.tx, q.rs, q.history)
  {
    var (p, q) := (s.workers[w], StepRead(b, s, w, l).workers[w]);
    if q.Running? {
      EntriesLogged(b, s, l);
      ReadFaithful(b, s.hist.written, p.v.tx, p.rs, p.history, l, At(s.mem.data, l));
    }
  }

  lemma ReadRemembered(b: Block, s: State, w: nat, l: Location)
    requires WellFormed(b, s) && w < |s.workers| && s.workers[w].Running?
    requires b.txs[s.workers[w].v.tx].Next(s.workers[w].history) == Read(l)
    requires AllAccounted(s) && Remembered(b, s) && !s.sched.aborted
    ensures Remembered(b, StepRead(b, s, w, l))
  {
    var s' := StepRead(b, s, w, l);
    ReadLeavesMemory(b, s, w, l);
    if !s'.sched.aborted {
      ReadRunFaithful(b, s, w, l);
      GoOnRemembered(b, s, s', w);
    }
  }

  lemma TransferLeavesMemory(b: Block, s: State, w: nat)
    requires WellFormed(b, s) && w < |s.workers| && s.workers[w].Running?
    requires b.txs[s.workers[w].v.tx].Next(s.workers[w].history).RawTransfer?
    ensures var (p, s') := (s.workers[w], StepRunning(b, s, w));
            && SameMemory(s, s') && |s'.workers| == |s.workers| && s'.workers == s.workers[w := s'.workers[w]]
            && s'.sched == s.sched && Executes(s'.workers[w], p.v.tx) && !s'.workers[w].Recording?
  {
  }

  lemma TransferFaithful(b: Block, s: State, w: nat)
    requires WellFormed(b, s) && w < |s.workers| && s.workers[w].Running? && RunsOk(b, s)
    requires b.txs[s.workers[w].v.tx].Next(s.workers[w].history).RawTransfer?
    ensures var (p, q) := (s.workers[w], StepRunning(b, s, w).workers[w]);
            && (q.Running? || q.Transferring?) && q.v == p.v
            && Faithful(b, s.hist.written, q.v.tx, q.rs, q.history)
  {
    var p := s.workers[w];
    var vals := Values(b.state, p.rs, p.v.tx, s.hist.written);
    ReplaysExtend(b.txs[p.v.tx], vals, vals, p.history, NotLazy);
  }

  lemma TransferRemembered(b: Block, s: State, w: nat)
    requires WellFormed(b, s) && w < |s.workers| && s.workers[w].Running?
    requires b.txs[s.workers[w].v.tx].Next(s.workers[w].history).RawTransfer?
    requires AllAccounted(s) && Remembered(b, s) && !s.sched.aborted
    ensures Remembered(b, StepRunning(b, s, w))
  {
    TransferLeavesMemory(b, s, w);
    TransferFaithful(b, s, w);
    GoOnRemembered(b, s, StepRunning(b, s, w), w);
  }

  lemma FailRemembered(b: Block, s: State, w: nat)
    requires WellFormed(b, s) && w < |s.workers| && s.workers[w].Running?
    requires b.txs[s.workers[w].v.tx].Next(s.workers[w].history).Fail?
    requires AllAccounted(s) && Remembered(b, s) && !s.sched.aborted
    ensures Remembered(b, StepRunning(b, s, w))
  {
    var s' := StepRunning(b, s, w);
    if !s'.sched.aborted { GoOnRemembered(b, s, s', w); }
  }

  lemma RunningRemembered(b: Block, s: State, w: nat)
    requires WellFormed(b, s) && w < |s.workers| && s.workers[w].Running?
    requires AllAccounted(s) && Remembered(b, s) && !s.sched.aborted
    ensures Remembered(b, StepRunning(b, s, w))
  {
    var p := s.workers[w];
    match b.txs[p.v.tx].Next(p.history)
    case Read(l) => ReadRemembered(b, s, w, l);
    case RawTransfer(_, _, _, _, _, _) => TransferRemembered(b, s, w);
    case Finish(result) => FinishRemembered(b, s, w, result, false);
    case Fail(_) => FailRemembered(b, s, w);
  }

  lemma TransferringRemembered(b: Block, s: State, w: nat)
    requires WellFormed(b, s) && w < |s.workers| && s.workers[w].Transferring?
    requires AllAccounted(s) && Remembered(b, s) && !s.sched.aborted
    ensures Remembered(b, StepTransferring(b, s, w))
  {
    var p := s.workers[w];
    FinishRemembered(b, s, w, LazyResult(b.txs[p.v.tx].Next(p.history)), true);
  }

  lemma StartAttemptRemembered(b: Block, s: State, w: nat)
    requires WellFormed(b, s) && w < |s.workers| && s.workers[w].ExecTask?
    requires AllAccounted(s) && Remembered(b, s) && !s.sched.aborted
    ensures Remembered(b, Move(s, w, Running(s.workers[w].v, [], map[])))
  {
    var v := s.workers[w].v;
    assert Replays(b.txs[v.tx], map[], []);
    GoOnRemembered(b, s, Move(s, w, Running(v, [], map[])), w);
  }

  /** Steps of a worker that executes. */
  lemma ExecutionRemembered(b: Block, s: State, w: nat, l: Location)
    requires WellFormed(b, s) && w < |s.workers|
    requires var p := s.workers[w]; p.ExecTask? || p.Running? || p.Transferring? || p.Blocked? || p.Recording?
    requires AllAccounted(s) && Remembered(b, s) && !s.sched.aborted
    ensures Remembered(b, Step(b, s, w, l))
  {
    var p := s.workers[w];
    if p.ExecTask? {
      StartAttemptRemembered(b, s, w);
    } else if p.Running? {
      RunningRemembered(b, s, w);
    } else if p.Transferring? {
      TransferringRemembered(b, s, w);
    } else if p.Blocked? {
      BlockedRemembered(b, s, w);
    } else if p.todo == {} {
      FinishExecutionRemembered(b, s, w);
    } else if MayRecord(p, l) {
      RecordOneRemembered(b, s, w, l);
    }
  }

  /** A worker that owns nothing, before and after a step that changes at most an index. */
  predicate Disowned(p: Phase) {
    p.ValTask? || (p.Validating? && p.todo != {}) || p.Lowering? || p.Rerunning?
  }

  lemma DisownedLeavesMemory(b: Block, s: State, w: nat, l: Location)
    requires WellFormed(b, s) && w < |s.workers| && Disowned(s.workers[w]) && !s.sched.aborted
    ensures var s' := Step(b, s, w, l);
            && SameMemory(s, s') && s'.workers == s.workers[w := s'.workers[w]]
            && s'.sched.txs == s.sched.txs && s'.sched.dependents == s.sched.dependents
            && !s'.workers[w].Running? && !s'.workers[w].Transferring?
            && (forall i: nat :: !Owns(s'.workers[w], i))
  {
  }

  lemma DisownedRemembered(b: Block, s: State, w: nat, l: Location)
    requires WellFormed(b, s) && w < |s.workers| && Remembered(b, s) && Disowned(s.workers[w]) && !s.sched.aborted
    ensures Remembered(b, Step(b, s, w, l))
  {
    DisownedLeavesMemory(b, s, w, l);
    MoveRemembered(b, s, Step(b, s, w, l), w);
  }

  lemma StepRemembered(b: Block, s: State, w: nat, l: Location)
    requires WellFormed(b, s) && AllAccounted(s) && Remembered(b, s) && !s.sched.aborted
    ensures Remembered(b, Step(b, s, w, l))
  {
    if w < |s.workers| {
      var p := s.workers[w];
      if Polling(p) {
        PollingRemembered(b, s, w);
      } else if p.Failed? {
        TryAbortRemembered(b, s, w);
      } else if p.AbortLost? || (p.Validating? && p.todo == {}) {
        ConfirmRemembered(b, s, w);
      } else if p.Converting? {
        if p.todo == {} { SetReadyRemembered(b, s, w); } else if l in p.todo { ConvertOneRemembered(b, s, w, l); }
      } else if Disowned(p) {
        DisownedRemembered(b, s, w, l);
      } else {
        ExecutionRemembered(b, s, w, l);
      }
    }
  }
}
