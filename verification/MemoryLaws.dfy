/** What every step keeps about the multi-version memory: ESTIMATE markers track unfinished work, data
    entries are the current write set of their transaction, each version recorded one write set, and
    every execution is a replay of the values its read set stands for. */
module MemoryLaws {
  import opened Types
  import opened Reads
  import opened Memory
  import opened Blocks
  import opened Rewards
  import opened Sequential
  import opened Machine
  import opened Accounting

  function Current(s: State, i: nat): Version
    requires i < |s.sched.txs|
  {
    Version(i, s.sched.txs[i].incarnation)
  }

  /** Where the transaction is expected to write: where it last wrote, at first the fee recipients. */
  function Expected(b: Block, s: State, i: nat): set<Location>
    requires i < |b.txs| && i < |s.mem.lastWrite|
  {
    if s.mem.lastWrite[i] == {} then Prefilled(b, i) else s.mem.lastWrite[i]
  }

  // ---- Entries ----

  /** The entry of i at l that the history variables announce. */
  function Held(s: State, i: nat, l: Location): Option<MemoryEntry>
    requires i < |s.sched.txs| == |s.hist.stored| == |s.hist.marks|
  {
    var v := Current(s, i);
    if l in s.hist.stored[i] && v in s.hist.written && l in s.hist.written[v] then
      Some(Data(v.incarnation, s.hist.written[v][l]))
    else if l in s.hist.marks[i] then Some(Estimate)
    else None
  }

  ghost predicate StoredOk(s: State, i: nat)
    requires i < |s.sched.txs| == |s.hist.stored|
  {
    s.hist.stored[i] == {} ||
    (Current(s, i) in s.hist.written && s.hist.stored[i] <= s.hist.written[Current(s, i)].Keys)
  }

  ghost predicate EntriesOk(b: Block, s: State)
    requires WellFormed(b, s)
  {
    && (forall i :: 0 <= i < |b.txs| ==> StoredOk(s, i))
    && (forall i, l :: 0 <= i < |b.txs| ==> EntryOf(s.mem.data, l, i) == Held(s, i, l))
    && (forall l, j: nat :: EntryOf(s.mem.data, l, j).Some? ==> j < |b.txs|)
  }

  // ---- What a transaction holds, by how far it got ----

  /** Not recorded yet: ESTIMATE markers at the expected locations. */
  ghost predicate Waiting(b: Block, s: State, i: nat)
    requires WellFormed(b, s) && i < |b.txs|
  {
    && Current(s, i) !in s.hist.written
    && s.hist.stored[i] == {} && s.hist.marks[i] == Expected(b, s, i)
  }

  /** The current version recorded these sets and this result. */
  ghost predicate HasAttempt(s: State, i: nat)
    requires i < |s.sched.txs| == |s.mem.lastRead| == |s.results|
  {
    var v := Current(s, i);
    && v in s.hist.written && v in s.hist.attempts
    && s.mem.lastRead[i] == s.hist.attempts[v].rs
    && s.results[i] == Some(s.hist.attempts[v].result)
  }

  /** Recorded: the entries are exactly the write set. */
  ghost predicate Complete(b: Block, s: State, i: nat)
    requires WellFormed(b, s) && i < |b.txs|
  {
    && HasAttempt(s, i)
    && s.mem.lastWrite[i] == s.hist.stored[i] == s.hist.written[Current(s, i)].Keys
    && s.hist.marks[i] == {}
  }

  /** In the middle of record: data where done, and every marker or old location still to do. */
  ghost predicate InRecord(b: Block, s: State, p: Phase, i: nat)
    requires WellFormed(b, s) && i < |b.txs| && p.Recording?
  {
    && HasAttempt(s, i)
    && s.hist.written[Current(s, i)] == p.ws
    && s.hist.stored[i] == p.ws.Keys - p.todo
    && s.hist.marks[i] <= p.todo
    && s.mem.lastWrite[i] * p.todo <= s.hist.marks[i]
    && s.hist.stored[i] <= s.mem.lastWrite[i] <= p.ws.Keys + p.todo
  }

  /** In the middle of the conversion: data where still to do. */
  ghost predicate InConversion(b: Block, s: State, p: Phase, i: nat)
    requires WellFormed(b, s) && i < |b.txs| && p.Converting?
  {
    && HasAttempt(s, i)
    && s.mem.lastWrite[i] == s.hist.written[Current(s, i)].Keys
    && p.todo <= s.mem.lastWrite[i]
    && s.hist.stored[i] == p.todo
    && s.hist.marks[i] == s.mem.lastWrite[i] - p.todo
  }

  /** What worker p makes of the transaction it owns. */
  ghost predicate HeldBy(b: Block, s: State, p: Phase, i: nat)
    requires WellFormed(b, s) && i < |b.txs|
  {
    if p.Recording? then InRecord(b, s, p, i)
    else if p.Converting? then InConversion(b, s, p, i)
    else Waiting(b, s, i)
  }

  ghost predicate PhasedAt(b: Block, s: State, i: nat)
    requires WellFormed(b, s) && i < |b.txs|
  {
    && (s.sched.Done(i) ==> Complete(b, s, i))
    && (s.sched.txs[i].status == ReadyToExecute ==> Waiting(b, s, i))
    && (forall w {:trigger Owns(s.workers[w], i)} ::
          0 <= w < |s.workers| && Owns(s.workers[w], i) ==> HeldBy(b, s, s.workers[w], i))
    && (forall j: nat :: Waits(s.sched, i, j) ==> Waiting(b, s, i))
  }

  ghost predicate Phased(b: Block, s: State)
    requires WellFormed(b, s)
  {
    forall i :: 0 <= i < |b.txs| ==> PhasedAt(b, s, i)
  }

  // ---- Executions replay their read sets ----

  ghost predicate ChainsOk(rs: ReadSet, i: nat, log: Written) {
    forall l :: l in rs ==> ChainOk(l, rs[l], i, log)
  }

  /** The values a read set stands for. */
  ghost function Values(cs: ChainState, rs: ReadSet, i: nat, log: Written): map<Location, ReadValue>
    requires ChainsOk(rs, i, log)
  {
    map l | l in rs :: Resolve(cs, l, TraceOf(l, rs[l], i, log))
  }

  /** The attempt read exactly the values its read set stands for. */
  ghost predicate Faithful(b: Block, log: Written, i: nat, rs: ReadSet, history: seq<ReadValue>)
    requires i < |b.txs|
  {
    ChainsOk(rs, i, log) && Replays(b.txs[i], Values(b.state, rs, i, log), history)
  }

  ghost predicate AttemptOk(b: Block, log: Written, v: Version, a: Attempt)
    requires v.tx < |b.txs| && v in log
  {
    var tx := b.txs[v.tx];
    && Faithful(b, log, v.tx, a.rs, a.history)
    && (|| (tx.Next(a.history).Finish? && tx.Next(a.history).result == a.result)
        || (tx.Next(a.history).RawTransfer? && a.result == LazyResult(tx.Next(a.history))))
    && WellTyped(a.result.writes)
    && log[v] == FinalWrites(b, tx, a.result)
  }

  ghost predicate LogOk(b: Block, s: State)
    requires WellFormed(b, s)
  {
    && s.hist.attempts.Keys == s.hist.written.Keys
    && (forall v :: v in s.hist.written ==>
          v.tx < |b.txs| && v.incarnation <= s.sched.txs[v.tx].incarnation)
    && (forall v :: v in s.hist.written && v.tx < |b.txs| ==>
          AttemptOk(b, s.hist.written, v, s.hist.attempts[v]))
  }

  ghost predicate RunsOk(b: Block, s: State)
    requires WellFormed(b, s)
  {
    forall w :: 0 <= w < |s.workers| && (s.workers[w].Running? || s.workers[w].Transferring?) ==>
      Faithful(b, s.hist.written, s.workers[w].v.tx, s.workers[w].rs, s.workers[w].history)
  }

  /** Nothing is claimed of an aborted run. */
  ghost predicate Remembered(b: Block, s: State)
    requires WellFormed(b, s)
  {
    s.sched.aborted || (EntriesOk(b, s) && Phased(b, s) && LogOk(b, s) && RunsOk(b, s))
  }

  // ---- Steps that leave the memory alone ----

  ghost predicate SameMemory(s: State, s': State) {
    && s'.mem == s.mem && s'.results == s.results
    && s'.hist.written == s.hist.written && s'.hist.attempts == s.hist.attempts
    && s'.hist.stored == s.hist.stored && s'.hist.marks == s.hist.marks
  }

  predicate SameIncarnation(s: State, s': State, i: nat)
    requires i < |s.sched.txs| == |s'.sched.txs|
  {
    s'.sched.txs[i].incarnation == s.sched.txs[i].incarnation
  }

  lemma EntriesFrame(b: Block, s: State, s': State)
    requires WellFormed(b, s) && WellFormed(b, s') && EntriesOk(b, s) && SameMemory(s, s')
    requires forall i :: 0 <= i < |b.txs| && s.hist.stored[i] != {} ==> SameIncarnation(s, s', i)
    ensures EntriesOk(b, s')
  {
    forall i | 0 <= i < |b.txs| ensures StoredOk(s', i) {
      assert StoredOk(s, i);
    }
    forall i, l | 0 <= i < |b.txs| ensures EntryOf(s'.mem.data, l, i) == Held(s', i, l) {
      assert EntryOf(s.mem.data, l, i) == Held(s, i, l);
    }
  }

  lemma LogFrame(b: Block, s: State, s': State)
    requires WellFormed(b, s) && WellFormed(b, s') && LogOk(b, s) && SameMemory(s, s')
    requires forall i :: 0 <= i < |b.txs| ==> s.sched.txs[i].incarnation <= s'.sched.txs[i].incarnation
    ensures LogOk(b, s')
  {
  }

  lemma RunsFrame(b: Block, s: State, s': State, w: nat)
    requires WellFormed(b, s) && WellFormed(b, s') && RunsOk(b, s) && SameMemory(s, s')
    requires w < |s.workers| == |s'.workers| && s'.workers == s.workers[w := s'.workers[w]]
    requires var q := s'.workers[w];
             q.Running? || q.Transferring? ==> Faithful(b, s.hist.written, q.v.tx, q.rs, q.history)
    ensures RunsOk(b, s')
  {
  }

  lemma WaitingFrame(b: Block, s: State, s': State, i: nat)
    requires WellFormed(b, s) && WellFormed(b, s') && LogOk(b, s) && SameMemory(s, s') && i < |b.txs|
    requires s.sched.txs[i].incarnation <= s'.sched.txs[i].incarnation && Waiting(b, s, i)
    ensures Waiting(b, s', i)
  {
  }

  lemma HeldFrame(b: Block, s: State, s': State, p: Phase, i: nat)
    requires WellFormed(b, s) && WellFormed(b, s') && SameMemory(s, s') && i < |b.txs| && SameIncarnation(s, s', i)
    requires HeldBy(b, s, p, i)
    ensures HeldBy(b, s', p, i)
  {
    assert Current(s, i) == Current(s', i);
  }

  lemma HoldingFrame(b: Block, s: State, s': State, i: nat)
    requires WellFormed(b, s) && WellFormed(b, s') && LogOk(b, s) && SameMemory(s, s') && i < |b.txs|
    requires s.sched.txs[i].incarnation <= s'.sched.txs[i].incarnation
    ensures Waiting(b, s, i) ==> Waiting(b, s', i)
    ensures SameIncarnation(s, s', i) && Complete(b, s, i) ==> Complete(b, s', i)
    ensures forall p :: SameIncarnation(s, s', i) && HeldBy(b, s, p, i) ==> HeldBy(b, s', p, i)
  {
    if Waiting(b, s, i) { WaitingFrame(b, s, s', i); }
    forall p | SameIncarnation(s, s', i) && HeldBy(b, s, p, i) { HeldFrame(b, s, s', p, i); }
  }

  /** What a scheduler step of worker w owes transaction i. */
  ghost predicate Owed(b: Block, s: State, s': State, w: nat, i: nat)
    requires WellFormed(b, s) && WellFormed(b, s') && w < |s.workers| == |s'.workers| && i < |b.txs|
  {
    s'.sched.aborted ||
    (&& s.sched.txs[i].incarnation <= s'.sched.txs[i].incarnation
     && (s.hist.stored[i] != {} ==> SameIncarnation(s, s', i))
     && (s'.sched.Done(i) ==> SameIncarnation(s, s', i) && Complete(b, s, i))
     && (s'.sched.txs[i].status == ReadyToExecute ==> Waiting(b, s', i))
     && (Owns(s'.workers[w], i) ==> HeldBy(b, s', s'.workers[w], i))
     && (forall x {:trigger Owns(s.workers[x], i)} ::
           0 <= x < |s.workers| && x != w && Owns(s.workers[x], i) ==> SameIncarnation(s, s', i))
     && (forall j: nat :: Waits(s'.sched, i, j) ==> Waiting(b, s', i)))
  }

  ghost predicate AllOwed(b: Block, s: State, s': State, w: nat)
    requires WellFormed(b, s) && WellFormed(b, s') && w < |s.workers| == |s'.workers|
  {
    forall i :: 0 <= i < |b.txs| ==> Owed(b, s, s', w, i)
  }

  lemma SchedulerStepRemembered(b: Block, s: State, s': State, w: nat)
    requires WellFormed(b, s) && WellFormed(b, s') && Remembered(b, s) && !s.sched.aborted && SameMemory(s, s')
    requires w < |s.workers| == |s'.workers| && s'.workers == s.workers[w := s'.workers[w]]
    requires var q := s'.workers[w];
             q.Running? || q.Transferring? ==> Faithful(b, s.hist.written, q.v.tx, q.rs, q.history)
    requires AllOwed(b, s, s', w)
    ensures Remembered(b, s')
  {
    if !s'.sched.aborted {
      forall i | 0 <= i < |b.txs|
        ensures s.sched.txs[i].incarnation <= s'.sched.txs[i].incarnation
        ensures s.hist.stored[i] != {} ==> SameIncarnation(s, s', i)
      {
        assert Owed(b, s, s', w, i);
      }
      EntriesFrame(b, s, s');
      LogFrame(b, s, s');
      RunsFrame(b, s, s', w);
      PhasedStep(b, s, s', w);
    }
  }

  lemma PhasedStepAt(b: Block, s: State, s': State, w: nat, i: nat)
    requires WellFormed(b, s) && WellFormed(b, s') && LogOk(b, s) && SameMemory(s, s')
    requires w < |s.workers| == |s'.workers| && s'.workers == s.workers[w := s'.workers[w]] && i < |b.txs|
    requires PhasedAt(b, s, i) && Owed(b, s, s', w, i) && !s'.sched.aborted
    ensures PhasedAt(b, s', i)
  {
    HoldingFrame(b, s, s', i);
    forall x | 0 <= x < |s'.workers| && Owns(s'.workers[x], i) ensures HeldBy(b, s', s'.workers[x], i) {
      if x != w { assert Owns(s.workers[x], i); }
    }
  }

  lemma PhasedStep(b: Block, s: State, s': State, w: nat)
    requires WellFormed(b, s) && WellFormed(b, s') && Phased(b, s) && LogOk(b, s) && SameMemory(s, s')
    requires w < |s.workers| == |s'.workers| && s'.workers == s.workers[w := s'.workers[w]]
    requires AllOwed(b, s, s', w) && !s'.sched.aborted
    ensures Phased(b, s')
  {
    forall i | 0 <= i < |b.txs| ensures PhasedAt(b, s', i) {
      assert Owed(b, s, s', w, i) && PhasedAt(b, s, i);
      PhasedStepAt(b, s, s', w, i);
    }
  }

  // ---- Scheduler steps, one lemma each ----

  lemma OwedElsewhere(b: Block, s: State, s': State, w: nat, i: nat)
    requires WellFormed(b, s) && WellFormed(b, s') && LogOk(b, s) && SameMemory(s, s')
    requires w < |s.workers| == |s'.workers| && i < |b.txs| && PhasedAt(b, s, i)
    requires s'.sched.txs[i] == s.sched.txs[i]
    requires Owns(s'.workers[w], i) ==> HeldBy(b, s, s'.workers[w], i)
    requires forall j: nat :: Waits(s'.sched, i, j) ==> Waits(s.sched, i, j)
    ensures Owed(b, s, s', w, i)
  {
    HoldingFrame(b, s, s', i);
  }

  /** A step that changes no status and keeps the worker's hold. */
  lemma MoveRemembered(b: Block, s: State, s': State, w: nat)
    requires WellFormed(b, s) && WellFormed(b, s') && Remembered(b, s) && !s.sched.aborted && SameMemory(s, s')
    requires w < |s.workers| == |s'.workers| && s'.workers == s.workers[w := s'.workers[w]]
    requires s'.sched.txs == s.sched.txs && s'.sched.dependents == s.sched.dependents
    requires forall i :: 0 <= i < |b.txs| && Owns(s'.workers[w], i) ==> HeldBy(b, s, s'.workers[w], i)
    requires var q := s'.workers[w];
             q.Running? || q.Transferring? ==> Faithful(b, s.hist.written, q.v.tx, q.rs, q.history)
    ensures Remembered(b, s')
  {
    forall i | 0 <= i < |b.txs| ensures Owed(b, s, s', w, i) {
      assert PhasedAt(b, s, i);
      assert forall j: nat :: Waits(s'.sched, i, j) ==> Waits(s.sched, i, j);
      OwedElsewhere(b, s, s', w, i);
    }
    SchedulerStepRemembered(b, s, s', w);
  }

  /** A ready transaction is started. */
  lemma StartRemembered(b: Block, s: State, s': State, w: nat, i: nat)
    requires WellFormed(b, s) && WellFormed(b, s') && Remembered(b, s) && SameMemory(s, s')
    requires AllAccounted(s) && !s.sched.aborted
    requires w < |s.workers| == |s'.workers| && s'.workers == s.workers[w := s'.workers[w]]
    requires i < |b.txs| && s.sched.txs[i].status == ReadyToExecute
    requires s'.sched.txs == s.sched.txs[i := s.sched.txs[i].(status := Executing)]
    requires s'.sched.dependents == s.sched.dependents
    requires s'.workers[w].ExecTask? && s'.workers[w].v.tx == i
    ensures Remembered(b, s')
  {
    forall k | 0 <= k < |b.txs| ensures Owed(b, s, s', w, k) {
      assert PhasedAt(b, s, k);
      assert forall j: nat :: Waits(s'.sched, k, j) ==> Waits(s.sched, k, j);
      HoldingFrame(b, s, s', k);
      if k != i { OwedElsewhere(b, s, s', w, k); }
    }
    SchedulerStepRemembered(b, s, s', w);
  }

  lemma PollingFrame(b: Block, s: State, w: nat)
    requires WellFormed(b, s) && w < |s.workers| && Polling(s.workers[w])
    ensures var (p, s') := (s.workers[w], StepPolling(b, s, w));
            && SameMemory(s, s')
            && |s'.workers| == |s.workers| && s'.workers == s.workers[w := s'.workers[w]]
            && s'.sched.dependents == s.sched.dependents
            && (if s'.workers[w].ExecTask? then
                  && (p.ClaimedExecution? || p.ClaimedValidation?) && p.claim < |b.txs|
                  && s.sched.txs[p.claim].status == ReadyToExecute
                  && s'.sched.txs == s.sched.txs[p.claim := s.sched.txs[p.claim].(status := Executing)]
                  && s'.workers[w].v.tx == p.claim
                else
                  && s'.sched.txs == s.sched.txs
                  && (Polling(s'.workers[w]) || s'.workers[w].ValTask?))
  {
  }

  lemma PollingRemembered(b: Block, s: State, w: nat)
    requires WellFormed(b, s) && w < |s.workers| && Polling(s.workers[w])
    requires AllAccounted(s) && !s.sched.aborted && Remembered(b, s)
    ensures Remembered(b, StepPolling(b, s, w))
  {
    var (p, s') := (s.workers[w], StepPolling(b, s, w));
    PollingFrame(b, s, w);
    if s'.workers[w].ExecTask? {
      StartRemembered(b, s, s', w, p.claim);
    } else {
      MoveRemembered(b, s, s', w);
    }
  }

  lemma BlockedRemembered(b: Block, s: State, w: nat)
    requires WellFormed(b, s) && w < |s.workers| && s.workers[w].Blocked?
    requires AllAccounted(s) && !s.sched.aborted && Remembered(b, s)
    ensures Remembered(b, StepBlocked(b, s, w))
  {
    var (p, s') := (s.workers[w], StepBlocked(b, s, w));
    assert PhasedAt(b, s, p.v.tx) && Executes(p, p.v.tx) && Owns(p, p.v.tx);
    forall k | 0 <= k < |b.txs| ensures Owed(b, s, s', w, k) {
      assert PhasedAt(b, s, k);
      HoldingFrame(b, s, s', k);
      if k != p.v.tx {
        assert forall j: nat :: Waits(s'.sched, k, j) ==> Waits(s.sched, k, j);
        OwedElsewhere(b, s, s', w, k);
      }
    }
    SchedulerStepRemembered(b, s, s', w);
  }

  lemma RecordedComplete(b: Block, s: State, w: nat)
    requires WellFormed(b, s) && w < |s.workers| && s.workers[w].Recording? && s.workers[w].todo == {}
    requires Phased(b, s)
    ensures Complete(b, s, s.workers[w].v.tx)
  {
    var p := s.workers[w];
    assert PhasedAt(b, s, p.v.tx) && Owns(p, p.v.tx);
  }

  /** The scheduler's side of finish_execution for transaction k. */
  ghost predicate Released(s: State, s': State, i: nat, k: nat)
    requires i < |s.sched.txs| == |s'.sched.txs| && k < |s.sched.txs|
  {
    s'.sched.aborted ||
    (&& (k == i ==> s'.sched.Done(i) && SameIncarnation(s, s', i))
     && (forall j: nat :: Waits(s'.sched, k, j) <==> Waits(s.sched, k, j) && j != i)
     && (if Waits(s.sched, k, i) then
           && s'.sched.txs[k] == TxStatus(s.sched.txs[k].incarnation + 1, ReadyToExecute)
           && (forall x :: 0 <= x < |s.workers| ==> !Owns(s.workers[x], k))
         else k == i || s'.sched.txs[k] == s.sched.txs[k]))
  }

  /** What worker w finished, and the memory it leaves alone. */
  ghost predicate ReleaseStep(b: Block, s: State, s': State, w: nat)
    requires WellFormed(b, s) && WellFormed(b, s') && w < |s.workers| == |s'.workers| && Tasked(s.workers[w])
  {
    s'.sched.aborted ||
    (&& SameMemory(s, s') && LogOk(b, s) && Phased(b, s) && Complete(b, s, s.workers[w].v.tx)
     && (s'.workers[w].Idle? || s'.workers[w].ValTask?))
  }

  lemma CompleteWaitsForNone(b: Block, s: State, i: nat, j: nat)
    requires WellFormed(b, s) && i < |b.txs| && PhasedAt(b, s, i) && Complete(b, s, i)
    ensures !Waits(s.sched, i, j)
  {
  }

  lemma FinishedOwed(b: Block, s: State, s': State, w: nat, i: nat)
    requires WellFormed(b, s) && WellFormed(b, s') && w < |s.workers| == |s'.workers| && !s'.sched.aborted
    requires i < |b.txs| && s'.sched.Done(i) && SameIncarnation(s, s', i) && Complete(b, s, i)
    requires forall j: nat :: !Waits(s'.sched, i, j)
    requires s'.workers[w].Idle? || s'.workers[w].ValTask?
    ensures Owed(b, s, s', w, i)
  {
  }

  lemma ResumedOwed(b: Block, s: State, s': State, w: nat, k: nat)
    requires WellFormed(b, s) && WellFormed(b, s') && w < |s.workers| == |s'.workers| && Tasked(s.workers[w])
    requires k < |b.txs| && ReleaseStep(b, s, s', w) && Released(s, s', s.workers[w].v.tx, k)
    requires Waits(s.sched, k, s.workers[w].v.tx)
    ensures Owed(b, s, s', w, k)
  {
    if !s'.sched.aborted {
      assert PhasedAt(b, s, k);
      WaitingFrame(b, s, s', k);
    }
  }

  lemma ReleasedOwed(b: Block, s: State, s': State, w: nat, k: nat)
    requires WellFormed(b, s) && WellFormed(b, s') && w < |s.workers| == |s'.workers| && Tasked(s.workers[w])
    requires k < |b.txs| && ReleaseStep(b, s, s', w) && Released(s, s', s.workers[w].v.tx, k)
    ensures Owed(b, s, s', w, k)
  {
    if !s'.sched.aborted {
      assert PhasedAt(b, s, k);
      if k == s.workers[w].v.tx {
        forall j: nat { CompleteWaitsForNone(b, s, k, j); }
        FinishedOwed(b, s, s', w, k);
      } else if Waits(s.sched, k, s.workers[w].v.tx) {
        ResumedOwed(b, s, s', w, k);
      } else {
        OwedElsewhere(b, s, s', w, k);
      }
    }
  }

  lemma FinishExecutionReleases(b: Block, s: State, w: nat, k: nat)
    requires WellFormed(b, s) && w < |s.workers| && s.workers[w].Recording? && AllAccounted(s) && !s.sched.aborted
    requires k < |b.txs|
    ensures Released(s, StepFinishExecution(b, s, w), s.workers[w].v.tx, k)
  {
    var p := s.workers[w];
    assert Executes(p, p.v.tx);
    FinishExecutionEffect(s.sched, s.workers, p.v, p.needValidation, p.wroteNew);
    assert Waits(s.sched, k, p.v.tx) ==> s.sched.txs[k].status == Aborting;
  }

  lemma FinishExecutionRemembered(b: Block, s: State, w: nat)
    requires WellFormed(b, s) && w < |s.workers| && s.workers[w].Recording? && s.workers[w].todo == {}
    requires AllAccounted(s) && !s.sched.aborted && Remembered(b, s)
    ensures Remembered(b, StepFinishExecution(b, s, w))
  {
    RecordedComplete(b, s, w);
    var s' := StepFinishExecution(b, s, w);
    assert ReleaseStep(b, s, s', w);
    forall k | 0 <= k < |b.txs| ensures Owed(b, s, s', w, k) {
      FinishExecutionReleases(b, s, w, k);
      ReleasedOwed(b, s, s', w, k);
    }
    SchedulerStepRemembered(b, s, s', w);
  }

  lemma ConfirmOwed(b: Block, s: State, w: nat, k: nat)
    requires WellFormed(b, s) && w < |s.workers| && (s.workers[w].Validating? || s.workers[w].AbortLost?)
    requires LogOk(b, s) && k < |b.txs| && PhasedAt(b, s, k)
    ensures Owed(b, s, StepConfirm(b, s, w), w, k)
  {
    var (p, s') := (s.workers[w], StepConfirm(b, s, w));
    assert forall j: nat :: Waits(s'.sched, k, j) ==> Waits(s.sched, k, j);
    HoldingFrame(b, s, s', k);
    if k != p.v.tx { OwedElsewhere(b, s, s', w, k); }
  }

  lemma ConfirmRemembered(b: Block, s: State, w: nat)
    requires WellFormed(b, s) && w < |s.workers| && (s.workers[w].Validating? || s.workers[w].AbortLost?)
    requires Remembered(b, s) && !s.sched.aborted
    ensures Remembered(b, StepConfirm(b, s, w))
  {
    forall k | 0 <= k < |b.txs| { ConfirmOwed(b, s, w, k); }
    SchedulerStepRemembered(b, s, StepConfirm(b, s, w), w);
  }

  lemma AbortWonOwed(b: Block, s: State, w: nat)
    requires WellFormed(b, s) && w < |s.workers| && s.workers[w].Failed? && s.sched.Done(s.workers[w].v.tx)
    requires AllAccounted(s) && !s.sched.aborted && PhasedAt(b, s, s.workers[w].v.tx)
    ensures Owed(b, s, StepTryAbort(b, s, w), w, s.workers[w].v.tx)
  {
    var (i, s') := (s.workers[w].v.tx, StepTryAbort(b, s, w));
    assert Complete(b, s, i);
    assert InConversion(b, s', s'.workers[w], i);
    assert forall j: nat :: Waits(s'.sched, i, j) ==> Waits(s.sched, i, j);
  }

  lemma TryAbortOwed(b: Block, s: State, w: nat, k: nat)
    requires WellFormed(b, s) && w < |s.workers| && s.workers[w].Failed?
    requires AllAccounted(s) && !s.sched.aborted && LogOk(b, s) && k < |b.txs| && PhasedAt(b, s, k)
    ensures Owed(b, s, StepTryAbort(b, s, w), w, k)
  {
    var (p, s') := (s.workers[w], StepTryAbort(b, s, w));
    if k == p.v.tx && s.sched.Done(k) {
      AbortWonOwed(b, s, w);
    } else {
      assert s'.sched.txs[k] == s.sched.txs[k] && !Owns(s'.workers[w], k);
      assert forall j: nat :: Waits(s'.sched, k, j) ==> Waits(s.sched, k, j);
      OwedElsewhere(b, s, s', w, k);
    }
  }

  lemma TryAbortRemembered(b: Block, s: State, w: nat)
    requires WellFormed(b, s) && w < |s.workers| && s.workers[w].Failed?
    requires AllAccounted(s) && !s.sched.aborted && Remembered(b, s)
    ensures Remembered(b, StepTryAbort(b, s, w))
  {
    forall k | 0 <= k < |b.txs| ensures Owed(b, s, StepTryAbort(b, s, w), w, k) {
      assert PhasedAt(b, s, k);
      TryAbortOwed(b, s, w, k);
    }
    SchedulerStepRemembered(b, s, StepTryAbort(b, s, w), w);
  }

  /** Worker w alone is responsible for transaction i. */
  ghost predicate SoleOwner(s: State, w: nat, i: nat) {
    && (forall x :: 0 <= x < |s.workers| && x != w ==> !Owns(s.workers[x], i))
    && (forall j: nat :: !Waits(s.sched, i, j))
  }

  lemma OwnerSole(s: State, w: nat, i: nat)
    requires AllAccounted(s) && !s.sched.aborted && w < |s.workers| && Owns(s.workers[w], i) && i < |s.sched.txs|
    ensures SoleOwner(s, w, i)
  {
    assert Executes(s.workers[w], i) || Aborts(s.workers[w], i);
  }

  lemma ConvertedWaits(b: Block, s: State, w: nat)
    requires WellFormed(b, s) && w < |s.workers| && s.workers[w].Converting? && s.workers[w].todo == {}
    requires LogOk(b, s) && InConversion(b, s, s.workers[w], s.workers[w].v.tx)
    ensures Waiting(b, StepSetReady(b, s, w), s.workers[w].v.tx)
  {
    PrefilledWritten(b, s, s.workers[w].v.tx);
  }

  lemma SetReadyOwed(b: Block, s: State, w: nat, k: nat)
    requires WellFormed(b, s) && w < |s.workers| && s.workers[w].Converting? && s.workers[w].todo == {}
    requires SoleOwner(s, w, s.workers[w].v.tx) && InConversion(b, s, s.workers[w], s.workers[w].v.tx)
    requires LogOk(b, s) && k < |b.txs| && PhasedAt(b, s, k)
    ensures Owed(b, s, StepSetReady(b, s, w), w, k)
  {
    var s' := StepSetReady(b, s, w);
    ConvertedWaits(b, s, w);
    if k != s.workers[w].v.tx {
      assert forall j: nat :: Waits(s'.sched, k, j) ==> Waits(s.sched, k, j);
      OwedElsewhere(b, s, s', w, k);
    }
  }

  lemma SetReadyRemembered(b: Block, s: State, w: nat)
    requires WellFormed(b, s) && w < |s.workers| && s.workers[w].Converting? && s.workers[w].todo == {}
    requires AllAccounted(s) && !s.sched.aborted && Remembered(b, s)
    ensures Remembered(b, StepSetReady(b, s, w))
  {
    var p := s.workers[w];
    assert Owns(p, p.v.tx) && PhasedAt(b, s, p.v.tx);
    OwnerSole(s, w, p.v.tx);
    forall k | 0 <= k < |b.txs| { SetReadyOwed(b, s, w, k); }
    SchedulerStepRemembered(b, s, StepSetReady(b, s, w), w);
  }

  /** The fee recipients are among the locations of every recorded write set. */
  lemma PrefilledWritten(b: Block, s: State, i: nat)
    requires WellFormed(b, s) && LogOk(b, s) && i < |b.txs| && Current(s, i) in s.hist.written
    ensures Prefilled(b, i) <= s.hist.written[Current(s, i)].Keys
  {
    var v := Current(s, i);
    assert AttemptOk(b, s.hist.written, v, s.hist.attempts[v]);
    RecipientsWritten(b, b.txs[i], s.hist.attempts[v].result);
  }
}
