/** A worker that is not interrupted: its steps add up to the whole operations, whatever order it takes
    the locations in. */
module Atomicity {
  import opened Types
  import opened Reads
  import opened Memory
  import opened Blocks
  import opened Scheduling
  import opened Machine

  /** Worker w takes m steps and nobody else any. */
  function Alone(b: Block, s: State, w: nat, l: Location, m: nat): (s': State)
    requires WellFormed(b, s)
    ensures WellFormed(b, s') && |s'.workers| == |s.workers|
    decreases m
  {
    if m == 0 then s else Alone(b, Step(b, s, w, l), w, l, m - 1)
  }

  lemma {:induction false} AloneAdds(b: Block, s: State, w: nat, l: Location, m: nat, n: nat)
    requires WellFormed(b, s)
    ensures Alone(b, Alone(b, s, w, l, m), w, l, n) == Alone(b, s, w, l, m + n)
    decreases m
  {
    if m > 0 {
      var s1 := Step(b, s, w, l);
      AloneAdds(b, s1, w, l, m - 1, n);
      assert Alone(b, s, w, l, m) == Alone(b, s1, w, l, m - 1);
      assert Alone(b, s, w, l, m + n) == Alone(b, s1, w, l, m - 1 + n);
    }
  }

  // ---- next_task ----

  function AfterPoll(poll: Poll): Phase {
    match poll
    case Leave => Exited
    case Again => Idle
    case Got(Execution(v)) => ExecTask(v)
    case Got(Validation(v)) => ValTask(v)
  }

  /** Only the scheduler and the phase of worker w changed. */
  ghost predicate Became(s: State, s': State, w: nat, sched: Sched, p: Phase)
    requires w < |s.workers|
  {
    s'.sched == sched && s'.workers == s.workers[w := p] && s'.mem == s.mem && s'.results == s.results
  }

  lemma PollExecutionAlone(b: Block, s: State, w: nat, l: Location)
    requires WellFormed(b, s) && w < |s.workers| && s.workers[w].TakeExecution?
    ensures var (sched, poll) := PollExecution(s.sched);
            Became(s, Alone(b, s, w, l, 2), w, sched, AfterPoll(poll))
  {
    var s1 := Step(b, s, w, l);
    assert s1.workers[w] == ClaimedExecution(s.sched.executionIdx);
    assert s1.sched == s.sched.(executionIdx := s.sched.executionIdx + 1);
    assert Alone(b, s, w, l, 2) == Alone(b, s1, w, l, 1) == Step(b, s1, w, l);
  }

  function AfterInspect(found: Finding): Phase {
    match found
    case Steal(v) => ExecTask(v)
    case Validate(v) => ValTask(v)
    case Skip => Idle
    case FallBack => TakeExecution
  }

  lemma InspectClaim(b: Block, s: State, w: nat, l: Location)
    requires WellFormed(b, s) && w < |s.workers| && s.workers[w].ClaimedValidation?
    ensures var (sched, found) := Inspect(s.sched, s.workers[w].claim);
            Became(s, Step(b, s, w, l), w, sched, AfterInspect(found))
  {
  }

  lemma InspectAlone(b: Block, s: State, w: nat, l: Location)
    requires WellFormed(b, s) && w < |s.workers| && s.workers[w].TakeValidation?
    ensures var (sched, found) := Inspect(s.sched.(validationIdx := s.sched.validationIdx + 1), s.sched.validationIdx);
            Became(s, Alone(b, s, w, l, 2), w, sched, AfterInspect(found))
  {
    var s1 := Step(b, s, w, l);
    InspectClaim(b, s1, w, l);
    assert Alone(b, s, w, l, 2) == Alone(b, s1, w, l, 1) == Step(b, s1, w, l);
  }

  lemma LoadAlone(b: Block, s: State, w: nat, l: Location)
    requires WellFormed(b, s) && w < |s.workers| && s.workers[w].Idle? && !s.sched.aborted
    ensures Became(s, Alone(b, s, w, l, 2), w, s.sched,
                   if s.sched.executionIdx >= |b.txs| && s.sched.validationIdx >= |b.txs| then Leaving
                   else if s.sched.validationIdx < s.sched.executionIdx then TakeValidation
                   else TakeExecution)
  {
    var s1 := Step(b, s, w, l);
    assert s1 == Move(s, w, Loaded(s.sched.executionIdx));
    assert Alone(b, s, w, l, 2) == Alone(b, s1, w, l, 1) == Step(b, s1, w, l);
  }

  /** The steps an uninterrupted iteration of next_task takes. */
  function PollLength(sched: Sched): nat {
    if sched.aborted then 1
    else if sched.executionIdx >= |sched.txs| && sched.validationIdx >= |sched.txs| then 3
    else if sched.validationIdx < sched.executionIdx &&
            Inspect(sched.(validationIdx := sched.validationIdx + 1), sched.validationIdx).1.FallBack? then 6
    else 4
  }

  lemma FallBackAlone(b: Block, s: State, w: nat, l: Location)
    requires WellFormed(b, s) && w < |s.workers| && s.workers[w].TakeValidation? && !s.sched.aborted
    requires s.sched.validationIdx < s.sched.executionIdx && PollLength(s.sched) == 6
    ensures var (sched, poll) := NextTask(s.sched);
            Became(s, Alone(b, s, w, l, 4), w, sched, AfterPoll(poll))
  {
    InspectAlone(b, s, w, l);
    PollExecutionAlone(b, Alone(b, s, w, l, 2), w, l);
    AloneAdds(b, s, w, l, 2, 2);
  }

  lemma StealingAlone(b: Block, s: State, w: nat, l: Location)
    requires WellFormed(b, s) && w < |s.workers| && s.workers[w].TakeValidation? && !s.sched.aborted
    requires s.sched.validationIdx < s.sched.executionIdx
    requires s.sched.executionIdx < |b.txs| || s.sched.validationIdx < |b.txs|
    ensures var (sched, poll) := NextTask(s.sched);
            Became(s, Alone(b, s, w, l, PollLength(s.sched) - 2), w, sched, AfterPoll(poll))
  {
    if PollLength(s.sched) == 6 { FallBackAlone(b, s, w, l); } else { InspectAlone(b, s, w, l); }
  }

  /** An uninterrupted iteration of next_task does what NextTask says. */
  lemma PollAlone(b: Block, s: State, w: nat, l: Location)
    requires WellFormed(b, s) && w < |s.workers| && s.workers[w].Idle?
    ensures var (sched, poll) := NextTask(s.sched);
            Became(s, Alone(b, s, w, l, PollLength(s.sched)), w, sched, AfterPoll(poll))
  {
    if s.sched.aborted {
      assert Alone(b, s, w, l, 1) == Step(b, s, w, l);
    } else {
      var s2 := Alone(b, s, w, l, 2);
      LoadAlone(b, s, w, l);
      AloneAdds(b, s, w, l, 2, PollLength(s.sched) - 2);
      if s2.workers[w].Leaving? {
        assert Alone(b, s2, w, l, 1) == Step(b, s2, w, l);
      } else if s2.workers[w].TakeExecution? {
        PollExecutionAlone(b, s2, w, l);
      } else {
        StealingAlone(b, s2, w, l);
      }
    }
  }

  // ---- finish_validation ----

  /** Resuming an aborted transaction: three steps, or four when its execution is taken over. */
  lemma FinishValidationAlone(b: Block, s: State, w: nat, l: Location)
    requires WellFormed(b, s) && w < |s.workers| && s.workers[w].Converting? && s.workers[w].todo == {}
    ensures var i := s.workers[w].v.tx;
            var (sched, next) := FinishValidation(s.sched, i, true);
            Became(s, Alone(b, s, w, l, if s.sched.executionIdx > i then 4 else 3), w, sched,
                   if next.Some? then ExecTask(next.value) else Idle)
  {
    var i := s.workers[w].v.tx;
    var s1 := Step(b, s, w, l);
    var s2 := Step(b, s1, w, l);
    var s3 := Step(b, s2, w, l);
    assert Alone(b, s, w, l, 3) == Alone(b, s1, w, l, 2) == Alone(b, s2, w, l, 1) == s3;
    if s.sched.executionIdx > i {
      AloneAdds(b, s, w, l, 3, 1);
      assert Alone(b, s3, w, l, 1) == Step(b, s3, w, l);
    }
  }

  // ---- record ----

  /** What recording version p.v into m has come to when the locations of `done` are done. */
  ghost predicate RecordedAt(m: Mem, m': Mem, p: Phase, done: set<Location>)
    requires p.Recording? && p.v.tx < |m.lastWrite|
  {
    var (i, before) := (p.v.tx, m.lastWrite[p.v.tx]);
    && done <= before + p.ws.Keys
    && m'.lastWrite == m.lastWrite[i := (before - (done - p.ws.Keys)) + done * p.ws.Keys]
    && m'.data.Keys == m.data.Keys + done * p.ws.Keys
    && (forall l :: l in m'.data ==>
          m'.data[l] == if l !in done then m.data[l]
                        else if l in p.ws then At(m.data, l)[i := Data(p.v.incarnation, p.ws[l])]
                        else m.data[l] - {i})
    && (p.wroteNew <==> !(done * p.ws.Keys <= before))
  }

  /** Worker w is recording, alone since the memory was m. */
  ghost predicate RecordingSince(m: Mem, s: State, w: nat) {
    && w < |s.workers| && s.workers[w].Recording?
    && var p := s.workers[w];
       && p.v.tx < |m.lastRead| == |m.lastWrite|
       && |s.mem.lastRead| == |m.lastRead|
       && s.mem.lastRead == m.lastRead[p.v.tx := s.mem.lastRead[p.v.tx]]
       && p.todo <= m.lastWrite[p.v.tx] + p.ws.Keys
       && RecordedAt(m, s.mem, p, m.lastWrite[p.v.tx] + p.ws.Keys - p.todo)
  }

  lemma RecordStarts(b: Block, s: State, w: nat, result: TxResult, lazy: bool)
    requires WellFormed(b, s) && w < |s.workers| && (s.workers[w].Running? || s.workers[w].Transferring?)
    requires WellTyped(result.writes)
    ensures RecordingSince(s.mem, StepFinish(b, s, w, result, lazy), w)
  {
    var s' := StepFinish(b, s, w, result, lazy);
    var p := s'.workers[w];
    assert s.mem.lastWrite[p.v.tx] + p.ws.Keys - p.todo == {};
    assert s.mem.lastWrite[p.v.tx] - ({} - p.ws.Keys) + {} * p.ws.Keys == s.mem.lastWrite[p.v.tx];
  }

  lemma RecordGoesOn(b: Block, s: State, w: nat, l: Location, m: Mem)
    requires WellFormed(b, s) && RecordingSince(m, s, w) && MayRecord(s.workers[w], l)
    ensures RecordingSince(m, StepRecordOne(b, s, w, l), w)
  {
    var (p, s') := (s.workers[w], StepRecordOne(b, s, w, l));
    var all := m.lastWrite[p.v.tx] + p.ws.Keys;
    assert all - (p.todo - {l}) == all - p.todo + {l};
    RecordNext(m, s.mem, s'.mem, p, s'.workers[w], all - p.todo, l);
  }

  lemma RecordNext(m: Mem, m1: Mem, m2: Mem, p: Phase, q: Phase, done: set<Location>, l: Location)
    requires p.Recording? && q.Recording? && q.v == p.v && q.ws == p.ws && p.v.tx < |m.lastWrite|
    requires RecordedAt(m, m1, p, done) && l !in done && l in m.lastWrite[p.v.tx] + p.ws.Keys
    requires if l in p.ws then
               && m2.data == PutEntry(m1.data, l, p.v.tx, Data(p.v.incarnation, p.ws[l]))
               && m2.lastWrite == m1.lastWrite[p.v.tx := m1.lastWrite[p.v.tx] + {l}]
               && q.wroteNew == (p.wroteNew || l !in m1.lastWrite[p.v.tx])
             else
               && m2.data == DropEntry(m1.data, l, p.v.tx)
               && m2.lastWrite == m1.lastWrite[p.v.tx := m1.lastWrite[p.v.tx] - {l}]
               && q.wroteNew == p.wroteNew
    ensures RecordedAt(m, m2, q, done + {l})
  {
    var (i, before) := (p.v.tx, m.lastWrite[p.v.tx]);
    assert m1.lastWrite[i] == (before - (done - p.ws.Keys)) + done * p.ws.Keys;
    assert m2.lastWrite[i] == (before - (done + {l} - p.ws.Keys)) + (done + {l}) * p.ws.Keys;
    assert (done + {l}) * p.ws.Keys == done * p.ws.Keys + {l} * p.ws.Keys;
  }

  /** The steps of record, in any order, add up to Record and report whether a location is new. */
  lemma RecordEnds(b: Block, s: State, w: nat, m: Mem)
    requires WellFormed(b, s) && RecordingSince(m, s, w) && s.workers[w].todo == {}
    ensures var p := s.workers[w];
            && s.mem == Record(m, p.v, s.mem.lastRead[p.v.tx], p.ws)
            && (p.wroteNew <==> exists l :: l in p.ws && l !in m.lastWrite[p.v.tx])
  {
    var p := s.workers[w];
    var before := m.lastWrite[p.v.tx];
    var done := before + p.ws.Keys;
    assert before + p.ws.Keys - p.todo == done;
    assert done * p.ws.Keys == p.ws.Keys && (before - (done - p.ws.Keys)) + p.ws.Keys == p.ws.Keys;
    assert s.mem.lastWrite == m.lastWrite[p.v.tx := p.ws.Keys];
    assert s.mem.data == Rewritten(m.data, p.v, before, p.ws);
  }

  // ---- convert_writes_to_estimates ----

  /** Worker w is converting, alone since the memory was m. */
  ghost predicate ConvertingSince(m: Mem, s: State, w: nat) {
    && w < |s.workers| && s.workers[w].Converting?
    && var p := s.workers[w];
       && p.v.tx < |m.lastWrite| && p.todo <= m.lastWrite[p.v.tx]
       && s.mem == m.(data := s.mem.data) && s.mem.data.Keys == m.data.Keys
       && forall l :: l in m.data ==>
            s.mem.data[l] == if l in m.lastWrite[p.v.tx] - p.todo then m.data[l][p.v.tx := Estimate] else m.data[l]
  }

  lemma ConvertSteps(b: Block, s: State, w: nat, l: Location, m: Mem)
    requires WellFormed(b, s) && w < |s.workers|
    ensures s.workers[w].Failed? && s.sched.Done(s.workers[w].v.tx) ==> ConvertingSince(s.mem, StepTryAbort(b, s, w), w)
    ensures s.workers[w].Converting? && l in s.workers[w].todo && ConvertingSince(m, s, w) ==>
              ConvertingSince(m, StepConvertOne(b, s, w, l), w)
    ensures s.workers[w].Converting? && s.workers[w].todo == {} && ConvertingSince(m, s, w) ==>
              s.mem == ConvertWritesToEstimates(m, s.workers[w].v.tx)
  {
    if s.workers[w].Converting? && s.workers[w].todo == {} && ConvertingSince(m, s, w) {
      assert s.mem.data == ConvertWritesToEstimates(m, s.workers[w].v.tx).data;
    }
  }
}
