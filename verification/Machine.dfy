/** Workers, scheduler and memory as one transition system. A step of a worker is one access to shared
    state: a load or an update of an index, a critical section under a transaction's status lock, or
    an operation on the entries of one location. Steps of different workers interleave freely. */
module Machine {
  import opened Types
  import opened Reads
  import opened Memory
  import opened Blocks
  import opened Rewards
  import opened Scheduling

  /** Where a worker is between two steps. */
  datatype Phase =
    // next_task
    | Idle                                     // at the loop test
    | Loaded(executionIdx: nat)                // has loaded execution_idx
    | Leaving                                  // found both indices past the block
    | TakeValidation                           // about to increment validation_idx
    | ClaimedValidation(claim: nat)            // has; about to inspect that status
    | TakeExecution                            // about to increment execution_idx
    | ClaimedExecution(claim: nat)             // has; about to try_execute
    | Exited
    // executing
    | ExecTask(v: Version)                                             // about to (re)start an attempt
    | Running(v: Version, history: seq<ReadValue>, rs: ReadSet)        // inside the EVM
    | Transferring(v: Version, history: seq<ReadValue>, rs: ReadSet)   // inside a lazy raw transfer
    | Blocked(v: Version, on: nat)                                     // about to add_dependency
    | Recording(v: Version, needValidation: bool, ws: WriteSet, todo: set<Location>, wroteNew: bool)
    // validating
    | ValTask(v: Version)
    | Validating(v: Version, rs: ReadSet, todo: set<Location>)
    | Failed(v: Version)                       // about to try_validation_abort
    | AbortLost(v: Version)
    // finishing a won abort
    | Converting(v: Version, todo: set<Location>)
    | Lowering(v: Version)                     // ready again; about to lower validation_idx
    | Rerunning(v: Version)                    // about to look whether execution_idx has passed

  predicate Polling(p: Phase) {
    p.Idle? || p.Loaded? || p.Leaving? || p.TakeValidation? || p.ClaimedValidation? || p.TakeExecution?
    || p.ClaimedExecution? || p.Exited?
  }

  predicate Tasked(p: Phase) { !Polling(p) }

  /** An execution that recorded its sets. */
  datatype Attempt = Attempt(rs: ReadSet, history: seq<ReadValue>, result: TxResult)

  /** History variables: no step reads them. */
  datatype History = History(
    written: Written,                    // the write set each version recorded
    attempts: map<Version, Attempt>,     // how each version came to it
    stored: seq<set<Location>>,           // where each transaction's entry is data
    marks: seq<set<Location>>,           // where it is an ESTIMATE
    dispatched: seq<Version>,            // every execution task handed out
    lazyTaken: bool,                     // some raw transfer was evaluated lazily
    lazyHits: nat)                       // finishes of lazy transactions inside the window

  datatype State = State(
    sched: Sched,
    mem: Mem,
    results: seq<Option<TxResult>>,
    lazyAddresses: set<Address>,
    workers: seq<Phase>,
    hist: History)

  ghost predicate WellFormed(b: Block, s: State) {
    var n := |b.txs|;
    && |s.sched.txs| == n && s.sched.Valid()
    && |s.mem.lastRead| == |s.mem.lastWrite| == |s.results| == |s.hist.stored| == |s.hist.marks| == n
    && forall w :: 0 <= w < |s.workers| && Tasked(s.workers[w]) ==>
         && s.workers[w].v.tx < n
         && (s.workers[w].Blocked? ==> s.workers[w].on < s.workers[w].v.tx)
         && (s.workers[w].Transferring? ==> b.txs[s.workers[w].v.tx].Next(s.workers[w].history).RawTransfer?)
         && (s.workers[w].Validating? ==> s.workers[w].todo <= s.workers[w].rs.Keys)
  }

  function Prefilled(b: Block, i: nat): set<Location>
    requires i < |b.txs|
  {
    set a | a in Recipients(b, b.txs[i]) :: AccountAt(a)
  }

  /** The expected writers of each location that build_mv_memory fills. */
  function Estimates(b: Block): map<Location, set<nat>> {
    if b.chain.Ethereum? then
      map[AccountAt(b.beneficiary) := set j | 0 <= j < |b.txs| && b.beneficiary in Recipients(b, b.txs[j])]
    else
      map i, a | 0 <= i < |b.txs| && a in Recipients(b, b.txs[i]) ::
        AccountAt(a) := (set j | 0 <= j < |b.txs| && a in Recipients(b, b.txs[j]))
  }

  /** The accounts whose end-of-block evaluation build_mv_memory asks for. */
  function FeeAddresses(b: Block): set<Address> {
    match b.chain
    case Ethereum => {b.beneficiary}
    case Rise(baseFee, l1Fee, operatorFee) => {b.beneficiary, baseFee, l1Fee, operatorFee}
  }

  function Init(b: Block, workers: nat): (s: State)
    ensures WellFormed(b, s)
  {
    var n := |b.txs|;
    State(Scheduling.Initial(n), Memory.Initial(n, Estimates(b)), seq(n, _ => None), FeeAddresses(b),
          seq(workers, _ => Idle),
          History(map[], map[], seq(n, _ => {}), seq(n, i requires 0 <= i < n => Prefilled(b, i)), [], false, 0))
  }

  function Move(s: State, w: nat, p: Phase): State
    requires w < |s.workers|
  {
    s.(workers := s.workers[w := p])
  }

  function Dispatch(s: State, w: nat, v: Version): State
    requires w < |s.workers|
  {
    Move(s, w, ExecTask(v)).(hist := s.hist.(dispatched := s.hist.dispatched + [v]))
  }

  function Abort(s: State, w: nat): State
    requires w < |s.workers|
  {
    Move(s, w, Exited).(sched := s.sched.(aborted := true))
  }

  // ---- Polling for a task ----

  function StepPolling(b: Block, s: State, w: nat): (s': State)
    requires WellFormed(b, s) && w < |s.workers| && Polling(s.workers[w])
    ensures WellFormed(b, s')
  {
    var n := |b.txs|;
    match s.workers[w]
    case Idle => Move(s, w, if s.sched.aborted then Exited else Loaded(s.sched.executionIdx))
    case Loaded(executionIdx) =>
      Move(s, w, if executionIdx >= n && s.sched.validationIdx >= n then Leaving
                 else if s.sched.validationIdx < executionIdx then TakeValidation
                 else TakeExecution)
    case Leaving => Move(s, w, if MayLeave(s.sched) then Exited else Idle)
    case TakeValidation =>
      Move(s, w, ClaimedValidation(s.sched.validationIdx)).(
        sched := s.sched.(validationIdx := s.sched.validationIdx + 1))
    case ClaimedValidation(i) =>
      var (sched, found) := Inspect(s.sched, i);
      (match found
       case Steal(v) => Dispatch(s.(sched := sched), w, v)
       case Validate(v) => Move(s, w, ValTask(v))
       case Skip => Move(s, w, Idle)
       case FallBack => Move(s, w, TakeExecution))
    case TakeExecution =>
      Move(s, w, ClaimedExecution(s.sched.executionIdx)).(
        sched := s.sched.(executionIdx := s.sched.executionIdx + 1))
    case ClaimedExecution(i) =>
      var (sched, v) := TryExecute(s.sched, i);
      if v.Some? then Dispatch(s.(sched := sched), w, v.value) else Move(s, w, Idle)
    case Exited => s
  }

  // ---- Executing ----

  function PrevOrigins(rs: ReadSet, l: Location): seq<Origin> {
    if l in rs then rs[l] else []
  }

  lemma {:induction false} WalkBelow(l: Location, h: Entries, i: nat)
    ensures Walk(l, h, i).Estimated? ==> Walk(l, h, i).on < i
    decreases i
  {
    if i > 0 { WalkBelow(l, h, i - 1); }
  }

  lemma BlockingBelow(cs: ChainState, l: Location, h: Entries, i: nat, prev: seq<Origin>)
    ensures ReadLocation(cs, l, h, i, prev).Blocking? ==> ReadLocation(cs, l, h, i, prev).on < i
  {
    WalkBelow(l, h, i);
  }

  function StepRead(b: Block, s: State, w: nat, l: Location): (s': State)
    requires WellFormed(b, s) && w < |s.workers| && s.workers[w].Running?
    ensures WellFormed(b, s')
  {
    var p := s.workers[w];
    match ReadLocation(b.state, l, At(s.mem.data, l), p.v.tx, PrevOrigins(p.rs, l))
    case Ok(origins, value) => Move(s, w, Running(p.v, p.history + [value], p.rs[l := origins]))
    case Inconsistent => Move(s, w, ExecTask(p.v))
    case Blocking(on) =>
      BlockingBelow(b.state, l, At(s.mem.data, l), p.v.tx, PrevOrigins(p.rs, l));
      Move(s, w, Blocked(p.v, on))
    case Fallback => Abort(s, w)
    case BadType => Abort(s, w)
  }

  function TransferAddresses(a: Action): set<Address> {
    if a.RawTransfer? then {a.from, a.to} else {}
  }

  /** The start of record: the read set is replaced, every location is still to do. The addresses of a lazy
      transfer are put down for evaluation at the end of the block. */
  function StepFinish(b: Block, s: State, w: nat, result: TxResult, lazy: bool): (s': State)
    requires WellFormed(b, s) && w < |s.workers|
    requires s.workers[w].Running? || s.workers[w].Transferring?
    requires WellTyped(result.writes)
    ensures WellFormed(b, s')
  {
    var p := s.workers[w];
    var ws := FinalWrites(b, b.txs[p.v.tx], result);
    Move(s, w, Recording(p.v, p.v.tx > 0 && !lazy, ws, s.mem.lastWrite[p.v.tx] + ws.Keys, false)).(
      mem := s.mem.(lastRead := s.mem.lastRead[p.v.tx := p.rs]),
      results := s.results[p.v.tx := Some(result)],
      lazyAddresses := s.lazyAddresses + if lazy then TransferAddresses(b.txs[p.v.tx].Next(p.history)) else {},
      hist := s.hist.(
        written := s.hist.written[p.v := ws],
        attempts := s.hist.attempts[p.v := Attempt(p.rs, p.history, result)]))
  }

  /** One action of the EVM. */
  function StepRunning(b: Block, s: State, w: nat): (s': State)
    requires WellFormed(b, s) && w < |s.workers| && s.workers[w].Running?
    ensures WellFormed(b, s')
  {
    var p := s.workers[w];
    match b.txs[p.v.tx].Next(p.history)
    case Read(l) => StepRead(b, s, w, l)
    case RawTransfer(from, to, _, _, _, _) =>
      if AccountAt(from) in s.mem.data || AccountAt(to) in s.mem.data then
        Move(s, w, Transferring(p.v, p.history, p.rs)).(hist := s.hist.(lazyTaken := true))
      else Move(s, w, Running(p.v, p.history + [NotLazy], p.rs))
    case Finish(result) => StepFinish(b, s, w, result, false)
    case Fail(retriable) =>
      if retriable && p.v.tx > 0 then Move(s, w, Blocked(p.v, p.v.tx - 1)) else Abort(s, w)
  }

  function StepTransferring(b: Block, s: State, w: nat): (s': State)
    requires WellFormed(b, s) && w < |s.workers| && s.workers[w].Transferring?
    ensures WellFormed(b, s')
  {
    var p := s.workers[w];
    StepFinish(b, s, w, LazyResult(b.txs[p.v.tx].Next(p.history)), true)
  }

  function StepBlocked(b: Block, s: State, w: nat): (s': State)
    requires WellFormed(b, s) && w < |s.workers| && s.workers[w].Blocked?
    ensures WellFormed(b, s')
  {
    var p := s.workers[w];
    var (sched, added) := AddDependency(s.sched, p.v.tx, p.on);
    Move(s.(sched := sched), w, if added then Idle else ExecTask(p.v))
  }

  /** Locations no longer written are removed first; then the new entries are inserted. */
  predicate MayRecord(p: Phase, l: Location)
    requires p.Recording?
  {
    l in p.todo && (l in p.ws ==> p.todo <= p.ws.Keys)
  }

  function StepRecordOne(b: Block, s: State, w: nat, l: Location): (s': State)
    requires WellFormed(b, s) && w < |s.workers| && s.workers[w].Recording? && MayRecord(s.workers[w], l)
    ensures WellFormed(b, s')
  {
    var p := s.workers[w];
    var i := p.v.tx;
    if l in p.ws then
      Move(s, w, Recording(p.v, p.needValidation, p.ws, p.todo - {l}, p.wroteNew || l !in s.mem.lastWrite[i])).(
        mem := s.mem.(data := PutEntry(s.mem.data, l, i, Data(p.v.incarnation, p.ws[l])),
                      lastWrite := s.mem.lastWrite[i := s.mem.lastWrite[i] + {l}]),
        hist := s.hist.(stored := s.hist.stored[i := s.hist.stored[i] + {l}],
                        marks := s.hist.marks[i := s.hist.marks[i] - {l}]))
    else
      Move(s, w, Recording(p.v, p.needValidation, p.ws, p.todo - {l}, p.wroteNew)).(
        mem := s.mem.(data := DropEntry(s.mem.data, l, i),
                      lastWrite := s.mem.lastWrite[i := s.mem.lastWrite[i] - {l}]),
        hist := s.hist.(marks := s.hist.marks[i := s.hist.marks[i] - {l}]))
  }

  function StepFinishExecution(b: Block, s: State, w: nat): (s': State)
    requires WellFormed(b, s) && w < |s.workers| && s.workers[w].Recording?
    ensures WellFormed(b, s')
  {
    var p := s.workers[w];
    var (sched, task) := FinishExecution(s.sched, p.v, p.needValidation, p.wroteNew);
    Move(s, w, if task.Some? then ValTask(p.v) else Idle).(
      sched := sched,
      hist := s.hist.(lazyHits := s.hist.lazyHits +
                                  if !p.needValidation && InWindow(s.sched, p.v.tx, false) then 1 else 0))
  }

  // ---- Validating ----

  function StepValidateOne(b: Block, s: State, w: nat, l: Location): (s': State)
    requires WellFormed(b, s) && w < |s.workers| && s.workers[w].Validating? && l in s.workers[w].todo
    ensures WellFormed(b, s')
  {
    var p := s.workers[w];
    Move(s, w, if ValidAt(s.mem.data, l, p.v.tx, p.rs[l]) then Validating(p.v, p.rs, p.todo - {l}) else Failed(p.v))
  }

  function StepConfirm(b: Block, s: State, w: nat): (s': State)
    requires WellFormed(b, s) && w < |s.workers| && Tasked(s.workers[w])
    ensures WellFormed(b, s')
  {
    Move(s, w, Idle).(sched := ConfirmValidation(s.sched, s.workers[w].v.tx))
  }

  function StepTryAbort(b: Block, s: State, w: nat): (s': State)
    requires WellFormed(b, s) && w < |s.workers| && s.workers[w].Failed?
    ensures WellFormed(b, s')
  {
    var v := s.workers[w].v;
    var (sched, won) := TryValidationAbort(s.sched, v.tx);
    Move(s.(sched := sched), w, if won then Converting(v, s.mem.lastWrite[v.tx]) else AbortLost(v))
  }

  function StepConvertOne(b: Block, s: State, w: nat, l: Location): (s': State)
    requires WellFormed(b, s) && w < |s.workers| && s.workers[w].Converting? && l in s.workers[w].todo
    ensures WellFormed(b, s')
  {
    var p := s.workers[w];
    var i := p.v.tx;
    Move(s, w, Converting(p.v, p.todo - {l})).(
      mem := s.mem.(data := MarkEntry(s.mem.data, l, i)),
      hist := s.hist.(stored := s.hist.stored[i := s.hist.stored[i] - {l}],
                      marks := s.hist.marks[i := s.hist.marks[i] + {l}]))
  }

  function StepSetReady(b: Block, s: State, w: nat): (s': State)
    requires WellFormed(b, s) && w < |s.workers| && s.workers[w].Converting?
    ensures WellFormed(b, s')
  {
    var v := s.workers[w].v;
    Move(s, w, Lowering(v)).(sched := SetReady(s.sched, v.tx))
  }

  function StepLower(b: Block, s: State, w: nat): (s': State)
    requires WellFormed(b, s) && w < |s.workers| && s.workers[w].Lowering?
    ensures WellFormed(b, s')
  {
    var v := s.workers[w].v;
    Move(s, w, Rerunning(v)).(sched := s.sched.(validationIdx := Min(s.sched.validationIdx, v.tx + 1)))
  }

  function StepRerun(b: Block, s: State, w: nat): (s': State)
    requires WellFormed(b, s) && w < |s.workers| && s.workers[w].Rerunning?
    ensures WellFormed(b, s')
  {
    var v := s.workers[w].v;
    Move(s, w, if s.sched.executionIdx > v.tx then ClaimedExecution(v.tx) else Idle)
  }

  // ---- Steps and runs ----

  /** The next step of worker w. Where it works through a set of locations, l is the one it takes; a
      location it cannot take is a step that does nothing. A worker that notices the abort before
      starting a task drops it and leaves. */
  function Step(b: Block, s: State, w: nat, l: Location): (s': State)
    requires WellFormed(b, s)
    ensures WellFormed(b, s') && |s'.workers| == |s.workers|
  {
    if w >= |s.workers| then s
    else if Polling(s.workers[w]) then StepPolling(b, s, w)
    else
      var p := s.workers[w];
      match p
      case ExecTask(v) => if s.sched.aborted then Move(s, w, Exited) else Move(s, w, Running(v, [], map[]))
      case Running(_, _, _) => StepRunning(b, s, w)
      case Transferring(_, _, _) => StepTransferring(b, s, w)
      case Blocked(_, _) => StepBlocked(b, s, w)
      case Recording(_, _, _, todo, _) =>
        if todo == {} then StepFinishExecution(b, s, w)
        else if MayRecord(p, l) then StepRecordOne(b, s, w, l)
        else s
      case ValTask(v) =>
        if s.sched.aborted then Move(s, w, Exited)
        else Move(s, w, Validating(v, s.mem.lastRead[v.tx], s.mem.lastRead[v.tx].Keys))
      case Validating(_, _, todo) =>
        if todo == {} then StepConfirm(b, s, w)
        else if l in todo then StepValidateOne(b, s, w, l)
        else s
      case Failed(_) => StepTryAbort(b, s, w)
      case AbortLost(_) => StepConfirm(b, s, w)
      case Converting(_, todo) =>
        if todo == {} then StepSetReady(b, s, w)
        else if l in todo then StepConvertOne(b, s, w, l)
        else s
      case Lowering(_) => StepLower(b, s, w)
      case Rerunning(_) => StepRerun(b, s, w)
  }

  /** Who takes each step, and at which location. */
  type Schedule = seq<(nat, Location)>

  /** The state after a schedule. */
  function Run(b: Block, workers: nat, schedule: Schedule): (s: State)
    ensures WellFormed(b, s) && |s.workers| == workers
  {
    if schedule == [] then Init(b, workers)
    else
      var last := schedule[|schedule| - 1];
      Step(b, Run(b, workers, schedule[..|schedule| - 1]), last.0, last.1)
  }
}
