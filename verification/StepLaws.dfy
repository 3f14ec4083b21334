/** When a step aborts the block, blocks, restarts or parks a transaction, or takes the lazy path, said of the
    entries and statuses it finds. */
module StepLaws {
  import opened Types
  import opened Reads
  import opened ReadLaws
  import opened Blocks
  import opened Machine

  /** What worker w is about to do. */
  function NextAction(b: Block, s: State, w: nat): Action
    requires WellFormed(b, s) && w < |s.workers| && s.workers[w].Running?
  {
    b.txs[s.workers[w].v.tx].Next(s.workers[w].history)
  }

  /** The read of k that worker w is about to make comes to a self-destructed account or a value of another kind. */
  ghost predicate MeetsUnusable(b: Block, s: State, w: nat, k: Location)
    requires WellFormed(b, s) && w < |s.workers| && s.workers[w].Running?
  {
    var (p, h) := (s.workers[w], At(s.mem.data, k));
    MeetsDestroyed(k, h, p.v.tx) || MeetsWrongKind(k, h, p.v.tx, PrevOrigins(p.rs, k))
  }

  ghost predicate AboutToAbort(b: Block, s: State, w: nat)
    requires WellFormed(b, s)
  {
    w < |s.workers| && s.workers[w].Running? &&
    match NextAction(b, s, w)
    case Fail(retriable) => !retriable || s.workers[w].v.tx == 0
    case Read(k) => MeetsUnusable(b, s, w, k)
    case _ => false
  }

  lemma OnlyRunningAborts(b: Block, s: State, w: nat, l: Location)
    requires WellFormed(b, s) && !s.sched.aborted && w < |s.workers| && !s.workers[w].Running?
    ensures !Step(b, s, w, l).sched.aborted
  {
  }

  lemma ReadAborts(b: Block, s: State, w: nat, k: Location)
    requires WellFormed(b, s) && !s.sched.aborted && w < |s.workers| && s.workers[w].Running?
    ensures StepRead(b, s, w, k).sched.aborted <==> MeetsUnusable(b, s, w, k)
  {
    var p := s.workers[w];
    FailsExactly(b.state, k, At(s.mem.data, k), p.v.tx, PrevOrigins(p.rs, k));
  }

  /** A step aborts the block if and only if its worker is executing and the transaction fails for good, or
      reads a self-destructed account or a value of another kind. */
  lemma AbortsExactly(b: Block, s: State, w: nat, l: Location)
    requires WellFormed(b, s) && !s.sched.aborted
    ensures Step(b, s, w, l).sched.aborted <==> AboutToAbort(b, s, w)
  {
    if w < |s.workers| {
      if s.workers[w].Running? {
        if NextAction(b, s, w).Read? { ReadAborts(b, s, w, NextAction(b, s, w).location); }
      } else {
        OnlyRunningAborts(b, s, w, l);
      }
    }
  }

  /** The read that worker w is about to make blocks on transaction `on`, or its failure waits for it. */
  ghost predicate AboutToBlock(b: Block, s: State, w: nat, on: nat)
    requires WellFormed(b, s) && w < |s.workers| && s.workers[w].Running?
  {
    var p := s.workers[w];
    match NextAction(b, s, w)
    case Read(k) => MeetsEstimate(k, At(s.mem.data, k), p.v.tx, PrevOrigins(p.rs, k), on)
    case Fail(retriable) => retriable && on + 1 == p.v.tx
    case _ => false
  }

  /** An execution waits for transaction `on` if and only if it reads its ESTIMATE, or fails on nonce or funds
      and `on` is the transaction before it. */
  lemma BlocksExactly(b: Block, s: State, w: nat, l: Location, on: nat)
    requires WellFormed(b, s) && w < |s.workers| && s.workers[w].Running?
    ensures Step(b, s, w, l).workers[w] == Blocked(s.workers[w].v, on) <==> AboutToBlock(b, s, w, on)
  {
    var p := s.workers[w];
    if NextAction(b, s, w).Read? {
      var k := NextAction(b, s, w).location;
      FailsExactly(b.state, k, At(s.mem.data, k), p.v.tx, PrevOrigins(p.rs, k));
    }
  }

  /** An execution starts over if and only if it reads a location again and meets something else. */
  lemma RestartsExactly(b: Block, s: State, w: nat, l: Location)
    requires WellFormed(b, s) && w < |s.workers| && s.workers[w].Running?
    ensures Step(b, s, w, l).workers[w] == ExecTask(s.workers[w].v) <==>
            && NextAction(b, s, w).Read?
            && var (p, k) := (s.workers[w], NextAction(b, s, w).location);
               MeetsOther(k, At(s.mem.data, k), p.v.tx, PrevOrigins(p.rs, k))
  {
    var p := s.workers[w];
    if NextAction(b, s, w).Read? {
      var k := NextAction(b, s, w).location;
      FailsExactly(b.state, k, At(s.mem.data, k), p.v.tx, PrevOrigins(p.rs, k));
    }
  }

  /** A transfer is evaluated lazily if and only if its sender or its recipient has entries. */
  lemma GoesLazyExactly(b: Block, s: State, w: nat, l: Location)
    requires WellFormed(b, s) && w < |s.workers| && s.workers[w].Running? && NextAction(b, s, w).RawTransfer?
    ensures var (p, a, q) := (s.workers[w], NextAction(b, s, w), Step(b, s, w, l).workers[w]);
            q == if {AccountAt(a.from), AccountAt(a.to)} !! s.mem.data.Keys then
                   Running(p.v, p.history + [NotLazy], p.rs)
                 else Transferring(p.v, p.history, p.rs)
  {
  }

  /** The lazy address set grows by the sender and the recipient of a transfer that is finished lazily, and by
      nothing else. */
  lemma ListsExactly(b: Block, s: State, w: nat, l: Location)
    requires WellFormed(b, s)
    ensures var before := s.lazyAddresses;
            if w < |s.workers| && s.workers[w].Transferring? then
              var a := b.txs[s.workers[w].v.tx].Next(s.workers[w].history);
              a.RawTransfer? && Step(b, s, w, l).lazyAddresses == before + {a.from, a.to}
            else Step(b, s, w, l).lazyAddresses == before
  {
  }

  /** A worker that waits parks its transaction under the other one if and only if that is still to be
      executed; otherwise it executes again at once. */
  lemma ParksExactly(b: Block, s: State, w: nat, l: Location)
    requires WellFormed(b, s) && w < |s.workers| && s.workers[w].Blocked?
    ensures var (i, on, s') := (s.workers[w].v.tx, s.workers[w].on, Step(b, s, w, l));
            if s.sched.Done(on) then s' == Move(s, w, ExecTask(s.workers[w].v))
            else
              && s'.workers == s.workers[w := Idle] && s'.mem == s.mem
              && s'.sched.txs == s.sched.txs[i := TxStatus(s.sched.txs[i].incarnation, Aborting)]
              && s'.sched.dependents == s.sched.dependents[on := s.sched.dependents[on] + [i]]
  {
  }

  /** A record removes where the transaction no longer writes before it inserts anything. */
  lemma RemovesFirst(b: Block, s: State, w: nat, l: Location)
    requires WellFormed(b, s) && w < |s.workers| && s.workers[w].Recording? && l in s.workers[w].todo
    ensures var (p, s') := (s.workers[w], Step(b, s, w, l));
            if l in p.ws && exists k :: k in p.todo && k !in p.ws then s' == s
            else s'.workers[w].Recording? && s'.workers[w].todo == p.todo - {l}
  {
  }

  // ---- Looking for a task ----

  /** A worker that has loaded the execution index leaves when both indices are past the block, and otherwise
      goes for an execution only when no transaction below that index is left to validate. */
  lemma ValidatesFirst(b: Block, s: State, w: nat, l: Location)
    requires WellFormed(b, s) && w < |s.workers| && s.workers[w].Loaded?
    ensures var (idx, q) := (s.workers[w].executionIdx, Step(b, s, w, l).workers[w]);
            && (q == Leaving <==> idx >= |b.txs| && s.sched.validationIdx >= |b.txs|)
            && (q == TakeExecution <==> idx <= s.sched.validationIdx && idx < |b.txs|)
            && (q == Leaving || q == TakeExecution || q == TakeValidation)
  {
  }

  /** What a worker does with the transaction it looks at: it executes a ready one, validates a done one, leaves
      an aborting one alone, and goes for an execution when the transaction is executing or there is none. */
  lemma InspectsExactly(b: Block, s: State, w: nat, l: Location)
    requires WellFormed(b, s) && w < |s.workers| && s.workers[w].ClaimedValidation?
    ensures var (i, s') := (s.workers[w].claim, Step(b, s, w, l));
            if i >= |b.txs| then s' == Move(s, w, TakeExecution)
            else
              var t := s.sched.txs[i];
              if t.status == ReadyToExecute then
                && s'.workers[w] == ExecTask(Version(i, t.incarnation))
                && s'.sched.txs == s.sched.txs[i := TxStatus(t.incarnation, Executing)]
              else
                s' == Move(s, w, if s.sched.Done(i) then ValTask(Version(i, t.incarnation))
                                 else if t.status == Aborting then Idle else TakeExecution)
  {
  }

  /** After an abort exactly the transactions above are validated again. */
  lemma AbortRevalidates(b: Block, s: State, w: nat, l: Location, i: nat)
    requires WellFormed(b, s) && w < |s.workers| && s.workers[w].Lowering? && i < s.sched.validationIdx
    ensures Step(b, s, w, l).sched.validationIdx <= i <==> s.workers[w].v.tx < i
  {
  }

  /** Once the block is aborted it stays so, and a worker about to start or look for a task leaves. */
  lemma AbortedLeaves(b: Block, s: State, w: nat, l: Location)
    requires WellFormed(b, s) && s.sched.aborted && w < |s.workers|
    ensures var (p, s') := (s.workers[w], Step(b, s, w, l));
            && s'.sched.aborted
            && (p.Idle? || p.ExecTask? || p.ValTask? ==> s'.workers[w] == Exited)
  {
  }
}
