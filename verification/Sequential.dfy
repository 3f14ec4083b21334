/** The specification: execute the block one transaction at a time, in order. */
module Sequential {
  import opened Types
  import opened Accounts
  import opened Blocks
  import opened Rewards

  /** Locations changed since the start of the block. */
  type World = map<Location, ReadValue>

  function Stored(cs: ChainState, l: Location): ReadValue {
    match l
    case AccountAt(a) => AccountValue(cs.Account(a))
    case CodeAt(a) => CodeValue(cs.Code(a))
    case SlotAt(a, k) => SlotValue(cs.Slot(a, k))
  }

  function View(cs: ChainState, w: World, l: Location): ReadValue {
    if l in w then w[l] else Stored(cs, l)
  }

  /** Run one transaction on a fixed state. None: it fails, or it reads a self-destructed account. */
  function Transact(cs: ChainState, w: World, tx: Tx, history: seq<ReadValue>): Option<TxResult>
    decreases tx.stepLimit - |history|
  {
    match tx.Next(history)
    case Read(l) =>
      if View(cs, w, l).DestroyedValue? then None
      else Transact(cs, w, tx, history + [View(cs, w, l)])
    case RawTransfer(_, _, _, _, _, _) => Transact(cs, w, tx, history + [NotLazy])
    case Finish(r) => Some(r)
    case Fail(_) => None
  }

  /** What a stored value makes of the value below it. */
  function Overlay(below: ReadValue, v: MemoryValue): ReadValue {
    match v
    case Basic(a) => AccountValue(Some(a))
    case CodeHash(c) => CodeValue(Some(c))
    case Storage(x) => SlotValue(x)
    case SelfDestructed => DestroyedValue
    case LazyRecipient(x) =>
      if below.AccountValue? then AccountValue(CreditAccount(below.account, x)) else below
    case LazySender(_) => below
  }

  function CommitWrites(cs: ChainState, w: World, ws: WriteSet): World {
    w + map l | l in ws :: Overlay(View(cs, w, l), ws[l])
  }

  function CommitRewards(cs: ChainState, w: World, rewards: seq<(Address, U256)>): World
    decreases |rewards|
  {
    if rewards == [] then w
    else
      var l := AccountAt(rewards[0].0);
      CommitRewards(cs, w[l := Overlay(View(cs, w, l), LazyRecipient(rewards[0].1))], rewards[1..])
  }

  function Commit(b: Block, w: World, tx: Tx, r: TxResult): World {
    CommitRewards(b.state, CommitWrites(b.state, w, r.writes), GetRewards(b, tx, r.gasUsed))
  }

  datatype Progress = Progress(world: World, results: seq<TxResult>)

  /** The first k transactions in order; None when one of them fails. */
  function Execute(b: Block, k: nat): Option<Progress>
    requires k <= |b.txs|
  {
    if k == 0 then Some(Progress(map[], []))
    else
      match Execute(b, k - 1)
      case None => None
      case Some(p) =>
        match Transact(b.state, p.world, b.txs[k - 1], [])
        case None => None
        case Some(r) => Some(Progress(Commit(b, p.world, b.txs[k - 1], r), p.results + [r]))
  }

  // ---- Merging rewards into the write set commits them ----

  function Applied(below: ReadValue, ws: WriteSet, l: Location): ReadValue {
    if l in ws then Overlay(below, ws[l]) else below
  }

  ghost predicate NoDebits(ws: WriteSet) {
    forall l :: l in ws ==> !ws[l].LazySender?
  }

  lemma {:induction false} MergedRewardsCommit(cs: ChainState, w0: World, w: World, ws: WriteSet,
                                               rewards: seq<(Address, U256)>)
    requires WellTyped(ws) && NoDebits(ws)
    requires forall a :: View(cs, w0, AccountAt(a)).AccountValue?
    requires forall l :: View(cs, w, l) == Applied(View(cs, w0, l), ws, l)
    ensures NoDebits(MergeRewards(ws, rewards))
    ensures forall l :: View(cs, CommitRewards(cs, w, rewards), l) ==
                        Applied(View(cs, w0, l), MergeRewards(ws, rewards), l)
    decreases |rewards|
  {
    if rewards != [] {
      var (a, x) := rewards[0];
      var l := AccountAt(a);
      var w' := w[l := Overlay(View(cs, w, l), LazyRecipient(x))];
      var ws' := MergeReward(ws, a, x);
      assert View(cs, w', l) == Applied(View(cs, w0, l), ws', l);
      forall k ensures View(cs, w', k) == Applied(View(cs, w0, k), ws', k) {
        if k != l { assert View(cs, w', k) == View(cs, w, k); }
      }
      MergedRewardsCommit(cs, w0, w', ws', rewards[1..]);
    }
  }

  ghost predicate AccountsTyped(cs: ChainState, w: World) {
    forall a :: View(cs, w, AccountAt(a)).AccountValue?
  }

  /** Recording the merged write set has the effect of committing the execution and then paying fees. */
  lemma FinalWritesCommit(b: Block, w: World, tx: Tx, r: ExplicitResult)
    requires AccountsTyped(b.state, w)
    ensures WellTyped(r.writes) && NoDebits(FinalWrites(b, tx, r))
    ensures forall l :: View(b.state, Commit(b, w, tx, r), l) ==
                        Applied(View(b.state, w, l), FinalWrites(b, tx, r), l)
    ensures AccountsTyped(b.state, Commit(b, w, tx, r))
  {
    var w' := CommitWrites(b.state, w, r.writes);
    forall l ensures View(b.state, w', l) == Applied(View(b.state, w, l), r.writes, l) {
    }
    MergedRewardsCommit(b.state, w, w', r.writes, GetRewards(b, tx, r.gasUsed));
    forall a ensures View(b.state, Commit(b, w, tx, r), AccountAt(a)).AccountValue? {
      assert View(b.state, w, AccountAt(a)).AccountValue?;
    }
  }

  // ---- Replaying a run from its read values ----

  /** The history was produced by reading the given values. */
  ghost predicate Replays(tx: Tx, vals: map<Location, ReadValue>, history: seq<ReadValue>) {
    forall m :: 0 <= m < |history| ==>
      match tx.Next(history[..m])
      case Read(l) => l in vals && vals[l] == history[m] && !history[m].DestroyedValue?
      case RawTransfer(_, _, _, _, _, _) => history[m] == NotLazy
      case Finish(_) => false
      case Fail(_) => false
  }

  lemma ReplaysExtend(tx: Tx, vals: map<Location, ReadValue>, vals': map<Location, ReadValue>,
                      history: seq<ReadValue>, v: ReadValue)
    requires Replays(tx, vals, history)
    requires forall l :: l in vals ==> l in vals' && vals'[l] == vals[l]
    requires match tx.Next(history)
             case Read(l) => l in vals' && vals'[l] == v && !v.DestroyedValue?
             case RawTransfer(_, _, _, _, _, _) => v == NotLazy
             case Finish(_) => false
             case Fail(_) => false
    ensures Replays(tx, vals', history + [v])
  {
    forall m | 0 <= m < |history| ensures (history + [v])[..m] == history[..m] {
    }
    assert (history + [v])[..|history|] == history;
  }

  /** A transaction that read the values of a state behaves as if run on that state. */
  lemma {:induction false} ReplayIsRun(cs: ChainState, w: World, tx: Tx, vals: map<Location, ReadValue>,
                                       history: seq<ReadValue>, m: nat)
    requires Replays(tx, vals, history) && m <= |history|
    requires forall l :: l in vals ==> vals[l] == View(cs, w, l)
    ensures Transact(cs, w, tx, history[..m]) == Transact(cs, w, tx, history)
    decreases |history| - m
  {
    if m < |history| {
      assert history[..m] + [history[m]] == history[..m + 1];
      ReplayIsRun(cs, w, tx, vals, history, m + 1);
    } else {
      assert history[..m] == history;
    }
  }
}
