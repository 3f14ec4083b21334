/** Serializability of runs with lazy transfers, for blocks whose plain transfers are well behaved. */
module Transfers {
  import opened Types
  import opened Accounts
  import opened Reads
  import opened Memory
  import opened Blocks
  import opened Rewards
  import opened Fees
  import opened Sequential
  import opened Machine
  import opened SchedulerLaws
  import opened MemoryLaws
  import opened StaleReads
  import opened Invariants
  import opened Serializability
  import opened Evaluation

  // ---- Merged rewards, value by value ----

  /** What merging leaves at an account when nothing saturates. */
  lemma {:induction false} MergedValue(ws: WriteSet, rewards: seq<(Address, U256)>, a: Address)
    requires WellTyped(ws)
    ensures var (l, total, r) := (AccountAt(a), RewardTo(rewards, a), MergeRewards(ws, rewards));
            && (l in ws && ws[l].LazySender? && total <= ws[l].subtraction ==>
                  l in r && r[l] == LazySender(ws[l].subtraction - total))
            && (l in ws && ws[l].LazyRecipient? && ws[l].addition + total <= U256_MAX ==>
                  l in r && r[l] == LazyRecipient(ws[l].addition + total))
            && (l !in ws && l in r && total <= U256_MAX ==> r[l] == LazyRecipient(total))
            && (l in ws ==> l in r) && (l !in r ==> total == 0)
            && (l in ws && ws[l].Basic? ==> r[l].Basic?)
    decreases |rewards|
  {
    if rewards != [] { MergedValue(MergeReward(ws, rewards[0].0, rewards[0].1), rewards[1..], a); }
  }

  // ---- Rewards paid in order ----

  lemma CreditTwice(account: Option<AccountBasic>, x: U256, y: U256)
    requires Balance(account) + x + y <= U256_MAX
    ensures CreditAccount(CreditAccount(account, x), y) == CreditAccount(account, x + y)
  {
  }

  lemma {:induction false} RewardsPaid(cs: ChainState, w: World, rewards: seq<(Address, U256)>, a: Address)
    requires AccountsTyped(cs, w)
    requires Balance(View(cs, w, AccountAt(a)).account) + RewardTo(rewards, a) <= U256_MAX
    ensures View(cs, CommitRewards(cs, w, rewards), AccountAt(a)) ==
            AccountValue(CreditAccount(View(cs, w, AccountAt(a)).account, RewardTo(rewards, a)))
    decreases |rewards|
  {
    if rewards != [] {
      var (c, x) := rewards[0];
      var w' := w[AccountAt(c) := Overlay(View(cs, w, AccountAt(c)), LazyRecipient(x))];
      assert View(cs, w, AccountAt(c)).AccountValue?;
      forall d ensures View(cs, w', AccountAt(d)).AccountValue? { assert View(cs, w, AccountAt(d)).AccountValue?; }
      RewardsPaid(cs, w', rewards[1..], a);
      if c == a { CreditTwice(View(cs, w, AccountAt(a)).account, x, RewardTo(rewards[1..], a)); }
    }
  }

  lemma {:induction false} RewardsElsewhere(cs: ChainState, w: World, rewards: seq<(Address, U256)>, l: Location)
    requires !l.AccountAt?
    ensures View(cs, CommitRewards(cs, w, rewards), l) == View(cs, w, l)
    decreases |rewards|
  {
    if rewards != [] {
      var (c, x) := rewards[0];
      RewardsElsewhere(cs, w[AccountAt(c) := Overlay(View(cs, w, AccountAt(c)), LazyRecipient(x))], rewards[1..], l);
    }
  }

  // ---- Well-behaved transfers ----

  /** The transfer a transaction makes after finding no code at its recipient. */
  function Transfer(tx: Tx): Action {
    tx.Next([CodeValue(None)])
  }

  /** A transaction transfers only after reading that its recipient has no code, and nothing else. */
  ghost predicate ProbesFirst(b: Block) {
    forall i, h :: 0 <= i < |b.txs| && b.txs[i].Next(h).RawTransfer? ==>
      h == [CodeValue(None)] && b.txs[i].Next([]) == Read(CodeAt(b.txs[i].Next(h).to))
  }

  /** What a transfer does to the value at l. */
  function Transferred(t: Action, v: ReadValue, l: Location): ReadValue
    requires t.RawTransfer?
  {
    if !v.AccountValue? then v
    else if l == AccountAt(t.from) then
      AccountValue(Some(AccountBasic(SatSub(Balance(v.account), t.debit), Nonce(v.account) + 1)))
    else if l == AccountAt(t.to) then AccountValue(CreditAccount(v.account, t.credit))
    else v
  }

  /** Executed explicitly with result r, the transfer debits and credits what its lazy form says, and the
      sender could afford it. */
  ghost predicate Behaves(cs: ChainState, w: World, t: Action, r: TxResult)
    requires t.RawTransfer?
  {
    && r.gasUsed == t.gasUsed && r.receipt == t.receipt
    && View(cs, w, AccountAt(t.from)).AccountValue?
    && t.debit <= Balance(View(cs, w, AccountAt(t.from)).account)
    && forall l :: Applied(View(cs, w, l), r.writes, l) == Transferred(t, View(cs, w, l), l)
  }

  /** What transaction tx with result r pays into account a without reading it. */
  function Incoming(b: Block, tx: Tx, r: TxResult, a: Address): nat {
    RewardTo(GetRewards(b, tx, r.gasUsed), a) +
    if Transfer(tx).RawTransfer? && a == Transfer(tx).to && a != Transfer(tx).from then Transfer(tx).credit else 0
  }

  /** No account overflows, and a sender's rewards do not exceed its debit. */
  ghost predicate Solvent(b: Block, w: World, tx: Tx, r: TxResult) {
    && (forall a :: View(b.state, w, AccountAt(a)).AccountValue? ==>
          Balance(View(b.state, w, AccountAt(a)).account) + Incoming(b, tx, r, a) <= U256_MAX)
    && (Transfer(tx).RawTransfer? ==>
          RewardTo(GetRewards(b, tx, r.gasUsed), Transfer(tx).from) <= Transfer(tx).debit)
  }

  /** In order, transaction k succeeds, solvently, and behaves if it is a transfer to an account without code. */
  ghost predicate FairStep(b: Block, k: nat)
    requires k < |b.txs|
  {
    && Execute(b, k).Some? && Execute(b, k + 1).Some?
    && var (w, tx) := (Execute(b, k).value.world, b.txs[k]);
       var r := Transact(b.state, w, tx, []);
       && r.Some? && Solvent(b, w, tx, r.value)
       && (Transfer(tx).RawTransfer? && Codeless(b, k) ==> Behaves(b.state, w, Transfer(tx), r.value))
  }

  ghost predicate FairBlock(b: Block) {
    ProbesFirst(b) && forall k :: 0 <= k < |b.txs| ==> FairStep(b, k)
  }

  /** The value of l after the first k transactions in order. */
  ghost function After(b: Block, k: nat, l: Location): ReadValue
    requires k <= |b.txs| && Execute(b, k).Some?
  {
    View(b.state, Execute(b, k).value.world, l)
  }

  /** In order, the recipient of transfer k has no code when it comes. */
  ghost predicate Codeless(b: Block, k: nat)
    requires k < |b.txs| && Execute(b, k).Some? && Transfer(b.txs[k]).RawTransfer?
  {
    After(b, k, CodeAt(Transfer(b.txs[k]).to)) == CodeValue(None)
  }

  /** In order, the sender of transfer k has some balance left. */
  ghost predicate KeepsBalance(b: Block, k: nat)
    requires k < |b.txs| && Execute(b, k + 1).Some? && Transfer(b.txs[k]).RawTransfer?
  {
    var v := After(b, k + 1, AccountAt(Transfer(b.txs[k]).from));
    v.AccountValue? && Balance(v.account) > 0
  }

  /** Evaluated lazily, transfer k goes unchecked safely: nobody below deploys code at its recipient, and its
      sender was there before the block or has some balance left. */
  ghost predicate SafeTransfer(b: Block, k: nat)
    requires k < |b.txs|
  {
    var t := Transfer(b.txs[k]);
    Execute(b, k).Some? && Execute(b, k + 1).Some? && t.RawTransfer? && b.state.Code(t.to).None? ==>
      Codeless(b, k) && (b.state.Account(t.from).Some? || KeepsBalance(b, k))
  }

  ghost predicate GoodBlock(b: Block) {
    FairBlock(b) && forall k :: 0 <= k < |b.txs| ==> SafeTransfer(b, k)
  }

  // ---- One account, one transaction ----

  /** Below k the account has an absolute value, in storage or written. */
  ghost predicate HasBase(cs: ChainState, a: Address, h: Entries, k: nat) {
    var walked := Walk(AccountAt(a), h, k);
    walked.Found? && TraceBase(cs.Account(a), walked.trace).Some?
  }

  /** The entries below k amount to account v; an absent one has received nothing and sent nothing. */
  ghost predicate Shows(cs: ChainState, a: Address, h: Entries, k: nat, v: Option<AccountBasic>) {
    var account := Forward(cs.Account(a), h, k);
    && Balanced(cs.Account(a), a, h, k) && Walk(AccountAt(a), h, k).Found?
    && (!HasBase(cs, a, h, k) && account.balance == 0 ==> account.nonce == 0)
    && v == if !HasBase(cs, a, h, k) && account.balance == 0 then None else Some(account)
  }

  lemma ShownIsEvaluated(cs: ChainState, a: Address, h: Entries, k: nat, v: Option<AccountBasic>)
    requires Shows(cs, a, h, k, v)
    ensures Evaluated(cs, AccountAt(a), h, k) == AccountValue(v)
  {
    MidBlockReadAgrees(cs, a, h, k);
  }

  /** The entry of transaction k takes the account from v to v'. */
  ghost predicate Follows(h: Entries, k: nat, v: Option<AccountBasic>, v': Option<AccountBasic>) {
    if k !in h then v' == v
    else
      && h[k].Data?
      && match h[k].value
         case Basic(x) => v' == Some(x)
         case LazyRecipient(x) => Balance(v) + x <= U256_MAX && v' == CreditAccount(v, x)
         case LazySender(y) => y <= Balance(v) && v' == Some(AccountBasic(Balance(v) - y, Nonce(v) + 1))
         case _ => false
  }

  lemma BalancedNext(cs: ChainState, a: Address, h: Entries, k: nat, v: Option<AccountBasic>, v': Option<AccountBasic>)
    requires Shows(cs, a, h, k, v) && Follows(h, k, v, v')
    ensures Balanced(cs.Account(a), a, h, k + 1)
  {
    var (base, account) := (cs.Account(a), Forward(cs.Account(a), h, k));
    forall i: nat | i in h && i < k + 1
      ensures h[i].Data? && FitsAt(AccountAt(a), h[i].value)
      ensures h[i].value.LazyRecipient? ==> Forward(base, h, i).balance + h[i].value.addition <= U256_MAX
      ensures h[i].value.LazySender? ==> h[i].value.subtraction <= Forward(base, h, i).balance
    {
      assert i == k ==> Balance(v) == account.balance;
    }
  }

  lemma ShowsNext(cs: ChainState, a: Address, h: Entries, k: nat, v: Option<AccountBasic>, v': Option<AccountBasic>)
    requires Shows(cs, a, h, k, v) && Follows(h, k, v, v')
    requires IsDebit(h, k) ==> HasBase(cs, a, h, k) || Balance(v') > 0
    ensures Shows(cs, a, h, k + 1, v')
  {
    BalancedNext(cs, a, h, k, v, v');
  }

  /** A debit that empties an account without an absolute value loses its nonce: it reads as absent. */
  lemma EmptiedLosesNonce(cs: ChainState, a: Address, h: Entries, k: nat, v: Option<AccountBasic>,
                          v': Option<AccountBasic>)
    requires Shows(cs, a, h, k, v) && Follows(h, k, v, v')
    requires IsDebit(h, k) && !HasBase(cs, a, h, k) && Balance(v') == 0
    ensures Evaluated(cs, AccountAt(a), h, k + 1) == AccountValue(None) && v' == Some(AccountBasic(0, Nonce(v) + 1))
  {
    BalancedNext(cs, a, h, k, v, v');
    MidBlockReadAgrees(cs, a, h, k + 1);
  }

  lemma ShowsFirst(cs: ChainState, a: Address, h: Entries)
    ensures Shows(cs, a, h, 0, cs.Account(a))
  {
  }

  // ---- One transaction ----

  /** The entry that write set ws leaves for transaction k at l. */
  ghost predicate Entered(h: Entries, k: nat, ws: WriteSet, l: Location) {
    if l in ws then k in h && h[k].Data? && h[k].value == ws[l] else k !in h
  }

  lemma ExplicitFollows(b: Block, w: World, tx: Tx, r: ExplicitResult, a: Address, h: Entries, k: nat)
    requires AccountsTyped(b.state, w) && Solvent(b, w, tx, r)
    requires Entered(h, k, FinalWrites(b, tx, r), AccountAt(a))
    ensures var (v, v') := (View(b.state, w, AccountAt(a)), View(b.state, Commit(b, w, tx, r), AccountAt(a)));
            && v.AccountValue? && v'.AccountValue? && Follows(h, k, v.account, v'.account)
            && !IsDebit(h, k)
  {
    var (l, ws) := (AccountAt(a), FinalWrites(b, tx, r));
    FinalWritesCommit(b, w, tx, r);
    MergedValue(r.writes, GetRewards(b, tx, r.gasUsed), a);
    assert View(b.state, w, l).AccountValue?;
    assert View(b.state, Commit(b, w, tx, r), l) == Applied(View(b.state, w, l), ws, l);
    assert l in ws ==> FitsAt(l, ws[l]) && !ws[l].LazySender?;
  }

  lemma TransferApplied(cs: ChainState, w: World, t: Action, r: TxResult)
    requires AccountsTyped(cs, w) && t.RawTransfer? && Behaves(cs, w, t, r)
    ensures AccountsTyped(cs, CommitWrites(cs, w, r.writes))
    ensures forall l :: View(cs, CommitWrites(cs, w, r.writes), l) == Transferred(t, View(cs, w, l), l)
  {
    var w1 := CommitWrites(cs, w, r.writes);
    forall l ensures View(cs, w1, l) == Transferred(t, View(cs, w, l), l) {
      assert View(cs, w1, l) == Applied(View(cs, w, l), r.writes, l);
    }
    forall a ensures View(cs, w1, AccountAt(a)).AccountValue? {
      assert View(cs, w, AccountAt(a)).AccountValue?;
    }
  }

  /** The account after the transfer and the rewards. */
  lemma TransferPaid(b: Block, w: World, tx: Tx, r: TxResult, a: Address)
    requires AccountsTyped(b.state, w) && Solvent(b, w, tx, r)
    requires Transfer(tx).RawTransfer? && Behaves(b.state, w, Transfer(tx), r)
    ensures var v := View(b.state, w, AccountAt(a));
            && v.AccountValue? && Balance(v.account) + Incoming(b, tx, r, a) <= U256_MAX
            && View(b.state, Commit(b, w, tx, r), AccountAt(a)) ==
               AccountValue(CreditAccount(Transferred(Transfer(tx), v, AccountAt(a)).account,
                                          RewardTo(GetRewards(b, tx, r.gasUsed), a)))
  {
    var (cs, t, l) := (b.state, Transfer(tx), AccountAt(a));
    var w1 := CommitWrites(cs, w, r.writes);
    TransferApplied(cs, w, t, r);
    assert View(cs, w, l).AccountValue? && View(cs, w1, l) == Transferred(t, View(cs, w, l), l);
    RewardsPaid(cs, w1, GetRewards(b, tx, r.gasUsed), a);
  }

  /** The entry of the lazy form, rewards merged in. */
  lemma TransferEntry(b: Block, w: World, tx: Tx, r: TxResult, a: Address)
    requires Transfer(tx).RawTransfer? && r.gasUsed == Transfer(tx).gasUsed && Solvent(b, w, tx, r)
    requires Incoming(b, tx, r, a) <= U256_MAX
    ensures var (t, l, total) := (Transfer(tx), AccountAt(a), RewardTo(GetRewards(b, tx, r.gasUsed), a));
            var ws := FinalWrites(b, tx, LazyResult(t));
            if a == t.from then l in ws && ws[l] == LazySender(t.debit - total)
            else if a == t.to then l in ws && ws[l] == LazyRecipient(t.credit + total)
            else if l in ws then ws[l] == LazyRecipient(total)
            else total == 0
  {
    MergedValue(LazyResult(Transfer(tx)).writes, GetRewards(b, tx, r.gasUsed), a);
  }

  /** The entry that a lazy transfer t and rewards of `total` leave at account a. */
  predicate TransferLeft(h: Entries, k: nat, a: Address, t: Action, total: nat)
    requires t.RawTransfer? && (a == t.from ==> total <= t.debit)
  {
    if k !in h then a != t.from && a != t.to && total == 0
    else
      h[k].Data? &&
      match h[k].value
      case LazySender(y) => a == t.from && y == t.debit - total
      case LazyRecipient(x) => a != t.from && x == total + if a == t.to then t.credit else 0
      case _ => false
  }

  lemma TransferLeaves(b: Block, w: World, tx: Tx, r: TxResult, a: Address, h: Entries, k: nat)
    requires Transfer(tx).RawTransfer? && r.gasUsed == Transfer(tx).gasUsed && Solvent(b, w, tx, r)
    requires Incoming(b, tx, r, a) <= U256_MAX
    requires Entered(h, k, FinalWrites(b, tx, LazyResult(Transfer(tx))), AccountAt(a))
    ensures TransferLeft(h, k, a, Transfer(tx), RewardTo(GetRewards(b, tx, r.gasUsed), a))
  {
    TransferEntry(b, w, tx, r, a);
  }

  lemma TransferFollows(a: Address, h: Entries, k: nat, v: Option<AccountBasic>, t: Action, total: nat)
    requires t.RawTransfer? && (a == t.from ==> total <= t.debit <= Balance(v))
    requires Balance(v) + total + (if a == t.to && a != t.from then t.credit else 0) <= U256_MAX
    requires TransferLeft(h, k, a, t, total)
    ensures Follows(h, k, v, CreditAccount(Transferred(t, AccountValue(v), AccountAt(a)).account, total))
    ensures IsDebit(h, k) <==> a == t.from
  {
    if a == t.to && a != t.from { CreditTwice(v, t.credit, total); }
  }

  /** The lazy form of a transfer, with the rewards merged in, does to an account what executing the
      transfer and then paying the rewards does. */
  lemma LazyFollows(b: Block, w: World, tx: Tx, r: TxResult, a: Address, h: Entries, k: nat)
    requires AccountsTyped(b.state, w) && Solvent(b, w, tx, r)
    requires Transfer(tx).RawTransfer? && Behaves(b.state, w, Transfer(tx), r)
    requires Entered(h, k, FinalWrites(b, tx, LazyResult(Transfer(tx))), AccountAt(a))
    ensures var (v, v') := (View(b.state, w, AccountAt(a)), View(b.state, Commit(b, w, tx, r), AccountAt(a)));
            && v.AccountValue? && v'.AccountValue? && Follows(h, k, v.account, v'.account)
            && (IsDebit(h, k) <==> a == Transfer(tx).from)
  {
    TransferPaid(b, w, tx, r, a);
    TransferLeaves(b, w, tx, r, a, h, k);
    TransferFollows(a, h, k, View(b.state, w, AccountAt(a)).account, Transfer(tx),
                    RewardTo(GetRewards(b, tx, r.gasUsed), a));
  }

  // ---- The memory of a finished run ----

  /** Every transaction is recorded, and the reads of those that were not lazy are valid. */
  ghost predicate Settled(b: Block, s: State)
    requires WellFormed(b, s)
  {
    && EntriesOk(b, s) && LogOk(b, s)
    && forall i :: 0 <= i < |b.txs| ==>
         && Complete(b, s, i)
         && (!LazyVersion(b, s, Current(s, i)) ==> ValidReads(s.mem.data, i, s.mem.lastRead[i]))
  }

  /** The memory below k is state w. */
  ghost predicate WorldAgrees(b: Block, s: State, k: nat, w: World) {
    && AccountsTyped(b.state, w)
    && (forall a :: Shows(b.state, a, At(s.mem.data, AccountAt(a)), k, View(b.state, w, AccountAt(a)).account))
    && (forall l: Location :: !l.AccountAt? ==> View(b.state, w, l) == Evaluated(b.state, l, At(s.mem.data, l), k))
  }

  lemma AgreesEverywhere(b: Block, s: State, k: nat, w: World, l: Location)
    requires WorldAgrees(b, s, k, w)
    ensures View(b.state, w, l) == Evaluated(b.state, l, At(s.mem.data, l), k)
  {
    if l.AccountAt? {
      assert View(b.state, w, AccountAt(l.address)).AccountValue?;
      ShownIsEvaluated(b.state, l.address, At(s.mem.data, l), k, View(b.state, w, l).account);
    }
  }

  lemma EnteredAt(b: Block, s: State, k: nat, l: Location)
    requires WellFormed(b, s) && EntriesOk(b, s) && k < |b.txs| && Complete(b, s, k)
    ensures Entered(At(s.mem.data, l), k, s.hist.written[Current(s, k)], l)
  {
    assert EntryOf(s.mem.data, l, k) == Held(s, k, l);
  }

  /** Outside accounts, entries are of the right kind and reading one transaction later overlays one. */
  lemma PlainClean(b: Block, s: State, l: Location)
    requires WellFormed(b, s) && Settled(b, s) && !l.AccountAt?
    ensures Clean(l, At(s.mem.data, l))
  {
    var h := At(s.mem.data, l);
    forall j | j in h ensures h[j].Data? && FitsAt(l, h[j].value) && !h[j].value.LazySender? {
      assert EntryOf(s.mem.data, l, j) == Some(h[j]) && Complete(b, s, j);
      EnteredAt(b, s, j, l);
      WrittenFits(b, s, Current(s, j));
    }
  }

  // ---- An explicit transaction ----

  lemma ExplicitStep(b: Block, s: State, k: nat, w: World, r: ExplicitResult)
    requires WellFormed(b, s) && Settled(b, s) && k < |b.txs| && WorldAgrees(b, s, k, w)
    requires Solvent(b, w, b.txs[k], r) && s.hist.written[Current(s, k)] == FinalWrites(b, b.txs[k], r)
    ensures WorldAgrees(b, s, k + 1, Commit(b, w, b.txs[k], r))
  {
    var (tx, w') := (b.txs[k], Commit(b, w, b.txs[k], r));
    assert Complete(b, s, k);
    FinalWritesCommit(b, w, tx, r);
    forall a ensures Shows(b.state, a, At(s.mem.data, AccountAt(a)), k + 1, View(b.state, w', AccountAt(a)).account) {
      EnteredAt(b, s, k, AccountAt(a));
      ExplicitFollows(b, w, tx, r, a, At(s.mem.data, AccountAt(a)), k);
      ShowsNext(b.state, a, At(s.mem.data, AccountAt(a)), k,
                View(b.state, w, AccountAt(a)).account, View(b.state, w', AccountAt(a)).account);
    }
    forall l: Location | !l.AccountAt? ensures View(b.state, w', l) == Evaluated(b.state, l, At(s.mem.data, l), k + 1) {
      EnteredAt(b, s, k, l);
      PlainClean(b, s, l);
      OverlayStep(b.state, l, At(s.mem.data, l), k);
    }
  }

  // ---- A lazy transaction ----

  /** A lazy transaction recorded the lazy form of its transfer, and storage has no code at its recipient. */
  lemma LazyAttempt(b: Block, s: State, k: nat)
    requires WellFormed(b, s) && LogOk(b, s) && k < |b.txs| && ProbesFirst(b)
    requires Complete(b, s, k) && LazyVersion(b, s, Current(s, k))
    ensures var (t, v) := (Transfer(b.txs[k]), Current(s, k));
            && t.RawTransfer? && s.results[k] == Some(LazyResult(t))
            && s.hist.written[v] == FinalWrites(b, b.txs[k], LazyResult(t))
            && b.state.Code(t.to) == None
  {
    var v := Current(s, k);
    var a := s.hist.attempts[v];
    assert AttemptOk(b, s.hist.written, v, a);
    var l := CodeAt(Transfer(b.txs[k]).to);
    assert a.history[..0] == [] && b.txs[k].Next(a.history[..0]) == Read(l);
    assert ChainOk(l, a.rs[l], k, s.hist.written);
  }

  lemma LazyAccount(b: Block, s: State, k: nat, w: World, r: TxResult, a: Address)
    requires WellFormed(b, s) && EntriesOk(b, s) && k < |b.txs| && Complete(b, s, k) && WorldAgrees(b, s, k, w)
    requires Solvent(b, w, b.txs[k], r)
    requires Transfer(b.txs[k]).RawTransfer? && Behaves(b.state, w, Transfer(b.txs[k]), r)
    requires s.hist.written[Current(s, k)] == FinalWrites(b, b.txs[k], LazyResult(Transfer(b.txs[k])))
    ensures var (h, v) := (At(s.mem.data, AccountAt(a)), View(b.state, w, AccountAt(a)));
            var v' := View(b.state, Commit(b, w, b.txs[k], r), AccountAt(a));
            && v.AccountValue? && v'.AccountValue? && Shows(b.state, a, h, k, v.account)
            && Follows(h, k, v.account, v'.account) && (IsDebit(h, k) <==> a == Transfer(b.txs[k]).from)
  {
    var (h, v) := (At(s.mem.data, AccountAt(a)), View(b.state, w, AccountAt(a)));
    assert v.AccountValue? && Shows(b.state, a, h, k, v.account);
    EnteredAt(b, s, k, AccountAt(a));
    LazyFollows(b, w, b.txs[k], r, a, h, k);
  }

  lemma LazyElsewhere(b: Block, s: State, k: nat, w: World, r: TxResult, l: Location)
    requires WellFormed(b, s) && EntriesOk(b, s) && k < |b.txs| && Complete(b, s, k)
    requires AccountsTyped(b.state, w) && !l.AccountAt? && Clean(l, At(s.mem.data, l))
    requires Transfer(b.txs[k]).RawTransfer? && Behaves(b.state, w, Transfer(b.txs[k]), r)
    requires s.hist.written[Current(s, k)] == FinalWrites(b, b.txs[k], LazyResult(Transfer(b.txs[k])))
    requires View(b.state, w, l) == Evaluated(b.state, l, At(s.mem.data, l), k)
    ensures View(b.state, Commit(b, w, b.txs[k], r), l) == Evaluated(b.state, l, At(s.mem.data, l), k + 1)
  {
    var (tx, t) := (b.txs[k], Transfer(b.txs[k]));
    EnteredAt(b, s, k, l);
    OverlayStep(b.state, l, At(s.mem.data, l), k);
    OnlyRecipientsChange(b, tx, LazyResult(t), l);
    TransferApplied(b.state, w, t, r);
    RewardsElsewhere(b.state, CommitWrites(b.state, w, r.writes), GetRewards(b, tx, r.gasUsed), l);
  }

  /** The sender's account has an absolute value below transfer k, or some balance left after it. */
  ghost predicate KeepsNonce(b: Block, s: State, k: nat, after: World)
    requires k < |b.txs| && Transfer(b.txs[k]).RawTransfer?
  {
    var l := AccountAt(Transfer(b.txs[k]).from);
    || HasBase(b.state, l.address, At(s.mem.data, l), k)
    || (View(b.state, after, l).AccountValue? && Balance(View(b.state, after, l).account) > 0)
  }

  lemma LazyStep(b: Block, s: State, k: nat, w: World, r: TxResult)
    requires WellFormed(b, s) && Settled(b, s) && k < |b.txs| && WorldAgrees(b, s, k, w) && ProbesFirst(b)
    requires LazyVersion(b, s, Current(s, k)) && Solvent(b, w, b.txs[k], r)
    requires Transfer(b.txs[k]).RawTransfer? && Behaves(b.state, w, Transfer(b.txs[k]), r)
    requires KeepsNonce(b, s, k, Commit(b, w, b.txs[k], r))
    ensures WorldAgrees(b, s, k + 1, Commit(b, w, b.txs[k], r))
  {
    var w' := Commit(b, w, b.txs[k], r);
    assert Complete(b, s, k);
    LazyAttempt(b, s, k);
    forall a
      ensures View(b.state, w', AccountAt(a)).AccountValue?
      ensures Shows(b.state, a, At(s.mem.data, AccountAt(a)), k + 1, View(b.state, w', AccountAt(a)).account)
    {
      LazyAccount(b, s, k, w, r, a);
      ShowsNext(b.state, a, At(s.mem.data, AccountAt(a)), k,
                View(b.state, w, AccountAt(a)).account, View(b.state, w', AccountAt(a)).account);
    }
    forall l: Location | !l.AccountAt?
      ensures View(b.state, w', l) == Evaluated(b.state, l, At(s.mem.data, l), k + 1)
    {
      PlainClean(b, s, l);
      LazyElsewhere(b, s, k, w, r, l);
    }
  }

  /** Without that, the memory after the transfer is not the sequential state. */
  lemma LazyStepFails(b: Block, s: State, k: nat, w: World, r: TxResult)
    requires WellFormed(b, s) && Settled(b, s) && k < |b.txs| && WorldAgrees(b, s, k, w) && ProbesFirst(b)
    requires LazyVersion(b, s, Current(s, k)) && Solvent(b, w, b.txs[k], r)
    requires Transfer(b.txs[k]).RawTransfer? && Behaves(b.state, w, Transfer(b.txs[k]), r)
    requires !KeepsNonce(b, s, k, Commit(b, w, b.txs[k], r))
    ensures var l := AccountAt(Transfer(b.txs[k]).from);
            View(b.state, Commit(b, w, b.txs[k], r), l) != Evaluated(b.state, l, At(s.mem.data, l), k + 1)
  {
    var (a, w') := (Transfer(b.txs[k]).from, Commit(b, w, b.txs[k], r));
    assert Complete(b, s, k);
    LazyAttempt(b, s, k);
    LazyAccount(b, s, k, w, r, a);
    EmptiedLosesNonce(b.state, a, At(s.mem.data, AccountAt(a)), k,
                      View(b.state, w, AccountAt(a)).account, View(b.state, w', AccountAt(a)).account);
  }

  // ---- Whole runs ----

  /** The outcome at k is that of the first k transactions in order: every location, and the gas and receipt
      of every result. */
  ghost predicate SameOutcome(b: Block, s: State, k: nat)
    requires WellFormed(b, s) && k <= |b.txs|
  {
    && Execute(b, k).Some? && |Execute(b, k).value.results| == k
    && (forall l :: After(b, k, l) == Evaluated(b.state, l, At(s.mem.data, l), k))
    && forall i :: 0 <= i < k ==> SameReceipt(s.results[i], Execute(b, k).value.results[i])
  }

  predicate SameReceipt(found: Option<TxResult>, r: TxResult) {
    found.Some? && found.value.gasUsed == r.gasUsed && found.value.receipt == r.receipt
  }

  lemma ExplicitAttempt(b: Block, s: State, k: nat, w: World)
    requires WellFormed(b, s) && Settled(b, s) && k < |b.txs| && WorldAgrees(b, s, k, w)
    requires !LazyVersion(b, s, Current(s, k))
    ensures b.txs[k].Next(s.hist.attempts[Current(s, k)].history).Finish?
    ensures var r: ExplicitResult := b.txs[k].Next(s.hist.attempts[Current(s, k)].history).result;
            && s.results[k] == Some(r) && s.hist.written[Current(s, k)] == FinalWrites(b, b.txs[k], r)
            && Transact(b.state, w, b.txs[k], []) == Some(r)
  {
    assert Complete(b, s, k) && ValidReads(s.mem.data, k, s.mem.lastRead[k]);
    var v := Current(s, k);
    assert AttemptOk(b, s.hist.written, v, s.hist.attempts[v]);
    forall l { AgreesEverywhere(b, s, k, w, l); }
    ReplaysOn(b, s, k, w);
  }

  /** The lazy transactions of the run below k found the recipient as it is in order and keep their nonce. */
  ghost predicate LazySafe(b: Block, s: State, k: nat)
    requires WellFormed(b, s) && k < |b.txs|
  {
    Execute(b, k).Some? && Execute(b, k + 1).Some? &&
    LazyVersion(b, s, Current(s, k)) && Transfer(b.txs[k]).RawTransfer? ==>
      Codeless(b, k) && KeepsNonce(b, s, k, Execute(b, k + 1).value.world)
  }

  ghost predicate AgreesLazily(b: Block, s: State, k: nat)
    requires WellFormed(b, s) && k <= |b.txs|
  {
    && Execute(b, k).Some? && |Execute(b, k).value.results| == k
    && WorldAgrees(b, s, k, Execute(b, k).value.world)
    && forall i :: 0 <= i < k ==> SameReceipt(s.results[i], Execute(b, k).value.results[i])
  }

  lemma AgreesLazilyNext(b: Block, s: State, k: nat, r: TxResult)
    requires WellFormed(b, s) && k < |b.txs| && AgreesLazily(b, s, k)
    requires Transact(b.state, Execute(b, k).value.world, b.txs[k], []) == Some(r)
    requires WorldAgrees(b, s, k + 1, Commit(b, Execute(b, k).value.world, b.txs[k], r))
    requires SameReceipt(s.results[k], r)
    ensures AgreesLazily(b, s, k + 1)
  {
  }

  /** One transaction, lazy or explicit. */
  lemma TransactionStep(b: Block, s: State, k: nat, w: World, r: TxResult)
    requires WellFormed(b, s) && Settled(b, s) && k < |b.txs| && WorldAgrees(b, s, k, w) && ProbesFirst(b)
    requires Transact(b.state, w, b.txs[k], []) == Some(r) && Solvent(b, w, b.txs[k], r)
    requires LazyVersion(b, s, Current(s, k)) && Transfer(b.txs[k]).RawTransfer? ==>
               Behaves(b.state, w, Transfer(b.txs[k]), r) && KeepsNonce(b, s, k, Commit(b, w, b.txs[k], r))
    ensures WorldAgrees(b, s, k + 1, Commit(b, w, b.txs[k], r)) && SameReceipt(s.results[k], r)
  {
    if LazyVersion(b, s, Current(s, k)) {
      assert Complete(b, s, k);
      LazyAttempt(b, s, k);
      LazyStep(b, s, k, w, r);
    } else {
      ExplicitAttempt(b, s, k, w);
      ExplicitStep(b, s, k, w, r);
    }
  }

  lemma AgreesStep(b: Block, s: State, k: nat)
    requires WellFormed(b, s) && Settled(b, s) && FairBlock(b) && k < |b.txs|
    requires AgreesLazily(b, s, k) && LazySafe(b, s, k)
    ensures AgreesLazily(b, s, k + 1)
  {
    assert FairStep(b, k);
    var w := Execute(b, k).value.world;
    var r := Transact(b.state, w, b.txs[k], []).value;
    TransactionStep(b, s, k, w, r);
    AgreesLazilyNext(b, s, k, r);
  }

  lemma AgreesAtFirst(b: Block, s: State)
    requires WellFormed(b, s)
    ensures AgreesLazily(b, s, 0)
  {
    forall a { ShowsFirst(b.state, a, At(s.mem.data, AccountAt(a))); }
  }

  ghost predicate AllSafe(b: Block, s: State, k: nat)
    requires WellFormed(b, s) && k <= |b.txs|
  {
    forall i :: 0 <= i < k ==> LazySafe(b, s, i)
  }

  lemma {:induction false} SettledIsSequential(b: Block, s: State, k: nat)
    requires WellFormed(b, s) && Settled(b, s) && FairBlock(b) && k <= |b.txs|
    requires AllSafe(b, s, k)
    ensures AgreesLazily(b, s, k)
    decreases k
  {
    if k == 0 {
      AgreesAtFirst(b, s);
    } else {
      SettledIsSequential(b, s, k - 1);
      AgreesStep(b, s, k - 1);
    }
  }

  lemma AgreesIsOutcome(b: Block, s: State, k: nat)
    requires WellFormed(b, s) && k <= |b.txs| && AgreesLazily(b, s, k)
    ensures SameOutcome(b, s, k)
  {
    forall l { AgreesEverywhere(b, s, k, Execute(b, k).value.world, l); }
  }

  lemma FinishedIsSettled(b: Block, workers: nat, schedule: Schedule)
    requires var s := Run(b, workers, schedule); workers > 0 && AllExited(s) && !s.sched.aborted
    ensures Settled(b, Run(b, workers, schedule))
  {
    var s := Run(b, workers, schedule);
    RunInv(b, workers, schedule);
    ExitedMeansDone(b, workers, schedule);
    forall i | 0 <= i < |b.txs|
      ensures Complete(b, s, i)
      ensures !LazyVersion(b, s, Current(s, i)) ==> ValidReads(s.mem.data, i, s.mem.lastRead[i])
    {
      DoneHasAttempt(b, s, i);
      if !LazyVersion(b, s, Current(s, i)) { ExitedReadsValid(b, s, i); }
    }
  }

  // ---- Exactly when ----

  /** A transaction that finds code where it meant to transfer is told apart by its gas or its receipt. */
  ghost predicate CallDiffers(b: Block, i: nat)
    requires i < |b.txs|
  {
    Execute(b, i).Some? && Transfer(b.txs[i]).RawTransfer? && !Codeless(b, i) ==>
      var r := Transact(b.state, Execute(b, i).value.world, b.txs[i], []);
      r.Some? ==> !SameReceipt(r, LazyResult(Transfer(b.txs[i])))
  }

  ghost predicate CallsDiffer(b: Block) {
    forall i :: 0 <= i < |b.txs| ==> CallDiffers(b, i)
  }

  /** The first unsafe lazy transaction spoils the outcome. */
  lemma UnsafeSpoils(b: Block, s: State, k: nat)
    requires WellFormed(b, s) && Settled(b, s) && FairBlock(b) && CallsDiffer(b) && k < |b.txs|
    requires AgreesLazily(b, s, k) && !LazySafe(b, s, k)
    ensures !SameOutcome(b, s, k + 1)
  {
    assert FairStep(b, k) && Complete(b, s, k) && CallDiffers(b, k);
    LazyAttempt(b, s, k);
    var w := Execute(b, k).value.world;
    var r := Transact(b.state, w, b.txs[k], []).value;
    assert Execute(b, k + 1).value.results[k] == r;
    if Codeless(b, k) { LazyStepFails(b, s, k, w, r); }
  }

  ghost predicate AllSame(b: Block, s: State)
    requires WellFormed(b, s)
  {
    forall k :: 0 <= k <= |b.txs| ==> SameOutcome(b, s, k)
  }

  lemma {:induction false} FirstUnsafe(b: Block, s: State, k: nat) returns (i: nat)
    requires WellFormed(b, s) && k <= |b.txs| && !AllSafe(b, s, k)
    ensures i < k && AllSafe(b, s, i) && !LazySafe(b, s, i)
    decreases k
  {
    if AllSafe(b, s, k - 1) { i := k - 1; } else { i := FirstUnsafe(b, s, k - 1); }
  }

  lemma SameIsSafe(b: Block, s: State)
    requires WellFormed(b, s) && Settled(b, s) && FairBlock(b) && CallsDiffer(b) && AllSame(b, s)
    ensures AllSafe(b, s, |b.txs|)
  {
    if !AllSafe(b, s, |b.txs|) {
      var i := FirstUnsafe(b, s, |b.txs|);
      SettledIsSequential(b, s, i);
      UnsafeSpoils(b, s, i);
    }
  }

  /** Runs with lazy transfers are serializable exactly when they are safe. For a block that is valid in order
      and whose calls are told apart from transfers, a finished run has the sequential outcome at every prefix
      if and only if every transfer it evaluated lazily goes to an account that in order has no code, from an
      account that has an absolute value below it or some balance left. */
  lemma SerializableExactly(b: Block, workers: nat, schedule: Schedule)
    requires FairBlock(b) && CallsDiffer(b)
    requires var s := Run(b, workers, schedule); workers > 0 && AllExited(s) && !s.sched.aborted
    ensures var s := Run(b, workers, schedule);
            AllSame(b, s) <==> AllSafe(b, s, |b.txs|)
  {
    var s := Run(b, workers, schedule);
    FinishedIsSettled(b, workers, schedule);
    if AllSame(b, s) { SameIsSafe(b, s); }
    if AllSafe(b, s, |b.txs|) {
      forall k | 0 <= k <= |b.txs| ensures SameOutcome(b, s, k) {
        SettledIsSequential(b, s, k);
        AgreesIsOutcome(b, s, k);
      }
    }
  }

  // ---- A condition on the block ----

  lemma GoodIsSafe(b: Block, s: State, k: nat)
    requires WellFormed(b, s) && Settled(b, s) && GoodBlock(b) && k < |b.txs|
    ensures LazySafe(b, s, k)
  {
    assert FairStep(b, k) && SafeTransfer(b, k) && Complete(b, s, k);
    if LazyVersion(b, s, Current(s, k)) && Transfer(b.txs[k]).RawTransfer? {
      LazyAttempt(b, s, k);
      var a := Transfer(b.txs[k]).from;
      if b.state.Account(a).Some? { SettledWalks(b, s, a, k); }
    }
  }

  /** Reading an account of a settled memory never blocks. */
  lemma {:induction false} SettledWalks(b: Block, s: State, a: Address, k: nat)
    requires WellFormed(b, s) && Settled(b, s) && k <= |b.txs|
    ensures Walk(AccountAt(a), At(s.mem.data, AccountAt(a)), k).Found?
    decreases k
  {
    if k > 0 {
      SettledWalks(b, s, a, k - 1);
      assert Complete(b, s, k - 1);
      EnteredAt(b, s, k - 1, AccountAt(a));
      WrittenFits(b, s, Current(s, k - 1));
    }
  }

  /** A finished run of a block that is valid in order, whose lazy transfers are safe. */
  ghost predicate SafeRun(b: Block, workers: nat, schedule: Schedule) {
    var s := Run(b, workers, schedule);
    workers > 0 && AllExited(s) && !s.sched.aborted && FairBlock(b) && AllSafe(b, s, |b.txs|)
  }

  /** Every finished run of a good block is safe. */
  lemma GoodRun(b: Block, workers: nat, schedule: Schedule)
    requires GoodBlock(b)
    requires var s := Run(b, workers, schedule); workers > 0 && AllExited(s) && !s.sched.aborted
    ensures SafeRun(b, workers, schedule)
  {
    FinishedIsSettled(b, workers, schedule);
    forall i | 0 <= i < |b.txs| { GoodIsSafe(b, Run(b, workers, schedule), i); }
  }

  lemma SafeRunAgrees(b: Block, workers: nat, schedule: Schedule, k: nat)
    requires SafeRun(b, workers, schedule) && k <= |b.txs|
    ensures AgreesLazily(b, Run(b, workers, schedule), k)
  {
    FinishedIsSettled(b, workers, schedule);
    SettledIsSequential(b, Run(b, workers, schedule), k);
  }

  /** Every finished run of a block that is valid in order has the sequential outcome, lazy transfers included,
      if no transfer to an account without code in storage meets code deployed below it, and its sender was
      there before the block or has some balance left. */
  lemma SerializableTransfers(b: Block, workers: nat, schedule: Schedule, k: nat)
    requires GoodBlock(b) && k <= |b.txs|
    requires var s := Run(b, workers, schedule); workers > 0 && AllExited(s) && !s.sched.aborted
    ensures SameOutcome(b, Run(b, workers, schedule), k)
    ensures AgreesLazily(b, Run(b, workers, schedule), k)
  {
    GoodRun(b, workers, schedule);
    SafeRunAgrees(b, workers, schedule, k);
    AgreesIsOutcome(b, Run(b, workers, schedule), k);
  }

  // ---- The end-of-block evaluator ----

  lemma ShownIsForward(b: Block, s: State, k: nat, a: Address)
    requires WellFormed(b, s) && k <= |b.txs| && AgreesLazily(b, s, k)
    ensures SameAccount(After(b, k, AccountAt(a)), Forward(b.state.Account(a), At(s.mem.data, AccountAt(a)), k))
  {
    var v := After(b, k, AccountAt(a));
    assert v.AccountValue? && Shows(b.state, a, At(s.mem.data, AccountAt(a)), k, v.account);
  }

  lemma TransfersForward(b: Block, workers: nat, schedule: Schedule, a: Address, k: nat)
    requires SafeRun(b, workers, schedule) && k <= |b.txs|
    ensures Execute(b, k).Some?
    ensures SameAccount(After(b, k, AccountAt(a)),
                        Forward(b.state.Account(a), At(Run(b, workers, schedule).mem.data, AccountAt(a)), k))
  {
    SafeRunAgrees(b, workers, schedule, k);
    ShownIsForward(b, Run(b, workers, schedule), k, a);
  }

  /** In safe runs the evaluator has the sequential account after every transaction, and it accepts an entry
      if and only if in order the caller is left with the nonce after its own and, for a lazy sender, could
      pay the maximum fee. */
  lemma EvaluatorMatchesTransfers(b: Block, workers: nat, schedule: Schedule, a: Address, i: nat)
    requires SafeRun(b, workers, schedule)
    requires i < |b.txs| && i in At(Run(b, workers, schedule).mem.data, AccountAt(a))
    ensures Execute(b, i).Some? && Execute(b, i + 1).Some?
    ensures var h := At(Run(b, workers, schedule).mem.data, AccountAt(a));
            var (v, v') := (After(b, i, AccountAt(a)), After(b, i + 1, AccountAt(a)));
            && SameAccount(v', Forward(b.state.Account(a), h, i + 1))
            && (Trouble(b, a, h, i).None? <==> SenderChecked(b.txs[i], a, v, v', IsDebit(h, i)))
  {
    TransfersForward(b, workers, schedule, a, i);
    TransfersForward(b, workers, schedule, a, i + 1);
    EvaluatorNeverPanics(b, workers, schedule, a, i);
    ObjectsExactly(b, a, At(Run(b, workers, schedule).mem.data, AccountAt(a)), i,
                   After(b, i, AccountAt(a)), After(b, i + 1, AccountAt(a)));
  }

  lemma ResultsAgree(b: Block, s: State, addresses: set<Address>, before: seq<Changes>, after: seq<Changes>,
                     a: Address, i: nat)
    requires WellFormed(b, s) && i < |b.txs| && AgreesLazily(b, s, i + 1)
    requires Evaluates(b, s.mem.data, addresses, before, after)
    ensures ShownInOrder(b, s.mem.data, addresses, before, after, a, i)
  {
    ShownIsForward(b, s, i + 1, a);
    ForwardShown(b, s.mem.data, addresses, before, after, a, i, After(b, i + 1, AccountAt(a)));
  }

  /** When the evaluation of a safe run succeeds, every result shows every evaluated account, lazy senders and
      recipients included, as it is in order after its transaction, and leaves the others alone. */
  lemma ResultsOfTransfers(b: Block, workers: nat, schedule: Schedule, addresses: set<Address>, before: seq<Changes>,
                           after: seq<Changes>, a: Address, i: nat)
    requires SafeRun(b, workers, schedule) && i < |b.txs|
    requires Evaluates(b, Run(b, workers, schedule).mem.data, addresses, before, after)
    ensures ShownInOrder(b, Run(b, workers, schedule).mem.data, addresses, before, after, a, i)
  {
    SafeRunAgrees(b, workers, schedule, i + 1);
    ResultsAgree(b, Run(b, workers, schedule), addresses, before, after, a, i);
  }

  /** Merging rewards makes no debits. */
  lemma {:induction false} MergedDebits(ws: WriteSet, rewards: seq<(Address, U256)>, l: Location)
    requires WellTyped(ws) && l in MergeRewards(ws, rewards) && MergeRewards(ws, rewards)[l].LazySender?
    ensures l in ws && ws[l].LazySender?
    decreases |rewards|
  {
    if rewards != [] { MergedDebits(MergeReward(ws, rewards[0].0, rewards[0].1), rewards[1..], l); }
  }

  /** Only transfers leave debits, at their sender. */
  lemma DebitIsSender(b: Block, s: State, i: nat, a: Address)
    requires WellFormed(b, s) && Settled(b, s) && ProbesFirst(b) && i < |b.txs|
    requires IsDebit(At(s.mem.data, AccountAt(a)), i)
    ensures Transfer(b.txs[i]).RawTransfer? && a == Transfer(b.txs[i]).from
  {
    var v := Current(s, i);
    assert Complete(b, s, i);
    EnteredAt(b, s, i, AccountAt(a));
    assert AttemptOk(b, s.hist.written, v, s.hist.attempts[v]);
    var r := s.hist.attempts[v].result;
    MergedDebits(r.writes, GetRewards(b, b.txs[i], r.gasUsed), AccountAt(a));
    LazyAttempt(b, s, i);
  }

  /** In order, transaction i leaves its caller with the nonce after its own, and the sender of a transfer could
      pay the maximum fee. */
  ghost predicate SenderValid(b: Block, i: nat)
    requires i < |b.txs|
  {
    Execute(b, i).Some? && Execute(b, i + 1).Some? ==>
      var (tx, t) := (b.txs[i], Transfer(b.txs[i]));
      && (var v := After(b, i + 1, AccountAt(tx.caller)); v.AccountValue? && Nonce(v.account) == tx.nonce + 1)
      && (t.RawTransfer? ==>
            var v := After(b, i, AccountAt(t.from)); v.AccountValue? && tx.maxFee <= Balance(v.account))
  }

  lemma EntryAccepted(b: Block, workers: nat, schedule: Schedule, a: Address, i: nat)
    requires SafeRun(b, workers, schedule) && i < |b.txs| && SenderValid(b, i)
    requires i in At(Run(b, workers, schedule).mem.data, AccountAt(a))
    ensures Trouble(b, a, At(Run(b, workers, schedule).mem.data, AccountAt(a)), i).None?
  {
    var s := Run(b, workers, schedule);
    EvaluatorMatchesTransfers(b, workers, schedule, a, i);
    FinishedIsSettled(b, workers, schedule);
    if IsDebit(At(s.mem.data, AccountAt(a)), i) { DebitIsSender(b, s, i, a); }
    TransfersForward(b, workers, schedule, a, i);
    TransfersForward(b, workers, schedule, a, i + 1);
  }

  /** The evaluator accepts every block whose senders are valid in order, at every address. */
  lemma EvaluatorAccepts(b: Block, workers: nat, schedule: Schedule)
    requires SafeRun(b, workers, schedule) && forall i :: 0 <= i < |b.txs| ==> SenderValid(b, i)
    ensures AllInBlock(b, Run(b, workers, schedule).mem.data)
    ensures forall a :: Accepted(b, Run(b, workers, schedule).mem.data, a)
  {
    var s := Run(b, workers, schedule);
    RunInv(b, workers, schedule);
    forall a ensures InBlock(b, At(s.mem.data, AccountAt(a))) {
      forall i | i in At(s.mem.data, AccountAt(a)) ensures i < |b.txs| {
        assert EntryOf(s.mem.data, AccountAt(a), i).Some?;
      }
    }
    forall a, i | i in At(s.mem.data, AccountAt(a))
      ensures i < |b.txs| && Trouble(b, a, At(s.mem.data, AccountAt(a)), i).None?
    {
      assert InBlock(b, At(s.mem.data, AccountAt(a)));
      EntryAccepted(b, workers, schedule, a, i);
    }
  }

  // ---- Such blocks exist ----

  /** A transfer of 3 from address 0 to address 1 that pays 2 for gas, evaluated explicitly if need be. */
  function Send(h: seq<ReadValue>): Action {
    if |h| == 0 then Read(CodeAt(1))
    else if |h| == 1 && h[0] == CodeValue(None) then RawTransfer(0, 1, 5, 3, 2, 9)
    else if |h| == 2 then Read(AccountAt(0))
    else if |h| == 3 then Read(AccountAt(1))
    else if |h| == 4 && h[2].AccountValue? && h[2].account.Some? && h[2].account.value.balance >= 5 &&
            h[3].AccountValue? && Balance(h[3].account) + 3 <= U256_MAX then
      var (from, to) := (h[2].account.value, CreditAccount(h[3].account, 3).value);
      Finish(TxResult(map[AccountAt(0) := Basic(AccountBasic(from.balance - 5, from.nonce + 1)),
                          AccountAt(1) := Basic(to)], 2, 9))
    else Fail(false)
  }

  /** Deploys code at address 1, the recipient. */
  function Deploy(h: seq<ReadValue>): Action {
    Finish(TxResult(map[CodeAt(1) := CodeHash(7)], 0, 0))
  }

  const SEND := Tx(Send, 9, false, 1, None, 0, 0, 5)
  const DEPLOY := Tx(Deploy, 9, false, 0, None, 2, 0, 0)
  const EXAMPLE :=
    Block(Ethereum, 0, 0, true, [SEND, DEPLOY], ChainState(map[0 := AccountBasic(100, 0)], map[], map[]))
  const SENT: TxResult :=
    TxResult(map[AccountAt(0) := Basic(AccountBasic(95, 1)), AccountAt(1) := Basic(AccountBasic(3, 0))], 2, 9)

  lemma SendSucceeds()
    ensures Transact(EXAMPLE.state, map[], SEND, []) == Some(SENT)
  {
    var cs := EXAMPLE.state;
    var h1 := [] + [CodeValue(None)];
    var h2 := h1 + [NotLazy];
    var h3 := h2 + [AccountValue(Some(AccountBasic(100, 0)))];
    var h4 := h3 + [AccountValue(None)];
    assert SEND.Next(h4) == Finish(SENT);
    assert Transact(cs, map[], SEND, h4) == Some(SENT);
    assert SEND.Next(h3) == Read(AccountAt(1)) && Transact(cs, map[], SEND, h3) == Some(SENT);
    assert SEND.Next(h2) == Read(AccountAt(0)) && Transact(cs, map[], SEND, h2) == Some(SENT);
    assert SEND.Next(h1) == RawTransfer(0, 1, 5, 3, 2, 9) && Transact(cs, map[], SEND, h1) == Some(SENT);
    assert SEND.Next([]) == Read(CodeAt(1));
  }

  lemma SendProbes()
    ensures ProbesFirst(EXAMPLE)
    ensures Transfer(SEND) == RawTransfer(0, 1, 5, 3, 2, 9)
  {
    forall i, h | 0 <= i < |EXAMPLE.txs| && EXAMPLE.txs[i].Next(h).RawTransfer?
      ensures h == [CodeValue(None)] && EXAMPLE.txs[i].Next([]) == Read(CodeAt(EXAMPLE.txs[i].Next(h).to))
    {
      assert Send(h).RawTransfer?;
    }
  }

  lemma SendRewards(a: Address)
    ensures RewardTo(GetRewards(EXAMPLE, SEND, 2), a) == if a == 0 then 2 else 0
  {
    var rewards := GetRewards(EXAMPLE, SEND, 2);
    assert |rewards| == 1 && rewards[0] == (0, 2) && rewards[1..] == [];
    assert RewardTo(rewards[1..], a) == 0;
  }

  lemma SendIsGood()
    requires Transfer(SEND) == RawTransfer(0, 1, 5, 3, 2, 9)
    ensures Behaves(EXAMPLE.state, map[], Transfer(SEND), SENT) && Solvent(EXAMPLE, map[], SEND, SENT)
  {
    forall a { SendRewards(a); }
    var (cs, t) := (EXAMPLE.state, Transfer(SEND));
    forall l ensures Applied(View(cs, map[], l), SENT.writes, l) == Transferred(t, View(cs, map[], l), l) {
    }
  }

  lemma DeployIsGood(w: World)
    ensures Transact(EXAMPLE.state, w, DEPLOY, []) == Some(TxResult(map[CodeAt(1) := CodeHash(7)], 0, 0))
    ensures Solvent(EXAMPLE, w, DEPLOY, TxResult(map[CodeAt(1) := CodeHash(7)], 0, 0)) && !Transfer(DEPLOY).RawTransfer?
  {
    var rewards := GetRewards(EXAMPLE, DEPLOY, 0);
    assert |rewards| == 1 && rewards[0].1 == 0 && rewards[1..] == [];
    forall a ensures RewardTo(rewards, a) == 0 { assert RewardTo(rewards[1..], a) == 0; }
  }

  /** A block with a transfer that meets all the conditions, and code deployed at its recipient afterwards. */
  lemma GoodBlocksExist()
    ensures GoodBlock(EXAMPLE) && CallsDiffer(EXAMPLE) && Transfer(EXAMPLE.txs[0]).RawTransfer?
  {
    SendSucceeds();
    SendProbes();
    SendIsGood();
    assert Execute(EXAMPLE, 0) == Some(Progress(map[], []));
    assert Execute(EXAMPLE, 1).Some?;
    DeployIsGood(Execute(EXAMPLE, 1).value.world);
    assert Execute(EXAMPLE, 2).Some?;
    assert FairStep(EXAMPLE, 0) && FairStep(EXAMPLE, 1);
  }
}
