/** The end-of-block evaluator of lazily updated accounts, against the reads that transactions made in
    the middle of the block and against sequential execution. */
module Evaluation {
  import opened Types
  import opened Accounts
  import opened Reads
  import opened Blocks
  import opened Sequential
  import opened Machine
  import opened SchedulerLaws
  import opened MemoryLaws
  import opened RunLaws
  import opened Invariants
  import opened Serializability

  const EMPTY: AccountBasic := AccountBasic(0, 0)

  /** What a transaction's result says of one account; None: it is cleared. */
  datatype EvmAccount = EvmAccount(balance: U256, nonce: nat, code: Option<Hash>, storage: map<U256, U256>)
  type Changes = map<Address, Option<EvmAccount>>

  datatype EvaluationError =
    | LackOfFund(tx: nat)
    | UnreachableError
    | NonceMismatch(tx: nat)
    | Panic(tx: nat)               // an ESTIMATE or a value of another kind

  datatype Outcome = Changed(states: seq<Changes>) | Error(error: EvaluationError)

  // ---- The fold, oldest entry first ----

  function Apply(account: AccountBasic, e: MemoryEntry): AccountBasic {
    match e
    case Data(_, Basic(info)) => info
    case Data(_, LazyRecipient(x)) => account.(balance := SatAdd(account.balance, x))
    case Data(_, LazySender(x)) => AccountBasic(SatSub(account.balance, x), account.nonce + 1)
    case _ => account
  }

  /** The account after every entry below i. */
  function Forward(base: Option<AccountBasic>, h: Entries, i: nat): AccountBasic
    decreases i
  {
    if i == 0 then (if base.Some? then base.value else EMPTY)
    else if i - 1 in h then Apply(Forward(base, h, i - 1), h[i - 1])
    else Forward(base, h, i - 1)
  }

  /** What stops the evaluator of address a at entry e of transaction i. */
  function Objection(tx: Tx, a: Address, before: AccountBasic, e: MemoryEntry, i: nat): Option<EvaluationError> {
    var after := Apply(before, e);
    if !e.Data? || e.value.CodeHash? || e.value.Storage? || e.value.SelfDestructed? then Some(Panic(i))
    else if e.value.LazySender? && before.balance < tx.maxFee then Some(LackOfFund(i))
    else if tx.caller != a then None
    else if after.nonce == 0 then Some(UnreachableError)
    else if tx.nonce != after.nonce - 1 then Some(NonceMismatch(i))
    else None
  }

  function Trouble(b: Block, a: Address, h: Entries, i: nat): Option<EvaluationError>
    requires i in h && i < |b.txs|
  {
    Objection(b.txs[i], a, Forward(b.state.Account(a), h, i), h[i], i)
  }

  /** An empty account without code is cleared from EIP-161 on. An account that the result already mentions
      keeps its code and storage. */
  function Publish(b: Block, a: Address, mentioned: Option<EvmAccount>, account: AccountBasic): Option<EvmAccount> {
    if b.eip161 && b.state.Code(a).None? && account == EMPTY then None
    else if mentioned.Some? then Some(mentioned.value.(balance := account.balance, nonce := account.nonce))
    else Some(EvmAccount(account.balance, account.nonce, b.state.Code(a), map[]))
  }

  function Mentioned(changes: Changes, a: Address): Option<EvmAccount> {
    if a in changes then changes[a] else None
  }

  /** The result of transaction i with the evaluated account of a. */
  function Updated(b: Block, a: Address, h: Entries, i: nat, changes: Changes): Changes {
    changes[a := Publish(b, a, Mentioned(changes, a), Forward(b.state.Account(a), h, i + 1))]
  }

  /** One iteration of the evaluation loop. */
  method Visit(tx: Tx, a: Address, before: AccountBasic, e: MemoryEntry, i: nat)
    returns (error: Option<EvaluationError>, account: AccountBasic)
    ensures error == Objection(tx, a, before, e, i)
    ensures error.None? ==> account == Apply(before, e)
  {
    account := before;
    if !e.Data? || e.value.CodeHash? || e.value.Storage? || e.value.SelfDestructed? {
      return Some(Panic(i)), account;
    }
    if e.value.Basic? {
      account := e.value.account;
    } else if e.value.LazyRecipient? {
      account := AccountBasic(SatAdd(account.balance, e.value.addition), account.nonce);
    } else {
      if account.balance < tx.maxFee { return Some(LackOfFund(i)), account; }
      account := AccountBasic(SatSub(account.balance, e.value.subtraction), account.nonce + 1);
    }
    if tx.caller == a {
      if account.nonce == 0 { return Some(UnreachableError), account; }
      if tx.nonce != account.nonce - 1 { return Some(NonceMismatch(i)), account; }
    }
    error := None;
  }

  method OldestEntry(h: Entries, n: nat) returns (first: nat)
    requires forall i :: i in h ==> i < n
    ensures first <= n && (forall k :: k in h ==> first <= k) && (first < n ==> first in h)
  {
    first := 0;
    while first < n && first !in h
      invariant first <= n && forall k :: k in h ==> first <= k
    {
      first := first + 1;
    }
  }

  ghost predicate EntryIsBasic(h: Entries, i: nat) {
    i in h && h[i].Data? && h[i].value.Basic?
  }

  /** Entries of transactions of the block only. */
  ghost predicate InBlock(b: Block, h: Entries) {
    forall i :: i in h ==> i < |b.txs|
  }

  /** Below i no entry of address a is objected to, and the results have its account; the others are as before. */
  ghost predicate Passed(b: Block, a: Address, h: Entries, i: nat, before: seq<Changes>, after: seq<Changes>)
    requires InBlock(b, h)
  {
    && |before| == |after| == |b.txs|
    && (forall k :: k in h && k < i ==> Trouble(b, a, h, k).None?)
    && (forall k :: 0 <= k < |b.txs| ==>
          after[k] == if k in h && k < i then Updated(b, a, h, k, before[k]) else before[k])
  }

  /** Entry i of address a is the first that is objected to. */
  ghost predicate Stops(b: Block, a: Address, h: Entries, i: nat, error: EvaluationError)
    requires InBlock(b, h)
  {
    i in h && Trouble(b, a, h, i) == Some(error) && forall k :: k in h && k < i ==> Trouble(b, a, h, k).None?
  }

  lemma PassedNext(b: Block, a: Address, h: Entries, i: nat, before: seq<Changes>, after: seq<Changes>)
    requires InBlock(b, h) && i < |b.txs| && Passed(b, a, h, i, before, after)
    ensures i !in h ==> Passed(b, a, h, i + 1, before, after)
    ensures i in h && Trouble(b, a, h, i).None? ==>
              after[i] == before[i] && Passed(b, a, h, i + 1, before, after[i := Updated(b, a, h, i, before[i])])
  {
  }

  /** What the result says of the account, computed as the loop does. */
  method PublishAccount(b: Block, code: Option<Hash>, mentioned: Option<EvmAccount>, account: AccountBasic,
                        ghost a: Address)
    returns (published: Option<EvmAccount>)
    requires code == b.state.Code(a)
    ensures published == Publish(b, a, mentioned, account)
  {
    if b.eip161 && code.None? && account.nonce == 0 && account.balance == 0 {
      published := None;
    } else if mentioned.Some? {
      published := Some(mentioned.value.(balance := account.balance, nonce := account.nonce));
    } else {
      published := Some(EvmAccount(account.balance, account.nonce, code, map[]));
    }
  }

  /** The loop body for an entry of transaction i. */
  method EvaluateEntry(b: Block, a: Address, h: Entries, i: nat, code: Option<Hash>, before: AccountBasic,
                       ghost states: seq<Changes>, done: seq<Changes>)
    returns (error: Option<EvaluationError>, account: AccountBasic, after: seq<Changes>)
    requires InBlock(b, h) && i in h && code == b.state.Code(a) && Passed(b, a, h, i, states, done)
    requires before == Forward(b.state.Account(a), h, i) || EntryIsBasic(h, i)
    ensures error == Trouble(b, a, h, i)
    ensures error.None? ==>
              account == Forward(b.state.Account(a), h, i + 1) && Passed(b, a, h, i + 1, states, after)
  {
    error, account := Visit(b.txs[i], a, before, h[i], i);
    after := done;
    if error.None? {
      PassedNext(b, a, h, i, states, done);
      var published := PublishAccount(b, code, Mentioned(done[i], a), account, a);
      var changes: Changes := done[i][a := published];
      after := done[i := changes];
    }
  }

  lemma PassedNothing(b: Block, a: Address, h: Entries, first: nat, states: seq<Changes>)
    requires InBlock(b, h) && |states| == |b.txs| && forall k :: k in h ==> first <= k
    ensures Passed(b, a, h, first, states, states)
  {
  }

  /** The account before the oldest entry. Storage is read only when that is not absolute. */
  method StartAccount(b: Block, a: Address, h: Entries) returns (first: nat, account: AccountBasic)
    requires InBlock(b, h)
    ensures first <= |b.txs| && forall k :: k in h ==> first <= k
    ensures account == Forward(b.state.Account(a), h, first) || EntryIsBasic(h, first)
  {
    var base := b.state.Account(a);
    first := OldestEntry(h, |b.txs|);
    account := EMPTY;
    ForwardSkips(base, h, first);
    if !(first in h && h[first].Data? && h[first].value.Basic?) && base.Some? {
      account := base.value;
    }
  }

  /** The evaluation of one address. */
  method Evaluate(b: Block, a: Address, h: Entries, states: seq<Changes>) returns (r: Outcome)
    requires InBlock(b, h) && |states| == |b.txs|
    ensures r.Changed? ==> Passed(b, a, h, |b.txs|, states, r.states)
    ensures r.Error? ==> exists i :: Stops(b, a, h, i, r.error)
  {
    var first, account := StartAccount(b, a, h);
    PassedNothing(b, a, h, first, states);
    var after: seq<Changes> := states;
    for i := first to |b.txs|
      invariant account == Forward(b.state.Account(a), h, i) || EntryIsBasic(h, i)
      invariant Passed(b, a, h, i, states, after)
    {
      if i in h {
        var error, next, changed := EvaluateEntry(b, a, h, i, b.state.Code(a), account, states, after);
        if error.Some? {
          assert Stops(b, a, h, i, error.value);
          return Error(error.value);
        }
        account, after := next, changed;
      } else {
        PassedNext(b, a, h, i, states, after);
      }
    }
    r := Changed(after);
  }

  // ---- All lazy addresses ----

  /** What the result of transaction i says of account a once the addresses of `done` are evaluated. */
  function FinalAccount(b: Block, data: MvData, done: set<Address>, before: Changes, a: Address, i: nat)
    : Option<EvmAccount>
  {
    var h := At(data, AccountAt(a));
    if a in done && i in h then Publish(b, a, Mentioned(before, a), Forward(b.state.Account(a), h, i + 1))
    else Mentioned(before, a)
  }

  ghost predicate AllInBlock(b: Block, data: MvData) {
    forall a :: InBlock(b, At(data, AccountAt(a)))
  }

  ghost predicate Accepted(b: Block, data: MvData, a: Address)
    requires AllInBlock(b, data)
  {
    forall i :: i in At(data, AccountAt(a)) ==>
      InBlock(b, At(data, AccountAt(a))) && Trouble(b, a, At(data, AccountAt(a)), i).None?
  }

  ghost predicate AllPassed(b: Block, data: MvData, done: set<Address>, before: seq<Changes>, after: seq<Changes>)
    requires AllInBlock(b, data)
  {
    && |before| == |after| == |b.txs|
    && (forall a :: a in done ==> Accepted(b, data, a))
    && (forall i, a :: 0 <= i < |b.txs| ==> Mentioned(after[i], a) == FinalAccount(b, data, done, before[i], a, i))
    && (forall i, a :: 0 <= i < |b.txs| ==> KeyPassed(data, done, before[i], after[i], a, i))
  }

  predicate KeyPassed(data: MvData, done: set<Address>, before: Changes, after: Changes, a: Address, i: nat) {
    a in after <==> a in before || (a in done && i in At(data, AccountAt(a)))
  }

  lemma KeysPassedNext(b: Block, data: MvData, done: set<Address>, before: seq<Changes>, after: seq<Changes>,
                       next: seq<Changes>, a: Address, i: nat, c: Address)
    requires InBlock(b, At(data, AccountAt(a))) && Passed(b, a, At(data, AccountAt(a)), |b.txs|, after, next)
    requires i < |b.txs| == |before| && KeyPassed(data, done, before[i], after[i], c, i)
    ensures KeyPassed(data, done + {a}, before[i], next[i], c, i)
  {
  }

  lemma AllPassedNext(b: Block, data: MvData, done: set<Address>, before: seq<Changes>, after: seq<Changes>,
                      next: seq<Changes>, a: Address)
    requires AllInBlock(b, data) && AllPassed(b, data, done, before, after) && a !in done
    requires InBlock(b, At(data, AccountAt(a))) && Passed(b, a, At(data, AccountAt(a)), |b.txs|, after, next)
    ensures AllPassed(b, data, done + {a}, before, next)
  {
    forall i, c | 0 <= i < |b.txs|
      ensures Mentioned(next[i], c) == FinalAccount(b, data, done + {a}, before[i], c, i)
    {
      assert Mentioned(after[i], c) == FinalAccount(b, data, done, before[i], c, i);
    }
    forall i, c | 0 <= i < |b.txs| { KeysPassedNext(b, data, done, before, after, next, a, i, c); }
  }

  /** The evaluation loop over all lazy addresses, in whatever order. The results get the evaluated account of
      every address their transaction has an entry for; an error is that of the first objection at some
      address. */
  method EvaluateAll(b: Block, data: MvData, addresses: set<Address>, states: seq<Changes>) returns (r: Outcome)
    requires AllInBlock(b, data) && |states| == |b.txs|
    ensures r.Changed? ==> AllPassed(b, data, addresses, states, r.states)
    ensures r.Error? ==> exists a, i :: && a in addresses && InBlock(b, At(data, AccountAt(a)))
                                        && Stops(b, a, At(data, AccountAt(a)), i, r.error)
  {
    var (after, todo) := (states, addresses);
    while todo != {}
      invariant todo <= addresses && AllPassed(b, data, addresses - todo, states, after)
    {
      var a :| a in todo;
      assert InBlock(b, At(data, AccountAt(a)));
      r := Evaluate(b, a, At(data, AccountAt(a)), after);
      if r.Error? { return; }
      AllPassedNext(b, data, addresses - todo, states, after, r.states, a);
      assert addresses - (todo - {a}) == addresses - todo + {a};
      after, todo := r.states, todo - {a};
    }
    assert addresses - todo == addresses;
    r := Changed(after);
  }

  lemma {:induction false} ForwardSkips(base: Option<AccountBasic>, h: Entries, i: nat)
    requires forall k :: k in h ==> i <= k
    ensures Forward(base, h, i) == Forward(base, h, 0)
    decreases i
  {
    if i > 0 { ForwardSkips(base, h, i - 1); }
  }

  // ---- Reads in the middle of the block ----

  /** Data of the right kind, and running balances that stay in range. */
  ghost predicate Balanced(base: Option<AccountBasic>, a: Address, h: Entries, t: nat) {
    forall i: nat :: i in h && i < t ==>
      && h[i].Data? && FitsAt(AccountAt(a), h[i].value)
      && (h[i].value.LazyRecipient? ==> Forward(base, h, i).balance + h[i].value.addition <= U256_MAX)
      && (h[i].value.LazySender? ==> h[i].value.subtraction <= Forward(base, h, i).balance)
  }

  function TraceBase(base: Option<AccountBasic>, t: Trace): Option<AccountBasic> {
    if t.base.Some? && t.base.value.Basic? then Some(t.base.value.account) else base
  }

  /** The forward balance and nonce are the trace's base plus its deltas, and every partial sum of
      newest deltas leads back to an earlier balance. */
  ghost predicate Tracks(base: Option<AccountBasic>, trace: Trace, account: AccountBasic) {
    var found := TraceBase(base, trace);
    var start := if found.Some? then found.value else EMPTY;
    && account.balance == start.balance + Sum(trace.deltas)
    && account.nonce == start.nonce + Debits(trace.deltas)
    && forall m :: 0 <= m <= |trace.deltas| ==> 0 <= account.balance - Sum(trace.deltas[..m]) <= U256_MAX
  }

  lemma DeltaTracks(base: Option<AccountBasic>, d: Delta, trace: Trace, before: AccountBasic, after: AccountBasic)
    requires Tracks(base, trace, before)
    requires after.balance == before.balance + Amount(d)
    requires after.nonce == before.nonce + if d.Debit? then 1 else 0
    ensures Tracks(base, Trace([d] + trace.deltas, trace.base), after)
  {
    var ds := [d] + trace.deltas;
    assert ds[1..] == trace.deltas;
    forall m | 0 <= m <= |ds| ensures 0 <= after.balance - Sum(ds[..m]) <= U256_MAX {
      if m > 0 {
        SumPrefix(ds, m);
        assert 0 <= before.balance - Sum(trace.deltas[..m - 1]) <= U256_MAX;
      }
    }
  }

  lemma {:induction false} WalkTracks(base: Option<AccountBasic>, a: Address, h: Entries, t: nat)
    requires Balanced(base, a, h, t)
    ensures Walk(AccountAt(a), h, t).Found?
    ensures Tracks(base, Walk(AccountAt(a), h, t).trace, Forward(base, h, t))
    decreases t
  {
    if t > 0 {
      WalkTracks(base, a, h, t - 1);
      if t - 1 in h && IsLazy(AccountAt(a), h[t - 1].value) {
        var rest := Walk(AccountAt(a), h, t - 1);
        DeltaTracks(base, DeltaOf(h[t - 1].value), rest.trace, Forward(base, h, t - 1), Forward(base, h, t));
      }
    }
  }

  lemma SettleTracked(base: Option<AccountBasic>, trace: Trace, account: AccountBasic)
    requires Tracks(base, trace, account)
    ensures var found := TraceBase(base, trace);
            Settle(trace.deltas, found) ==
            if found.None? && account.balance == 0 then None else Some(account)
  {
    var ds := trace.deltas;
    forall m | 0 <= m <= |ds| ensures InRange(Sum(ds[..m])) {
      assert 0 <= account.balance - Sum(ds[..m]) <= U256_MAX;
    }
    AccumulateInRange(ZERO, ds);
  }

  /** An explicit read by transaction t sees what the evaluator has after all entries below t, except
      that an account absent from storage and never written absolutely reads as absent whenever its
      balance is zero. */
  lemma MidBlockReadAgrees(cs: ChainState, a: Address, h: Entries, t: nat)
    requires Balanced(cs.Account(a), a, h, t)
    ensures var (w, account) := (Walk(AccountAt(a), h, t), Forward(cs.Account(a), h, t));
            && w.Found?
            && Resolve(cs, AccountAt(a), w.trace) == AccountValue(
                 if TraceBase(cs.Account(a), w.trace).None? && account.balance == 0 then None else Some(account))
  {
    WalkTracks(cs.Account(a), a, h, t);
    SettleTracked(cs.Account(a), Walk(AccountAt(a), h, t).trace, Forward(cs.Account(a), h, t));
  }

  /** That exception loses nonces: an account that received and sent all of it reads as absent. */
  lemma AbsentAccountLosesNonce()
    ensures var h := map[0 := Data(0, LazyRecipient(5)), 1 := Data(0, LazySender(5))];
            && Forward(None, h, 2) == AccountBasic(0, 1)
            && Resolve(ChainState(map[], map[], map[]), AccountAt(7), Walk(AccountAt(7), h, 2).trace) ==
               AccountValue(None)
  {
    var h: Entries := map[0 := Data(0, LazyRecipient(5)), 1 := Data(0, LazySender(5))];
    assert Forward(None, h, 1) == AccountBasic(5, 0);
    assert Forward(None, h, 2) == AccountBasic(0, 1);
    assert Balanced(None, 7, h, 2);
    MidBlockReadAgrees(ChainState(map[], map[], map[]), 7, h, 2);
    assert Walk(AccountAt(7), h, 1).trace == Trace([Credit(5)], None);
  }

  // ---- After the run ----

  /** The evaluator has the account that a reader would see; an absent one counts as empty. */
  predicate SameAccount(v: ReadValue, account: AccountBasic) {
    v == AccountValue(Some(account)) || (v == AccountValue(None) && account == EMPTY)
  }

  lemma {:induction false} ForwardIsEvaluated(cs: ChainState, a: Address, h: Entries, i: nat)
    requires Clean(AccountAt(a), h)
    ensures SameAccount(Evaluated(cs, AccountAt(a), h, i), Forward(cs.Account(a), h, i))
    decreases i
  {
    if i == 0 {
      SettleNothing(cs.Account(a));
    } else {
      ForwardIsEvaluated(cs, a, h, i - 1);
      OverlayStep(cs, AccountAt(a), h, i - 1);
    }
  }

  function Balance(account: Option<AccountBasic>): nat {
    if account.Some? then account.value.balance else 0
  }

  function Nonce(account: Option<AccountBasic>): nat {
    if account.Some? then account.value.nonce else 0
  }

  /** The checks of a transaction on account a, against what it found and left there in order: a lazy sender
      could pay the maximum fee, and a caller left with the nonce after its own. */
  predicate SenderChecked(tx: Tx, a: Address, before: ReadValue, after: ReadValue, lazySender: bool) {
    && before.AccountValue? && after.AccountValue?
    && (lazySender ==> tx.maxFee <= Balance(before.account))
    && (tx.caller == a ==> Nonce(after.account) == tx.nonce + 1)
  }

  predicate IsDebit(h: Entries, i: nat) {
    i in h && h[i].Data? && h[i].value.LazySender?
  }

  /** Where the fold has the sequential accounts, the evaluator objects exactly when those checks fail. */
  lemma ObjectsExactly(b: Block, a: Address, h: Entries, i: nat, before: ReadValue, after: ReadValue)
    requires i in h && i < |b.txs| && h[i].Data? && FitsAt(AccountAt(a), h[i].value)
    requires SameAccount(before, Forward(b.state.Account(a), h, i))
    requires SameAccount(after, Forward(b.state.Account(a), h, i + 1))
    ensures Trouble(b, a, h, i).None? <==> SenderChecked(b.txs[i], a, before, after, IsDebit(h, i))
  {
  }

  lemma EvaluatorOnClean(b: Block, s: State, a: Address, i: nat)
    requires WellFormed(b, s) && i < |b.txs| && Agrees(b, s, i) && Agrees(b, s, i + 1)
    requires Clean(AccountAt(a), At(s.mem.data, AccountAt(a))) && i in At(s.mem.data, AccountAt(a))
    ensures var h := At(s.mem.data, AccountAt(a));
            var v := View(b.state, Execute(b, i).value.world, AccountAt(a));
            var v' := View(b.state, Execute(b, i + 1).value.world, AccountAt(a));
            && SameAccount(v', Forward(b.state.Account(a), h, i + 1))
            && (Trouble(b, a, h, i).None? <==> SenderChecked(b.txs[i], a, v, v', false))
  {
    var h := At(s.mem.data, AccountAt(a));
    ForwardIsEvaluated(b.state, a, h, i);
    ForwardIsEvaluated(b.state, a, h, i + 1);
    ObjectsExactly(b, a, h, i, View(b.state, Execute(b, i).value.world, AccountAt(a)),
                   View(b.state, Execute(b, i + 1).value.world, AccountAt(a)));
  }

  /** On a finished run without lazy transfers what the evaluator computes for transaction i is the account
      after the first i + 1 transactions in order, and it accepts the entry if and only if the transaction
      left its caller with the nonce after its own. */
  lemma EvaluatorMatchesSequential(b: Block, workers: nat, schedule: Schedule, a: Address, i: nat)
    requires var s := Run(b, workers, schedule);
             && workers > 0 && AllExited(s) && !s.sched.aborted && !s.hist.lazyTaken
             && i < |b.txs| && i in At(s.mem.data, AccountAt(a))
    ensures Execute(b, i).Some? && Execute(b, i + 1).Some?
    ensures var h := At(Run(b, workers, schedule).mem.data, AccountAt(a));
            var v := View(b.state, Execute(b, i).value.world, AccountAt(a));
            var v' := View(b.state, Execute(b, i + 1).value.world, AccountAt(a));
            && SameAccount(v', Forward(b.state.Account(a), h, i + 1))
            && (Trouble(b, a, h, i).None? <==> SenderChecked(b.txs[i], a, v, v', false))
  {
    var s := Run(b, workers, schedule);
    Serializable(b, workers, schedule);
    FinishedClean(b, workers, schedule, AccountAt(a));
    EvaluatorOnClean(b, s, a, i);
  }

  lemma WrittenFits(b: Block, s: State, v: Version)
    requires WellFormed(b, s) && LogOk(b, s) && v in s.hist.written
    ensures WellTyped(s.hist.written[v])
  {
    assert AttemptOk(b, s.hist.written, v, s.hist.attempts[v]);
  }

  lemma RunWrittenFits(b: Block, workers: nat, schedule: Schedule, v: Version)
    requires var s := Run(b, workers, schedule); !s.sched.aborted && v in s.hist.written
    ensures WellTyped(Run(b, workers, schedule).hist.written[v])
  {
    RunInv(b, workers, schedule);
    WrittenFits(b, Run(b, workers, schedule), v);
  }

  /** On every finished run, lazy transfers included, each entry is a value of its own transaction's last
      write set, so the evaluator does not panic. */
  lemma EvaluatorNeverPanics(b: Block, workers: nat, schedule: Schedule, a: Address, i: nat)
    requires var s := Run(b, workers, schedule);
             && workers > 0 && AllExited(s) && !s.sched.aborted
             && i < |b.txs| && i in At(s.mem.data, AccountAt(a))
    ensures var h := At(Run(b, workers, schedule).mem.data, AccountAt(a));
            && h[i].Data? && FitsAt(AccountAt(a), h[i].value)
            && Trouble(b, a, h, i) != Some(Panic(i))
  {
    var s := Run(b, workers, schedule);
    ExitedMeansDone(b, workers, schedule);
    DoneHasNoEstimate(b, workers, schedule, i, AccountAt(a));
    RunWrittenFits(b, workers, schedule, Current(s, i));
  }

  // ---- What the results say in the end ----

  /** Account v as a result shows it: cleared exactly when it is empty, from EIP-161 on and without code in
      storage; otherwise with its balance and nonce, the code and storage that the result mentioned, or the code
      in storage and no slots. */
  ghost predicate ShownAs(b: Block, a: Address, mentioned: Option<EvmAccount>, v: Option<AccountBasic>,
                          shown: Option<EvmAccount>)
  {
    && (shown.None? <==> b.eip161 && b.state.Code(a).None? && Balance(v) == 0 && Nonce(v) == 0)
    && (shown.Some? ==>
          && shown.value.balance == Balance(v) && shown.value.nonce == Nonce(v)
          && (if mentioned.Some? then
                shown.value.code == mentioned.value.code && shown.value.storage == mentioned.value.storage
              else shown.value.code == b.state.Code(a) && shown.value.storage == map[]))
  }

  /** What the evaluation of `addresses` made of account a in the result of transaction i, v being the account
      the transaction left. */
  ghost predicate ResultShows(b: Block, data: MvData, addresses: set<Address>, before: Changes, after: Changes,
                              a: Address, i: nat, v: ReadValue)
  {
    if a in addresses && i in At(data, AccountAt(a)) then
      v.AccountValue? && a in after && ShownAs(b, a, Mentioned(before, a), v.account, after[a])
    else
      (a in after <==> a in before) && Mentioned(after, a) == Mentioned(before, a)
  }

  /** The results after the evaluation of `addresses` succeeded. */
  ghost predicate Evaluates(b: Block, data: MvData, addresses: set<Address>, before: seq<Changes>,
                            after: seq<Changes>)
  {
    AllInBlock(b, data) && AllPassed(b, data, addresses, before, after)
  }

  /** The result of transaction i shows account a as it is in order after that transaction, if it was evaluated
      there, and as before otherwise. */
  ghost predicate ShownInOrder(b: Block, data: MvData, addresses: set<Address>, before: seq<Changes>,
                               after: seq<Changes>, a: Address, i: nat)
  {
    && i < |b.txs| == |before| == |after| && Execute(b, i + 1).Some?
    && ResultShows(b, data, addresses, before[i], after[i], a, i,
                   View(b.state, Execute(b, i + 1).value.world, AccountAt(a)))
  }

  lemma ForwardShown(b: Block, data: MvData, addresses: set<Address>, before: seq<Changes>, after: seq<Changes>,
                     a: Address, i: nat, v: ReadValue)
    requires AllInBlock(b, data) && AllPassed(b, data, addresses, before, after) && i < |b.txs|
    requires i in At(data, AccountAt(a)) ==>
               SameAccount(v, Forward(b.state.Account(a), At(data, AccountAt(a)), i + 1))
    ensures ResultShows(b, data, addresses, before[i], after[i], a, i, v)
  {
    assert KeyPassed(data, addresses, before[i], after[i], a, i);
    assert Mentioned(after[i], a) == FinalAccount(b, data, addresses, before[i], a, i);
  }

  /** When the evaluation of a finished run without lazy transfers succeeds, every result shows every evaluated
      account as it is in order after its transaction, and leaves the others alone. */
  lemma ResultsSequential(b: Block, workers: nat, schedule: Schedule, addresses: set<Address>, before: seq<Changes>,
                          after: seq<Changes>, a: Address, i: nat)
    requires var s := Run(b, workers, schedule);
             && workers > 0 && AllExited(s) && !s.sched.aborted && !s.hist.lazyTaken && i < |b.txs|
             && Evaluates(b, s.mem.data, addresses, before, after)
    ensures ShownInOrder(b, Run(b, workers, schedule).mem.data, addresses, before, after, a, i)
  {
    var s := Run(b, workers, schedule);
    Serializable(b, workers, schedule);
    assert Agrees(b, s, i + 1);
    if i in At(s.mem.data, AccountAt(a)) { EvaluatorMatchesSequential(b, workers, schedule, a, i); }
    ForwardShown(b, s.mem.data, addresses, before, after, a, i,
                 View(b.state, Execute(b, i + 1).value.world, AccountAt(a)));
  }
}
