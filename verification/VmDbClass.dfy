/** The database of one worker: tracked reads of the multi-version memory, with the backward loop that
    evaluates lazy deltas on the way, the lazy-transfer probe, its mock accounts and the sender's nonce. */
module VmDbClass {
  import opened Types
  import opened Accounts
  import opened Reads
  import opened ReadLaws
  import opened Machine
  import opened Serializability
  import opened MvMemoryClass

  // ---- A walk in progress ----

  lemma ResumeNext(os: seq<Origin>, ds: seq<Delta>, o: Origin, d: Delta, rest: Walked)
    ensures Resume(os, ds, Beyond(o, d, rest)) == Resume(os + [o], ds + [d], rest)
  {
    match rest
    case Found(x, t) =>
      assert os + ([o] + x) == os + [o] + x && ds + ([d] + t.deltas) == ds + [d] + t.deltas;
    case Estimated(x, _) => assert os + ([o] + x) == os + [o] + x;
    case Invalid(x) => assert os + ([o] + x) == os + [o] + x;
    case Destroyed =>
  }

  lemma {:induction false} AccumulateOne(acc: Signed, ds: seq<Delta>, d: Delta)
    ensures AccumulateAll(acc, ds + [d]) == Accumulate(AccumulateAll(acc, ds), d)
    ensures Debits(ds + [d]) == Debits(ds) + if d.Debit? then 1 else 0
    decreases |ds|
  {
    if ds == [] {
      assert ds + [d] == [d] && [d][1..] == [];
    } else {
      assert (ds + [d])[1..] == ds[1..] + [d];
      AccumulateOne(Accumulate(acc, ds[0]), ds[1..], d);
    }
  }

  // ---- One entry of an account walk ----

  function DeltasOf(l: Location, v: MemoryValue): seq<Delta> {
    if IsLazy(l, v) then [DeltaOf(v)] else []
  }

  function WalkPast(l: Location, h: Entries, c: nat): Walked
    requires c in h && h[c].Data?
  {
    if IsLazy(l, h[c].value) then Walk(l, h, c)
    else if IsAbsolute(l, h[c].value) then Found([], Trace([], Some(h[c].value)))
    else Invalid([])
  }

  lemma {:induction false} NeverDestroyed(l: Location, h: Entries, i: nat)
    requires !l.CodeAt?
    ensures !Walk(l, h, i).Destroyed?
    decreases i
  {
    if i > 0 { NeverDestroyed(l, h, i - 1); }
  }

  lemma VisitEntry(l: Location, h: Entries, at: nat, c: nat, os: seq<Origin>, ds: seq<Delta>)
    requires l.AccountAt? && Closest(h, at) == Some(c) && h[c].Data?
    ensures Resume(os, ds, Walk(l, h, at)) ==
            Resume(os + [OriginOf(h, c)], ds + DeltasOf(l, h[c].value), WalkPast(l, h, c))
    ensures !WalkPast(l, h, c).Destroyed?
  {
    WalkSkips(l, h, at);
    NeverDestroyed(l, h, c);
    if IsLazy(l, h[c].value) { ResumeNext(os, ds, OriginOf(h, c), DeltaOf(h[c].value), Walk(l, h, c)); }
  }

  /** Once a walk leaves the origins of the first read, the repeated read is inconsistent. */
  lemma DivergedIsInconsistent(cs: ChainState, l: Location, h: Entries, i: nat, prev: seq<Origin>,
                               os: seq<Origin>, ds: seq<Delta>, rest: Walked)
    requires l.AccountAt? && prev != [] && !(os <= prev) && Walk(l, h, i) == Resume(os, ds, rest) && !rest.Destroyed?
    ensures ReadLocation(cs, l, h, i, prev) == Inconsistent
  {
    WalkNonEmpty(l, h, i);
    assert forall x: seq<Origin> :: os + x <= prev ==> os <= prev;
  }

  // ---- Whole reads ----

  /** One tracked read: its outcome and the read set it leaves. */
  function TrackedRead(cs: ChainState, data: MvData, i: nat, rs: ReadSet, l: Location): (ReadOutcome, ReadSet) {
    var prev := PrevOrigins(rs, l);
    var r := ReadLocation(cs, l, At(data, l), i, prev);
    (r, rs[l := if r.Ok? then r.origins else prev])
  }

  /** What the database knows of the transaction it serves; no recipient: a deployment. */
  datatype TxInfo = TxInfo(caller: Address, nonce: nat, to: Option<Address>, hasNonce: bool)

  /** No code stands for the hash of the empty code. */
  datatype AccountInfo = AccountInfo(account: AccountBasic, code: Option<Hash>)

  datatype Answer =
    | Info(info: Option<AccountInfo>)
    | Refused(read: ReadOutcome)
    | InvalidNonce

  predicate IsMocked(tx: TxInfo, isLazy: bool, a: Address) {
    isLazy && (a == tx.caller || tx.to == Some(a))
  }

  /** The account itself, evaluated through lazy deltas, then the nonce if it is the sender, then its code. */
  function AccountAnswer(cs: ChainState, data: MvData, i: nat, tx: TxInfo, toCode: Option<Hash>, rs: ReadSet,
                         a: Address): (r: (Answer, ReadSet))
    ensures r.0.Refused? ==> !r.0.read.Ok?
    ensures r.0.Info? && r.0.info.Some? && tx.hasNonce && a == tx.caller ==> r.0.info.value.account.nonce == tx.nonce
  {
    var (read, rs1) := TrackedRead(cs, data, i, rs, AccountAt(a));
    if !read.Ok? then (Refused(read), rs1)
    else if read.value.account.None? then (Info(None), rs1)
    else
      var account := read.value.account.value;
      if tx.hasNonce && a == tx.caller && tx.nonce != account.nonce then
        (if i > 0 then Refused(Blocking(i - 1)) else InvalidNonce, rs1)
      else if tx.to == Some(a) then (Info(Some(AccountInfo(account, toCode))), rs1)
      else
        var (code, rs2) := TrackedRead(cs, data, i, rs1, CodeAt(a));
        (if code.Ok? then Info(Some(AccountInfo(account, code.value.code))) else Refused(code), rs2)
  }

  function AccountOf(info: Option<AccountInfo>): Option<AccountBasic> {
    if info.Some? then Some(info.value.account) else None
  }

  /** After the read of l the read set has the origins of its walk, or those of the first read. */
  predicate Noted(data: MvData, i: nat, rs: ReadSet, rs': ReadSet, l: Location) {
    var walked := Walk(l, At(data, l), i);
    walked.Found? && l in rs' && rs'[l] == if PrevOrigins(rs, l) == [] then walked.origins else PrevOrigins(rs, l)
  }

  /** The sender has another nonce than its transaction. */
  predicate WrongNonce(tx: TxInfo, a: Address, v: ReadValue) {
    tx.hasNonce && a == tx.caller && v.AccountValue? && v.account.Some? && v.account.value.nonce != tx.nonce
  }

  /** A tracked read that succeeds returns what the entries below i evaluate to and notes where it is from. */
  lemma TrackedReadSees(cs: ChainState, data: MvData, i: nat, rs: ReadSet, l: Location)
    ensures var (r, rs') := TrackedRead(cs, data, i, rs, l);
            && (r.Ok? ==> r.value == Evaluated(cs, l, At(data, l), i) && Noted(data, i, rs, rs', l))
            && (forall x :: x != l ==> (x in rs' <==> x in rs) && PrevOrigins(rs', x) == PrevOrigins(rs, x))
  {
    WalkNonEmpty(l, At(data, l), i);
  }

  /** What is answered: the account and its code are what the entries below i evaluate to, but the code of the
      recipient is what was read for it at the start, and what was read is in the read set. */
  ghost predicate Answered(cs: ChainState, data: MvData, i: nat, tx: TxInfo, toCode: Option<Hash>, rs: ReadSet,
                           a: Address, info: Option<AccountInfo>, rs': ReadSet)
  {
    var (l, k) := (AccountAt(a), CodeAt(a));
    && Evaluated(cs, l, At(data, l), i) == AccountValue(AccountOf(info)) && Noted(data, i, rs, rs', l)
    && (info.Some? ==>
          if tx.to == Some(a) then info.value.code == toCode
          else CodeValue(info.value.code) == Evaluated(cs, k, At(data, k), i) && Noted(data, i, rs, rs', k))
  }

  /** When what is answered: a request is refused exactly when the account cannot be read, its nonce is not the
      transaction's, or its code cannot be read. */
  ghost predicate Refuses(cs: ChainState, data: MvData, i: nat, tx: TxInfo, rs: ReadSet, a: Address, r: Answer) {
    var account := TrackedRead(cs, data, i, rs, AccountAt(a)).0;
    var code := TrackedRead(cs, data, i, rs, CodeAt(a)).0;
    if !account.Ok? then r == Refused(account)
    else if WrongNonce(tx, a, account.value) then r == (if i > 0 then Refused(Blocking(i - 1)) else InvalidNonce)
    else if account.value == AccountValue(None) || tx.to == Some(a) || code.Ok? then r.Info?
    else r == Refused(code)
  }

  ghost predicate Elsewhere(rs: ReadSet, rs': ReadSet, a: Address) {
    forall x :: x != AccountAt(a) && x != CodeAt(a) ==>
      (x in rs' <==> x in rs) && PrevOrigins(rs', x) == PrevOrigins(rs, x)
  }

  lemma AnswersExactly(cs: ChainState, data: MvData, i: nat, tx: TxInfo, toCode: Option<Hash>, rs: ReadSet, a: Address)
    ensures var (r, rs') := AccountAnswer(cs, data, i, tx, toCode, rs, a);
            && (r.Info? ==> Answered(cs, data, i, tx, toCode, rs, a, r.info, rs'))
            && Refuses(cs, data, i, tx, rs, a, r) && Elsewhere(rs, rs', a)
  {
    var (account, rs1) := TrackedRead(cs, data, i, rs, AccountAt(a));
    TrackedReadSees(cs, data, i, rs, AccountAt(a));
    TrackedReadSees(cs, data, i, rs1, CodeAt(a));
    assert TrackedRead(cs, data, i, rs1, CodeAt(a)).0 == TrackedRead(cs, data, i, rs, CodeAt(a)).0;
  }

  class VmDb {
    const state: ChainState
    const memory: MvMemory
    var txIdx: nat
    var tx: TxInfo
    var toCode: Option<Hash>
    var isLazy: bool
    var readSet: ReadSet
    var readAccounts: map<Location, AccountInfo>

    constructor (state: ChainState, memory: MvMemory)
      ensures this.state == state && this.memory == memory && readSet == map[] && readAccounts == map[] && !isLazy
    {
      this.state, this.memory, txIdx, tx := state, memory, 0, TxInfo(0, 0, None, false);
      toCode, isLazy, readSet, readAccounts := None, false, map[], map[];
    }

    /** A call first reads the code of its recipient; it is lazy when there is none and the sender or the
        recipient has entries. */
    method SetTx(i: nat, tx: TxInfo) returns (failed: Option<ReadOutcome>)
      modifies this
      ensures txIdx == i && this.tx == tx && readAccounts == map[]
      ensures tx.to.None? ==> failed.None? && readSet == map[] && toCode.None?
      ensures tx.to.Some? ==>
                var at := CodeAt(tx.to.value);
                var (code, rs) := TrackedRead(state, memory.data, i, map[], at);
                && readSet == rs && failed == (if code.Ok? then None else Some(code))
                && toCode == (if code.Ok? then code.value.code else None)
                && (code.Ok? ==> CodeValue(toCode) == Evaluated(state, at, At(memory.data, at), i))
      ensures isLazy <==> failed.None? && tx.to.Some? && toCode.None? &&
                          (AccountAt(tx.caller) in memory.data || AccountAt(tx.to.value) in memory.data)
    {
      txIdx, this.tx, toCode, isLazy, readSet, readAccounts := i, tx, None, false, map[], map[];
      if tx.to.Some? {
        var code := GetCodeHash(tx.to.value);
        if !code.Ok? { return Some(code); }
        toCode := code.value.code;
        isLazy := toCode.None? && (AccountAt(tx.caller) in memory.data || AccountAt(tx.to.value) in memory.data);
      }
      failed := None;
    }

    /** What a read of l returns and leaves in the read set. */
    twostate predicate Tracked(l: Location, r: ReadOutcome)
      reads this, memory
    {
      var (read, rs) := TrackedRead(state, memory.data, txIdx, old(readSet), l);
      r == read && readSet == rs
    }

    method PushOrigin(l: Location, o: Origin) returns (ok: bool)
      requires l in readSet
      modifies this`readSet
      ensures ok <==> old(readSet)[l] == [] || old(readSet)[l][|old(readSet)[l]| - 1] == o
      ensures readSet == if old(readSet)[l] == [] then old(readSet)[l := [o]] else old(readSet)
    {
      var prev := readSet[l];
      if prev != [] { return prev[|prev| - 1] == o; }
      readSet := readSet[l := [o]];
      ok := true;
    }

    method GetCodeHash(a: Address) returns (r: ReadOutcome)
      modifies this`readSet
      ensures Tracked(CodeAt(a), r)
    {
      var l := CodeAt(a);
      var h := At(memory.data, l);
      readSet := readSet[l := PrevOrigins(readSet, l)];
      WalkSkips(l, h, txIdx);
      var closest := Closest(h, txIdx);
      if closest.Some? && h[closest.value].Data? {
        var e := h[closest.value];
        if e.value.SelfDestructed? { return Fallback; }
        if e.value.CodeHash? {
          var ok := PushOrigin(l, FromMv(Version(closest.value, e.incarnation)));
          return if ok then Ok(readSet[l], CodeValue(Some(e.value.hash))) else Inconsistent;
        }
      }
      var ok := PushOrigin(l, FromStorage);
      r := if ok then Ok(readSet[l], CodeValue(state.Code(a))) else Inconsistent;
    }

    method Storage(a: Address, slot: U256) returns (r: ReadOutcome)
      modifies this`readSet
      ensures Tracked(SlotAt(a, slot), r)
    {
      var l := SlotAt(a, slot);
      var h := At(memory.data, l);
      readSet := readSet[l := PrevOrigins(readSet, l)];
      WalkSkips(l, h, txIdx);
      var closest := Closest(h, txIdx);
      if txIdx > 0 && closest.Some? {
        var e := h[closest.value];
        if e.Data? && e.value.Storage? {
          var ok := PushOrigin(l, FromMv(Version(closest.value, e.incarnation)));
          return if ok then Ok(readSet[l], SlotValue(e.value.word)) else Inconsistent;
        }
        return if e.Estimate? then Blocking(closest.value) else BadType;
      }
      var ok := PushOrigin(l, FromStorage);
      r := if ok then Ok(readSet[l], SlotValue(state.Slot(a, slot))) else Inconsistent;
    }

    /** The outcome of the backward loop of `basic`. */
    ghost predicate Walks(l: Location, h: Entries, os: seq<Origin>, ds: seq<Delta>, account: Option<AccountBasic>)
      reads this
    {
      Walk(l, h, txIdx) ==
      if account.Some? then Found(os, Trace(ds, Some(MemoryValue.Basic(account.value))))
      else Found(os + [FromStorage], Trace(ds, None))
    }

    /** Newest first, through lazy deltas, down to an absolute account or the end of the entries. */
    method WalkBack(l: Location, h: Entries, prev: seq<Origin>)
      returns (failed: Option<ReadOutcome>, os: seq<Origin>, account: Option<AccountBasic>, sum: Signed, nonces: nat,
               ghost ds: seq<Delta>)
      requires l.AccountAt?
      ensures failed.Some? ==> failed.value == ReadLocation(state, l, h, txIdx, prev) && !failed.value.Ok?
      ensures failed.None? ==>
                && Walks(l, h, os, ds, account) && (account.Some? ==> os != [])
                && (prev != [] ==> os <= prev) && (forall k :: 0 <= k < |os| ==> os[k].FromMv?)
                && sum == AccumulateAll(ZERO, ds) && nonces == Debits(ds)
    {
      failed, os, account, ds := None, [], None, [];
      var addition: U256, positive := 0, true;
      nonces := 0;
      sum := Signed(positive, addition);
      var at: nat, more := txIdx, true;
      while more
        invariant at <= txIdx && (prev != [] ==> os <= prev) && (forall k :: 0 <= k < |os| ==> os[k].FromMv?)
        invariant sum == Signed(positive, addition) == AccumulateAll(ZERO, ds) && nonces == Debits(ds)
        invariant if more then account.None? && Walk(l, h, txIdx) == Resume(os, ds, Walk(l, h, at))
                  else Walks(l, h, os, ds, account) && (account.Some? ==> os != [])
        decreases more, at
      {
        WalkSkips(l, h, at);
        var closest := Closest(h, at);
        if closest.None? {
          more := false;
        } else {
          var c := closest.value;
          if h[c].Estimate? { return Some(Blocking(c)), os, account, sum, nonces, ds; }
          var (o, value) := (FromMv(Version(c, h[c].incarnation)), h[c].value);
          VisitEntry(l, h, at, c, os, ds);
          if prev != [] && (|prev| == |os| || prev[|os|] != o) {
            DivergedIsInconsistent(state, l, h, txIdx, prev, os + [o], ds + DeltasOf(l, value), WalkPast(l, h, c));
            return Some(Inconsistent), os, account, sum, nonces, ds;
          }
          os := os + [o];
          if value.Basic? {
            account, more := Some(value.account), false;
          } else if value.LazyRecipient? {
            if positive {
              addition := SatAdd(addition, value.addition);
            } else {
              positive, addition := value.addition >= addition, AbsDiff(addition, value.addition);
            }
          } else if value.LazySender? {
            if positive {
              positive, addition := addition >= value.subtraction, AbsDiff(addition, value.subtraction);
            } else {
              addition := SatAdd(addition, value.subtraction);
            }
            nonces := nonces + 1;
          } else {
            return Some(BadType), os, account, sum, nonces, ds;
          }
          if IsLazy(l, value) { AccumulateOne(ZERO, ds, DeltaOf(value)); }
          assert !IsLazy(l, value) ==> ds + DeltasOf(l, value) == ds;
          ds := ds + DeltasOf(l, value);
          sum := Signed(positive, addition);
          at := c;
        }
      }
    }

    /** The account of `basic`, without nonce check and code. */
    method ReadAccount(a: Address) returns (r: ReadOutcome)
      modifies this`readSet
      ensures Tracked(AccountAt(a), r)
    {
      var l := AccountAt(a);
      var h := At(memory.data, l);
      var prev := PrevOrigins(readSet, l);
      readSet := readSet[l := prev];
      var failed, os, account, sum, nonces, ds := WalkBack(l, h, prev);
      if failed.Some? { return failed.value; }
      if account.None? {
        if prev == [] {
          os := os + [FromStorage];
        } else if |prev| != |os| + 1 || prev[|prev| - 1] != FromStorage {
          return Inconsistent;
        }
        account := if state.Account(a).Some? then state.Account(a)
                   else if sum.magnitude > 0 then Some(AccountBasic(0, 0)) else None;
      }
      if prev == [] { readSet := readSet[l := os]; }
      if account.Some? {
        var balance := if sum.positive then SatAdd(account.value.balance, sum.magnitude)
                       else SatSub(account.value.balance, sum.magnitude);
        account := Some(AccountBasic(balance, account.value.nonce + nonces));
      }
      r := Ok(readSet[l], AccountValue(account));
    }

    /** A mock for sender and recipient of a lazy transfer; anything else is read, and what was found kept. */
    method Basic(a: Address) returns (r: Answer)
      modifies this`readSet, this`readAccounts
      ensures if IsMocked(tx, isLazy, a) then
                && readSet == old(readSet)
                && r == Info(if a == tx.caller then Some(AccountInfo(AccountBasic(U256_MAX, tx.nonce), None)) else None)
              else
                (r, readSet) == AccountAnswer(state, memory.data, txIdx, tx, toCode, old(readSet), a)
      ensures readAccounts == if !IsMocked(tx, isLazy, a) && r.Info? && r.info.Some?
                              then old(readAccounts)[AccountAt(a) := r.info.value] else old(readAccounts)
      ensures r.Info? && r.info.Some? && tx.hasNonce && a == tx.caller ==> r.info.value.account.nonce == tx.nonce
      ensures !IsMocked(tx, isLazy, a) && r.Info? ==>
                Answered(state, memory.data, txIdx, tx, toCode, old(readSet), a, r.info, readSet)
      ensures !IsMocked(tx, isLazy, a) ==>
                Refuses(state, memory.data, txIdx, tx, old(readSet), a, r) && Elsewhere(old(readSet), readSet, a)
    {
      AnswersExactly(state, memory.data, txIdx, tx, toCode, readSet, a);
      if isLazy {
        if a == tx.caller { return Info(Some(AccountInfo(AccountBasic(U256_MAX, tx.nonce), None))); }
        if tx.to == Some(a) { return Info(None); }
      }
      var read := ReadAccount(a);
      if !read.Ok? { return Refused(read); }
      if read.value.account.None? { return Info(None); }
      var account := read.value.account.value;
      if tx.hasNonce && a == tx.caller && tx.nonce != account.nonce {
        return if txIdx > 0 then Refused(Blocking(txIdx - 1)) else InvalidNonce;
      }
      var code := toCode;
      if tx.to != Some(a) {
        var found := GetCodeHash(a);
        if !found.Ok? { return Refused(found); }
        code := found.value.code;
      }
      readAccounts := readAccounts[AccountAt(a) := AccountInfo(account, code)];
      r := Info(Some(AccountInfo(account, code)));
    }
  }
}
