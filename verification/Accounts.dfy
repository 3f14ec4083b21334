/** Lazy balance deltas: the newest-first accumulation of VmDb::basic over a sign flag and an
    unsigned magnitude, the oldest-first fold of the end-of-block evaluator, and when they agree. */
module Accounts {
  import opened Types

  datatype Delta = Credit(amount: U256) | Debit(amount: U256)

  /** The pair (positive_addition, balance_addition). */
  datatype Signed = Signed(positive: bool, magnitude: U256) {
    function Value(): int {
      if positive then magnitude else 0 - magnitude
    }
  }

  const ZERO: Signed := Signed(true, 0)

  /** One iteration of the accumulation loop. */
  function Accumulate(acc: Signed, d: Delta): Signed {
    match d
    case Credit(x) =>
      if acc.positive then Signed(true, SatAdd(acc.magnitude, x))
      else Signed(x >= acc.magnitude, AbsDiff(acc.magnitude, x))
    case Debit(x) =>
      if acc.positive then Signed(acc.magnitude >= x, AbsDiff(acc.magnitude, x))
      else Signed(false, SatAdd(acc.magnitude, x))
  }

  /** Deltas are listed newest first, the order in which a read meets them. */
  function AccumulateAll(acc: Signed, ds: seq<Delta>): Signed
    decreases |ds|
  {
    if ds == [] then acc else AccumulateAll(Accumulate(acc, ds[0]), ds[1..])
  }

  function Debits(ds: seq<Delta>): nat
    decreases |ds|
  {
    if ds == [] then 0 else (if ds[0].Debit? then 1 else 0) + Debits(ds[1..])
  }

  /** The account an explicit read returns, given the deltas met on the way and the account found
      below them, if any. */
  function Settle(ds: seq<Delta>, base: Option<AccountBasic>): Option<AccountBasic> {
    var sum := AccumulateAll(ZERO, ds);
    var found :=
      if base.Some? then base
      else if sum.magnitude > 0 then Some(AccountBasic(0, 0))
      else None;
    if found.None? then None
    else
      Some(AccountBasic(
             if sum.positive then SatAdd(found.value.balance, sum.magnitude)
             else SatSub(found.value.balance, sum.magnitude),
             found.value.nonce + Debits(ds)))
  }

  // ---- Signed sums ----

  function Amount(d: Delta): int {
    if d.Credit? then d.amount else 0 - d.amount
  }

  function Sum(ds: seq<Delta>): int
    decreases |ds|
  {
    if ds == [] then 0 else Amount(ds[0]) + Sum(ds[1..])
  }

  predicate InRange(x: int) {
    -U256_MAX <= x <= U256_MAX
  }

  /** Every sum of newest deltas fits a 256-bit magnitude. */
  ghost predicate SumsInRange(start: int, ds: seq<Delta>) {
    forall m :: 0 <= m <= |ds| ==> InRange(start + Sum(ds[..m]))
  }

  lemma {:induction false} SumPrefix(ds: seq<Delta>, m: nat)
    requires 0 < m <= |ds|
    ensures Sum(ds[..m]) == Amount(ds[0]) + Sum(ds[1..][..m - 1])
  {
    assert ds[..m][1..] == ds[1..][..m - 1];
  }

  lemma {:induction false} AccumulateInRange(acc: Signed, ds: seq<Delta>)
    requires SumsInRange(acc.Value(), ds)
    ensures AccumulateAll(acc, ds).Value() == acc.Value() + Sum(ds)
    decreases |ds|
  {
    if ds != [] {
      var next := Accumulate(acc, ds[0]);
      SumPrefix(ds, 1);
      assert next.Value() == acc.Value() + Amount(ds[0]);
      forall m | 0 <= m <= |ds[1..]| ensures InRange(next.Value() + Sum(ds[1..][..m])) {
        SumPrefix(ds, m + 1);
      }
      AccumulateInRange(next, ds[1..]);
    }
  }

  /** The sign-and-magnitude loop represents the true signed sum after every iteration exactly when
      every running sum fits 256 bits. */
  lemma {:induction false} AccumulationExact(ds: seq<Delta>)
    ensures SumsInRange(0, ds) <==>
            forall m :: 0 <= m <= |ds| ==> AccumulateAll(ZERO, ds[..m]).Value() == Sum(ds[..m])
  {
    if SumsInRange(0, ds) {
      forall m | 0 <= m <= |ds| ensures AccumulateAll(ZERO, ds[..m]).Value() == Sum(ds[..m]) {
        forall k | 0 <= k <= m ensures InRange(Sum(ds[..m][..k])) {
          assert ds[..m][..k] == ds[..k];
        }
        AccumulateInRange(ZERO, ds[..m]);
      }
    }
  }

  function Total(ds: seq<Delta>): nat
    decreases |ds|
  {
    if ds == [] then 0 else ds[0].amount + Total(ds[1..])
  }

  lemma {:induction false} TotalBoundsSums(ds: seq<Delta>, m: nat)
    requires m <= |ds|
    ensures 0 - Total(ds) <= Sum(ds[..m]) <= Total(ds)
    decreases |ds|
  {
    if m > 0 {
      SumPrefix(ds, m);
      TotalBoundsSums(ds[1..], m - 1);
    }
  }

  /** Enough: credits plus debits below 2^256. */
  lemma SmallTotalExact(ds: seq<Delta>)
    requires Total(ds) <= U256_MAX
    ensures AccumulateAll(ZERO, ds).Value() == Sum(ds)
  {
    forall m | 0 <= m <= |ds| ensures InRange(Sum(ds[..m])) {
      TotalBoundsSums(ds, m);
    }
    AccumulateInRange(ZERO, ds);
  }

  function Clamp(x: int): U256 {
    if x < 0 then 0 else if x > U256_MAX then U256_MAX else x
  }

  /** Where every running sum fits, an explicit read adds the true sum to the account below the deltas, kept
      within 256 bits, and one nonce per debit; an absent account stays absent when the sum is zero. */
  lemma SettleClamps(ds: seq<Delta>, base: Option<AccountBasic>)
    requires SumsInRange(0, ds)
    ensures var start := if base.Some? then base.value else AccountBasic(0, 0);
            Settle(ds, base) ==
            if base.None? && Sum(ds) == 0 then None
            else Some(AccountBasic(Clamp(start.balance + Sum(ds)), start.nonce + Debits(ds)))
  {
    AccumulateInRange(ZERO, ds);
  }

  // ---- Credits only: the deltas that fee rewards leave ----

  ghost predicate AllCredits(ds: seq<Delta>) {
    forall k :: 0 <= k < |ds| ==> ds[k].Credit?
  }

  /** How sequential execution credits an account: a zero credit does not create one. */
  function CreditAccount(account: Option<AccountBasic>, x: U256): Option<AccountBasic> {
    match account
    case Some(a) => Some(a.(balance := SatAdd(a.balance, x)))
    case None => if x > 0 then Some(AccountBasic(x, 0)) else None
  }

  lemma {:induction false} CreditsAccumulate(m: U256, ds: seq<Delta>)
    requires AllCredits(ds)
    ensures AccumulateAll(Signed(true, m), ds) == Signed(true, Min(m + Total(ds), U256_MAX))
    ensures Debits(ds) == 0
    decreases |ds|
  {
    if ds != [] {
      CreditsAccumulate(SatAdd(m, ds[0].amount), ds[1..]);
    }
  }

  /** Saturating backward accumulation of credits equals crediting one at a time, oldest first. */
  lemma SettleCredit(x: U256, ds: seq<Delta>, base: Option<AccountBasic>)
    requires AllCredits(ds)
    ensures Settle([Credit(x)] + ds, base) == CreditAccount(Settle(ds, base), x)
  {
    var all := [Credit(x)] + ds;
    assert all[1..] == ds;
    CreditsAccumulate(0, ds);
    CreditsAccumulate(0, all);
  }

  lemma SettleNothing(base: Option<AccountBasic>)
    ensures Settle([], base) == base
  {
  }
}
