/** Fee merging conserves value: what folding the rewards into a write vector does to each account, and
    what the rewards of a transaction add up to. */
module Fees {
  import opened Types
  import opened Blocks
  import opened Rewards

  // ---- Conservation ----

  /** The balance effect of what a write set leaves at an account. */
  function Denote(ws: WriteSet, a: Address): int {
    var l := AccountAt(a);
    if l !in ws then 0
    else match ws[l]
      case Basic(account) => account.balance
      case LazyRecipient(x) => x
      case LazySender(x) => 0 - x
      case _ => 0
  }

  function RewardTo(rewards: seq<(Address, U256)>, a: Address): nat
    decreases |rewards|
  {
    if rewards == [] then 0
    else (if rewards[0].0 == a then rewards[0].1 else 0) + RewardTo(rewards[1..], a)
  }

  /** The reward can be added without leaving the range of the value it is added to. */
  predicate Fits(ws: WriteSet, a: Address, x: U256) {
    var l := AccountAt(a);
    l in ws ==>
      match ws[l]
      case Basic(account) => account.balance + x <= U256_MAX
      case LazyRecipient(y) => y + x <= U256_MAX
      case LazySender(y) => x <= y
      case _ => true
  }

  ghost predicate NeverSaturates(ws: WriteSet, rewards: seq<(Address, U256)>)
    requires WellTyped(ws)
    decreases |rewards|
  {
    rewards == [] ||
    (Fits(ws, rewards[0].0, rewards[0].1) && NeverSaturates(MergeReward(ws, rewards[0].0, rewards[0].1), rewards[1..]))
  }

  lemma MergeOne(ws: WriteSet, a: Address, x: U256, c: Address)
    requires WellTyped(ws)
    ensures var due := Denote(ws, c) + if c == a then x else 0;
            && Denote(MergeReward(ws, a, x), c) <= due
            && (Denote(MergeReward(ws, a, x), c) == due <==> c != a || Fits(ws, a, x))
  {
    assert AccountAt(a) in ws ==> FitsAt(AccountAt(a), ws[AccountAt(a)]);
  }

  /** Merging never creates value. */
  lemma {:induction false} MergeAtMost(ws: WriteSet, rewards: seq<(Address, U256)>, c: Address)
    requires WellTyped(ws)
    ensures Denote(MergeRewards(ws, rewards), c) <= Denote(ws, c) + RewardTo(rewards, c)
    decreases |rewards|
  {
    if rewards != [] {
      MergeOne(ws, rewards[0].0, rewards[0].1, c);
      MergeAtMost(MergeReward(ws, rewards[0].0, rewards[0].1), rewards[1..], c);
    }
  }

  /** Every account changes by exactly its total reward if and only if no addition saturates. */
  lemma {:induction false} FeesConserved(ws: WriteSet, rewards: seq<(Address, U256)>)
    requires WellTyped(ws)
    ensures NeverSaturates(ws, rewards) <==>
            forall c :: Denote(MergeRewards(ws, rewards), c) == Denote(ws, c) + RewardTo(rewards, c)
    decreases |rewards|
  {
    if rewards != [] {
      var (a, x) := rewards[0];
      var ws' := MergeReward(ws, a, x);
      FeesConserved(ws', rewards[1..]);
      forall c { MergeOne(ws, a, x, c); }
      if !Fits(ws, a, x) {
        MergeAtMost(ws', rewards[1..], a);
        assert Denote(MergeRewards(ws, rewards), a) < Denote(ws, a) + RewardTo(rewards, a);
      } else if !NeverSaturates(ws', rewards[1..]) {
        var c :| Denote(MergeRewards(ws', rewards[1..]), c) != Denote(ws', c) + RewardTo(rewards[1..], c);
        assert Denote(MergeRewards(ws, rewards), c) != Denote(ws, c) + RewardTo(rewards, c);
      }
    }
  }

  // ---- What the rewards of a transaction add up to ----

  /** EIP-1559: the fee cap, or the base fee plus the priority fee when that is less. */
  function EffectivePrice(b: Block, tx: Tx): nat {
    if tx.priorityFee.Some? then Min(tx.gasPrice, Min(tx.priorityFee.value + b.basefee, U128_MAX)) else tx.gasPrice
  }

  function Paid(rewards: seq<(Address, U256)>): nat
    decreases |rewards|
  {
    if rewards == [] then 0 else rewards[0].1 + Paid(rewards[1..])
  }

  lemma PaidFour(rewards: seq<(Address, U256)>)
    requires |rewards| == 4
    ensures Paid(rewards) == rewards[0].1 as int + rewards[1].1 as int + rewards[2].1 as int + rewards[3].1 as int
  {
    assert rewards[1..][1..] == rewards[2..] && rewards[2..][1..] == rewards[3..] && rewards[3..][1..] == [];
    assert Paid(rewards[3..]) == rewards[3].1;
    assert Paid(rewards[2..]) == rewards[2].1 as int + rewards[3].1 as int;
  }

  lemma Distributes(x: int, y: int, z: int)
    ensures (x - y) * z + y * z == x * z
  {
  }

  lemma MulMonotone(x: nat, y: nat, z: nat)
    requires x <= y
    ensures x * z <= y * z
  {
  }

  /** What of the effective price goes to the beneficiary: from EIP-161 on the base fee is taken off. */
  function Tip(b: Block, tx: Tx): nat {
    var price := EffectivePrice(b, tx);
    if !b.eip161 then price else if price >= b.basefee then price - b.basefee else 0
  }

  function Share(reward: (Address, U256), a: Address): nat {
    if reward.0 == a then reward.1 else 0
  }

  lemma RewardToFour(rewards: seq<(Address, U256)>, a: Address)
    requires |rewards| == 4
    ensures RewardTo(rewards, a) ==
            Share(rewards[0], a) + Share(rewards[1], a) + Share(rewards[2], a) + Share(rewards[3], a)
  {
    assert rewards[1..][1..] == rewards[2..] && rewards[2..][1..] == rewards[3..] && rewards[3..][1..] == [];
    assert RewardTo(rewards[3..], a) == Share(rewards[3], a);
    assert RewardTo(rewards[2..], a) == Share(rewards[2], a) + RewardTo(rewards[3..], a);
  }

  /** On RISE the beneficiary gets gas used times the tip and the base fee recipient gas used times the base
      fee; the other recipients are paid nothing, and nobody is paid by a deposit. */
  lemma RiseRewards(b: Block, tx: Tx, gasUsed: U256, a: Address)
    requires b.chain.Rise?
    ensures RewardTo(GetRewards(b, tx, gasUsed), a) ==
            if tx.isDeposit then 0
            else (if a == b.beneficiary then Min(Tip(b, tx) * gasUsed, U256_MAX) else 0)
                 + (if a == b.chain.baseFeeRecipient then Min(b.basefee * gasUsed, U256_MAX) else 0)
  {
    if !tx.isDeposit {
      assert PriorityPrice(b, tx) == Tip(b, tx);
      RewardToFour(GetRewards(b, tx, gasUsed), a);
    }
  }

  /** On Ethereum the beneficiary gets gas used times the tip, and nobody else anything. */
  lemma EthereumRewards(b: Block, tx: Tx, gasUsed: U256, a: Address)
    requires b.chain.Ethereum?
    ensures RewardTo(GetRewards(b, tx, gasUsed), a) ==
            if a == b.beneficiary then Min(Tip(b, tx) * gasUsed, U256_MAX) else 0
  {
    var rewards := GetRewards(b, tx, gasUsed);
    assert PriorityPrice(b, tx) == Tip(b, tx);
    assert |rewards| == 1 && rewards[1..] == [];
  }

  /** On RISE a deposit pays nothing, and any other transaction pays gas used times the effective gas
      price, or times the base fee when that is higher. */
  lemma RiseFees(b: Block, tx: Tx, gasUsed: U256)
    requires b.chain.Rise? && b.eip161
    requires EffectivePrice(b, tx) * gasUsed <= U256_MAX && b.basefee * gasUsed <= U256_MAX
    ensures var price := if EffectivePrice(b, tx) >= b.basefee then EffectivePrice(b, tx) else b.basefee;
            Paid(GetRewards(b, tx, gasUsed)) == if tx.isDeposit then 0 else price * gasUsed
  {
    if !tx.isDeposit {
      var (e, f) := (EffectivePrice(b, tx), b.basefee);
      assert PriorityPrice(b, tx) == if e >= f then e - f else 0;
      if e >= f {
        Distributes(e, f, gasUsed);
        MulMonotone(e - f, e, gasUsed);
      }
      PaidFour(GetRewards(b, tx, gasUsed));
    }
  }

  /** On Ethereum the beneficiary gets gas used times the effective price, less the base fee from EIP-161 on. */
  lemma EthereumFees(b: Block, tx: Tx, gasUsed: U256)
    requires b.chain.Ethereum? && EffectivePrice(b, tx) * gasUsed <= U256_MAX
    ensures var price := EffectivePrice(b, tx);
            var burnt := if b.eip161 then Min(b.basefee, price) else 0;
            && RewardTo(GetRewards(b, tx, gasUsed), b.beneficiary) == price * gasUsed - burnt * gasUsed
            && Paid(GetRewards(b, tx, gasUsed)) == price * gasUsed - burnt * gasUsed
  {
    var (e, p) := (EffectivePrice(b, tx), PriorityPrice(b, tx));
    var burnt := if b.eip161 then Min(b.basefee, e) else 0;
    assert p == e - burnt;
    Distributes(e, burnt, gasUsed);
    MulMonotone(e - burnt, e, gasUsed);
    var rewards := GetRewards(b, tx, gasUsed);
    assert |rewards| == 1 && rewards[0] == (b.beneficiary, SatMul(p, gasUsed)) && rewards[1..] == [];
  }

  // ---- The merge loop over the write vector ----

  type WriteVec = seq<(Location, MemoryValue)>

  predicate KeyAt(v: WriteVec, k: int, l: Location) {
    0 <= k < |v| && v[k].0 == l
  }

  /** The vector lists each location of the write set once, with its value. */
  ghost predicate Represents(v: WriteVec, ws: WriteSet) {
    && (forall p, q :: 0 <= p < q < |v| ==> v[p].0 != v[q].0)
    && (forall k :: 0 <= k < |v| ==> v[k].0 in ws && ws[v[k].0] == v[k].1)
    && (forall l :: l in ws ==> exists k :: KeyAt(v, k, l))
  }

  method Find(v: WriteVec, l: Location) returns (k: nat)
    ensures k <= |v| && (k < |v| ==> v[k].0 == l) && forall q :: 0 <= q < k ==> v[q].0 != l
  {
    k := 0;
    while k < |v| && v[k].0 != l
      invariant k <= |v| && forall q :: 0 <= q < k ==> v[q].0 != l
    {
      k := k + 1;
    }
  }

  lemma UpdateRepresents(v: WriteVec, ws: WriteSet, k: nat, x: MemoryValue)
    requires Represents(v, ws) && k < |v|
    ensures Represents(v[k := (v[k].0, x)], ws[v[k].0 := x])
  {
    var r := v[k := (v[k].0, x)];
    forall l | l in ws ensures exists q :: KeyAt(r, q, l) {
      var q :| KeyAt(v, q, l);
      assert KeyAt(r, q, l);
    }
  }

  lemma AppendRepresents(v: WriteVec, ws: WriteSet, l: Location, x: MemoryValue)
    requires Represents(v, ws) && forall q :: 0 <= q < |v| ==> v[q].0 != l
    ensures l !in ws && Represents(v + [(l, x)], ws[l := x])
  {
    var r := v + [(l, x)];
    assert KeyAt(r, |v|, l);
    forall k | k in ws ensures exists q :: KeyAt(r, q, k) {
      var q :| KeyAt(v, q, k);
      assert KeyAt(r, q, k);
    }
  }

  /** One reward: added to the entry of its account, or appended as a lazy credit. It is an error, never
      met on a well-typed write set, when that entry is not an account value. */
  method MergeOneInto(v: WriteVec, ghost ws: WriteSet, a: Address, x: U256) returns (ok: bool, r: WriteVec)
    requires Represents(v, ws)
    ensures WellTyped(ws) ==> ok && Represents(r, MergeReward(ws, a, x))
    ensures !ok ==> AccountAt(a) in ws && !FitsAt(AccountAt(a), ws[AccountAt(a)])
  {
    var l := AccountAt(a);
    var k := Find(v, l);
    ok, r := true, v;
    if k < |v| {
      assert l in ws && ws[l] == v[k].1;
      if v[k].1.Basic? {
        var account := v[k].1.account;
        r := v[k := (l, Basic(account.(balance := SatAdd(account.balance, x))))];
      } else if v[k].1.LazySender? {
        r := v[k := (l, LazySender(SatSub(v[k].1.subtraction, x)))];
      } else if v[k].1.LazyRecipient? {
        r := v[k := (l, LazyRecipient(SatAdd(v[k].1.addition, x)))];
      } else {
        ok := false;
      }
      UpdateRepresents(v, ws, k, r[k].1);
    } else {
      AppendRepresents(v, ws, l, LazyRecipient(x));
      r := v + [(l, LazyRecipient(x))];
    }
  }

  /** The reward loop of Vm::execute, on the write vector that an execution builds. Its error return
      is never taken. */
  method MergeInto(v: WriteVec, ghost ws: WriteSet, rewards: seq<(Address, U256)>) returns (ok: bool, r: WriteVec)
    requires Represents(v, ws) && WellTyped(ws)
    ensures ok && Represents(r, MergeRewards(ws, rewards))
  {
    ok, r := true, v;
    ghost var merged := ws;
    var k := 0;
    while k < |rewards|
      invariant k <= |rewards| && ok && WellTyped(merged) && Represents(r, merged)
      invariant MergeRewards(merged, rewards[k..]) == MergeRewards(ws, rewards)
    {
      ok, r := MergeOneInto(r, merged, rewards[k].0, rewards[k].1);
      if !ok { return; }
      assert rewards[k..][1..] == rewards[k + 1..];
      merged := MergeReward(merged, rewards[k].0, rewards[k].1);
      k := k + 1;
    }
  }
}
