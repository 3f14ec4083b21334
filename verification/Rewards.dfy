/** Fee rewards: get_rewards of both chains, their merge into a write set, and the locations that
    build_mv_memory fills with ESTIMATE markers. */
module Rewards {
  import opened Types
  import opened Blocks

  /** The price per gas that goes to the beneficiary. */
  function PriorityPrice(b: Block, tx: Tx): U128 {
    var price: U128 :=
      match tx.priorityFee
      case Some(fee) =>
        var cap: U128 := if fee + b.basefee <= U128_MAX then fee + b.basefee else U128_MAX;
        if tx.gasPrice <= cap then tx.gasPrice else cap
      case None => tx.gasPrice;
    if !b.eip161 then price else if price >= b.basefee then price - b.basefee else 0
  }

  function GetRewards(b: Block, tx: Tx, gasUsed: U256): seq<(Address, U256)> {
    match b.chain
    case Ethereum => [(b.beneficiary, SatMul(PriorityPrice(b, tx), gasUsed))]
    case Rise(baseFee, l1Fee, operatorFee) =>
      if tx.isDeposit then []
      else [(b.beneficiary, SatMul(PriorityPrice(b, tx), gasUsed)),
            (baseFee, SatMul(b.basefee, gasUsed)),
            (l1Fee, 0),
            (operatorFee, 0)]
  }

  /** The accounts a transaction is expected to write: its pre-filled ESTIMATEs. */
  function Recipients(b: Block, tx: Tx): set<Address> {
    match b.chain
    case Ethereum => {b.beneficiary}
    case Rise(baseFee, l1Fee, operatorFee) =>
      if tx.isDeposit then {} else {b.beneficiary, baseFee, l1Fee, operatorFee}
  }

  function MergeReward(ws: WriteSet, a: Address, x: U256): (r: WriteSet)
    requires WellTyped(ws)
    ensures WellTyped(r)
    ensures r.Keys == ws.Keys + {AccountAt(a)}
  {
    var l := AccountAt(a);
    if l in ws then
      match ws[l]
      case Basic(account) => ws[l := Basic(account.(balance := SatAdd(account.balance, x)))]
      case LazySender(y) => ws[l := LazySender(SatSub(y, x))]
      case LazyRecipient(y) => ws[l := LazyRecipient(SatAdd(y, x))]
    else ws[l := LazyRecipient(x)]
  }

  function MergeRewards(ws: WriteSet, rewards: seq<(Address, U256)>): (r: WriteSet)
    requires WellTyped(ws)
    ensures WellTyped(r)
    decreases |rewards|
  {
    if rewards == [] then ws
    else MergeRewards(MergeReward(ws, rewards[0].0, rewards[0].1), rewards[1..])
  }

  /** The write set an execution records. */
  function FinalWrites(b: Block, tx: Tx, r: TxResult): (ws: WriteSet)
    requires WellTyped(r.writes)
    ensures WellTyped(ws)
  {
    MergeRewards(r.writes, GetRewards(b, tx, r.gasUsed))
  }

  lemma {:induction false} MergeKeys(ws: WriteSet, rewards: seq<(Address, U256)>)
    requires WellTyped(ws)
    ensures forall l :: l in MergeRewards(ws, rewards) <==>
                        l in ws || exists k :: 0 <= k < |rewards| && l == AccountAt(rewards[k].0)
    decreases |rewards|
  {
    if rewards != [] {
      var ws' := MergeReward(ws, rewards[0].0, rewards[0].1);
      MergeKeys(ws', rewards[1..]);
      forall l ensures l in MergeRewards(ws, rewards) <==>
                       l in ws || exists k :: 0 <= k < |rewards| && l == AccountAt(rewards[k].0)
      {
        if k :| 0 <= k < |rewards| && l == AccountAt(rewards[k].0) {
          if k > 0 { assert l == AccountAt(rewards[1..][k - 1].0); }
        }
      }
    }
  }

  /** Every pre-filled ESTIMATE is overwritten by the first write set the transaction records. */
  lemma RecipientsWritten(b: Block, tx: Tx, r: TxResult)
    requires WellTyped(r.writes)
    ensures forall a :: a in Recipients(b, tx) ==> AccountAt(a) in FinalWrites(b, tx, r)
  {
    var rewards := GetRewards(b, tx, r.gasUsed);
    MergeKeys(r.writes, rewards);
    forall a | a in Recipients(b, tx) ensures AccountAt(a) in FinalWrites(b, tx, r) {
      if b.chain.Ethereum? {
        assert AccountAt(a) == AccountAt(rewards[0].0);
      } else {
        assert exists k :: 0 <= k < 4 && AccountAt(a) == AccountAt(rewards[k].0) by {
          assert rewards[0].0 == b.beneficiary && rewards[1].0 == b.chain.baseFeeRecipient;
          assert rewards[2].0 == b.chain.l1FeeRecipient && rewards[3].0 == b.chain.operatorFeeRecipient;
        }
      }
    }
  }

  /** Merging touches nothing but the accounts it rewards. */
  lemma {:induction false} MergeElsewhere(ws: WriteSet, rewards: seq<(Address, U256)>, l: Location)
    requires WellTyped(ws) && forall k :: 0 <= k < |rewards| ==> l != AccountAt(rewards[k].0)
    ensures l in MergeRewards(ws, rewards) <==> l in ws
    ensures l in ws ==> MergeRewards(ws, rewards)[l] == ws[l]
    decreases |rewards|
  {
    if rewards != [] {
      assert l != AccountAt(rewards[0].0);
      MergeElsewhere(MergeReward(ws, rewards[0].0, rewards[0].1), rewards[1..], l);
    }
  }

  /** Outside the fee recipients, the recorded value is the one the execution wrote. */
  lemma OnlyRecipientsChange(b: Block, tx: Tx, r: TxResult, l: Location)
    requires WellTyped(r.writes) && forall a :: a in Recipients(b, tx) ==> l != AccountAt(a)
    ensures l in FinalWrites(b, tx, r) <==> l in r.writes
    ensures l in r.writes ==> FinalWrites(b, tx, r)[l] == r.writes[l]
  {
    var rewards := GetRewards(b, tx, r.gasUsed);
    forall k | 0 <= k < |rewards| ensures l != AccountAt(rewards[k].0) {
      assert rewards[k].0 in Recipients(b, tx);
    }
    MergeElsewhere(r.writes, rewards, l);
  }
}
