/** build_mv_memory of both chains: the loops that list who is expected to write which fee recipient. */
module Estimating {
  import opened Types
  import opened Blocks
  import opened Rewards
  import opened Machine

  type Expectation = map<Location, set<nat>>

  /** List transaction i as a writer of l. */
  function Push(estimates: Expectation, l: Location, i: nat): Expectation {
    estimates[l := (if l in estimates then estimates[l] else {}) + {i}]
  }

  predicate Lists(estimates: Expectation, a: Address, i: nat) {
    AccountAt(a) in estimates && i in estimates[AccountAt(a)]
  }

  /** The first k transactions are listed at their recipients, and nothing else is. */
  ghost predicate Listed(b: Block, estimates: Expectation, k: nat)
    requires k <= |b.txs|
  {
    && (forall l :: l in estimates ==> l.AccountAt? && estimates[l] != {})
    && (forall a, i: nat :: Lists(estimates, a, i) <==> i < k && a in Recipients(b, b.txs[i]))
  }

  method Indices(n: nat) returns (all: set<nat>)
    ensures forall j :: j in all <==> 0 <= j < n
  {
    all := {};
    for i := 0 to n
      invariant forall j :: j in all <==> 0 <= j < i
    {
      all := all + {i};
    }
  }

  method BuildEstimates(b: Block) returns (estimates: Expectation)
    ensures estimates == Estimates(b)
  {
    if b.chain.Ethereum? {
      var all := Indices(|b.txs|);
      assert all == Estimates(b)[AccountAt(b.beneficiary)];
      return map[AccountAt(b.beneficiary) := all];
    }
    var (baseFee, l1Fee) := (b.chain.baseFeeRecipient, b.chain.l1FeeRecipient);
    var operatorFee := b.chain.operatorFeeRecipient;
    estimates := map[];
    for i := 0 to |b.txs|
      invariant Listed(b, estimates, i)
    {
      if !b.txs[i].isDeposit {
        ghost var before := estimates;
        estimates := Push(estimates, AccountAt(b.beneficiary), i);
        estimates := Push(estimates, AccountAt(baseFee), i);
        estimates := Push(estimates, AccountAt(l1Fee), i);
        estimates := Push(estimates, AccountAt(operatorFee), i);
        PushedAll(b, before, estimates, i);
      }
    }
    ListedIsEstimates(b, estimates);
  }

  lemma PushedAll(b: Block, before: Expectation, after: Expectation, i: nat)
    requires b.chain.Rise? && i < |b.txs| && !b.txs[i].isDeposit && Listed(b, before, i)
    requires after == Push(Push(Push(Push(before, AccountAt(b.beneficiary), i), AccountAt(b.chain.baseFeeRecipient), i),
                                AccountAt(b.chain.l1FeeRecipient), i), AccountAt(b.chain.operatorFeeRecipient), i)
    ensures Listed(b, after, i + 1)
  {
    forall a, k: nat
      ensures Lists(after, a, k) <==> Lists(before, a, k) || (k == i && a in Recipients(b, b.txs[i]))
    {
    }
  }

  lemma ListedIsEstimates(b: Block, estimates: Expectation)
    requires b.chain.Rise? && Listed(b, estimates, |b.txs|)
    ensures estimates == Estimates(b)
  {
    forall l ensures l in estimates <==> l in Estimates(b) {
      if l in estimates {
        var i :| i in estimates[l];
        assert Lists(estimates, l.address, i);
      }
      if l in Estimates(b) {
        var i: nat, a :| i < |b.txs| && a in Recipients(b, b.txs[i]) && l == AccountAt(a);
        assert Lists(estimates, a, i);
      }
    }
    forall l | l in estimates ensures estimates[l] == Estimates(b)[l] {
      forall i: nat ensures i in estimates[l] <==> i in Estimates(b)[l] {
        assert Lists(estimates, l.address, i) <==> i in estimates[l];
      }
    }
  }
}
