/** Transactions as deterministic programs of the values they read, and the block they form. */
module Blocks {
  import opened Types

  /** Writes of a fully evaluated execution: no lazy deltas. */
  ghost predicate Explicit(ws: WriteSet) {
    forall l :: l in ws ==> IsAbsolute(l, ws[l]) || (l.CodeAt? && ws[l].SelfDestructed?)
  }

  /** What the EVM returns, before fees are credited. */
  datatype TxResult = TxResult(writes: WriteSet, gasUsed: U256, receipt: nat)
  type ExplicitResult = r: TxResult | Explicit(r.writes) witness TxResult(map[], 0, 0)

  /** What a transaction does next, given the values it has read so far. */
  datatype Action =
    | Read(location: Location)
    // A call without code: evaluated lazily when sender or recipient already has an entry.
    | RawTransfer(from: Address, to: Address, debit: U256, credit: U256, gasUsed: U256, receipt: nat)
    | Finish(result: ExplicitResult)
    // A transaction error; `retriable` are the nonce and fund errors that wait for lower transactions.
    | Fail(retriable: bool)

  /** `step` is the interpreter; gas bounds the number of steps before it halts. */
  datatype Tx = Tx(
    step: seq<ReadValue> -> Action,
    stepLimit: nat,
    isDeposit: bool,
    gasPrice: U128,
    priorityFee: Option<U128>,
    caller: Address,
    nonce: nat,
    maxFee: U256)         // what the transaction can cost at most, its value included
  {
    function Next(history: seq<ReadValue>): Action {
      var a := step(history);
      if |history| >= stepLimit && (a.Read? || a.RawTransfer?) then Fail(false) else a
    }
  }

  datatype Chain =
    | Ethereum
    | Rise(baseFeeRecipient: Address, l1FeeRecipient: Address, operatorFeeRecipient: Address)

  datatype Block = Block(
    chain: Chain,
    beneficiary: Address,
    basefee: U64,
    eip161: bool,
    txs: seq<Tx>,
    state: ChainState)

  /** The lazily evaluated form of a raw transfer. */
  function LazyResult(a: Action): TxResult
    requires a.RawTransfer?
  {
    TxResult(map[AccountAt(a.to) := LazyRecipient(a.credit), AccountAt(a.from) := LazySender(a.debit)],
             a.gasUsed, a.receipt)
  }
}
