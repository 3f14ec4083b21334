/** The values that workers exchange: memory locations, values and entries, versions,
    read origins, transaction statuses and tasks. */
module Types {

  /** Unsigned 256-bit words; arithmetic on them saturates. */
  const U256_MAX: int := 0xFFFFFFFFFFFFFFFFFFFFFFFFFFFFFFFFFFFFFFFFFFFFFFFFFFFFFFFFFFFFFFFF
  type U256 = x: int | 0 <= x <= U256_MAX

  const U128_MAX: int := 0xFFFFFFFFFFFFFFFFFFFFFFFFFFFFFFFF
  type U128 = x: int | 0 <= x <= U128_MAX

  const U64_MAX: int := 0xFFFFFFFFFFFFFFFF
  type U64 = x: int | 0 <= x <= U64_MAX

  /** 2^n, by repeated squaring. */
  function Pow2(n: nat): nat {
    if n == 0 then 1
    else if n % 2 == 1 then 2 * Pow2(n - 1)
    else
      var half := Pow2(n / 2);
      half * half
  }

  /** The largest words are 2^64 - 1, 2^128 - 1 and 2^256 - 1. */
  lemma WordWidths()
    ensures Pow2(64) == U64_MAX + 1 && Pow2(128) == U128_MAX + 1 && Pow2(256) == U256_MAX + 1
  {
    assert Pow2(32) == 0x1_0000_0000;
  }

  function SatAdd(x: U256, y: U256): U256 {
    if x + y <= U256_MAX then x + y else U256_MAX
  }

  function SatSub(x: U256, y: U256): U256 {
    if x >= y then x - y else 0
  }

  function SatMul(x: U256, y: U256): U256 {
    if x * y <= U256_MAX then x * y else U256_MAX
  }

  function AbsDiff(x: U256, y: U256): U256 {
    if x >= y then x - y else y - x
  }

  function Min(x: nat, y: nat): nat {
    if x <= y then x else y
  }

  datatype Option<+T> = None | Some(value: T)

  type Address = nat
  type Hash = nat

  datatype AccountBasic = AccountBasic(balance: U256, nonce: nat)

  /** A memory location. Distinct locations are assumed to have distinct hashes. */
  datatype Location =
    | AccountAt(address: Address)
    | CodeAt(address: Address)
    | SlotAt(address: Address, slot: U256)

  datatype MemoryValue =
    | Basic(account: AccountBasic)
    | CodeHash(hash: Hash)
    | Storage(word: U256)
    | LazyRecipient(addition: U256)    // explicit balance addition
    | LazySender(subtraction: U256)    // explicit balance subtraction, implicit nonce increment
    | SelfDestructed

  datatype MemoryEntry =
    | Data(incarnation: nat, value: MemoryValue)
    | Estimate

  /** What is stored for one location: the entry of each transaction that wrote it. */
  type Entries = map<nat, MemoryEntry>

  datatype Version = Version(tx: nat, incarnation: nat)

  datatype Origin = FromMv(version: Version) | FromStorage

  type ReadSet = map<Location, seq<Origin>>
  type WriteSet = map<Location, MemoryValue>

  datatype Status = ReadyToExecute | Executing | Executed | Validated | Aborting
  datatype TxStatus = TxStatus(incarnation: nat, status: Status)

  datatype Task = Execution(version: Version) | Validation(version: Version)

  /** A value that replaces whatever was at the location. */
  predicate IsAbsolute(l: Location, v: MemoryValue) {
    match l
    case AccountAt(_) => v.Basic?
    case CodeAt(_) => v.CodeHash?
    case SlotAt(_, _) => v.Storage?
  }

  /** A value that adjusts the account found further back. */
  predicate IsLazy(l: Location, v: MemoryValue) {
    l.AccountAt? && (v.LazyRecipient? || v.LazySender?)
  }

  /** The kind of value a transaction may leave at a location. */
  predicate FitsAt(l: Location, v: MemoryValue) {
    IsAbsolute(l, v) || IsLazy(l, v) || (l.CodeAt? && v.SelfDestructed?)
  }

  ghost predicate WellTyped(ws: WriteSet) {
    forall l :: l in ws ==> FitsAt(l, ws[l])
  }

  /** State before the block. Absent slots read as zero. */
  datatype ChainState = ChainState(
    accounts: map<Address, AccountBasic>,
    codes: map<Address, Hash>,
    slots: map<(Address, U256), U256>)
  {
    function Account(a: Address): Option<AccountBasic> {
      if a in accounts then Some(accounts[a]) else None
    }
    function Code(a: Address): Option<Hash> {
      if a in codes then Some(codes[a]) else None
    }
    function Slot(a: Address, k: U256): U256 {
      if (a, k) in slots then slots[(a, k)] else 0
    }
  }

  /** What a transaction sees when it reads a location. */
  datatype ReadValue =
    | AccountValue(account: Option<AccountBasic>)
    | CodeValue(code: Option<Hash>)
    | SlotValue(word: U256)
    | DestroyedValue    // the code location of a self-destructed account
    | NotLazy           // the answer of the lazy-transfer probe when it finds no entry
}
