/** The vocabulary of the engine: transaction statuses, memory locations, the
    values and entries of the multi-version store, and read origins. */
module Types {

  /** 2^256, the first integer a balance cannot hold. */
  const TWO_TO_THE_256: int :=
    115792089237316195423570985008687907853269984665640564039457584007913129639936

  type U256 = x: int | 0 <= x < TWO_TO_THE_256

  datatype Option<+T> = None | Some(value: T)

  /** The incarnation state machine of a transaction. */
  datatype Status = ReadyToExecute | Executing | Executed | Validated | Aborting

  datatype TxStatus = TxStatus(incarnation: nat, status: Status)

  /** An execution of a transaction, as workers pass it around. */
  datatype TxVersion = TxVersion(tx: nat, incarnation: nat)

  datatype Task = Execution(version: TxVersion) | Validation(version: TxVersion)

  /** Locations are identities; two different locations never collide. */
  datatype Loc = Basic(address: nat) | CodeHash(address: nat) | Slot(address: nat, key: nat)

  /** What a location can hold. Absent is an account storage does not know. */
  datatype Value =
    | Absent
    | Account(balance: U256, nonce: nat)
    | Code(hash: Option<nat>)
    | Word(word: nat)

  /** What a transaction writes: a value outright, or a change to a balance that
      whoever reads it later has to work out. */
  datatype Write = Strict(value: Value) | LazyRecipient(amount: U256) | LazySender(amount: U256)

  /** What the multi-version store keeps for one transaction at one location. */
  datatype Entry = Data(incarnation: nat, write: Write) | Estimate

  /** The entries of one location, by transaction index. */
  type Column = map<nat, Entry>

  type Store = map<Loc, Column>

  datatype Origin = MvMemory(version: TxVersion) | Storage

  /** The origins of one read: the newest first, down to a strict value or storage. */
  type Origins = seq<Origin>

  type ReadSet = map<Loc, Origins>

  predicate IsLazy(w: Write) {
    !w.Strict?
  }

  predicate NoDuplicates<T(==)>(xs: seq<T>) {
    forall i, j :: 0 <= i < j < |xs| ==> xs[i] != xs[j]
  }

  function Min(a: nat, b: nat): (m: nat)
    ensures m <= a && m <= b && (m == a || m == b)
  {
    if a < b then a else b
  }
}
