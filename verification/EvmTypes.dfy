/** Basic values of the EVM state database. */
module EvmTypes {

  datatype Option<+T> = None | Some(value: T)

  /** The result of an operation that can panic or fail with an error. */
  datatype Outcome<+T> = Panic | Ok(value: T)

  type Byte = b: nat | b < 256
  type Bytes = seq<Byte>

  /** A 20-byte account address. */
  type Address = nat

  /** A 32-byte word; 0 stands for the all-zero hash. */
  type Word = nat

  /** The precompile address 0x03. */
  const RIPEMD: Address := 3

  /** Keccak256(address ++ slot), the key a slot is stored under.  The hash is taken
      to be injective, so it is a constructor. */
  datatype StorageKey = StorageKey(owner: Address, slot: Word)

  /** Keccak256(code), again as an injective constructor. */
  datatype CodeHash = CodeHash(preimage: Bytes)

  const EMPTY_CODE_HASH := CodeHash([])

  predicate NoRepeats<T(==)>(s: seq<T>) {
    forall i, j :: 0 <= i < j < |s| ==> s[i] != s[j]
  }
}
