/** State objects: one account with its write-back caches over the stores.
    Here both caches are maps; StateObjectCache shows that the slices with index
    maps kept by the program refine them. */
module StateObjects {
  import opened EvmTypes

  datatype Account = Account(balance: nat, sequence: nat, codeHash: CodeHash)

  /** The account mapper, the storage and code stores, and the bank blacklist. */
  datatype Stores = Stores(
    accounts: map<Address, Account>,
    storage: map<StorageKey, Word>,
    code: map<CodeHash, Bytes>,
    blacklist: set<Address>)
  {
    function Word(k: StorageKey): Word {
      if k in storage then storage[k] else 0
    }

    /** Code is stored under its own hash, and the code of every account is there. */
    ghost predicate Valid() {
      && (forall h :: h in code ==> code[h] == h.preimage)
      && (forall a :: a in accounts ==> HasCode(accounts[a].codeHash))
    }

    predicate HasCode(h: CodeHash) {
      h == EMPTY_CODE_HASH || h in code
    }
  }

  datatype StateObject = StateObject(
    address: Address,
    account: Account,
    code: Option<Bytes>,
    origin: map<StorageKey, Word>,
    dirty: map<StorageKey, Word>,
    dirtyCode: bool,
    suicided: bool,
    deleted: bool)
  {
    function Key(slot: Word): StorageKey {
      StorageKey(address, slot)
    }

    /** Cached origins equal the store, every dirty key has an origin, cached keys
        belong to this account, loaded code matches the code hash, and code that is not
        in the store yet is loaded and marked for writing. */
    ghost predicate Valid(st: Stores) {
      && (forall k :: k in origin ==> origin[k] == st.Word(k) && k.owner == address)
      && dirty.Keys <= origin.Keys
      && (code.Some? ==> account.codeHash == CodeHash(code.value))
      && (st.HasCode(account.codeHash) || (code.Some? && dirtyCode))
    }

    /** The value a slot has for a reader: the last write, or else the store. */
    function ValueAt(st: Stores, slot: Word): (v: Word) {
      if Key(slot) in dirty then dirty[Key(slot)] else st.Word(Key(slot))
    }

    /** Code(): the loaded code, or what the code store holds for the hash. */
    function LoadCode(st: Stores): (c: Option<Bytes>) {
      if code.Some? && code.value != [] then code
      else if account.codeHash == EMPTY_CODE_HASH then None
      else if account.codeHash in st.code then Some(st.code[account.codeHash])
      else None
    }

    function CodeBytes(st: Stores): (c: Bytes) {
      var c := LoadCode(st);
      if c.Some? then c.value else []
    }

    /** EIP-161 emptiness. */
    predicate Empty() {
      account.sequence == 0 && account.balance == 0 && account.codeHash == EMPTY_CODE_HASH
    }

    /** GetCommittedState: the cached origin, or a load that fills the cache. */
    function GetCommittedState(st: Stores, slot: Word): (r: (StateObject, Word))
      ensures Valid(st) ==> r.1 == st.Word(Key(slot)) && r.0.Valid(st)
      ensures r.0 == this.(origin := r.0.origin) && r.0.origin.Keys == origin.Keys + {Key(slot)}
    {
      if Key(slot) in origin then (this, origin[Key(slot)])
      else (this.(origin := origin[Key(slot) := st.Word(Key(slot))]), st.Word(Key(slot)))
    }

    /** GetState: the dirty value, or else the committed one. */
    function GetState(st: Stores, slot: Word): (r: (StateObject, Word))
      ensures Valid(st) ==> r.1 == ValueAt(st, slot) && r.0.Valid(st) && Key(slot) in r.0.origin
      ensures r.0 == this.(origin := r.0.origin) && origin.Keys <= r.0.origin.Keys
    {
      if Key(slot) in dirty then (this, dirty[Key(slot)])
      else GetCommittedState(st, slot)
    }

    /** setState: write a value to the dirty storage. */
    function WriteDirty(k: StorageKey, v: Word): StateObject {
      this.(dirty := dirty[k := v])
    }

    /** What commitState leaves in the store under k. */
    function Flushed(st: Stores, k: StorageKey): (v: Option<Word>) {
      var kept := if k in st.storage then Some(st.storage[k]) else None;
      if k !in dirty then kept
      else if dirty[k] == 0 then None
      else if k !in origin || dirty[k] == origin[k] then kept
      else Some(dirty[k])
    }

    /** commitState: flush the dirty storage.  Zero values are deleted and forgotten,
        keys without an origin and values equal to their origin are skipped. */
    function CommitState(st: Stores): (r: (StateObject, Stores)) {
      var storage := map k | k in st.storage.Keys + dirty.Keys && Flushed(st, k).Some? :: Flushed(st, k).value;
      var origin' := map k | k in origin && !(k in dirty && dirty[k] == 0) ::
                       if k in dirty then dirty[k] else origin[k];
      (this.(origin := origin', dirty := map[]), st.(storage := storage))
    }
  }

  /** newStateObject over an account. */
  function NewObject(a: Address, acc: Account): StateObject {
    StateObject(a, acc, None, map[], map[], false, false, false)
  }

  /** No reader can tell the two objects apart. */
  ghost predicate SameObject(x: StateObject, y: StateObject, st: Stores) {
    && x.address == y.address
    && x.account == y.account
    && x.suicided == y.suicided
    && x.CodeBytes(st) == y.CodeBytes(st)
    && forall slot :: x.ValueAt(st, slot) == y.ValueAt(st, slot)
  }

  /** commitState loses no write: afterwards the store alone yields, for every slot of
      the account, the value a reader saw before; other accounts' words are untouched and
      every other object over the stores stays valid. */
  lemma CommitStateFlushes(so: StateObject, st: Stores)
    requires so.Valid(st)
    ensures var (so', st') := so.CommitState(st);
            && so'.Valid(st')
            && so'.dirty == map[]
            && (forall slot :: st'.Word(so.Key(slot)) == so.ValueAt(st, slot))
            && (forall k: StorageKey :: k.owner != so.address ==> st'.Word(k) == st.Word(k))
            && (forall slot :: so'.ValueAt(st', slot) == so.ValueAt(st, slot))
            && (forall y: StateObject :: y.address != so.address && y.Valid(st) ==> y.Valid(st'))
  {
    var (so', st') := so.CommitState(st);
    forall y: StateObject | y.address != so.address && y.Valid(st)
      ensures y.Valid(st')
    {
      OthersKept(so, st, y);
    }
    forall k: StorageKey
      ensures st'.Word(k) == if k in so.dirty then so.dirty[k] else st.Word(k)
    {
      CommitStateWord(so, st, k);
    }
    forall k | k in so'.origin
      ensures so'.origin[k] == st'.Word(k)
    {
      assert k in so.origin;
    }
  }

  lemma OthersKept(so: StateObject, st: Stores, y: StateObject)
    requires so.Valid(st) && y.address != so.address && y.Valid(st)
    ensures y.Valid(so.CommitState(st).1)
  {
    forall k | k in y.origin
      ensures y.origin[k] == so.CommitState(st).1.Word(k)
    {
      CommitStateWord(so, st, k);
    }
  }

  lemma CommitStateWord(so: StateObject, st: Stores, k: StorageKey)
    requires so.Valid(st)
    ensures so.CommitState(st).1.Word(k) == if k in so.dirty then so.dirty[k] else st.Word(k)
  {
    if k in so.dirty {
      assert k in so.origin;
    }
  }

  /** The code of an object is the preimage of its code hash. */
  lemma CodeIsPreimage(so: StateObject, st: Stores)
    requires so.Valid(st) && forall h :: h in st.code ==> st.code[h] == h.preimage
    ensures so.CodeBytes(st) == so.account.codeHash.preimage
  {
  }

  lemma SameObjectTransitive(x: StateObject, y: StateObject, z: StateObject, st: Stores)
    requires SameObject(x, y, st) && SameObject(y, z, st)
    ensures SameObject(x, z, st)
  {
    forall slot
      ensures x.ValueAt(st, slot) == z.ValueAt(st, slot)
    {
      assert x.ValueAt(st, slot) == y.ValueAt(st, slot);
    }
  }
}
