/** The EVM state database.  Core is all that journal entries undo; every operation maps a
    core to a new core together with the journal entries it appends. */
module StateDBs {
  import opened EvmTypes
  import opened StateObjects
  import opened AccessLists
  import opened Journals

  const U64: nat := 0x1_0000_0000_0000_0000

  datatype Log = Log(
    address: Address, topics: seq<Word>, data: Bytes,
    txHash: Word, blockHash: Word, txIndex: nat, index: nat)

  datatype Core = Core(
    stores: Stores,
    objects: map<Address, StateObject>,
    objectsDirty: set<Address>,
    refund: nat,
    txHash: Word,
    blockHash: Word,
    txIndex: nat,
    logSize: nat,
    logs: seq<Log>,
    preimages: map<Word, Bytes>,
    access: AccessList)
  {
    /** Live objects sit under their own address with coherent caches, deleted ones are
        suicided or empty and gone from the account mapper, and counters are machine words. */
    ghost predicate Valid() {
      && stores.Valid()
      && (forall a :: a in objects ==> ValidAt(a))
      && access.Valid()
      && refund < U64 && logSize < U64
    }

    ghost predicate ValidAt(a: Address)
      requires a in objects
    {
      && objects[a].address == a
      && objects[a].Valid(stores)
      && (objects[a].deleted ==> a !in stores.accounts && (objects[a].suicided || objects[a].Empty()))
    }

    /** What getStateObject returns, without the cache fill. */
    function Lookup(a: Address): (r: Option<StateObject>) {
      if a in objects then if objects[a].deleted then None else Some(objects[a])
      else if a in stores.accounts then Some(NewObject(a, stores.accounts[a]))
      else None
    }

    /** setStateObject. */
    function Put(so: StateObject): Core {
      this.(objects := objects[so.address := so])
    }

    /** The cache fill of getStateObject. */
    function Fill(a: Address): Core {
      if a !in objects && a in stores.accounts then Put(NewObject(a, stores.accounts[a])) else this
    }
  }

  /** A core and the journal entries appended on the way to it. */
  datatype Step = Step(core: Core, entries: seq<Entry>) {
    /** Continue with a further step. */
    function Then(s: Step): Step {
      Step(s.core, entries + s.entries)
    }
  }

  function BlankObject(a: Address): StateObject {
    NewObject(a, Account(0, 0, EMPTY_CODE_HASH))
  }

  /** createObject. */
  function CreateObject(c: Core, a: Address): Step {
    var c' := c.Fill(a);
    var prev := c'.Lookup(a);
    Step(c'.Put(BlankObject(a)),
         [if prev.None? then CreateObjectChange(a) else ResetObjectChange(prev.value)])
  }

  /** GetOrNewStateObject. */
  function GetOrNew(c: Core, a: Address): (s: Step)
    ensures c.Valid() ==> s.core.Valid()
    ensures s.core.stores == c.stores
    ensures a in s.core.objects && s.core.Lookup(a) == Some(s.core.objects[a])
  {
    if c.Lookup(a).Some? then Step(c.Fill(a), []) else CreateObject(c, a)
  }

  // ---------- Setters on a live object ----------

  function WriteBalance(c: Core, so: StateObject, amount: int): Outcome<Step> {
    if amount < 0 then Panic
    else Ok(Step(c.Put(so.(account := so.account.(balance := amount))),
                 [BalanceChange(so.address, so.account.balance)]))
  }

  function WriteNonce(c: Core, so: StateObject, nonce: nat): Step {
    Step(c.Put(so.(account := so.account.(sequence := nonce))), [NonceChange(so.address, so.account.sequence)])
  }

  function WriteState(c: Core, so: StateObject, slot: Word, value: Word): Step {
    var (so', prev) := so.GetState(c.stores, slot);
    if prev == value then Step(c.Put(so'), [])
    else Step(c.Put(so'.WriteDirty(so.Key(slot), value)), [StorageChange(so.address, so.Key(slot), prev)])
  }

  function WriteCode(c: Core, so: StateObject, code: Bytes): Step {
    Step(c.Put(so.(code := Some(code), account := so.account.(codeHash := CodeHash(code)), dirtyCode := true)),
         [CodeChange(so.address, so.LoadCode(c.stores), so.account.codeHash)])
  }

  // ---------- Operations ----------

  datatype Op =
    | SetBalance(a: Address, amount: int)
    | AddBalance(a: Address, amount: int)
    | SubBalance(a: Address, amount: int)
    | SetNonce(a: Address, nonce: nat)
    | SetState(a: Address, slot: Word, value: Word)
    | SetCode(a: Address, code: Bytes)
    | CreateAccount(a: Address)
    | Suicide(a: Address)
    | AddLog(log: Log)
    | AddPreimage(hash: Word, preimage: Bytes)
    | AddRefund(gas: nat)
    | SubRefund(gas: nat)
    | AddAddressToAccessList(a: Address)
    | AddSlotToAccessList(a: Address, slot: Word)
    | ReadAccount(a: Address)
    | ReadState(a: Address, slot: Word)
    | ReadCommittedState(a: Address, slot: Word)

  /** The effect of an operation on the core, and the entries it journals. */
  function Do(c: Core, op: Op): Outcome<Step> {
    match op
    case SetBalance(a, amount) => OnObject(c, a, op)
    case AddBalance(a, amount) => OnObject(c, a, op)
    case SubBalance(a, amount) => OnObject(c, a, op)
    case SetNonce(a, nonce) => OnObject(c, a, op)
    case SetState(a, slot, value) => OnObject(c, a, op)
    case SetCode(a, code) => OnObject(c, a, op)
    case CreateAccount(a) =>
      var s := CreateObject(c, a);
      var prev := c.Lookup(a);
      if prev.None? then Ok(s)
      else Ok(s.(core := s.core.Put(NewObject(a, Account(prev.value.account.balance, 0, EMPTY_CODE_HASH)))))
    case Suicide(a) =>
      var c' := c.Fill(a);
      if c'.Lookup(a).None? then Ok(Step(c', []))
      else
        var so := c'.Lookup(a).value;
        Ok(Step(c'.Put(so.(suicided := true, account := so.account.(balance := 0))),
                [SuicideChange(a, so.suicided, so.account.balance), BalanceChange(so.address, so.account.balance)]))
    case AddLog(log) =>
      var l := log.(txHash := c.txHash, blockHash := c.blockHash, txIndex := c.txIndex, index := c.logSize);
      Ok(Step(c.(logSize := (c.logSize + 1) % U64, logs := c.logs + [l]), [AddLogChange(c.txHash)]))
    case AddPreimage(hash, preimage) =>
      if hash in c.preimages then Ok(Step(c, []))
      else Ok(Step(c.(preimages := c.preimages[hash := preimage]), [AddPreimageChange(hash)]))
    case AddRefund(gas) =>
      Ok(Step(c.(refund := (c.refund + gas) % U64), [RefundChange(c.refund)]))
    case SubRefund(gas) =>
      if gas > c.refund then Panic
      else Ok(Step(c.(refund := c.refund - gas), [RefundChange(c.refund)]))
    case AddAddressToAccessList(a) =>
      var (al, added) := c.access.AddAddress(a);
      Ok(Step(c.(access := al), if added then [AccessListAddAccountChange(a)] else []))
    case AddSlotToAccessList(a, slot) =>
      var (al, addrMod, slotMod) := c.access.AddSlot(a, slot);
      Ok(Step(c.(access := al),
              (if addrMod then [AccessListAddAccountChange(a)] else [])
              + if slotMod then [AccessListAddSlotChange(a, slot)] else []))
    case ReadAccount(a) => Ok(Step(c.Fill(a), []))
    case ReadState(a, slot) =>
      if c.Fill(a).Lookup(a).None? then Ok(Step(c, []))
      else Ok(Step(c.Fill(a).Put(c.Fill(a).Lookup(a).value.GetState(c.stores, slot).0), []))
    case ReadCommittedState(a, slot) =>
      if c.Fill(a).Lookup(a).None? then Ok(Step(c, []))
      else Ok(Step(c.Fill(a).Put(c.Fill(a).Lookup(a).value.GetCommittedState(c.stores, slot).0), []))
  }

  predicate Setter(op: Op) {
    op.SetBalance? || op.AddBalance? || op.SubBalance? || op.SetNonce? || op.SetState? || op.SetCode?
  }

  /** The setters fetch or create the object first. */
  function OnObject(c: Core, a: Address, op: Op): Outcome<Step>
    requires Setter(op) && op.a == a
  {
    var s := GetOrNew(c, a);
    var so := s.core.Lookup(a).value;
    var r := Write(s.core, so, op);
    if r.Panic? then Panic else Ok(s.Then(r.value))
  }

  /** The body of a setter on the fetched object. */
  function Write(c: Core, so: StateObject, op: Op): Outcome<Step>
    requires Setter(op)
  {
    match op
    case SetBalance(_, amount) => WriteBalance(c, so, amount)
    case AddBalance(_, amount) =>
      if amount != 0 then WriteBalance(c, so, so.account.balance + amount)
      else Ok(Step(c, if so.Empty() then [TouchChange(so.address)] else []))
    case SubBalance(_, amount) =>
      if amount != 0 then WriteBalance(c, so, so.account.balance - amount) else Ok(Step(c, []))
    case SetNonce(_, nonce) => Ok(WriteNonce(c, so, nonce))
    case SetState(_, slot, value) => Ok(WriteState(c, so, slot, value))
    case SetCode(_, code) => Ok(WriteCode(c, so, code))
  }

  // ---------- Undoing ----------

  /** The revert method of an entry. */
  function Undo(c: Core, e: Entry): Outcome<Core> {
    match e
    case CreateObjectChange(a) =>
      Ok(c.(objects := c.objects - {a}, objectsDirty := c.objectsDirty - {a}))
    case ResetObjectChange(prev) => Ok(c.Put(prev))
    case TouchChange(_) => Ok(c)
    case RefundChange(prev) => Ok(c.(refund := prev))
    case AddLogChange(_) =>
      Ok(c.(logs := if |c.logs| <= 1 then [] else c.logs[..|c.logs| - 1], logSize := (c.logSize + U64 - 1) % U64))
    case AddPreimageChange(hash) => Ok(c.(preimages := c.preimages - {hash}))
    case AccessListAddAccountChange(a) => Ok(c.(access := c.access.DeleteAddress(a)))
    case AccessListAddSlotChange(a, slot) =>
      var al := c.access.DeleteSlot(a, slot);
      if al.Panic? then Panic else Ok(c.(access := al.value))
    case _ =>
      var c' := c.Fill(e.account);
      var so := c'.Lookup(e.account);
      if so.None? then if e.SuicideChange? then Ok(c') else Panic // nil dereference
      else Ok(c'.Put(UndoObject(so.value, e)))
  }

  /** The object after the revert method of an account entry. */
  function UndoObject(so: StateObject, e: Entry): StateObject
    requires AccountEntry(e)
  {
    match e
    case SuicideChange(_, prev, balance) => so.(suicided := prev, account := so.account.(balance := balance))
    case BalanceChange(_, prev) => so.(account := so.account.(balance := prev))
    case NonceChange(_, prev) => so.(account := so.account.(sequence := prev))
    case StorageChange(_, key, prev) => so.WriteDirty(key, prev)
    case CodeChange(_, code, hash) => so.(code := code, account := so.account.(codeHash := hash), dirtyCode := true)
  }

  predicate AccountEntry(e: Entry) {
    e.SuicideChange? || e.BalanceChange? || e.NonceChange? || e.StorageChange? || e.CodeChange?
  }
}
