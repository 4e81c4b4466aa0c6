/** What each operation means to a reader of the database, without caches, live objects or a
    journal: the reference the state database is proved against. */
module Observations {
  import opened EvmTypes
  import opened StateObjects
  import opened AccessLists
  import opened Journals
  import opened StateDBs
  import opened Reverting

  /** The account getters. */
  datatype Reading = Reading(balance: nat, nonce: nat, code: Bytes, suicided: bool)

  const BLANK := Reading(0, 0, [], false)

  function ReadObject(so: StateObject, st: Stores): Reading {
    Reading(so.account.balance, so.account.sequence, so.CodeBytes(st), so.suicided)
  }

  function Read(c: Core, a: Address): Option<Reading> {
    var so := c.Lookup(a);
    if so.None? then None else Some(ReadObject(so.value, c.stores))
  }

  /** GetState. */
  function ReadWord(c: Core, a: Address, slot: Word): Word {
    var so := c.Lookup(a);
    if so.None? then 0 else so.value.ValueAt(c.stores, slot)
  }

  predicate Targets(op: Op, a: Address) {
    (Setter(op) || op.CreateAccount? || op.Suicide?) && op.a == a
  }

  /** The account an operation leaves at its target; None for an operation that panics. */
  function After(op: Op, before: Option<Reading>): Option<Reading> {
    var r := if before.Some? then before.value else BLANK;
    match op
    case SetBalance(_, n) => if n < 0 then None else Some(r.(balance := n))
    case AddBalance(_, n) => if r.balance + n < 0 then None else Some(r.(balance := r.balance + n))
    case SubBalance(_, n) => if r.balance - n < 0 then None else Some(r.(balance := r.balance - n))
    case SetNonce(_, n) => Some(r.(nonce := n))
    case SetState(_, _, _) => Some(r)
    case SetCode(_, code) => Some(r.(code := code))
    case CreateAccount(_) => Some(BLANK.(balance := r.balance))
    case Suicide(_) => if before.None? then None else Some(r.(balance := 0, suicided := true))
    case _ => before
  }

  /** The storage word an operation leaves at its target.  A new object, also one that replaces
      an existing account, reads the words left in the store. */
  function WordAfter(op: Op, before: Option<Reading>, slot: Word, word: Word, stored: Word): Word {
    if op.SetState? && op.slot == slot then op.value
    else if op.CreateAccount? || (before.None? && !op.Suicide?) then stored
    else word
  }

  lemma PutReads(c: Core, x: StateObject, slot: Word)
    requires !x.deleted
    ensures Read(c.Put(x), x.address) == Some(ReadObject(x, c.stores))
    ensures ReadWord(c.Put(x), x.address, slot) == x.ValueAt(c.stores, slot)
    ensures forall b :: b != x.address ==> c.Put(x).Lookup(b) == c.Lookup(b)
  {
  }

  /** The setters on a fetched object, as changes to the object. */
  function Written(so: StateObject, st: Stores, op: Op): StateObject
    requires Setter(op)
  {
    match op
    case SetBalance(_, n) => if n < 0 then so else so.(account := so.account.(balance := n))
    case AddBalance(_, n) => if so.account.balance + n < 0 then so else so.(account := so.account.(balance := so.account.balance + n))
    case SubBalance(_, n) => if so.account.balance - n < 0 then so else so.(account := so.account.(balance := so.account.balance - n))
    case SetNonce(_, n) => so.(account := so.account.(sequence := n))
    case SetCode(_, code) => so.(code := Some(code), account := so.account.(codeHash := CodeHash(code)), dirtyCode := true)
    case SetState(_, slot, value) =>
      var r := so.GetState(st, slot);
      if r.1 == value then r.0 else r.0.WriteDirty(so.Key(slot), value)
  }

  lemma WriteIsWritten(c: Core, so: StateObject, op: Op)
    requires Setter(op) && Write(c, so, op).Ok? && c.Lookup(so.address) == Some(so) && so.address in c.objects
    ensures Write(c, so, op).value.core == c.Put(Written(so, c.stores, op))
  {
    var c' := Write(c, so, op).value.core;
    assert c.objects[so.address] == so;
    assert c.Put(so).objects == c.objects;
  }

  /** Setters on an object mean what they say, also through the storage cache. */
  lemma WrittenMeans(so: StateObject, st: Stores, op: Op, slot: Word)
    requires so.Valid(st) && st.Valid() && Setter(op)
    requires After(op, Some(ReadObject(so, st))).Some?
    ensures Some(ReadObject(Written(so, st, op), st)) == After(op, Some(ReadObject(so, st)))
    ensures Written(so, st, op).ValueAt(st, slot) == if op.SetState? && op.slot == slot then op.value else so.ValueAt(st, slot)
    ensures Written(so, st, op).address == so.address && Written(so, st, op).deleted == so.deleted
  {
    CodeIsPreimage(so, st);
    hide Stores.Valid;
    if op.SetState? {
      CacheMeans(so, st, op.slot, op.value, slot);
    }
    hide StateObject.Valid, StateObject.GetState;
  }

  /** The two-level cache behaves like a plain map. */
  lemma CacheMeans(so: StateObject, st: Stores, slot: Word, value: Word, other: Word)
    requires so.Valid(st)
    ensures var r := so.GetState(st, slot);
            && r.1 == so.ValueAt(st, slot)
            && r.0.ValueAt(st, other) == so.ValueAt(st, other)
            && r.0.WriteDirty(so.Key(slot), value).ValueAt(st, other) == (if other == slot then value else so.ValueAt(st, other))
            && r.0 == so.(origin := r.0.origin)
  {
  }

  lemma WriteSucceeds(c: Core, so: StateObject, op: Op)
    requires Setter(op)
    ensures Write(c, so, op).Ok? <==> After(op, Some(ReadObject(so, c.stores))).Some?
  {
  }

  /** A setter fetches or creates the account, then writes. */
  lemma SetterMeans(c: Core, op: Op, slot: Word)
    requires c.Valid() && Setter(op)
    ensures Do(c, op).Ok? <==> After(op, Read(c, op.a)).Some?
    ensures Do(c, op).Ok? ==>
              var c' := Do(c, op).value.core;
              && Read(c', op.a) == After(op, Read(c, op.a))
              && ReadWord(c', op.a, slot) ==
                 WordAfter(op, Read(c, op.a), slot, ReadWord(c, op.a, slot), c.stores.Word(StorageKey(op.a, slot)))
              && (forall b :: b != op.a ==> c'.Lookup(b) == c.Lookup(b))
              && c' == c.(objects := c'.objects)
  {
    hide Core.Valid, StateObject.Valid, Written, Write;
    var s := GetOrNew(c, op.a).core;
    FetchedReads(c, op.a);
    LookupValid(s, op.a);
    var so := s.objects[op.a];
    StoresValid(s);
    WriteSucceeds(s, so, op);
    if Do(c, op).Ok? {
      WriteIsWritten(s, so, op);
      WrittenMeans(so, s.stores, op, slot);
      PutReads(s, Written(so, s.stores, op), slot);
    }
  }

  lemma StoresValid(c: Core)
    requires c.Valid()
    ensures c.stores.Valid()
  {
  }

  /** GetOrNewStateObject reads as before, or as a blank account. */
  lemma FetchedReads(c: Core, a: Address)
    requires c.Valid()
    ensures var s := GetOrNew(c, a).core;
            && Read(s, a) == (if Read(c, a).Some? then Read(c, a) else Some(BLANK))
            && (forall slot :: ReadWord(s, a, slot) == if Read(c, a).Some? then ReadWord(c, a, slot) else c.stores.Word(StorageKey(a, slot)))
            && (forall b :: b != a ==> s.Lookup(b) == c.Lookup(b))
            && s == c.(objects := s.objects)
  {
    hide Core.Valid, StateObject.Valid;
    if c.Lookup(a).Some? {
      FillCovers(c, a);
    }
  }

  /** What an operation on accounts leaves for readers. */
  ghost predicate AccountEffect(op: Op, c: Core, d: Core, a: Address, slot: Word) {
    && Read(d, a) == (if Targets(op, a) then After(op, Read(c, a)) else Read(c, a))
    && ReadWord(d, a, slot) == (
         if Targets(op, a)
         then WordAfter(op, Read(c, a), slot, ReadWord(c, a, slot), c.stores.Word(StorageKey(a, slot)))
         else ReadWord(c, a, slot))
    && (forall b :: b != a ==> d.Lookup(b) == c.Lookup(b))
    && d == c.(objects := d.objects)
  }

  lemma CreateMeans(c: Core, a: Address, slot: Word)
    requires c.Valid()
    ensures AccountEffect(CreateAccount(a), c, Do(c, CreateAccount(a)).value.core, a, slot)
  {
    hide Core.Valid;
    var d := Do(c, CreateAccount(a)).value.core;
    var x := NewObject(a, Account(if c.Lookup(a).None? then 0 else c.Lookup(a).value.account.balance, 0, EMPTY_CODE_HASH));
    assert d.objects == c.Fill(a).Put(x).objects;
    PutReads(c.Fill(a), x, slot);
  }

  lemma SuicideMeans(c: Core, a: Address, slot: Word)
    requires c.Valid()
    ensures AccountEffect(Suicide(a), c, Do(c, Suicide(a)).value.core, a, slot)
  {
    hide Core.Valid, StateObject.Valid, Covers;
    FillCovers(c, a);
    if c.Lookup(a).Some? {
      LookupValid(c.Fill(a), a);
      var so := c.Lookup(a).value;
      PutReads(c.Fill(a), so.(suicided := true, account := so.account.(balance := 0)), slot);
    }
  }

  lemma OriginReads(c: Core, a: Address, origin: map<StorageKey, Word>, slot: Word)
    requires c.Valid() && c.Lookup(a).Some?
    ensures var d := c.Fill(a).Put(c.Lookup(a).value.(origin := origin));
            AccountEffect(ReadAccount(a), c, d, a, slot)
  {
    FillCovers(c, a);
    LookupValid(c, a);
    hide Core.Valid, Covers, StateObject.Valid;
    PutReads(c.Fill(a), c.Lookup(a).value.(origin := origin), slot);
  }

  lemma ReadMeans(c: Core, op: Op, slot: Word)
    requires c.Valid() && (op.ReadAccount? || op.ReadState? || op.ReadCommittedState?)
    ensures Do(c, op).Ok? && AccountEffect(op, c, Do(c, op).value.core, op.a, slot)
  {
    hide Core.Valid, Covers, StateObject.Valid, StateObject.CodeBytes, StateObject.ValueAt;
    if c.Lookup(op.a).Some? {
      var so := c.Lookup(op.a).value;
      OriginReads(c, op.a, if op.ReadAccount? then so.origin
                           else if op.ReadState? then so.GetState(c.stores, op.slot).0.origin
                           else so.GetCommittedState(c.stores, op.slot).0.origin, slot);
      assert c.Fill(op.a).Lookup(op.a) == Some(so);
      assert c.Fill(op.a).Put(so).objects == c.Fill(op.a).objects by {
        LookupValid(c, op.a);
      }
    }
  }

  /** The counters, logs, preimages and access list after an operation. */
  ghost predicate RestAfter(op: Op, c: Core, d: Core) {
    && d.stores == c.stores && d.objectsDirty == c.objectsDirty
    && d.txHash == c.txHash && d.blockHash == c.blockHash && d.txIndex == c.txIndex
    && d.refund == (if op.AddRefund? then (c.refund + op.gas) % U64 else if op.SubRefund? then c.refund - op.gas else c.refund)
    && d.logSize == (if op.AddLog? then (c.logSize + 1) % U64 else c.logSize)
    && d.logs == (if op.AddLog?
                  then c.logs + [Log(op.log.address, op.log.topics, op.log.data, c.txHash, c.blockHash, c.txIndex, c.logSize)]
                  else c.logs)
    && d.preimages == (if op.AddPreimage? && op.hash !in c.preimages then c.preimages[op.hash := op.preimage] else c.preimages)
    && d.access.addresses.Keys ==
       c.access.addresses.Keys + (if op.AddAddressToAccessList? || op.AddSlotToAccessList? then {op.a} else {})
    && forall a :: d.access.SlotsOf(a) ==
                   c.access.SlotsOf(a) + if op.AddSlotToAccessList? && op.a == a then {op.slot} else {}
  }

  lemma AccessOpMeans(c: Core, op: Op)
    requires c.Valid() && (op.AddAddressToAccessList? || op.AddSlotToAccessList?)
    ensures Do(c, op).Ok? && RestAfter(op, c, Do(c, op).value.core)
  {
    hide Do, RestAfter;
    assert c.access.Valid();
    if op.AddAddressToAccessList? {
      AddressOpMeans(c, op.a);
    } else {
      SlotOpMeans(c, op.a, op.slot);
    }
  }

  lemma AddressOpMeans(c: Core, a: Address)
    requires c.access.Valid()
    ensures
      var op := AddAddressToAccessList(a);
      Do(c, op).Ok? && RestAfter(op, c, Do(c, op).value.core)
  {
    hide AccessList.Valid, AccessList.AddAddress, AccessList.SlotsOf;
    AddAddressInverse(c.access, a);
  }

  lemma SlotOpMeans(c: Core, a: Address, slot: Word)
    requires c.access.Valid()
    ensures
      var op := AddSlotToAccessList(a, slot);
      Do(c, op).Ok? && RestAfter(op, c, Do(c, op).value.core)
  {
    hide AccessList.Valid, AccessList.AddSlot, AccessList.SlotsOf;
    AddSlotMeaning(c.access, a, slot);
  }

  predicate Counts(op: Op) {
    op.AddLog? || op.AddPreimage? || op.AddRefund? || op.SubRefund?
  }

  lemma CounterOpMeans(c: Core, op: Op)
    requires Counts(op) && Do(c, op).Ok?
    ensures RestAfter(op, c, Do(c, op).value.core)
  {
    hide AccessList.SlotsOf;
  }

  lemma SameRestAfter(op: Op, c: Core, d: Core)
    requires d == c.(objects := d.objects)
    requires !Counts(op) && !op.AddAddressToAccessList? && !op.AddSlotToAccessList?
    ensures RestAfter(op, c, d)
  {
  }

  /** The observables after an operation are those its reference meaning gives. */
  ghost predicate Means(c: Core, op: Op, c': Core, a: Address, slot: Word) {
    && RestAfter(op, c, c')
    && Read(c', a) == (if Targets(op, a) then After(op, Read(c, a)) else Read(c, a))
    && ReadWord(c', a, slot) == (
         if Targets(op, a)
         then WordAfter(op, Read(c, a), slot, ReadWord(c, a, slot), c.stores.Word(StorageKey(a, slot)))
         else ReadWord(c, a, slot))
  }

  lemma SetterOperation(c: Core, op: Op, a: Address, slot: Word)
    requires c.Valid() && Setter(op)
    ensures Do(c, op).Panic? <==> After(op, Read(c, op.a)).None?
    ensures Do(c, op).Ok? ==> Means(c, op, Do(c, op).value.core, a, slot)
  {
    hide Do, RestAfter, After, WordAfter;
    SetterMeans(c, op, slot);
    if Do(c, op).Ok? {
      SameRestAfter(op, c, Do(c, op).value.core);
    }
  }

  lemma PlainOperation(c: Core, op: Op, a: Address, slot: Word)
    requires c.Valid() && (Counts(op) || op.AddAddressToAccessList? || op.AddSlotToAccessList?)
    ensures Do(c, op).Panic? <==> op.SubRefund? && op.gas > c.refund
    ensures Do(c, op).Ok? ==> Means(c, op, Do(c, op).value.core, a, slot)
  {
    hide RestAfter;
    if Counts(op) {
      if Do(c, op).Ok? {
        CounterOpMeans(c, op);
      }
    } else {
      AccessOpMeans(c, op);
    }
  }

  lemma ObjectOperation(c: Core, op: Op, a: Address, slot: Word)
    requires c.Valid() && !Setter(op) && !Counts(op) && !op.AddAddressToAccessList? && !op.AddSlotToAccessList?
    ensures Do(c, op).Ok? && Means(c, op, Do(c, op).value.core, a, slot)
  {
    assert Do(c, op).Ok?;
    hide Do, RestAfter, After, WordAfter;
    match op {
      case CreateAccount(b) => CreateMeans(c, b, slot);
      case Suicide(b) => SuicideMeans(c, b, slot);
      case _ => ReadMeans(c, op, slot);
    }
    SameRestAfter(op, c, Do(c, op).value.core);
  }

  /** Every operation: when it goes through, what it leaves at its target, and that it leaves
      everything else alone. */
  lemma OperationMeans(c: Core, op: Op, a: Address, slot: Word)
    requires c.Valid()
    ensures Do(c, op).Panic? <==> (Setter(op) && After(op, Read(c, op.a)).None?) || (op.SubRefund? && op.gas > c.refund)
    ensures Do(c, op).Ok? ==> Means(c, op, Do(c, op).value.core, a, slot)
  {
    hide Do, Means, After;
    if Setter(op) {
      SetterOperation(c, op, a, slot);
    } else if Counts(op) || op.AddAddressToAccessList? || op.AddSlotToAccessList? {
      PlainOperation(c, op, a, slot);
    } else {
      ObjectOperation(c, op, a, slot);
    }
  }
}
