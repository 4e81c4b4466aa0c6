/** The state database as the program keeps it: objects, each with its fields updated in place.
    Every method is proved against the functions of StateDBs, Snapshots and Committing. */
module CommitStateDBs {
  import opened EvmTypes
  import opened IndexedSlices
  import opened StateObjects
  import opened AccessLists
  import opened Journals
  import opened StateDBs
  import opened Reverting
  import opened Snapshots
  import opened Committing
  import opened Marking

  class AccessListTable {
    var addresses: map<Address, int>
    var slots: seq<set<Word>>

    ghost function View(): AccessList
      reads this
    {
      AccessList(addresses, slots)
    }

    constructor ()
      ensures View() == AccessLists.EMPTY
    {
      addresses, slots := map[], [];
    }

    method AddAddress(a: Address) returns (added: bool)
      modifies this
      ensures (View(), added) == old(View()).AddAddress(a)
    {
      if a in addresses {
        return false;
      }
      addresses := addresses[a := -1];
      added := true;
    }

    method AddSlot(a: Address, slot: Word) returns (addrChange: bool, slotChange: bool)
      modifies this
      ensures (View(), addrChange, slotChange) == old(View()).AddSlot(a, slot)
    {
      if a !in addresses || addresses[a] == -1 {
        addrChange := a !in addresses;
        addresses := addresses[a := |slots|];
        slots := slots + [{slot}];
        return addrChange, true;
      }
      var idx := addresses[a];
      if idx >= |slots| || idx < 0 {
        return false, false;
      }
      if slot !in slots[idx] {
        slots := slots[idx := slots[idx] + {slot}];
        return false, true;
      }
      return false, false;
    }

    method DeleteSlot(a: Address, slot: Word) returns (ok: bool)
      modifies this
      ensures ok <==> old(View()).DeleteSlot(a, slot).Ok?
      ensures ok ==> View() == old(View()).DeleteSlot(a, slot).value
    {
      if a !in addresses {
        return false;
      }
      var idx := addresses[a];
      if !(0 <= idx < |slots|) {
        return false;
      }
      slots := slots[idx := slots[idx] - {slot}];
      if slots[idx] == {} {
        slots := slots[..idx];
        addresses := addresses[a := -1];
      }
      ok := true;
    }

    method DeleteAddress(a: Address)
      modifies this
      ensures View() == old(View()).DeleteAddress(a)
      ensures a !in View().addresses && forall b :: b != a ==> View().SlotsOf(b) == old(View()).SlotsOf(b)
      ensures forall al: AccessList :: al.Valid() && a !in al.addresses && old(View()) == al.AddAddress(a).0 ==> View() == al
    {
      addresses := addresses - {a};
      forall al: AccessList | al.Valid() && a !in al.addresses && old(View()) == al.AddAddress(a).0
        ensures View() == al
      {
        AddAddressInverse(al, a);
      }
    }
  }

  class JournalLog {
    var entries: seq<Entry>
    var dirties: seq<Dirty>
    var addressToJournalIndex: map<Address, nat>

    ghost function View(): Journal
      reads this
    {
      Journal(entries, dirties, addressToJournalIndex)
    }

    constructor ()
      ensures View() == Journals.EMPTY
    {
      entries, dirties, addressToJournalIndex := [], [], map[];
    }

    method AddDirty(a: Address) returns (ok: bool)
      modifies this`dirties, this`addressToJournalIndex
      ensures ok <==> old(View()).AddDirty(a).Ok?
      ensures ok ==> View() == old(View()).AddDirty(a).value
    {
      if a !in addressToJournalIndex {
        dirties := dirties + [Dirty(a, 0)];
        addressToJournalIndex := addressToJournalIndex[a := |dirties| - 1];
      }
      var idx := addressToJournalIndex[a];
      if idx >= |dirties| {
        return false;
      }
      dirties := dirties[idx := dirties[idx].(changes := dirties[idx].changes + 1)];
      ok := true;
    }

    method Append(e: Entry) returns (ok: bool)
      modifies this
      ensures ok <==> old(View()).Append(e).Ok?
      ensures ok ==> View() == old(View()).Append(e).value
    {
      entries := entries + [e];
      ok := true;
      if e.Dirtied().Some? {
        ok := AddDirty(e.Dirtied().value);
        if ok && e == TouchChange(RIPEMD) {
          ok := AddDirty(RIPEMD);
        }
      }
    }

    method SubtractDirty(a: Address) returns (ok: bool)
      modifies this`dirties
      ensures ok <==> old(View()).SubtractDirty(a).Ok?
      ensures ok ==> View() == old(View()).SubtractDirty(a).value
    {
      if a !in addressToJournalIndex {
        return true;
      }
      var idx := addressToJournalIndex[a];
      if idx >= |dirties| {
        return false;
      }
      if dirties[idx].changes > 0 {
        dirties := dirties[idx := dirties[idx].(changes := dirties[idx].changes - 1)];
      }
      ok := true;
    }

    method GetDirty(a: Address) returns (changes: Outcome<nat>)
      ensures changes == View().GetDirty(a)
    {
      if a !in addressToJournalIndex {
        return Ok(0);
      }
      var idx := addressToJournalIndex[a];
      if idx >= |dirties| {
        return Panic;
      }
      changes := Ok(dirties[idx].changes);
    }

    method DeleteDirty(a: Address) returns (ok: bool)
      modifies this`dirties, this`addressToJournalIndex
      ensures ok <==> old(View()).DeleteDirty(a).Ok?
      ensures ok ==> View() == old(View()).DeleteDirty(a).value
    {
      if a !in addressToJournalIndex {
        return true;
      }
      var idx := addressToJournalIndex[a];
      if idx >= |dirties| {
        return false;
      }
      dirties := dirties[..idx] + dirties[idx + 1..];
      addressToJournalIndex := addressToJournalIndex - {a};
      ok := true;
    }

    /** The dirty bookkeeping for the entry at position i, the last one still standing. */
    method DropMark(i: nat) returns (ok: bool)
      requires i < |entries|
      modifies this`dirties, this`addressToJournalIndex
      ensures var j := old(View()).(entries := old(entries)[..i + 1]);
              && (ok <==> j.Pop().Ok?)
              && (ok ==> View().(entries := entries[..i]) == j.Pop().value)
    {
      assert entries[..i + 1][..i] == entries[..i];
      var d := entries[i].Dirtied();
      if d.None? {
        return true;
      }
      ok := SubtractDirty(d.value);
      if !ok {
        return;
      }
      var c := GetDirty(d.value);
      if c.Panic? {
        return false;
      }
      if c.value == 0 {
        ok := DeleteDirty(d.value);
      }
    }
  }

  lemma {:induction false} AppendAllConcat(j: Journal, es: seq<Entry>, fs: seq<Entry>)
    ensures AppendAll(j, es + fs) ==
            if AppendAll(j, es).Panic? then Panic else AppendAll(AppendAll(j, es).value, fs)
    decreases |es|
  {
    hide Journal.Append;
    if es == [] {
      assert es + fs == fs;
    } else {
      assert (es + fs)[1..] == es[1..] + fs;
      if j.Append(es[0]).Ok? {
        AppendAllConcat(j.Append(es[0]).value, es[1..], fs);
      }
    }
  }

  lemma AppendAllOne(j: Journal, e: Entry)
    ensures AppendAll(j, [e]) == j.Append(e)
  {
    hide Journal.Append;
    if j.Append(e).Ok? {
      assert AppendAll(j.Append(e).value, []) == j.Append(e);
    }
  }

  /** A core step with its entries recorded in the journal. */
  function Record(db: DB, r: Outcome<Step>): Outcome<DB> {
    if r.Panic? then Panic
    else
      var j := AppendAll(db.journal, r.value.entries);
      if j.Panic? then Panic else Ok(db.(core := r.value.core, journal := j.value))
  }

  /** Suicide of an existing account: mark the object, then set its balance. */
  lemma SuicideStages(db: DB, a: Address)
    requires db.core.Lookup(a).Some?
    ensures var so := db.core.Lookup(a).value;
            var e := SuicideChange(a, so.suicided, so.account.balance);
            var c := db.core.Fill(a);
            Exec(db, Operate(Op.Suicide(a))) ==
            if db.journal.Append(e).Panic? then Panic
            else Record(db.(core := c, journal := db.journal.Append(e).value), WriteBalance(c, so.(suicided := true), 0))
  {
    hide Journal.Append, AppendAll;
    var so := db.core.Lookup(a).value;
    var e1 := SuicideChange(a, so.suicided, so.account.balance);
    AppendAllOne(db.journal, e1);
    var e2 := BalanceChange(so.address, so.account.balance);
    AppendAllConcat(db.journal, [e1], [e2]);
    assert [e1] + [e2] == [e1, e2];
    assert db.core.Fill(a).Lookup(a) == Some(so);
    assert Do(db.core, Op.Suicide(a)).value ==
           Step(WriteBalance(db.core.Fill(a), so.(suicided := true), 0).value.core, [e1, e2]);
  }

  lemma AppendAllNone(j: Journal)
    ensures AppendAll(j, []) == Ok(j)
  {
  }

  /** A setter runs in two stages: fetch or create the object, then write it. */
  lemma SetterStages(db: DB, op: Op)
    requires Setter(op)
    ensures var s := Record(db, Ok(GetOrNew(db.core, op.a)));
            Exec(db, Operate(op)) ==
            if s.Panic? then Panic
            else Record(s.value, Write(s.value.core, s.value.core.objects[op.a], op))
  {
    hide Write, Journal.Append, AppendAll;
    var s := GetOrNew(db.core, op.a);
    var w := Write(s.core, s.core.objects[op.a], op);
    if w.Ok? {
      AppendAllConcat(db.journal, s.entries, w.value.entries);
    }
  }

  /** The keys of a slice in slice order. */
  function Keys<K, V>(slots: seq<Slot<K, V>>): seq<K> {
    seq(|slots|, i requires 0 <= i < |slots| => slots[i].key)
  }

  /** Every live object sits under its own address. */
  ghost predicate Addressed(slots: seq<Slot<Address, StateObject>>) {
    forall s :: s in slots ==> s.value.address == s.key
  }

  lemma PutObject(slots: seq<Slot<Address, StateObject>>, index: map<Address, nat>, so: StateObject)
    requires Bijective(slots, index) && Addressed(slots)
    ensures
      var (s, x) := PutSlots(slots, index, so.address, so);
      && Bijective(s, x) && Addressed(s) && Indexed(s, x) && Indexed(slots, index)
      && Contents(s, x) == Contents(slots, index)[so.address := so]
      && (so.address in index ==> index[so.address] < |slots| && Keys(s) == Keys(slots))
  {
    PutContents(slots, index, so.address, so);
  }

  class CommitStateDB {
    var stores: Stores
    var stateObjects: seq<Slot<Address, StateObject>>
    var addressToObjectIndex: map<Address, nat>
    var stateObjectsDirty: set<Address>
    var refund: nat
    var thash: Word
    var bhash: Word
    var txIndex: nat
    var logSize: nat
    var logs: seq<Log>
    var preimages: seq<Slot<Word, Bytes>>
    var hashToPreimageIndex: map<Word, nat>
    const journal: JournalLog
    var validRevisions: seq<Revision>
    var nextRevisionID: nat
    const accessList: AccessListTable

    ghost predicate Valid()
      reads this
    {
      && Bijective(stateObjects, addressToObjectIndex)
      && Bijective(preimages, hashToPreimageIndex)
      && Addressed(stateObjects)
    }

    ghost function Core(): Core
      reads this, accessList
      requires Valid()
    {
      StateDBs.Core.Core(stores, Contents(stateObjects, addressToObjectIndex), stateObjectsDirty,
                    refund, thash, bhash, txIndex, logSize, logs,
                    Contents(preimages, hashToPreimageIndex), accessList.View())
    }

    ghost function View(): DB
      reads this, journal, accessList
      requires Valid()
    {
      DB(Core(), journal.View(), validRevisions, nextRevisionID)
    }

    constructor (st: Stores)
      ensures Valid() && fresh(journal) && fresh(accessList)
      ensures View() == NewDB(st)
    {
      stores, stateObjects, addressToObjectIndex, stateObjectsDirty := st, [], map[], {};
      refund, thash, bhash, txIndex, logSize, logs := 0, 0, 0, 0, 0, [];
      preimages, hashToPreimageIndex, validRevisions, nextRevisionID := [], map[], [], 0;
      journal := new JournalLog();
      accessList := new AccessListTable();
    }

    // ---------- Live objects ----------

    /** setStateObject. */
    method SetStateObject(so: StateObject)
      requires Valid()
      modifies this`stateObjects, this`addressToObjectIndex
      ensures Valid() && Core() == old(Core()).Put(so)
      ensures so.address in old(addressToObjectIndex) ==> Keys(stateObjects) == Keys(old(stateObjects))
    {
      hide Bijective, Contents, Keys, Addressed;
      PutObject(stateObjects, addressToObjectIndex, so);
      if so.address in addressToObjectIndex {
        stateObjects := stateObjects[addressToObjectIndex[so.address] := Slot(so.address, so)];
        return;
      }
      stateObjects := stateObjects + [Slot(so.address, so)];
      addressToObjectIndex := addressToObjectIndex[so.address := |stateObjects| - 1];
    }

    /** getStateObject: a live object, or a load from the account mapper that fills the slice. */
    method GetStateObject(a: Address) returns (so: Option<StateObject>)
      requires Valid()
      modifies this`stateObjects, this`addressToObjectIndex
      ensures Valid() && Core() == old(Core()).Fill(a) && so == old(Core()).Lookup(a)
    {
      if a in addressToObjectIndex {
        var live := stateObjects[addressToObjectIndex[a]].value;
        return if live.deleted then None else Some(live);
      }
      if a !in stores.accounts {
        return None;
      }
      var fetched := NewObject(a, stores.accounts[a]);
      SetStateObject(fetched);
      so := Some(fetched);
    }

    /** createObject. */
    method CreateObject(a: Address) returns (prev: Option<StateObject>, ok: bool)
      requires Valid()
      modifies this`stateObjects, this`addressToObjectIndex, journal
      ensures Valid() && prev == old(Core()).Lookup(a)
      ensures var s := StateDBs.CreateObject(old(Core()), a);
              && (ok <==> AppendAll(old(journal.View()), s.entries).Ok?)
              && (ok ==> Core() == s.core && journal.View() == AppendAll(old(journal.View()), s.entries).value)
    {
      hide Journal.Append;
      prev := GetStateObject(a);
      ghost var e := if prev.None? then CreateObjectChange(a) else ResetObjectChange(prev.value);
      AppendAllOne(journal.View(), e);
      if prev.None? {
        ok := journal.Append(CreateObjectChange(a));
      } else {
        ok := journal.Append(ResetObjectChange(prev.value));
      }
      SetStateObject(BlankObject(a));
    }

    method GetOrNewStateObject(a: Address) returns (so: StateObject, ok: bool)
      requires Valid()
      modifies this`stateObjects, this`addressToObjectIndex, journal
      ensures Valid()
      ensures var r := Record(old(View()), Ok(GetOrNew(old(Core()), a)));
              && (ok <==> r.Ok?)
              && (ok ==> View() == r.value && so == Core().objects[a])
    {
      hide Journal.Append;
      var found := GetStateObject(a);
      if found.Some? {
        return found.value, true;
      }
      var prev;
      prev, ok := CreateObject(a);
      so := BlankObject(a);
    }

    // ---------- Setters on a fetched object ----------

    method ObjectSetBalance(so: StateObject, amount: int) returns (ok: bool)
      requires Valid()
      modifies this`stateObjects, this`addressToObjectIndex, journal
      ensures Valid()
      ensures var r := Record(old(View()), WriteBalance(old(Core()), so, amount));
              (ok <==> r.Ok?) && (ok ==> View() == r.value)
    {
      hide Journal.Append;
      AppendAllOne(journal.View(), BalanceChange(so.address, so.account.balance));
      ok := journal.Append(BalanceChange(so.address, so.account.balance));
      if amount < 0 {
        return false;
      }
      SetStateObject(so.(account := so.account.(balance := amount)));
    }

    method SetBalance(a: Address, amount: int) returns (ok: bool)
      requires Valid()
      modifies this`stateObjects, this`addressToObjectIndex, journal
      ensures Valid()
      ensures var r := Exec(old(View()), Operate(Op.SetBalance(a, amount)));
              (ok <==> r.Ok?) && (ok ==> View() == r.value)
    {
      hide AppendAll, Exec, GetOrNew;
      SetterStages(View(), Op.SetBalance(a, amount));
      var so;
      so, ok := GetOrNewStateObject(a);
      if ok {
        ok := ObjectSetBalance(so, amount);
      }
    }

    method AddBalance(a: Address, amount: int) returns (ok: bool)
      requires Valid()
      modifies this`stateObjects, this`addressToObjectIndex, journal
      ensures Valid()
      ensures var r := Exec(old(View()), Operate(Op.AddBalance(a, amount)));
              (ok <==> r.Ok?) && (ok ==> View() == r.value)
      ensures ok && old(Core().Valid()) ==> MarksAdded(old(View()), Op.AddBalance(a, amount), View())
    {
      hide Exec, GetOrNew, Journal.Append, MarksAdded, StateDBs.Core.Valid;
      if Core().Valid() && Exec(View(), Operate(Op.AddBalance(a, amount))).Ok? {
        ExecMarks(View(), Op.AddBalance(a, amount));
      }
      SetterStages(View(), Op.AddBalance(a, amount));
      var so;
      so, ok := GetOrNewStateObject(a);
      if !ok {
        return;
      }
      if amount == 0 {
        AppendAllOne(journal.View(), TouchChange(so.address));
        if so.Empty() {
          ok := journal.Append(TouchChange(so.address));
        }
        return;
      }
      ok := ObjectSetBalance(so, so.account.balance + amount);
    }

    method SubBalance(a: Address, amount: int) returns (ok: bool)
      requires Valid()
      modifies this`stateObjects, this`addressToObjectIndex, journal
      ensures Valid()
      ensures var r := Exec(old(View()), Operate(Op.SubBalance(a, amount)));
              (ok <==> r.Ok?) && (ok ==> View() == r.value)
    {
      hide Exec, GetOrNew, Journal.Append, AppendAll;
      SetterStages(View(), Op.SubBalance(a, amount));
      var so;
      so, ok := GetOrNewStateObject(a);
      AppendAllNone(journal.View());
      if !ok || amount == 0 {
        return;
      }
      ok := ObjectSetBalance(so, so.account.balance - amount);
    }

    method SetNonce(a: Address, nonce: nat) returns (ok: bool)
      requires Valid()
      modifies this`stateObjects, this`addressToObjectIndex, journal
      ensures Valid()
      ensures var r := Exec(old(View()), Operate(Op.SetNonce(a, nonce)));
              (ok <==> r.Ok?) && (ok ==> View() == r.value)
    {
      hide Exec, GetOrNew, Journal.Append, AppendAll;
      SetterStages(View(), Op.SetNonce(a, nonce));
      var so;
      so, ok := GetOrNewStateObject(a);
      if !ok {
        return;
      }
      AppendAllOne(journal.View(), NonceChange(so.address, so.account.sequence));
      ok := journal.Append(NonceChange(so.address, so.account.sequence));
      SetStateObject(so.(account := so.account.(sequence := nonce)));
    }

    method SetState(a: Address, slot: Word, value: Word) returns (ok: bool)
      requires Valid()
      modifies this`stateObjects, this`addressToObjectIndex, journal
      ensures Valid()
      ensures var r := Exec(old(View()), Operate(Op.SetState(a, slot, value)));
              (ok <==> r.Ok?) && (ok ==> View() == r.value)
    {
      hide Exec, GetOrNew, Journal.Append, AppendAll;
      SetterStages(View(), Op.SetState(a, slot, value));
      var so;
      so, ok := GetOrNewStateObject(a);
      if !ok {
        return;
      }
      var (cached, prev) := so.GetState(stores, slot);
      if prev == value {
        AppendAllNone(journal.View());
        SetStateObject(cached);
        return;
      }
      AppendAllOne(journal.View(), StorageChange(so.address, so.Key(slot), prev));
      ok := journal.Append(StorageChange(so.address, so.Key(slot), prev));
      SetStateObject(cached.WriteDirty(so.Key(slot), value));
    }

    method SetCode(a: Address, code: Bytes) returns (ok: bool)
      requires Valid()
      modifies this`stateObjects, this`addressToObjectIndex, journal
      ensures Valid()
      ensures var r := Exec(old(View()), Operate(Op.SetCode(a, code)));
              (ok <==> r.Ok?) && (ok ==> View() == r.value)
    {
      hide Exec, GetOrNew, Journal.Append, AppendAll;
      SetterStages(View(), Op.SetCode(a, code));
      var so;
      so, ok := GetOrNewStateObject(a);
      if !ok {
        return;
      }
      var e := CodeChange(so.address, so.LoadCode(stores), so.account.codeHash);
      AppendAllOne(journal.View(), e);
      ok := journal.Append(e);
      SetStateObject(so.(code := Some(code), account := so.account.(codeHash := CodeHash(code)), dirtyCode := true));
    }

    // ---------- Other operations ----------

    method CreateAccount(a: Address) returns (ok: bool)
      requires Valid()
      modifies this`stateObjects, this`addressToObjectIndex, journal
      ensures Valid()
      ensures var r := Exec(old(View()), Operate(Op.CreateAccount(a)));
              (ok <==> r.Ok?) && (ok ==> View() == r.value)
    {
      hide Journal.Append, AppendAll;
      var prev;
      prev, ok := CreateObject(a);
      if ok && prev.Some? {
        SetStateObject(NewObject(a, Account(prev.value.account.balance, 0, EMPTY_CODE_HASH)));
      }
    }

    method Suicide(a: Address) returns (done: bool, ok: bool)
      requires Valid()
      modifies this`stateObjects, this`addressToObjectIndex, journal
      ensures Valid() && done == old(Core()).Lookup(a).Some?
      ensures var r := Exec(old(View()), Operate(Op.Suicide(a)));
              (ok <==> r.Ok?) && (ok ==> View() == r.value)
    {
      hide Journal.Append, AppendAll;
      if View().core.Lookup(a).Some? {
        SuicideStages(View(), a);
        hide Exec;
      }
      AppendAllNone(journal.View());
      var so := GetStateObject(a);
      if so.None? {
        return false, true;
      }
      done := true;
      ok := journal.Append(SuicideChange(a, so.value.suicided, so.value.account.balance));
      if ok {
        ok := ObjectSetBalance(so.value.(suicided := true), 0);
      }
    }

    method AddLog(log: Log) returns (ok: bool)
      requires Valid()
      modifies this`logs, this`logSize, journal
      ensures Valid()
      ensures var r := Exec(old(View()), Operate(Op.AddLog(log)));
              (ok <==> r.Ok?) && (ok ==> View() == r.value)
    {
      hide Journal.Append, AppendAll;
      AppendAllOne(journal.View(), AddLogChange(thash));
      ok := journal.Append(AddLogChange(thash));
      logs := logs + [log.(txHash := thash, blockHash := bhash, txIndex := txIndex, index := logSize)];
      logSize := (logSize + 1) % U64;
    }

    method AddPreimage(hash: Word, preimage: Bytes) returns (ok: bool)
      requires Valid()
      modifies this`preimages, this`hashToPreimageIndex, journal
      ensures Valid()
      ensures var r := Exec(old(View()), Operate(Op.AddPreimage(hash, preimage)));
              (ok <==> r.Ok?) && (ok ==> View() == r.value)
    {
      hide Journal.Append, AppendAll;
      if hash in hashToPreimageIndex {
        AppendAllNone(journal.View());
        return true;
      }
      AppendAllOne(journal.View(), AddPreimageChange(hash));
      ok := journal.Append(AddPreimageChange(hash));
      AppendPreimage(hash, preimage);
    }

    method AppendPreimage(hash: Word, preimage: Bytes)
      requires Valid() && hash !in hashToPreimageIndex
      modifies this`preimages, this`hashToPreimageIndex
      ensures Valid() && Core() == old(Core()).(preimages := old(Core()).preimages[hash := preimage])
    {
      PutContents(preimages, hashToPreimageIndex, hash, preimage);
      preimages := preimages + [Slot(hash, preimage)];
      hashToPreimageIndex := hashToPreimageIndex[hash := |preimages| - 1];
    }

    method AddRefund(gas: nat) returns (ok: bool)
      requires Valid()
      modifies this`refund, journal
      ensures Valid()
      ensures var r := Exec(old(View()), Operate(Op.AddRefund(gas)));
              (ok <==> r.Ok?) && (ok ==> View() == r.value)
    {
      hide Journal.Append, AppendAll;
      AppendAllOne(journal.View(), RefundChange(refund));
      ok := journal.Append(RefundChange(refund));
      refund := (refund + gas) % U64;
    }

    method SubRefund(gas: nat) returns (ok: bool)
      requires Valid()
      modifies this`refund, journal
      ensures Valid()
      ensures var r := Exec(old(View()), Operate(Op.SubRefund(gas)));
              (ok <==> r.Ok?) && (ok ==> View() == r.value)
    {
      hide Journal.Append, AppendAll;
      AppendAllOne(journal.View(), RefundChange(refund));
      ok := journal.Append(RefundChange(refund));
      if gas > refund {
        return false;
      }
      refund := refund - gas;
    }

    method AddAddressToAccessList(a: Address) returns (ok: bool)
      requires Valid()
      modifies accessList, journal
      ensures Valid()
      ensures var r := Exec(old(View()), Operate(Op.AddAddressToAccessList(a)));
              (ok <==> r.Ok?) && (ok ==> View() == r.value)
    {
      hide Journal.Append, AppendAll;
      AppendAllNone(journal.View());
      AppendAllOne(journal.View(), AccessListAddAccountChange(a));
      ok := true;
      var added := accessList.AddAddress(a);
      if added {
        ok := journal.Append(AccessListAddAccountChange(a));
      }
    }

    method AddSlotToAccessList(a: Address, slot: Word) returns (ok: bool)
      requires Valid()
      modifies accessList, journal
      ensures Valid()
      ensures var r := Exec(old(View()), Operate(Op.AddSlotToAccessList(a, slot)));
              (ok <==> r.Ok?) && (ok ==> View() == r.value)
    {
      hide Journal.Append, AppendAll, AccessList.AddSlot;
      ghost var j := journal.View();
      var addrMod, slotMod := accessList.AddSlot(a, slot);
      ok := true;
      ghost var es := if addrMod then [AccessListAddAccountChange(a)] else [];
      ghost var fs := if slotMod then [AccessListAddSlotChange(a, slot)] else [];
      AppendAllConcat(j, es, fs);
      AppendAllNone(j);
      AppendAllOne(j, AccessListAddAccountChange(a));
      if addrMod {
        ok := journal.Append(AccessListAddAccountChange(a));
      }
      AppendAllNone(journal.View());
      AppendAllOne(journal.View(), AccessListAddSlotChange(a, slot));
      if ok && slotMod {
        ok := journal.Append(AccessListAddSlotChange(a, slot));
      }
    }

    // ---------- Snapshots ----------

    method Snapshot() returns (id: nat)
      requires Valid()
      modifies this`validRevisions, this`nextRevisionID
      ensures Valid() && (View(), id) == old(View()).Snapshot()
    {
      id := nextRevisionID;
      nextRevisionID := nextRevisionID + 1;
      validRevisions := validRevisions + [Revision(id, |journal.entries|)];
    }

    /** sort.Search over the revision ids: binary search for the first id at least the given one. */
    method SearchRevision(id: nat) returns (i: nat)
      requires forall j, k :: 0 <= j < k < |validRevisions| ==> validRevisions[j].id < validRevisions[k].id
      ensures i == Search(validRevisions, id)
    {
      var lo, hi := 0, |validRevisions|;
      while lo < hi
        invariant 0 <= lo <= hi <= |validRevisions|
        invariant forall k :: 0 <= k < lo ==> validRevisions[k].id < id
        invariant forall k :: hi <= k < |validRevisions| ==> validRevisions[k].id >= id
      {
        var mid := (lo + hi) / 2;
        if validRevisions[mid].id >= id {
          hi := mid;
        } else {
          lo := mid + 1;
        }
      }
      i := lo;
      SearchUnique(validRevisions, id, i);
    }

    /** createObjectChange.revert. */
    method UndoCreateObject(a: Address)
      requires Valid()
      modifies this`stateObjects, this`addressToObjectIndex, this`stateObjectsDirty
      ensures Valid() && Undo(old(Core()), CreateObjectChange(a)) == Ok(Core())
    {
      stateObjectsDirty := stateObjectsDirty - {a};
      stateObjects, addressToObjectIndex := Remove(stateObjects, addressToObjectIndex, a);
    }

    /** addPreimageChange.revert. */
    method UndoAddPreimage(hash: Word)
      requires Valid()
      modifies this`preimages, this`hashToPreimageIndex
      ensures Valid() && Undo(old(Core()), AddPreimageChange(hash)) == Ok(Core())
    {
      preimages, hashToPreimageIndex := Remove(preimages, hashToPreimageIndex, hash);
    }

    /** The revert methods that change one account. */
    method UndoAccount(e: Entry) returns (ok: bool)
      requires Valid() && AccountEntry(e)
      modifies this`stateObjects, this`addressToObjectIndex
      ensures Valid()
      ensures var r := Undo(old(Core()), e);
              (ok <==> r.Ok?) && (ok ==> Core() == r.value)
    {
      var so := GetStateObject(e.account);
      if so.None? {
        return e.SuicideChange?;
      }
      SetStateObject(UndoObject(so.value, e));
      ok := true;
    }

    /** The revert method of a journal entry. */
    method UndoEntry(e: Entry) returns (ok: bool)
      requires Valid()
      modifies this, accessList
      ensures Valid() && validRevisions == old(validRevisions) && nextRevisionID == old(nextRevisionID)
      ensures var r := Undo(old(Core()), e);
              (ok <==> r.Ok?) && (ok ==> Core() == r.value)
    {
      hide Bijective, Contents, UndoObject, AccessList.DeleteSlot;
      ok := true;
      match e {
        case CreateObjectChange(a) =>
          UndoCreateObject(a);
        case ResetObjectChange(prev) =>
          SetStateObject(prev);
        case TouchChange(_) =>
        case RefundChange(prev) =>
          refund := prev;
        case AddLogChange(_) =>
          logs := if |logs| <= 1 then [] else logs[..|logs| - 1];
          logSize := (logSize + U64 - 1) % U64;
        case AddPreimageChange(hash) =>
          UndoAddPreimage(hash);
        case AccessListAddAccountChange(a) =>
          accessList.DeleteAddress(a);
        case AccessListAddSlotChange(a, slot) =>
          ok := accessList.DeleteSlot(a, slot);
        case _ =>
          ok := UndoAccount(e);
      }
    }

    /** journal.revert: undo the entries from the last down to position n. */
    method RevertJournal(n: nat) returns (ok: bool)
      requires Valid() && n <= |journal.entries|
      modifies this, accessList, journal
      ensures Valid() && validRevisions == old(validRevisions) && nextRevisionID == old(nextRevisionID)
      ensures var r := RevertLoop(old(Core()), old(journal.View()), n);
              (ok <==> r.Ok?) && (ok ==> (Core(), journal.View()) == r.value)
    {
      hide Undo, Journal.Pop;
      ghost var total := RevertLoop(Core(), journal.View(), n);
      var i := |journal.entries|;
      assert journal.entries[..i] == journal.entries;
      while i > n
        invariant Valid() && n <= i <= |journal.entries|
        invariant validRevisions == old(validRevisions) && nextRevisionID == old(nextRevisionID)
        invariant total == RevertLoop(Core(), journal.View().(entries := journal.entries[..i]), n)
      {
        i := i - 1;
        assert journal.entries[..i + 1][i] == journal.entries[i];
        ok := UndoEntry(journal.entries[i]);
        if !ok {
          return;
        }
        ok := journal.DropMark(i);
        if !ok {
          return;
        }
      }
      journal.entries := journal.entries[..n];
      ok := true;
    }

    method RevertToSnapshot(id: nat) returns (ok: bool)
      requires Valid() && View().RevisionsOk()
      modifies this, accessList, journal
      ensures Valid()
      ensures var r := old(View()).RevertToSnapshot(id);
              (ok <==> r.Ok?) && (ok ==> View() == r.value)
    {
      hide RevertLoop;
      var idx := SearchRevision(id);
      if idx == |validRevisions| || validRevisions[idx].id != id {
        return false;
      }
      ok := RevertJournal(validRevisions[idx].journalIndex);
      validRevisions := validRevisions[..idx];
    }

    // ---------- Persistence ----------

    method DeleteStateObject(so: StateObject)
      requires Valid()
      modifies this`stores, this`stateObjects, this`addressToObjectIndex
      ensures Valid() && Core() == DeleteObject(old(Core()), so)
      ensures so.address in old(addressToObjectIndex) ==> Keys(stateObjects) == Keys(old(stateObjects))
    {
      SetStateObject(so.(deleted := true));
      stores := stores.(accounts := stores.accounts - {so.address});
    }

    method UpdateStateObject(so: StateObject) returns (ok: bool)
      requires Valid()
      modifies this`stores
      ensures Valid()
      ensures var r := UpdateObject(old(Core()), so);
              (ok <==> r.Ok?) && (ok ==> Core() == r.value)
    {
      if so.address in stores.blacklist {
        return false;
      }
      stores := stores.(accounts := stores.accounts[so.address := so.account]);
      ok := true;
    }

    method FinaliseAccount(a: Address, deleteEmpty: bool) returns (ok: bool)
      requires Valid()
      modifies this`stores, this`stateObjects, this`addressToObjectIndex, this`stateObjectsDirty
      ensures Valid()
      ensures var r := FinaliseOne(old(Core()), a, deleteEmpty);
              (ok <==> r.Ok?) && (ok ==> Core() == r.value)
    {
      if a !in addressToObjectIndex {
        return true;
      }
      var so := stateObjects[addressToObjectIndex[a]].value;
      ok := true;
      if so.suicided || (deleteEmpty && so.Empty()) {
        DeleteStateObject(so);
      } else {
        var (so', st) := so.CommitState(stores);
        stores := st;
        SetStateObject(so');
        ok := UpdateStateObject(so');
      }
      stateObjectsDirty := stateObjectsDirty + {a};
    }

    method ClearJournalAndRefund()
      requires Valid()
      modifies this`validRevisions, this`refund, journal
      ensures Valid() && View() == ClearJournal(old(View()))
    {
      journal.entries, journal.dirties, journal.addressToJournalIndex := [], [], map[];
      validRevisions := [];
      refund := 0;
    }

    method Finalise(deleteEmpty: bool) returns (ok: bool)
      requires Valid()
      modifies this, journal
      ensures Valid()
      ensures var r := Committing.Finalise(old(View()), deleteEmpty);
              (ok <==> r.Ok?) && (ok ==> View() == r.value)
    {
      hide FinaliseOne;
      var i := 0;
      while i < |journal.dirties|
        invariant Valid() && 0 <= i <= |journal.dirties|
        invariant unchanged(journal) && validRevisions == old(validRevisions) && nextRevisionID == old(nextRevisionID)
        invariant FinaliseAll(old(Core()), journal.dirties, deleteEmpty) ==
                  FinaliseAll(Core(), journal.dirties[i..], deleteEmpty)
      {
        ok := FinaliseAccount(journal.dirties[i].address, deleteEmpty);
        if !ok {
          return;
        }
        i := i + 1;
      }
      ClearJournalAndRefund();
      logs := [];
      ok := true;
    }

    method CommitAccount(i: nat, deleteEmpty: bool) returns (ok: bool)
      requires Valid() && i < |stateObjects|
      modifies this`stores, this`stateObjects, this`addressToObjectIndex, this`stateObjectsDirty
      ensures Valid()
      ensures Keys(stateObjects) == Keys(old(stateObjects))
      ensures var r := CommitOne(old(Core()), Keys(old(stateObjects))[i], deleteEmpty);
              (ok <==> r.Ok?) && (ok ==> Core() == r.value)
    {
      hide DeleteObject, UpdateObject, StateObject.Empty;
      var a, so := stateObjects[i].key, stateObjects[i].value;
      assert stateObjects[i] in stateObjects && Core().objects[a] == so;
      ok := true;
      if so.suicided || (a in stateObjectsDirty && deleteEmpty && so.Empty()) {
        DeleteStateObject(so);
      } else if a in stateObjectsDirty {
        if so.code.Some? && so.dirtyCode {
          stores := stores.(code := stores.code[so.account.codeHash := so.code.value]);
          SetStateObject(so.(dirtyCode := false));
        }
        ok := UpdateStateObject(so);
      }
      stateObjectsDirty := stateObjectsDirty - {a};
    }

    method Commit(deleteEmpty: bool) returns (ok: bool)
      requires Valid()
      modifies this, journal
      ensures Valid()
      ensures var r := Committing.Commit(old(View()), Keys(old(stateObjects)), deleteEmpty);
              (ok <==> r.Ok?) && (ok ==> View() == r.value)
    {
      hide CommitOne;
      var i := 0;
      while i < |journal.dirties|
        invariant 0 <= i <= |journal.dirties|
        invariant unchanged(journal) && unchanged(this`stores, this`stateObjects, this`addressToObjectIndex)
        invariant unchanged(this`validRevisions, this`nextRevisionID, this`refund, this`thash, this`bhash, this`txIndex)
        invariant unchanged(this`logSize, this`logs, this`preimages, this`hashToPreimageIndex)
        invariant stateObjectsDirty == old(stateObjectsDirty) + DirtyAddresses(journal.dirties[..i])
      {
        stateObjectsDirty := stateObjectsDirty + {journal.dirties[i].address};
        i := i + 1;
      }
      assert journal.dirties[..i] == journal.dirties;
      ok := CommitObjects(deleteEmpty);
      ClearJournalAndRefund();
    }

    /** The second loop of Commit, over the state objects in slice order. */
    method CommitObjects(deleteEmpty: bool) returns (ok: bool)
      requires Valid()
      modifies this`stores, this`stateObjects, this`addressToObjectIndex, this`stateObjectsDirty
      ensures Valid()
      ensures var r := CommitAll(old(Core()), Keys(old(stateObjects)), deleteEmpty);
              (ok <==> r.Ok?) && (ok ==> Core() == r.value)
    {
      hide CommitOne;
      ghost var order := Keys(stateObjects);
      var i := 0;
      assert order[0..] == order;
      while i < |stateObjects|
        invariant Valid() && 0 <= i <= |stateObjects| && Keys(stateObjects) == order
        invariant CommitAll(old(Core()), order, deleteEmpty) == CommitAll(Core(), order[i..], deleteEmpty)
      {
        assert order[i] == stateObjects[i].key && order[i] in Core().objects;
        assert order[i..][1..] == order[i + 1..];
        ok := CommitAccount(i, deleteEmpty);
        if !ok {
          return;
        }
        i := i + 1;
      }
      ok := true;
    }
  }
}
