/** The state object as the program keeps it: slices for both storage caches, each with a map
    from key to position.  Every method is proved against the state object on maps. */
module StateObjectCaches {
  import opened EvmTypes
  import opened IndexedSlices
  import opened StateObjects

  // ---------- commitState, one dirty entry at a time ----------

  /** What is stored under k when the keys in done have been flushed. */
  function FlushedIn(so: StateObject, st: Stores, done: set<StorageKey>, k: StorageKey): Option<Word> {
    if k in done then so.Flushed(st, k)
    else if k in st.storage then Some(st.storage[k]) else None
  }

  function StorageIn(so: StateObject, st: Stores, done: set<StorageKey>): map<StorageKey, Word> {
    map k | k in st.storage.Keys + so.dirty.Keys && FlushedIn(so, st, done, k).Some? :: FlushedIn(so, st, done, k).value
  }

  function OriginIn(so: StateObject, done: set<StorageKey>): map<StorageKey, Word> {
    map k | k in so.origin && !(k in done && k in so.dirty && so.dirty[k] == 0) ::
      if k in done && k in so.dirty then so.dirty[k] else so.origin[k]
  }

  lemma NothingFlushed(so: StateObject, st: Stores)
    ensures StorageIn(so, st, {}) == st.storage && OriginIn(so, {}) == so.origin
  {
  }

  lemma AllFlushed(so: StateObject, st: Stores)
    ensures so.CommitState(st) ==
            (so.(origin := OriginIn(so, so.dirty.Keys), dirty := map[]), st.(storage := StorageIn(so, st, so.dirty.Keys)))
  {
    var (so', st') := so.CommitState(st);
    assert st'.storage == StorageIn(so, st, so.dirty.Keys);
    assert so'.origin == OriginIn(so, so.dirty.Keys);
  }

  /** One iteration of commitState on the store, given the cached origins. */
  function FlushStorage(origin: map<StorageKey, Word>, storage: map<StorageKey, Word>, k: StorageKey, v: Word): map<StorageKey, Word> {
    if v == 0 then storage - {k}
    else if k !in origin || v == origin[k] then storage
    else storage[k := v]
  }

  /** One iteration of commitState on the cached origins. */
  function FlushOrigin(origin: map<StorageKey, Word>, k: StorageKey, v: Word): map<StorageKey, Word> {
    if k !in origin then origin
    else if v == 0 then origin - {k}
    else origin[k := v]
  }

  lemma FlushStep(so: StateObject, st: Stores, done: set<StorageKey>, k: StorageKey)
    requires k in so.dirty && k !in done
    ensures FlushStorage(OriginIn(so, done), StorageIn(so, st, done), k, so.dirty[k]) == StorageIn(so, st, done + {k})
    ensures FlushOrigin(OriginIn(so, done), k, so.dirty[k]) == OriginIn(so, done + {k})
  {
    var s := FlushStorage(OriginIn(so, done), StorageIn(so, st, done), k, so.dirty[k]);
    var s' := StorageIn(so, st, done + {k});
    forall j
      ensures j in s <==> j in s'
      ensures j in s ==> s[j] == s'[j]
    {
      assert j != k ==> FlushedIn(so, st, done, j) == FlushedIn(so, st, done + {k}, j);
    }
  }

  // ---------- The slots passed so far ----------

  ghost function KeysBefore(slots: seq<State>, i: nat): set<StorageKey>
    requires i <= |slots|
  {
    set j | 0 <= j < i :: slots[j].key
  }

  lemma NoKeysBefore(slots: seq<State>, index: map<StorageKey, nat>)
    ensures KeysBefore(slots, 0) == {} && index - KeysBefore(slots, 0) == index
  {
  }

  lemma NextKeyBefore(slots: seq<State>, index: map<StorageKey, nat>, i: nat)
    requires Bijective(slots, index) && i < |slots|
    ensures
      var key := slots[i].key;
      && key !in KeysBefore(slots, i) && KeysBefore(slots, i + 1) == KeysBefore(slots, i) + {key}
      && Indexed(slots, index) && key in Contents(slots, index) && Contents(slots, index)[key] == slots[i].value
  {
  }

  lemma AllKeysBefore(slots: seq<State>, index: map<StorageKey, nat>)
    requires Bijective(slots, index)
    ensures Indexed(slots, index) && KeysBefore(slots, |slots|) == Contents(slots, index).Keys
    ensures index - KeysBefore(slots, |slots|) == map[]
    ensures Bijective<StorageKey, Word>([], map[]) && Indexed<StorageKey, Word>([], map[])
    ensures Contents<StorageKey, Word>([], map[]) == map[]
  {
  }

  // ---------- The object ----------

  type State = Slot<StorageKey, Word>

  class StateObjectCache {
    const address: Address
    var account: Account
    var code: Option<Bytes>
    var originStorage: seq<State>
    var dirtyStorage: seq<State>
    var keyToOriginStorageIndex: map<StorageKey, nat>
    var keyToDirtyStorageIndex: map<StorageKey, nat>
    var dirtyCode: bool
    var suicided: bool
    var deleted: bool

    /** Dirty slots and index agree both ways; origin slots may outlive their index. */
    ghost predicate Valid()
      reads this
    {
      && Bijective(dirtyStorage, keyToDirtyStorageIndex)
      && Indexed(originStorage, keyToOriginStorageIndex)
    }

    ghost function View(): StateObject
      reads this
      requires Valid()
    {
      StateObject(address, account, code,
                  Contents(originStorage, keyToOriginStorageIndex),
                  Contents(dirtyStorage, keyToDirtyStorageIndex),
                  dirtyCode, suicided, deleted)
    }

    /** newStateObject. */
    constructor (a: Address, acc: Account)
      ensures Valid() && View() == NewObject(a, acc)
    {
      address, account, code := a, acc, None;
      originStorage, dirtyStorage := [], [];
      keyToOriginStorageIndex, keyToDirtyStorageIndex := map[], map[];
      dirtyCode, suicided, deleted := false, false, false;
    }

    method GetCommittedState(st: Stores, slot: Word) returns (value: Word)
      requires Valid()
      modifies this`originStorage, this`keyToOriginStorageIndex
      ensures Valid()
      ensures (View(), value) == old(View()).GetCommittedState(st, slot)
    {
      var prefixKey := StorageKey(address, slot);
      if prefixKey in keyToOriginStorageIndex {
        return originStorage[keyToOriginStorageIndex[prefixKey]].value;
      }
      value := st.Word(prefixKey);
      PutIndexed(originStorage, keyToOriginStorageIndex, prefixKey, value);
      originStorage := originStorage + [Slot(prefixKey, value)];
      keyToOriginStorageIndex := keyToOriginStorageIndex[prefixKey := |originStorage| - 1];
    }

    method GetState(st: Stores, slot: Word) returns (value: Word)
      requires Valid()
      modifies this`originStorage, this`keyToOriginStorageIndex
      ensures Valid()
      ensures (View(), value) == old(View()).GetState(st, slot)
    {
      var prefixKey := StorageKey(address, slot);
      if prefixKey in keyToDirtyStorageIndex {
        return dirtyStorage[keyToDirtyStorageIndex[prefixKey]].value;
      }
      value := GetCommittedState(st, slot);
    }

    /** setState. */
    method WriteDirty(key: StorageKey, value: Word)
      requires Valid()
      modifies this`dirtyStorage, this`keyToDirtyStorageIndex
      ensures Valid()
      ensures View() == old(View()).WriteDirty(key, value)
    {
      hide Bijective, Indexed, Contents;
      PutContents(dirtyStorage, keyToDirtyStorageIndex, key, value);
      if key in keyToDirtyStorageIndex {
        dirtyStorage := dirtyStorage[keyToDirtyStorageIndex[key] := Slot(key, value)];
        return;
      }
      dirtyStorage := dirtyStorage + [Slot(key, value)];
      keyToDirtyStorageIndex := keyToDirtyStorageIndex[key := |dirtyStorage| - 1];
    }

    /** SetState: returns the previous value when a change was made and must be journaled. */
    method SetState(st: Stores, slot: Word, value: Word) returns (prev: Option<Word>)
      requires Valid()
      modifies this`originStorage, this`keyToOriginStorageIndex, this`dirtyStorage, this`keyToDirtyStorageIndex
      ensures Valid()
      ensures var (so, v) := old(View()).GetState(st, slot);
              if v == value then View() == so && prev == None
              else View() == so.WriteDirty(so.Key(slot), value) && prev == Some(v)
    {
      var v := GetState(st, slot);
      if v == value {
        return None;
      }
      WriteDirty(StorageKey(address, slot), value);
      prev := Some(v);
    }

    /** The body of the loop in commitState. */
    method FlushEntry(key: StorageKey, value: Word, storage: map<StorageKey, Word>)
      returns (storage': map<StorageKey, Word>)
      requires Indexed(originStorage, keyToOriginStorageIndex)
      modifies this`originStorage, this`keyToOriginStorageIndex, this`keyToDirtyStorageIndex
      ensures Indexed(originStorage, keyToOriginStorageIndex)
      ensures keyToDirtyStorageIndex == old(keyToDirtyStorageIndex) - {key}
      ensures storage' == FlushStorage(old(Contents(originStorage, keyToOriginStorageIndex)), storage, key, value)
      ensures Contents(originStorage, keyToOriginStorageIndex) ==
              FlushOrigin(old(Contents(originStorage, keyToOriginStorageIndex)), key, value)
    {
      storage' := storage;
      if value == 0 {
        storage' := storage' - {key};
      }
      keyToDirtyStorageIndex := keyToDirtyStorageIndex - {key};
      if key !in keyToOriginStorageIndex {
        return;
      }
      var idx := keyToOriginStorageIndex[key];
      if value == 0 {
        keyToOriginStorageIndex := keyToOriginStorageIndex - {key};
        return;
      }
      if value == originStorage[idx].value {
        return;
      }
      PutIndexed(originStorage, keyToOriginStorageIndex, key, value);
      originStorage := originStorage[idx := Slot(key, value)];
      storage' := storage'[key := value];
    }

    /** commitState: one pass over the dirty slots. */
    method CommitState(st: Stores) returns (st': Stores)
      requires Valid()
      modifies this`originStorage, this`keyToOriginStorageIndex, this`dirtyStorage, this`keyToDirtyStorageIndex
      ensures Valid()
      ensures (View(), st') == old(View()).CommitState(st)
    {
      hide OriginIn, StorageIn, StateObject.CommitState, FlushOrigin, FlushStorage, KeysBefore, Bijective, Indexed, Contents;
      ghost var so := View();
      var storage := st.storage;
      ghost var slots, index := dirtyStorage, keyToDirtyStorageIndex;
      NothingFlushed(so, st);
      NoKeysBefore(slots, index);
      var i := 0;
      while i < |dirtyStorage|
        invariant 0 <= i <= |dirtyStorage| && dirtyStorage == slots
        invariant keyToDirtyStorageIndex == index - KeysBefore(slots, i)
        invariant Indexed(originStorage, keyToOriginStorageIndex)
        invariant Contents(originStorage, keyToOriginStorageIndex) == OriginIn(so, KeysBefore(slots, i))
        invariant storage == StorageIn(so, st, KeysBefore(slots, i))
      {
        var key, value := dirtyStorage[i].key, dirtyStorage[i].value;
        NextKeyBefore(slots, index, i);
        FlushStep(so, st, KeysBefore(slots, i), key);
        storage := FlushEntry(key, value, storage);
        assert index - KeysBefore(slots, i) - {key} == index - KeysBefore(slots, i + 1);
        i := i + 1;
      }
      AllKeysBefore(slots, index);
      dirtyStorage := [];
      st' := st.(storage := storage);
      AllFlushed(so, st);
    }
  }
}
