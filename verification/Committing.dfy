/** Writing the state back: Finalise and Commit, and what a fresh database then reads. */
module Committing {
  import opened EvmTypes
  import opened StateObjects
  import opened Journals
  import opened StateDBs
  import opened Reverting
  import opened Snapshots

  /** deleteStateObject. */
  function DeleteObject(c: Core, so: StateObject): Core {
    c.(objects := c.objects[so.address := so.(deleted := true)],
       stores := c.stores.(accounts := c.stores.accounts - {so.address}))
  }

  /** updateStateObject: fails on a blacklisted address. */
  function UpdateObject(c: Core, so: StateObject): Outcome<Core> {
    if so.address in c.stores.blacklist then Panic
    else Ok(c.(stores := c.stores.(accounts := c.stores.accounts[so.address := so.account])))
  }

  // ---------- Finalise ----------

  /** One iteration of Finalise. */
  function FinaliseOne(c: Core, a: Address, deleteEmpty: bool): Outcome<Core> {
    if a !in c.objects then Ok(c)
    else
      var so := c.objects[a];
      var r :=
        if so.suicided || (deleteEmpty && so.Empty()) then Ok(DeleteObject(c, so))
        else
          var (so', st) := so.CommitState(c.stores);
          UpdateObject(c.(stores := st).Put(so'), so');
      if r.Panic? then Panic else Ok(r.value.(objectsDirty := r.value.objectsDirty + {a}))
  }

  function FinaliseAll(c: Core, ds: seq<Dirty>, deleteEmpty: bool): Outcome<Core>
    decreases |ds|
  {
    if ds == [] then Ok(c)
    else
      var r := FinaliseOne(c, ds[0].address, deleteEmpty);
      if r.Panic? then Panic else FinaliseAll(r.value, ds[1..], deleteEmpty)
  }

  function ClearJournal(db: DB): DB {
    db.(core := db.core.(refund := 0), journal := Journals.EMPTY, revisions := [])
  }

  function Finalise(db: DB, deleteEmpty: bool): Outcome<DB> {
    var r := FinaliseAll(db.core, db.journal.dirties, deleteEmpty);
    if r.Panic? then Panic
    else
      var db' := ClearJournal(db.(core := r.value));
      Ok(db'.(core := db'.core.(logs := [])))
  }

  // ---------- Commit ----------

  /** commitCode, when code was loaded and changed. */
  function CommitCode(c: Core, so: StateObject): Core {
    if so.code.Some? && so.dirtyCode then
      c.(stores := c.stores.(code := c.stores.code[so.account.codeHash := so.code.value]))
       .Put(so.(dirtyCode := false))
    else c
  }

  /** One iteration of Commit. */
  function CommitOne(c: Core, a: Address, deleteEmpty: bool): Outcome<Core>
    requires a in c.objects
  {
    var so := c.objects[a];
    var isDirty := a in c.objectsDirty;
    var r :=
      if so.suicided || (isDirty && deleteEmpty && so.Empty()) then Ok(DeleteObject(c, so))
      else if isDirty then UpdateObject(CommitCode(c, so), so)
      else Ok(c);
    if r.Panic? then Panic else Ok(r.value.(objectsDirty := r.value.objectsDirty - {a}))
  }

  /** The loop of Commit over the live objects in slice order. */
  function CommitAll(c: Core, order: seq<Address>, deleteEmpty: bool): Outcome<Core>
    decreases |order|
  {
    if order == [] then Ok(c)
    else if order[0] !in c.objects then Panic
    else
      var r := CommitOne(c, order[0], deleteEmpty);
      if r.Panic? then Panic else CommitAll(r.value, order[1..], deleteEmpty)
  }

  function DirtyAddresses(ds: seq<Dirty>): set<Address> {
    set i | 0 <= i < |ds| :: ds[i].address
  }

  function Commit(db: DB, order: seq<Address>, deleteEmpty: bool): Outcome<DB> {
    var c := db.core.(objectsDirty := db.core.objectsDirty + DirtyAddresses(db.journal.dirties));
    var r := CommitAll(c, order, deleteEmpty);
    if r.Panic? then Panic else Ok(ClearJournal(db.(core := r.value)))
  }

  /** Finalise followed by Commit, as at the end of a transaction, where both delete empty accounts. */
  function WriteBack(db: DB, order: seq<Address>, del: bool): Outcome<DB> {
    var f := Finalise(db, del);
    if f.Panic? then Panic else Commit(f.value, order, del)
  }

  // ---------- Each iteration is local to its account ----------

  /** The two cores agree on everything Finalise reads or writes for a. */
  ghost predicate SameSlice(c: Core, d: Core, a: Address) {
    && (a in c.objects <==> a in d.objects)
    && (a in c.objects ==> c.objects[a] == d.objects[a])
    && (a in c.stores.accounts <==> a in d.stores.accounts)
    && (a in c.stores.accounts ==> c.stores.accounts[a] == d.stores.accounts[a])
    && (forall slot :: c.stores.Word(StorageKey(a, slot)) == d.stores.Word(StorageKey(a, slot)))
  }

  /** Writing back leaves everything but objects, stores and marks alone. */
  ghost predicate SameCounters(c: Core, f: Core) {
    f == c.(objects := f.objects, stores := f.stores, objectsDirty := f.objectsDirty)
  }

  /** Objects sit under their address with coherent caches. */
  ghost predicate ObjectsOk(c: Core) {
    forall a :: a in c.objects ==> c.objects[a].address == a && c.objects[a].Valid(c.stores)
  }

  predicate Doomed(so: StateObject, del: bool) {
    so.suicided || (del && so.Empty())
  }

  /** What Finalise does to a dirty account. */
  ghost predicate FinalisedAt(c: Core, f: Core, a: Address, del: bool) {
    if a !in c.objects then SameSlice(c, f, a)
    else
      && a in f.objects
      && var so, so' := c.objects[a], f.objects[a];
         if Doomed(so, del) then so' == so.(deleted := true) && a !in f.stores.accounts
         else
           && so' == so.(origin := so'.origin, dirty := map[])
           && a in f.stores.accounts && f.stores.accounts[a] == so.account
           && forall slot :: f.stores.Word(StorageKey(a, slot)) == so.ValueAt(c.stores, slot)
  }

  lemma FinaliseOneFlush(c: Core, a: Address, del: bool)
    requires ObjectsOk(c) && a in c.objects && !Doomed(c.objects[a], del) && FinaliseOne(c, a, del).Ok?
    ensures var f := FinaliseOne(c, a, del).value;
            && ObjectsOk(f) && FinalisedAt(c, f, a, del)
            && forall b :: b != a ==> SameSlice(c, f, b)
  {
    var so := c.objects[a];
    var f := FinaliseOne(c, a, del).value;
    CommitStateFlushes(so, c.stores);
    assert f.objects[a] == so.CommitState(c.stores).0;
    forall b | b in f.objects
      ensures f.objects[b].address == b && f.objects[b].Valid(f.stores)
    {
      if b != a {
        OtherObjectValid(c.objects[b], c.stores, f.stores);
      }
    }
  }

  /** An object does not notice changes to other accounts. */
  lemma OtherObjectValid(so: StateObject, st: Stores, st': Stores)
    requires so.Valid(st)
    requires forall slot :: st'.Word(StorageKey(so.address, slot)) == st.Word(StorageKey(so.address, slot))
    requires forall h :: st.HasCode(h) ==> st'.HasCode(h)
    ensures so.Valid(st')
  {
    forall k | k in so.origin
      ensures so.origin[k] == st'.Word(k)
    {
      assert k == StorageKey(so.address, k.slot);
    }
  }

  lemma DeleteObjectAt(c: Core, a: Address)
    requires ObjectsOk(c) && a in c.objects
    ensures var f := DeleteObject(c, c.objects[a]);
            && ObjectsOk(f) && f.objects == c.objects[a := c.objects[a].(deleted := true)]
            && a !in f.stores.accounts
            && forall b :: b != a ==> SameSlice(c, f, b)
  {
    var f := DeleteObject(c, c.objects[a]);
    forall b | b in f.objects
      ensures f.objects[b].address == b && f.objects[b].Valid(f.stores)
    {
      OtherObjectValid(c.objects[b], c.stores, f.stores);
    }
  }

  /** An iteration of Finalise: exact for its account, invisible to the others. */
  lemma FinaliseOneAt(c: Core, a: Address, del: bool)
    requires ObjectsOk(c) && FinaliseOne(c, a, del).Ok?
    ensures var f := FinaliseOne(c, a, del).value;
            && ObjectsOk(f) && FinalisedAt(c, f, a, del)
            && (forall b :: b != a ==> SameSlice(c, f, b))
            && f.objects.Keys == c.objects.Keys && f.stores.code == c.stores.code
            && f.objectsDirty == c.objectsDirty + (if a in c.objects then {a} else {})
            && SameCounters(c, f)
  {
    if a in c.objects && Doomed(c.objects[a], del) {
      DeleteObjectAt(c, a);
    } else if a in c.objects {
      FinaliseOneFlush(c, a, del);
    }
    hide ObjectsOk, StateObject.CommitState;
  }

  lemma SliceReflexive(c: Core, a: Address)
    ensures SameSlice(c, c, a) && a !in DirtyAddresses([])
    ensures c.objectsDirty == c.objectsDirty + DirtyAddresses([]) * c.objects.Keys
  {
  }

  lemma SliceTransitive(c: Core, d: Core, e: Core, a: Address)
    requires SameSlice(c, d, a) && SameSlice(d, e, a)
    ensures SameSlice(c, e, a)
  {
    forall slot
      ensures c.stores.Word(StorageKey(a, slot)) == e.stores.Word(StorageKey(a, slot))
    {
      assert c.stores.Word(StorageKey(a, slot)) == d.stores.Word(StorageKey(a, slot));
    }
  }

  lemma FinalisedLater(c: Core, d: Core, f: Core, a: Address, del: bool)
    requires SameSlice(c, d, a) && FinalisedAt(d, f, a, del)
    requires a in c.objects ==> c.objects[a].address == a
    ensures FinalisedAt(c, f, a, del)
  {
    if a !in c.objects {
      SliceTransitive(c, d, f, a);
    } else if !Doomed(c.objects[a], del) {
      var so := c.objects[a];
      forall slot
        ensures f.stores.Word(StorageKey(a, slot)) == so.ValueAt(c.stores, slot)
      {
        assert c.stores.Word(so.Key(slot)) == d.stores.Word(so.Key(slot));
      }
    }
  }

  lemma FinalisedStays(c: Core, d: Core, f: Core, a: Address, del: bool)
    requires FinalisedAt(c, d, a, del) && SameSlice(d, f, a)
    ensures FinalisedAt(c, f, a, del)
  {
    if a !in c.objects {
      SliceTransitive(c, d, f, a);
    } else if !Doomed(c.objects[a], del) {
      forall slot
        ensures f.stores.Word(StorageKey(a, slot)) == c.objects[a].ValueAt(c.stores, slot)
      {
        assert d.stores.Word(StorageKey(a, slot)) == f.stores.Word(StorageKey(a, slot));
      }
    }
  }

  ghost predicate Distinct(ds: seq<Dirty>) {
    forall i, j :: 0 <= i < j < |ds| ==> ds[i].address != ds[j].address
  }

  lemma {:induction false} FinaliseAllAt(c: Core, ds: seq<Dirty>, a: Address, del: bool)
    requires ObjectsOk(c) && Distinct(ds) && FinaliseAll(c, ds, del).Ok?
    ensures var f := FinaliseAll(c, ds, del).value;
            && ObjectsOk(f)
            && f.objects.Keys == c.objects.Keys && f.stores.code == c.stores.code
            && (a in DirtyAddresses(ds) ==> FinalisedAt(c, f, a, del))
            && (a !in DirtyAddresses(ds) ==> SameSlice(c, f, a))
            && f.objectsDirty == c.objectsDirty + DirtyAddresses(ds) * c.objects.Keys
            && SameCounters(c, f)
    decreases |ds|
  {
    AddressOf(c, a);
    hide ObjectsOk, FinaliseOne, FinalisedAt, SameSlice, DirtyAddresses, SameCounters, Distinct;
    if ds == [] {
      SliceReflexive(c, a);
      CountersThrough(c, c, c);
    } else {
      var c1 := FinaliseOne(c, ds[0].address, del).value;
      FinaliseOneAt(c, ds[0].address, del);
      AddressesCons(ds);
      FinaliseAllAt(c1, ds[1..], a, del);
      var f := FinaliseAll(c, ds, del).value;
      MarksThrough(c.objectsDirty, c.objects.Keys, ds[0].address, DirtyAddresses(ds[1..]));
      CountersThrough(c, c1, f);
      if a == ds[0].address {
        FinalisedStays(c, c1, f, a, del);
      } else if a in DirtyAddresses(ds) {
        FinalisedLater(c, c1, f, a, del);
      } else {
        SliceTransitive(c, c1, f, a);
      }
    }
  }

  lemma AddressOf(c: Core, a: Address)
    requires ObjectsOk(c)
    ensures a in c.objects ==> c.objects[a].address == a
  {
  }

  lemma MarksThrough(marks: set<Address>, live: set<Address>, a: Address, rest: set<Address>)
    ensures marks + (if a in live then {a} else {}) + rest * live == marks + ({a} + rest) * live
  {
  }

  lemma CountersThrough(c: Core, d: Core, f: Core)
    ensures SameCounters(c, c) && (SameCounters(c, d) && SameCounters(d, f) ==> SameCounters(c, f))
  {
  }

  lemma AddressesCons(ds: seq<Dirty>)
    requires ds != [] && Distinct(ds)
    ensures DirtyAddresses(ds) == {ds[0].address} + DirtyAddresses(ds[1..])
    ensures ds[0].address !in DirtyAddresses(ds[1..]) && Distinct(ds[1..])
  {
    assert forall i :: 1 <= i < |ds| ==> ds[i] == ds[1..][i - 1];
  }

  // ---------- Commit, account by account ----------

  /** What Commit does to an account. */
  ghost predicate CommittedAt(c: Core, f: Core, a: Address, del: bool)
    requires a in c.objects
  {
    && a in f.objects
    && var so, so' := c.objects[a], f.objects[a];
       if so.suicided || (a in c.objectsDirty && del && so.Empty()) then
         so' == so.(deleted := true) && a !in f.stores.accounts
       else if a in c.objectsDirty then
         && so' == so.(dirtyCode := so'.dirtyCode)
         && a in f.stores.accounts && f.stores.accounts[a] == so.account
         && f.stores.HasCode(so.account.codeHash)
       else SameSlice(c, f, a)
  }

  /** Commit touches no storage word and only adds code under its hash. */
  ghost predicate CodeGrows(c: Core, f: Core) {
    && f.stores.storage == c.stores.storage
    && f.objects.Keys == c.objects.Keys
    && (forall h :: c.stores.HasCode(h) ==> f.stores.HasCode(h))
    && (CodeOk(c.stores) ==> CodeOk(f.stores))
  }

  ghost predicate CodeOk(st: Stores) {
    forall h :: h in st.code ==> st.code[h] == h.preimage
  }

  lemma CommitOneUpdate(c: Core, a: Address, del: bool)
    requires ObjectsOk(c) && a in c.objects && a in c.objectsDirty && !Doomed(c.objects[a], del)
    requires CommitOne(c, a, del).Ok?
    ensures var f := CommitOne(c, a, del).value;
            && ObjectsOk(f) && CommittedAt(c, f, a, del) && CodeGrows(c, f)
            && forall b :: b != a ==> SameSlice(c, f, b)
  {
    var so := c.objects[a];
    var f := CommitOne(c, a, del).value;
    assert so.Valid(c.stores);
    forall b | b in f.objects
      ensures f.objects[b].address == b && f.objects[b].Valid(f.stores)
    {
      OtherObjectValid(c.objects[b], c.stores, f.stores);
    }
  }

  lemma CommitOneAt(c: Core, a: Address, del: bool)
    requires ObjectsOk(c) && a in c.objects && CommitOne(c, a, del).Ok?
    ensures var f := CommitOne(c, a, del).value;
            && ObjectsOk(f) && CommittedAt(c, f, a, del) && CodeGrows(c, f)
            && (forall b :: b != a ==> SameSlice(c, f, b))
            && f.objectsDirty == c.objectsDirty - {a}
            && SameCounters(c, f)
  {
    var so := c.objects[a];
    if so.suicided || (a in c.objectsDirty && del && so.Empty()) {
      DeleteObjectAt(c, a);
    } else if a in c.objectsDirty {
      CommitOneUpdate(c, a, del);
    }
    hide ObjectsOk;
  }

  lemma CommittedLater(c: Core, d: Core, f: Core, a: Address, del: bool)
    requires SameSlice(c, d, a) && a in c.objects && CommittedAt(d, f, a, del)
    requires a in c.objectsDirty <==> a in d.objectsDirty
    ensures CommittedAt(c, f, a, del)
  {
    var so := c.objects[a];
    if !so.suicided && a !in c.objectsDirty {
      SliceTransitive(c, d, f, a);
    }
  }

  lemma CommittedStays(c: Core, d: Core, f: Core, a: Address, del: bool)
    requires a in c.objects && CommittedAt(c, d, a, del) && SameSlice(d, f, a)
    requires forall h :: d.stores.HasCode(h) ==> f.stores.HasCode(h)
    ensures CommittedAt(c, f, a, del)
  {
    var so := c.objects[a];
    if !so.suicided && a !in c.objectsDirty {
      SliceTransitive(c, d, f, a);
    }
  }

  lemma GrowsTransitive(c: Core, d: Core, f: Core)
    requires CodeGrows(c, d) && CodeGrows(d, f)
    ensures CodeGrows(c, f)
  {
  }

  lemma {:induction false} CommitAllAt(c: Core, order: seq<Address>, a: Address, del: bool)
    requires ObjectsOk(c) && NoRepeats(order) && CommitAll(c, order, del).Ok?
    requires a in order ==> a in c.objects
    ensures var f := CommitAll(c, order, del).value;
            && ObjectsOk(f) && CodeGrows(c, f)
            && (a in order ==> CommittedAt(c, f, a, del))
            && (a !in order ==> SameSlice(c, f, a))
            && (a in f.objectsDirty <==> a in c.objectsDirty && a !in order)
            && SameCounters(c, f)
    decreases |order|
  {
    hide ObjectsOk, CommitOne, CommittedAt, SameSlice, CodeGrows;
    if order == [] {
      SliceReflexive(c, a);
      GrowsReflexive(c);
    } else {
      var b := order[0];
      var d := CommitOne(c, b, del).value;
      CommitOneAt(c, b, del);
      KeysKept(c, d);
      CommitAllAt(d, order[1..], a, del);
      var f := CommitAll(c, order, del).value;
      GrowsTransitive(c, d, f);
      if a == b {
        CodeKept(d, f);
        CommittedStays(c, d, f, a, del);
      } else if a in order {
        CommittedLater(c, d, f, a, del);
      } else {
        SliceTransitive(c, d, f, a);
      }
    }
  }

  lemma GrowsReflexive(c: Core)
    ensures CodeGrows(c, c)
  {
  }

  lemma KeysKept(c: Core, d: Core)
    requires CodeGrows(c, d)
    ensures d.objects.Keys == c.objects.Keys
  {
  }

  lemma CodeKept(c: Core, d: Core)
    requires CodeGrows(c, d)
    ensures forall h :: c.stores.HasCode(h) ==> d.stores.HasCode(h)
  {
  }

  // ---------- What a fresh database reads afterwards ----------

  /** A database without live objects over the stores reads for a what c reads: existence,
      balance, nonce, code hash and every storage word. */
  ghost predicate Persisted(c: Core, f: Stores, a: Address) {
    var live := c.Lookup(a);
    && (live.Some? <==> a in f.accounts)
    && (live.Some? ==>
          && f.accounts[a] == live.value.account
          && forall slot :: f.Word(StorageKey(a, slot)) == live.value.ValueAt(c.stores, slot))
  }

  /** And it reads the same code bytes. */
  ghost predicate ReadsBack(c: Core, f: Stores, a: Address) {
    && Persisted(c, f, a)
    && (c.Lookup(a).Some? ==> NewObject(a, f.accounts[a]).CodeBytes(f) == c.Lookup(a).value.CodeBytes(c.stores))
  }

  /** The live objects are listed once each. */
  ghost predicate Lists(order: seq<Address>, objects: set<Address>) {
    NoRepeats(order) && forall a :: a in order <==> a in objects
  }

  ghost predicate ReadyToWrite(db: DB, order: seq<Address>, del: bool) {
    && db.core.Valid() && Distinct(db.journal.dirties)
    && db.core.objectsDirty == {} && Lists(order, db.core.objects.Keys)
    && (del || LiveMarks(db)) && WriteBack(db, order, del).Ok?
  }

  /** No deleted object is marked dirty. */
  ghost predicate LiveMarks(db: DB) {
    forall a :: IsDirty(db, a) ==> !db.core.objects[a].deleted
  }

  /** The two passes as seen by one account. */
  lemma WriteBackStages(db: DB, order: seq<Address>, a: Address, del: bool)
    requires ReadyToWrite(db, order, del)
    ensures FinaliseAll(db.core, db.journal.dirties, del).Ok?
    ensures var f1 := FinaliseAll(db.core, db.journal.dirties, del).value;
            var f := WriteBack(db, order, del).value.core;
            && (a in DirtyAddresses(db.journal.dirties) ==> FinalisedAt(db.core, f1, a, del))
            && (a !in DirtyAddresses(db.journal.dirties) ==> SameSlice(db.core, f1, a))
            && f1.objects.Keys == db.core.objects.Keys && f1.stores.code == db.core.stores.code
            && (a in f1.objects ==> CommittedAt(f1, f, a, del))
            && (a !in f1.objects ==> SameSlice(f1, f, a))
            && (a in f1.objectsDirty <==> a in DirtyAddresses(db.journal.dirties) && a in f1.objects)
            && a !in f.objectsDirty
            && ObjectsOk(f1) && ObjectsOk(f) && CodeGrows(f1, f)
            && SameCounters(db.core.(refund := 0, logs := []), f)
  {
    var ds := db.journal.dirties;
    assert ObjectsOk(db.core) by {
      forall b | b in db.core.objects
        ensures db.core.objects[b].address == b && db.core.objects[b].Valid(db.core.stores)
      {
        assert db.core.ValidAt(b);
      }
    }
    FinaliseAllAt(db.core, ds, a, del);
    var f1 := FinaliseAll(db.core, ds, del).value;
    var c := Finalise(db, del).value.core;
    assert DirtyAddresses([]) == {};
    assert c.(objectsDirty := c.objectsDirty + {}) == c == f1.(refund := 0, logs := []);
    assert ObjectsOk(c);
    CommitAllAt(c, order, a, del);
    RefundIrrelevant(f1, c, CommitAll(c, order, del).value, WriteBack(db, order, del).value.core, a, del);
  }

  /** Clearing refund and logs changes nothing that is written back. */
  lemma RefundIrrelevant(f1: Core, c: Core, d: Core, f: Core, a: Address, del: bool)
    requires c == f1.(refund := 0, logs := []) && f == d.(refund := 0)
    requires ObjectsOk(d) && CodeGrows(c, d) && (a in c.objects ==> CommittedAt(c, d, a, del)) && (a !in c.objects ==> SameSlice(c, d, a))
    ensures ObjectsOk(f) && CodeGrows(f1, f)
    ensures (a in f1.objects ==> CommittedAt(f1, f, a, del)) && (a !in f1.objects ==> SameSlice(f1, f, a))
  {
  }

  /** The case split of WriteBackExact, on the two passes. */
  lemma WrittenBack(c: Core, f1: Core, f: Core, a: Address, marked: bool, del: bool)
    requires c.Valid()
    requires if marked then FinalisedAt(c, f1, a, del) else SameSlice(c, f1, a)
    requires f1.objects.Keys == c.objects.Keys && f.stores.storage == f1.stores.storage
    requires if a in f1.objects then CommittedAt(f1, f, a, del) else SameSlice(f1, f, a)
    requires a in f1.objectsDirty <==> marked && a in f1.objects
    requires !del && marked && a in c.objects ==> !c.objects[a].deleted
    ensures var live := c.Lookup(a);
            var dirty := marked && a in c.objects;
            && (live.None? ==> a !in f.stores.accounts)
            && (live.Some? && (live.value.suicided || (del && dirty && live.value.Empty())) ==> a !in f.stores.accounts)
            && (live.Some? && !(live.value.suicided || (del && dirty && live.value.Empty())) ==>
                  (Persisted(c, f.stores, a) <==> dirty || Persisted(c, c.stores, a)))
  {
    assert forall slot :: f.stores.Word(StorageKey(a, slot)) == f1.stores.Word(StorageKey(a, slot));
    if a in c.objects {
      assert c.ValidAt(a);
    }
    hide StateObject.Valid, Stores.Valid, AccessLists.AccessList.Valid;
  }

  /** The account has a live object and the journal marks it dirty.  (A mark left on a 0x03
      that is not live is ignored.) */
  predicate IsDirty(db: DB, a: Address) {
    a in DirtyAddresses(db.journal.dirties) && a in db.core.objects
  }

  /** What is written back has its code in the code store. */
  lemma CodeWritten(c: Core, f1: Core, f: Core, a: Address, marked: bool, del: bool)
    requires c.Valid() && c.Lookup(a).Some? && Persisted(c, f.stores, a)
    requires if marked then FinalisedAt(c, f1, a, del) else SameSlice(c, f1, a)
    requires f1.objects.Keys == c.objects.Keys && f1.stores.code == c.stores.code && CodeGrows(f1, f)
    requires if a in f1.objects then CommittedAt(f1, f, a, del) else SameSlice(f1, f, a)
    requires a in f1.objectsDirty <==> marked && a in f1.objects
    ensures f.stores.HasCode(c.Lookup(a).value.account.codeHash)
  {
    if a in c.objects {
      assert c.ValidAt(a);
    }
    hide StateObject.Valid, AccessLists.AccessList.Valid;
  }

  lemma PersistedReadsBack(c: Core, f: Stores, a: Address)
    requires c.Valid() && Persisted(c, f, a) && CodeOk(f)
    requires c.Lookup(a).Some? ==> f.HasCode(c.Lookup(a).value.account.codeHash)
    ensures ReadsBack(c, f, a)
  {
    if c.Lookup(a).Some? {
      var so := c.Lookup(a).value;
      if a in c.objects {
        assert c.ValidAt(a);
      }
      CodeIsPreimage(so, c.stores);
      CodeIsPreimage(NewObject(a, f.accounts[a]), f);
    }
  }

  /** Finalise then Commit, for one account: suicided accounts are gone, and dirty empty ones when they are to be;
      any other account is read back faithfully, code bytes included, exactly when it is dirty or
      reads like the store already. */
  lemma WriteBackExact(db: DB, order: seq<Address>, a: Address, del: bool)
    requires ReadyToWrite(db, order, del)
    ensures var f := WriteBack(db, order, del).value.core.stores;
            var live := db.core.Lookup(a);
            var dirty := IsDirty(db, a);
            && (live.None? ==> a !in f.accounts)
            && (live.Some? && (live.value.suicided || (del && dirty && live.value.Empty())) ==> a !in f.accounts)
            && (live.Some? && !(live.value.suicided || (del && dirty && live.value.Empty())) ==>
                  (ReadsBack(db.core, f, a) <==> dirty || Persisted(db.core, db.core.stores, a)))
            && (ReadsBack(db.core, f, a) <==> Persisted(db.core, f, a))
  {
    hide Persisted, FinalisedAt, SameSlice, CommittedAt, DirtyAddresses, WriteBack, CodeGrows, CodeOk, Core.Valid;
    WriteBackStages(db, order, a, del);
    var f1 := FinaliseAll(db.core, db.journal.dirties, del).value;
    var f := WriteBack(db, order, del).value.core;
    var marked := a in DirtyAddresses(db.journal.dirties);
    GrownStorage(f1, f);
    WrittenBack(db.core, f1, f, a, marked, del);
    if Persisted(db.core, f.stores, a) {
      if db.core.Lookup(a).Some? {
        CodeWritten(db.core, f1, f, a, marked, del);
      }
      ValidCodeOk(db.core, f1, f);
      PersistedReadsBack(db.core, f.stores, a);
    }
  }

  lemma GrownStorage(f1: Core, f: Core)
    requires CodeGrows(f1, f)
    ensures f.stores.storage == f1.stores.storage
  {
  }

  lemma ValidCodeOk(c: Core, f1: Core, f: Core)
    requires c.Valid() && f1.stores.code == c.stores.code && CodeGrows(f1, f)
    ensures CodeOk(f.stores)
  {
  }

  // ---------- When writing back fails ----------

  /** The account mapper refuses to write the account: the bank has blacklisted it. */
  predicate Barred(c: Core, a: Address, del: bool) {
    a in c.objects && a in c.stores.blacklist && !Doomed(c.objects[a], del)
  }

  lemma FinaliseOneFails(c: Core, a: Address, del: bool)
    requires ObjectsOk(c)
    ensures FinaliseOne(c, a, del).Panic? <==> Barred(c, a, del)
    ensures FinaliseOne(c, a, del).Ok? ==> FinaliseOne(c, a, del).value.stores.blacklist == c.stores.blacklist
  {
    hide StateObject.Valid, StateObject.Empty;
  }

  lemma {:induction false} FinaliseAllFails(c: Core, ds: seq<Dirty>, del: bool)
    requires ObjectsOk(c) && Distinct(ds)
    ensures FinaliseAll(c, ds, del).Panic? <==> exists i :: 0 <= i < |ds| && Barred(c, ds[i].address, del)
    ensures FinaliseAll(c, ds, del).Ok? ==> FinaliseAll(c, ds, del).value.stores.blacklist == c.stores.blacklist
    decreases |ds|
  {
    hide ObjectsOk, FinaliseOne, FinalisedAt, SameCounters, Doomed;
    if ds != [] {
      var a := ds[0].address;
      FinaliseOneFails(c, a, del);
      if FinaliseOne(c, a, del).Ok? {
        var d := FinaliseOne(c, a, del).value;
        FinaliseOneAt(c, a, del);
        FinaliseAllFails(d, ds[1..], del);
        forall i | 1 <= i < |ds|
          ensures Barred(d, ds[1..][i - 1].address, del) <==> Barred(c, ds[i].address, del)
        {
          assert SameSlice(c, d, ds[i].address);
        }
        assert forall i :: 0 <= i < |ds[1..]| ==> ds[1..][i] == ds[i + 1];
        BarredTail(c, d, ds, del);
      } else {
        assert Barred(c, ds[0].address, del);
      }
    }
  }

  lemma BarredTail(c: Core, d: Core, ds: seq<Dirty>, del: bool)
    requires ds != [] && !Barred(c, ds[0].address, del)
    requires forall i :: 1 <= i < |ds| ==> (Barred(d, ds[1..][i - 1].address, del) <==> Barred(c, ds[i].address, del))
    ensures (exists i :: 0 <= i < |ds[1..]| && Barred(d, ds[1..][i].address, del)) <==>
            (exists i :: 0 <= i < |ds| && Barred(c, ds[i].address, del))
  {
    hide Barred;
    if i :| 0 <= i < |ds[1..]| && Barred(d, ds[1..][i].address, del) {
      assert Barred(d, ds[1..][i + 1 - 1].address, del);
      assert Barred(c, ds[i + 1].address, del);
    }
    if i :| 0 <= i < |ds| && Barred(c, ds[i].address, del) {
      assert Barred(d, ds[1..][i - 1].address, del);
    }
  }

  lemma CommitOneSucceeds(c: Core, a: Address, del: bool)
    requires ObjectsOk(c) && a in c.objects && (a in c.objectsDirty ==> !Barred(c, a, del))
    ensures CommitOne(c, a, del).Ok? && CommitOne(c, a, del).value.stores.blacklist == c.stores.blacklist
  {
    hide StateObject.Valid, StateObject.Empty;
  }

  lemma {:induction false} CommitAllSucceeds(c: Core, order: seq<Address>, del: bool)
    requires ObjectsOk(c) && NoRepeats(order) && (forall a :: a in order ==> a in c.objects)
    requires forall a :: a in order && a in c.objectsDirty ==> !Barred(c, a, del)
    ensures CommitAll(c, order, del).Ok?
    decreases |order|
  {
    hide ObjectsOk, CommitOne, CommittedAt, SameCounters, CodeGrows, Doomed;
    if order != [] {
      var b := order[0];
      CommitOneSucceeds(c, b, del);
      CommitOneAt(c, b, del);
      var d := CommitOne(c, b, del).value;
      KeysKept(c, d);
      forall a | a in order[1..] && a in d.objectsDirty
        ensures !Barred(d, a, del)
      {
        assert a in order && a != b;
        assert SameSlice(c, d, a);
      }
      CommitAllSucceeds(d, order[1..], del);
    }
  }

  /** Writing back fails exactly when the bank has blacklisted an account that is dirty and not to
      be deleted; Commit never fails after Finalise. */
  lemma WriteBackFails(db: DB, order: seq<Address>, del: bool)
    requires db.core.Valid() && Distinct(db.journal.dirties) && db.core.objectsDirty == {} && Lists(order, db.core.objects.Keys)
    ensures WriteBack(db, order, del).Panic? <==> exists a :: a in DirtyAddresses(db.journal.dirties) && Barred(db.core, a, del)
  {
    hide FinaliseAll, CommitAll, Barred, Distinct, StateObject.Valid;
    var ds := db.journal.dirties;
    ValidObjects(db.core);
    FinaliseAllFails(db.core, ds, del);
    BarredListed(db.core, ds, del);
    if FinaliseAll(db.core, ds, del).Ok? {
      var f := FinaliseAll(db.core, ds, del).value;
      var c := f.(refund := 0, logs := []);
      assert DirtyAddresses([]) == {};
      assert c.(objectsDirty := c.objectsDirty + {}) == c;
      FinaliseAllAt(db.core, ds, 0, del);
      assert ObjectsOk(c);
      forall a | a in order && a in c.objectsDirty
        ensures !Barred(c, a, del)
      {
        FinaliseAllAt(db.core, ds, a, del);
        BarredStays(db.core, f, c, a, del);
      }
      CommitAllSucceeds(c, order, del);
    }
  }

  lemma BarredStays(c: Core, f: Core, g: Core, a: Address, del: bool)
    requires FinalisedAt(c, f, a, del) && f.stores.blacklist == c.stores.blacklist && g == f.(refund := 0, logs := [])
    ensures Barred(g, a, del) ==> Barred(c, a, del)
  {
  }

  lemma ValidObjects(c: Core)
    requires c.Valid()
    ensures ObjectsOk(c)
  {
    forall b | b in c.objects
      ensures c.objects[b].address == b && c.objects[b].Valid(c.stores)
    {
      assert c.ValidAt(b);
    }
  }

  lemma BarredListed(c: Core, ds: seq<Dirty>, del: bool)
    ensures (exists a :: a in DirtyAddresses(ds) && Barred(c, a, del)) <==>
            (exists i :: 0 <= i < |ds| && Barred(c, ds[i].address, del))
  {
    hide Barred;
    if i :| 0 <= i < |ds| && Barred(c, ds[i].address, del) {
      assert ds[i].address in DirtyAddresses(ds);
    }
  }
}
