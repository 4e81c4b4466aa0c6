/** A whole transaction: any run from a settled state, then Finalise and Commit. */
module Transactions {
  import opened EvmTypes
  import opened StateObjects
  import opened Journals
  import opened StateDBs
  import opened Reverting
  import opened Snapshots
  import opened Committing

  /** Every live account reads like the store, and none is suicided. */
  ghost predicate Settled(c: Core) {
    forall a :: SettledAt(c, a)
  }

  ghost predicate SettledAt(c: Core, a: Address) {
    Persisted(c, c.stores, a) && (c.Lookup(a).Some? ==> !c.Lookup(a).value.suicided)
  }

  /** The state between transactions. */
  ghost predicate AtRest(db: DB) {
    && db.core.Valid() && Settled(db.core) && db.core.objectsDirty == {}
    && db.journal == Journals.EMPTY && db.revisions == []
  }

  /** A new database over valid stores is at rest. */
  lemma NewAtRest(st: Stores)
    requires st.Valid()
    ensures AtRest(NewDB(st)) && NewDB(st).Valid() && Tracks(NewDB(st).journal, 0)
  {
    assert forall a :: Count([], a) == 0;
    forall a
      ensures SettledAt(NewDB(st).core, a)
    {
    }
  }

  /** The entry concerns neither the marks nor the object of a. */
  predicate Spares(e: Entry, a: Address) {
    e.Dirtied() != Some(a) && !(e.ResetObjectChange? && e.prev.address == a)
  }

  lemma UndoFrame(c: Core, e: Entry, a: Address)
    requires c.Valid() && CanUndo(c, e) && Spares(e, a)
    ensures SameAccount(Undo(c, e).value, c, a) && Undo(c, e).value.stores == c.stores
    ensures Undo(c, e).value.objectsDirty <= c.objectsDirty
  {
    hide Core.Valid;
    var c' := Undo(c, e).value;
    if AccountEntry(e) {
      FillCovers(c, e.account);
      if c.Fill(e.account).Lookup(e.account).Some? {
        LookupValid(c.Fill(e.account), e.account);
      }
    }
    assert c'.Lookup(a) == c.Lookup(a);
  }

  /** An account that no entry of a run concerns reads as it did at the start. */
  lemma {:induction false} UndoesFrame(c: Core, es: seq<Entry>, t: Core, a: Address)
    requires Undoes(c, es, t)
    requires forall e :: e in es ==> Spares(e, a)
    ensures SameAccount(c, t, a)
    decreases |es|
  {
    hide SameObject;
    if es == [] {
      assert CoversAt(c, t, a);
    } else {
      var e := es[|es| - 1];
      var d := Undo(c, e).value;
      UndoFrame(c, e, a);
      UndoesFrame(d, es[..|es| - 1], t, a);
      if c.Lookup(a).Some? {
        UndoesStores(d, es[..|es| - 1], t);
        SameObjectThrough(c.Lookup(a).value, d.Lookup(a).value, t.Lookup(a).value, t.stores);
      }
    }
  }

  lemma SameObjectThrough(x: StateObject, y: StateObject, z: StateObject, st: Stores)
    requires SameObject(y, x, st) && SameObject(y, z, st)
    ensures SameObject(x, z, st)
  {
    assert forall slot :: x.ValueAt(st, slot) == y.ValueAt(st, slot);
  }

  /** Entries never touch the stores. */
  lemma {:induction false} UndoesStores(c: Core, es: seq<Entry>, t: Core)
    requires Undoes(c, es, t)
    ensures c.stores == t.stores
    decreases |es|
  {
    if es != [] {
      UndoesStores(Undo(c, es[|es| - 1]).value, es[..|es| - 1], t);
    }
  }

  // ---------- Runs of a transaction ----------

  /** db was reached from a core with an empty journal, with x touches of an empty 0x03 and safe
      reverts. */
  ghost predicate Reached(base: Core, db: DB, x: nat) {
    && db.RevisionsOk() && Tracks(db.journal, x)
    && Undoes(db.core, db.journal.entries, base)
    && db.core.objectsDirty == {}
  }

  lemma DoMarks(c: Core, op: Op)
    requires Do(c, op).Ok?
    ensures Do(c, op).value.core.objectsDirty == c.objectsDirty
  {
    hide Write, AccessLists.AccessList.AddSlot, AccessLists.AccessList.AddAddress, StateObject.GetState,
      StateObject.GetCommittedState;
    if Setter(op) {
      var s := GetOrNew(c, op.a);
      WriteMarks(s.core, s.core.Lookup(op.a).value, op);
    }
  }

  lemma WriteMarks(c: Core, so: StateObject, op: Op)
    requires Setter(op) && Write(c, so, op).Ok?
    ensures Write(c, so, op).value.core.objectsDirty == c.objectsDirty
  {
    hide StateObject.GetState, StateObject.WriteDirty, StateObject.LoadCode;
  }

  lemma {:induction false} UndoAllMarks(c: Core, es: seq<Entry>)
    requires UndoAll(c, es).Ok?
    ensures UndoAll(c, es).value.objectsDirty <= c.objectsDirty
    decreases |es|
  {
    if es != [] {
      UndoAllMarks(Undo(c, es[|es| - 1]).value, es[..|es| - 1]);
    }
  }

  lemma ReachedStep(base: Core, db: DB, act: Action, x: nat)
    requires Reached(base, db, x) && Exec(db, act).Ok? && SafeStep(db, act, x)
    ensures Reached(base, Exec(db, act).value, x + if Touches(db.core, act) then 1 else 0)
  {
    hide Undoes, Tracks, Do, RevertLoop, UndoAll, Journal.Revert, Touches, SafeStep;
    var db' := Exec(db, act).value;
    UndoesValid(db.core, db.journal.entries, base);
    ExecTracks(db, act, x);
    match act
    case Operate(op) =>
      var s := Do(db.core, op).value;
      DoUndone(db.core, op);
      DoMarks(db.core, op);
      UndoesCompose(s.core, s.entries, db.core, db.journal.entries, base);
    case TakeSnapshot =>
    case RevertTo(id) =>
      var idx := Search(db.revisions, id);
      var m := db.revisions[idx].journalIndex;
      assert db.journal.entries[0..] == db.journal.entries;
      RevertPartWay(base, db, 0, m);
      assert db'.journal.entries[0..] == db'.journal.entries;
      RevertLoopSplits(db.core, db.journal, m);
      UndoAllMarks(db.core, db.journal.entries[m..]);
      assert forall i :: 0 <= i < idx ==> db'.revisions[i] == db.revisions[i];
  }

  lemma {:induction false} ReachedRun(base: Core, db: DB, acts: seq<Action>, x: nat)
    requires Reached(base, db, x) && Run(db, acts).Ok? && SafeRun(db, acts, x)
    ensures Reached(base, Run(db, acts).value, x + TouchesIn(db, acts))
    decreases |acts|
  {
    hide Reached, Exec, Touches, SafeStep;
    if acts != [] {
      ReachedStep(base, db, acts[0], x);
      ReachedRun(base, Exec(db, acts[0]).value, acts[1..], x + if Touches(db.core, acts[0]) then 1 else 0);
    }
  }

  /** CreateAccount over an existing account journals a reset that marks nothing dirty; every
      such account must have been marked by some other change. */
  ghost predicate ResetsMarked(db: DB) {
    forall e :: e in db.journal.entries && e.ResetObjectChange? ==>
                  e.prev.address in DirtyAddresses(db.journal.dirties)
  }

  /** In a transaction from a settled state, an account that is not marked dirty reads like
      the store. */
  lemma UnmarkedReadsLikeStore(base: Core, db: DB, x: nat, a: Address)
    requires Settled(base) && Reached(base, db, x) && ResetsMarked(db)
    requires a !in DirtyAddresses(db.journal.dirties)
    ensures SettledAt(db.core, a)
  {
    forall e | e in db.journal.entries
      ensures Spares(e, a)
    {
      if e.Dirtied() == Some(a) {
        MarkedWhenDirtied(db.journal, x, e);
      }
    }
    hide Undoes, Tracks, Settled;
    UndoesFrame(db.core, db.journal.entries, base, a);
    UndoesStores(db.core, db.journal.entries, base);
    SettledHere(base, a);
    SettledSame(db.core, base, a);
  }

  lemma SettledHere(c: Core, a: Address)
    requires Settled(c)
    ensures SettledAt(c, a)
  {
  }

  lemma SettledSame(c: Core, base: Core, a: Address)
    requires SettledAt(base, a) && SameAccount(c, base, a) && c.stores == base.stores
    ensures SettledAt(c, a)
  {
    if c.Lookup(a).Some? {
      var x, y := c.Lookup(a).value, base.Lookup(a).value;
      forall slot
        ensures c.stores.Word(StorageKey(a, slot)) == x.ValueAt(c.stores, slot)
      {
        assert x.ValueAt(c.stores, slot) == y.ValueAt(c.stores, slot);
      }
    }
  }

  lemma MarkedWhenDirtied(j: Journal, x: nat, e: Entry)
    requires Tracks(j, x) && e in j.entries && e.Dirtied().Some?
    ensures e.Dirtied().value in DirtyAddresses(j.dirties)
  {
    var a := e.Dirtied().value;
    var i :| 0 <= i < |j.entries| && j.entries[i] == e;
    CountPositive(j.entries, a);
    assert a in j.index;
    assert j.dirties[j.index[a]].address == a;
  }

  lemma TracksDistinct(j: Journal, x: nat)
    requires Tracks(j, x)
    ensures Distinct(j.dirties)
  {
  }

  // ---------- The end of a transaction ----------

  /** What a fresh database finds under a: nothing for suicided accounts and, when those are to be
      deleted, dirty empty ones; otherwise what the live database read. */
  ghost predicate WrittenFaithfully(db: DB, f: Stores, a: Address, del: bool) {
    var live := db.core.Lookup(a);
    if live.None? || live.value.suicided || (del && IsDirty(db, a) && live.value.Empty()) then a !in f.accounts
    else ReadsBack(db.core, f, a)
  }

  lemma ReachedStart(db: DB)
    requires AtRest(db)
    ensures Reached(db.core, db, 0)
  {
    CoversReflexive(db.core);
    NothingToUndo(db.core, db.core);
    assert forall a :: Count([], a) == 0;
  }

  /** After one account has gone through both passes it is settled and valid. */
  lemma SettledAfter(c: Core, f1: Core, f: Core, a: Address, marked: bool, del: bool)
    requires c.Valid()
    requires if marked then FinalisedAt(c, f1, a, del) else SameSlice(c, f1, a) && SettledAt(c, a)
    requires f1.objects.Keys == c.objects.Keys && f.stores.storage == f1.stores.storage && f.objects.Keys == f1.objects.Keys
    requires if a in f1.objects then CommittedAt(f1, f, a, del) else SameSlice(f1, f, a)
    requires a in f1.objectsDirty <==> marked && a in f1.objects
    requires forall h :: c.stores.HasCode(h) ==> f.stores.HasCode(h)
    requires !del && marked && a in c.objects ==> !c.objects[a].deleted
    ensures SettledAt(f, a)
    ensures a in f.objects && f.objects[a].deleted ==>
              a !in f.stores.accounts && (f.objects[a].suicided || f.objects[a].Empty())
    ensures a in f.stores.accounts ==> f.stores.HasCode(f.stores.accounts[a].codeHash)
  {
    assert forall slot :: f.stores.Word(StorageKey(a, slot)) == f1.stores.Word(StorageKey(a, slot));
    assert a in c.stores.accounts ==> c.stores.HasCode(c.stores.accounts[a].codeHash);
    if a in c.objects {
      assert c.ValidAt(a);
    }
    hide StateObject.Valid, Stores.Valid, AccessLists.AccessList.Valid;
  }

  /** A transaction: any run of operations, snapshots and safe reverts from a settled state in
      which accounts that are reset are also changed, then Finalise and Commit.  Every account is
      written faithfully, and the live database is settled again, ready for the next one.  Keeping
      empty accounts takes that no deleted object is marked, as TransactionMeans shows of every run. */
  lemma TransactionWritesBack(base: DB, acts: seq<Action>, order: seq<Address>, del: bool)
    requires AtRest(base) && Run(base, acts).Ok? && SafeRun(base, acts, 0)
    requires var db := Run(base, acts).value;
             && ResetsMarked(db) && (del || LiveMarks(db))
             && Lists(order, db.core.objects.Keys) && WriteBack(db, order, del).Ok?
    ensures var db := Run(base, acts).value;
            var f := WriteBack(db, order, del).value;
            AtRest(f) && forall a :: WrittenFaithfully(db, f.core.stores, a, del)
  {
    hide Settled, Reached, ReadyToWrite, WrittenFaithfully, ResetsMarked, SafeRun, TouchesIn, Run, WriteBack, Lists, Core.Valid;
    var db := Run(base, acts).value;
    var x := TouchesIn(base, acts);
    ReachedStart(base);
    ReachedRun(base.core, base, acts, 0);
    ReachedReady(base.core, db, x, order, del);
    var f := WriteBack(db, order, del).value;
    forall a
      ensures WrittenFaithfully(db, f.core.stores, a, del)
      ensures SettledAt(f.core, a) && RestingAt(f.core, a) && a !in f.core.objectsDirty
    {
      TransactionAt(base.core, db, x, order, a, del);
    }
    RestingCore(db, order, del);
    SettledEverywhere(f.core);
  }

  lemma ReachedReady(base: Core, db: DB, x: nat, order: seq<Address>, del: bool)
    requires Reached(base, db, x) && Lists(order, db.core.objects.Keys) && (del || LiveMarks(db)) && WriteBack(db, order, del).Ok?
    ensures ReadyToWrite(db, order, del)
  {
    hide Tracks, Undoes, WriteBack, Lists;
    UndoesValid(db.core, db.journal.entries, base);
    TracksDistinct(db.journal, x);
  }

  lemma SettledEverywhere(c: Core)
    requires forall a :: SettledAt(c, a)
    ensures Settled(c)
  {
  }

  /** The per-account part of a valid core, and of its stores. */
  ghost predicate RestingAt(c: Core, a: Address) {
    && (a in c.objects ==> c.ValidAt(a))
    && (a in c.stores.accounts ==> c.stores.HasCode(c.stores.accounts[a].codeHash))
  }

  lemma TransactionAt(base: Core, db: DB, x: nat, order: seq<Address>, a: Address, del: bool)
    requires Settled(base) && Reached(base, db, x) && ResetsMarked(db) && ReadyToWrite(db, order, del)
    ensures var f := WriteBack(db, order, del).value.core;
            && WrittenFaithfully(db, f.stores, a, del)
            && SettledAt(f, a) && RestingAt(f, a) && a !in f.objectsDirty
  {
    assert db.core.Valid();
    hide Settled, Reached, ResetsMarked, SettledAt, Persisted, FinalisedAt, SameSlice, CommittedAt,
         DirtyAddresses, WriteBack, Core.Valid, StateObject.Valid, Lists;
    var marked := a in DirtyAddresses(db.journal.dirties);
    var f := WriteBack(db, order, del).value.core;
    var f1 := FinaliseAll(db.core, db.journal.dirties, del).value;
    WriteBackExact(db, order, a, del);
    WriteBackStages(db, order, a, del);
    if !marked {
      UnmarkedReadsLikeStore(base, db, x, a);
      SettledPersists(db.core, a);
    } else if a !in db.core.objects {
      NotLivePersists(db.core, a);
    }
    SettledAfter(db.core, f1, f, a, marked, del);
  }

  lemma SettledPersists(c: Core, a: Address)
    requires SettledAt(c, a)
    ensures Persisted(c, c.stores, a)
  {
  }

  lemma NotLivePersists(c: Core, a: Address)
    requires a !in c.objects
    ensures Persisted(c, c.stores, a) && (c.Lookup(a).Some? ==> !c.Lookup(a).value.suicided)
  {
  }

  lemma RestingCore(db: DB, order: seq<Address>, del: bool)
    requires ReadyToWrite(db, order, del)
    requires var f := WriteBack(db, order, del).value.core;
             forall a :: RestingAt(f, a) && a !in f.objectsDirty
    ensures var f := WriteBack(db, order, del).value;
            && f.core.Valid() && f.core.objectsDirty == {}
            && f.journal == Journals.EMPTY && f.revisions == []
  {
    var f := WriteBack(db, order, del).value.core;
    WriteBackStages(db, order, 0, del);
    assert CodeOk(f.stores);
    forall a | a in f.objects
      ensures f.ValidAt(a)
    {
      assert RestingAt(f, a);
    }
    forall a | a in f.stores.accounts
      ensures f.stores.HasCode(f.stores.accounts[a].codeHash)
    {
      assert RestingAt(f, a);
    }
  }

  // ---------- A reset that is not written back ----------

  lemma ResetMarksNothing(e: Entry)
    requires e.ResetObjectChange?
    ensures AppendAll(Journals.EMPTY, [e]) == Ok(Journal([e], [], map[]))
  {
    assert [e][1..] == [];
    assert [] + [e] == [e];
    var j := Journals.EMPTY.Append(e).value;
    assert AppendAll(j, []) == Ok(j);
  }

  /** CreateAccount over an account of a database at rest. */
  lemma CreateOverExisting(base: DB, a: Address)
    requires AtRest(base) && base.core.Lookup(a).Some?
    ensures Exec(base, Operate(CreateAccount(a))).Ok?
    ensures var db := Exec(base, Operate(CreateAccount(a))).value;
            && db.core.Valid() && db.journal.dirties == [] && db.core.objectsDirty == {}
            && db.core.stores == base.core.stores
            && db.core.Lookup(a) == Some(NewObject(a, Account(base.core.Lookup(a).value.account.balance, 0, EMPTY_CODE_HASH)))
  {
    hide Settled, Core.Valid, Undoes, StateObject.Valid, AppendAll;
    CreateAccountStep(base.core, a);
    var s := Do(base.core, CreateAccount(a)).value;
    UndoesValid(s.core, s.entries, base.core);
    ResetMarksNothing(ResetObjectChange(base.core.Fill(a).Lookup(a).value));
  }

  /** ResetsMarked is needed: CreateAccount alone over an existing account is lost by Finalise
      and Commit exactly when the account had a nonce or code to reset. */
  lemma ResetAloneIsLost(base: DB, a: Address, order: seq<Address>, del: bool)
    requires AtRest(base) && base.core.Lookup(a).Some?
    requires Exec(base, Operate(CreateAccount(a))).Ok?
    requires var db := Exec(base, Operate(CreateAccount(a))).value;
             Lists(order, db.core.objects.Keys) && WriteBack(db, order, del).Ok?
    ensures var db := Exec(base, Operate(CreateAccount(a))).value;
            var acc := base.core.Lookup(a).value.account;
            Persisted(db.core, WriteBack(db, order, del).value.core.stores, a) <==>
            acc.sequence == 0 && acc.codeHash == EMPTY_CODE_HASH
  {
    hide Settled, WriteBack, Core.Valid, Lists, Exec;
    var db := Exec(base, Operate(CreateAccount(a))).value;
    SettledHere(base.core, a);
    CreateOverExisting(base, a);
    WriteBackExact(db, order, a, del);
    assert !IsDirty(db, a);
    assert base.core.stores.accounts[a] == base.core.Lookup(a).value.account;
  }
}
