/** The condition on reverts is not idle: a short run of database calls, from a new database,
    that touches an empty 0x03 and ends in a panic. */
module RipemdRuns {
  import opened EvmTypes
  import opened StateObjects
  import opened Journals
  import opened StateDBs
  import opened Reverting
  import opened Snapshots
  import opened Transactions

  /** A new database over empty stores. */
  const NEW := NewDB(Stores(map[], map[], map[], {}))
  const NEW_CORE := NEW.core

  /** Change account 7, then add nothing to 0x03. */
  const CALLS := [Operate(SetNonce(7, 1)), Operate(AddBalance(RIPEMD, 0))]

  const ENTRIES := [CreateObjectChange(7), NonceChange(7, 0), CreateObjectChange(RIPEMD), TouchChange(RIPEMD)]

  const MARKED := Journal(ENTRIES, [Dirty(7, 2), Dirty(RIPEMD, 3)], map[7 := 0, RIPEMD := 1])

  /** What reverting leaves: 0x03 is the only address listed, at the wrong position. */
  const CORRUPT := Journal([], [Dirty(RIPEMD, 1)], map[RIPEMD := 1])

  /** The entries of the two calls. */
  lemma FirstCall()
    ensures
      var s := Do(NEW_CORE, SetNonce(7, 1));
      && s.Ok? && s.value.entries == [CreateObjectChange(7), NonceChange(7, 0)]
      && s.value.core.Lookup(RIPEMD).None? && RIPEMD !in s.value.core.objects && s.value.core.stores == NEW_CORE.stores
  {
  }

  lemma SecondCall(c: Core)
    requires c.Lookup(RIPEMD).None? && RIPEMD !in c.stores.accounts
    ensures
      var s := Do(c, AddBalance(RIPEMD, 0));
      && s.Ok? && s.value.entries == [CreateObjectChange(RIPEMD), TouchChange(RIPEMD)]
      && Touches(c, Operate(AddBalance(RIPEMD, 0)))
  {
  }

  lemma Appends()
    ensures
      var j := AppendAll(Journals.EMPTY, [CreateObjectChange(7), NonceChange(7, 0)]);
      && j.Ok? && j.value == Journal([CreateObjectChange(7), NonceChange(7, 0)], [Dirty(7, 2)], map[7 := 0])
  {
    var e0, e1 := CreateObjectChange(7), NonceChange(7, 0);
    var j1 := Journals.EMPTY.Append(e0).value;
    assert j1.entries == [e0] && j1.dirties == [Dirty(7, 1)] && j1.index == map[7 := 0];
    var j2 := j1.Append(e1).value;
    assert j2.entries == [e0, e1] && j2.dirties == [Dirty(7, 2)] && j2.index == map[7 := 0];
    assert [e0, e1][1..] == [e1] && [e1][1..] == [];
    assert AppendAll(j2, []) == Ok(j2);
    assert AppendAll(j1, [e1]) == Ok(j2);
  }

  lemma AppendsMore()
    ensures
      var j := Journal([CreateObjectChange(7), NonceChange(7, 0)], [Dirty(7, 2)], map[7 := 0]);
      AppendAll(j, [CreateObjectChange(RIPEMD), TouchChange(RIPEMD)]) == Ok(MARKED)
  {
    var j := Journal([CreateObjectChange(7), NonceChange(7, 0)], [Dirty(7, 2)], map[7 := 0]);
    var e2, e3 := CreateObjectChange(RIPEMD), TouchChange(RIPEMD);
    var j3 := j.Append(e2).value;
    assert j3.dirties == [Dirty(7, 2), Dirty(RIPEMD, 1)] && j3.index == MARKED.index;
    var k := j3.(entries := j3.entries + [e3]).AddDirty(RIPEMD).value;
    assert k.dirties == [Dirty(7, 2), Dirty(RIPEMD, 2)] && k.index == MARKED.index;
    var j4 := k.AddDirty(RIPEMD).value;
    assert j4.entries == ENTRIES && j4.dirties == MARKED.dirties;
    assert j3.Append(e3) == Ok(j4);
    assert [e2, e3][1..] == [e3] && [e3][1..] == [];
    assert AppendAll(j4, []) == Ok(j4);
    assert AppendAll(j3, [e3]) == Ok(j4);
  }

  /** After the snapshot and the two calls. */
  lemma Called()
    ensures
      var r := Run(NEW.Snapshot().0, CALLS);
      r.Ok? && r.value.journal == MARKED
  {
    hide Do, AppendAll, Touches;
    var db := NEW.Snapshot().0;
    FirstCall();
    Appends();
    var db1 := Exec(db, CALLS[0]).value;
    SecondCall(db1.core);
    AppendsMore();
    var db2 := Exec(db1, CALLS[1]).value;
    assert CALLS[1..] == [CALLS[1]] && CALLS[1..][1..] == [];
    assert Run(db2, []) == Ok(db2);
    assert Run(db1, [CALLS[1]]) == Ok(db2);
  }

  lemma PopsTouch()
    ensures MARKED.Pop() == Ok(Journal(ENTRIES[..3], [Dirty(7, 2), Dirty(RIPEMD, 2)], MARKED.index))
  {
    PopDirties(MARKED, RIPEMD);
    assert MARKED.dirties[1 := Dirty(RIPEMD, 2)] == [Dirty(7, 2), Dirty(RIPEMD, 2)];
  }

  lemma PopsCreate()
    ensures
      var j := Journal(ENTRIES[..3], [Dirty(7, 2), Dirty(RIPEMD, 2)], MARKED.index);
      j.Pop() == Ok(Journal(ENTRIES[..2], [Dirty(7, 2), Dirty(RIPEMD, 1)], MARKED.index))
  {
    var j := Journal(ENTRIES[..3], [Dirty(7, 2), Dirty(RIPEMD, 2)], MARKED.index);
    PopDirties(j, RIPEMD);
    assert j.entries[..2] == ENTRIES[..2];
    assert j.dirties[1 := Dirty(RIPEMD, 1)] == [Dirty(7, 2), Dirty(RIPEMD, 1)];
  }

  lemma PopsNonce()
    ensures
      var j := Journal(ENTRIES[..2], [Dirty(7, 2), Dirty(RIPEMD, 1)], MARKED.index);
      j.Pop() == Ok(Journal(ENTRIES[..1], [Dirty(7, 1), Dirty(RIPEMD, 1)], MARKED.index))
  {
    var j := Journal(ENTRIES[..2], [Dirty(7, 2), Dirty(RIPEMD, 1)], MARKED.index);
    PopDirties(j, 7);
    assert j.entries[..1] == ENTRIES[..1];
    assert j.dirties[0 := Dirty(7, 1)] == [Dirty(7, 1), Dirty(RIPEMD, 1)];
  }

  lemma PopsFirst()
    ensures Journal(ENTRIES[..1], [Dirty(7, 1), Dirty(RIPEMD, 1)], MARKED.index).Pop() == Ok(CORRUPT)
  {
    var j := Journal(ENTRIES[..1], [Dirty(7, 1), Dirty(RIPEMD, 1)], MARKED.index);
    PopDirties(j, 7);
    assert j.dirties[..0] + j.dirties[1..] == CORRUPT.dirties;
    assert j.index - {7} == CORRUPT.index;
    assert j.entries[..0] == [];
  }

  lemma Reverts()
    ensures MARKED.Revert(0) == Ok(CORRUPT)
  {
    hide Journal.Pop;
    PopsTouch();
    PopsCreate();
    PopsNonce();
    PopsFirst();
    var j3 := Journal(ENTRIES[..3], [Dirty(7, 2), Dirty(RIPEMD, 2)], MARKED.index);
    var j2 := Journal(ENTRIES[..2], [Dirty(7, 2), Dirty(RIPEMD, 1)], MARKED.index);
    var j1 := Journal(ENTRIES[..1], [Dirty(7, 1), Dirty(RIPEMD, 1)], MARKED.index);
    assert CORRUPT.Revert(0) == Ok(CORRUPT);
    assert j1.Revert(0) == Ok(CORRUPT);
    assert j2.Revert(0) == Ok(CORRUPT);
    assert j3.Revert(0) == Ok(CORRUPT);
  }

  /** A stale 0x03 makes the next change to it panic. */
  lemma StalePanics(db: DB)
    requires Stale(db.journal) && db.core.Lookup(RIPEMD).None? && RIPEMD !in db.core.stores.accounts
    ensures Exec(db, Operate(SetNonce(RIPEMD, 1))).Panic?
  {
    var s := Do(db.core, SetNonce(RIPEMD, 1)).value;
    assert s.entries[0] == CreateObjectChange(RIPEMD);
  }

  /** From a new database: take a snapshot, change account 7, add nothing to 0x03, and revert.  The
      revert succeeds and restores the state, but the dirty index is wrong, and the next change to
      0x03 panics. */
  lemma RipemdRevertBreaksIndex()
    ensures NEW.Valid() && Run(NEW.Snapshot().0, CALLS).Ok?
    ensures
      var db := Run(NEW.Snapshot().0, CALLS).value;
      var r := db.RevertToSnapshot(NEW.Snapshot().1);
      && r.Ok? && !r.value.journal.IndexOk()
      && Indistinguishable(r.value.core, NEW.core)
      && Exec(r.value, Operate(SetNonce(RIPEMD, 1))).Panic?
  {
    hide DB.RevertToSnapshot, Run, Journal.Revert, Exec;
    NewAtRest(NEW_CORE.stores);
    Called();
    Reverts();
    RevertRestores(NEW, CALLS);
    var r := Run(NEW.Snapshot().0, CALLS).value.RevertToSnapshot(NEW.Snapshot().1).value;
    StaleIndex(r.journal);
    LooksNew(r.core);
    StalePanics(r);
  }

  lemma LooksNew(c: Core)
    requires Indistinguishable(c, NEW_CORE)
    ensures c.Lookup(RIPEMD).None? && RIPEMD !in c.stores.accounts
  {
    assert SameAccount(c, NEW_CORE, RIPEMD);
  }
}
